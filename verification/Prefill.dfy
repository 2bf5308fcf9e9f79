/** The prefill queue: which waiting prompts get a share of the next forward, how large
    it is, and in which order the queue goes on. */
module PrefillQueue {
  import opened FairPrefill
  import opened Options
  import C = CacheSteps
  import L = ServingSteps
  import S = SchedulerSteps
  import CacheManagement
  import Paging
  import Scheduling
  import Serving

  /** A waiting prompt.  Once a part of it has been computed it is resident: `cached`
      tokens are done.  `granted` is its progress ledger. */
  datatype Pending = Pending(gen: int, inputLen: nat, resident: bool, cached: nat, granted: nat)

  /** A prompt picked for the next forward: its place in the queue and its cached part. */
  datatype Prepared = Prepared(index: nat, cached: nat)

  datatype Share = Share(gen: int, cached: nat, chunk: nat)

  predicate QueueOk(queue: seq<Pending>) {
    forall i :: 0 <= i < |queue| ==>
      queue[i].inputLen >= 1 && (queue[i].resident ==> queue[i].cached < queue[i].inputLen)
  }

  predicate PickedOk(queue: seq<Pending>, picked: seq<Prepared>) {
    && (forall i :: 0 <= i < |picked| ==>
          && picked[i].index < |queue| && picked[i].cached < queue[picked[i].index].inputLen
          && (queue[picked[i].index].resident ==> picked[i].cached == queue[picked[i].index].cached))
    && (forall i, j :: 0 <= i < j < |picked| ==> picked[i].index < picked[j].index)
  }

  function RemainingOf(queue: seq<Pending>, picked: seq<Prepared>): (r: seq<int>)
    requires PickedOk(queue, picked)
    ensures |r| == |picked|
  {
    seq(|picked|, i requires 0 <= i < |picked| => queue[picked[i].index].inputLen - picked[i].cached)
  }

  function GrantedOf(queue: seq<Pending>, picked: seq<Prepared>): (r: seq<int>)
    requires PickedOk(queue, picked)
    ensures |r| == |picked|
  {
    seq(|picked|, i requires 0 <= i < |picked| => queue[picked[i].index].granted)
  }

  /** How many picked prompts are new, so that they take a table slot. */
  function NewPicked(queue: seq<Pending>, picked: seq<Prepared>): nat
    requires PickedOk(queue, picked)
  {
    if picked == [] then 0
    else
      var n := |picked| - 1;
      NewPicked(queue, picked[..n]) + if queue[picked[n].index].resident then 0 else 1
  }

  predicate Picks(picked: seq<Prepared>, i: nat) {
    exists k :: 0 <= k < |picked| && picked[k].index == i
  }

  /** The prompts that were not picked, in queue order. */
  function Unscheduled(queue: seq<Pending>, picked: seq<Prepared>, n: nat): seq<Pending>
    requires n <= |queue|
  {
    if n == 0 then []
    else Unscheduled(queue, picked, n - 1) + if Picks(picked, n - 1) then [] else [queue[n - 1]]
  }

  /** The record of a picked prompt after its share. */
  function After(queue: seq<Pending>, p: Prepared, chunk: nat): Pending
    requires p.index < |queue|
  {
    var q := queue[p.index];
    q.(resident := p.cached + chunk < q.inputLen, cached := p.cached + chunk, granted := q.granted + chunk)
  }

  /** The picked prompts that are not finished, in queue order. */
  function Unfinished(queue: seq<Pending>, picked: seq<Prepared>, chunks: seq<int>, n: nat): seq<Pending>
    requires n <= |picked| == |chunks| && PickedOk(queue, picked) && forall i :: 0 <= i < |chunks| ==> chunks[i] >= 0
  {
    if n == 0 then []
    else
      var p := After(queue, picked[n - 1], chunks[n - 1]);
      Unfinished(queue, picked, chunks, n - 1) + if p.resident then [p] else []
  }

  /** The queue after a pass: those that were passed over, then those that go on. */
  function Rotated(queue: seq<Pending>, picked: seq<Prepared>, chunks: seq<int>): seq<Pending>
    requires |picked| == |chunks| && PickedOk(queue, picked) && forall i :: 0 <= i < |chunks| ==> chunks[i] >= 0
  {
    Unscheduled(queue, picked, |queue|) + Unfinished(queue, picked, chunks, |picked|)
  }

  lemma RotatedIs(queue: seq<Pending>, picked: seq<Prepared>, chunks: seq<int>)
    requires |picked| == |chunks| && PickedOk(queue, picked) && forall i :: 0 <= i < |chunks| ==> chunks[i] >= 0
    ensures Rotated(queue, picked, chunks)
            == Unscheduled(queue, picked, |queue|) + Unfinished(queue, picked, chunks, |picked|)
  {
  }

  function SharesOf(queue: seq<Pending>, picked: seq<Prepared>, chunks: seq<int>): (r: seq<Share>)
    requires |picked| == |chunks| && PickedOk(queue, picked) && forall i :: 0 <= i < |chunks| ==> chunks[i] >= 0
    ensures |r| == |picked|
  {
    seq(|picked|, i requires 0 <= i < |picked| => Share(queue[picked[i].index].gen, picked[i].cached, chunks[i]))
  }

  lemma NextShare(queue: seq<Pending>, picked: seq<Prepared>, chunks: seq<int>, i: nat)
    requires i < |picked| == |chunks| && PickedOk(queue, picked) && forall j :: 0 <= j < |chunks| ==> chunks[j] >= 0
    ensures SharesOf(queue, picked, chunks)[..i + 1]
            == SharesOf(queue, picked, chunks)[..i] + [Share(queue[picked[i].index].gen, picked[i].cached, chunks[i])]
    ensures Unfinished(queue, picked, chunks, i + 1) == Unfinished(queue, picked, chunks, i)
              + if After(queue, picked[i], chunks[i]).resident then [After(queue, picked[i], chunks[i])] else []
  {
  }

  lemma NoShares(queue: seq<Pending>, picked: seq<Prepared>, chunks: seq<int>)
    requires |picked| == |chunks| && PickedOk(queue, picked) && forall j :: 0 <= j < |chunks| ==> chunks[j] >= 0
    ensures Unfinished(queue, picked, chunks, 0) == [] && Sum(chunks[..0]) == 0
    ensures SharesOf(queue, picked, chunks)[..|picked|] == SharesOf(queue, picked, chunks)
  {
  }

  /** Every resident prompt that was passed over has a picked one in front of it. */
  ghost predicate PassedFairly(queue: seq<Pending>, picked: seq<Prepared>, n: nat)
    requires n <= |queue|
  {
    forall k :: 0 <= k < n && queue[k].resident && !Picks(picked, k) ==> exists j :: 0 <= j < k && Picks(picked, j)
  }

  /** A pass over the queue and what it leaves. */
  ghost predicate PassOk(before: seq<Pending>, picked: seq<Prepared>, chunks: seq<int>, after: seq<Pending>,
                         budget: int, q: int) {
    && PickedOk(before, picked) && |chunks| == |picked| > 0
    && (forall i :: 0 <= i < |chunks| ==> 0 < chunks[i] <= RemainingOf(before, picked)[i])
    && Sum(chunks) <= budget
    && after == Rotated(before, picked, chunks)
    && (budget >= q ==>
          && PassedFairly(before, picked, |before|)
          && GrantsOk(chunks, RemainingOf(before, picked), q)
          && Fair(chunks, GrantedOf(before, picked), RemainingOf(before, picked), q)
          && Exhausted(chunks, RemainingOf(before, picked), q, budget - Sum(chunks)))
  }

  // ----- what a pass leaves

  lemma {:induction false} UnscheduledHas(queue: seq<Pending>, picked: seq<Prepared>, n: nat, x: Pending)
    requires n <= |queue|
    ensures x in Unscheduled(queue, picked, n) <==> exists k: nat :: k < n && !Picks(picked, k) && queue[k] == x
    decreases n
  {
    hide Picks;
    if n > 0 {
      UnscheduledHas(queue, picked, n - 1, x);
    }
  }

  lemma {:induction false} UnscheduledApart(queue: seq<Pending>, picked: seq<Prepared>, n: nat)
    requires n <= |queue| && GensApart(queue)
    ensures GensApart(Unscheduled(queue, picked, n))
    decreases n
  {
    hide Picks;
    if n > 0 {
      UnscheduledApart(queue, picked, n - 1);
      var front := Unscheduled(queue, picked, n - 1);
      forall i | 0 <= i < |front| ensures front[i].gen != queue[n - 1].gen {
        UnscheduledHas(queue, picked, n - 1, front[i]);
      }
    }
  }

  /** The shares of a pass. */
  ghost predicate Chunked(queue: seq<Pending>, picked: seq<Prepared>, chunks: seq<int>) {
    && PickedOk(queue, picked) && |chunks| == |picked|
    && forall i :: 0 <= i < |chunks| ==> 0 < chunks[i] <= RemainingOf(queue, picked)[i]
  }

  lemma {:induction false} UnfinishedHas(queue: seq<Pending>, picked: seq<Prepared>, chunks: seq<int>, n: nat,
                                         x: Pending)
    requires Chunked(queue, picked, chunks) && n <= |picked|
    ensures x in Unfinished(queue, picked, chunks, n) <==>
            exists i: nat :: i < n && After(queue, picked[i], chunks[i]) == x && x.resident
    decreases n
  {
    if n > 0 {
      UnfinishedHas(queue, picked, chunks, n - 1, x);
    }
  }

  lemma {:induction false} UnfinishedApart(queue: seq<Pending>, picked: seq<Prepared>, chunks: seq<int>, n: nat)
    requires Chunked(queue, picked, chunks) && n <= |picked| && GensApart(queue)
    ensures GensApart(Unfinished(queue, picked, chunks, n))
    decreases n
  {
    if n > 0 {
      UnfinishedApart(queue, picked, chunks, n - 1);
      var front := Unfinished(queue, picked, chunks, n - 1);
      forall i | 0 <= i < |front| ensures front[i].gen != queue[picked[n - 1].index].gen {
        UnfinishedHas(queue, picked, chunks, n - 1, front[i]);
      }
    }
  }

  /** Everyone who was not picked comes first, then those who go on. */
  lemma PassApart(queue: seq<Pending>, picked: seq<Prepared>, chunks: seq<int>)
    requires Chunked(queue, picked, chunks) && GensApart(queue)
    ensures GensApart(Rotated(queue, picked, chunks))
  {
    var a, b := Unscheduled(queue, picked, |queue|), Unfinished(queue, picked, chunks, |picked|);
    UnscheduledApart(queue, picked, |queue|);
    UnfinishedApart(queue, picked, chunks, |picked|);
    forall i, j | 0 <= i < |a| && 0 <= j < |b| ensures a[i].gen != b[j].gen {
      UnscheduledHas(queue, picked, |queue|, a[i]);
      UnfinishedHas(queue, picked, chunks, |picked|, b[j]);
      var k: nat :| k < |queue| && !Picks(picked, k) && queue[k] == a[i];
      var l: nat :| l < |picked| && After(queue, picked[l], chunks[l]) == b[j];
      assert Picks(picked, picked[l].index);
    }
  }

  /** The prompt `p` has got `chunk` tokens behind the `from` that were computed, and goes on. */
  predicate Gained(p: Pending, x: Pending, from: nat, chunk: int) {
    && x.gen == p.gen && x.inputLen == p.inputLen && x.resident && x.cached == from + chunk < p.inputLen
    && x.granted == p.granted + chunk
  }

  ghost predicate WentOn(queue: seq<Pending>, picked: seq<Prepared>, chunks: seq<int>, x: Pending) {
    exists i: nat ::
      i < |picked| && i < |chunks| && picked[i].index < |queue|
      && Gained(queue[picked[i].index], x, picked[i].cached, chunks[i])
  }

  ghost predicate LeftAlone(queue: seq<Pending>, picked: seq<Prepared>, x: Pending) {
    exists k: nat :: k < |queue| && !Picks(picked, k) && queue[k] == x
  }

  /** After a pass the queue has whoever was not picked, unchanged, and whoever was picked and
      goes on, with its share added to what is computed and to its ledger, and nobody else. */
  ghost predicate PassTold(before: seq<Pending>, picked: seq<Prepared>, chunks: seq<int>, after: seq<Pending>) {
    forall x :: x in after <==> LeftAlone(before, picked, x) || WentOn(before, picked, chunks, x)
  }

  lemma PassTells(before: seq<Pending>, picked: seq<Prepared>, chunks: seq<int>)
    requires Chunked(before, picked, chunks)
    ensures PassTold(before, picked, chunks, Rotated(before, picked, chunks))
  {
    hide Picks;
    var a, b := Unscheduled(before, picked, |before|), Unfinished(before, picked, chunks, |picked|);
    forall x ensures x in a + b <==> LeftAlone(before, picked, x) || WentOn(before, picked, chunks, x) {
      UnscheduledHas(before, picked, |before|, x);
      UnfinishedHas(before, picked, chunks, |picked|, x);
      if i: nat :| i < |picked| && After(before, picked[i], chunks[i]) == x && x.resident {
        assert Gained(before[picked[i].index], x, picked[i].cached, chunks[i]);
      }
      if WentOn(before, picked, chunks, x) {
        var i: nat :| i < |picked| && Gained(before[picked[i].index], x, picked[i].cached, chunks[i]);
        assert After(before, picked[i], chunks[i]) == x;
      }
    }
  }

  /** The queue entries `k` and `l` end up in this order: whoever was passed over leads, and
      otherwise the old order stays. */
  ghost predicate InTurn(queue: seq<Pending>, picked: seq<Prepared>, x: Pending, y: Pending) {
    exists k: nat, l: nat ::
      k < |queue| && l < |queue| && queue[k].gen == x.gen && queue[l].gen == y.gen
      && (Picks(picked, k) ==> Picks(picked, l)) && ((Picks(picked, k) <==> Picks(picked, l)) ==> k < l)
  }

  lemma {:induction false} UnscheduledOrder(queue: seq<Pending>, picked: seq<Prepared>, n: nat, i: nat, j: nat)
    requires n <= |queue| && i < j < |Unscheduled(queue, picked, n)|
    ensures InTurn(queue, picked, Unscheduled(queue, picked, n)[i], Unscheduled(queue, picked, n)[j])
    decreases n
  {
    hide Picks;
    var front := Unscheduled(queue, picked, n - 1);
    if j < |front| {
      UnscheduledOrder(queue, picked, n - 1, i, j);
    } else {
      UnscheduledHas(queue, picked, n - 1, front[i]);
      var k: nat :| k < n - 1 && !Picks(picked, k) && queue[k] == front[i];
      assert queue[k].gen == front[i].gen && queue[n - 1].gen == queue[n - 1].gen;
    }
  }

  lemma {:induction false} UnfinishedOrder(queue: seq<Pending>, picked: seq<Prepared>, chunks: seq<int>, n: nat,
                                           i: nat, j: nat)
    requires Chunked(queue, picked, chunks) && n <= |picked| && i < j < |Unfinished(queue, picked, chunks, n)|
    ensures InTurn(queue, picked, Unfinished(queue, picked, chunks, n)[i], Unfinished(queue, picked, chunks, n)[j])
    decreases n
  {
    var front := Unfinished(queue, picked, chunks, n - 1);
    if j < |front| {
      UnfinishedOrder(queue, picked, chunks, n - 1, i, j);
    } else {
      UnfinishedHas(queue, picked, chunks, n - 1, front[i]);
      var k: nat :| k < n - 1 && After(queue, picked[k], chunks[k]) == front[i];
      assert Picks(picked, picked[k].index) && Picks(picked, picked[n - 1].index);
      assert queue[picked[k].index].gen == front[i].gen;
    }
  }

  /** Round robin: after a pass whoever was passed over leads, whoever was served follows, and
      either part keeps its order. */
  lemma PassOrder(queue: seq<Pending>, picked: seq<Prepared>, chunks: seq<int>, i: nat, j: nat)
    requires Chunked(queue, picked, chunks) && i < j < |Rotated(queue, picked, chunks)|
    ensures InTurn(queue, picked, Rotated(queue, picked, chunks)[i], Rotated(queue, picked, chunks)[j])
  {
    hide InTurn;
    var a, b := Unscheduled(queue, picked, |queue|), Unfinished(queue, picked, chunks, |picked|);
    if j < |a| {
      UnscheduledOrder(queue, picked, |queue|, i, j);
    } else if i >= |a| {
      UnfinishedOrder(queue, picked, chunks, |picked|, i - |a|, j - |a|);
    } else {
      UnscheduledHas(queue, picked, |queue|, a[i]);
      UnfinishedHas(queue, picked, chunks, |picked|, b[j - |a|]);
      OverServed(queue, picked, chunks, a[i], b[j - |a|]);
    }
  }

  lemma OverServed(queue: seq<Pending>, picked: seq<Prepared>, chunks: seq<int>, x: Pending, y: Pending)
    requires Chunked(queue, picked, chunks)
    requires exists k: nat :: k < |queue| && !Picks(picked, k) && queue[k] == x
    requires exists i: nat :: i < |picked| && After(queue, picked[i], chunks[i]) == y
    ensures InTurn(queue, picked, x, y)
  {
    var k: nat :| k < |queue| && !Picks(picked, k) && queue[k] == x;
    var i: nat :| i < |picked| && After(queue, picked[i], chunks[i]) == y;
    assert Picks(picked, picked[i].index) && queue[k].gen == x.gen && queue[picked[i].index].gen == y.gen;
  }

  // ----- positions

  function Kept(picked: seq<Prepared>, n: nat): nat {
    if n == 0 then 0 else Kept(picked, n - 1) + if Picks(picked, n - 1) then 0 else 1
  }

  lemma {:induction false} KeptFewer(picked: seq<Prepared>, j: nat, n: nat)
    requires j < n && Picks(picked, j)
    ensures Kept(picked, n) < n
    decreases n
  {
    if j < n - 1 {
      KeptFewer(picked, j, n - 1);
    } else {
      KeptAtMost(picked, n - 1);
    }
  }

  lemma {:induction false} KeptAtMost(picked: seq<Prepared>, n: nat)
    ensures Kept(picked, n) <= n
  {
    if n > 0 {
      KeptAtMost(picked, n - 1);
    }
  }

  lemma {:induction false} UnscheduledAt(queue: seq<Pending>, picked: seq<Prepared>, k: nat, n: nat)
    requires k < n <= |queue| && !Picks(picked, k)
    ensures |Unscheduled(queue, picked, n)| == Kept(picked, n) && Kept(picked, k) < Kept(picked, n)
    ensures Unscheduled(queue, picked, n)[Kept(picked, k)] == queue[k]
    decreases n
  {
    UnscheduledSize(queue, picked, n);
    UnscheduledSize(queue, picked, n - 1);
    if k < n - 1 {
      UnscheduledAt(queue, picked, k, n - 1);
    }
  }

  lemma {:induction false} UnscheduledSize(queue: seq<Pending>, picked: seq<Prepared>, n: nat)
    requires n <= |queue|
    ensures |Unscheduled(queue, picked, n)| == Kept(picked, n)
  {
    if n > 0 {
      UnscheduledSize(queue, picked, n - 1);
    }
  }

  /** A resident prompt is served by a pass or moves strictly forward. */
  lemma ServedOrCloser(before: seq<Pending>, picked: seq<Prepared>, chunks: seq<int>, after: seq<Pending>, budget: int,
                       q: int, k: nat)
    requires PassOk(before, picked, chunks, after, budget, q) && budget >= q && k < |before| && before[k].resident
    ensures Picks(picked, k) || exists l :: 0 <= l < k && l < |after| && after[l] == before[k]
  {
    if !Picks(picked, k) {
      var j :| 0 <= j < k && Picks(picked, j);
      UnscheduledAt(before, picked, k, |before|);
      KeptFewer(picked, j, k);
      assert after[Kept(picked, k)] == before[k];
    }
  }

  // ----- the pass

  /** The first `i` prompts have been looked at. */
  ghost predicate Picking(queue: seq<Pending>, picked: seq<Prepared>, budget: int, q: int, i: nat, left: int)
    requires i <= |queue|
  {
    && PickedOk(queue, picked) && (forall j :: 0 <= j < |picked| ==> picked[j].index < i)
    && left == budget - Shares(RemainingOf(queue, picked), q, |picked|) && left >= 0
    && (budget >= q ==> PassedFairly(queue, picked, i))
  }

  lemma {:induction false} SharesPrefix(a: seq<int>, b: seq<int>, q: int, n: nat)
    requires n <= |a| <= |b| && a == b[..|a|]
    ensures Shares(a, q, n) == Shares(b, q, n)
  {
    if n > 0 {
      SharesPrefix(a, b, q, n - 1);
      assert b[..|a|][n - 1] == b[n - 1];
    }
  }

  lemma SharesTaken(queue: seq<Pending>, first: seq<Prepared>, picked: seq<Prepared>, q: int)
    requires first == [] && PickedOk(queue, picked) && q > 0
    ensures Shares(RemainingOf(queue, first), q, |first|) <= Shares(RemainingOf(queue, picked), q, |picked|)
  {
    SharesGrow(RemainingOf(queue, picked), q, 0, |picked|);
  }

  lemma PickNone(queue: seq<Pending>, budget: int, q: int)
    requires budget > 0
    ensures Picking(queue, [], budget, q, 0, budget) && NewPicked(queue, []) == 0
  {
  }

  lemma PickOne(queue: seq<Pending>, picked: seq<Prepared>, budget: int, q: int, i: nat, left: int, cached: nat)
    requires i < |queue| && Picking(queue, picked, budget, q, i, left) && cached < queue[i].inputLen
    requires (queue[i].resident ==> cached == queue[i].cached) && Min(q, queue[i].inputLen - cached) <= left
    ensures Picking(queue, picked + [Prepared(i, cached)], budget, q, i + 1, left - Min(q, queue[i].inputLen - cached))
  {
    var more := picked + [Prepared(i, cached)];
    var n := |picked|;
    assert RemainingOf(queue, more)[..n] == RemainingOf(queue, picked);
    SharesPrefix(RemainingOf(queue, picked), RemainingOf(queue, more), q, n);
    PicksMore(picked, Prepared(i, cached));
  }

  lemma NewPickedMore(queue: seq<Pending>, picked: seq<Prepared>, p: Prepared)
    requires PickedOk(queue, picked) && PickedOk(queue, picked + [p]) && p.index < |queue|
    ensures NewPicked(queue, picked + [p]) == NewPicked(queue, picked) + if queue[p.index].resident then 0 else 1
  {
    assert (picked + [p])[..|picked|] == picked;
  }

  lemma PicksMore(picked: seq<Prepared>, p: Prepared)
    ensures forall j: nat :: Picks(picked + [p], j) <==> Picks(picked, j) || j == p.index
  {
    var more := picked + [p];
    forall j: nat | Picks(picked, j) || j == p.index ensures Picks(more, j) {
      if Picks(picked, j) {
        var k :| 0 <= k < |picked| && picked[k].index == j;
        assert more[k].index == j;
      } else {
        assert more[|picked|].index == j;
      }
    }
  }

  lemma PassOver(queue: seq<Pending>, picked: seq<Prepared>, budget: int, q: int, i: nat, left: int)
    requires i < |queue| && q > 0 && Picking(queue, picked, budget, q, i, left)
    requires queue[i].resident ==> Min(q, queue[i].inputLen - queue[i].cached) > left
    ensures Picking(queue, picked, budget, q, i + 1, left)
  {
    if budget >= q && queue[i].resident {
      assert |picked| > 0;
      assert Picks(picked, picked[0].index);
    }
  }

  lemma PickedAll(queue: seq<Pending>, picked: seq<Prepared>, budget: int, q: int, left: int)
    requires Picking(queue, picked, budget, q, |queue|, left)
    ensures budget >= q && picked == [] ==> forall k :: 0 <= k < |queue| ==> !queue[k].resident
  {
  }

  /** The budget reaches every picked prompt, also in the fallback. */
  lemma PickedReach(queue: seq<Pending>, first: seq<Prepared>, picked: seq<Prepared>, budget: int, q: int)
    requires PickedOk(queue, first) && PickedOk(queue, picked) && budget > 0 && q > 0 && picked != []
    requires Shares(RemainingOf(queue, first), q, |first|) <= budget
    requires (budget >= q ==> PassedFairly(queue, first, |queue|))
    requires if first != [] then picked == first else |picked| == 1
    requires first == [] && budget >= q ==> forall k :: 0 <= k < |queue| ==> !queue[k].resident
    ensures ArgsOk(budget, q, GrantedOf(queue, picked), RemainingOf(queue, picked))
    ensures ReachesAll(budget, q, RemainingOf(queue, picked))
    ensures budget >= q ==> FirstSharesFit(budget, q, RemainingOf(queue, picked))
    ensures budget >= q ==> PassedFairly(queue, picked, |queue|)
  {
    var remaining := RemainingOf(queue, picked);
    if first != [] {
      SharesBefore(remaining, q);
    } else {
      assert Shares(remaining, q, 0) == 0 && Shares(remaining, q, 1) == Min(remaining[0], q);
    }
  }

  lemma SumPart(s: seq<int>, i: nat)
    requires i < |s| && forall j :: 0 <= j < |s| ==> s[j] > 0
    ensures Sum(s[..i + 1]) == Sum(s[..i]) + s[i] && s[i] <= Sum(s) - Sum(s[..i])
  {
    assert s[..i + 1][..i] == s[..i];
    SumTail(s, i + 1);
  }

  lemma {:induction false} SumTail(s: seq<int>, i: nat)
    requires i <= |s| && forall j :: 0 <= j < |s| ==> s[j] > 0
    ensures Sum(s[..i]) <= Sum(s)
    decreases |s| - i
  {
    if i == |s| {
      assert s[..i] == s;
    } else {
      SumTail(s, i + 1);
      assert s[..i + 1][..i] == s[..i];
    }
  }

  lemma StillQueueOk(queue: seq<Pending>, picked: seq<Prepared>, chunks: seq<int>)
    requires QueueOk(queue) && PickedOk(queue, picked) && |chunks| == |picked|
    requires forall i :: 0 <= i < |chunks| ==> chunks[i] >= 0
    ensures QueueOk(Rotated(queue, picked, chunks))
  {
    UnscheduledOk(queue, picked, |queue|);
    UnfinishedOk(queue, picked, chunks, |picked|);
  }

  lemma {:induction false} UnscheduledOk(queue: seq<Pending>, picked: seq<Prepared>, n: nat)
    requires QueueOk(queue) && n <= |queue|
    ensures QueueOk(Unscheduled(queue, picked, n))
  {
    if n > 0 {
      UnscheduledOk(queue, picked, n - 1);
    }
  }

  lemma {:induction false} UnfinishedOk(queue: seq<Pending>, picked: seq<Prepared>, chunks: seq<int>, n: nat)
    requires QueueOk(queue) && PickedOk(queue, picked) && n <= |picked| == |chunks|
    requires forall i :: 0 <= i < |chunks| ==> chunks[i] >= 0
    ensures QueueOk(Unfinished(queue, picked, chunks, n))
  {
    if n > 0 {
      UnfinishedOk(queue, picked, chunks, n - 1);
      assert queue[picked[n - 1].index].inputLen >= 1;
    }
  }

  // ----- the queue and the scheduler

  /** What the queue knows about a prompt is what the scheduler has computed of it. */
  predicate Matches(p: Pending, r: S.Req) {
    p.inputLen == r.prompt && (p.resident <==> r.slot >= 0) && (p.resident ==> p.cached == r.cached)
  }

  ghost predicate InQueue(queue: seq<Pending>, g: int) {
    exists i :: 0 <= i < |queue| && queue[i].gen == g
  }

  ghost predicate GensApart(queue: seq<Pending>) {
    forall i, j :: 0 <= i < j < |queue| ==> queue[i].gen != queue[j].gen
  }

  ghost predicate EntryOk(p: Pending, reqs: map<int, S.Req>) {
    p.gen in reqs && S.Waits(reqs[p.gen]) && Matches(p, reqs[p.gen])
  }

  /** The queue lists exactly the waiting requests, each once and with its progress. */
  ghost predicate SameWaiting(queue: seq<Pending>, reqs: map<int, S.Req>) {
    && GensApart(queue)
    && (forall i :: 0 <= i < |queue| ==> EntryOk(queue[i], reqs))
    && (forall g {:trigger reqs[g]} :: g in reqs && S.Waits(reqs[g]) ==> InQueue(queue, g))
  }

  /** There is no place for a new prompt: no table slot is open, or the cache refuses it. */
  ghost predicate NoPlace(p: Pending, prompts: L.Prompts, reqs: map<int, S.Req>, s: C.Supply, a: L.Adder,
                          ps: Paging.PageSize) {
    || a.open == 0
    || (p.gen in prompts && p.gen in reqs && L.Refused(s, prompts[p.gen], reqs[p.gen].output, a.reserved, ps))
  }

  /** Why a new prompt was passed over: its first share does not fit into what is left of the
      budget, or there is no place for it. */
  ghost predicate PassedOver(p: Pending, prompts: L.Prompts, reqs: map<int, S.Req>, s: C.Supply, a: L.Adder, left: int,
                             q: int, ps: Paging.PageSize) {
    Min(q, p.inputLen) > left || NoPlace(p, prompts, reqs, s, a, ps)
  }

  /** Of the first `n` prompts every new one was picked or had to be passed over. */
  ghost predicate NewPassed(queue: seq<Pending>, picked: seq<Prepared>, n: nat, prompts: L.Prompts,
                            reqs: map<int, S.Req>, s: C.Supply, a: L.Adder, left: int, q: int, ps: Paging.PageSize)
  {
    forall k :: 0 <= k < n <= |queue| && !queue[k].resident && !Picks(picked, k) ==>
      PassedOver(queue[k], prompts, reqs, s, a, left, q, ps)
  }

  ghost predicate NonePlaced(queue: seq<Pending>, n: nat, prompts: L.Prompts, reqs: map<int, S.Req>, s: C.Supply,
                             a: L.Adder, ps: Paging.PageSize)
  {
    forall k :: 0 <= k < n <= |queue| ==> !queue[k].resident && NoPlace(queue[k], prompts, reqs, s, a, ps)
  }

  lemma PassedStays(p: Pending, prompts: L.Prompts, reqs: map<int, S.Req>, s: C.Supply, a: L.Adder, left: int,
                    t: C.Supply, b: L.Adder, less: int, q: int, ps: Paging.PageSize)
    requires PassedOver(p, prompts, reqs, s, a, left, q, ps)
    requires C.Tighter(s, t) && a.reserved <= b.reserved && b.open <= a.open && less <= left
    ensures PassedOver(p, prompts, reqs, t, b, less, q, ps)
    ensures NoPlace(p, prompts, reqs, s, a, ps) ==> NoPlace(p, prompts, reqs, t, b, ps)
  {
    hide L.Refused;
    if p.gen in prompts && p.gen in reqs && L.Refused(s, prompts[p.gen], reqs[p.gen].output, a.reserved, ps) {
      L.RefusedStays(s, t, prompts[p.gen], reqs[p.gen].output, a.reserved, b.reserved, ps);
    }
  }

  /** The next prompt was picked, or passed over for a reason. */
  lemma NewPassedMore(queue: seq<Pending>, picked: seq<Prepared>, more: seq<Prepared>, i: nat, prompts: L.Prompts,
                      reqs: map<int, S.Req>, s: C.Supply, a: L.Adder, left: int, t: C.Supply, b: L.Adder, less: int,
                      q: int, ps: Paging.PageSize)
    requires NewPassed(queue, picked, i, prompts, reqs, s, a, left, q, ps) && i < |queue|
    requires C.Tighter(s, t) && a.reserved <= b.reserved && b.open <= a.open && less <= left
    requires forall k: nat :: Picks(picked, k) ==> Picks(more, k)
    requires queue[i].resident || Picks(more, i) || PassedOver(queue[i], prompts, reqs, t, b, less, q, ps)
    ensures NewPassed(queue, more, i + 1, prompts, reqs, t, b, less, q, ps)
  {
    hide PassedOver, NoPlace;
    forall k | 0 <= k < i + 1 && !queue[k].resident && !Picks(more, k)
      ensures PassedOver(queue[k], prompts, reqs, t, b, less, q, ps)
    {
      if k < i {
        PassedStays(queue[k], prompts, reqs, s, a, left, t, b, less, q, ps);
      }
    }
  }

  lemma NonePlacedMore(queue: seq<Pending>, i: nat, prompts: L.Prompts, reqs: map<int, S.Req>, s: C.Supply, a: L.Adder,
                       t: C.Supply, b: L.Adder, ps: Paging.PageSize)
    requires NonePlaced(queue, i, prompts, reqs, s, a, ps) && i < |queue|
    requires C.Tighter(s, t) && a.reserved <= b.reserved && b.open <= a.open
    requires !queue[i].resident && NoPlace(queue[i], prompts, reqs, t, b, ps)
    ensures NonePlaced(queue, i + 1, prompts, reqs, t, b, ps)
  {
    hide NoPlace;
    forall k | 0 <= k < i ensures NoPlace(queue[k], prompts, reqs, t, b, ps) {
      PassedStays(queue[k], prompts, reqs, s, a, 0, t, b, 0, 0, ps);
    }
  }

  /** The rows of the picked prompts: each goes on where it stopped, a new one behind its
      stored prefix. */
  ghost predicate Gathers(queue: seq<Pending>, picked: seq<Prepared>, batch: seq<C.Extend>) {
    && PickedOk(queue, picked) && |batch| == |picked|
    && forall j :: 0 <= j < |batch| ==>
         batch[j].req == queue[picked[j].index].gen && batch[j].cachedLen == picked[j].cached
  }

  /** The rows of the shares. */
  function ExtendsOf(shares: seq<Share>): (batch: seq<C.Extend>)
    ensures |batch| == |shares|
    ensures forall j :: 0 <= j < |batch| ==>
      batch[j] == C.Extend(shares[j].gen, shares[j].cached, shares[j].cached + shares[j].chunk)
  {
    seq(|shares|, j requires 0 <= j < |shares| =>
      C.Extend(shares[j].gen, shares[j].cached, shares[j].cached + shares[j].chunk))
  }

  /** A prompt further back in the queue is not in the batch. */
  lemma NotGathered(queue: seq<Pending>, picked: seq<Prepared>, batch: seq<C.Extend>, i: nat)
    requires Gathers(queue, picked, batch) && GensApart(queue) && i < |queue|
    requires forall j :: 0 <= j < |picked| ==> picked[j].index < i
    ensures !L.InBatch(batch, queue[i].gen)
  {
    forall j | 0 <= j < |batch| ensures batch[j].req != queue[i].gen {
      assert picked[j].index < i;
    }
  }

  lemma GathersMore(queue: seq<Pending>, picked: seq<Prepared>, batch: seq<C.Extend>, i: nat, e: C.Extend)
    requires Gathers(queue, picked, batch) && i < |queue| && e.req == queue[i].gen && e.cachedLen < queue[i].inputLen
    requires forall j :: 0 <= j < |picked| ==> picked[j].index < i
    requires queue[i].resident ==> e.cachedLen == queue[i].cached
    ensures Gathers(queue, picked + [Prepared(i, e.cachedLen)], batch + [e])
  {
  }

  lemma NothingPicked(queue: seq<Pending>)
    ensures Gathers(queue, [], []) && NewPicked(queue, []) == 0
  {
  }

  /** The shares of a pass in place of the first position of each prompt.  This is what the
      scheduler demands of a prefill batch. */
  lemma Admissible(queue: seq<Pending>, picked: seq<Prepared>, chunks: seq<int>, batch: seq<C.Extend>,
                   reqs: map<int, S.Req>)
    requires SameWaiting(queue, reqs) && Gathers(queue, picked, batch) && |chunks| == |picked|
    requires forall i :: 0 <= i < |chunks| ==> 0 < chunks[i] <= RemainingOf(queue, picked)[i]
    ensures L.Longer(batch, ExtendsOf(SharesOf(queue, picked, chunks)), reqs)
  {
    hide InQueue, S.Waits;
    var longer := ExtendsOf(SharesOf(queue, picked, chunks));
    forall j | 0 <= j < |batch| ensures L.LongerOne(batch[j], longer[j], reqs) {
      assert EntryOk(queue[picked[j].index], reqs);
      assert chunks[j] <= RemainingOf(queue, picked)[j];
    }
  }

  // ----- the manager

  class PrefillManager {
    const server: Serving.Server
    var pending: seq<Pending>

    constructor (server: Serving.Server)
      ensures pending == [] && this.server == server
    {
      this.server := server;
      pending := [];
    }

    method AddOneReq(gen: int, inputLen: nat)
      requires QueueOk(pending) && inputLen >= 1
      modifies this`pending
      ensures QueueOk(pending) && pending == old(pending) + [Pending(gen, inputLen, false, 0, 0)]
    {
      pending := pending + [Pending(gen, inputLen, false, 0, 0)];
    }

    /** The server has prepared what was picked from the queue so far. */
    ghost predicate Gathering(picked: seq<Prepared>, batch: seq<C.Extend>, a: L.Adder)
      reads this, server, server.scheduler, server.manager, server.manager.cache, server.manager.pool
    {
      && server.Preparing(batch, a) && SameWaiting(pending, server.scheduler.reqs) && Gathers(pending, picked, batch)
      && a.open + NewPicked(pending, picked) == |server.scheduler.freeSlots|
    }

    ghost predicate NoPlaceNow(p: Pending, a: L.Adder)
      reads server, server.scheduler, server.manager`free, server.manager.cache, server.manager.pool
    {
      NoPlace(p, server.prompts, server.scheduler.reqs, server.manager.Supplies(), a, server.manager.pageSize)
    }

    /** Of the first `n` prompts every new one was picked or had to be passed over. */
    ghost predicate NewPassedNow(picked: seq<Prepared>, n: nat, a: L.Adder, left: int, q: int)
      reads this, server, server.scheduler, server.manager`free, server.manager.cache, server.manager.pool
    {
      NewPassed(pending, picked, n, server.prompts, server.scheduler.reqs, server.manager.Supplies(), a, left, q,
        server.manager.pageSize)
    }

    /** None of the first `n` prompts is resident, and there is no place for any of them. */
    ghost predicate NonePlacedNow(n: nat, a: L.Adder)
      reads this, server, server.scheduler, server.manager`free, server.manager.cache, server.manager.pool
    {
      NonePlaced(pending, n, server.prompts, server.scheduler.reqs, server.manager.Supplies(), a,
        server.manager.pageSize)
    }

    /** Prepares the prompt at `i`: a resident one always, a new one if a table slot is open
        and the cache takes it. */
    method TryPrepareOne(i: nat, p: Pending, a: L.Adder, ghost picked: seq<Prepared>, ghost batch: seq<C.Extend>)
      returns (e: Option<C.Extend>, now: L.Adder, ghost v: L.Verdict)
      requires i < |pending| && pending[i] == p && QueueOk(pending)
      requires forall j :: 0 <= j < |picked| ==> picked[j].index < i
      requires Gathering(picked, batch, a)
      modifies server`evicted, server`older, server.manager, server.manager.cache
      ensures server.manager.inRegion == old(server.manager.inRegion)
      ensures p.resident ==> e.Some?
      ensures !p.resident && a.open == 0 ==> e.None?
      ensures !p.resident && a.open > 0 ==>
        server.Admitted(p.gen, a.reserved, L.BeginOf(e), v, old(server.manager.Supplies()))
      ensures C.Tighter(old(server.manager.Supplies()), server.manager.Supplies())
      ensures a.reserved <= now.reserved && now.open <= a.open
      ensures e.None? ==> NoPlaceNow(p, now)
      ensures e.Some? ==> e.value.cachedLen < p.inputLen && (p.resident ==> e.value.cachedLen == p.cached)
      ensures e.Some? ==> Gathering(picked + [Prepared(i, e.value.cachedLen)], batch + [e.value], now)
      ensures e.None? ==> Gathering(picked, batch, now)
    {
      hide Serving.Server.Preparing, Serving.Server.Admitted, Serving.Server.View, L.Started, InQueue, S.Waits,
        NewPicked, CacheManagement.CacheManager.Valid, Scheduling.Scheduler.Valid, C.Tighter, L.Refused,
        CacheManagement.CacheManager.Supplies;
      ghost var before := server.manager.Supplies();
      assert EntryOk(p, server.scheduler.reqs);
      NotGathered(pending, picked, batch, i);
      server.WaitingPending(batch, a, p.gen);
      e, now, v := server.Prepare(p.gen, a, batch);
      if e.Some? {
        GathersMore(pending, picked, batch, i, e.value);
        NewPickedMore(pending, picked, Prepared(i, e.value.cachedLen));
      } else if a.open > 0 {
        RefusedNow(p, a.reserved, v, before);
      }
    }

    lemma RefusedNow(p: Pending, reserved: nat, v: L.Verdict, before: C.Supply)
      requires server.Admitted(p.gen, reserved, None, v, before) && C.Tighter(before, server.manager.Supplies())
      ensures p.gen in server.prompts && p.gen in server.scheduler.reqs
      ensures L.Refused(server.manager.Supplies(), server.prompts[p.gen], server.scheduler.reqs[p.gen].output,
                reserved, server.manager.pageSize)
    {
      hide L.Answered, C.Tighter, CacheManagement.CacheManager.Supplies;
      var prompt, output := server.prompts[p.gen], server.scheduler.reqs[p.gen].output;
      assert L.Refused(before, prompt, output, reserved, server.manager.pageSize);
      L.RefusedStays(before, server.manager.Supplies(), prompt, output, reserved, reserved, server.manager.pageSize);
    }

    /** Picks prompts in queue order as long as their first share fits. */
    method PickFirstShares(budget: int, q: int, a: L.Adder)
      returns (raised: bool, picked: seq<Prepared>, batch: seq<C.Extend>, now: L.Adder)
      requires QueueOk(pending) && q > 0 && budget > 0 && Gathering([], [], a)
      modifies server`evicted, server`older, server.manager, server.manager.cache
      ensures server.manager.inRegion == old(server.manager.inRegion)
      ensures !raised && Gathering(picked, batch, now)
      ensures Shares(RemainingOf(pending, picked), q, |picked|) <= budget
      ensures budget >= q ==> PassedFairly(pending, picked, |pending|)
      ensures budget >= q && picked == [] ==> forall k :: 0 <= k < |pending| ==> !pending[k].resident
      ensures NewPassedNow(picked, |pending|, now, budget - Shares(RemainingOf(pending, picked), q, |picked|), q)
    {
      hide NewPicked, Shares, PassedFairly, RemainingOf, Gathering, NewPassed, PassedOver, NoPlace, C.Tighter,
        CacheManagement.CacheManager.Supplies;
      picked, raised, batch, now := [], false, [], a;
      var left := budget;
      PickNone(pending, budget, q);
      NoneLookedAt(a, budget, q);
      for i := 0 to |pending|
        invariant Picking(pending, picked, budget, q, i, left) && !raised
        invariant Gathering(picked, batch, now) && server.manager.inRegion == old(server.manager.inRegion)
        invariant NewPassedNow(picked, i, now, left, q)
        modifies server`evicted, server`older, server.manager, server.manager.cache
      {
        var p := pending[i];
        ghost var was, s, b, room := picked, server.manager.Supplies(), now, left;
        SameSupply(s);
        var known := if p.resident then p.inputLen - p.cached else p.inputLen;
        var e := None;
        if Min(q, known) <= left {
          ghost var v;
          e, now, v := TryPrepareOne(i, p, now, picked, batch);
        }
        if e.Some? {
          var actual := Min(q, p.inputLen - e.value.cachedLen);
          if actual > left {
            return true, picked, batch, now;
          }
          PickOne(pending, picked, budget, q, i, left, e.value.cachedLen);
          picked := picked + [Prepared(i, e.value.cachedLen)];
          batch := batch + [e.value];
          left := left - actual;
          PicksMore(was, Prepared(i, e.value.cachedLen));
        } else {
          PassOver(pending, picked, budget, q, i, left);
          WhyPassed(p, now, left, q);
        }
        NewPassedMore(pending, was, picked, i, server.prompts, server.scheduler.reqs, s, b, room,
          server.manager.Supplies(), now, left, q, server.manager.pageSize);
      }
      PickedAll(pending, picked, budget, q, left);
    }

    lemma WhyPassed(p: Pending, a: L.Adder, left: int, q: int)
      ensures Min(q, p.inputLen) > left || NoPlaceNow(p, a) ==>
        PassedOver(p, server.prompts, server.scheduler.reqs, server.manager.Supplies(), a, left, q,
          server.manager.pageSize)
    {
    }

    lemma NoneLookedAt(a: L.Adder, left: int, q: int)
      ensures NewPassedNow([], 0, a, left, q) && NonePlacedNow(0, a)
    {
    }

    lemma SameSupply(s: C.Supply)
      ensures C.Tighter(s, s)
    {
    }

    lemma TighterTwice(r: C.Supply, s: C.Supply, t: C.Supply)
      requires C.Tighter(r, s) && C.Tighter(s, t)
      ensures C.Tighter(r, t)
    {
    }

    /** With a budget below one page still one prompt moves. */
    method PickAny(a: L.Adder) returns (picked: seq<Prepared>, batch: seq<C.Extend>, now: L.Adder)
      requires QueueOk(pending) && Gathering([], [], a)
      modifies server`evicted, server`older, server.manager, server.manager.cache
      ensures server.manager.inRegion == old(server.manager.inRegion)
      ensures Gathering(picked, batch, now) && |picked| <= 1
      ensures C.Tighter(old(server.manager.Supplies()), server.manager.Supplies())
      ensures a.reserved <= now.reserved && now.open <= a.open
      ensures picked == [] ==> NonePlacedNow(|pending|, now)
    {
      hide Gathering, NonePlaced, NoPlace, C.Tighter, CacheManagement.CacheManager.Supplies, Serving.Server.Admitted,
        L.BeginOf, NewPicked, Picks;
      now := a;
      NoneLookedAt(a, 0, 0);
      SameSupply(server.manager.Supplies());
      for i := 0 to |pending|
        invariant Gathering([], [], now) && server.manager.inRegion == old(server.manager.inRegion)
        invariant C.Tighter(old(server.manager.Supplies()), server.manager.Supplies())
        invariant a.reserved <= now.reserved && now.open <= a.open
        invariant NonePlacedNow(i, now)
        modifies server`evicted, server`older, server.manager, server.manager.cache
      {
        ghost var s, b := server.manager.Supplies(), now;
        var e;
        ghost var v;
        e, now, v := TryPrepareOne(i, pending[i], now, [], []);
        TighterTwice(old(server.manager.Supplies()), s, server.manager.Supplies());
        if e.Some? {
          assert [] + [Prepared(i, e.value.cachedLen)] == [Prepared(i, e.value.cachedLen)];
          assert [] + [e.value] == [e.value];
          return [Prepared(i, e.value.cachedLen)], [e.value], now;
        }
        NonePlacedMore(pending, i, server.prompts, server.scheduler.reqs, s, b, server.manager.Supplies(), now,
          server.manager.pageSize);
      }
      picked, batch := [], [];
    }

    /** Whoever was passed over before the second look still is. */
    lemma NewPassedLater(s: C.Supply, a: L.Adder, b: L.Adder, first: seq<Prepared>, picked: seq<Prepared>, left: int,
                         less: int, q: int)
      requires NewPassed(pending, first, |pending|, server.prompts, server.scheduler.reqs, s, a, left, q,
                 server.manager.pageSize)
      requires C.Tighter(s, server.manager.Supplies()) && a.reserved <= b.reserved && b.open <= a.open
      requires less <= left && first == []
      ensures NewPassedNow(picked, |pending|, b, less, q)
    {
      hide PassedOver, NoPlace, C.Tighter, CacheManagement.CacheManager.Supplies;
      forall k | 0 <= k < |pending| && !pending[k].resident && !Picks(picked, k)
        ensures PassedOver(pending[k], server.prompts, server.scheduler.reqs, server.manager.Supplies(), b, less, q,
                  server.manager.pageSize)
      {
        PassedStays(pending[k], server.prompts, server.scheduler.reqs, s, a, left, server.manager.Supplies(), b, less,
          q, server.manager.pageSize);
      }
    }

    /** Picks the prompts of the next batch. */
    method PickSome(budget: int)
      returns (raised: bool, picked: seq<Prepared>, ghost batch: seq<C.Extend>, ghost now: L.Adder)
      requires QueueOk(pending) && budget > 0
      requires server.Valid() && server.scheduler.ongoing == [] && SameWaiting(pending, server.scheduler.reqs)
      modifies server`evicted, server`older, server.manager, server.manager.cache
      ensures server.manager.inRegion == old(server.manager.inRegion)
      ensures !raised && Gathering(picked, batch, now)
      ensures picked != [] ==> ArgsOk(budget, Quantum(), GrantedOf(pending, picked), RemainingOf(pending, picked))
      ensures picked != [] ==> ReachesAll(budget, Quantum(), RemainingOf(pending, picked))
      ensures picked != [] && budget >= Quantum() ==>
        FirstSharesFit(budget, Quantum(), RemainingOf(pending, picked)) && PassedFairly(pending, picked, |pending|)
      ensures picked == [] ==> NonePlacedNow(|pending|, now)
      ensures NewPassedNow(picked, |pending|, now,
                budget - Shares(RemainingOf(pending, picked), Quantum(), |picked|), Quantum())
    {
      hide NewPicked, Shares, PassedFairly, RemainingOf, GrantedOf, Serving.Server.Valid, Serving.Server.Preparing,
        SameWaiting, NewPassed, NonePlaced, C.Tighter, CacheManagement.CacheManager.Supplies;
      var q := Quantum();
      var a := server.StartBatch();
      NothingPicked(pending);
      var first, rows;
      raised, first, rows, a := PickFirstShares(budget, q, a);
      picked, batch, now := first, rows, a;
      if |picked| == 0 {
        ghost var s, b := server.manager.Supplies(), a;
        picked, rows, a := PickAny(a);
        batch, now := rows, a;
        SharesTaken(pending, first, picked, q);
        NewPassedLater(s, b, a, first, picked, budget - Shares(RemainingOf(pending, first), q, |first|),
          budget - Shares(RemainingOf(pending, picked), q, |picked|), q);
      }
      if |picked| > 0 {
        PickedReach(pending, first, picked, budget, q);
      }
    }

    /** All free slots are open, and only what has been admitted before is reserved. */
    ghost function AllOpen(): L.Adder
      reads server.scheduler
    {
      L.Adder(|server.scheduler.freeSlots|, S.Reserved(server.scheduler.reqs, server.manager.pageSize))
    }

    function LeftOver(queue: seq<Pending>, picked: seq<Prepared>, budget: int): int {
      if PickedOk(queue, picked) then budget - Shares(RemainingOf(queue, picked), Quantum(), |picked|) else budget
    }

    lemma NoneResident(a: L.Adder)
      requires NonePlacedNow(|pending|, a)
      ensures forall k :: 0 <= k < |pending| ==> !pending[k].resident
    {
      hide NoPlace;
    }

    lemma NobodyWaits()
      requires pending == []
      ensures NonePlacedNow(|pending|, AllOpen())
    {
    }

    lemma GatheringMeans(picked: seq<Prepared>, batch: seq<C.Extend>, a: L.Adder)
      requires Gathering(picked, batch, a)
      ensures PickedOk(pending, picked) && Gathers(pending, picked, batch) && server.Preparing(batch, a)
      ensures SameWaiting(pending, server.scheduler.reqs)
      ensures NewPicked(pending, picked) <= |server.scheduler.freeSlots|
    {
      hide Serving.Server.Preparing, SameWaiting, NewPicked;
    }

    lemma NothingTaken(batch: seq<C.Extend>, a: L.Adder)
      requires Gathering([], batch, a)
      ensures a == AllOpen() && batch == []
    {
      hide CacheManagement.CacheManager.Valid, Scheduling.Scheduler.Valid, L.Ready, L.WindowsKept, L.WindowsTrimmed,
        S.Reserved, SameWaiting;
    }

    /** One prefill batch.  None of the budget errors can be raised; the new queue is the
        old one without the finished prompts, those that were passed over first.  The rows of
        the batch are prepared. */
    method ScheduleNextBatch(budget: int)
      returns (raised: bool, shares: seq<Share>, picked: seq<Prepared>, chunks: seq<int>, ghost a: L.Adder)
      requires QueueOk(pending) && budget > 0
      requires server.Valid() && server.scheduler.ongoing == [] && SameWaiting(pending, server.scheduler.reqs)
      modifies this`pending, server`evicted, server`older, server.manager, server.manager.cache
      ensures server.manager.inRegion == old(server.manager.inRegion)
      ensures !raised && QueueOk(pending)
      ensures shares == [] ==> pending == old(pending) && server.Valid()
      ensures shares == [] ==> NonePlacedNow(|pending|, AllOpen())
      ensures shares == [] ==> forall k :: 0 <= k < |pending| ==> !pending[k].resident
      ensures shares != [] ==> PassOk(old(pending), picked, chunks, pending, budget, Quantum())
      ensures shares != [] ==> PassTold(old(pending), picked, chunks, pending)
      ensures shares != [] ==> shares == SharesOf(old(pending), picked, chunks)
      ensures shares != [] ==> NewPicked(old(pending), picked) <= |server.scheduler.freeSlots|
      ensures shares != [] ==>
        NewPassed(old(pending), picked, |old(pending)|, server.prompts, server.scheduler.reqs,
          server.manager.Supplies(), a, LeftOver(old(pending), picked, budget), Quantum(), server.manager.pageSize)
      ensures shares != [] ==> server.Preparing(ExtendsOf(shares), a)
    {
      hide Shares, PassedFairly, GrantsOk, Fair, Exhausted, Sum, NewPicked, Unscheduled, Unfinished, RemainingOf,
        GrantedOf, SharesOf, ExtendsOf, Serving.Server.Valid, Serving.Server.Preparing, SameWaiting, NewPassed,
        NonePlaced, S.Reserved, CacheManagement.CacheManager.Supplies, Gathering, Gathers, Rotated, L.Longer, PassTold;
      shares, picked, chunks := [], [], [];
      a := L.Adder(0, 0);
      if |pending| == 0 {
        NobodyWaits();
        return false, [], [], [], a;
      }
      var some;
      ghost var batch;
      raised, some, batch, a := PickSome(budget);
      GatheringMeans(some, batch, a);
      if |some| == 0 {
        NothingTaken(batch, a);
        NoneResident(a);
        server.NothingPrepared(a);
        return;
      }
      var split := AllocateFairPrefillChunks(budget, Quantum(), GrantedOf(pending, some), RemainingOf(pending, some));
      if split.Raised? {
        return true, [], some, [], a;
      }
      picked, chunks := some, split.grants;
      var queue := pending;
      var waiting := Waiting(queue, some);
      var unfinished;
      raised, shares, unfinished := Grant(queue, some, split.grants, budget);
      Admissible(queue, some, split.grants, batch, server.scheduler.reqs);
      server.PreparingLonger(batch, ExtendsOf(shares), a);
      RotatedIs(queue, some, split.grants);
      pending := waiting + unfinished;
      PassTells(queue, some, split.grants);
      StillQueueOk(queue, some, split.grants);
    }

    /** The prompts a pass did not pick. */
    static method Waiting(queue: seq<Pending>, picked: seq<Prepared>) returns (waiting: seq<Pending>)
      ensures waiting == Unscheduled(queue, picked, |queue|)
    {
      waiting := [];
      for i := 0 to |queue|
        invariant waiting == Unscheduled(queue, picked, i)
      {
        if !Picks(picked, i) {
          waiting := waiting + [queue[i]];
        }
      }
    }

    /** Turns the shares into requests and collects the prompts that go on. */
    static method Grant(queue: seq<Pending>, picked: seq<Prepared>, chunks: seq<int>, budget: int)
      returns (raised: bool, batch: seq<Share>, unfinished: seq<Pending>)
      requires PickedOk(queue, picked) && |chunks| == |picked| && Sum(chunks) <= budget
      requires forall i :: 0 <= i < |chunks| ==> 0 < chunks[i] <= RemainingOf(queue, picked)[i]
      ensures !raised && batch == SharesOf(queue, picked, chunks)
      ensures unfinished == Unfinished(queue, picked, chunks, |picked|)
    {
      hide Unfinished, SharesOf, Sum;
      batch, unfinished := [], [];
      var left := budget;
      NoShares(queue, picked, chunks);
      for i := 0 to |picked|
        invariant batch == SharesOf(queue, picked, chunks)[..i] && unfinished == Unfinished(queue, picked, chunks, i)
        invariant left == budget - Sum(chunks[..i])
      {
        SumPart(chunks, i);
        NextShare(queue, picked, chunks, i);
        var p, chunk := picked[i], chunks[i];
        var entry := queue[p.index];
        if !(0 < chunk <= entry.inputLen - p.cached) || chunk > left {
          return true, batch, unfinished;
        }
        left := left - chunk;
        batch := batch + [Share(entry.gen, p.cached, chunk)];
        if p.cached + chunk < entry.inputLen {
          unfinished := unfinished
            + [entry.(resident := true, cached := p.cached + chunk, granted := entry.granted + chunk)];
        }
      }
      raised := false;
    }

    function Quantum(): (q: nat)
      ensures q == server.manager.pageSize
    {
      C.Max(1, server.manager.pageSize)
    }
  }
}
