/** What the progress ledgers of waiting prompts count over whole runs, and that they keep
    prompts that are served together close to each other. */
module ProgressLedger {
  import opened BatchChoice
  import opened FairPrefill
  import opened Options
  import opened PrefillQueue
  import P = PhasePolicy

  // ----- arrivals

  /** No prompt arrives under a generation that is in the queue. */
  ghost predicate Fresh(queue: seq<Pending>, msgs: seq<Msg>)
    decreases |msgs|
  {
    msgs != [] ==>
      var n := |msgs| - 1;
      Fresh(queue, msgs[..n]) && (msgs[n].Arrive? ==> !InQueue(Receive(queue, msgs[..n]), msgs[n].gen))
  }

  lemma FreshNone(queue: seq<Pending>)
    ensures Fresh(queue, [])
  {
  }

  lemma FreshMore(queue: seq<Pending>, msgs: seq<Msg>, m: Msg)
    requires Fresh(queue, msgs) && (m.Arrive? ==> !InQueue(Receive(queue, msgs), m.gen))
    ensures Fresh(queue, msgs + [m])
  {
    assert (msgs + [m])[..|msgs|] == msgs;
  }

  ghost predicate Arrives(msgs: seq<Msg>, g: int) {
    exists i :: 0 <= i < |msgs| && msgs[i].Arrive? && msgs[i].gen == g
  }

  lemma ArrivesLast(msgs: seq<Msg>, g: int)
    requires msgs != []
    ensures var n := |msgs| - 1;
            Arrives(msgs, g) <==> Arrives(msgs[..n], g) || (msgs[n].Arrive? && msgs[n].gen == g)
  {
    var n := |msgs| - 1;
    if Arrives(msgs[..n], g) {
      var i :| 0 <= i < n && msgs[..n][i].Arrive? && msgs[..n][i].gen == g;
      assert msgs[i].Arrive? && msgs[i].gen == g;
    }
    if i :| 0 <= i < n && msgs[i].Arrive? && msgs[i].gen == g {
      assert msgs[..n][i] == msgs[i];
    }
  }

  /** An entry that has just arrived, or one that was there and stays. */
  ghost predicate FromQueue(queue: seq<Pending>, msgs: seq<Msg>, x: Pending) {
    if Arrives(msgs, x.gen) then x.granted == 0 else x in queue
  }

  lemma {:induction false} Received(queue: seq<Pending>, msgs: seq<Msg>)
    requires GensApart(queue) && Fresh(queue, msgs)
    ensures GensApart(Receive(queue, msgs))
    ensures forall x :: x in Receive(queue, msgs) ==> FromQueue(queue, msgs, x)
    decreases |msgs|
  {
    hide Without, InQueue, Arrives;
    if msgs == [] {
      NobodyArrives();
    } else {
      var n := |msgs| - 1;
      var before := Receive(queue, msgs[..n]);
      Received(queue, msgs[..n]);
      forall x ensures Arrives(msgs, x) <==> Arrives(msgs[..n], x) || (msgs[n].Arrive? && msgs[n].gen == x) {
        ArrivesLast(msgs, x);
      }
      match msgs[n]
      case Arrive(g, size) =>
        Joined(before, Pending(g, size, false, 0, 0));
      case Abort(g) =>
        Left(before, g);
    }
  }

  lemma NobodyArrives()
    ensures forall g :: !Arrives([], g)
  {
  }

  lemma Joined(queue: seq<Pending>, p: Pending)
    requires GensApart(queue) && !InQueue(queue, p.gen)
    ensures GensApart(queue + [p]) && forall x :: x in queue ==> x.gen != p.gen
  {
  }

  lemma Left(queue: seq<Pending>, g: int)
    requires GensApart(queue)
    ensures GensApart(Without(queue, g)) && forall x :: x in Without(queue, g) ==> x in queue
  {
    hide GensApart;
    if InQueue(queue, g) {
      Removed(queue, g);
    } else {
      assert Find(queue, g) == |queue|;
    }
  }

  // ----- what a pass gives

  /** What the first `n` picks give to the prompt `g`. */
  function Portion(queue: seq<Pending>, picked: seq<Prepared>, chunks: seq<int>, g: int, n: nat): int
    requires n <= |picked| && n <= |chunks|
  {
    if n == 0 then 0
    else
      var k := picked[n - 1].index;
      Portion(queue, picked, chunks, g, n - 1) + if k < |queue| && queue[k].gen == g then chunks[n - 1] else 0
  }

  /** The prompt tokens that the step computes for `g`. */
  function Given(a: State, e: Event, g: int): int {
    if |e.picked| <= |e.chunks| then Portion(Receive(a.queue, e.msgs), e.picked, e.chunks, g, |e.picked|) else 0
  }

  lemma {:induction false} PortionOf(queue: seq<Pending>, picked: seq<Prepared>, chunks: seq<int>, i: nat, n: nat)
    requires GensApart(queue) && PickedOk(queue, picked) && i < |picked| && n <= |picked| == |chunks|
    ensures Portion(queue, picked, chunks, queue[picked[i].index].gen, n) == if i < n then chunks[i] else 0
  {
    if n > 0 {
      PortionOf(queue, picked, chunks, i, n - 1);
    }
  }

  lemma {:induction false} NoPortion(queue: seq<Pending>, picked: seq<Prepared>, chunks: seq<int>, k: nat, n: nat)
    requires GensApart(queue) && PickedOk(queue, picked) && k < |queue| && !Picks(picked, k)
    requires n <= |picked| == |chunks|
    ensures Portion(queue, picked, chunks, queue[k].gen, n) == 0
  {
    if n > 0 {
      NoPortion(queue, picked, chunks, k, n - 1);
      assert picked[n - 1].index != k;
    }
  }

  /** A step adds what it gives to the ledger of every prompt that goes on waiting. */
  lemma StepCounts(a: State, e: Event, b: State, q: nat)
    requires Step(a, e, b, q) && GensApart(a.queue) && Fresh(a.queue, e.msgs)
    ensures GensApart(b.queue)
    ensures forall x :: x in b.queue ==>
      exists y :: y in Receive(a.queue, e.msgs) && y.gen == x.gen && x.granted == y.granted + Given(a, e, x.gen)
  {
    hide P.Choose, P.Record, Fair, Exhausted, GrantsOk, GensApart, Picks;
    var queue := Receive(a.queue, e.msgs);
    Received(a.queue, e.msgs);
    if e.picked == [] {
      assert b.queue == queue;
      forall x | x in b.queue
        ensures exists y :: y in queue && y.gen == x.gen && x.granted == y.granted + Given(a, e, x.gen)
      {
        assert Given(a, e, x.gen) == 0;
      }
    } else {
      PassCounts(queue, e.picked, e.chunks, b.queue);
    }
  }

  lemma PassCounts(queue: seq<Pending>, picked: seq<Prepared>, chunks: seq<int>, after: seq<Pending>)
    requires GensApart(queue) && Chunked(queue, picked, chunks) && after == Rotated(queue, picked, chunks)
    ensures GensApart(after)
    ensures forall x :: x in after ==>
      exists y :: y in queue && y.gen == x.gen
                  && x.granted == y.granted + Portion(queue, picked, chunks, x.gen, |picked|)
  {
    hide GensApart, Picks, Rotated;
    PassApart(queue, picked, chunks);
    PassTells(queue, picked, chunks);
    forall x | x in after
      ensures exists y :: y in queue && y.gen == x.gen
                          && x.granted == y.granted + Portion(queue, picked, chunks, x.gen, |picked|)
    {
      if LeftAlone(queue, picked, x) {
        var k: nat :| k < |queue| && !Picks(picked, k) && queue[k] == x;
        NoPortion(queue, picked, chunks, k, |picked|);
      } else {
        var i: nat :| i < |picked| && Gained(queue[picked[i].index], x, picked[i].cached, chunks[i]);
        PortionOf(queue, picked, chunks, i, |picked|);
        assert queue[picked[i].index] in queue;
      }
    }
  }

  // ----- whole runs

  ghost predicate AllFresh(run: seq<State>, events: seq<Event>) {
    |events| < |run| && forall i :: 0 <= i < |events| ==> Fresh(run[i].queue, events[i].msgs)
  }

  /** The prompt tokens computed for `g` in the first `n` steps, since it arrived. */
  ghost function GivenSince(run: seq<State>, events: seq<Event>, n: nat, g: int): int
    requires n <= |events| < |run|
  {
    if n == 0 then 0
    else
      var before := if Arrives(events[n - 1].msgs, g) then 0 else GivenSince(run, events, n - 1, g);
      before + Given(run[n - 1], events[n - 1], g)
  }

  /** In every run from an empty queue the ledger of a waiting prompt is the number of its
      tokens that have been given since it arrived, and every prompt is listed once. */
  lemma {:induction false} LedgerCounts(run: seq<State>, events: seq<Event>, q: nat, n: nat)
    requires IsRun(run, events, q) && AllFresh(run, events) && n <= |events| && run[0].queue == []
    ensures GensApart(run[n].queue)
    ensures forall x :: x in run[n].queue ==> x.granted == GivenSince(run, events, n, x.gen)
    decreases n
  {
    hide Step, Given, Arrives, Fresh, GensApart;
    if n == 0 {
      EmptyApart();
    } else {
      LedgerCounts(run, events, q, n - 1);
      var a, e, b := run[n - 1], events[n - 1], run[n - 1 + 1];
      assert Step(a, e, b, q);
      StepCounts(a, e, b, q);
      Received(a.queue, e.msgs);
      forall x | x in b.queue ensures x.granted == GivenSince(run, events, n, x.gen) {
        var y :| y in Receive(a.queue, e.msgs) && y.gen == x.gen && x.granted == y.granted + Given(a, e, x.gen);
        assert FromQueue(a.queue, e.msgs, y);
      }
    }
  }

  lemma EmptyApart()
    ensures GensApart([])
  {
  }

  // ----- prompts that are served together

  predicate Within(m: int, n: int, q: int) {
    -q <= m - n <= q
  }

  /** The ledgers of two prompts differ by no more than a quantum. */
  ghost predicate Close(queue: seq<Pending>, g: int, h: int, q: int) {
    forall x, y :: x in queue && y in queue && x.gen == g && y.gen == h ==> Within(x.granted, y.granted, q)
  }

  /** In step `i` both prompts are served or neither is, and none of them arrives. */
  ghost predicate Together(run: seq<State>, events: seq<Event>, i: nat, g: int, h: int)
    requires i < |events| < |run|
  {
    && (Serves(run[i], events[i], g) <==> Serves(run[i], events[i], h))
    && !Arrives(events[i].msgs, g) && !Arrives(events[i].msgs, h)
  }

  lemma StepPolicy(a: State, e: Event, b: State, q: nat)
    requires Step(a, e, b, q) && P.PolicyOk(a.policy)
    ensures P.PolicyOk(b.policy) && b.policy.mixedBudget == a.policy.mixedBudget
    ensures P.Choose(a.policy, Receive(a.queue, e.msgs) != [], e.decode).phase == Some(P.Prefill) ==>
      P.Choose(a.policy, Receive(a.queue, e.msgs) != [], e.decode).prefillBudget >= a.policy.mixedBudget
  {
    hide PassOk, Receive;
  }

  /** A pass that serves both prompts, or neither, keeps them within a quantum. */
  lemma PassKeepsClose(queue: seq<Pending>, picked: seq<Prepared>, chunks: seq<int>, after: seq<Pending>, budget: int,
                       q: nat, g: int, h: int)
    requires PassOk(queue, picked, chunks, after, budget, q) && budget >= q > 0 && GensApart(queue)
    requires Close(queue, g, h, q)
    requires PicksGen(queue, picked, g) <==> PicksGen(queue, picked, h)
    ensures Close(after, g, h, q)
  {
    hide Fair, GrantsOk, Exhausted, PassedFairly, Rotated, Sum, Picks, PicksGen, GensApart;
    PassTells(queue, picked, chunks);
    forall x, y | x in after && y in after && x.gen == g && y.gen == h ensures Within(x.granted, y.granted, q) {
      PassedOne(queue, picked, chunks, x);
      PassedOne(queue, picked, chunks, y);
      if PicksGen(queue, picked, g) {
        var i: nat :| i < |picked| && Gained(queue[picked[i].index], x, picked[i].cached, chunks[i]);
        var j: nat :| j < |picked| && Gained(queue[picked[j].index], y, picked[j].cached, chunks[j]);
        LedgerGapKept(chunks, GrantedOf(queue, picked), RemainingOf(queue, picked), q, i, j);
      }
    }
  }

  /** The pass picks the prompt `g`. */
  ghost predicate PicksGen(queue: seq<Pending>, picked: seq<Prepared>, g: int) {
    exists k: nat :: k < |queue| && queue[k].gen == g && Picks(picked, k)
  }

  lemma PassedOne(queue: seq<Pending>, picked: seq<Prepared>, chunks: seq<int>, x: Pending)
    requires Chunked(queue, picked, chunks) && GensApart(queue)
    requires LeftAlone(queue, picked, x) || WentOn(queue, picked, chunks, x)
    ensures if PicksGen(queue, picked, x.gen) then WentOn(queue, picked, chunks, x) else x in queue
  {
    if WentOn(queue, picked, chunks, x) {
      var i: nat :| i < |picked| && Gained(queue[picked[i].index], x, picked[i].cached, chunks[i]);
      assert Picks(picked, picked[i].index);
    }
  }

  lemma StepKeepsClose(a: State, e: Event, b: State, q: nat, g: int, h: int)
    requires Step(a, e, b, q) && GensApart(a.queue) && Fresh(a.queue, e.msgs) && P.PolicyOk(a.policy)
    requires a.policy.mixedBudget >= q > 0 && Close(a.queue, g, h, q)
    requires Serves(a, e, g) <==> Serves(a, e, h)
    requires !Arrives(e.msgs, g) && !Arrives(e.msgs, h)
    ensures Close(b.queue, g, h, q)
  {
    hide Fresh, Arrives, GensApart, P.Choose, P.Record, Picks;
    var queue := Receive(a.queue, e.msgs);
    Received(a.queue, e.msgs);
    StepPolicy(a, e, b, q);
    StillClose(a.queue, e.msgs, g, h, q);
    if e.picked != [] {
      PassKeepsClose(queue, e.picked, e.chunks, b.queue,
        P.Choose(a.policy, queue != [], e.decode).prefillBudget, q, g, h);
    }
  }

  lemma StillClose(queue: seq<Pending>, msgs: seq<Msg>, g: int, h: int, q: int)
    requires Close(queue, g, h, q) && !Arrives(msgs, g) && !Arrives(msgs, h)
    requires forall x :: x in Receive(queue, msgs) ==> FromQueue(queue, msgs, x)
    ensures Close(Receive(queue, msgs), g, h, q)
  {
    forall x, y | x in Receive(queue, msgs) && y in Receive(queue, msgs) && x.gen == g && y.gen == h
      ensures Within(x.granted, y.granted, q)
    {
      assert FromQueue(queue, msgs, x) && FromQueue(queue, msgs, y);
    }
  }

  /** The fairness of one pass carries over to whole runs: two prompts that are served by the
      same passes never get further apart than a quantum in what has been given to them. */
  lemma {:induction false} StayClose(run: seq<State>, events: seq<Event>, q: nat, lo: nat, hi: nat, g: int, h: int)
    requires IsRun(run, events, q) && AllFresh(run, events) && run[0].queue == [] && lo <= hi <= |events|
    requires P.PolicyOk(run[0].policy) && run[0].policy.mixedBudget >= q > 0
    requires Within(GivenSince(run, events, lo, g), GivenSince(run, events, lo, h), q)
    requires forall i :: lo <= i < hi ==> Together(run, events, i, g, h)
    requires InQueue(run[hi].queue, g) && InQueue(run[hi].queue, h)
    ensures Within(GivenSince(run, events, hi, g), GivenSince(run, events, hi, h), q)
  {
    hide GivenSince, Step, Serves, Arrives, Fresh, GensApart, P.PolicyOk, Together, AllFresh;
    LedgerCounts(run, events, q, lo);
    CloseLater(run, events, q, lo, hi, g, h);
    LedgerCounts(run, events, q, hi);
    var i :| 0 <= i < |run[hi].queue| && run[hi].queue[i].gen == g;
    var j :| 0 <= j < |run[hi].queue| && run[hi].queue[j].gen == h;
    assert run[hi].queue[i] in run[hi].queue && run[hi].queue[j] in run[hi].queue;
  }

  lemma {:induction false} CloseLater(run: seq<State>, events: seq<Event>, q: nat, lo: nat, hi: nat, g: int, h: int)
    requires IsRun(run, events, q) && AllFresh(run, events) && run[0].queue == [] && lo <= hi <= |events|
    requires P.PolicyOk(run[0].policy) && run[0].policy.mixedBudget >= q > 0 && Close(run[lo].queue, g, h, q)
    requires forall i :: lo <= i < hi ==> Together(run, events, i, g, h)
    ensures Close(run[hi].queue, g, h, q)
    decreases hi
  {
    hide Step, Serves, Arrives, Fresh, GensApart, P.PolicyOk, Close;
    if lo < hi {
      CloseLater(run, events, q, lo, hi - 1, g, h);
      PolicyLater(run, events, q, hi - 1);
      LedgerCounts(run, events, q, hi - 1);
      assert Together(run, events, hi - 1, g, h);
      assert Step(run[hi - 1], events[hi - 1], run[hi - 1 + 1], q);
      StepKeepsClose(run[hi - 1], events[hi - 1], run[hi], q, g, h);
    }
  }

  lemma {:induction false} PolicyLater(run: seq<State>, events: seq<Event>, q: nat, n: nat)
    requires IsRun(run, events, q) && n <= |events| && P.PolicyOk(run[0].policy)
    ensures P.PolicyOk(run[n].policy) && run[n].policy.mixedBudget == run[0].policy.mixedBudget
    decreases n
  {
    hide Step, P.PolicyOk;
    if n > 0 {
      PolicyLater(run, events, q, n - 1);
      assert Step(run[n - 1], events[n - 1], run[n - 1 + 1], q);
      StepPolicy(run[n - 1], events[n - 1], run[n], q);
    }
  }
}
