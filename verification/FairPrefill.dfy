/** Bounded max-min fair split of one forward's prefill budget. */
module FairPrefill {

  datatype Outcome = Raised | Granted(grants: seq<int>)

  function Min(a: int, b: int): int {
    if a <= b then a else b
  }

  function Sum(s: seq<int>): int {
    if s == [] then 0 else Sum(s[..|s| - 1]) + s[|s| - 1]
  }

  lemma {:induction false} SumUpdate(s: seq<int>, i: nat, v: int)
    requires i < |s|
    ensures Sum(s[i := v]) == Sum(s) - s[i] + v
    decreases |s|
  {
    var n := |s| - 1;
    if i < n {
      SumUpdate(s[..n], i, v);
      assert s[i := v][..n] == s[..n][i := v];
    } else {
      assert s[i := v][..n] == s[..n];
    }
  }

  lemma {:induction false} SumZeros(n: nat)
    ensures Sum(seq(n, _ => 0)) == 0
    decreases n
  {
    if n > 0 {
      SumZeros(n - 1);
      assert seq(n, _ => 0)[..n - 1] == seq(n - 1, _ => 0);
    }
  }

  /** Sum of the first shares of the first `n` requests. */
  function Shares(remaining: seq<int>, q: int, n: nat): int
    requires n <= |remaining|
  {
    if n == 0 then 0 else Shares(remaining, q, n - 1) + Min(remaining[n - 1], q)
  }

  lemma {:induction false} SharesGrow(remaining: seq<int>, q: int, i: nat, n: nat)
    requires i <= n <= |remaining| && q > 0 && forall j :: 0 <= j < |remaining| ==> remaining[j] > 0
    ensures Shares(remaining, q, i) + n - i <= Shares(remaining, q, n)
    decreases n
  {
    if i < n {
      SharesGrow(remaining, q, i, n - 1);
    }
  }

  predicate ArgsOk(budget: int, q: int, scheduled: seq<int>, remaining: seq<int>) {
    && budget > 0 && q > 0 && |scheduled| == |remaining|
    && (remaining != [] ==> forall i :: 0 <= i < |scheduled| ==> scheduled[i] >= 0)
    && (remaining != [] ==> forall i :: 0 <= i < |remaining| ==> remaining[i] > 0)
  }

  predicate FirstSharesFit(budget: int, q: int, remaining: seq<int>) {
    Shares(remaining, q, |remaining|) <= budget
  }

  /** The budget reaches the last request. */
  predicate ReachesAll(budget: int, q: int, remaining: seq<int>) {
    remaining != [] ==> Shares(remaining, q, |remaining| - 1) < budget
  }

  // ----- the order of a pass

  /** Less scheduled progress first, then the earlier index. */
  predicate Before(ledger: seq<int>, i: int, j: int)
    requires 0 <= i < |ledger| && 0 <= j < |ledger|
  {
    ledger[i] < ledger[j] || (ledger[i] == ledger[j] && i < j)
  }

  predicate Indices(s: seq<int>, n: int) {
    forall k :: 0 <= k < |s| ==> 0 <= s[k] < n
  }

  ghost predicate InOrder(s: seq<int>, ledger: seq<int>) {
    Indices(s, |ledger|) && forall k, l :: 0 <= k < l < |s| ==> Before(ledger, s[k], s[l])
  }

  /** Inserts index `i` into a sorted list. */
  method Insert(s: seq<int>, i: int, ledger: seq<int>) returns (r: seq<int>)
    requires InOrder(s, ledger) && 0 <= i < |ledger| && i !in s
    ensures InOrder(r, ledger) && (forall j :: j in r <==> j in s || j == i)
  {
    var k := 0;
    while k < |s| && Before(ledger, s[k], i)
      invariant k <= |s| && forall l :: 0 <= l < k ==> Before(ledger, s[l], i)
    {
      k := k + 1;
    }
    r := s[..k] + [i] + s[k..];
    forall a, b | 0 <= a < b < |r| ensures Before(ledger, r[a], r[b]) {
      if a < k && b == k {
        assert Before(ledger, s[a], i);
      } else if a == k {
        assert r[b] == s[b - 1] && s[b - 1] in s;
      }
    }
  }

  /** The unfinished requests in the order of a pass. */
  method SortedActive(alloc: seq<int>, remaining: seq<int>, ledger: seq<int>) returns (active: seq<int>)
    requires |alloc| == |remaining| == |ledger|
    ensures InOrder(active, ledger)
    ensures forall i :: i in active <==> 0 <= i < |alloc| && alloc[i] < remaining[i]
  {
    active := [];
    for i := 0 to |alloc|
      invariant InOrder(active, ledger)
      invariant forall j :: j in active <==> 0 <= j < i && alloc[j] < remaining[j]
    {
      if alloc[i] < remaining[i] {
        active := Insert(active, i, ledger);
      }
    }
  }

  // ----- fairness

  /** What every grant is: positive, at most the rest of the prompt, and whole quanta or
      exactly that rest. */
  ghost predicate GrantsOk(grants: seq<int>, remaining: seq<int>, q: int) {
    && |grants| == |remaining|
    && forall i {:trigger grants[i]} :: 0 <= i < |grants| ==>
      0 < grants[i] <= remaining[i] && (grants[i] == remaining[i] || Quanta(grants[i], q))
  }

  ghost predicate Quanta(n: int, q: int) {
    exists m: nat {:trigger Times(m, q)} :: n == Times(m, q)
  }

  function Times(m: nat, q: int): int {
    m * q
  }

  /** All unfinished requests have `level` or one quantum more, those with more come
      first in the order, and no finished one has two quanta more. */
  ghost predicate Levelled(grants: seq<int>, scheduled: seq<int>, remaining: seq<int>, q: int, level: int)
    requires |grants| == |scheduled| == |remaining|
  {
    && (forall i :: 0 <= i < |grants| && grants[i] < remaining[i] ==> grants[i] == level || grants[i] == level + q)
    && (forall i :: 0 <= i < |grants| && grants[i] == remaining[i] ==> grants[i] < level + 2 * q)
    && (forall i, j ::
          0 <= i < |grants| && 0 <= j < |grants| && grants[i] < remaining[i] && grants[j] < remaining[j] ==>
          (Before(scheduled, i, j) ==> grants[i] >= grants[j]))
  }

  /** Between two passes with a quantum left all unfinished requests are level. */
  ghost predicate Even(grants: seq<int>, remaining: seq<int>, level: int)
    requires |grants| == |remaining|
  {
    && (forall i :: 0 <= i < |grants| && grants[i] < remaining[i] ==> grants[i] == level)
    && (forall i :: 0 <= i < |grants| && grants[i] == remaining[i] ==> grants[i] <= level)
  }

  /** No unfinished request could still be given its next quantum or its tail. */
  ghost predicate Exhausted(grants: seq<int>, remaining: seq<int>, q: int, left: int)
    requires |grants| == |remaining|
  {
    forall i :: 0 <= i < |grants| && grants[i] < remaining[i] ==> left < q && left < remaining[i] - grants[i]
  }

  /** Bounded fairness of a finished allocation. */
  ghost predicate Fair(grants: seq<int>, scheduled: seq<int>, remaining: seq<int>, q: int)
    requires |grants| == |scheduled| == |remaining|
  {
    && (forall i, j ::
          0 <= i < |grants| && 0 <= j < |grants| && grants[i] < remaining[i] && grants[j] < remaining[j] ==>
          && grants[i] <= grants[j] + q
          && (scheduled[i] < scheduled[j] || (scheduled[i] == scheduled[j] && i < j) ==> grants[i] >= grants[j]))
    && (forall i, j ::
          0 <= i < |grants| && 0 <= j < |grants| && grants[i] == remaining[i] && grants[j] < remaining[j] ==>
          grants[i] < grants[j] + 2 * q)
  }

  lemma LevelledIsFair(grants: seq<int>, scheduled: seq<int>, remaining: seq<int>, q: int, level: int)
    requires q > 0 && |grants| == |scheduled| == |remaining| && GrantsOk(grants, remaining, q)
    requires Levelled(grants, scheduled, remaining, q, level)
    ensures Fair(grants, scheduled, remaining, q)
  {
    forall i | 0 <= i < |grants| ensures grants[i] <= remaining[i] { assert grants[i] <= remaining[i]; }
  }

  /** Progress ledgers that are within a quantum of each other stay so while both
      requests are unfinished: the fairness of one forward carries over to all. */
  lemma LedgerGapKept(grants: seq<int>, scheduled: seq<int>, remaining: seq<int>, q: int, i: nat, j: nat)
    requires q > 0 && |grants| == |scheduled| == |remaining| && i < |grants| && j < |grants|
    requires Fair(grants, scheduled, remaining, q) && grants[i] < remaining[i] && grants[j] < remaining[j]
    requires -q <= scheduled[i] - scheduled[j] <= q
    ensures -q <= (scheduled[i] + grants[i]) - (scheduled[j] + grants[j]) <= q
  {
    if i != j {
      assert Before(scheduled, i, j) || Before(scheduled, j, i);
    }
  }

  // ----- the allocation

  lemma TimesNext(m: nat, q: int)
    ensures Times(m + 1, q) == Times(m, q) + q
  {
    assert (m + 1) * q == m * q + q;
  }

  lemma QuantaNext(n: int, q: int)
    requires Quanta(n, q)
    ensures Quanta(n + q, q)
  {
    var m: nat :| n == Times(m, q);
    TimesNext(m, q);
  }

  lemma OneQuantum(q: int)
    ensures Quanta(q, q)
  {
    assert Times(1, q) == q;
  }

  /** The first `i` requests have their first share, as far as the budget reaches. */
  ghost predicate SharesUpTo(alloc: seq<int>, remaining: seq<int>, budget: int, q: int, i: nat, left: int)
    requires i <= |remaining|
  {
    && |alloc| == |remaining| && left == budget - Sum(alloc)
    && left == (if Shares(remaining, q, i) <= budget then budget - Shares(remaining, q, i) else 0)
    && (forall j :: 0 <= j < i ==> 0 <= alloc[j] <= remaining[j])
    && (forall j :: 0 <= j < i ==> (alloc[j] > 0 <==> Shares(remaining, q, j) < budget))
    && (forall j :: i <= j < |remaining| ==> alloc[j] == 0)
    && (Shares(remaining, q, i) <= budget ==> forall j :: 0 <= j < i ==> alloc[j] == Min(remaining[j], q))
  }

  lemma ShareStep(alloc: seq<int>, remaining: seq<int>, budget: int, q: int, i: nat, left: int, grant: int)
    requires i < |remaining| && q > 0 && (forall j :: 0 <= j < |remaining| ==> remaining[j] > 0)
    requires SharesUpTo(alloc, remaining, budget, q, i, left) && left > 0
    requires grant == if left >= q then Min(remaining[i], q) else Min(remaining[i], left)
    ensures SharesUpTo(alloc[i := grant], remaining, budget, q, i + 1, left - grant)
  {
    SharesGrow(remaining, q, i, i + 1);
    SumUpdate(alloc, i, grant);
  }

  /** The first share of every request, as far as the budget reaches. */
  method FirstShares(budget: int, q: int, remaining: seq<int>) returns (alloc: seq<int>, left: int)
    requires budget > 0 && q > 0 && forall i :: 0 <= i < |remaining| ==> remaining[i] > 0
    ensures |alloc| == |remaining| && left == budget - Sum(alloc) && left >= 0
    ensures forall i :: 0 <= i < |alloc| ==> 0 <= alloc[i] <= remaining[i]
    ensures (forall i :: 0 <= i < |alloc| ==> alloc[i] > 0) <==> ReachesAll(budget, q, remaining)
    ensures !FirstSharesFit(budget, q, remaining) ==> left == 0
    ensures FirstSharesFit(budget, q, remaining) ==> forall i :: 0 <= i < |alloc| ==> alloc[i] == Min(remaining[i], q)
  {
    hide Sum, Min, ReachesAll;
    alloc, left := seq(|remaining|, _ => 0), budget;
    SumZeros(|remaining|);
    for i := 0 to |remaining|
      invariant SharesUpTo(alloc, remaining, budget, q, i, left)
    {
      if left <= 0 {
        SharesBeyond(remaining, q, i);
        Stopped(alloc, remaining, budget, q, i);
        return;
      }
      var grant := if left >= q then Min(remaining[i], q) else Min(remaining[i], left);
      ShareStep(alloc, remaining, budget, q, i, left, grant);
      alloc := alloc[i := grant];
      left := left - grant;
    }
    AllReached(alloc, remaining, budget, q);
    SharesBefore(remaining, q);
  }

  lemma SharesBeyond(remaining: seq<int>, q: int, i: nat)
    requires i <= |remaining| && q > 0 && forall j :: 0 <= j < |remaining| ==> remaining[j] > 0
    ensures forall j :: i <= j < |remaining| ==> Shares(remaining, q, j) >= Shares(remaining, q, i)
  {
    forall j | i <= j < |remaining|
      ensures Shares(remaining, q, j) >= Shares(remaining, q, i) { SharesGrow(remaining, q, i, j); }
  }

  lemma SharesBefore(remaining: seq<int>, q: int)
    requires q > 0 && forall j :: 0 <= j < |remaining| ==> remaining[j] > 0
    ensures forall j :: 0 <= j < |remaining| ==> Shares(remaining, q, j) < Shares(remaining, q, |remaining|)
  {
    forall j | 0 <= j < |remaining| ensures Shares(remaining, q, j) < Shares(remaining, q, |remaining|) {
      SharesGrow(remaining, q, j, |remaining|);
    }
  }

  lemma Stopped(alloc: seq<int>, remaining: seq<int>, budget: int, q: int, i: nat)
    requires |alloc| == |remaining| && i < |remaining| && q > 0 && forall j :: 0 <= j < |remaining| ==> remaining[j] > 0
    requires Shares(remaining, q, i) >= budget && forall j :: i <= j < |remaining| ==> alloc[j] == 0
    ensures !ReachesAll(budget, q, remaining) && !FirstSharesFit(budget, q, remaining)
    ensures !(forall i :: 0 <= i < |alloc| ==> alloc[i] > 0)
  {
    SharesGrow(remaining, q, i, |remaining| - 1);
    SharesGrow(remaining, q, i, |remaining|);
    assert alloc[i] == 0;
  }

  lemma AllReached(alloc: seq<int>, remaining: seq<int>, budget: int, q: int)
    requires |alloc| == |remaining| && q > 0 && forall j :: 0 <= j < |remaining| ==> remaining[j] > 0
    requires forall j :: 0 <= j < |remaining| ==> (alloc[j] > 0 <==> Shares(remaining, q, j) < budget)
    ensures (forall i :: 0 <= i < |alloc| ==> alloc[i] > 0) <==> ReachesAll(budget, q, remaining)
  {
    if ReachesAll(budget, q, remaining) {
      forall j | 0 <= j < |remaining| ensures alloc[j] > 0 { SharesGrow(remaining, q, j, |remaining| - 1); }
    } else {
      assert !(alloc[|remaining| - 1] > 0);
    }
  }

  // ----- one pass over the unfinished requests

  /** The ledger a pass sorts by. */
  function Ledger(scheduled: seq<int>, alloc: seq<int>): (r: seq<int>)
    requires |scheduled| == |alloc|
    ensures |r| == |alloc|
  {
    seq(|alloc|, i requires 0 <= i < |alloc| => scheduled[i] + alloc[i])
  }

  /** The first `k` of the active requests have had their turn.  While a quantum is
      left, each of them has got it or has finished, and the others are still level. */
  ghost predicate InPass(alloc: seq<int>, scheduled: seq<int>, remaining: seq<int>, q: int, level: int,
                         active: seq<int>, k: nat, left: int)
    requires |alloc| == |scheduled| == |remaining| && k <= |active| && Indices(active, |alloc|)
  {
    && GrantsOk(alloc, remaining, q) && Levelled(alloc, scheduled, remaining, q, level)
    && (forall i :: 0 <= i < |alloc| && alloc[i] < remaining[i] ==> i in active)
    && (forall a :: k <= a < |active| ==> alloc[active[a]] < remaining[active[a]])
    && (left >= q ==>
          && InOrder(active, scheduled)
          && (forall a :: 0 <= a < k && alloc[active[a]] < remaining[active[a]] ==> alloc[active[a]] == level + q)
          && (forall a :: k <= a < |active| ==> alloc[active[a]] == level)
          && (forall i :: 0 <= i < |alloc| && alloc[i] == remaining[i] ==> alloc[i] <= level + q))
  }

  /** Between passes: level, or no quantum left. */
  ghost predicate BetweenPasses(alloc: seq<int>, scheduled: seq<int>, remaining: seq<int>, q: int, level: int,
                                left: int)
    requires |alloc| == |scheduled| == |remaining|
  {
    && GrantsOk(alloc, remaining, q) && Levelled(alloc, scheduled, remaining, q, level)
    && (left >= q ==> Even(alloc, remaining, level))
  }

  lemma PassStarts(alloc: seq<int>, scheduled: seq<int>, remaining: seq<int>, q: int, level: int, active: seq<int>,
                   left: int)
    requires |alloc| == |scheduled| == |remaining| && BetweenPasses(alloc, scheduled, remaining, q, level, left)
    requires InOrder(active, Ledger(scheduled, alloc)) && q > 0
    requires forall i :: i in active <==> 0 <= i < |alloc| && alloc[i] < remaining[i]
    ensures InPass(alloc, scheduled, remaining, q, level, active, 0, left)
  {
    forall a | 0 <= a < |active| ensures alloc[active[a]] < remaining[active[a]] { assert active[a] in active; }
    if left >= q {
      forall a, b | 0 <= a < b < |active| ensures Before(scheduled, active[a], active[b]) {
        assert Before(Ledger(scheduled, alloc), active[a], active[b]);
        assert alloc[active[a]] == level && alloc[active[b]] == level;
      }
    }
  }

  lemma PassEnds(alloc: seq<int>, scheduled: seq<int>, remaining: seq<int>, q: int, level: int, active: seq<int>,
                 left: int)
    requires |alloc| == |scheduled| == |remaining| && Indices(active, |alloc|) && q > 0
    requires InPass(alloc, scheduled, remaining, q, level, active, |active|, left)
    ensures BetweenPasses(alloc, scheduled, remaining, q, if left >= q then level + q else level, left)
  {
    if left >= q {
      forall i | 0 <= i < |alloc| && alloc[i] < remaining[i] ensures alloc[i] == level + q {
        var a :| 0 <= a < |active| && active[a] == i;
        assert alloc[active[a]] < remaining[active[a]];
      }
    }
  }

  lemma Skips(alloc: seq<int>, scheduled: seq<int>, remaining: seq<int>, q: int, level: int, active: seq<int>, k: nat,
              left: int)
    requires |alloc| == |scheduled| == |remaining| && k < |active| && Indices(active, |alloc|) && q > 0
    requires InPass(alloc, scheduled, remaining, q, level, active, k, left) && left < q
    ensures InPass(alloc, scheduled, remaining, q, level, active, k + 1, left)
  {
  }

  lemma PositionInOrder(active: seq<int>, scheduled: seq<int>, k: nat, i: int)
    requires InOrder(active, scheduled) && k < |active| && i in active && Before(scheduled, i, active[k])
    ensures exists a :: 0 <= a < k && active[a] == i
  {
    assert forall b :: k < b < |active| ==> Before(scheduled, active[k], active[b]);
    var a :| 0 <= a < |active| && active[a] == i;
    assert a < k;
  }

  lemma GivesQuantum(alloc: seq<int>, scheduled: seq<int>, remaining: seq<int>, q: int, level: int, active: seq<int>,
                     k: nat, left: int)
    requires |alloc| == |scheduled| == |remaining| && k < |active| && Indices(active, |alloc|) && q > 0
    requires InPass(alloc, scheduled, remaining, q, level, active, k, left) && left >= q
    requires remaining[active[k]] - alloc[active[k]] >= q
    ensures InPass(alloc[active[k] := alloc[active[k]] + q], scheduled, remaining, q, level, active, k + 1, left - q)
  {
    var i := active[k];
    var now := alloc[i := alloc[i] + q];
    QuantaNext(alloc[i], q);
    ApartInOrder(active, scheduled, k);
    forall j | 0 <= j < |now| ensures 0 < now[j] <= remaining[j] && (now[j] == remaining[j] || Quanta(now[j], q)) {
      assert 0 < alloc[j] <= remaining[j];
    }
    forall j | 0 <= j < |now| && now[j] < remaining[j] && now[i] < remaining[i] && Before(scheduled, j, i)
      ensures now[j] >= now[i]
    {
      if j != i {
        PositionInOrder(active, scheduled, k, j);
      }
    }
  }

  lemma ApartInOrder(active: seq<int>, scheduled: seq<int>, k: nat)
    requires InOrder(active, scheduled) && k < |active|
    ensures forall a :: 0 <= a < |active| && a != k ==> active[a] != active[k]
  {
    forall a | 0 <= a < |active| && a != k ensures active[a] != active[k] {
      if a < k {
        assert Before(scheduled, active[a], active[k]);
      } else {
        assert Before(scheduled, active[k], active[a]);
      }
    }
  }

  lemma GivesTail(alloc: seq<int>, scheduled: seq<int>, remaining: seq<int>, q: int, level: int, active: seq<int>,
                  k: nat, left: int, ledger: seq<int>)
    requires |alloc| == |scheduled| == |remaining| && k < |active| && InOrder(active, ledger) && |ledger| == |alloc|
    requires q > 0
    requires InPass(alloc, scheduled, remaining, q, level, active, k, left)
    requires remaining[active[k]] - alloc[active[k]] < q
    ensures InPass(alloc[active[k] := remaining[active[k]]], scheduled, remaining, q, level, active, k + 1,
              left - (remaining[active[k]] - alloc[active[k]]))
  {
    var i := active[k];
    ApartInOrder(active, ledger, k);
    var now := alloc[i := remaining[i]];
    forall j | 0 <= j < |now| ensures 0 < now[j] <= remaining[j] && (now[j] == remaining[j] || Quanta(now[j], q)) {
      assert 0 < alloc[j] <= remaining[j];
    }
  }

  /** One more share for every unfinished request, in ledger order. */
  method RunPass(alloc: seq<int>, scheduled: seq<int>, remaining: seq<int>, q: int, left: int, active: seq<int>,
                 ghost level: int)
    returns (now: seq<int>, rest: int, progress: bool)
    requires |alloc| == |scheduled| == |remaining| && q > 0 && left > 0
    requires BetweenPasses(alloc, scheduled, remaining, q, level, left)
    requires InOrder(active, Ledger(scheduled, alloc))
    requires forall i :: i in active <==> 0 <= i < |alloc| && alloc[i] < remaining[i]
    ensures |now| == |alloc| && rest == left + Sum(alloc) - Sum(now) && 0 <= rest <= left && (progress <==> rest < left)
    ensures progress ==> exists l :: BetweenPasses(now, scheduled, remaining, q, l, rest)
    ensures !progress ==> now == alloc && Exhausted(now, remaining, q, rest)
  {
    hide InPass, BetweenPasses, Sum, Exhausted;
    now, rest, progress := alloc, left, false;
    PassStarts(alloc, scheduled, remaining, q, level, active, left);
    var k := 0;
    while k < |active| && rest > 0
      invariant k <= |active| && |now| == |alloc| && 0 <= rest <= left && rest == left + Sum(alloc) - Sum(now)
      invariant InPass(now, scheduled, remaining, q, level, active, k, rest)
      invariant progress <==> rest < left
      invariant !progress ==> now == alloc && Skipped(alloc, remaining, q, active, k, left)
      decreases |active| - k
    {
      var i := active[k];
      var tail := remaining[i] - now[i];
      InTurn(now, scheduled, remaining, q, level, active, k, rest);
      if (tail < q && tail > rest) || (tail >= q && rest < q) {
        Skips(now, scheduled, remaining, q, level, active, k, rest);
      } else {
        var grant := if tail < q then tail else q;
        SumUpdate(now, i, now[i] + grant);
        if tail < q {
          GivesTail(now, scheduled, remaining, q, level, active, k, rest, Ledger(scheduled, alloc));
        } else {
          GivesQuantum(now, scheduled, remaining, q, level, active, k, rest);
        }
        now := now[i := now[i] + grant];
        rest := rest - grant;
        progress := true;
      }
      k := k + 1;
    }
    if k < |active| {
      NothingLeft(now, scheduled, remaining, q, level, active, k);
    } else {
      PassEnds(now, scheduled, remaining, q, level, active, rest);
      if !progress {
        AllSkipped(alloc, remaining, q, active, left);
      }
    }
  }

  /** The first `k` active requests can take neither a quantum nor their tail. */
  ghost predicate Skipped(alloc: seq<int>, remaining: seq<int>, q: int, active: seq<int>, k: nat, left: int)
    requires |alloc| == |remaining| && k <= |active| && Indices(active, |alloc|)
  {
    forall a :: 0 <= a < k ==> left < q && left < remaining[active[a]] - alloc[active[a]]
  }

  lemma AllSkipped(alloc: seq<int>, remaining: seq<int>, q: int, active: seq<int>, left: int)
    requires |alloc| == |remaining| && Indices(active, |alloc|) && Skipped(alloc, remaining, q, active, |active|, left)
    requires forall i :: i in active <==> 0 <= i < |alloc| && alloc[i] < remaining[i]
    ensures Exhausted(alloc, remaining, q, left)
  {
  }

  lemma InTurn(alloc: seq<int>, scheduled: seq<int>, remaining: seq<int>, q: int, level: int, active: seq<int>, k: nat,
               left: int)
    requires |alloc| == |scheduled| == |remaining| && k < |active| && Indices(active, |alloc|)
    requires InPass(alloc, scheduled, remaining, q, level, active, k, left)
    ensures alloc[active[k]] < remaining[active[k]]
  {
  }

  lemma NothingLeft(alloc: seq<int>, scheduled: seq<int>, remaining: seq<int>, q: int, level: int, active: seq<int>,
                    k: nat)
    requires |alloc| == |scheduled| == |remaining| && k <= |active| && Indices(active, |alloc|) && q > 0
    requires InPass(alloc, scheduled, remaining, q, level, active, k, 0)
    ensures BetweenPasses(alloc, scheduled, remaining, q, level, 0)
  {
  }

  // ----- the allocator

  /** The split of one forward's budget.  It raises exactly for bad arguments or when
      the budget does not reach the last request.  When the first shares fit, every
      grant is whole quanta or the exact rest, less than a quantum is left over unless
      all finish, and the result is fair. */
  method AllocateFairPrefillChunks(budget: int, q: int, scheduled: seq<int>, remaining: seq<int>) returns (r: Outcome)
    ensures r.Raised? <==> !ArgsOk(budget, q, scheduled, remaining) || !ReachesAll(budget, q, remaining)
    ensures r.Granted? ==> |r.grants| == |remaining| && Sum(r.grants) <= budget
    ensures r.Granted? ==> forall i :: 0 <= i < |remaining| ==> 0 < r.grants[i] <= remaining[i]
    ensures r.Granted? && FirstSharesFit(budget, q, remaining) ==>
      && GrantsOk(r.grants, remaining, q) && Fair(r.grants, scheduled, remaining, q)
      && Exhausted(r.grants, remaining, q, budget - Sum(r.grants))
  {
    hide Sum, Exhausted, Fair, GrantsOk, FirstSharesFit, ReachesAll, BetweenPasses;
    if !ArgsOk(budget, q, scheduled, remaining) {
      return Raised;
    }
    if |remaining| == 0 {
      NoRequests(budget, q, scheduled, remaining);
      return Granted([]);
    }
    var alloc, left := FirstShares(budget, q, remaining);
    ghost var level := q;
    if FirstSharesFit(budget, q, remaining) {
      LevelAtFirst(alloc, scheduled, remaining, q, left);
    }
    var first := alloc;
    var progress := true;
    while left > 0 && progress
      invariant |alloc| == |remaining| && left == budget - Sum(alloc) && left >= 0
      invariant FirstSharesFit(budget, q, remaining) ==> BetweenPasses(alloc, scheduled, remaining, q, level, left)
      invariant !FirstSharesFit(budget, q, remaining) ==> left == 0 && alloc == first
      invariant !progress ==> Exhausted(alloc, remaining, q, left)
      decreases left, progress
    {
      var active := SortedActive(alloc, remaining, Ledger(scheduled, alloc));
      if |active| == 0 {
        NoneActive(alloc, remaining, q, left, active);
        break;
      }
      alloc, left, progress := RunPass(alloc, scheduled, remaining, q, left, active, level);
      if progress {
        level :| BetweenPasses(alloc, scheduled, remaining, q, level, left);
      }
    }
    if FirstSharesFit(budget, q, remaining) {
      PassesDone(alloc, scheduled, remaining, q, level, left, budget);
    }
    if exists i :: 0 <= i < |alloc| && alloc[i] <= 0 {
      return Raised;
    }
    r := Granted(alloc);
  }

  lemma NoRequests(budget: int, q: int, scheduled: seq<int>, remaining: seq<int>)
    requires remaining == [] && scheduled == [] && budget > 0
    ensures ReachesAll(budget, q, remaining) && Sum([]) == 0 && GrantsOk([], remaining, q)
    ensures Fair([], scheduled, remaining, q)
    ensures Exhausted([], remaining, q, budget)
  {
  }

  lemma LevelAtFirst(alloc: seq<int>, scheduled: seq<int>, remaining: seq<int>, q: int, left: int)
    requires |alloc| == |scheduled| == |remaining| && q > 0 && forall i :: 0 <= i < |remaining| ==> remaining[i] > 0
    requires forall i :: 0 <= i < |alloc| ==> alloc[i] == Min(remaining[i], q)
    ensures BetweenPasses(alloc, scheduled, remaining, q, q, left)
  {
    OneQuantum(q);
  }

  lemma NoneActive(alloc: seq<int>, remaining: seq<int>, q: int, left: int, active: seq<int>)
    requires |alloc| == |remaining| && active == []
    requires forall i :: i in active <==> 0 <= i < |alloc| && alloc[i] < remaining[i]
    ensures Exhausted(alloc, remaining, q, left)
  {
    forall i | 0 <= i < |alloc| ensures !(alloc[i] < remaining[i]) { assert i !in active; }
  }

  lemma PassesDone(alloc: seq<int>, scheduled: seq<int>, remaining: seq<int>, q: int, level: int, left: int,
                   budget: int)
    requires |alloc| == |scheduled| == |remaining| && q > 0
    requires BetweenPasses(alloc, scheduled, remaining, q, level, left)
    requires left == 0 || Exhausted(alloc, remaining, q, left)
    requires FirstSharesFit(budget, q, remaining) && forall i :: 0 <= i < |remaining| ==> remaining[i] > 0
    ensures GrantsOk(alloc, remaining, q) && Fair(alloc, scheduled, remaining, q)
    ensures Exhausted(alloc, remaining, q, left)
    ensures ReachesAll(budget, q, remaining) && forall i :: 0 <= i < |alloc| ==> 0 < alloc[i] <= remaining[i]
  {
    LevelledIsFair(alloc, scheduled, remaining, q, level);
    forall i | 0 <= i < |alloc| ensures 0 < alloc[i] <= remaining[i] { assert 0 < alloc[i] <= remaining[i]; }
    SharesBefore(remaining, q);
  }
}
