/** Block-padded expert routing: a sort by expert, prefix sums and one scatter. */
module RoutePlan {
  import opened Arithmetic

  datatype Plan = Plan(sorted: seq<int>, expertIds: seq<int>, total: nat)

  datatype Outcome = Raised | Done(plan: Plan)

  // ----- the layout that is wanted

  /** The routes of one expert among the first `n`, ascending. */
  function Of(indices: seq<int>, e: int, n: nat): (r: seq<int>)
    requires n <= |indices|
    ensures |r| <= n
  {
    if n == 0 then [] else Of(indices, e, n - 1) + if indices[n - 1] == e then [n - 1] else []
  }

  function All(indices: seq<int>, e: int): seq<int> {
    Of(indices, e, |indices|)
  }

  function Fill(n: nat, x: int): seq<int> {
    seq(n, _ => x)
  }

  function Blocks(count: nat, block: Positive): nat {
    (count + block - 1) / block
  }

  function Padded(count: nat, block: Positive): (p: nat)
    ensures count <= p && p % block == 0 && p - count < block && (count == 0 ==> p == 0)
  {
    PaddedFits(count, block);
    Blocks(count, block) * block
  }

  /** The routes of one expert, filled up to whole blocks with the sentinel. */
  function Region(indices: seq<int>, block: Positive, e: int): seq<int> {
    All(indices, e) + Fill(Padded(|All(indices, e)|, block) - |All(indices, e)|, |indices|)
  }

  function Layout(indices: seq<int>, block: Positive, e: nat): seq<int> {
    if e == 0 then [] else Layout(indices, block, e - 1) + Region(indices, block, e - 1)
  }

  /** The expert of each block. */
  function Owners(indices: seq<int>, block: Positive, e: nat): seq<int> {
    if e == 0 then [] else Owners(indices, block, e - 1) + Fill(Blocks(|All(indices, e - 1)|, block), e - 1)
  }

  /** The same routes without padding. */
  function Compact(indices: seq<int>, e: nat): seq<int> {
    if e == 0 then [] else Compact(indices, e - 1) + All(indices, e - 1)
  }

  lemma PaddedFits(count: nat, block: Positive)
    ensures var p := Blocks(count, block) * block;
            count <= p && p % block == 0 && p - count < block && (count == 0 ==> p == 0)
  {
    var n := count + block - 1;
    var k := n / block;
    assert n == block * k + n % block;
    assert k * block == block * k;
    Multiple(k, block);
    if count == 0 {
      Quotient(block, 0, block - 1);
      assert n == block * 0 + (block - 1);
    }
  }

  // ----- what the layout means

  lemma {:induction false} OfMembers(indices: seq<int>, e: int, n: nat)
    requires n <= |indices|
    ensures forall r :: r in Of(indices, e, n) <==> 0 <= r < n && indices[r] == e
    ensures forall i, j :: 0 <= i < j < |Of(indices, e, n)| ==> Of(indices, e, n)[i] < Of(indices, e, n)[j]
  {
    if n > 0 {
      OfMembers(indices, e, n - 1);
      var a, b := Of(indices, e, n - 1), Of(indices, e, n);
      forall i | 0 <= i < |a| ensures a[i] < n - 1 {
        assert a[i] in a;
      }
    }
  }

  lemma CountConcat(a: seq<int>, b: seq<int>, r: int)
    ensures multiset(a + b)[r] == multiset(a)[r] + multiset(b)[r]
  {
    assert multiset(a + b) == multiset(a) + multiset(b);
  }

  lemma {:induction false} OfOnce(indices: seq<int>, e: int, n: nat, r: int)
    requires n <= |indices|
    ensures multiset(Of(indices, e, n))[r] == if 0 <= r < n && indices[r] == e then 1 else 0
  {
    hide Of;
    if n == 0 {
      OfNone(indices, e);
    } else {
      OfOnce(indices, e, n - 1, r);
      OfStep(indices, e, n);
      CountConcat(Of(indices, e, n - 1), [n - 1], r);
      CountOne(n - 1, r);
    }
  }

  lemma OfNone(indices: seq<int>, e: int)
    ensures Of(indices, e, 0) == []
  {
  }

  lemma OfStep(indices: seq<int>, e: int, n: nat)
    requires 0 < n <= |indices|
    ensures indices[n - 1] == e ==> Of(indices, e, n) == Of(indices, e, n - 1) + [n - 1]
    ensures indices[n - 1] != e ==> Of(indices, e, n) == Of(indices, e, n - 1)
  {
  }

  lemma CountOne(x: int, r: int)
    ensures multiset([x])[r] == if r == x then 1 else 0
  {
  }

  lemma RegionOnce(indices: seq<int>, block: Positive, e: int, r: nat)
    requires r < |indices|
    ensures multiset(Region(indices, block, e))[r] == if indices[r] == e then 1 else 0
  {
    hide Padded, Of;
    OfOnce(indices, e, |indices|, r);
    var rest := Fill(Padded(|All(indices, e)|, block) - |All(indices, e)|, |indices|);
    assert r !in rest;
    CountConcat(All(indices, e), rest, r);
  }

  /** Every valid route is in the layout exactly once and no other route is. */
  lemma {:induction false} EachRouteOnce(indices: seq<int>, block: Positive, e: nat, r: nat)
    requires r < |indices|
    ensures multiset(Layout(indices, block, e))[r] == if 0 <= indices[r] < e then 1 else 0
  {
    hide Region;
    if e > 0 {
      EachRouteOnce(indices, block, e - 1, r);
      RegionOnce(indices, block, e - 1, r);
      CountConcat(Layout(indices, block, e - 1), Region(indices, block, e - 1), r);
    }
  }

  /** The routes of expert `x` lie in one block-aligned region, ascending, and the rest
      of the region is the sentinel. */
  lemma {:induction false} RegionPlace(indices: seq<int>, block: Positive, e: nat, x: nat)
    requires x < e
    ensures var a, b := |Layout(indices, block, x)|, |Layout(indices, block, x + 1)|;
            && a <= b <= |Layout(indices, block, e)| && a % block == 0 && b % block == 0
            && Layout(indices, block, e)[a..b] == Region(indices, block, x)
    decreases e
  {
    WholeBlocks(indices, block, x);
    WholeBlocks(indices, block, x + 1);
    if x < e - 1 {
      RegionPlace(indices, block, e - 1, x);
      SliceOfLonger(Layout(indices, block, e - 1), Region(indices, block, e - 1),
                    |Layout(indices, block, x)|, |Layout(indices, block, x + 1)|);
    }
  }

  lemma SliceOfLonger(s: seq<int>, t: seq<int>, a: nat, b: nat)
    requires a <= b <= |s|
    ensures (s + t)[a..b] == s[a..b]
  {
  }

  lemma RegionMeans(indices: seq<int>, block: Positive, x: int, k: nat)
    requires k < |Region(indices, block, x)|
    ensures var g, c := Region(indices, block, x), |All(indices, x)|;
            && (k < c ==> 0 <= g[k] < |indices| && indices[g[k]] == x && forall j :: k < j < c ==> g[k] < g[j])
            && (c <= k ==> g[k] == |indices|)
  {
    OfMembers(indices, x, |indices|);
    if k < |All(indices, x)| {
      assert All(indices, x)[k] in All(indices, x);
    }
  }

  lemma RegionLength(indices: seq<int>, block: Positive, e: int)
    ensures |Region(indices, block, e)| == block * Blocks(|All(indices, e)|, block)
  {
    hide Blocks, Of;
    var n := Blocks(|All(indices, e)|, block);
    assert n * block == block * n;
  }

  lemma {:induction false} WholeBlocks(indices: seq<int>, block: Positive, e: nat)
    ensures |Layout(indices, block, e)| == block * |Owners(indices, block, e)|
    ensures |Layout(indices, block, e)| % block == 0
  {
    hide Region, Blocks, Of;
    if e > 0 {
      WholeBlocks(indices, block, e - 1);
      RegionLength(indices, block, e - 1);
      var k, n := |Owners(indices, block, e - 1)|, Blocks(|All(indices, e - 1)|, block);
      Spread(block, k, n);
    }
    Quotient(block, |Owners(indices, block, e)|, 0);
  }

  /** All routes in a block go to the block's expert. */
  lemma {:induction false} BlockOwner(indices: seq<int>, block: Positive, e: nat, b: nat, i: nat)
    requires b < |Owners(indices, block, e)| && i < block
    ensures block * b + i < |Layout(indices, block, e)|
    ensures var r := Layout(indices, block, e)[block * b + i];
            r == |indices| || (0 <= r < |indices| && indices[r] == Owners(indices, block, e)[b])
  {
    WholeBlocks(indices, block, e);
    InBlock(block, b, i, |Owners(indices, block, e)|);
    if e > 0 {
      WholeBlocks(indices, block, e - 1);
      var k := |Owners(indices, block, e - 1)|;
      if b < k {
        BlockOwner(indices, block, e - 1, b, i);
      } else {
        Monotone(block, k, b);
        RegionMeans(indices, block, e - 1, block * b + i - block * k);
      }
    }
  }

  lemma InBlock(block: Positive, b: nat, i: nat, n: nat)
    requires b < n && i < block
    ensures block * b + i < block * n
  {
    Monotone(block, b + 1, n);
    assert block * (b + 1) == block * b + block;
  }

  function Used(indices: seq<int>, e: nat): nat {
    if e == 0 then 0 else Used(indices, e - 1) + if All(indices, e - 1) != [] then 1 else 0
  }

  /** There is less than one block of padding for each expert that is used. */
  lemma {:induction false} PaddingSmall(indices: seq<int>, block: Positive, e: nat)
    ensures 0 <= |Layout(indices, block, e)| - |Compact(indices, e)| <= Used(indices, e) * (block - 1)
  {
    if e > 0 {
      PaddingSmall(indices, block, e - 1);
      assert (Used(indices, e - 1) + 1) * (block - 1) == Used(indices, e - 1) * (block - 1) + (block - 1);
    }
  }

  // ----- sorting by expert and route

  /** The order of the sort key `expert * route_count + route`. */
  predicate Before(indices: seq<int>, r: int, s: int)
    requires 0 <= r < |indices| && 0 <= s < |indices|
  {
    indices[r] < indices[s] || (indices[r] == indices[s] && r < s)
  }

  function Key(indices: seq<int>, r: int): int
    requires 0 <= r < |indices|
  {
    indices[r] * (if |indices| > 1 then |indices| else 1) + r
  }

  lemma KeyOrder(indices: seq<int>, r: int, s: int)
    requires 0 <= r < |indices| && 0 <= s < |indices|
    ensures Key(indices, r) < Key(indices, s) <==> Before(indices, r, s)
  {
    var n := if |indices| > 1 then |indices| else 1;
    var a, b := indices[r], indices[s];
    assert n * a == a * n && n * b == b * n;
    Monotone(n, a + 1, b);
    Monotone(n, b + 1, a);
    assert n * (a + 1) == n * a + n && n * (b + 1) == n * b + n;
  }

  ghost predicate Ordered(indices: seq<int>, s: seq<int>) {
    && (forall i :: 0 <= i < |s| ==> 0 <= s[i] < |indices|)
    && (forall i, j :: 0 <= i < j < |s| ==> Before(indices, s[i], s[j]))
  }

  lemma {:induction false} CompactOrdered(indices: seq<int>, e: nat)
    ensures Ordered(indices, Compact(indices, e))
    ensures forall r :: r in Compact(indices, e) <==> 0 <= r < |indices| && 0 <= indices[r] < e
  {
    if e > 0 {
      CompactOrdered(indices, e - 1);
      OfMembers(indices, e - 1, |indices|);
      var a, b := Compact(indices, e - 1), All(indices, e - 1);
      forall i | 0 <= i < |a| ensures indices[a[i]] < e - 1 {
        assert a[i] in a;
      }
      forall i | 0 <= i < |b| ensures 0 <= b[i] < |indices| && indices[b[i]] == e - 1 {
        assert b[i] in b;
      }
    }
  }

  /** There is only one ordered list of given routes. */
  lemma {:induction false} OneOrder(indices: seq<int>, s: seq<int>, t: seq<int>)
    requires Ordered(indices, s) && Ordered(indices, t) && forall r :: r in s <==> r in t
    ensures s == t
    decreases |s|
  {
    assert |t| > 0 ==> t[|t| - 1] in t;
    assert |s| > 0 ==> s[|s| - 1] in s;
    if s != [] {
      var a, b := s[|s| - 1], s[..|s| - 1];
      var c, d := t[|t| - 1], t[..|t| - 1];
      assert a in t && c in s;
      forall r ensures r in b <==> r in d {
        assert r in s <==> r in b || r == a;
        assert r in t <==> r in d || r == c;
      }
      OneOrder(indices, b, d);
    }
  }

  // ----- the plan

  /** The valid routes among the first `n`, in order. */
  function ValidRoutes(indices: seq<int>, experts: nat, n: nat): (v: seq<int>)
    requires n <= |indices|
    ensures forall r :: r in v <==> 0 <= r < n && 0 <= indices[r] < experts
    ensures forall i :: 0 <= i < |v| ==> 0 <= v[i] < n
    ensures forall i, j :: 0 <= i < j < |v| ==> v[i] < v[j]
  {
    if n == 0 then []
    else
      var v := ValidRoutes(indices, experts, n - 1);
      v + if 0 <= indices[n - 1] < experts then [n - 1] else []
  }

  /** Their experts. */
  function ValidExperts(indices: seq<int>, experts: nat, n: nat): seq<int>
    requires n <= |indices|
  {
    if n == 0 then []
    else ValidExperts(indices, experts, n - 1) + if 0 <= indices[n - 1] < experts then [indices[n - 1]] else []
  }

  function BinCount(values: seq<int>, e: int): nat {
    if values == [] then 0
    else BinCount(values[..|values| - 1], e) + if values[|values| - 1] == e then 1 else 0
  }

  lemma {:induction false} BinCountIsSize(indices: seq<int>, experts: nat, n: nat, e: nat)
    requires n <= |indices| && e < experts
    ensures BinCount(ValidExperts(indices, experts, n), e) == |Of(indices, e, n)|
  {
    if n > 0 {
      BinCountIsSize(indices, experts, n - 1, e);
      var v := ValidExperts(indices, experts, n);
      if 0 <= indices[n - 1] < experts {
        assert v[..|v| - 1] == ValidExperts(indices, experts, n - 1);
      } else {
        assert v == ValidExperts(indices, experts, n - 1);
      }
    }
  }

  /** Exclusive prefix sum. */
  function SumBefore(s: seq<nat>, e: nat): nat
    requires e <= |s|
  {
    if e == 0 then 0 else SumBefore(s, e - 1) + s[e - 1]
  }

  function Counts(indices: seq<int>, experts: nat): (c: seq<nat>)
    ensures |c| == experts && forall e :: 0 <= e < experts ==> c[e] == |All(indices, e)|
  {
    var v := ValidExperts(indices, experts, |indices|);
    var c := seq(experts, e requires 0 <= e < experts => BinCount(v, e));
    assert forall e {:trigger c[e]} :: 0 <= e < experts ==> c[e] == |All(indices, e)| by {
      forall e | 0 <= e < experts ensures c[e] == |All(indices, e)| {
        BinCountIsSize(indices, experts, |indices|, e);
      }
    }
    c
  }

  function PaddedCounts(counts: seq<nat>, block: Positive): (p: seq<nat>)
    ensures |p| == |counts| && forall e :: 0 <= e < |counts| ==> p[e] == Padded(counts[e], block)
  {
    seq(|counts|, e requires 0 <= e < |counts| => Padded(counts[e], block))
  }

  lemma {:induction false} PrefixSums(indices: seq<int>, experts: nat, block: Positive, e: nat)
    requires e <= experts
    ensures SumBefore(Counts(indices, experts), e) == |Compact(indices, e)|
    ensures SumBefore(PaddedCounts(Counts(indices, experts), block), e) == |Layout(indices, block, e)|
  {
    if e > 0 {
      PrefixSums(indices, experts, block, e - 1);
    }
  }

  /** `repeat_interleave` of the experts. */
  function Repeated(counts: seq<nat>, block: Positive, e: nat): seq<int>
    requires e <= |counts|
  {
    if e == 0 then [] else Repeated(counts, block, e - 1) + Fill(Blocks(counts[e - 1], block), e - 1)
  }

  lemma {:induction false} RepeatedIsOwners(indices: seq<int>, experts: nat, block: Positive, e: nat)
    requires e <= experts
    ensures Repeated(Counts(indices, experts), block, e) == Owners(indices, block, e)
  {
    if e > 0 {
      RepeatedIsOwners(indices, experts, block, e - 1);
    }
  }

  /** Where the `p`-th route of the compact list goes. */
  function Slot(indices: seq<int>, block: Positive, e: nat, p: nat): nat
    requires p < |Compact(indices, e)|
  {
    if p < |Compact(indices, e - 1)| then Slot(indices, block, e - 1, p)
    else |Layout(indices, block, e - 1)| + (p - |Compact(indices, e - 1)|)
  }

  lemma {:induction false} SlotHolds(indices: seq<int>, block: Positive, e: nat, p: nat)
    requires p < |Compact(indices, e)|
    ensures Slot(indices, block, e, p) < |Layout(indices, block, e)|
    ensures Layout(indices, block, e)[Slot(indices, block, e, p)] == Compact(indices, e)[p]
  {
    if p < |Compact(indices, e - 1)| {
      SlotHolds(indices, block, e - 1, p);
    }
  }

  lemma {:induction false} SlotsApart(indices: seq<int>, block: Positive, e: nat, p: nat, q: nat)
    requires p < q < |Compact(indices, e)|
    ensures Slot(indices, block, e, p) < Slot(indices, block, e, q)
  {
    if q < |Compact(indices, e - 1)| {
      SlotsApart(indices, block, e - 1, p, q);
    } else if p < |Compact(indices, e - 1)| {
      SlotHolds(indices, block, e - 1, p);
    }
  }

  ghost predicate Taken(indices: seq<int>, block: Positive, e: nat, n: nat, k: int)
    requires n <= |Compact(indices, e)|
  {
    exists p: nat :: p < n && Slot(indices, block, e, p) == k
  }

  /** A slot that no route goes to is padding. */
  lemma {:induction false} OthersArePadding(indices: seq<int>, block: Positive, e: nat, k: nat)
    requires k < |Layout(indices, block, e)|
    ensures Taken(indices, block, e, |Compact(indices, e)|, k) || Layout(indices, block, e)[k] == |indices|
  {
    var a, c := |Layout(indices, block, e - 1)|, |Compact(indices, e - 1)|;
    if k < a {
      OthersArePadding(indices, block, e - 1, k);
      if Taken(indices, block, e - 1, c, k) {
        var p: nat :| p < c && Slot(indices, block, e - 1, p) == k;
        assert Slot(indices, block, e, p) == k;
      }
    } else if k - a < |All(indices, e - 1)| {
      assert Slot(indices, block, e, c + (k - a)) == k;
    }
  }

  /** The program's formula for the slot. */
  lemma {:induction false} SlotFormula(indices: seq<int>, block: Positive, e: nat, p: nat)
    requires p < |Compact(indices, e)|
    ensures var r := Compact(indices, e)[p];
            && 0 <= r < |indices| && 0 <= indices[r] < e && |Compact(indices, indices[r])| <= p
            && Slot(indices, block, e, p) == |Layout(indices, block, indices[r])| + (p - |Compact(indices, indices[r])|)
  {
    if p < |Compact(indices, e - 1)| {
      SlotFormula(indices, block, e - 1, p);
    } else {
      var r := Compact(indices, e)[p];
      OfMembers(indices, e - 1, |indices|);
      assert r == All(indices, e - 1)[p - |Compact(indices, e - 1)|];
      assert r in All(indices, e - 1);
    }
  }

  // ----- argsort

  ghost predicate Distinct(keys: seq<int>) {
    forall i, j :: 0 <= i < j < |keys| ==> keys[i] != keys[j]
  }

  ghost predicate IsArgSort(keys: seq<int>, n: nat, order: seq<nat>)
    requires n <= |keys|
  {
    && (forall i :: 0 <= i < |order| ==> order[i] < n)
    && (forall k: nat :: k < n ==> k in order)
    && (forall i, j :: 0 <= i < j < |order| ==> keys[order[i]] < keys[order[j]])
  }

  /** Sorts the positions of distinct keys. */
  method ArgSort(keys: seq<int>) returns (order: seq<nat>)
    requires Distinct(keys)
    ensures IsArgSort(keys, |keys|, order)
  {
    order := [];
    for n := 0 to |keys|
      invariant IsArgSort(keys, n, order)
    {
      var p: nat := |order|;
      while p > 0 && keys[order[p - 1]] > keys[n]
        invariant p <= |order| && forall j :: p <= j < |order| ==> keys[order[j]] > keys[n]
      {
        p := p - 1;
      }
      InsertKeeps(keys, n, order, p);
      order := order[..p] + [n] + order[p..];
    }
  }

  lemma InsertKeeps(keys: seq<int>, n: nat, order: seq<nat>, p: nat)
    requires n < |keys| && IsArgSort(keys, n, order) && p <= |order|
    requires Distinct(keys)
    requires forall j :: p <= j < |order| ==> keys[order[j]] > keys[n]
    requires p > 0 ==> keys[order[p - 1]] <= keys[n]
    ensures IsArgSort(keys, n + 1, order[..p] + [n] + order[p..])
  {
    var more := order[..p] + [n] + order[p..];
    forall k: nat | k < n + 1 ensures k in more {
      InsertMembers(order, p, n, k);
    }
    forall i | 0 <= i < p ensures keys[order[i]] < keys[n] {
      assert order[i] < n;
    }
  }

  lemma InsertMembers(order: seq<nat>, p: nat, n: nat, k: nat)
    requires p <= |order| && (k in order || k == n)
    ensures k in order[..p] + [n] + order[p..]
  {
    assert order == order[..p] + order[p..];
  }

  // ----- the host path

  function SortKeys(indices: seq<int>, routes: seq<int>): (k: seq<int>)
    requires forall i :: 0 <= i < |routes| ==> 0 <= routes[i] < |indices|
    ensures |k| == |routes| && forall i :: 0 <= i < |k| ==> k[i] == Key(indices, routes[i])
  {
    seq(|routes|, i requires 0 <= i < |routes| => Key(indices, routes[i]))
  }

  function Gather(values: seq<int>, order: seq<nat>): (g: seq<int>)
    requires forall i :: 0 <= i < |order| ==> order[i] < |values|
    ensures |g| == |order| && forall i :: 0 <= i < |g| ==> g[i] == values[order[i]]
  {
    seq(|order|, i requires 0 <= i < |order| => values[order[i]])
  }

  /** Sorting the valid routes by key lists them expert by expert. */
  lemma SortedIsCompact(indices: seq<int>, experts: nat, order: seq<nat>)
    requires var routes :=
      ValidRoutes(indices, experts, |indices|); IsArgSort(SortKeys(indices, routes), |routes|, order)
    ensures Gather(ValidRoutes(indices, experts, |indices|), order) == Compact(indices, experts)
  {
    hide Key, Compact, ValidRoutes;
    var routes := ValidRoutes(indices, experts, |indices|);
    var keys, s := SortKeys(indices, routes), Gather(routes, order);
    CompactOrdered(indices, experts);
    forall i | 0 <= i < |s| ensures s[i] in routes && keys[order[i]] == Key(indices, s[i]) {
    }
    forall i, j | 0 <= i < j < |s| ensures Before(indices, s[i], s[j]) {
      KeyOrder(indices, s[i], s[j]);
    }
    forall r | r in routes ensures r in s {
      var k :| 0 <= k < |routes| && routes[k] == r;
      assert k in order;
      var i :| 0 <= i < |order| && order[i] == k;
      assert s[i] == r;
    }
    OneOrder(indices, s, Compact(indices, experts));
  }

  lemma KeysDiffer(indices: seq<int>, experts: nat)
    ensures Distinct(SortKeys(indices, ValidRoutes(indices, experts, |indices|)))
  {
    hide Key, ValidRoutes;
    var routes := ValidRoutes(indices, experts, |indices|);
    var keys := SortKeys(indices, routes);
    forall i, j | 0 <= i < j < |keys| ensures keys[i] != keys[j] {
      assert routes[i] in routes && routes[j] in routes;
      KeyOrder(indices, routes[i], routes[j]);
      KeyOrder(indices, routes[j], routes[i]);
    }
  }

  /** The whole layout was written: `n` routes are in their slots. */
  ghost predicate Scattered(indices: seq<int>, block: Positive, e: nat, out: seq<int>, n: nat)
    requires n <= |Compact(indices, e)|
  {
    && |out| == |Layout(indices, block, e)|
    && (forall p: nat :: p < n ==>
         0 <= Slot(indices, block, e, p) < |out| && out[Slot(indices, block, e, p)] == Compact(indices, e)[p])
    && (forall k :: 0 <= k < |out| && !Taken(indices, block, e, n, k) ==> out[k] == |indices|)
  }

  lemma ScatterOne(indices: seq<int>, block: Positive, e: nat, out: seq<int>, n: nat)
    requires n < |Compact(indices, e)| && Scattered(indices, block, e, out, n)
    ensures Slot(indices, block, e, n) < |out|
    ensures Scattered(indices, block, e, out[Slot(indices, block, e, n) := Compact(indices, e)[n]], n + 1)
  {
    hide Slot, Layout, Compact;
    SlotHolds(indices, block, e, n);
    var k := Slot(indices, block, e, n);
    forall p: nat | p < n ensures Slot(indices, block, e, p) != k {
      SlotsApart(indices, block, e, p, n);
    }
    assert Taken(indices, block, e, n + 1, k);
    forall j | 0 <= j < |out| ensures Taken(indices, block, e, n, j) ==> Taken(indices, block, e, n + 1, j) {
      if Taken(indices, block, e, n, j) {
        var p: nat :| p < n && Slot(indices, block, e, p) == j;
        assert Taken(indices, block, e, n + 1, j);
      }
    }
  }

  lemma ScatterDone(indices: seq<int>, block: Positive, e: nat, out: seq<int>)
    requires Scattered(indices, block, e, out, |Compact(indices, e)|)
    ensures out == Layout(indices, block, e)
  {
    hide Slot, Layout, Compact;
    var c := |Compact(indices, e)|;
    forall k | 0 <= k < |out| ensures out[k] == Layout(indices, block, e)[k] {
      OthersArePadding(indices, block, e, k);
      if Taken(indices, block, e, c, k) {
        var p: nat :| p < c && Slot(indices, block, e, p) == k;
        SlotHolds(indices, block, e, p);
      }
    }
  }

  /** The host path of the plan.  It raises exactly for a non-positive number of experts
      or block size, and otherwise builds the wanted layout. */
  method BuildMoeRoutePlan(indices: seq<int>, experts: int, block: int) returns (o: Outcome)
    ensures o.Raised? <==> experts <= 0 || block <= 0
    ensures o.Done? ==>
      var layout := Layout(indices, block, experts);
      o.plan == Plan(layout, Owners(indices, block, experts), |layout|)
  {
    hide Layout, Owners, Compact, ValidRoutes, Padded, Of, Key, SumBefore, Repeated;
    if experts <= 0 || block <= 0 {
      return Raised;
    }
    var routes := ValidRoutes(indices, experts, |indices|);
    if routes == [] {
      NothingToRoute(indices, block, experts);
      return Done(Plan([], [], 0));
    }
    KeysDiffer(indices, experts);
    var order := ArgSort(SortKeys(indices, routes));
    SortedIsCompact(indices, experts, order);
    var sorted := Gather(routes, order);
    var counts := Counts(indices, experts);
    var padded := PaddedCounts(counts, block);
    PrefixSums(indices, experts, block, experts);
    RepeatedIsOwners(indices, experts, block, experts);
    var total := SumBefore(padded, experts);
    var out := Scatter(indices, experts, block, sorted, counts, padded, total);
    o := Done(Plan(out[..], Repeated(counts, block, experts), total));
  }

  /** Writes every sorted route to the slot that its expert's offsets give. */
  method Scatter(indices: seq<int>, experts: nat, block: Positive, sorted: seq<int>, counts: seq<nat>, padded: seq<nat>,
                 total: nat)
    returns (out: array<int>)
    requires sorted == Compact(indices, experts) && counts == Counts(indices, experts)
    requires padded == PaddedCounts(counts, block)
    requires total == |Layout(indices, block, experts)|
    ensures fresh(out) && out[..] == Layout(indices, block, experts)
  {
    hide Layout, Compact, Slot, Counts, PaddedCounts, SumBefore;
    out := new int[total](_ => |indices|);
    for i := 0 to |sorted|
      invariant Scattered(indices, block, experts, out[..], i)
    {
      SlotFormula(indices, block, experts, i);
      var e := indices[sorted[i]];
      PrefixSums(indices, experts, block, e);
      ScatterOne(indices, block, experts, out[..], i);
      var position := SumBefore(padded, e) + (i - SumBefore(counts, e));
      ghost var before := out[..];
      out[position] := sorted[i];
      assert out[..] == before[position := sorted[i]];
    }
    ScatterDone(indices, block, experts, out[..]);
  }

  lemma NothingToRoute(indices: seq<int>, block: Positive, experts: nat)
    requires ValidRoutes(indices, experts, |indices|) == []
    ensures Layout(indices, block, experts) == [] && Owners(indices, block, experts) == []
  {
    forall x: nat | x < experts ensures All(indices, x) == [] {
      RoutesAreValid(indices, x, experts);
    }
    EmptyLayout(indices, block, experts);
  }

  lemma RoutesAreValid(indices: seq<int>, x: nat, experts: nat)
    requires x < experts
    ensures All(indices, x) != [] ==> ValidRoutes(indices, experts, |indices|) != []
  {
    hide Of;
    OfMembers(indices, x, |indices|);
    var a := All(indices, x);
    if a != [] {
      assert a[0] in a;
      assert a[0] in ValidRoutes(indices, experts, |indices|);
    }
  }

  lemma {:induction false} EmptyLayout(indices: seq<int>, block: Positive, e: nat)
    requires forall x: nat :: x < e ==> All(indices, x) == []
    ensures Layout(indices, block, e) == [] && Owners(indices, block, e) == []
  {
    hide Of;
    if e > 0 {
      EmptyLayout(indices, block, e - 1);
      assert All(indices, e - 1) == [];
      Quotient(block, 0, block - 1);
    }
  }

  // ----- rows that are only padding

  /** Marks the routes of the rows from `live` on as invalid. */
  function MaskLiveRows(indices: seq<int>, topk: Positive, live: int): (m: seq<int>)
    ensures |m| == |indices|
  {
    seq(|indices|, r requires 0 <= r < |indices| => if r / topk < live then indices[r] else -1)
  }

  /** After masking the plan holds exactly the valid routes of the live rows. */
  lemma MaskedNeverPlanned(indices: seq<int>, topk: Positive, live: int, block: Positive, experts: nat, r: nat)
    requires r < |indices|
    ensures multiset(Layout(MaskLiveRows(indices, topk, live), block, experts))[r]
         == if r / topk < live && 0 <= indices[r] < experts then 1 else 0
  {
    EachRouteOnce(MaskLiveRows(indices, topk, live), block, experts, r);
  }
}
