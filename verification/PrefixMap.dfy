/** The flat view of the prefix cache: what a lookup, a release along a path or a
    handle means for the map from stored paths to pages. */
module PrefixMap {
  import opened Bags
  import opened RadixTree

  ghost predicate StoredPath(f: Flat, p: Path) {
    forall k :: 0 < k <= |p| ==> p[..k] in f
  }

  ghost predicate PrefixClosed(f: Flat) {
    forall q :: q in f ==> q != [] && StoredPath(f, q)
  }

  ghost predicate CellsOk(f: Flat) {
    forall q, l: Lane :: q in f ==> l in f[q] && f[q][l] >= -1
  }

  /** `n` blocks of `ids` are stored and the next one is not. */
  ghost predicate LongestMatch(f: Flat, ids: Path, n: nat) {
    && n <= |ids|
    && StoredPath(f, ids[..n])
    && (n < |ids| ==> ids[..n + 1] !in f)
  }

  lemma LongestMatchIsLongest(f: Flat, ids: Path, n: nat, k: nat)
    requires PrefixClosed(f) && LongestMatch(f, ids, n) && n < k <= |ids|
    ensures ids[..k] !in f
  {
    NoLongerMatch(f, ids, n, k);
  }

  lemma LongestMatchUnique(f: Flat, ids: Path, n: nat, m: nat)
    requires LongestMatch(f, ids, n) && LongestMatch(f, ids, m)
    ensures n == m
  {
    if n < m {
      NoLongerMatch(f, ids, n, m);
    } else if m < n {
      NoLongerMatch(f, ids, m, n);
    }
  }

  lemma NoLongerMatch(f: Flat, ids: Path, n: nat, m: nat)
    requires LongestMatch(f, ids, n) && n < m <= |ids|
    ensures !StoredPath(f, ids[..m])
  {
    assert ids[..m][..n + 1] == ids[..n + 1];
  }

  function At(c: Cell, lane: Lane): int {
    if lane in c then c[lane] else -1
  }

  function Entry(f: Flat, q: Path, lane: Lane): int {
    if q in f then At(f[q], lane) else -1
  }

  /** The pages of one lane stored along a path. */
  function PagesAlong(f: Flat, p: Path, lane: Lane): (s: seq<int>)
    ensures |s| == |p|
  {
    seq(|p|, i requires 0 <= i < |p| => Entry(f, p[..i + 1], lane))
  }

  /** Releases one lane on the first `upto` blocks of a path. */
  ghost function ReleaseAlong(f: Flat, p: Path, upto: int, lane: Lane): Flat {
    map q | q in f :: if IsPrefix(q, p) && |q| <= upto then f[q][lane := -1] else f[q]
  }

  /** Releases one lane on the blocks `from..upto` of a path. */
  ghost function ReleaseSpan(f: Flat, p: Path, from: int, upto: int, lane: Lane): Flat {
    map q | q in f :: if from < |q| <= upto && IsPrefix(q, p) then f[q][lane := -1] else f[q]
  }

  lemma SpanOfPrefix(f: Flat, q: Path, p: Path, from: int, upto: int, lane: Lane)
    requires IsPrefix(q, p) && upto <= |q|
    ensures ReleaseSpan(f, q, from, upto, lane) == ReleaseSpan(f, p, from, upto, lane)
  {
    forall r: Path | |r| <= upto ensures IsPrefix(r, q) <==> IsPrefix(r, p) { }
  }

  lemma SpanExtends(f: Flat, p: Path, a: int, b: int, lane: Lane)
    requires a <= b
    ensures ReleaseSpan(ReleaseAlong(f, p, a, lane), p, a, b, lane) == ReleaseAlong(f, p, b, lane)
  {
    var g, h := ReleaseSpan(ReleaseAlong(f, p, a, lane), p, a, b, lane), ReleaseAlong(f, p, b, lane);
    forall q | q in g ensures g[q] == h[q] { }
    SameMap(g, h);
  }

  lemma PagesBeyond(f: Flat, p: Path, a: nat, lane: Lane)
    requires a <= |p|
    ensures PagesAlong(ReleaseAlong(f, p, a, lane), p, lane)[a..] == PagesAlong(f, p, lane)[a..]
  {
    forall i | a <= i < |p|
      ensures PagesAlong(ReleaseAlong(f, p, a, lane), p, lane)[i] == PagesAlong(f, p, lane)[i]
    {
      assert |p[..i + 1]| == i + 1;
    }
  }

  lemma PagesOfPrefix(f: Flat, q: Path, p: Path, lane: Lane)
    requires IsPrefix(q, p)
    ensures PagesAlong(f, q, lane) == PagesAlong(f, p, lane)[..|q|]
  {
    forall i | 0 <= i < |q| ensures PagesAlong(f, q, lane)[i] == PagesAlong(f, p, lane)[i] {
      assert q[..i + 1] == p[..i + 1];
    }
  }

  function NonNegative(s: seq<int>): (r: seq<int>)
    ensures forall i :: 0 <= i < |r| ==> r[i] >= 0
  {
    if s == [] then [] else (if s[0] >= 0 then [s[0]] else []) + NonNegative(s[1..])
  }

  lemma {:induction false} NonNegativeConcat(a: seq<int>, b: seq<int>)
    ensures NonNegative(a + b) == NonNegative(a) + NonNegative(b)
  {
    if a == [] {
      assert a + b == b;
    } else {
      assert (a + b)[1..] == a[1..] + b;
      NonNegativeConcat(a[1..], b);
    }
  }

  /** The pages in a bag of entries: everything but the released entries. */
  ghost function Live(b: multiset<int>): multiset<int> {
    b[-1 := 0]
  }

  lemma LiveAdd(a: multiset<int>, b: multiset<int>)
    ensures Live(a + b) == Live(a) + Live(b)
  {
  }

  lemma LiveOne(v: int)
    ensures Live(One(v)) == if v == -1 then multiset{} else One(v)
  {
  }

  lemma {:induction false} NonNegativeBag(s: seq<int>)
    requires forall i :: 0 <= i < |s| ==> s[i] >= -1
    ensures multiset(NonNegative(s)) == Live(multiset(s))
  {
    if s != [] {
      NonNegativeBag(s[1..]);
      assert s == [s[0]] + s[1..];
      LiveAdd(One(s[0]), multiset(s[1..]));
      LiveOne(s[0]);
    }
  }

  lemma TreePrefixClosed(t: Tree)
    requires WF(t)
    ensures PrefixClosed(FlatOf(t))
  {
    forall q | q in FlatOf(t) ensures q != [] && StoredPath(FlatOf(t), q) {
      FlatDomain(t, q);
      forall k | 0 < k <= |q| ensures q[..k] in FlatOf(t) {
        var m := PrefixStored(t, Owner(t, q), q[..k]);
        FlatAt(t, m, q[..k]);
      }
    }
  }

  lemma TreeCellsOk(t: Tree)
    requires WF(t)
    ensures CellsOk(FlatOf(t))
  {
    forall q | q in FlatOf(t) ensures forall l: Lane :: l in FlatOf(t)[q] && FlatOf(t)[q][l] >= -1 {
      FlatDomain(t, q);
      assert NodeOk(t, Owner(t, q));
    }
  }

  lemma NodePathStored(t: Tree, n: Id)
    requires WF(t) && n in t.nodes
    ensures StoredPath(FlatOf(t), t.path[n])
  {
    forall k | 0 < k <= |t.path[n]| ensures t.path[n][..k] in FlatOf(t) {
      var m := PrefixStored(t, n, t.path[n][..k]);
      FlatAt(t, m, t.path[n][..k]);
    }
  }

  // ----- page bags of one lane

  ghost function One(v: int): multiset<int> {
    multiset{v}
  }

  ghost function LaneBags(f: Flat, lane: Lane): map<Path, multiset<int>> {
    map q | q in f :: One(At(f[q], lane))
  }

  /** All entries of one lane, released ones (-1) included. */
  ghost function LaneBag(f: Flat, lane: Lane): multiset<int> {
    Union(LaneBags(f, lane))
  }

  lemma LaneBagsUpdate(f: Flat, q: Path, c: Cell, lane: Lane)
    ensures LaneBags(f[q := c], lane) == LaneBags(f, lane)[q := One(At(c, lane))]
  {
  }

  lemma LaneBagsMerge(f: Flat, g: Flat, lane: Lane)
    requires f.Keys !! g.Keys
    ensures LaneBags(f + g, lane) - g.Keys == LaneBags(f, lane)
    ensures Restrict(LaneBags(f + g, lane), g.Keys) == LaneBags(g, lane)
  {
  }

  lemma LaneBagsSame(f: Flat, g: Flat, lane: Lane)
    requires f.Keys == g.Keys && forall q :: q in f ==> At(f[q], lane) == At(g[q], lane)
    ensures LaneBags(f, lane) == LaneBags(g, lane)
  {
  }

  lemma LaneBagSame(f: Flat, g: Flat, lane: Lane)
    requires f.Keys == g.Keys && forall q :: q in f ==> At(f[q], lane) == At(g[q], lane)
    ensures LaneBag(f, lane) == LaneBag(g, lane)
  {
    LaneBagsSame(f, g, lane);
  }

  lemma LaneBagMerge(f: Flat, g: Flat, lane: Lane)
    requires f.Keys !! g.Keys
    ensures LaneBag(f + g, lane) == LaneBag(f, lane) + LaneBag(g, lane)
  {
    LaneBagsMerge(f, g, lane);
    UnionSplit(LaneBags(f + g, lane), g.Keys);
  }

  lemma LaneBagAdd(f: Flat, q: Path, c: Cell, lane: Lane)
    requires q !in f
    ensures LaneBag(f[q := c], lane) == LaneBag(f, lane) + One(At(c, lane))
  {
    LaneBagsUpdate(f, q, c, lane);
    UnionAdd(LaneBags(f, lane), q, One(At(c, lane)));
  }

  lemma LaneBagUpdate(f: Flat, q: Path, c: Cell, lane: Lane)
    requires q in f
    ensures LaneBag(f[q := c], lane) + One(At(f[q], lane)) == LaneBag(f, lane) + One(At(c, lane))
  {
    LaneBagsUpdate(f, q, c, lane);
    UnionUpdate(LaneBags(f, lane), q, One(At(c, lane)));
  }

  lemma EmptyBag(f: Flat, lane: Lane)
    requires f == map[]
    ensures LaneBag(f, lane) == multiset{}
  {
    assert LaneBags(f, lane) == map[];
  }

  ghost predicate Enumerates(ks: seq<Path>, g: Flat) {
    && (forall i, j :: 0 <= i < j < |ks| ==> ks[i] != ks[j])
    && (forall i :: 0 <= i < |ks| ==> ks[i] in g)
    && (forall q :: q in g ==> q in ks)
  }

  ghost function EntriesAt(g: Flat, ks: seq<Path>, lane: Lane): seq<int> {
    seq(|ks|, i requires 0 <= i < |ks| => Entry(g, ks[i], lane))
  }

  lemma EntriesDropLast(g: Flat, ks: seq<Path>, lane: Lane)
    requires |ks| > 0 && Enumerates(ks, g)
    ensures var n := |ks| - 1; var h := g - {ks[n]};
            && Enumerates(ks[..n], h) && g == h[ks[n] := g[ks[n]]]
            && EntriesAt(g, ks, lane) == EntriesAt(h, ks[..n], lane) + [At(g[ks[n]], lane)]
  {
  }

  lemma {:induction false} BagByKeys(g: Flat, ks: seq<Path>, lane: Lane)
    requires Enumerates(ks, g)
    ensures LaneBag(g, lane) == multiset(EntriesAt(g, ks, lane))
    decreases |ks|
  {
    if |ks| == 0 {
      EmptyBag(g, lane);
    } else {
      var n := |ks| - 1;
      EntriesDropLast(g, ks, lane);
      BagByKeys(g - {ks[n]}, ks[..n], lane);
      LaneBagAdd(g - {ks[n]}, ks[n], g[ks[n]], lane);
    }
  }

  ghost function SegmentPaths(base: Path, key: Path): seq<Path> {
    seq(|key|, i requires 0 <= i < |key| => base + key[..i + 1])
  }

  lemma SegmentEnumerated(base: Path, x: Node)
    requires LanesOk(x)
    ensures Enumerates(SegmentPaths(base, x.key), Segment(base, x))
  {
    var ks := SegmentPaths(base, x.key);
    forall q | q in Segment(base, x) ensures q in ks {
      var k :| 0 < k <= |x.key| && q == base + x.key[..k];
      assert ks[k - 1] == q;
    }
    forall i | 0 <= i < |ks| ensures ks[i] in SegmentKeys(base, x.key) {
      assert ks[i] == base + x.key[..i + 1];
    }
    forall i, j | 0 <= i < j < |ks| ensures ks[i] != ks[j] {
      assert |ks[i]| != |ks[j]|;
    }
  }

  lemma SegmentEntry(base: Path, x: Node, lane: Lane, i: nat)
    requires LanesOk(x) && i < |x.key|
    ensures Entry(Segment(base, x), base + x.key[..i + 1], lane) == x.lanes[lane][i]
  {
    assert base + x.key[..i + 1] in SegmentKeys(base, x.key);
  }

  lemma SegmentEntries(base: Path, x: Node, lane: Lane)
    requires LanesOk(x)
    ensures EntriesAt(Segment(base, x), SegmentPaths(base, x.key), lane) == x.lanes[lane]
  {
    forall i | 0 <= i < |x.key|
      ensures EntriesAt(Segment(base, x), SegmentPaths(base, x.key), lane)[i] == x.lanes[lane][i]
    {
      SegmentEntry(base, x, lane, i);
    }
  }

  /** A node's segment holds exactly the entries of the node's lane. */
  lemma SegmentBag(base: Path, x: Node, lane: Lane)
    requires LanesOk(x)
    ensures LaneBag(Segment(base, x), lane) == multiset(x.lanes[lane])
  {
    SegmentEnumerated(base, x);
    SegmentEntries(base, x, lane);
    BagByKeys(Segment(base, x), SegmentPaths(base, x.key), lane);
  }

  // ----- releasing along a path, in bags

  lemma ReleaseBagsOther(f: Flat, p: Path, upto: int, lane: Lane, other: Lane)
    requires other != lane
    ensures LaneBags(ReleaseAlong(f, p, upto, lane), other) == LaneBags(f, other)
  {
  }

  lemma ReleaseAlongOther(f: Flat, p: Path, upto: int, lane: Lane, other: Lane)
    requires other != lane
    ensures LaneBag(ReleaseAlong(f, p, upto, lane), other) == LaneBag(f, other)
  {
    ReleaseBagsOther(f, p, upto, lane, other);
  }

  lemma ReleaseAlongStep(f: Flat, p: Path, n: nat, lane: Lane)
    requires n < |p| && [] !in f && p[..n + 1] in f
    ensures ReleaseAlong(f, p, n + 1, lane) ==
            ReleaseAlong(f, p, n, lane)[p[..n + 1] := f[p[..n + 1]][lane := -1]]
    ensures ReleaseAlong(f, p, n, lane)[p[..n + 1]] == f[p[..n + 1]]
  {
    var g, h := ReleaseAlong(f, p, n, lane), ReleaseAlong(f, p, n + 1, lane);
    forall q | q in f && q != p[..n + 1] ensures h[q] == g[q] {
      if IsPrefix(q, p) && |q| <= n + 1 { assert |q| != n + 1; }
    }
  }

  /** Releasing along a path turns exactly the pages on it into -1. */
  lemma {:induction false} ReleaseAlongBag(f: Flat, p: Path, n: nat, lane: Lane)
    requires [] !in f && StoredPath(f, p) && n <= |p|
    ensures Live(LaneBag(ReleaseAlong(f, p, n, lane), lane)) + Live(multiset(PagesAlong(f, p, lane)[..n]))
         == Live(LaneBag(f, lane))
  {
    if n == 0 {
      assert ReleaseAlong(f, p, 0, lane) == f;
    } else {
      ReleaseAlongBag(f, p, n - 1, lane);
      ReleaseAlongStep(f, p, n - 1, lane);
      ReleaseBagStep(f, p, n, lane);
    }
  }

  lemma LaneBagSwap(g: Flat, h: Flat, q: Path, lane: Lane, v: int)
    requires q in g && At(g[q], lane) == v && h == g[q := g[q][lane := -1]]
    ensures LaneBag(h, lane) + One(v) == LaneBag(g, lane) + One(-1)
  {
    LaneBagUpdate(g, q, g[q][lane := -1], lane);
  }

  lemma ReleaseOne(f: Flat, p: Path, n: nat, lane: Lane)
    requires [] !in f && StoredPath(f, p) && 0 < n <= |p|
    ensures LaneBag(ReleaseAlong(f, p, n, lane), lane) + One(Entry(f, p[..n], lane))
         == LaneBag(ReleaseAlong(f, p, n - 1, lane), lane) + One(-1)
  {
    ReleaseAlongStep(f, p, n - 1, lane);
    LaneBagSwap(ReleaseAlong(f, p, n - 1, lane), ReleaseAlong(f, p, n, lane), p[..n], lane, Entry(f, p[..n], lane));
  }

  lemma LiveSwap(a: multiset<int>, b: multiset<int>, v: int)
    requires b + One(v) == a + One(-1)
    ensures Live(b) + Live(One(v)) == Live(a)
  {
    LiveAdd(b, One(v));
    LiveAdd(a, One(-1));
    LiveOne(-1);
  }

  lemma LiveAppend(s: seq<int>, v: int)
    ensures Live(multiset(s + [v])) == Live(multiset(s)) + Live(One(v))
  {
    LiveAdd(multiset(s), One(v));
  }

  lemma PagesAlongStep(f: Flat, p: Path, n: nat, lane: Lane)
    requires 0 < n <= |p|
    ensures PagesAlong(f, p, lane)[..n] == PagesAlong(f, p, lane)[..n - 1] + [Entry(f, p[..n], lane)]
  {
  }

  lemma ReleaseBagStep(f: Flat, p: Path, n: nat, lane: Lane)
    requires [] !in f && StoredPath(f, p) && 0 < n <= |p|
    ensures Live(LaneBag(ReleaseAlong(f, p, n, lane), lane)) + Live(multiset(PagesAlong(f, p, lane)[..n]))
         == Live(LaneBag(ReleaseAlong(f, p, n - 1, lane), lane)) + Live(multiset(PagesAlong(f, p, lane)[..n - 1]))
  {
    ReleaseOne(f, p, n, lane);
    PagesAlongStep(f, p, n, lane);
    LiveSwap(LaneBag(ReleaseAlong(f, p, n - 1, lane), lane), LaneBag(ReleaseAlong(f, p, n, lane), lane),
      Entry(f, p[..n], lane));
    LiveAppend(PagesAlong(f, p, lane)[..n - 1], Entry(f, p[..n], lane));
  }
}
