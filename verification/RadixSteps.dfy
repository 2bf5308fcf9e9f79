/** The steps of the prefix cache's operations on the tree: what each does to the
    flat map, the reference counts and the size totals. */
module RadixSteps {
  import opened Bags
  import opened RadixTree
  import opened RadixLocks
  import opened PrefixMap

  datatype Handle = Handle(cachedLen: nat, node: Id)

  /** Length of the common prefix, in whole blocks. */
  function CommonPrefix(a: Path, b: Path): (n: nat)
    ensures n <= |a| && n <= |b| && a[..n] == b[..n]
    ensures n < |a| && n < |b| ==> a[n] != b[n]
  {
    if a == [] || b == [] || a[0] != b[0] then 0
    else
      var n := CommonPrefix(a[1..], b[1..]);
      assert a[..n + 1] == [a[0]] + a[1..][..n] && b[..n + 1] == [b[0]] + b[1..][..n];
      n + 1
  }

  lemma BumpStep(t: Tree, h: Path, n: Id, d: int)
    requires WF(t) && n in t.nodes && n != ROOT && IsPrefix(t.path[n], h)
    ensures t.nodes[n].parent in t.nodes && IsPrefix(t.path[t.nodes[n].parent], h)
    ensures |t.path[t.nodes[n].parent]| < |t.path[n]|
    ensures var b := Bump(t, h, |t.path[n]|, d);
            && n in b.nodes && b.nodes[n] == t.nodes[n]
            && Bump(t, h, |t.path[t.nodes[n].parent]|, d).nodes
                 == b.nodes[n := t.nodes[n].(refs := t.nodes[n].refs + d)]
  {
    ParentPath(t, n);
    var p := t.nodes[n].parent;
    assert t.path[p] == t.path[n][..|t.path[p]|] == h[..|t.path[p]|];
    forall m | m in t.nodes && OnPath(t, h, m) && |t.path[p]| < |t.path[m]| <= |t.path[n]|
      ensures m == n
    {
      assert t.path[m] == h[..|t.path[m]|] == t.path[n][..|t.path[m]|];
      assert NodeOk(t, m);
      CoverUnique(t, n, m, t.path[m]);
    }
  }

  /** Reference counts and both size totals are exact and the next id is unused. */
  ghost predicate CacheInv(t: Tree, locked: multiset<Path>, counter: Id, evictable: int, protected: int) {
    && RefInv(t, locked)
    && (forall n :: n in t.nodes ==> n < counter)
    && evictable == SizeOf(t.nodes, true)
    && protected == SizeOf(t.nodes, false)
  }

  function Min(a: int, b: int): int {
    if a <= b then a else b
  }

  /** Blocks of a handle's path in front of its last `tail` ones. */
  function HeadLen(h: Handle, tail: nat): nat {
    if h.cachedLen <= tail then 0 else h.cachedLen - tail
  }

  /** `list` is the nodes on the way to `p` below its first `from` blocks. */
  ghost predicate PathNodes(t: Tree, list: seq<Id>, from: int, p: Path)
    decreases |list|
  {
    if list == [] then from == |p|
    else
      var n := list[0];
      && n in t.nodes && n in t.path && n != ROOT && Start(t, n) == from && IsPrefix(t.path[n], p)
      && PathNodes(t, list[1..], |t.path[n]|, p)
  }

  ghost predicate NodeKept(t: Tree, s: Tree, m: Id)
    requires m in t.nodes && m in t.path
  {
    m in s.nodes && m in s.path && s.path[m] == t.path[m] && s.nodes[m].key == t.nodes[m].key
  }

  /** Nodes ending deeper than `depth` keep their path and key. */
  ghost predicate KeepsDeeper(t: Tree, s: Tree, depth: int) {
    forall m {:trigger NodeKept(t, s, m)} :: m in t.nodes && m in t.path && |t.path[m]| > depth ==> NodeKept(t, s, m)
  }

  lemma {:induction false} PathNodesKept(t: Tree, s: Tree, list: seq<Id>, from: int, p: Path)
    requires WF(t) && PathNodes(t, list, from, p) && KeepsDeeper(t, s, from)
    ensures PathNodes(s, list, from, p)
    decreases |list|
  {
    if list != [] {
      assert NodeOk(t, list[0]) && NodeKept(t, s, list[0]);
      PathNodesKept(t, s, list[1..], |t.path[list[0]]|, p);
    }
  }

  lemma NodeSize(t: Tree, n: Id)
    requires WF(t) && n in t.nodes && n != ROOT
    ensures |t.nodes[n].key| > 0
  {
    assert NodeOk(t, n);
  }

  /** Node `u` of `s` stands for the first `len` blocks of node `n` of `t`. */
  ghost predicate HeadNode(t: Tree, s: Tree, n: Id, u: Id, len: nat) {
    && n in t.nodes && n in t.path && u in s.nodes && u in s.path && u != ROOT
    && 0 <= Start(t, n) == Start(s, u) && Start(t, n) + len <= |t.path[n]|
    && s.path[u] == t.path[n][..Start(t, n) + len]
    && KeepsDeeper(t, s, |t.path[n]|)
  }

  lemma WholeNode(t: Tree, n: Id)
    requires WF(t) && n in t.nodes && n != ROOT
    ensures HeadNode(t, t, n, n, |t.nodes[n].key|)
  {
    assert NodeOk(t, n);
  }

  lemma UpperNode(t: Tree, n: Id, pos: nat, u: Id)
    requires CanSplit(t, n, pos, u)
    ensures HeadNode(t, Split(t, n, pos, u), n, u, pos)
  {
    SplitNodes(t, n, pos, u);
  }

  /** One lane of the first `len` blocks of node `n` was released; `pages` is what
      the lane held. */
  ghost predicate ReleasedNode(t: Tree, s: Tree, n: Id, len: nat, lane: Lane, pages: seq<int>)
    requires WF(t) && WF(s)
  {
    && n in t.nodes && n in t.path && 0 <= Start(t, n) && Start(t, n) + len <= |t.path[n]|
    && FlatOf(s) == ReleaseSpan(FlatOf(t), t.path[n], Start(t, n), Start(t, n) + len, lane)
    && pages == PagesAlong(FlatOf(t), t.path[n], lane)[Start(t, n)..Start(t, n) + len]
    && KeepsDeeper(t, s, |t.path[n]|)
  }

  lemma SpanAt(f: Flat, p: Path, from: int, upto: int, lane: Lane)
    ensures ReleaseSpan(f, p, from, upto, lane).Keys == f.Keys
    ensures forall q :: q in f ==>
      ReleaseSpan(f, p, from, upto, lane)[q] == if from < |q| <= upto && IsPrefix(q, p) then f[q][lane := -1] else f[q]
  {
  }

  lemma TombstoneSpan(s: Tree, u: Id, lane: Lane)
    requires WF(s) && u in s.nodes && u != ROOT
    ensures WF(Tombstone(s, u, lane))
    ensures FlatOf(Tombstone(s, u, lane)) == ReleaseSpan(FlatOf(s), s.path[u], Start(s, u), |s.path[u]|, lane)
  {
    hide FlatOf, NodeOk, ChildOk, Tombstone, ReleaseSpan;
    TombstoneShape(s, u, lane);
    var f, g, h := FlatOf(s), FlatOf(Tombstone(s, u, lane)),
      ReleaseSpan(FlatOf(s), s.path[u], Start(s, u), |s.path[u]|, lane);
    SpanAt(f, s.path[u], Start(s, u), |s.path[u]|, lane);
    forall q | q in g ensures g[q] == h[q] {
      TombstoneAt(s, u, lane, q);
    }
    SameMap(g, h);
  }

  lemma NodeLanes(s: Tree, u: Id, lane: Lane)
    requires WF(s) && u in s.nodes
    ensures u in s.path && lane in s.nodes[u].lanes
  {
    assert NodeOk(s, u);
  }

  lemma TombstoneKeepsDeeper(t: Tree, s: Tree, u: Id, lane: Lane, depth: int)
    requires WF(s) && u in s.nodes && u in s.path && lane in s.nodes[u].lanes && KeepsDeeper(t, s, depth)
    ensures KeepsDeeper(t, Tombstone(s, u, lane), depth)
  {
    forall m | m in t.nodes && m in t.path && |t.path[m]| > depth ensures NodeKept(t, Tombstone(s, u, lane), m) {
      assert NodeKept(t, s, m);
    }
  }

  lemma ReleasedParts(t: Tree, s: Tree, n: Id, u: Id, len: nat, lane: Lane)
    requires WF(t) && WF(s) && HeadNode(t, s, n, u, len) && FlatOf(s) == FlatOf(t)
    ensures WF(Tombstone(s, u, lane)) && lane in s.nodes[u].lanes
    ensures ReleasedNode(t, Tombstone(s, u, lane), n, len, lane, s.nodes[u].lanes[lane])
  {
    hide WF, FlatOf, ReleaseSpan, PagesAlong, KeepsDeeper;
    NodeLanes(s, u, lane);
    TombstoneKeepsDeeper(t, s, u, lane, |t.path[n]|);
    TombstoneSpan(s, u, lane);
    SpanOfPrefix(FlatOf(t), s.path[u], t.path[n], Start(t, n), Start(t, n) + len, lane);
    PagesOfNode(s, u, s.path[u], lane);
    PagesOfPrefix(FlatOf(t), s.path[u], t.path[n], lane);
  }

  /** The pages released once the first `n` blocks of `p` are done. */
  ghost function ReleasedPages(f: RadixTree.Flat, p: Path, lane: Lane, n: int): seq<int>
    requires 0 <= n <= |p|
  {
    NonNegative(PagesAlong(f, p, lane)[..n])
  }

  /** The release loop has handled the first `done` blocks of `p`, and `rest` is the
      nodes from block `offset` on. */
  ghost predicate Releasing(t: Tree, f: RadixTree.Flat, p: Path, lane: Lane, rest: seq<Id>, offset: int, done: int,
                            released: seq<int>) {
    && WF(t) && PathNodes(t, rest, offset, p)
    && 0 <= done <= |p|
    && FlatOf(t) == ReleaseAlong(f, p, done, lane)
    && released == ReleasedPages(f, p, lane, done)
  }

  lemma ReleaseStart(t: Tree, rest: seq<Id>, p: Path, lane: Lane)
    requires WF(t) && PathNodes(t, rest, 0, p)
    ensures Releasing(t, FlatOf(t), p, lane, rest, 0, 0, [])
  {
    TreePrefixClosed(t);
    SameMap(ReleaseAlong(FlatOf(t), p, 0, lane), FlatOf(t));
    assert PagesAlong(FlatOf(t), p, lane)[..0] == [];
  }

  lemma SliceChain(a: seq<int>, b: seq<int>, c: seq<int>, from: nat, len: nat)
    requires |a| <= |b| == |c| && a == b[..|a|] && from + len <= |a| && b[from..] == c[from..]
    ensures a[from..from + len] == c[from..from + len]
  {
    forall i | from <= i < from + len ensures a[i] == c[i] {
      assert b[from..][i - from] == c[from..][i - from];
    }
  }

  lemma ReleaseStepFlat(f: RadixTree.Flat, g: RadixTree.Flat, h: RadixTree.Flat, p: Path, q: Path, lane: Lane,
                        offset: nat, len: nat)
    requires IsPrefix(q, p) && offset + len <= |q|
    requires g == ReleaseAlong(f, p, offset, lane) && h == ReleaseSpan(g, q, offset, offset + len, lane)
    ensures h == ReleaseAlong(f, p, offset + len, lane)
    ensures PagesAlong(g, q, lane)[offset..offset + len] == PagesAlong(f, p, lane)[offset..offset + len]
  {
    SpanOfPrefix(g, q, p, offset, offset + len, lane);
    SpanExtends(f, p, offset, offset + len, lane);
    PagesOfPrefix(g, q, p, lane);
    PagesBeyond(f, p, offset, lane);
    SliceChain(PagesAlong(g, q, lane), PagesAlong(g, p, lane), PagesAlong(f, p, lane), offset, len);
  }

  lemma ReleaseStepNodes(t: Tree, s: Tree, rest: seq<Id>, offset: nat, p: Path)
    requires WF(t) && rest != [] && PathNodes(t, rest, offset, p) && KeepsDeeper(t, s, |t.path[rest[0]]|)
    ensures PathNodes(s, rest[1..], offset + |t.nodes[rest[0]].key|, p)
  {
    PathNodesKept(t, s, rest[1..], |t.path[rest[0]]|, p);
  }

  lemma ReleasedMore(f: RadixTree.Flat, p: Path, lane: Lane, n: nat, len: nat, pages: seq<int>)
    requires n + len <= |p| && pages == PagesAlong(f, p, lane)[n..n + len]
    ensures ReleasedPages(f, p, lane, n + len) == ReleasedPages(f, p, lane, n) + NonNegative(pages)
  {
    NonNegativeSlices(PagesAlong(f, p, lane), n, len);
  }

  lemma ReleaseStep(t: Tree, s: Tree, f: RadixTree.Flat, p: Path, lane: Lane, rest: seq<Id>, offset: nat,
                    released: seq<int>, len: nat, pages: seq<int>, next: int, done: int, all: seq<int>)
    requires rest != [] && Releasing(t, f, p, lane, rest, offset, offset, released) && WF(s)
    requires ReleasedNode(t, s, rest[0], len, lane, pages)
    requires next == offset + |t.nodes[rest[0]].key| && done == offset + len && all == released + NonNegative(pages)
    ensures Releasing(s, f, p, lane, rest[1..], next, done, all)
  {
    hide WF, FlatOf, ReleaseAlong, ReleaseSpan, PagesAlong, KeepsDeeper, NonNegative, ReleasedPages;
    ReleaseStepFlat(f, FlatOf(t), FlatOf(s), p, t.path[rest[0]], lane, offset, len);
    ReleasedMore(f, p, lane, offset, len, pages);
    ReleaseStepNodes(t, s, rest, offset, p);
  }

  lemma TombstoneValid(t: Tree, n: Id, lane: Lane, locked: multiset<Path>, u: Id, ev: int, pr: int)
    requires n in t.nodes && CacheInv(t, locked, u, ev, pr)
    ensures CacheInv(Tombstone(t, n, lane), locked, u, ev, pr) && lane in t.nodes[n].lanes
  {
    var s := Tombstone(t, n, lane);
    TombstoneShape(t, n, lane);
    assert NodeOk(t, n);
    SameShapeSize(t, s, true);
    SameShapeSize(t, s, false);
    forall h | h in locked ensures exists m :: Holds(s, m, h) {
      var m :| Holds(t, m, h);
      assert Holds(s, m, h);
    }
    forall m | m in s.nodes ensures RefOk(s, locked, m) {
      assert RefOk(t, locked, m);
    }
  }

  lemma NonNegativeSlices(s: seq<int>, a: nat, len: nat)
    requires a + len <= |s|
    ensures NonNegative(s[..a + len]) == NonNegative(s[..a]) + NonNegative(s[a..a + len])
  {
    assert s[..a + len] == s[..a] + s[a..a + len];
    NonNegativeConcat(s[..a], s[a..a + len]);
  }

  lemma {:induction false} NonNegativeSome(s: seq<int>)
    requires exists i :: 0 <= i < |s| && s[i] >= 0
    ensures NonNegative(s) != []
  {
    if s[0] < 0 {
      var i :| 0 <= i < |s| && s[i] >= 0;
      assert s[1..][i - 1] == s[i];
      NonNegativeSome(s[1..]);
    }
  }

  predicate LiveSwa(x: Node) {
    Swa in x.lanes && exists i :: 0 <= i < |x.lanes[Swa]| && x.lanes[Swa][i] >= 0
  }

  /** Only unlocked leaves changed, and these lost all their window pages. */
  ghost predicate OnlyWindows(before: map<Id, Node>, after: map<Id, Node>) {
    && after.Keys == before.Keys
    && forall n :: n in before ==>
         after[n] == before[n] || (IsUnlockedLeaf(before, n) && SameButWindow(before[n], after[n]))
  }

  ghost predicate SameButWindow(x: Node, y: Node) {
    y == x.(lanes := x.lanes[Swa := AllReleased(|x.key|)])
  }

  ghost predicate NoWindow(x: Node) {
    Swa in x.lanes ==> forall i :: 0 <= i < |x.lanes[Swa]| ==> x.lanes[Swa][i] < 0
  }

  /** No unlocked leaf outside `leaves` has a live window page. */
  ghost predicate WindowsGone(nodes: map<Id, Node>, leaves: set<Id>) {
    forall n :: n in nodes && n !in leaves && IsUnlockedLeaf(nodes, n) ==> NoWindow(nodes[n])
  }

  lemma NothingReleased(nodes: map<Id, Node>)
    ensures OnlyWindows(nodes, nodes) && WindowsGone(nodes, UnlockedLeaves(nodes))
  {
  }

  lemma OneWindowGone(before: map<Id, Node>, mid: map<Id, Node>, after: map<Id, Node>, leaves: set<Id>, n: Id)
    requires OnlyWindows(before, mid) && WindowsGone(mid, leaves) && n in leaves && leaves <= before.Keys
    requires forall m :: m in leaves ==> mid[m] == before[m]
    requires IsUnlockedLeaf(before, n) && n in after && after == mid[n := after[n]]
    requires (after[n] == mid[n] && !LiveSwa(mid[n])) || SameButWindow(mid[n], after[n])
    ensures OnlyWindows(before, after) && WindowsGone(after, leaves - {n})
    ensures forall m :: m in leaves - {n} ==> after[m] == before[m]
  {
  }

  ghost predicate SwaCells(f: RadixTree.Flat, g: RadixTree.Flat) {
    && g.Keys == f.Keys
    && forall q :: q in f ==> g[q] == f[q] || g[q] == f[q][Swa := -1]
  }

  ghost predicate SwaBags(f: RadixTree.Flat, g: RadixTree.Flat, released: seq<int>) {
    && Live(LaneBag(f, Swa)) == Live(LaneBag(g, Swa)) + multiset(released)
    && forall l: Lane :: l != Swa ==> LaneBag(g, l) == LaneBag(f, l)
  }

  /** Window pages were released in some cells and nothing else changed. */
  ghost predicate SwaReleased(f: RadixTree.Flat, g: RadixTree.Flat, released: seq<int>) {
    && SwaCells(f, g) && SwaBags(f, g, released)
    && forall i :: 0 <= i < |released| ==> released[i] >= 0
  }

  lemma SwaReleasedNothing(f: RadixTree.Flat)
    ensures SwaReleased(f, f, [])
  {
  }

  lemma SwaCellsMore(f: RadixTree.Flat, g: RadixTree.Flat, h: RadixTree.Flat)
    requires SwaCells(f, g) && SwaCells(g, h)
    ensures SwaCells(f, h)
  {
    forall q | q in f ensures h[q] == f[q] || h[q] == f[q][Swa := -1] {
      assert f[q][Swa := -1][Swa := -1] == f[q][Swa := -1];
    }
  }

  lemma SwaBagsMore(f: RadixTree.Flat, g: RadixTree.Flat, h: RadixTree.Flat, a: seq<int>, b: seq<int>, c: seq<int>)
    requires SwaBags(f, g, a) && SwaBags(g, h, b) && c == a + b
    ensures SwaBags(f, h, c)
  {
    forall l: Lane | l != Swa ensures LaneBag(h, l) == LaneBag(f, l) { }
    assert multiset(c) == multiset(a) + multiset(b);
  }

  lemma SwaReleasedMore(f: RadixTree.Flat, g: RadixTree.Flat, h: RadixTree.Flat, a: seq<int>, b: seq<int>, c: seq<int>)
    requires SwaReleased(f, g, a) && SwaReleased(g, h, b) && c == a + b
    ensures SwaReleased(f, h, c)
  {
    SwaCellsMore(f, g, h);
    SwaBagsMore(f, g, h, a, b, c);
  }

  lemma NodeKeys(t: Tree, n: Id, q: Path)
    requires WF(t) && n in t.nodes && n != ROOT
    ensures t.nodes[n].parent in t.path
    ensures q in SegmentKeys(t.path[t.nodes[n].parent], t.nodes[n].key) <==> Covers(t, n, q)
  {
    ParentPath(t, n);
    assert NodeOk(t, n);
    SegmentKey(t.path[t.nodes[n].parent], t.nodes[n].key, q);
  }

  lemma NodeCell(t: Tree, n: Id, q: Path)
    requires WF(t) && n in t.nodes && n != ROOT && t.nodes[n].parent in t.path && LanesOk(t.nodes[n])
    requires q in SegmentKeys(t.path[t.nodes[n].parent], t.nodes[n].key)
    ensures q in FlatOf(t) && FlatOf(t)[q] == Segment(t.path[t.nodes[n].parent], t.nodes[n])[q]
  {
    ParentPath(t, n);
    NodeKeys(t, n, q);
    FlatAt(t, n, q);
  }

  lemma NodeInFlat(t: Tree, n: Id)
    requires WF(t) && n in t.nodes && n != ROOT
    ensures t.nodes[n].parent in t.path && LanesOk(t.nodes[n])
    ensures FlatOf(t) == (FlatOf(t) - SegmentKeys(t.path[t.nodes[n].parent], t.nodes[n].key))
                         + Segment(t.path[t.nodes[n].parent], t.nodes[n])
  {
    ParentPath(t, n);
    assert NodeOk(t, n);
    var seg := Segment(t.path[t.nodes[n].parent], t.nodes[n]);
    forall q | q in seg ensures q in FlatOf(t) && FlatOf(t)[q] == seg[q] {
      NodeCell(t, n, q);
    }
    SubmapRestored(FlatOf(t), seg);
  }

  lemma TombstoneReleases(t: Tree, n: Id)
    requires WF(t) && n in t.nodes && n != ROOT
    ensures WF(Tombstone(t, n, Swa)) && LanesOk(t.nodes[n])
    ensures SwaReleased(FlatOf(t), FlatOf(Tombstone(t, n, Swa)), NonNegative(t.nodes[n].lanes[Swa]))
  {
    var s := Tombstone(t, n, Swa);
    TombstoneShape(t, n, Swa);
    assert NodeOk(t, n);
    forall q | q in FlatOf(t)
      ensures FlatOf(s)[q] == FlatOf(t)[q] || FlatOf(s)[q] == FlatOf(t)[q][Swa := -1]
    {
      TombstoneAt(t, n, Swa, q);
    }
    forall l: Lane | l != Swa ensures LaneBag(FlatOf(s), l) == LaneBag(FlatOf(t), l) {
      TombstoneBagOther(t, n, l);
    }
    TombstoneBag(t, n);
  }

  lemma TombstoneBagOther(t: Tree, n: Id, l: Lane)
    requires WF(t) && n in t.nodes && n != ROOT && l != Swa && WF(Tombstone(t, n, Swa))
    ensures LaneBag(FlatOf(Tombstone(t, n, Swa)), l) == LaneBag(FlatOf(t), l)
  {
    var f, g := FlatOf(t), FlatOf(Tombstone(t, n, Swa));
    TombstoneShape(t, n, Swa);
    forall q | q in f ensures At(f[q], l) == At(g[q], l) {
      TombstoneAt(t, n, Swa, q);
    }
    LaneBagSame(f, g, l);
  }

  lemma TombstoneRest(t: Tree, n: Id)
    requires WF(t) && n in t.nodes && n != ROOT && WF(Tombstone(t, n, Swa))
    ensures t.nodes[n].parent in t.path
    ensures var keys := SegmentKeys(t.path[t.nodes[n].parent], t.nodes[n].key);
            FlatOf(Tombstone(t, n, Swa)) - keys == FlatOf(t) - keys
  {
    ParentPath(t, n);
    TombstoneShape(t, n, Swa);
    var keys := SegmentKeys(t.path[t.nodes[n].parent], t.nodes[n].key);
    var f, g := FlatOf(t) - keys, FlatOf(Tombstone(t, n, Swa)) - keys;
    forall q | q in f ensures f[q] == g[q] {
      NodeKeys(t, n, q);
      TombstoneAt(t, n, Swa, q);
    }
    SameMap(f, g);
  }

  /** The bag of a map that is `rest` plus one node's segment. */
  lemma NodeBag(f: RadixTree.Flat, rest: RadixTree.Flat, base: Path, x: Node)
    requires LanesOk(x) && f == rest + Segment(base, x) && rest.Keys !! SegmentKeys(base, x.key)
    ensures Live(LaneBag(f, Swa)) == Live(LaneBag(rest, Swa)) + multiset(NonNegative(x.lanes[Swa]))
  {
    LaneBagMerge(rest, Segment(base, x), Swa);
    SegmentBag(base, x, Swa);
    NonNegativeBag(x.lanes[Swa]);
    LiveAdd(LaneBag(rest, Swa), multiset(x.lanes[Swa]));
  }

  lemma TombstoneBag(t: Tree, n: Id)
    requires WF(t) && n in t.nodes && n != ROOT && WF(Tombstone(t, n, Swa)) && LanesOk(t.nodes[n])
    ensures Live(LaneBag(FlatOf(t), Swa)) ==
            Live(LaneBag(FlatOf(Tombstone(t, n, Swa)), Swa)) + multiset(NonNegative(t.nodes[n].lanes[Swa]))
  {
    ParentPath(t, n);
    var s, base, x := Tombstone(t, n, Swa), t.path[t.nodes[n].parent], t.nodes[n];
    var keys := SegmentKeys(base, x.key);
    TombstoneRest(t, n);
    NodeInFlat(t, n);
    NodeBag(FlatOf(t), FlatOf(t) - keys, base, x);
    NodeInFlat(s, n);
    NodeBag(FlatOf(s), FlatOf(s) - keys, base, s.nodes[n]);
    ReleasedNone(|x.key|);
  }

  lemma {:induction false} ReleasedNone(n: nat)
    ensures NonNegative(AllReleased(n)) == []
  {
    if n > 0 {
      ReleasedNone(n - 1);
      assert AllReleased(n)[1..] == AllReleased(n - 1);
    }
  }

  predicate IsUnlockedLeaf(nodes: map<Id, Node>, n: Id) {
    n in nodes && n != ROOT && nodes[n].refs == 0 && nodes[n].children == map[]
  }

  ghost function LeavesIn(nodes: map<Id, Node>, s: set<Id>): set<Id> {
    set n | n in s && IsUnlockedLeaf(nodes, n)
  }

  ghost function UnlockedLeaves(nodes: map<Id, Node>): set<Id> {
    LeavesIn(nodes, nodes.Keys)
  }

  /** Every node that is not done is pending or below a node that is not done. */
  ghost predicate Visiting(t: Tree, done: set<Id>, pending: set<Id>) {
    && done <= t.nodes.Keys && pending <= t.nodes.Keys && done !! pending
    && ROOT in done + pending
    && (forall m :: m in t.nodes && m != ROOT && t.nodes[m].parent in done ==> m in done + pending)
    && (forall m :: m in done + pending && m != ROOT ==> t.nodes[m].parent in done)
  }

  lemma VisitStep(t: Tree, done: set<Id>, pending: set<Id>, n: Id)
    requires WF(t) && t.nodes[ROOT].refs != 0 && Visiting(t, done, pending) && n in pending
    ensures n in t.nodes && t.nodes[n].children.Values <= t.nodes.Keys
    ensures Visiting(t, done + {n}, pending - {n} + t.nodes[n].children.Values)
    ensures t.nodes[n].children == map[] ==> t.nodes[n].children.Values == {}
    ensures LeavesIn(t.nodes, done + {n}) ==
            LeavesIn(t.nodes, done) + if t.nodes[n].children == map[] && t.nodes[n].refs == 0 then {n} else {}
  {
    var kids := t.nodes[n].children.Values;
    forall c | c in kids ensures c in t.nodes && c != ROOT && t.nodes[c].parent == n && c !in done + pending {
      var b :| b in t.nodes[n].children && t.nodes[n].children[b] == c;
      assert ChildOk(t, n, b);
      ParentPath(t, c);
    }
    assert n !in kids by {
      if n in kids {
        ParentPath(t, n);
      }
    }
    forall m | m in t.nodes && m != ROOT && t.nodes[m].parent == n ensures m in kids {
      ParentPath(t, m);
    }
  }

  lemma {:induction false} VisitedNode(t: Tree, done: set<Id>, n: Id)
    requires WF(t) && Visiting(t, done, {}) && n in t.nodes
    ensures n in done
    decreases |t.path[n]|
  {
    if n != ROOT {
      ParentPath(t, n);
      VisitedNode(t, done, t.nodes[n].parent);
    }
  }

  lemma VisitedAll(t: Tree, done: set<Id>)
    requires WF(t) && Visiting(t, done, {})
    ensures done == t.nodes.Keys
  {
    forall n | n in t.nodes ensures n in done {
      VisitedNode(t, done, n);
    }
  }

  // ----- what eviction removes

  /** One lane of the evicted nodes, in eviction order. */
  function LaneOf(evicted: seq<Node>, lane: Lane): seq<int> {
    if evicted == [] then []
    else
      var x := evicted[|evicted| - 1];
      LaneOf(evicted[..|evicted| - 1], lane) + if lane in x.lanes then x.lanes[lane] else []
  }

  /** `g` is what is left of `f`: the evicted nodes hold exactly the pages that are
      gone, and nothing on a locked path is gone. */
  ghost predicate Evicted(f: Flat, g: Flat, evicted: seq<Node>, locked: multiset<Path>) {
    && (forall q :: q in g ==> q in f && g[q] == f[q])
    && (forall l: Lane :: LaneBag(f, l) == LaneBag(g, l) + multiset(LaneOf(evicted, l)))
    && (forall q, h :: h in locked && q in f && IsPrefix(q, h) ==> q in g)
  }

  lemma EvictedNothing(f: Flat, locked: multiset<Path>)
    ensures Evicted(f, f, [], locked)
  {
  }

  /** Without the last of the nodes less than `size` pages were evicted. */
  ghost predicate JustEnough(evicted: seq<Node>, size: nat) {
    evicted != [] ==> |LaneOf(evicted[..|evicted| - 1], Full)| < size
  }

  lemma NoneTooMany(size: nat)
    ensures JustEnough([], size)
  {
  }

  lemma OneMore(evicted: seq<Node>, x: Node, size: nat)
    requires |LaneOf(evicted, Full)| < size
    ensures JustEnough(evicted + [x], size)
  {
    assert (evicted + [x])[..|evicted|] == evicted;
  }

  lemma LaneOfAppend(evicted: seq<Node>, x: Node, lane: Lane)
    requires LanesOk(x)
    ensures LaneOf(evicted + [x], lane) == LaneOf(evicted, lane) + x.lanes[lane]
  {
    assert (evicted + [x])[..|evicted|] == evicted;
  }

  lemma EvictedMore(f: Flat, g: Flat, h: Flat, evicted: seq<Node>, x: Node, locked: multiset<Path>)
    requires Evicted(f, g, evicted, locked) && Evicted(g, h, [x], locked) && LanesOk(x)
    ensures Evicted(f, h, evicted + [x], locked)
    ensures |LaneOf(evicted + [x], Full)| == |LaneOf(evicted, Full)| + |x.key|
  {
    forall l: Lane ensures LaneBag(f, l) == LaneBag(h, l) + multiset(LaneOf(evicted + [x], l)) {
      LaneOfAppend(evicted, x, l);
      LaneOfAppend([], x, l);
      assert [] + [x] == [x];
    }
    LaneOfAppend(evicted, x, Full);
  }

  lemma RemoveValid(t: Tree, n: Id, locked: multiset<Path>)
    requires RefInv(t, locked) && IsUnlockedLeaf(t.nodes, n)
    ensures CanDetach(t, n) && LanesOk(t.nodes[n]) && |t.nodes[n].key| > 0
    ensures RefInv(Detach(t, n), locked) && t.nodes[n].parent in Detach(t, n).nodes
    ensures Evicted(FlatOf(t), FlatOf(Detach(t, n)), [t.nodes[n]], locked)
    ensures SizeOf(Detach(t, n).nodes, true) == SizeOf(t.nodes, true) - |t.nodes[n].key|
    ensures SizeOf(Detach(t, n).nodes, false) == SizeOf(t.nodes, false)
    ensures Detach(t, n).nodes.Keys == t.nodes.Keys - {n}
  {
    DetachKeepsRefs(t, n, locked);
    DetachShrinksFlat(t, n);
    DetachDropsSize(t, n, true);
    DetachDropsSize(t, n, false);
    ParentPath(t, n);
    RemoveEvicts(t, n, locked);
  }

  lemma RemoveBags(t: Tree, n: Id, l: Lane)
    requires CanDetach(t, n) && WF(Detach(t, n))
    ensures LaneBag(FlatOf(t), l) == LaneBag(FlatOf(Detach(t, n)), l) + multiset(LaneOf([t.nodes[n]], l))
  {
    var x := t.nodes[n];
    DetachShrinksFlat(t, n);
    LaneBagMerge(FlatOf(Detach(t, n)), Segment(t.path[x.parent], x), l);
    SegmentBag(t.path[x.parent], x, l);
    LaneOfAppend([], x, l);
    assert [] + [x] == [x];
  }

  lemma RemoveEvicts(t: Tree, n: Id, locked: multiset<Path>)
    requires CanDetach(t, n) && RefInv(t, locked) && t.nodes[n].refs == 0 && WF(Detach(t, n))
    ensures Evicted(FlatOf(t), FlatOf(Detach(t, n)), [t.nodes[n]], locked)
  {
    var f, g, x := FlatOf(t), FlatOf(Detach(t, n)), t.nodes[n];
    forall l: Lane ensures LaneBag(f, l) == LaneBag(g, l) + multiset(LaneOf([x], l)) {
      RemoveBags(t, n, l);
    }
    DetachShrinksFlat(t, n);
    forall q, h | h in locked && q in f && IsPrefix(q, h) ensures q in g {
      if q !in g {
        RemovedUnlocked(t, n, locked, h, q);
      }
    }
  }

  lemma RemovedUnlocked(t: Tree, n: Id, locked: multiset<Path>, h: Path, q: Path)
    requires CanDetach(t, n) && RefInv(t, locked) && t.nodes[n].refs == 0 && WF(Detach(t, n))
    requires h in locked && q in FlatOf(t) && q !in FlatOf(Detach(t, n))
    ensures !IsPrefix(q, h)
  {
    DetachShrinksFlat(t, n);
    ParentPath(t, n);
    SegmentKey(t.path[t.nodes[n].parent], t.nodes[n].key, q);
    assert t.path[t.nodes[n].parent] + t.nodes[n].key == t.path[n];
    DetachedCellUnlocked(t, n, locked, h, q);
  }

  /** The nodes that locked handles point to are still there. */
  ghost predicate LockedNodesKept(before: map<Id, Path>, after: set<Id>, locked: multiset<Path>) {
    forall n :: n in before && before[n] in locked ==> n in after
  }

  lemma UnlockedNode(t: Tree, n: Id, locked: multiset<Path>)
    requires RefInv(t, locked) && n in t.nodes && t.nodes[n].refs == 0
    ensures n in t.path && t.path[n] !in locked
  {
    assert RefOk(t, locked, n);
    if t.path[n] in locked {
      CountExtract(locked, t.path[n], t.path[n]);
    }
  }

  /** Removing a leaf can only make its parent a new leaf. */
  lemma LeavesAfter(t: Tree, n: Id)
    requires WF(t) && IsUnlockedLeaf(t.nodes, n) && t.nodes[ROOT].refs != 0
    ensures CanDetach(t, n) && t.nodes[n].parent in Detach(t, n).nodes
    ensures
      var s, p := Detach(t, n).nodes, t.nodes[n].parent;
      UnlockedLeaves(s) == UnlockedLeaves(t.nodes) - {n} + if s[p].children == map[] && s[p].refs == 0 then {p} else {}
  {
    ParentPath(t, n);
    var p := t.nodes[n].parent;
    assert t.nodes[p].children != map[];
  }

  type Builder = (nat, nat) -> map<Lane, seq<int>>

  /** The lanes of a new segment: the given full pages and what the builder makes. */
  function NewLanes(ids: Path, pages: seq<int>, builder: Builder, start: nat): map<Lane, seq<int>>
    requires start <= |ids| <= |pages|
  {
    builder(start, |ids|)[Full := pages[start..|ids|]]
  }

  ghost predicate BuilderOk(ids: Path, pages: seq<int>, builder: Builder)
    requires |ids| <= |pages|
  {
    forall start: nat {:trigger NewLanes(ids, pages, builder, start)} :: start <= |ids| ==>
      LanesOk(Node(ROOT, map[], ids[start..], NewLanes(ids, pages, builder, start), 0))
  }

  /** The cells an insertion adds below the first `start` blocks. */
  ghost function NewCells(ids: Path, pages: seq<int>, builder: Builder, start: nat): Flat
    requires start <= |ids| <= |pages| && BuilderOk(ids, pages, builder)
  {
    Segment(ids[..start], Node(ROOT, map[], ids[start..], NewLanes(ids, pages, builder, start), 0))
  }

  lemma NoNewCells(ids: Path, pages: seq<int>, builder: Builder)
    requires |ids| <= |pages| && BuilderOk(ids, pages, builder)
    ensures NewCells(ids, pages, builder, |ids|) == map[]
  {
    assert SegmentKeys(ids[..|ids|], ids[|ids|..]) == {};
  }

  lemma ChildStored(t: Tree, n: Id, b: Block)
    requires WF(t) && n in t.nodes && b in t.nodes[n].children
    ensures t.path[n] + [b] in FlatOf(t)
  {
    assert ChildOk(t, n, b);
    var c := t.nodes[n].children[b];
    ParentPath(t, c);
    assert t.path[n] + [b] == t.path[c][..|t.path[n]| + 1];
    FlatAt(t, c, t.path[n] + [b]);
  }

  lemma NewNodeFits(t: Tree, ids: Path, pages: seq<int>, builder: Builder, start: nat, node: Id)
    requires WF(t) && start < |ids| <= |pages| && BuilderOk(ids, pages, builder)
    requires node in t.nodes && t.path[node] == ids[..start] && LongestMatch(FlatOf(t), ids, start)
    ensures
      var x := Node(node, map[], ids[start..], NewLanes(ids, pages, builder, start), 0);
      && LanesOk(x) && x.key[0] !in t.nodes[node].children
      && Segment(t.path[node], x) == NewCells(ids, pages, builder, start)
  {
    hide WF, FlatOf, NewLanes, CellIn, StoredPath;
    var x := Node(node, map[], ids[start..], NewLanes(ids, pages, builder, start), 0);
    var y := Node(ROOT, map[], ids[start..], NewLanes(ids, pages, builder, start), 0);
    assert LanesOk(y);
    assert ids[..start + 1] == ids[..start] + [ids[start]];
    if ids[start] in t.nodes[node].children {
      ChildStored(t, node, ids[start]);
    }
    forall q | q in SegmentKeys(ids[..start], x.key)
      ensures Segment(ids[..start], x)[q] == Segment(ids[..start], y)[q]
    {
      SameCell(x, y, |q| - start - 1);
    }
  }

  lemma InsertValid(t: Tree, x: Node, locked: multiset<Path>, u: Id, ev: int, pr: int)
    requires CanAttach(t, u, x) && x.refs == 0 && CacheInv(t, locked, u, ev, pr)
    ensures CacheInv(Attach(t, u, x), locked, u + 1, ev + |x.key|, pr)
    ensures FlatOf(Attach(t, u, x)) == FlatOf(t) + Segment(t.path[x.parent], x)
    ensures SegmentKeys(t.path[x.parent], x.key) !! FlatOf(t).Keys
  {
    AttachExtendsFlat(t, u, x);
    AttachKeepsRefs(t, u, x, locked);
    AttachAddsSize(t, u, x, true);
    AttachAddsSize(t, u, x, false);
  }

  lemma SplitValid(t: Tree, n: Id, pos: nat, locked: multiset<Path>, u: Id, ev: int, pr: int)
    requires CanSplit(t, n, pos, u) && CacheInv(t, locked, u, ev, pr)
    ensures CacheInv(Split(t, n, pos, u), locked, u + 1, ev, pr)
    ensures FlatOf(Split(t, n, pos, u)) == FlatOf(t)
  {
    SplitNodes(t, n, pos, u);
    SplitKeepsFlat(t, n, pos, u);
    SplitKeepsRefs(t, n, pos, u, locked);
    SplitKeepsSize(t, n, pos, u, true);
    SplitKeepsSize(t, n, pos, u, false);
  }

  lemma RootPath(t: Tree)
    requires WF(t)
    ensures t.path[ROOT] == [] && t.nodes[ROOT].key == []
  {
    assert NodeOk(t, ROOT);
  }

  ghost function WalkedNode(t: Tree, p: Path, from: int, d: int, m: Id): Node
    requires m in t.nodes
  {
    if OnPath(t, p, m) && |t.path[m]| > from then t.nodes[m].(refs := t.nodes[m].refs + d) else t.nodes[m]
  }

  /** All counts on the way to `p` deeper than `from` are bumped. */
  ghost predicate Walked(t: Tree, p: Path, from: int, d: int, nodes: map<Id, Node>) {
    && nodes.Keys == t.nodes.Keys
    && forall m {:trigger WalkedNode(t, p, from, d, m)} :: m in t.nodes ==> nodes[m] == WalkedNode(t, p, from, d, m)
  }

  lemma WalkedAll(t: Tree, p: Path, from: int, d: int, nodes: map<Id, Node>)
    requires WF(t)
    ensures Walked(t, p, from, d, nodes) <==> nodes == Bump(t, p, from, d).nodes
  {
    if Walked(t, p, from, d, nodes) {
      forall m | m in t.nodes ensures nodes[m] == Bump(t, p, from, d).nodes[m] {
        assert nodes[m] == WalkedNode(t, p, from, d, m);
      }
    }
  }

  lemma WalkStart(t: Tree, n: Id, d: int)
    requires WF(t) && n in t.nodes
    ensures OnWalk(t, t.path[n], d, n, t.nodes)
  {
  }

  /** The state of the walk up from `p` when it has reached node `n`. */
  ghost predicate OnWalk(t: Tree, p: Path, d: int, n: Id, cur: map<Id, Node>) {
    && n in t.nodes && n in t.path && n in cur
    && IsPrefix(t.path[n], p)
    && Walked(t, p, |t.path[n]|, d, cur)
  }

  /** One step of the walk up: the node's count is bumped and stays non-negative. */
  lemma LockStep(t: Tree, p: Path, n: Id, d: int, locked: multiset<Path>, cur: map<Id, Node>)
    requires RefInv(t, locked) && n != ROOT && OnWalk(t, p, d, n, cur)
    requires d == 1 || (d == -1 && p in locked)
    ensures cur[n].refs >= 0 && cur[n].refs + d >= 0
    ensures cur[n].parent in t.path && |t.path[cur[n].parent]| < |t.path[n]|
    ensures OnWalk(t, p, d, cur[n].parent, cur[n := cur[n].(refs := cur[n].refs + d)])
  {
    hide Count;
    var next := cur[n := cur[n].(refs := cur[n].refs + d)];
    BumpStep(t, p, n, d);
    WalkedAll(t, p, |t.path[n]|, d, cur);
    WalkedAll(t, p, |t.path[cur[n].parent]|, d, next);
    assert RefOk(t, locked, n);
    if d == -1 {
      CountExtract(locked, t.path[n], p);
    }
  }

  lemma LockValid(t: Tree, n: Id, locked: multiset<Path>, d: int, nodes: map<Id, Node>)
    requires RefInv(t, locked) && n in t.nodes && Walked(t, t.path[n], 0, d, nodes)
    requires d == 1 || (d == -1 && t.path[n] in locked)
    ensures RefInv(Tree(nodes, t.path), if d == -1 then locked - multiset{t.path[n]} else locked + multiset{t.path[n]})
    ensures FlatOf(Tree(nodes, t.path)) == FlatOf(t) && Tree(nodes, t.path) == Bump(t, t.path[n], 0, d)
    ensures nodes.Keys == t.nodes.Keys
  {
    assert Holds(t, n, t.path[n]);
    WalkedAll(t, t.path[n], 0, d, nodes);
    BumpShape(t, t.path[n], 0, d);
    if d == -1 {
      UnlockKeepsRefs(t, t.path[n], locked);
    } else {
      LockKeepsRefs(t, t.path[n], locked);
    }
  }

  lemma PageInNode(t: Tree, n: Id, p: Path, lane: Lane, i: nat)
    requires WF(t) && n in t.nodes && n != ROOT && IsPrefix(t.path[n], p)
    requires Start(t, n) <= i < |t.path[n]|
    ensures lane in t.nodes[n].lanes && 0 <= i - Start(t, n) < |t.nodes[n].lanes[lane]|
    ensures Entry(FlatOf(t), p[..i + 1], lane) == t.nodes[n].lanes[lane][i - Start(t, n)]
  {
    assert NodeOk(t, n);
    assert p[..i + 1] == t.path[n][..i + 1];
    FlatAt(t, n, p[..i + 1]);
  }

  lemma PageAt(f: Flat, p: Path, lane: Lane, i: nat)
    requires i < |p|
    ensures PagesAlong(f, p, lane)[i] == Entry(f, p[..i + 1], lane)
  {
  }

  /** A node's lane is the stretch of the path's pages that the node covers. */
  lemma PagesOfNode(t: Tree, n: Id, p: Path, lane: Lane)
    requires WF(t) && n in t.nodes && n != ROOT && IsPrefix(t.path[n], p)
    ensures 0 <= Start(t, n) <= |t.path[n]| && lane in t.nodes[n].lanes
    ensures PagesAlong(FlatOf(t), p, lane)[Start(t, n)..|t.path[n]|] == t.nodes[n].lanes[lane]
  {
    hide FlatOf, ChildOk, PagesAlong;
    assert NodeOk(t, n);
    ParentPath(t, n);
    var a, b := Start(t, n), |t.path[n]|;
    forall i | a <= i < b
      ensures PagesAlong(FlatOf(t), p, lane)[i] == t.nodes[n].lanes[lane][i - a]
    {
      PageInNode(t, n, p, lane, i);
      PageAt(FlatOf(t), p, lane, i);
    }
  }

  lemma NodeTail(t: Tree, n: Id, lane: Lane)
    requires WF(t) && n in t.nodes && n != ROOT
    ensures |t.nodes[n].key| > 0 && lane in t.nodes[n].lanes && |t.nodes[n].lanes[lane]| == |t.nodes[n].key|
    ensures t.path[n] in FlatOf(t)
    ensures Entry(FlatOf(t), t.path[n], lane) == t.nodes[n].lanes[lane][|t.nodes[n].key| - 1]
  {
    assert NodeOk(t, n);
    ParentPath(t, n);
    FlatAt(t, n, t.path[n]);
  }

  /** No node boundary on `p` deeper than `len` ends in a live window page. */
  ghost predicate NoLiveTailBetween(t: Tree, p: Path, len: int)
    requires WF(t)
  {
    forall m :: m in t.nodes && IsPrefix(t.path[m], p) && |t.path[m]| > len ==>
      Entry(FlatOf(t), t.path[m], Swa) < 0
  }

  lemma InvWF(t: Tree, locked: multiset<Path>, counter: Id, evictable: int, protected: int)
    requires CacheInv(t, locked, counter, evictable, protected)
    ensures WF(t)
  {
  }

  /** The next node boundary above `n` on a path is its parent. */
  lemma NextBoundary(t: Tree, p: Path, n: Id)
    requires WF(t) && n in t.nodes && n != ROOT && IsPrefix(t.path[n], p)
    requires NoLiveTailBetween(t, p, |t.path[n]|) && Entry(FlatOf(t), t.path[n], Swa) < 0
    ensures t.nodes[n].parent in t.nodes && IsPrefix(t.path[t.nodes[n].parent], p)
    ensures |t.path[t.nodes[n].parent]| == |t.path[n]| - |t.nodes[n].key| < |t.path[n]|
    ensures NoLiveTailBetween(t, p, |t.path[t.nodes[n].parent]|)
  {
    ParentPath(t, n);
    var a := Start(t, n);
    assert t.path[t.nodes[n].parent] == p[..a];
    forall m | m in t.nodes && IsPrefix(t.path[m], p) && |t.path[m]| > a
      ensures Entry(FlatOf(t), t.path[m], Swa) < 0
    {
      if |t.path[m]| <= |t.path[n]| {
        assert NodeOk(t, m);
        assert t.path[m] == t.path[n][..|t.path[m]|];
        CoverUnique(t, n, m, t.path[m]);
      }
    }
  }

  lemma DescendStep(t: Tree, ids: Path, node: Id, child: Id, prefixLen: nat, matchLen: nat)
    requires WF(t) && node in t.nodes && prefixLen < |ids| && t.path[node] == ids[..prefixLen]
    requires child in t.nodes && child != ROOT && t.nodes[child].parent == node
    requires |t.nodes[child].key| > 0 && t.nodes[child].key[0] == ids[prefixLen]
    requires matchLen == CommonPrefix(t.nodes[child].key, ids[prefixLen..])
    ensures 0 < matchLen <= |t.nodes[child].key| && prefixLen + matchLen <= |ids|
    ensures |t.path[child]| == prefixLen + |t.nodes[child].key|
    ensures t.path[child][..prefixLen + matchLen] == ids[..prefixLen + matchLen]
    ensures matchLen < |t.nodes[child].key| ==> LongestMatch(FlatOf(t), ids, prefixLen + matchLen)
  {
    hide FlatOf, LongestMatch, CommonPrefix, ChildOk;
    ParentPath(t, child);
    DescendPath(t.path[child], t.nodes[child].key, ids, prefixLen, matchLen);
    if matchLen < |t.nodes[child].key| {
      StopsInside(t, ids, child, prefixLen + matchLen);
    }
  }

  lemma DescendPath(p: Path, key: Path, ids: Path, a: nat, m: nat)
    requires a < |ids| && p == ids[..a] + key && m == CommonPrefix(key, ids[a..]) && |key| > 0 && key[0] == ids[a]
    ensures 0 < m <= |key| && a + m <= |ids| && p[..a + m] == ids[..a + m]
    ensures m < |key| && a + m < |ids| ==> p[a + m] != ids[a + m]
  {
    hide CommonPrefix;
    var head, rest := ids[..a], ids[a..];
    assert rest[0] == ids[a] && ids == head + rest;
    FirstInCommon(key, rest);
    HeadOfConcat(head, key, m);
    HeadOfConcat(head, rest, m);
  }

  lemma FirstInCommon(a: Path, b: Path)
    requires a != [] && b != [] && a[0] == b[0]
    ensures CommonPrefix(a, b) > 0
  {
  }

  lemma StopsInside(t: Tree, ids: Path, child: Id, k: nat)
    requires WF(t) && child in t.nodes && child != ROOT && k <= |ids|
    requires Start(t, child) < k < |t.path[child]| && t.path[child][..k] == ids[..k]
    requires k < |ids| ==> t.path[child][k] != ids[k]
    ensures LongestMatch(FlatOf(t), ids, k)
  {
    NodePathStored(t, child);
    forall j | 0 < j <= k ensures ids[..k][..j] in FlatOf(t) {
      assert ids[..k][..j] == t.path[child][..j];
    }
    if k < |ids| {
      ParentPath(t, child);
      assert ids[..k + 1][..k] == ids[..k];
      StopInNode(t, child, ids[..k + 1]);
    }
  }

  lemma StopsAt(t: Tree, ids: Path, node: Id, k: nat)
    requires WF(t) && node in t.nodes && k <= |ids| && t.path[node] == ids[..k]
    requires k < |ids| ==> ids[k] !in t.nodes[node].children
    ensures LongestMatch(FlatOf(t), ids, k)
  {
    NodePathStored(t, node);
    if k < |ids| {
      assert ids[..k + 1][..k] == ids[..k];
      StopAtNode(t, node, ids[..k + 1]);
    }
  }

  lemma ChildNode(t: Tree, node: Id, b: Block)
    requires WF(t) && node in t.nodes && b in t.nodes[node].children
    ensures var c := t.nodes[node].children[b];
            && c in t.nodes && c != ROOT && t.nodes[c].parent == node
            && |t.nodes[c].key| > 0 && t.nodes[c].key[0] == b
  {
    assert ChildOk(t, node, b);
  }

  /** A tree of the root alone stores nothing. */
  lemma EmptyTree(root: Node)
    requires root == Node(ROOT, map[], [], map[Full := [], Swa := [], C4 := [], C128 := [], Indexer := []], 1)
    ensures CacheInv(Tree(map[ROOT := root], map[ROOT := []]), multiset{}, 1, 0, 0)
    ensures FlatOf(Tree(map[ROOT := root], map[ROOT := []])) == map[]
  {
    var t := Tree(map[ROOT := root], map[ROOT := []]);
    forall l: Lane ensures l in root.lanes && root.lanes[l] == [] {
      match l case Full => case Swa => case C4 => case C128 => case Indexer =>
    }
    assert NodeOk(t, ROOT);
    assert RefOk(t, multiset{}, ROOT);
    SizeAdd(map[], ROOT, root, true);
    SizeAdd(map[], ROOT, root, false);
    assert Weights(map[], true) == map[] && Weights(map[], false) == map[];
    assert Cells(t) == {};
  }

  // ----- what admission counts on

  /** Pages of a node that eviction could give back: those of full tokens it still has, or
      one for each of its blocks. */
  function Spare(x: Node, live: bool): nat {
    if x.refs != 0 then 0
    else if !live then |x.key|
    else if Full in x.lanes then |NonNegative(x.lanes[Full])| else 0
  }

  ghost function Spares(nodes: map<Id, Node>, s: set<Id>, live: bool): map<Id, nat> {
    map n | n in nodes && n in s :: Spare(nodes[n], live)
  }

  ghost function SpareIn(nodes: map<Id, Node>, s: set<Id>, live: bool): nat {
    Total(Spares(nodes, s, live))
  }

  ghost function SpareSize(nodes: map<Id, Node>, live: bool): nat {
    SpareIn(nodes, nodes.Keys, live)
  }

  lemma SpareNone(nodes: map<Id, Node>, live: bool)
    ensures SpareIn(nodes, {}, live) == 0
  {
    assert Spares(nodes, {}, live) == map[];
  }

  lemma SpareStep(nodes: map<Id, Node>, s: set<Id>, n: Id, live: bool)
    requires n in nodes && n !in s
    ensures SpareIn(nodes, s + {n}, live) == SpareIn(nodes, s, live) + Spare(nodes[n], live)
  {
    TotalAdd(Spares(nodes, s, live), n, Spare(nodes[n], live));
    assert Spares(nodes, s + {n}, live) == Spares(nodes, s, live)[n := Spare(nodes[n], live)];
  }

  // ----- the integrity walk

  /** The lanes of a node are as long as its key. */
  predicate LengthsMatch(x: Node) {
    forall l: Lane :: l in x.lanes ==> |x.lanes[l]| == |x.key|
  }

  lemma NodeChecked(t: Tree, n: Id)
    requires WF(t) && n in t.nodes
    ensures LengthsMatch(t.nodes[n])
  {
    assert NodeOk(t, n);
  }

  lemma CountsInOrder(t: Tree, locked: multiset<Path>)
    requires RefInv(t, locked)
    ensures t.nodes[ROOT].refs > 0 && forall n :: n in t.nodes ==> t.nodes[n].refs >= 0
  {
    forall n | n in t.nodes ensures t.nodes[n].refs >= 0 {
      assert RefOk(t, locked, n);
    }
  }

  lemma SizeNone(nodes: map<Id, Node>)
    ensures SizeOf(Restrict(nodes, {}), true) == 0 && SizeOf(Restrict(nodes, {}), false) == 0
  {
    assert Restrict(nodes, {}) == map[];
    assert Weights(map[], true) == map[] && Weights(map[], false) == map[];
  }

  lemma SizeStep(nodes: map<Id, Node>, s: set<Id>, n: Id)
    requires n in nodes && n !in s
    ensures SizeOf(Restrict(nodes, s + {n}), true) == SizeOf(Restrict(nodes, s), true) + Weight(nodes[n], true)
    ensures SizeOf(Restrict(nodes, s + {n}), false) == SizeOf(Restrict(nodes, s), false) + Weight(nodes[n], false)
  {
    SizeAdd(Restrict(nodes, s), n, nodes[n], true);
    SizeAdd(Restrict(nodes, s), n, nodes[n], false);
    assert Restrict(nodes, s + {n}) == Restrict(nodes, s)[n := nodes[n]];
  }

  lemma WholeSize(nodes: map<Id, Node>)
    ensures Restrict(nodes, nodes.Keys) == nodes
  {
  }

  /** Counted in blocks it is the evictable size. */
  lemma SpareBlocks(nodes: map<Id, Node>)
    ensures SpareSize(nodes, false) == SizeOf(nodes, true)
  {
    assert Spares(nodes, nodes.Keys, false) == Weights(nodes, true);
  }

  lemma LockUndone(t: Tree, p: Path)
    ensures Bump(Bump(t, p, 0, 1), p, 0, -1) == t
  {
    var s := Bump(Bump(t, p, 0, 1), p, 0, -1);
    forall n | n in t.nodes ensures s.nodes[n] == t.nodes[n] {
      assert Bump(t, p, 0, 1).path == t.path;
    }
    assert s.nodes == t.nodes;
  }
}
