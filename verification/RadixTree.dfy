/** The radix tree over page-sized token blocks, as a graph of nodes addressed by
    their uuid, and the flat map it refines.

    Lengths are counted in pages: a key is a sequence of token blocks, and each
    lane holds one page number per block (or -1 for a released one).  The module
    `Paging` relates this to the token-level lengths of the program. */
module RadixTree {
  import opened Bags

  type Block = seq<int>
  type Path = seq<Block>
  type Id = nat

  const ROOT: Id := 0

  /** What one tree node stores per block: the full-token page, the
      sliding-window page and the three compressed component pages. */
  datatype Lane = Full | Swa | C4 | C128 | Indexer

  type Cell = map<Lane, int>
  type Flat = map<Path, Cell>

  datatype Node = Node(
    parent: Id,
    children: map<Block, Id>,
    key: Path,
    lanes: map<Lane, seq<int>>,
    refs: int)

  /** `path` labels every node with the blocks on the way from the root. */
  datatype Tree = Tree(nodes: map<Id, Node>, path: map<Id, Path>)

  predicate IsPrefix(p: Path, q: Path) {
    |p| <= |q| && p == q[..|p|]
  }

  ghost predicate LanesOk(x: Node) {
    && (forall l: Lane :: l in x.lanes && |x.lanes[l]| == |x.key|)
    && (forall l: Lane, i :: l in x.lanes && 0 <= i < |x.lanes[l]| ==> x.lanes[l][i] >= -1)
  }

  ghost predicate NodeOk(t: Tree, n: Id)
    requires n in t.nodes && t.path.Keys == t.nodes.Keys
  {
    var x := t.nodes[n];
    && LanesOk(x)
    && if n == ROOT then
         x.key == [] && t.path[n] == []
       else
         && |x.key| > 0
         && x.parent in t.nodes
         && t.path[n] == t.path[x.parent] + x.key
         && x.key[0] in t.nodes[x.parent].children
         && t.nodes[x.parent].children[x.key[0]] == n
  }

  ghost predicate ChildOk(t: Tree, n: Id, b: Block)
    requires n in t.nodes && b in t.nodes[n].children
  {
    var c := t.nodes[n].children[b];
    c in t.nodes && c != ROOT && t.nodes[c].parent == n && |t.nodes[c].key| > 0 && t.nodes[c].key[0] == b
  }

  ghost predicate WF(t: Tree) {
    && t.path.Keys == t.nodes.Keys
    && ROOT in t.nodes
    && (forall n {:trigger NodeOk(t, n)} :: n in t.nodes ==> NodeOk(t, n))
    && (forall n, b {:trigger ChildOk(t, n, b)} :: n in t.nodes && b in t.nodes[n].children ==> ChildOk(t, n, b))
  }

  ghost function Start(t: Tree, n: Id): int
    requires n in t.nodes && n in t.path
  {
    |t.path[n]| - |t.nodes[n].key|
  }

  /** Node `n` stores the last block of the path `q`. */
  ghost predicate Covers(t: Tree, n: Id, q: Path) {
    && n in t.nodes && n in t.path && n != ROOT
    && Start(t, n) < |q|
    && IsPrefix(q, t.path[n])
  }

  ghost function Cells(t: Tree): set<Path>
    requires WF(t)
  {
    set n, k | n in t.nodes && n != ROOT && 0 < k <= |t.path[n]| && Start(t, n) < k :: t.path[n][..k]
  }

  lemma CellsCovered(t: Tree, q: Path)
    requires WF(t)
    ensures q in Cells(t) <==> exists n :: Covers(t, n, q)
  {
    if n :| Covers(t, n, q) {
      assert q == t.path[n][..|q|];
      assert NodeOk(t, n);
      assert n in t.nodes && n != ROOT && 0 < |q| <= |t.path[n]| && Start(t, n) < |q|;
    }
    if q in Cells(t) {
      var n, k :| n in t.nodes && n != ROOT && 0 < k <= |t.path[n]| && Start(t, n) < k && q == t.path[n][..k];
      assert Covers(t, n, q);
    }
  }

  ghost function Owner(t: Tree, q: Path): (n: Id)
    requires WF(t) && q in Cells(t)
    ensures Covers(t, n, q)
  {
    CellsCovered(t, q);
    var n :| Covers(t, n, q);
    n
  }

  ghost function CellIn(x: Node, i: nat): Cell
    requires LanesOk(x) && i < |x.key|
  {
    map l: Lane | l in x.lanes :: x.lanes[l][i]
  }

  ghost function CellOf(t: Tree, n: Id, q: Path): Cell
    requires WF(t) && Covers(t, n, q)
  {
    assert NodeOk(t, n);
    CellIn(t.nodes[n], |q| - Start(t, n) - 1)
  }

  /** The flat map the tree stands for: every stored path with its pages. */
  ghost function FlatOf(t: Tree): (f: Flat)
    requires WF(t)
  {
    map q | q in Cells(t) :: CellOf(t, Owner(t, q), q)
  }

  // ----- a path is stored by one node only

  lemma ParentPath(t: Tree, n: Id)
    requires WF(t) && n in t.nodes && n != ROOT
    ensures 0 <= Start(t, n) < |t.path[n]| && |t.nodes[n].key| > 0
    ensures t.nodes[n].key == t.path[n][Start(t, n)..]
    ensures var p := t.nodes[n].parent;
            && p in t.nodes && t.path[p] == t.path[n][..Start(t, n)]
            && (if Start(t, n) == 0 then p == ROOT else Covers(t, p, t.path[p]))
    ensures var p := t.nodes[n].parent; var b := t.path[n][Start(t, n)];
            b in t.nodes[p].children && t.nodes[p].children[b] == n
  {
    assert NodeOk(t, n);
    assert NodeOk(t, t.nodes[n].parent);
  }

  lemma {:induction false} CoverUnique(t: Tree, n: Id, m: Id, q: Path)
    requires WF(t) && Covers(t, n, q) && Covers(t, m, q)
    ensures n == m
    decreases |q|
  {
    ParentPath(t, n);
    ParentPath(t, m);
    var a, b := Start(t, n), Start(t, m);
    if a == b {
      assert t.path[n][..a] == q[..a] == t.path[m][..a];
      if a > 0 {
        CoverUnique(t, t.nodes[n].parent, t.nodes[m].parent, q[..a]);
      }
    } else if a < b {
      assert t.path[m][..b] == q[..b];
      CoverUnique(t, n, t.nodes[m].parent, q[..b]);
    } else {
      assert t.path[n][..a] == q[..a];
      CoverUnique(t, m, t.nodes[n].parent, q[..a]);
    }
  }

  lemma PathUnique(t: Tree, n: Id, m: Id)
    requires WF(t) && n in t.nodes && m in t.nodes && t.path[n] == t.path[m]
    ensures n == m
  {
    assert NodeOk(t, n) && NodeOk(t, m);
    if t.path[n] != [] {
      CoverUnique(t, n, m, t.path[n]);
    }
  }

  lemma FlatAt(t: Tree, n: Id, q: Path)
    requires WF(t) && Covers(t, n, q)
    ensures q in FlatOf(t) && FlatOf(t)[q] == CellOf(t, n, q)
  {
    CellsCovered(t, q);
    CoverUnique(t, n, Owner(t, q), q);
  }

  lemma FlatDomain(t: Tree, q: Path)
    requires WF(t) && q in FlatOf(t)
    ensures q != [] && Covers(t, Owner(t, q), q) && FlatOf(t)[q] == CellOf(t, Owner(t, q), q)
  {
    assert NodeOk(t, Owner(t, q));
  }

  /** Every non-empty prefix of a node's path is stored, by an ancestor. */
  lemma {:induction false} PrefixStored(t: Tree, n: Id, q: Path) returns (m: Id)
    requires WF(t) && n in t.nodes && q != [] && IsPrefix(q, t.path[n])
    ensures Covers(t, m, q) && IsPrefix(t.path[m], t.path[n])
    decreases |t.path[n]|
  {
    assert NodeOk(t, n);
    if Start(t, n) < |q| {
      m := n;
    } else {
      assert t.path[n][..Start(t, n)] == t.path[t.nodes[n].parent];
      m := PrefixStored(t, t.nodes[n].parent, q);
    }
  }

  /** If `n` stores `q` and another node's path runs through `q`, it runs through
      all of `n`. */
  lemma ThroughNode(t: Tree, n: Id, m: Id, q: Path)
    requires WF(t) && Covers(t, n, q) && m in t.nodes && IsPrefix(q, t.path[m])
    ensures IsPrefix(t.path[n], t.path[m])
  {
    assert NodeOk(t, n);
    var o := PrefixStored(t, m, q);
    CoverUnique(t, n, o, q);
  }

  // ----- the walk stops only at the end of what is stored

  lemma StopAtNode(t: Tree, n: Id, q: Path)
    requires WF(t) && n in t.nodes && q != [] && t.path[n] == q[..|q| - 1]
    requires q[|q| - 1] !in t.nodes[n].children
    ensures q !in FlatOf(t)
  {
    if q in FlatOf(t) {
      var m, k := Owner(t, q), |q| - 1;
      ParentPath(t, m);
      assert t.path[m][..k] == q[..k];
      if Start(t, m) == k {
        PathUnique(t, n, t.nodes[m].parent);
      } else {
        assert NodeOk(t, n);
        CoverUnique(t, n, m, q[..k]);
      }
    }
  }

  lemma StopInNode(t: Tree, n: Id, q: Path)
    requires WF(t) && |q| > 1 && Covers(t, n, q[..|q| - 1])
    requires |q| <= |t.path[n]| && t.path[n][|q| - 1] != q[|q| - 1]
    ensures q !in FlatOf(t)
  {
    if q in FlatOf(t) {
      var m, k := Owner(t, q), |q| - 1;
      ParentPath(t, m);
      assert t.path[m][..k] == q[..k];
      if Start(t, m) == k {
        CoverUnique(t, n, t.nodes[m].parent, q[..k]);
      } else {
        CoverUnique(t, n, m, q[..k]);
      }
    }
  }

  // ----- splitting a node

  function SliceLanes(lanes: map<Lane, seq<int>>, lo: nat, hi: nat): map<Lane, seq<int>>
    requires lo <= hi && forall l :: l in lanes ==> hi <= |lanes[l]|
  {
    map l | l in lanes :: lanes[l][lo..hi]
  }

  ghost predicate CanSplit(t: Tree, n: Id, pos: nat, u: Id) {
    && WF(t) && n in t.nodes && n != ROOT && 0 < pos < |t.nodes[n].key|
    && u !in t.nodes
  }

  function Upper(x: Node, n: Id, pos: nat): Node
    requires pos < |x.key| && forall l :: l in x.lanes ==> |x.lanes[l]| == |x.key|
  {
    Node(x.parent, map[x.key[pos] := n], x.key[..pos], SliceLanes(x.lanes, 0, pos), x.refs)
  }

  function Lower(x: Node, up: Id, pos: nat): Node
    requires pos < |x.key| && forall l :: l in x.lanes ==> |x.lanes[l]| == |x.key|
  {
    x.(parent := up, key := x.key[pos..], lanes := SliceLanes(x.lanes, pos, |x.key|))
  }

  ghost function Split(t: Tree, n: Id, pos: nat, u: Id): Tree
    requires CanSplit(t, n, pos, u)
  {
    assert NodeOk(t, n);
    var x := t.nodes[n];
    var p := t.nodes[x.parent];
    Tree(
      t.nodes[x.parent := p.(children := p.children[x.key[0] := u])]
        [u := Upper(x, n, pos)][n := Lower(x, u, pos)],
      t.path[u := t.path[x.parent] + x.key[..pos]])
  }

  lemma SplitNodes(t: Tree, n: Id, pos: nat, u: Id)
    requires CanSplit(t, n, pos, u)
    ensures LanesOk(t.nodes[n]) && 0 <= Start(t, n) && Start(t, n) + pos < |t.path[n]|
    ensures var x, s := t.nodes[n], Split(t, n, pos, u);
            && x.parent in t.nodes && x.parent != n && x.parent != u
            && s.nodes.Keys == s.path.Keys == t.nodes.Keys + {u}
            && s.nodes[n] == Lower(x, u, pos) && s.nodes[u] == Upper(x, n, pos)
            && s.nodes[x.parent] == t.nodes[x.parent].(children := t.nodes[x.parent].children[x.key[0] := u])
            && s.path[u] == t.path[n][..Start(t, n) + pos]
            && forall m :: m in t.nodes ==> s.path[m] == t.path[m]
    ensures var x, s := t.nodes[n], Split(t, n, pos, u);
            forall m :: m in t.nodes && m != n && m != x.parent ==> s.nodes[m] == t.nodes[m]
  {
    hide ChildOk, SliceLanes, IsPrefix;
    assert NodeOk(t, n);
    ParentPath(t, n);
    var x := t.nodes[n];
    assert |t.path[x.parent]| < |t.path[n]|;
    HeadOfConcat(t.path[x.parent], x.key, pos);
  }

  lemma HeadOfConcat(a: Path, b: Path, k: nat)
    requires k <= |b|
    ensures (a + b)[..|a| + k] == a + b[..k]
  {
  }

  /** The field updates of the program, in its order, make the split tree. */
  lemma SplitByUpdates(t: Tree, n: Id, pos: nat, u: Id)
    requires CanSplit(t, n, pos, u)
    ensures LanesOk(t.nodes[n]) && t.nodes[n].parent in t.nodes && t.nodes[n].parent != u
    ensures
      var x := t.nodes[n];
      var n1 := t.nodes[u := Node(x.parent, map[], x.key[..pos], SliceLanes(x.lanes, 0, pos), 0)];
      var n2 := n1[x.parent := n1[x.parent].(children := n1[x.parent].children[x.key[0] := u])];
      var n3 := n2[u := n2[u].(refs := x.refs)];
      var n4 := n3[n := x.(key := x.key[pos..], lanes := SliceLanes(x.lanes, pos, |x.key|))];
      var n5 := n4[u := n4[u].(children := map[x.key[pos] := n])];
      n5[n := n5[n].(parent := u)] == Split(t, n, pos, u).nodes
  {
    hide WF, NodeOk, ChildOk, SliceLanes, IsPrefix;
    SplitNodes(t, n, pos, u);
  }

  lemma SplitNodeOk(t: Tree, n: Id, pos: nat, u: Id, m: Id)
    requires CanSplit(t, n, pos, u) && m in t.nodes
    requires var s := Split(t, n, pos, u); s.path.Keys == s.nodes.Keys && m in s.nodes
    ensures NodeOk(Split(t, n, pos, u), m)
  {
    SplitNodes(t, n, pos, u);
    var s := Split(t, n, pos, u);
    var x := t.nodes[n];
    assert NodeOk(t, m) && NodeOk(t, n);
    if m == n {
      assert s.path[n] == s.path[u] + x.key[pos..];
    } else if m != ROOT {
      var y := t.nodes[m];
      assert ChildOk(t, y.parent, y.key[0]);
      assert s.nodes[m].parent == y.parent && s.nodes[m].key == y.key;
      if y.parent == n {
        assert s.nodes[n].children == x.children;
      } else if y.parent == x.parent {
        assert y.key[0] != x.key[0];
      }
    }
  }

  lemma SplitChildOk(t: Tree, n: Id, pos: nat, u: Id, m: Id, b: Block)
    requires CanSplit(t, n, pos, u) && m in t.nodes
    requires var s := Split(t, n, pos, u); m in s.nodes && b in s.nodes[m].children
    ensures ChildOk(Split(t, n, pos, u), m, b)
  {
    SplitNodes(t, n, pos, u);
    assert NodeOk(t, n);
    var s := Split(t, n, pos, u);
    var x := t.nodes[n];
    if m == x.parent && b == x.key[0] {
      assert s.nodes[m].children[b] == u;
    } else {
      assert b in t.nodes[m].children && s.nodes[m].children[b] == t.nodes[m].children[b];
      assert ChildOk(t, m, b);
      var c := t.nodes[m].children[b];
    }
  }

  lemma SplitWF(t: Tree, n: Id, pos: nat, u: Id)
    requires CanSplit(t, n, pos, u)
    ensures WF(Split(t, n, pos, u))
  {
    SplitNodes(t, n, pos, u);
    assert NodeOk(t, n);
    var s := Split(t, n, pos, u);
    forall m | m in s.nodes ensures NodeOk(s, m) {
      if m == u { } else { SplitNodeOk(t, n, pos, u, m); }
    }
    forall m, b | m in s.nodes && b in s.nodes[m].children ensures ChildOk(s, m, b) {
      if m == u { } else { SplitChildOk(t, n, pos, u, m, b); }
    }
  }

  ghost function SplitOwner(t: Tree, n: Id, pos: nat, u: Id, m: Id, q: Path): Id
    requires n in t.nodes && n in t.path
  {
    if m == n && |q| <= Start(t, n) + pos then u else m
  }

  lemma SplitCovers(t: Tree, n: Id, pos: nat, u: Id, m: Id, q: Path)
    requires CanSplit(t, n, pos, u) && Covers(t, m, q)
    ensures Covers(Split(t, n, pos, u), SplitOwner(t, n, pos, u, m, q), q)
  {
    SplitNodes(t, n, pos, u);
    ParentPath(t, m);
  }

  lemma UpperCell(x: Node, n: Id, pos: nat, i: nat)
    requires LanesOk(x) && i < pos < |x.key|
    ensures LanesOk(Upper(x, n, pos)) && CellIn(Upper(x, n, pos), i) == CellIn(x, i)
  {
    forall l: Lane ensures Upper(x, n, pos).lanes[l][i] == x.lanes[l][i] { }
  }

  lemma LowerCell(x: Node, u: Id, pos: nat, i: nat)
    requires LanesOk(x) && pos <= i < |x.key|
    ensures LanesOk(Lower(x, u, pos)) && CellIn(Lower(x, u, pos), i - pos) == CellIn(x, i)
  {
    forall l: Lane ensures Lower(x, u, pos).lanes[l][i - pos] == x.lanes[l][i] { }
  }

  lemma SameCell(x: Node, y: Node, i: nat)
    requires LanesOk(x) && LanesOk(y) && x.key == y.key && x.lanes == y.lanes && i < |x.key|
    ensures CellIn(x, i) == CellIn(y, i)
  {
  }

  lemma SplitCell(t: Tree, n: Id, pos: nat, u: Id, m: Id, q: Path)
    requires CanSplit(t, n, pos, u) && WF(Split(t, n, pos, u)) && Covers(t, m, q)
    requires Covers(Split(t, n, pos, u), SplitOwner(t, n, pos, u, m, q), q)
    ensures CellOf(Split(t, n, pos, u), SplitOwner(t, n, pos, u, m, q), q) == CellOf(t, m, q)
  {
    hide ChildOk, Split, CellIn, SliceLanes;
    SplitNodes(t, n, pos, u);
    assert NodeOk(t, m);
    var i := |q| - Start(t, m) - 1;
    if m == n {
      if i < pos {
        UpperCell(t.nodes[n], n, pos, i);
      } else {
        LowerCell(t.nodes[n], u, pos, i);
      }
    } else {
      SameCell(t.nodes[m], Split(t, n, pos, u).nodes[m], i);
    }
  }

  lemma SplitUncovers(t: Tree, n: Id, pos: nat, u: Id, o: Id, q: Path)
    requires CanSplit(t, n, pos, u) && WF(Split(t, n, pos, u)) && Covers(Split(t, n, pos, u), o, q)
    ensures Covers(t, if o == u then n else o, q)
  {
    SplitNodes(t, n, pos, u);
    ParentPath(Split(t, n, pos, u), o);
  }

  /** Splitting changes neither what is stored nor where. */
  lemma SplitKeepsFlat(t: Tree, n: Id, pos: nat, u: Id)
    requires CanSplit(t, n, pos, u)
    ensures WF(Split(t, n, pos, u)) && FlatOf(Split(t, n, pos, u)) == FlatOf(t)
  {
    SplitWF(t, n, pos, u);
    var s := Split(t, n, pos, u);
    forall q | q in FlatOf(t) ensures q in FlatOf(s) && FlatOf(s)[q] == FlatOf(t)[q] {
      var m := Owner(t, q);
      SplitCovers(t, n, pos, u, m, q);
      SplitCell(t, n, pos, u, m, q);
      FlatAt(s, SplitOwner(t, n, pos, u, m, q), q);
    }
    forall q | q in FlatOf(s) ensures q in FlatOf(t) {
      var o := Owner(s, q);
      SplitUncovers(t, n, pos, u, o, q);
      CellsCovered(t, q);
    }
  }

  // ----- attaching and detaching a leaf

  ghost function SegmentKeys(base: Path, key: Path): set<Path> {
    set k | 0 < k <= |key| :: base + key[..k]
  }

  /** The cells one node contributes below the path of its parent. */
  ghost function Segment(base: Path, x: Node): Flat
    requires LanesOk(x)
  {
    map q | q in SegmentKeys(base, x.key) :: CellIn(x, |q| - |base| - 1)
  }

  lemma SegmentKey(base: Path, key: Path, q: Path)
    ensures q in SegmentKeys(base, key) <==> |base| < |q| && IsPrefix(q, base + key)
  {
    if |base| < |q| && IsPrefix(q, base + key) {
      assert q == base + key[..|q| - |base|];
    }
    if q in SegmentKeys(base, key) {
      var k :| 0 < k <= |key| && q == base + key[..k];
      assert (base + key)[..|q|] == base + key[..k];
    }
  }

  ghost predicate CanAttach(t: Tree, u: Id, x: Node) {
    && WF(t) && x.parent in t.nodes && u !in t.nodes
    && LanesOk(x) && |x.key| > 0 && x.children == map[]
    && x.key[0] !in t.nodes[x.parent].children
  }

  ghost function Attach(t: Tree, u: Id, x: Node): Tree
    requires CanAttach(t, u, x)
  {
    var p := t.nodes[x.parent];
    Tree(
      t.nodes[x.parent := p.(children := p.children[x.key[0] := u])][u := x],
      t.path[u := t.path[x.parent] + x.key])
  }

  lemma AttachWF(t: Tree, u: Id, x: Node)
    requires CanAttach(t, u, x)
    ensures WF(Attach(t, u, x))
  {
    var s := Attach(t, u, x);
    assert NodeOk(t, ROOT);
    forall m | m in s.nodes ensures NodeOk(s, m) {
      if m != u {
        assert NodeOk(t, m);
        if m != ROOT {
          assert NodeOk(t, t.nodes[m].parent);
        }
      }
    }
    forall m, b | m in s.nodes && b in s.nodes[m].children ensures ChildOk(s, m, b) {
      if m != u && !(m == x.parent && b == x.key[0]) {
        assert b in t.nodes[m].children;
        assert ChildOk(t, m, b);
      }
    }
  }

  lemma AttachCell(t: Tree, u: Id, x: Node, m: Id, q: Path)
    requires CanAttach(t, u, x) && WF(Attach(t, u, x)) && m in t.nodes
    ensures Covers(t, m, q) <==> Covers(Attach(t, u, x), m, q)
    ensures Covers(t, m, q) ==> CellOf(Attach(t, u, x), m, q) == CellOf(t, m, q)
  {
    if Covers(t, m, q) {
      assert NodeOk(t, m);
    }
  }

  lemma AttachNewCell(t: Tree, u: Id, x: Node, q: Path)
    requires CanAttach(t, u, x) && WF(Attach(t, u, x)) && q in SegmentKeys(t.path[x.parent], x.key)
    ensures q !in FlatOf(t) && q in FlatOf(Attach(t, u, x))
    ensures FlatOf(Attach(t, u, x))[q] == Segment(t.path[x.parent], x)[q]
  {
    hide FlatOf, CellOf, NodeOk, ChildOk, Segment, SegmentKeys;
    SegmentKey(t.path[x.parent], x.key, q);
    LeafCell(t, u, x, q);
    FlatAt(Attach(t, u, x), u, q);
    if q in FlatOf(t) {
      NotStored(t, u, x, q);
    }
  }

  /** The new leaf covers its segment. */
  lemma LeafCell(t: Tree, u: Id, x: Node, q: Path)
    requires CanAttach(t, u, x) && WF(Attach(t, u, x)) && q in SegmentKeys(t.path[x.parent], x.key)
    ensures Covers(Attach(t, u, x), u, q) && CellOf(Attach(t, u, x), u, q) == Segment(t.path[x.parent], x)[q]
  {
    SegmentKey(t.path[x.parent], x.key, q);
    assert NodeOk(Attach(t, u, x), u);
  }

  lemma NotStored(t: Tree, u: Id, x: Node, q: Path)
    requires CanAttach(t, u, x) && WF(Attach(t, u, x)) && Covers(Attach(t, u, x), u, q)
    ensures q !in FlatOf(t)
  {
    hide NodeOk, ChildOk, IsPrefix, CellOf;
    if q in FlatOf(t) {
      AttachCell(t, u, x, Owner(t, q), q);
      CoverUnique(Attach(t, u, x), u, Owner(t, q), q);
    }
  }

  lemma AttachOldCell(t: Tree, u: Id, x: Node, q: Path)
    requires CanAttach(t, u, x) && WF(Attach(t, u, x)) && q in FlatOf(t)
    ensures q in FlatOf(Attach(t, u, x)) && FlatOf(Attach(t, u, x))[q] == FlatOf(t)[q]
  {
    AttachCell(t, u, x, Owner(t, q), q);
    FlatAt(Attach(t, u, x), Owner(t, q), q);
  }

  lemma AttachNoOther(t: Tree, u: Id, x: Node, q: Path)
    requires CanAttach(t, u, x) && WF(Attach(t, u, x)) && q in FlatOf(Attach(t, u, x))
    ensures q in FlatOf(t) || q in SegmentKeys(t.path[x.parent], x.key)
  {
    var s := Attach(t, u, x);
    var o := Owner(s, q);
    if o == u {
      SegmentKey(t.path[x.parent], x.key, q);
      assert NodeOk(s, u);
    } else {
      AttachCell(t, u, x, o, q);
      CellsCovered(t, q);
    }
  }

  /** Attaching a leaf keeps every stored cell and adds the leaf's segment. */
  lemma AttachExtendsFlat(t: Tree, u: Id, x: Node)
    requires CanAttach(t, u, x)
    ensures WF(Attach(t, u, x))
    ensures FlatOf(Attach(t, u, x)) == FlatOf(t) + Segment(t.path[x.parent], x)
    ensures SegmentKeys(t.path[x.parent], x.key) !! FlatOf(t).Keys
  {
    AttachWF(t, u, x);
    forall q | q in Segment(t.path[x.parent], x)
      ensures q !in FlatOf(t) && q in FlatOf(Attach(t, u, x))
      ensures FlatOf(Attach(t, u, x))[q] == Segment(t.path[x.parent], x)[q]
    {
      AttachNewCell(t, u, x, q);
    }
    forall q | q in FlatOf(t)
      ensures q in FlatOf(Attach(t, u, x)) && FlatOf(Attach(t, u, x))[q] == FlatOf(t)[q]
    {
      AttachOldCell(t, u, x, q);
    }
    forall q | q in FlatOf(Attach(t, u, x))
      ensures q in FlatOf(t) || q in Segment(t.path[x.parent], x)
    {
      AttachNoOther(t, u, x, q);
    }
    MergeDisjoint(FlatOf(t), Segment(t.path[x.parent], x), FlatOf(Attach(t, u, x)));
  }

  ghost predicate CanDetach(t: Tree, n: Id) {
    WF(t) && n in t.nodes && n != ROOT && t.nodes[n].children == map[]
  }

  ghost function Detach(t: Tree, n: Id): Tree
    requires CanDetach(t, n)
  {
    assert NodeOk(t, n);
    var x := t.nodes[n];
    var p := t.nodes[x.parent];
    Tree((t.nodes - {n})[x.parent := p.(children := p.children - {x.key[0]})], t.path - {n})
  }

  lemma DetachWF(t: Tree, n: Id)
    requires CanDetach(t, n)
    ensures WF(Detach(t, n))
  {
    ParentPath(t, n);
    var s, x := Detach(t, n), t.nodes[n];
    forall m | m in s.nodes ensures NodeOk(s, m) {
      assert NodeOk(t, m);
      if m != ROOT {
        var y := t.nodes[m];
        assert ChildOk(t, y.parent, y.key[0]);
        assert y.parent != n;
        assert y.parent == x.parent ==> y.key[0] != x.key[0];
      }
    }
    forall m, b | m in s.nodes && b in s.nodes[m].children ensures ChildOk(s, m, b) {
      assert b in t.nodes[m].children;
      assert ChildOk(t, m, b);
    }
  }

  lemma DetachAttach(t: Tree, n: Id)
    requires CanDetach(t, n)
    ensures CanAttach(Detach(t, n), n, t.nodes[n]) && Attach(Detach(t, n), n, t.nodes[n]) == t
  {
    DetachWF(t, n);
    ParentPath(t, n);
    assert NodeOk(t, n);
    var s, x := Detach(t, n), t.nodes[n];
    var p := t.nodes[x.parent];
    assert (p.children - {x.key[0]})[x.key[0] := n] == p.children;
    assert Attach(s, n, x).nodes == t.nodes;
    assert Attach(s, n, x).path == t.path;
  }

  /** Detaching a leaf removes exactly the leaf's segment. */
  lemma DetachShrinksFlat(t: Tree, n: Id)
    requires CanDetach(t, n)
    ensures WF(Detach(t, n)) && LanesOk(t.nodes[n]) && t.nodes[n].parent in t.path
    ensures var seg := Segment(t.path[t.nodes[n].parent], t.nodes[n]);
            && FlatOf(t) == FlatOf(Detach(t, n)) + seg
            && FlatOf(Detach(t, n)) == FlatOf(t) - seg.Keys
            && seg.Keys !! FlatOf(Detach(t, n)).Keys
  {
    DetachAttach(t, n);
    ParentPath(t, n);
    AttachExtendsFlat(Detach(t, n), n, t.nodes[n]);
    MergeUndone(FlatOf(Detach(t, n)), Segment(t.path[t.nodes[n].parent], t.nodes[n]));
  }

  // ----- changing what nodes hold without changing their shape

  ghost predicate SameShape(t: Tree, s: Tree) {
    && s.path == t.path && s.nodes.Keys == t.nodes.Keys
    && forall n {:trigger s.nodes[n]} {:trigger t.nodes[n]} :: n in t.nodes ==>
         && s.nodes[n].parent == t.nodes[n].parent && s.nodes[n].children == t.nodes[n].children
         && s.nodes[n].key == t.nodes[n].key && LanesOk(s.nodes[n])
  }

  lemma SameShapeWF(t: Tree, s: Tree)
    requires WF(t) && SameShape(t, s)
    ensures WF(s) && FlatOf(s).Keys == FlatOf(t).Keys
  {
    forall m | m in s.nodes ensures NodeOk(s, m) { assert NodeOk(t, m); }
    forall m, b | m in s.nodes && b in s.nodes[m].children ensures ChildOk(s, m, b) { assert ChildOk(t, m, b); }
    forall q ensures q in Cells(s) <==> q in Cells(t) {
      CellsCovered(s, q);
      CellsCovered(t, q);
      forall n ensures Covers(s, n, q) <==> Covers(t, n, q) { }
    }
  }

  lemma SameShapeCell(t: Tree, s: Tree, q: Path)
    requires WF(t) && WF(s) && SameShape(t, s) && q in FlatOf(t)
    ensures q in FlatOf(s) && Covers(s, Owner(t, q), q) && FlatOf(s)[q] == CellOf(s, Owner(t, q), q)
  {
    FlatDomain(t, q);
    FlatAt(s, Owner(t, q), q);
  }

  lemma SameNodeCell(t: Tree, s: Tree, n: Id, q: Path)
    requires WF(t) && WF(s) && Covers(t, n, q) && Covers(s, n, q)
    requires s.path == t.path && s.nodes[n].key == t.nodes[n].key && s.nodes[n].lanes == t.nodes[n].lanes
    ensures CellOf(s, n, q) == CellOf(t, n, q)
  {
  }

  lemma SameCellAt(t: Tree, s: Tree, q: Path)
    requires WF(t) && WF(s) && SameShape(t, s) && q in FlatOf(t)
    requires s.nodes[Owner(t, q)].lanes == t.nodes[Owner(t, q)].lanes
    ensures q in FlatOf(s) && FlatOf(s)[q] == FlatOf(t)[q]
  {
    SameShapeCell(t, s, q);
    SameNodeCell(t, s, Owner(t, q), q);
  }

  /** Reference counts are not part of what the tree stores. */
  lemma RefsKeepFlat(t: Tree, s: Tree)
    requires WF(t) && SameShape(t, s)
    requires forall n :: n in t.nodes ==> s.nodes[n].lanes == t.nodes[n].lanes
    ensures WF(s) && FlatOf(s) == FlatOf(t)
  {
    SameShapeWF(t, s);
    forall q | q in FlatOf(t) ensures q in FlatOf(s) && FlatOf(s)[q] == FlatOf(t)[q] {
      SameCellAt(t, s, q);
    }
  }

  function AllReleased(n: nat): seq<int> {
    seq(n, _ => -1)
  }

  /** Marks every page of one lane of one node as released. */
  ghost function Tombstone(t: Tree, n: Id, lane: Lane): Tree
    requires WF(t) && n in t.nodes
  {
    t.(nodes := t.nodes[n := t.nodes[n].(lanes := t.nodes[n].lanes[lane := AllReleased(|t.nodes[n].key|)])])
  }

  lemma TombstoneShape(t: Tree, n: Id, lane: Lane)
    requires WF(t) && n in t.nodes
    ensures SameShape(t, Tombstone(t, n, lane)) && WF(Tombstone(t, n, lane))
    ensures FlatOf(Tombstone(t, n, lane)).Keys == FlatOf(t).Keys
  {
    var s := Tombstone(t, n, lane);
    forall m | m in t.nodes ensures LanesOk(s.nodes[m]) { assert NodeOk(t, m); }
    SameShapeWF(t, s);
  }

  lemma TombstoneCell(x: Node, lane: Lane, i: nat)
    requires LanesOk(x) && i < |x.key|
    ensures var y := x.(lanes := x.lanes[lane := AllReleased(|x.key|)]);
            LanesOk(y) && CellIn(y, i) == CellIn(x, i)[lane := -1]
  {
  }

  lemma TombstoneInNode(t: Tree, n: Id, lane: Lane, q: Path)
    requires WF(t) && Covers(t, n, q) && WF(Tombstone(t, n, lane)) && Covers(Tombstone(t, n, lane), n, q)
    ensures CellOf(Tombstone(t, n, lane), n, q) == CellOf(t, n, q)[lane := -1]
  {
    assert NodeOk(t, n);
    TombstoneCell(t.nodes[n], lane, |q| - Start(t, n) - 1);
  }

  lemma TombstoneAt(t: Tree, n: Id, lane: Lane, q: Path)
    requires WF(t) && n in t.nodes && q in FlatOf(t)
    ensures WF(Tombstone(t, n, lane)) && q in FlatOf(Tombstone(t, n, lane))
    ensures FlatOf(Tombstone(t, n, lane))[q] ==
            if Covers(t, n, q) then FlatOf(t)[q][lane := -1] else FlatOf(t)[q]
  {
    hide NodeOk, ChildOk, IsPrefix, CellOf;
    var s, o := Tombstone(t, n, lane), Owner(t, q);
    TombstoneShape(t, n, lane);
    if Covers(t, n, q) {
      CoverUnique(t, n, o, q);
      SameShapeCell(t, s, q);
      TombstoneInNode(t, n, lane, q);
    } else {
      SameCellAt(t, s, q);
    }
  }
}
