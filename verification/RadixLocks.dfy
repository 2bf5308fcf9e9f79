/** Reference counts of the radix tree: how many locked handles run through a
    node, and how many pages are evictable or protected. */
module RadixLocks {
  import opened Bags
  import opened RadixTree

  /** Number of locked handles whose path runs through `q`. */
  ghost function Count(locked: multiset<Path>, q: Path): nat
    decreases |locked|
  {
    if locked == multiset{} then 0
    else var h :| h in locked; (if IsPrefix(q, h) then 1 else 0) + Count(locked - multiset{h}, q)
  }

  lemma {:induction false} CountExtract(locked: multiset<Path>, q: Path, h: Path)
    requires h in locked
    ensures Count(locked, q) == (if IsPrefix(q, h) then 1 else 0) + Count(locked - multiset{h}, q)
    decreases |locked|
  {
    var g :| g in locked && Count(locked, q) == (if IsPrefix(q, g) then 1 else 0) + Count(locked - multiset{g}, q);
    if g != h {
      CountExtract(locked - multiset{g}, q, h);
      CountExtract(locked - multiset{h}, q, g);
      assert locked - multiset{g} - multiset{h} == locked - multiset{h} - multiset{g};
    }
  }

  lemma CountAdd(locked: multiset<Path>, q: Path, h: Path)
    ensures Count(locked + multiset{h}, q) == (if IsPrefix(q, h) then 1 else 0) + Count(locked, q)
  {
    CountExtract(locked + multiset{h}, q, h);
    assert locked + multiset{h} - multiset{h} == locked;
  }

  lemma {:induction false} CountSame(locked: multiset<Path>, q: Path, r: Path)
    requires forall h :: h in locked ==> (IsPrefix(q, h) <==> IsPrefix(r, h))
    ensures Count(locked, q) == Count(locked, r)
    decreases |locked|
  {
    if h :| h in locked {
      CountExtract(locked, q, h);
      CountExtract(locked, r, h);
      CountSame(locked - multiset{h}, q, r);
    }
  }

  /** A longer path is on no more locked handles. */
  lemma {:induction false} CountMonotone(locked: multiset<Path>, q: Path, r: Path)
    requires IsPrefix(q, r)
    ensures Count(locked, r) <= Count(locked, q)
    decreases |locked|
  {
    if h :| h in locked {
      CountExtract(locked, q, h);
      CountExtract(locked, r, h);
      CountMonotone(locked - multiset{h}, q, r);
    }
  }

  lemma {:induction false} CountZero(locked: multiset<Path>, q: Path)
    ensures Count(locked, q) == 0 <==> forall h :: h in locked ==> !IsPrefix(q, h)
    decreases |locked|
  {
    if h :| h in locked {
      CountExtract(locked, q, h);
      CountZero(locked - multiset{h}, q);
    }
  }

  // ----- the reference counts of a tree

  ghost predicate RefOk(t: Tree, locked: multiset<Path>, n: Id)
    requires n in t.nodes && n in t.path
  {
    n != ROOT ==> t.nodes[n].refs == Count(locked, t.path[n])
  }

  ghost predicate Holds(t: Tree, n: Id, h: Path) {
    n in t.nodes && n in t.path && t.path[n] == h
  }

  /** Every locked path ends at a node and each count is the number of locked
      handles through its node. */
  ghost predicate RefInv(t: Tree, locked: multiset<Path>) {
    && WF(t)
    && t.nodes[ROOT].refs == 1
    && (forall h :: h in locked ==> exists n :: Holds(t, n, h))
    && (forall n {:trigger RefOk(t, locked, n)} :: n in t.nodes ==> RefOk(t, locked, n))
  }

  lemma ParentDominates(t: Tree, locked: multiset<Path>, n: Id)
    requires RefInv(t, locked) && n in t.nodes && n != ROOT && t.nodes[n].parent != ROOT
    ensures t.nodes[n].parent in t.nodes && t.nodes[t.nodes[n].parent].refs >= t.nodes[n].refs >= 0
  {
    ParentPath(t, n);
    assert RefOk(t, locked, n) && RefOk(t, locked, t.nodes[n].parent);
    CountMonotone(locked, t.path[t.nodes[n].parent], t.path[n]);
  }

  /** The lower half of a split node is on the path of the same handles as the whole. */
  lemma SplitCounts(t: Tree, n: Id, pos: nat, u: Id, locked: multiset<Path>)
    requires CanSplit(t, n, pos, u) && RefInv(t, locked) && u in Split(t, n, pos, u).path
    ensures Count(locked, Split(t, n, pos, u).path[u]) == Count(locked, t.path[n])
  {
    assert NodeOk(t, n);
    var p := Split(t, n, pos, u).path[u];
    forall h | h in locked ensures IsPrefix(p, h) <==> IsPrefix(t.path[n], h) {
      var k :| Holds(t, k, h);
      if IsPrefix(p, h) {
        ThroughNode(t, n, k, p);
      }
    }
    CountSame(locked, p, t.path[n]);
  }

  lemma SplitKeepsRefs(t: Tree, n: Id, pos: nat, u: Id, locked: multiset<Path>)
    requires CanSplit(t, n, pos, u) && RefInv(t, locked)
    ensures RefInv(Split(t, n, pos, u), locked)
  {
    SplitWF(t, n, pos, u);
    SplitNodes(t, n, pos, u);
    assert NodeOk(t, n);
    var s := Split(t, n, pos, u);
    forall h | h in locked ensures exists m :: Holds(s, m, h) {
      var m :| Holds(t, m, h);
      assert Holds(s, m, h);
    }
    forall m | m in s.nodes ensures RefOk(s, locked, m) {
      if m == u {
        assert RefOk(t, locked, n);
        SplitCounts(t, n, pos, u, locked);
      } else {
        assert RefOk(t, locked, m);
        if m == t.nodes[n].parent { }
      }
    }
  }

  lemma AttachKeepsRefs(t: Tree, u: Id, x: Node, locked: multiset<Path>)
    requires CanAttach(t, u, x) && RefInv(t, locked) && x.refs == 0
    ensures RefInv(Attach(t, u, x), locked)
  {
    AttachWF(t, u, x);
    var s := Attach(t, u, x);
    assert NodeOk(t, ROOT);
    forall h | h in locked ensures (exists m :: Holds(s, m, h)) && !IsPrefix(s.path[u], h) {
      var m :| Holds(t, m, h);
      assert Holds(s, m, h);
      if IsPrefix(s.path[u], h) {
        assert NodeOk(s, u);
        ThroughNode(s, u, m, s.path[u]);
        var o := PrefixStored(t, m, s.path[u]);
        AttachCell(t, u, x, o, s.path[u]);
        CoverUnique(s, u, o, s.path[u]);
      }
    }
    CountZero(locked, s.path[u]);
    forall m | m in s.nodes ensures RefOk(s, locked, m) {
      if m != u { assert RefOk(t, locked, m); }
    }
  }

  lemma DetachKeepsRefs(t: Tree, n: Id, locked: multiset<Path>)
    requires CanDetach(t, n) && RefInv(t, locked) && t.nodes[n].refs == 0
    ensures RefInv(Detach(t, n), locked)
  {
    DetachWF(t, n);
    ParentPath(t, n);
    var s := Detach(t, n);
    assert RefOk(t, locked, n);
    CountZero(locked, t.path[n]);
    forall h | h in locked ensures exists m :: Holds(s, m, h) {
      var m :| Holds(t, m, h);
      assert Holds(s, m, h);
    }
    forall m | m in s.nodes ensures RefOk(s, locked, m) {
      assert RefOk(t, locked, m);
    }
  }

  /** No cell of an unlocked leaf lies on a locked handle's path. */
  lemma DetachedCellUnlocked(t: Tree, n: Id, locked: multiset<Path>, h: Path, q: Path)
    requires CanDetach(t, n) && RefInv(t, locked) && t.nodes[n].refs == 0
    requires h in locked && Covers(t, n, q)
    ensures !IsPrefix(q, h)
  {
    if IsPrefix(q, h) {
      var m :| Holds(t, m, h);
      ThroughNode(t, n, m, q);
      assert RefOk(t, locked, n);
      CountZero(locked, t.path[n]);
    }
  }

  // ----- locking and unlocking one handle

  ghost predicate OnPath(t: Tree, h: Path, n: Id) {
    n != ROOT && n in t.path && IsPrefix(t.path[n], h)
  }

  /** The tree after adding `d` to every count on the way to `h`, from node depth
      `from` on. */
  ghost function Bump(t: Tree, h: Path, from: int, d: int): Tree {
    t.(nodes := map n | n in t.nodes ::
      if OnPath(t, h, n) && |t.path[n]| > from then t.nodes[n].(refs := t.nodes[n].refs + d) else t.nodes[n])
  }

  lemma BumpShape(t: Tree, h: Path, from: int, d: int)
    requires WF(t)
    ensures SameShape(t, Bump(t, h, from, d))
    ensures WF(Bump(t, h, from, d)) && FlatOf(Bump(t, h, from, d)) == FlatOf(t)
  {
    var s := Bump(t, h, from, d);
    forall n | n in t.nodes ensures LanesOk(s.nodes[n]) { assert NodeOk(t, n); }
    RefsKeepFlat(t, s);
  }

  lemma LockKeepsRefs(t: Tree, h: Path, locked: multiset<Path>)
    requires RefInv(t, locked) && exists n :: Holds(t, n, h)
    ensures RefInv(Bump(t, h, 0, 1), locked + multiset{h})
  {
    var s := Bump(t, h, 0, 1);
    BumpShape(t, h, 0, 1);
    forall g | g in locked + multiset{h} ensures exists m :: Holds(s, m, g) {
      var m :| Holds(t, m, g);
      assert Holds(s, m, g);
    }
    forall m | m in s.nodes ensures RefOk(s, locked + multiset{h}, m) {
      assert RefOk(t, locked, m) && NodeOk(t, m);
      CountAdd(locked, t.path[m], h);
    }
  }

  lemma UnlockKeepsRefs(t: Tree, h: Path, locked: multiset<Path>)
    requires RefInv(t, locked) && h in locked
    ensures RefInv(Bump(t, h, 0, -1), locked - multiset{h})
  {
    var s := Bump(t, h, 0, -1);
    BumpShape(t, h, 0, -1);
    forall g | g in locked - multiset{h} ensures exists m :: Holds(s, m, g) {
      var m :| Holds(t, m, g);
      assert Holds(s, m, g);
    }
    forall m | m in s.nodes ensures RefOk(s, locked - multiset{h}, m) {
      assert RefOk(t, locked, m) && NodeOk(t, m);
      CountExtract(locked, t.path[m], h);
    }
  }

  // ----- size accounting

  /** Pages of a node that count as evictable (`unlocked`) or protected. */
  function Weight(x: Node, unlocked: bool): nat {
    if (x.refs == 0) == unlocked then |x.key| else 0
  }

  ghost function Weights(nodes: map<Id, Node>, unlocked: bool): map<Id, nat> {
    map n | n in nodes :: Weight(nodes[n], unlocked)
  }

  ghost function SizeOf(nodes: map<Id, Node>, unlocked: bool): nat {
    Total(Weights(nodes, unlocked))
  }

  lemma SizeUpdate(nodes: map<Id, Node>, n: Id, x: Node, unlocked: bool)
    requires n in nodes
    ensures SizeOf(nodes[n := x], unlocked) + Weight(nodes[n], unlocked)
      == SizeOf(nodes, unlocked) + Weight(x, unlocked)
  {
    TotalUpdate(Weights(nodes, unlocked), n, Weight(x, unlocked));
    assert Weights(nodes[n := x], unlocked) == Weights(nodes, unlocked)[n := Weight(x, unlocked)];
  }

  lemma SizeAdd(nodes: map<Id, Node>, n: Id, x: Node, unlocked: bool)
    requires n !in nodes
    ensures SizeOf(nodes[n := x], unlocked) == SizeOf(nodes, unlocked) + Weight(x, unlocked)
  {
    TotalAdd(Weights(nodes, unlocked), n, Weight(x, unlocked));
    assert Weights(nodes[n := x], unlocked) == Weights(nodes, unlocked)[n := Weight(x, unlocked)];
  }

  lemma SplitKeepsSize(t: Tree, n: Id, pos: nat, u: Id, unlocked: bool)
    requires CanSplit(t, n, pos, u)
    ensures SizeOf(Split(t, n, pos, u).nodes, unlocked) == SizeOf(t.nodes, unlocked)
  {
    SplitNodes(t, n, pos, u);
    var x := t.nodes[n];
    var p := t.nodes[x.parent];
    var n1 := t.nodes[x.parent := p.(children := p.children[x.key[0] := u])];
    SizeUpdate(t.nodes, x.parent, n1[x.parent], unlocked);
    SizeAdd(n1, u, Upper(x, n, pos), unlocked);
    SizeUpdate(n1[u := Upper(x, n, pos)], n, Lower(x, u, pos), unlocked);
  }

  lemma AttachAddsSize(t: Tree, u: Id, x: Node, unlocked: bool)
    requires CanAttach(t, u, x)
    ensures SizeOf(Attach(t, u, x).nodes, unlocked) == SizeOf(t.nodes, unlocked) + Weight(x, unlocked)
  {
    var p := t.nodes[x.parent];
    var n1 := t.nodes[x.parent := p.(children := p.children[x.key[0] := u])];
    SizeUpdate(t.nodes, x.parent, n1[x.parent], unlocked);
    SizeAdd(n1, u, x, unlocked);
  }

  lemma DetachDropsSize(t: Tree, n: Id, unlocked: bool)
    requires CanDetach(t, n)
    ensures SizeOf(t.nodes, unlocked) == SizeOf(Detach(t, n).nodes, unlocked) + Weight(t.nodes[n], unlocked)
  {
    DetachAttach(t, n);
    AttachAddsSize(Detach(t, n), n, t.nodes[n], unlocked);
  }

  lemma SameShapeSize(t: Tree, s: Tree, unlocked: bool)
    requires SameShape(t, s) && forall n :: n in t.nodes ==> s.nodes[n].refs == t.nodes[n].refs
    ensures SizeOf(s.nodes, unlocked) == SizeOf(t.nodes, unlocked)
  {
    assert Weights(s.nodes, unlocked) == Weights(t.nodes, unlocked);
  }

  /** While anything is evictable there is an unlocked leaf: unlocked nodes have
      only unlocked descendants, and going down must end. */
  lemma {:induction false} UnlockedLeafBelow(t: Tree, locked: multiset<Path>, n: Id, bound: nat) returns (leaf: Id)
    requires RefInv(t, locked) && n in t.nodes && n != ROOT && t.nodes[n].refs == 0
    requires forall m :: m in t.nodes ==> |t.path[m]| <= bound
    ensures leaf in t.nodes && leaf != ROOT && t.nodes[leaf].refs == 0 && t.nodes[leaf].children == map[]
    decreases bound - |t.path[n]|
  {
    if t.nodes[n].children == map[] {
      leaf := n;
    } else {
      var b :| b in t.nodes[n].children;
      assert ChildOk(t, n, b);
      var c := t.nodes[n].children[b];
      ParentPath(t, c);
      ParentDominates(t, locked, c);
      leaf := UnlockedLeafBelow(t, locked, c, bound);
    }
  }

  lemma {:induction false} DepthBound(path: map<Id, Path>) returns (bound: nat)
    ensures forall m :: m in path ==> |path[m]| <= bound
    decreases |path|
  {
    if m :| m in path {
      var below := DepthBound(path - {m});
      bound := if below < |path[m]| then |path[m]| else below;
      forall k | k in path ensures |path[k]| <= bound {
        assert k != m ==> k in path - {m};
      }
    } else {
      bound := 0;
    }
  }

  lemma EvictableHasLeaf(t: Tree, locked: multiset<Path>) returns (leaf: Id)
    requires RefInv(t, locked) && SizeOf(t.nodes, true) > 0
    ensures leaf in t.nodes && leaf != ROOT && t.nodes[leaf].refs == 0 && t.nodes[leaf].children == map[]
  {
    var n := TotalPositive(Weights(t.nodes, true));
    assert NodeOk(t, n);
    var bound := DepthBound(t.path);
    leaf := UnlockedLeafBelow(t, locked, n, bound);
  }
}
