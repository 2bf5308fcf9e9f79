/** The radix prefix cache: the in-place operations on the tree of `RadixTree`,
    each proved against the flat map the tree stands for. */
module RadixCache {
  import opened Bags
  import opened RadixTree
  import opened RadixLocks
  import opened PrefixMap
  import opened RadixRoom
  import opened RadixSteps

  class RadixPrefixCache {
    var nodes: map<Id, Node>
    var counter: Id
    var evictableSize: int
    var protectedSize: int
    ghost var path: map<Id, Path>
    ghost var locked: multiset<Path>

    ghost function View(): Tree
      reads this
    {
      Tree(nodes, path)
    }

    /** Sizes and reference counts are exact: `check_integrity` cannot fail. */
    ghost predicate Valid()
      reads this
    {
      CacheInv(View(), locked, counter, evictableSize, protectedSize)
    }

    ghost function Flat(): RadixTree.Flat
      reads this
      requires Valid()
    {
      FlatOf(View())
    }

    ghost predicate IsHandle(h: Handle)
      reads this
    {
      h.node in nodes && h.node in path && |path[h.node]| == h.cachedLen
    }

    constructor ()
      ensures Valid() && Flat() == map[] && locked == multiset{}
    {
      var root := Node(ROOT, map[], [], map[Full := [], Swa := [], C4 := [], C128 := [], Indexer := []], 1);
      nodes := map[ROOT := root];
      counter := 1;
      evictableSize := 0;
      protectedSize := 0;
      path := map[ROOT := []];
      locked := multiset{};
      new;
      EmptyTree(root);
    }

    method SplitAt(n: Id, pos: nat) returns (u: Id)
      requires Valid() && n in nodes && n != ROOT && 0 < pos < |nodes[n].key|
      modifies this`nodes, this`counter, this`path
      ensures Valid() && u == old(counter) && u !in old(nodes)
      ensures CanSplit(old(View()), n, pos, u) && View() == Split(old(View()), n, pos, u)
      ensures Flat() == old(Flat())
    {
      ghost var t := View();
      u := counter;
      counter := counter + 1;
      SplitByUpdates(t, n, pos, u);
      var x := nodes[n];
      // the two halves as in the program: the new node takes the head of the key
      var ns := nodes[u := Node(x.parent, map[], x.key[..pos], SliceLanes(x.lanes, 0, pos), 0)];
      ns := ns[x.parent := ns[x.parent].(children := ns[x.parent].children[x.key[0] := u])];
      ns := ns[u := ns[u].(refs := x.refs)];
      ns := ns[n := x.(key := x.key[pos..], lanes := SliceLanes(x.lanes, pos, |x.key|))];
      ns := ns[u := ns[u].(children := map[x.key[pos] := n])];
      nodes := ns[n := ns[n].(parent := u)];
      path := path[u := path[x.parent] + x.key[..pos]];
      SplitValid(t, n, pos, locked, u, evictableSize, protectedSize);
      assert View() == Split(t, n, pos, u);
    }

    /** Follows `ids` down the tree.  `node` is the last node reached; `prefixLen`
        blocks match, the last `matchLen` of them inside `node`. */
    method Descend(ids: Path) returns (node: Id, prefixLen: nat, matchLen: nat)
      requires Valid()
      ensures prefixLen <= |ids| && node in nodes && LongestMatch(Flat(), ids, prefixLen)
      ensures matchLen <= |nodes[node].key| && (node != ROOT ==> matchLen > 0)
      ensures prefixLen <= |path[node]| && path[node][..prefixLen] == ids[..prefixLen]
      ensures prefixLen == |path[node]| - |nodes[node].key| + matchLen
    {
      hide FlatOf, LongestMatch, CommonPrefix, NodeOk;
      ghost var t := View();
      node, prefixLen, matchLen := ROOT, 0, 0;
      RootPath(t);
      while prefixLen < |ids|
        invariant prefixLen <= |ids| && node in nodes && path[node] == ids[..prefixLen]
        invariant matchLen == |nodes[node].key| && (node != ROOT ==> matchLen > 0)
        decreases |ids| - prefixLen
      {
        if ids[prefixLen] !in nodes[node].children {
          StopsAt(t, ids, node, prefixLen);
          return;
        }
        var child := nodes[node].children[ids[prefixLen]];
        ChildNode(t, node, ids[prefixLen]);
        matchLen := CommonPrefix(nodes[child].key, ids[prefixLen..]);
        DescendStep(t, ids, node, child, prefixLen, matchLen);
        node := child;
        prefixLen := prefixLen + matchLen;
        if matchLen != |nodes[node].key| {
          return;
        }
      }
      StopsAt(t, ids, node, prefixLen);
    }

    /** Walks down along `ids`; splits the last node if it matches only in part.
        The result is a node for the longest stored prefix, and the stored map is
        unchanged. */
    method TreeWalk(ids: Path) returns (node: Id, prefixLen: nat)
      requires Valid()
      modifies this`nodes, this`counter, this`path
      ensures Valid() && Flat() == old(Flat())
      ensures prefixLen <= |ids| && node in nodes && path[node] == ids[..prefixLen]
      ensures LongestMatch(Flat(), ids, prefixLen)
      ensures forall m :: m in old(path) ==> m in path && path[m] == old(path)[m]
    {
      var matchLen;
      node, prefixLen, matchLen := Descend(ids);
      assert NodeOk(View(), node);
      if matchLen != |nodes[node].key| {
        SplitNodes(View(), node, matchLen, counter);
        node := SplitAt(node, matchLen);
      }
    }

    ghost predicate Sized()
      reads this
    {
      evictableSize == SizeOf(nodes, true) && protectedSize == SizeOf(nodes, false)
    }

    /** Adds one lock to a node; a count that leaves 0 makes it protected. */
    method LockNode(n: Id)
      requires n in nodes && Sized() && nodes[n].refs >= 0
      modifies this`nodes, this`evictableSize, this`protectedSize
      ensures Sized() && nodes == old(nodes)[n := old(nodes)[n].(refs := old(nodes)[n].refs + 1)]
    {
      var x := nodes[n];
      var y := x.(refs := x.refs + 1);
      SizeUpdate(nodes, n, y, true);
      SizeUpdate(nodes, n, y, false);
      if x.refs == 0 {
        evictableSize := evictableSize - |x.key|;
        protectedSize := protectedSize + |x.key|;
      }
      nodes := nodes[n := y];
    }

    /** Takes one lock off a node; a count that reaches 0 makes it evictable. */
    method UnlockNode(n: Id)
      requires n in nodes && Sized() && nodes[n].refs > 0
      modifies this`nodes, this`evictableSize, this`protectedSize
      ensures Sized() && nodes == old(nodes)[n := old(nodes)[n].(refs := old(nodes)[n].refs + -1)]
    {
      var x := nodes[n];
      var y := x.(refs := x.refs - 1);
      SizeUpdate(nodes, n, y, true);
      SizeUpdate(nodes, n, y, false);
      nodes := nodes[n := y];
      if y.refs == 0 {
        evictableSize := evictableSize + |x.key|;
        protectedSize := protectedSize - |x.key|;
      }
    }

    method LockUpward(start: Id)
      requires Valid() && start in nodes
      modifies this`nodes, this`evictableSize, this`protectedSize
      ensures Walked(old(View()), path[start], 0, 1, nodes) && Sized()
    {
      ghost var t, p, held := View(), path[start], locked;
      var node := start;
      WalkStart(t, node, 1);
      while node != ROOT
        invariant OnWalk(t, p, 1, node, nodes) && Sized()
        decreases |t.path[node]|
      {
        LockStep(t, p, node, 1, held, nodes);
        ghost var next := nodes[node := nodes[node].(refs := nodes[node].refs + 1)];
        assert OnWalk(t, p, 1, nodes[node].parent, next);
        var parent := nodes[node].parent;
        LockNode(node);
        assert nodes == next;
        node := parent;
      }
      RootPath(t);
    }

    method UnlockUpward(start: Id)
      requires Valid() && start in nodes && path[start] in locked
      modifies this`nodes, this`evictableSize, this`protectedSize
      ensures Walked(old(View()), path[start], 0, -1, nodes) && Sized()
    {
      ghost var t, p, held := View(), path[start], locked;
      var node := start;
      WalkStart(t, node, -1);
      while node != ROOT
        invariant OnWalk(t, p, -1, node, nodes) && Sized()
        decreases |t.path[node]|
      {
        LockStep(t, p, node, -1, held, nodes);
        ghost var next := nodes[node := nodes[node].(refs := nodes[node].refs + -1)];
        assert OnWalk(t, p, -1, nodes[node].parent, next);
        var parent := nodes[node].parent;
        UnlockNode(node);
        assert nodes == next;
        node := parent;
      }
      RootPath(t);
    }

    /** Locks or unlocks a handle. */
    method LockHandle(h: Handle, unlock: bool)
      requires Valid() && IsHandle(h)
      requires unlock ==> path[h.node] in locked
      modifies this`nodes, this`evictableSize, this`protectedSize, this`locked
      ensures Valid() && nodes.Keys == old(nodes.Keys) && Flat() == old(Flat())
      ensures locked == if unlock then old(locked) - multiset{path[h.node]} else old(locked) + multiset{path[h.node]}
      ensures View() == Bump(old(View()), path[h.node], 0, if unlock then -1 else 1)
    {
      hide Walked, Bump, FlatOf, RefInv, SizeOf;
      ghost var t := View();
      if unlock {
        UnlockUpward(h.node);
        LockValid(t, h.node, locked, -1, nodes);
        locked := locked - multiset{path[h.node]};
      } else {
        LockUpward(h.node);
        LockValid(t, h.node, locked, 1, nodes);
        locked := locked + multiset{path[h.node]};
      }
    }

    /** The pages of one lane along a handle's path, root first. */
    method GetMatchedPages(h: Handle, lane: Lane) returns (pages: seq<int>)
      requires Valid() && IsHandle(h)
      ensures pages == PagesAlong(Flat(), path[h.node], lane)
    {
      ghost var t, p := View(), path[h.node];
      var node := h.node;
      pages := [];
      while node != ROOT
        invariant node in nodes && IsPrefix(path[node], p)
        invariant pages == PagesAlong(FlatOf(t), p, lane)[|path[node]|..]
        decreases |path[node]|
      {
        ParentPath(t, node);
        PagesOfNode(t, node, p, lane);
        ghost var all := PagesAlong(FlatOf(t), p, lane);
        assert all[Start(t, node)..] == all[Start(t, node)..|path[node]|] + all[|path[node]|..];
        pages := nodes[node].lanes[lane] + pages;
        node := nodes[node].parent;
      }
      assert NodeOk(t, ROOT);
    }

    predicate HasLiveTail(n: Id)
      reads this
      requires n in nodes && Swa in nodes[n].lanes
    {
      |nodes[n].lanes[Swa]| > 0 && nodes[n].lanes[Swa][|nodes[n].lanes[Swa]| - 1] >= 0
    }

    /** Moves a match up to the deepest node boundary that still has a live
        sliding-window page; the root when there is none.  The program also asks
        every node above for its recovery pages, which `LanesOk` guarantees. */
    method SafeMatchBoundary(n: Id, len: nat) returns (node: Id, prefixLen: nat)
      requires Valid() && n in nodes && |path[n]| == len
      ensures node in nodes && |path[node]| == prefixLen && IsPrefix(path[node], path[n])
      ensures node != ROOT ==> Entry(Flat(), path[node], Swa) >= 0
      ensures NoLiveTailBetween(View(), path[n], prefixLen)
    {
      node, prefixLen := n, len;
      while node != ROOT
        invariant node in nodes && |path[node]| == prefixLen && IsPrefix(path[node], path[n])
        invariant NoLiveTailBetween(View(), path[n], prefixLen)
        decreases prefixLen
      {
        NodeTail(View(), node, Swa);
        if HasLiveTail(node) {
          return;
        }
        NextBoundary(View(), path[n], node);
        prefixLen := prefixLen - |nodes[node].key|;
        node := nodes[node].parent;
      }
      assert NodeOk(View(), ROOT);
      prefixLen := 0;
    }

    /** Prefix match with the window-ownership filter: the handle's path is a
        prefix of the longest stored prefix of `ids`. */
    method MatchPrefix(ids: Path) returns (h: Handle, ghost longest: nat)
      requires Valid()
      modifies this`nodes, this`counter, this`path
      ensures Valid() && Flat() == old(Flat())
      ensures forall m :: m in old(path) ==> m in path && path[m] == old(path)[m]
      ensures IsHandle(h) && LongestMatch(Flat(), ids, longest)
      ensures h.cachedLen <= longest && path[h.node] == ids[..h.cachedLen]
      ensures h.cachedLen > 0 ==> Entry(Flat(), ids[..h.cachedLen], Swa) >= 0
      ensures NoLiveTailBetween(View(), ids[..longest], h.cachedLen)
    {
      hide RefOk, ChildOk, FlatOf, SizeOf, LongestMatch, NoLiveTailBetween;
      var node, prefixLen := TreeWalk(ids);
      longest := prefixLen;
      node, prefixLen := SafeMatchBoundary(node, prefixLen);
      assert NodeOk(View(), node);
      h := Handle(prefixLen, node);
      assert ids[..longest][..prefixLen] == ids[..prefixLen];
    }

    /** Links a new leaf below its parent. */
    method AddLeaf(x: Node) returns (u: Id)
      requires Valid() && x.parent in nodes && x.refs == 0 && x.children == map[]
      requires LanesOk(x) && |x.key| > 0 && x.key[0] !in nodes[x.parent].children
      modifies this`nodes, this`counter, this`path, this`evictableSize
      ensures Valid()
      ensures u in nodes && path[u] == old(path)[x.parent] + x.key
      ensures forall m :: m in old(path) ==> m in path && path[m] == old(path)[m]
      ensures Flat() == old(Flat()) + Segment(old(path)[x.parent], x)
      ensures SegmentKeys(old(path)[x.parent], x.key) !! old(Flat()).Keys
    {
      hide RefOk, FlatOf, SizeOf, Segment;
      u := counter;
      counter := counter + 1;
      ghost var t := View();
      InsertValid(t, x, locked, u, evictableSize, protectedSize);
      var p := nodes[x.parent];
      nodes := nodes[x.parent := p.(children := p.children[x.key[0] := u])][u := x];
      path := path[u := path[x.parent] + x.key];
      evictableSize := evictableSize + |x.key|;
      assert View() == Attach(t, u, x);
    }

    /** Inserts `ids` with their pages.  Stored cells keep their pages; only the
        suffix that was not stored is added, with the lanes the builder makes for
        it. */
    method InsertPrefix(ids: Path, pages: seq<int>, builder: Builder) returns (cachedLen: nat, h: Handle)
      requires Valid() && |ids| <= |pages| && BuilderOk(ids, pages, builder)
      modifies this`nodes, this`counter, this`path, this`evictableSize
      ensures Valid()
      ensures LongestMatch(old(Flat()), ids, cachedLen)
      ensures Flat() == old(Flat()) + NewCells(ids, pages, builder, cachedLen)
      ensures NewCells(ids, pages, builder, cachedLen).Keys !! old(Flat()).Keys
      ensures IsHandle(h) && h.cachedLen == |ids| && path[h.node] == ids
      ensures forall m :: m in old(path) ==> m in path && path[m] == old(path)[m]
    {
      var node;
      node, cachedLen := TreeWalk(ids);
      if cachedLen != |ids| {
        NewNodeFits(View(), ids, pages, builder, cachedLen, node);
        assert ids[..cachedLen] + ids[cachedLen..] == ids;
        node := AddLeaf(Node(node, map[], ids[cachedLen..], NewLanes(ids, pages, builder, cachedLen), 0));
      } else {
        NoNewCells(ids, pages, builder);
        assert ids[..cachedLen] == ids;
      }
      h := Handle(|ids|, node);
    }

    /** Collects the unlocked leaves, visiting every node once from the root. */
    method CollectLeaves() returns (leaves: set<Id>)
      requires Valid()
      ensures leaves == UnlockedLeaves(nodes)
    {
      var pending: set<Id> := {ROOT};
      leaves := {};
      ghost var done: set<Id> := {};
      assert NodeOk(View(), ROOT);
      while pending != {}
        invariant Visiting(View(), done, pending)
        invariant leaves == LeavesIn(nodes, done)
        decreases nodes.Keys - done
      {
        var n :| n in pending;
        VisitStep(View(), done, pending, n);
        pending := pending - {n};
        if nodes[n].children == map[] {
          if nodes[n].refs == 0 {
            leaves := leaves + {n};
          }
        } else {
          pending := pending + nodes[n].children.Values;
        }
        done := done + {n};
      }
      VisitedAll(View(), done);
    }

    /** Counted in blocks, what no lock runs through is the evictable size. */
    lemma EvictableBlocks()
      requires Valid()
      ensures evictableSize == SpareOf(Flat(), locked, false)
    {
      SpareIsFlat(View(), locked, false);
      SpareBlocks(nodes);
    }

    /** Pages that eviction of everything that is not locked would give back, counted in a walk
        over the tree from the root: live full pages, or all blocks. */
    method EvictablePages(live: bool) returns (n: nat)
      requires Valid()
      ensures n == SpareOf(Flat(), locked, live)
    {
      hide RefOk, ChildOk, SizeOf, FlatOf, SpareOf;
      SpareIsFlat(View(), locked, live);
      var pending: set<Id> := {ROOT};
      n := 0;
      ghost var done: set<Id> := {};
      assert NodeOk(View(), ROOT);
      SpareNone(nodes, live);
      while pending != {}
        invariant Visiting(View(), done, pending)
        invariant n == SpareIn(nodes, done, live)
        decreases nodes.Keys - done
      {
        var m :| m in pending;
        VisitStep(View(), done, pending, m);
        SpareStep(nodes, done, m, live);
        n := n + Spare(nodes[m], live);
        pending := pending - {m} + nodes[m].children.Values;
        done := done + {m};
      }
      VisitedAll(View(), done);
    }

    /** The books of the tree: the root stays locked, no count is negative, and both sizes add
        up. */
    ghost predicate BooksOk()
      reads this
    {
      && ROOT in nodes && nodes[ROOT].refs > 0 && (forall n :: n in nodes ==> nodes[n].refs >= 0)
      && evictableSize == SizeOf(nodes, true) && protectedSize == SizeOf(nodes, false)
    }

    /** The integrity walk over a well-formed tree: every node is visited once, and the check
        passes exactly when the books are in order. */
    method CheckIntegrity() returns (ok: bool)
      requires WF(View())
      ensures ok <==> BooksOk()
    {
      hide NodeOk, ChildOk, SizeOf, Covers;
      var pending: set<Id>, visited: set<Id> := {ROOT}, {};
      var evictable, protected := 0, 0;
      SizeNone(nodes);
      while pending != {}
        invariant Visiting(View(), visited, pending) && (pending == {ROOT} || ROOT in visited)
        invariant ROOT in visited ==> nodes[ROOT].refs > 0
        invariant forall n :: n in visited ==> nodes[n].refs >= 0
        invariant evictable == SizeOf(Restrict(nodes, visited), true)
        invariant protected == SizeOf(Restrict(nodes, visited), false)
        decreases nodes.Keys - visited
      {
        var n :| n in pending;
        var x := nodes[n];
        if (if n == ROOT then x.refs <= 0 else x.refs < 0) || !LengthsMatch(x) {
          NodeChecked(View(), n);
          return false;
        }
        SizeStep(nodes, visited, n);
        VisitStep(View(), visited, pending, n);
        evictable := evictable + Weight(x, true);
        protected := protected + Weight(x, false);
        pending := pending - {n} + x.children.Values;
        visited := visited + {n};
      }
      VisitedAll(View(), visited);
      WholeSize(nodes);
      ok := evictable == evictableSize && protected == protectedSize;
    }

    /** Removes one unlocked leaf. */
    method RemoveLeaf(n: Id)
      requires Valid() && IsUnlockedLeaf(nodes, n)
      modifies this`nodes, this`path, this`evictableSize
      ensures Valid() && old(CanDetach(View(), n)) && View() == Detach(old(View()), n)
      ensures evictableSize == old(evictableSize) - |old(nodes)[n].key|
      ensures Evicted(old(Flat()), Flat(), [old(nodes)[n]], locked)
      ensures old(nodes)[n].parent in nodes && LanesOk(old(nodes)[n]) && |old(nodes)[n].key| > 0
      ensures forall m :: m in nodes ==> m in old(path) && path[m] == old(path)[m]
      ensures LockedNodesKept(old(path), nodes.Keys, locked)
    {
      ghost var t := View();
      RemoveValid(t, n, locked);
      UnlockedNode(t, n, locked);
      var x := nodes[n];
      evictableSize := evictableSize - |x.key|;
      var p := nodes[x.parent];
      nodes := (nodes - {n})[x.parent := p.(children := p.children - {x.key[0]})];
      path := path - {n};
      assert View() == Detach(t, n);
    }

    /** Takes any leaf off the heap; its parent joins the heap when it has become an
        unlocked leaf itself. */
    method PopLeaf(leaves: set<Id>) returns (x: Node, rest: set<Id>)
      requires Valid() && leaves == UnlockedLeaves(nodes) && evictableSize > 0
      modifies this`nodes, this`path, this`evictableSize
      ensures Valid() && rest == UnlockedLeaves(nodes)
      ensures LanesOk(x) && |x.key| > 0 && evictableSize == old(evictableSize) - |x.key|
      ensures Evicted(old(Flat()), Flat(), [x], locked)
      ensures forall n :: n in nodes ==> n in old(path) && path[n] == old(path)[n]
      ensures LockedNodesKept(old(path), nodes.Keys, locked)
    {
      ghost var leaf := EvictableHasLeaf(View(), locked);
      assert leaf in leaves;
      var n :| n in leaves;
      x := nodes[n];
      LeavesAfter(View(), n);
      RemoveLeaf(n);
      rest := leaves - {n};
      if nodes[x.parent].children == map[] && nodes[x.parent].refs == 0 {
        rest := rest + {x.parent};
      }
    }

    /** Evicts unlocked leaves, in any order, until at least `size` blocks are gone.
        It raises exactly when more is asked for than is evictable, and otherwise
        never runs out of leaves. */
    method Evict(size: nat) returns (raised: bool, evicted: seq<Node>)
      requires Valid()
      modifies this`nodes, this`path, this`evictableSize
      ensures Valid()
      ensures raised <==> size > old(evictableSize)
      ensures raised ==> nodes == old(nodes) && path == old(path) && evicted == []
      ensures !raised ==> |LaneOf(evicted, Full)| >= size && (size == 0 ==> evicted == [])
      ensures JustEnough(evicted, size)
      ensures evictableSize == old(evictableSize) - |LaneOf(evicted, Full)|
      ensures Evicted(old(Flat()), Flat(), evicted, locked)
      ensures forall n :: n in nodes ==> n in old(path) && path[n] == old(path)[n]
      ensures LockedNodesKept(old(path), nodes.Keys, locked)
      ensures forall n :: n in evicted ==> LanesOk(n)
    {
      evicted := [];
      raised := false;
      EvictedNothing(Flat(), locked);
      if size == 0 {
        return;
      }
      if size > evictableSize {
        raised := true;
        return;
      }
      evicted := EvictLoop(size);
    }

    method EvictLoop(size: nat) returns (evicted: seq<Node>)
      requires Valid() && size <= evictableSize
      modifies this`nodes, this`path, this`evictableSize
      ensures Valid() && |LaneOf(evicted, Full)| >= size
      ensures JustEnough(evicted, size)
      ensures evictableSize == old(evictableSize) - |LaneOf(evicted, Full)|
      ensures Evicted(old(Flat()), Flat(), evicted, locked)
      ensures forall n :: n in nodes ==> n in old(path) && path[n] == old(path)[n]
      ensures LockedNodesKept(old(path), nodes.Keys, locked)
      ensures forall n :: n in evicted ==> LanesOk(n)
    {
      hide JustEnough;
      evicted := [];
      NoneTooMany(size);
      ghost var f0, m := Flat(), locked;
      EvictedNothing(f0, m);
      var leaves := CollectLeaves();
      var evictedSize := 0;
      while evictedSize < size
        invariant Valid() && leaves == UnlockedLeaves(nodes)
        invariant evictedSize == |LaneOf(evicted, Full)| && evictableSize == old(evictableSize) - evictedSize
        invariant JustEnough(evicted, size)
        invariant Evicted(f0, Flat(), evicted, m)
        invariant forall n :: n in nodes ==> n in old(path) && path[n] == old(path)[n]
        invariant LockedNodesKept(old(path), nodes.Keys, locked)
        invariant forall n :: n in evicted ==> LanesOk(n)
        decreases size - evictedSize
      {
        ghost var f := Flat();
        var x;
        x, leaves := PopLeaf(leaves);
        EvictedMore(f0, f, Flat(), evicted, x, m);
        OneMore(evicted, x, size);
        evicted := evicted + [x];
        evictedSize := evictedSize + |x.key|;
      }
    }

    /** The nodes from just below the root down to `n`. */
    method PathFromRoot(n: Id) returns (list: seq<Id>)
      requires Valid() && n in nodes
      ensures PathNodes(View(), list, 0, path[n])
    {
      ghost var t := View();
      list := [];
      var node := n;
      while node != ROOT
        invariant node in nodes && IsPrefix(path[node], path[n])
        invariant PathNodes(t, list, |path[node]|, path[n])
        decreases |path[node]|
      {
        ParentPath(t, node);
        assert ([node] + list)[1..] == list;
        list := [node] + list;
        node := nodes[node].parent;
      }
      RootPath(t);
    }

    /** Marks all pages of one lane of a node as released and returns the lane. */
    method TombstoneNode(n: Id, lane: Lane) returns (pages: seq<int>)
      requires Valid() && n in nodes
      modifies this`nodes
      ensures Valid() && View() == Tombstone(old(View()), n, lane)
      ensures lane in old(nodes)[n].lanes && pages == old(nodes)[n].lanes[lane]
    {
      ghost var t := View();
      TombstoneValid(t, n, lane, locked, counter, evictableSize, protectedSize);
      var x := nodes[n];
      pages := x.lanes[lane];
      nodes := nodes[n := x.(lanes := x.lanes[lane := AllReleased(|x.key|)])];
      assert nodes == Tombstone(t, n, lane).nodes;
    }

    /** Releases one lane of the first `len` blocks of a node, splitting it when
        they are not all of it. */
    method ReleaseNode(n: Id, len: nat, lane: Lane) returns (target: Id, pages: seq<int>)
      requires Valid() && n in nodes && n != ROOT && 0 < len <= |nodes[n].key|
      modifies this`nodes, this`counter, this`path
      ensures Valid()
      ensures ReleasedNode(old(View()), View(), n, len, lane, pages)
      ensures forall m :: m in old(path) ==> m in path && path[m] == old(path)[m]
    {
      hide RefOk, ChildOk, FlatOf, ReleasedNode, ReleaseSpan, SizeOf;
      ghost var t := View();
      target := n;
      assert NodeOk(t, n);
      WholeNode(t, n);
      if len < |nodes[n].key| {
        UpperNode(t, n, len, counter);
        target := SplitAt(n, len);
      }
      ghost var s := View();
      pages := TombstoneNode(target, lane);
      ReleasedParts(t, s, n, target, len, lane);
    }

    /** Handles the next node on the way to `p`; see `Releasing`. */
    method ReleaseNext(rest: seq<Id>, offset: nat, len: nat, lane: Lane, released: seq<int>, ghost f: RadixTree.Flat,
                       ghost p: Path)
      returns (all: seq<int>, below: seq<Id>, next: nat, ghost done: nat)
      requires Valid() && rest != [] && rest[0] in nodes && rest[0] != ROOT && 0 < len <= |nodes[rest[0]].key|
      requires Releasing(View(), f, p, lane, rest, offset, offset, released)
      modifies this`nodes, this`counter, this`path
      ensures Valid()
      ensures Releasing(View(), f, p, lane, below, next, done, all)
      ensures |below| < |rest| && next == offset + |old(nodes)[rest[0]].key| && done == offset + len
      ensures forall m :: m in old(path) ==> m in path && path[m] == old(path)[m]
    {
      ghost var t := View();
      below, next := rest[1..], offset + |nodes[rest[0]].key|;
      var _, pages := ReleaseNode(rest[0], len, lane);
      all := released + NonNegative(pages);
      done := offset + len;
      ReleaseStep(t, View(), f, p, lane, rest, offset, released, len, pages, next, done, all);
    }

    /** Releases one lane of all but the last `tail` blocks of a handle's path.  The
        program does this in two loops, for full pages and for window pages. */
    method ReleaseHead(h: Handle, tail: nat, lane: Lane) returns (released: seq<int>)
      requires Valid() && IsHandle(h)
      modifies this`nodes, this`counter, this`path
      ensures Valid()
      ensures Flat() == ReleaseAlong(old(Flat()), old(path[h.node]), HeadLen(h, tail), lane)
      ensures released == NonNegative(PagesAlong(old(Flat()), old(path[h.node]), lane)[..HeadLen(h, tail)])
      ensures forall m :: m in old(path) ==> m in path && path[m] == old(path)[m]
    {
      ghost var f, p := Flat(), path[h.node];
      var until := HeadLen(h, tail);
      released := [];
      var rest := PathFromRoot(h.node);
      var offset := 0;
      ReleaseStart(View(), rest, p, lane);
      ghost var done := 0;
      while rest != [] && offset < until
        invariant Valid()
        invariant 0 <= offset && done == Min(offset, until)
        invariant Releasing(View(), f, p, lane, rest, offset, done, released)
        invariant forall m :: m in old(path) ==> m in path && path[m] == old(path)[m]
        decreases |rest|
      {
        NodeSize(View(), rest[0]);
        var size := |nodes[rest[0]].key|;
        var len := Min(size, until - offset);
        released, rest, offset, done := ReleaseNext(rest, offset, len, lane, released, f, p);
      }
    }

    /** Releases the window pages of unlocked leaves until `pages` are free or no
        leaf is left.  A leaf stays in the tree, so its parent never becomes one. */
    method ReleaseEvictableSwaPages(pages: nat) returns (released: seq<int>)
      requires Valid()
      modifies this`nodes
      ensures Valid()
      ensures SwaReleased(old(Flat()), Flat(), released)
      ensures released == [] ==> Flat() == old(Flat()) && nodes == old(nodes)
      ensures OnlyWindows(old(nodes), nodes) && (|released| >= pages || WindowsGone(nodes, {}))
    {
      hide SwaReleased, CacheInv, OnlyWindows, WindowsGone, SameButWindow, LiveSwa, FlatOf;
      released := [];
      ghost var f, before := Flat(), nodes;
      SwaReleasedNothing(f);
      NothingReleased(nodes);
      if pages == 0 {
        return;
      }
      var leaves := CollectLeaves();
      while |released| < pages && leaves != {}
        invariant Valid() && leaves <= UnlockedLeaves(before) && nodes.Keys == before.Keys
        invariant forall m :: m in leaves ==> nodes[m] == before[m]
        invariant SwaReleased(f, Flat(), released)
        invariant released == [] ==> Flat() == f && nodes == before
        invariant OnlyWindows(before, nodes) && WindowsGone(nodes, leaves)
        decreases leaves
      {
        var n :| n in leaves;
        ghost var mid := nodes;
        if LiveSwa(nodes[n]) {
          released := ReleaseLeafSwa(n, released, f);
        }
        OneWindowGone(before, mid, nodes, leaves, n);
        leaves := leaves - {n};
      }
    }

    method ReleaseLeafSwa(n: Id, released: seq<int>, ghost f: RadixTree.Flat) returns (all: seq<int>)
      requires Valid() && n in nodes && n != ROOT && LiveSwa(nodes[n])
      requires SwaReleased(f, Flat(), released)
      modifies this`nodes
      ensures Valid() && n in nodes && nodes == old(nodes)[n := nodes[n]] && SameButWindow(old(nodes)[n], nodes[n])
      ensures SwaReleased(f, Flat(), all) && all != []
    {
      ghost var g := Flat();
      TombstoneReleases(View(), n);
      NonNegativeSome(nodes[n].lanes[Swa]);
      var live := TombstoneNode(n, Swa);
      all := released + NonNegative(live);
      SwaReleasedMore(f, g, Flat(), released, NonNegative(live), all);
    }
  }
}
