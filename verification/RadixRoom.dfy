/** What eviction could give back, read off the stored map and the locked paths alone: it
    does not depend on how the tree is cut into nodes. */
module RadixRoom {
  import opened Bags
  import opened RadixTree
  import opened RadixLocks
  import opened PrefixMap
  import opened RadixSteps

  /** The stored cells that no locked path runs through. */
  ghost function Unlocked(f: Flat, locked: multiset<Path>): Flat {
    map q | q in f && Count(locked, q) == 0 :: f[q]
  }

  /** Live full pages of some cells, or all the cells. */
  ghost function Worth(f: Flat, live: bool): nat {
    if live then |Live(LaneBag(f, Full))| else |f|
  }

  ghost function SpareOf(f: Flat, locked: multiset<Path>, live: bool): nat {
    Worth(Unlocked(f, locked), live)
  }

  // ----- the walk over the tree counts the same

  lemma OwnerIs(t: Tree, n: Id, q: Path)
    requires WF(t) && Covers(t, n, q)
    ensures q in Cells(t) && Owner(t, q) == n
  {
    CellsCovered(t, q);
    CoverUnique(t, n, Owner(t, q), q);
  }

  /** The cells of the unlocked nodes in a set. */
  ghost function UnlockedIn(t: Tree, s: set<Id>): Flat
    requires WF(t)
  {
    map q | q in Cells(t) && Owner(t, q) in s && t.nodes[Owner(t, q)].refs == 0 :: FlatOf(t)[q]
  }

  lemma LockedNode(t: Tree, s: set<Id>, n: Id)
    requires WF(t) && n in t.nodes && (n == ROOT || t.nodes[n].refs != 0)
    ensures UnlockedIn(t, s + {n}) == UnlockedIn(t, s)
  {
    forall q | q in Cells(t) && t.nodes[Owner(t, q)].refs == 0 ensures Owner(t, q) in s + {n} <==> Owner(t, q) in s {
      FlatDomain(t, q);
    }
  }

  lemma LanesInOrder(t: Tree, n: Id)
    requires WF(t) && n in t.nodes
    ensures LanesOk(t.nodes[n])
  {
    assert NodeOk(t, n);
  }

  lemma SegmentDomainIs(base: Path, x: Node)
    requires LanesOk(x)
    ensures Segment(base, x).Keys == SegmentKeys(base, x.key)
  {
  }

  lemma FreeNode(t: Tree, s: set<Id>, n: Id)
    requires WF(t) && n in t.nodes && n != ROOT && t.nodes[n].refs == 0 && n !in s
    ensures t.nodes[n].parent in t.path && LanesOk(t.nodes[n])
    ensures var seg := Segment(t.path[t.nodes[n].parent], t.nodes[n]);
            UnlockedIn(t, s).Keys !! seg.Keys && UnlockedIn(t, s + {n}) == UnlockedIn(t, s) + seg
  {
    hide NodeOk, ChildOk, Segment;
    ParentPath(t, n);
    LanesInOrder(t, n);
    var seg := Segment(t.path[t.nodes[n].parent], t.nodes[n]);
    SegmentDomainIs(t.path[t.nodes[n].parent], t.nodes[n]);
    forall q ensures q in seg <==> q in Cells(t) && Owner(t, q) == n {
      NodeKeys(t, n, q);
      if q in seg {
        OwnerIs(t, n, q);
      }
    }
    forall q | q in seg ensures FlatOf(t)[q] == seg[q] {
      NodeCell(t, n, q);
    }
    MergeDisjoint(UnlockedIn(t, s), seg, UnlockedIn(t, s + {n}));
  }

  lemma {:induction false} EnumeratedSize(ks: seq<Path>, g: Flat)
    requires Enumerates(ks, g)
    ensures |g| == |ks|
    decreases |ks|
  {
    if ks == [] {
      assert g == map[];
    } else {
      var n := |ks| - 1;
      EntriesDropLast(g, ks, Full);
      EnumeratedSize(ks[..n], g - {ks[n]});
    }
  }

  lemma SegmentPages(base: Path, x: Node, live: bool)
    requires LanesOk(x) && x.refs == 0
    ensures Worth(Segment(base, x), live) == Spare(x, live)
  {
    SegmentEnumerated(base, x);
    EnumeratedSize(SegmentPaths(base, x.key), Segment(base, x));
    SegmentBag(base, x, Full);
    NonNegativeBag(x.lanes[Full]);
  }

  lemma MergedPages(f: Flat, g: Flat, live: bool)
    requires f.Keys !! g.Keys
    ensures Worth(f + g, live) == Worth(f, live) + Worth(g, live)
  {
    LaneBagMerge(f, g, Full);
    LiveAdd(LaneBag(f, Full), LaneBag(g, Full));
    assert (f + g).Keys == f.Keys + g.Keys;
  }

  lemma {:induction false} SpareOfNodes(t: Tree, s: set<Id>, live: bool)
    requires WF(t) && t.nodes[ROOT].refs != 0 && s <= t.nodes.Keys
    ensures SpareIn(t.nodes, s, live) == Worth(UnlockedIn(t, s), live)
    decreases s
  {
    hide FlatOf, NodeOk, ChildOk, Spare, Worth;
    if n :| n in s {
      var rest := s - {n};
      SpareOfNodes(t, rest, live);
      SpareStep(t.nodes, rest, n, live);
      assert rest + {n} == s;
      if n == ROOT || t.nodes[n].refs != 0 {
        LockedNode(t, rest, n);
        SpareLocked(t.nodes[n], live);
      } else {
        FreeNode(t, rest, n);
        SegmentPages(t.path[t.nodes[n].parent], t.nodes[n], live);
        MergedPages(UnlockedIn(t, rest), Segment(t.path[t.nodes[n].parent], t.nodes[n]), live);
      }
    } else {
      SpareNone(t.nodes, live);
      assert UnlockedIn(t, {}) == map[] && s == {};
      NoPages(live);
    }
  }

  lemma SpareLocked(x: Node, live: bool)
    ensures x.refs != 0 ==> Spare(x, live) == 0
  {
  }

  lemma NoPages(live: bool)
    ensures Worth(map[], live) == 0
  {
    EmptyBag(map[], Full);
  }

  /** No locked path runs through a cell exactly if none runs through its node. */
  lemma CellUnlocked(t: Tree, locked: multiset<Path>, q: Path)
    requires RefInv(t, locked) && q in Cells(t)
    ensures Owner(t, q) in t.nodes && (t.nodes[Owner(t, q)].refs == 0 <==> Count(locked, q) == 0)
  {
    hide NodeOk, ChildOk;
    var n := Owner(t, q);
    assert RefOk(t, locked, n);
    CountZero(locked, q);
    CountZero(locked, t.path[n]);
    forall h | h in locked ensures IsPrefix(q, h) <==> IsPrefix(t.path[n], h) {
      var m :| Holds(t, m, h);
      if IsPrefix(q, h) {
        ThroughNode(t, n, m, q);
      }
    }
  }

  /** The walk over the tree counts what the stored map and the locked paths say. */
  lemma SpareIsFlat(t: Tree, locked: multiset<Path>, live: bool)
    requires RefInv(t, locked)
    ensures SpareSize(t.nodes, live) == SpareOf(FlatOf(t), locked, live)
  {
    hide NodeOk, ChildOk, RefOk, Worth, CellOf;
    SpareOfNodes(t, t.nodes.Keys, live);
    var a, b := UnlockedIn(t, t.nodes.Keys), Unlocked(FlatOf(t), locked);
    forall q | q in Cells(t) ensures q in a <==> q in b {
      CellUnlocked(t, locked, q);
    }
    SameMap(a, b);
  }

  // ----- more locks leave less

  lemma PartPages(f: Flat, g: Flat, live: bool)
    requires forall q :: q in g ==> q in f && f[q] == g[q]
    ensures Worth(f, live) == Worth(g, live) + Worth(f - g.Keys, live)
  {
    SubmapRestored(f, g);
    MergedPages(f - g.Keys, g, live);
  }

  lemma SpareShrinks(f: Flat, a: multiset<Path>, b: multiset<Path>, live: bool)
    requires a <= b
    ensures SpareOf(f, b, live) <= SpareOf(f, a, live)
  {
    hide Worth;
    forall q | q in f && Count(b, q) == 0 ensures Count(a, q) == 0 {
      CountZero(a, q);
      CountZero(b, q);
    }
    PartPages(Unlocked(f, a), Unlocked(f, b), live);
  }

  /** A lock costs at most its own blocks. */
  lemma SpareUnderLock(f: Flat, locked: multiset<Path>, p: Path, live: bool)
    requires [] !in f
    ensures SpareOf(f, locked, live) <= SpareOf(f, locked + multiset{p}, live) + |p|
  {
    hide Worth, Unlocked;
    var a, b := Unlocked(f, locked), Unlocked(f, locked + multiset{p});
    LockTakes(f, locked, p);
    PartPages(a, b, live);
    PagesAtMost(a - b.Keys, live);
    PrefixesAtMost(a - b.Keys, p);
  }

  lemma LockTakes(f: Flat, locked: multiset<Path>, p: Path)
    requires [] !in f
    ensures var a, b := Unlocked(f, locked), Unlocked(f, locked + multiset{p});
            && (forall q :: q in b ==> q in a && a[q] == b[q])
            && (forall q :: q in a - b.Keys ==> IsPrefix(q, p) && q != [])
  {
    forall q | q in f ensures Count(locked + multiset{p}, q) == (if IsPrefix(q, p) then 1 else 0) + Count(locked, q) {
      CountAdd(locked, q, p);
    }
  }

  lemma PagesAtMost(f: Flat, live: bool)
    ensures Worth(f, live) <= |f|
  {
    LiveAtMost(f, Full);
  }

  lemma LiveAtMost(f: Flat, lane: Lane)
    ensures |Live(LaneBag(f, lane))| <= |f|
  {
    BagSize(LaneBags(f, lane));
    assert LaneBags(f, lane).Keys == f.Keys;
    assert LaneBag(f, lane) == Live(LaneBag(f, lane)) + (LaneBag(f, lane) - Live(LaneBag(f, lane)));
  }

  lemma {:induction false} BagSize(m: map<Path, multiset<int>>)
    requires forall q :: q in m ==> |m[q]| == 1
    ensures |Union(m)| == |m|
    decreases |m|
  {
    if q :| q in m {
      UnionExtract(m, q);
      BagSize(m - {q});
    } else {
      assert m == map[];
    }
  }

  lemma {:induction false} PrefixesAtMost(f: Flat, p: Path)
    requires forall q :: q in f ==> IsPrefix(q, p) && q != []
    ensures |f| <= |p|
    decreases |p|
  {
    if p == [] {
      assert f == map[];
    } else {
      var r := p[..|p| - 1];
      forall q | q in f - {p} ensures IsPrefix(q, r) {
        assert |q| == |p| ==> q == p;
      }
      PrefixesAtMost(f - {p}, r);
      assert |f| <= |f - {p}| + 1 by {
        assert f.Keys <= (f - {p}).Keys + {p};
        SubsetSize(f.Keys, (f - {p}).Keys + {p});
      }
    }
  }

  lemma {:induction false} SubsetSize<T>(a: set<T>, b: set<T>)
    requires a <= b
    ensures |a| <= |b|
    decreases a
  {
    if x :| x in a {
      SubsetSize(a - {x}, b - {x});
    }
  }
}
