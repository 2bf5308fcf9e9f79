/** Page ownership of the whole pool: what each call of the cache manager does to the
    owners of full, window and component pages, and why none of them can raise a
    double-free or missing-mapping error. */
module PoolOwnership {
  import opened Options
  import opened Bags
  import opened RadixTree
  import opened PrefixMap
  import opened RadixSteps
  import opened PagePool
  import opened PoolSpec
  import opened Ownership

  /** Pages between two owners. */
  datatype Hands = Hands(full: multiset<int>, swa: multiset<int>, c4: multiset<int>, c128: multiset<int>,
                         indexer: multiset<int>)

  const NOTHING := Hands(multiset{}, multiset{}, multiset{}, multiset{}, multiset{})

  /** Full pages in hand, with the pages they are mapped to. */
  ghost function WithLanes(s: Pool, b: seq<int>): Hands {
    Hands(multiset(b), MappedBag(s.swa.lane.toPage, b), MappedBag(s.c4.toPage, b), MappedBag(s.c128.toPage, b),
      MappedBag(s.indexer.toPage, b))
  }

  ghost predicate RefsOk(full: seq<int>, pages: int, idle: multiset<int>) {
    && 0 <= pages <= |full|
    && (forall p :: 0 <= p < pages ==> full[p] == if p in idle then 0 else 1)
    && (forall p :: pages <= p < |full| ==> full[p] == 0)
  }

  predicate AllMapped(toPage: seq<int>, b: seq<int>) {
    forall p :: p in b ==> 0 <= p < |toPage| && toPage[p] >= 0
  }

  ghost predicate TailsMapped(toPage: seq<int>, tails: Tails) {
    forall u {:trigger tails[u]} :: u in tails ==> AllMapped(toPage, tails[u])
  }

  ghost predicate ComponentInv(lane: Lane, s: PoolLane, pages: int, idle: multiset<int>, f: Flat, tails: Tails,
                               held: multiset<int>) {
    LaneInv(lane, s, |s.refs|, pages, idle, f, tails, held) && TailsMapped(s.toPage, tails) && pages <= |s.refs|
  }

  ghost predicate Owned(s: Pool, pages: int, idle: multiset<int>, f: Flat, tails: Tails, h: Hands) {
    && PoolOk(s) && RefsOk(s.full, pages, idle)
    && FullInv(pages, idle, f, tails, h.full)
    && LaneInv(Swa, s.swa.lane, Dummy(s.swa), pages, idle, f, tails, h.swa)
    && ComponentInv(C4, s.c4, pages, idle, f, tails, h.c4)
    && ComponentInv(C128, s.c128, pages, idle, f, tails, h.c128)
    && ComponentInv(Indexer, s.indexer, pages, idle, f, tails, h.indexer)
  }

  // ----- tails

  lemma NoneHeld(b: multiset<int>)
    ensures multiset{} + b == b && b + multiset{} == b
  {
  }

  lemma CutMapped(toPage: seq<int>, tails: Tails, u: int, a: seq<int>, b: seq<int>, c: seq<int>)
    requires u in tails && Cut(tails[u], a, b, c) && TailsMapped(toPage, tails)
    ensures TailsMapped(toPage, tails[u := a + c]) && AllMapped(toPage, b)
  {
    assert AllMapped(toPage, tails[u]);
    forall p | p in b || p in a + c ensures p in tails[u] {
      assert p in a || p in b || p in c;
    }
    var more := tails[u := a + c];
    forall v | v in more ensures AllMapped(toPage, more[v]) {
      if v != u { assert AllMapped(toPage, tails[v]); }
    }
  }

  lemma TakeComponent(lane: Lane, s: PoolLane, pages: int, idle: multiset<int>, f: Flat, tails: Tails,
                      u: int, a: seq<int>, b: seq<int>, c: seq<int>)
    requires u in tails && Cut(tails[u], a, b, c) && ComponentInv(lane, s, pages, idle, f, tails, multiset{})
    ensures ComponentInv(lane, s, pages, idle, f, tails[u := a + c], MappedBag(s.toPage, b)) && AllMapped(s.toPage, b)
  {
    TakeTail(lane, s, |s.refs|, pages, idle, f, tails, multiset{}, u, a, b, c);
    NoneHeld(MappedBag(s.toPage, b));
    CutMapped(s.toPage, tails, u, a, b, c);
  }

  /** A request gives up the middle of its tail. */
  lemma TakeFromTail(s: Pool, pages: int, idle: multiset<int>, f: Flat, tails: Tails, u: int, a: seq<int>, b: seq<int>,
                     c: seq<int>)
    requires u in tails && Cut(tails[u], a, b, c) && Owned(s, pages, idle, f, tails, NOTHING)
    ensures Owned(s, pages, idle, f, tails[u := a + c], WithLanes(s, b))
    ensures AllMapped(s.c4.toPage, b) && AllMapped(s.c128.toPage, b) && AllMapped(s.indexer.toPage, b)
  {
    TakeTail(Swa, s.swa.lane, Dummy(s.swa), pages, idle, f, tails, multiset{}, u, a, b, c);
    NoneHeld(MappedBag(s.swa.lane.toPage, b));
    TakeComponent(C4, s.c4, pages, idle, f, tails, u, a, b, c);
    TakeComponent(C128, s.c128, pages, idle, f, tails, u, a, b, c);
    TakeComponent(Indexer, s.indexer, pages, idle, f, tails, u, a, b, c);
    TakeFull(pages, idle, f, tails, u, a, b, c);
  }

  lemma TakeFull(pages: int, idle: multiset<int>, f: Flat, tails: Tails, u: int, a: seq<int>, b: seq<int>, c: seq<int>)
    requires u in tails && Cut(tails[u], a, b, c) && FullInv(pages, idle, f, tails, multiset{})
    ensures FullInv(pages, idle, f, tails[u := a + c], multiset(b))
  {
    TailTakesFull(tails, u, a, b, c);
  }

  lemma GiveComponent(lane: Lane, s: PoolLane, pages: int, idle: multiset<int>, f: Flat, tails: Tails,
                      held: multiset<int>, u: int, a: seq<int>, b: seq<int>, c: seq<int>)
    requires u in tails && tails[u] == a + c && AllMapped(s.toPage, b)
    requires ComponentInv(lane, s, pages, idle, f, tails, held + MappedBag(s.toPage, b))
    ensures ComponentInv(lane, s, pages, idle, f, tails[u := a + b + c], held)
  {
    GiveTail(lane, s, |s.refs|, pages, idle, f, tails, held, u, a, b, c);
  }

  lemma GiveFull(pages: int, idle: multiset<int>, f: Flat, tails: Tails, held: multiset<int>,
                 u: int, a: seq<int>, b: seq<int>, c: seq<int>)
    requires u in tails && tails[u] == a + c && FullInv(pages, idle, f, tails, held + multiset(b))
    ensures FullInv(pages, idle, f, tails[u := a + b + c], held)
  {
    hide LaneBag, TailBags, Pages;
    TailTakesFull(tails[u := a + b + c], u, a, b, c);
    assert tails[u := a + b + c][u := a + c] == tails;
    IntoTree(idle, Live(LaneBag(f, Full)) + Union(TailBags(tails)), multiset{}, held, multiset(b));
  }

  lemma SplitHands(toPage: seq<int>, b: seq<int>, rest: seq<int>)
    ensures MappedBag(toPage, b + rest) == MappedBag(toPage, rest) + MappedBag(toPage, b)
  {
    MappedConcat(toPage, b, rest);
  }

  /** A request takes the first pages in hand at the place `a | c` of its tail. */
  lemma GiveToTail(s: Pool, pages: int, idle: multiset<int>, f: Flat, tails: Tails, u: int, a: seq<int>, b: seq<int>,
                   c: seq<int>, rest: seq<int>)
    requires u in tails && tails[u] == a + c && Owned(s, pages, idle, f, tails, WithLanes(s, b + rest))
    requires AllMapped(s.c4.toPage, b) && AllMapped(s.c128.toPage, b) && AllMapped(s.indexer.toPage, b)
    ensures Owned(s, pages, idle, f, tails[u := a + b + c], WithLanes(s, rest))
  {
    assert multiset(b + rest) == multiset(rest) + multiset(b);
    GiveFull(pages, idle, f, tails, multiset(rest), u, a, b, c);
    SplitHands(s.swa.lane.toPage, b, rest);
    GiveTail(Swa, s.swa.lane, Dummy(s.swa), pages, idle, f, tails, MappedBag(s.swa.lane.toPage, rest), u, a, b, c);
    SplitHands(s.c4.toPage, b, rest);
    GiveComponent(C4, s.c4, pages, idle, f, tails, MappedBag(s.c4.toPage, rest), u, a, b, c);
    SplitHands(s.c128.toPage, b, rest);
    GiveComponent(C128, s.c128, pages, idle, f, tails, MappedBag(s.c128.toPage, rest), u, a, b, c);
    SplitHands(s.indexer.toPage, b, rest);
    GiveComponent(Indexer, s.indexer, pages, idle, f, tails, MappedBag(s.indexer.toPage, rest), u, a, b, c);
  }

  // ----- freeing full pages

  lemma TranslateIsMapped(toPage: seq<int>, b: seq<int>)
    requires InRange(b, |toPage|)
    ensures Translate(toPage, b) == Mapped(toPage, b)
  {
  }

  lemma MappedEntries(toPage: seq<int>, b: seq<int>)
    requires forall p :: 0 <= p < |toPage| ==> toPage[p] >= -1
    ensures forall i :: 0 <= i < |b| ==> Mapped(toPage, b)[i] >= -1
  {
  }

  lemma KeptMapped(before: seq<int>, after: seq<int>, tails: Tails)
    requires TailsKept(before, after, tails) && TailsMapped(before, tails)
    ensures TailsMapped(after, tails)
  {
    forall u | u in tails ensures AllMapped(after, tails[u]) {
      assert AllMapped(before, tails[u]);
    }
  }

  /** Full pages in hand become idle; what they are mapped to, still in `held`, stays
      with whoever owns it. */
  lemma ForgetComponentHeld(lane: Lane, s: PoolLane, pages: int, idle: multiset<int>, f: Flat, tails: Tails,
                            held: multiset<int>, b: seq<int>)
    requires ComponentInv(lane, s, pages, idle, f, tails, held) && FullInv(pages, idle, f, tails, multiset(b))
    ensures InRange(b, |s.toPage|) && ComponentInv(lane, Forget(s, b), pages, idle + multiset(b), f, tails, held)
  {
    ForgetHeld(lane, s, |s.refs|, pages, idle, f, tails, held, multiset(b), b);
    KeptMapped(s.toPage, Forget(s, b).toPage, tails);
  }

  /** The component pages of full pages in hand are released, then forgotten. */
  lemma FreeComponentHeld(lane: Lane, s: PoolLane, pages: int, idle: multiset<int>, f: Flat, tails: Tails, b: seq<int>)
    requires ComponentInv(lane, s, pages, idle, f, tails, MappedBag(s.toPage, b))
    requires FullInv(pages, idle, f, tails, multiset(b))
    ensures InRange(b, |s.toPage|) && ReleaseComponent(s, Translate(s.toPage, b)).Some?
    ensures ComponentInv(lane, Freed(s, b), pages, idle + multiset(b), f, tails, multiset{})
  {
    ForgetHeld(lane, s, |s.refs|, pages, idle, f, tails, MappedBag(s.toPage, b), multiset(b), b);
    TranslateIsMapped(s.toPage, b);
    MappedEntries(s.toPage, b);
    NoneHeld(MappedBag(s.toPage, b));
    GiveBackComponent(lane, s, |s.refs|, pages, idle, f, tails, MappedBag(s.toPage, b), multiset{},
      Translate(s.toPage, b));
    ForgetComponentHeld(lane, ReleaseComponent(s, Translate(s.toPage, b)).value, pages, idle, f, tails, multiset{}, b);
  }

  lemma FreeSwaHeld(s: SwaState, pages: int, idle: multiset<int>, f: Flat, tails: Tails, b: seq<int>, tombstone: bool)
    requires SwaOk(s) && b != [] && FullInv(pages, idle, f, tails, multiset(b))
    requires LaneInv(Swa, s.lane, Dummy(s), pages, idle, f, tails, MappedBag(s.lane.toPage, b))
    ensures ReleaseSwaForFull(s, b, true, tombstone).Some?
    ensures var r := ReleaseSwaForFull(s, b, true, tombstone).value;
            && SwaOk(r) && Dummy(r) == Dummy(s)
            && LaneInv(Swa, r.lane, Dummy(r), pages, idle + multiset(b), f, tails, multiset{})
            && TailsKept(s.lane.toPage, r.lane.toPage, tails)
            && (forall p :: p in b ==> 0 <= p < |r.lane.toPage| && r.lane.toPage[p] == -1)
  {
    hide LaneBag, Live, Union, MappedBags, TailBags, Pages;
    var held, hs := MappedBag(s.lane.toPage, b), Mapped(s.lane.toPage, b);
    ForgetHeld(Swa, s.lane, Dummy(s), pages, idle, f, tails, held, multiset(b), b);
    TranslateIsMapped(s.lane.toPage, b);
    MappedEntries(s.lane.toPage, b);
    NoneHeld(held);
    GiveBackSwa(s, pages, idle, f, tails, held, multiset{}, hs, [], tombstone);
    var r := ReleaseSwa(s, hs, tombstone).value;
    ForgetHeld(Swa, r.lane, Dummy(s), pages, idle, f, tails, multiset{}, multiset(b), b);
    ForgetSwaKeeps(r, b);
  }

  lemma RefsDropped(full: seq<int>, pages: int, idle: multiset<int>, f: Flat, tails: Tails, b: seq<int>)
    requires RefsOk(full, pages, idle) && FullInv(pages, idle, f, tails, multiset(b))
    ensures AllHeld(full, b) && RefsOk(AddAt(full, b, -1), pages, idle + multiset(b))
    ensures FullInv(pages, idle + multiset(b), f, tails, multiset{})
  {
    FullInHand(pages, idle, f, tails, multiset(b));
    forall i | 0 <= i < |b| ensures 0 <= b[i] < pages && b[i] !in idle { assert b[i] in multiset(b); }
    forall p | p in b ensures p < pages { assert p in multiset(b); }
    forall p | 0 <= p < pages ensures AddAt(full, b, -1)[p] == if p in idle + multiset(b) then 0 else 1 {
      assert p in b <==> p in multiset(b);
    }
  }

  /** A component lane after the release of what `b` is mapped to. */
  function Freed(s: PoolLane, b: seq<int>): PoolLane
    requires InRange(b, |s.toPage|) && ReleaseComponent(s, Translate(s.toPage, b)).Some?
  {
    Forget(ReleaseComponent(s, Translate(s.toPage, b)).value, b)
  }

  lemma FreedComponents(s: Pool, b: seq<int>)
    requires PoolOk(s) && InRange(b, |s.full|)
    requires ReleaseComponent(s.c4, Translate(s.c4.toPage, b)).Some?
    requires ReleaseComponent(s.c128, Translate(s.c128.toPage, b)).Some?
    requires ReleaseComponent(s.indexer, Translate(s.indexer.toPage, b)).Some?
    ensures FreeComponents(s, b, true) ==
            Some(s.(c4 := Freed(s.c4, b), c128 := Freed(s.c128, b), indexer := Freed(s.indexer, b)))
  {
  }

  lemma FreedPages(s: Pool, b: seq<int>, w: SwaState, c: Pool)
    requires PoolOk(s) && b != [] && AllHeld(s.full, b) && ReleaseSwaForFull(s.swa, b, true, false) == Some(w)
    requires FreeComponents(s, b, true) == Some(c)
    ensures FreePages(s, b, true, true) == Some(c.(full := AddAt(s.full, b, -1), swa := w))
    ensures PoolOk(c.(full := AddAt(s.full, b, -1), swa := w))
  {
    FreePagesKeeps(s, b, true, true);
  }

  /** Freeing full pages in hand together with everything they are mapped to returns
      normally and makes them idle. */
  lemma FreeHeld(s: Pool, pages: int, idle: multiset<int>, f: Flat, tails: Tails, b: seq<int>)
    requires Owned(s, pages, idle, f, tails, WithLanes(s, b)) && b != []
    ensures FreePages(s, b, true, true).Some?
    ensures var r := FreePages(s, b, true, true).value;
            && Owned(r, pages, idle + multiset(b), f, tails, NOTHING)
            && TailsKept(s.swa.lane.toPage, r.swa.lane.toPage, tails)
  {
    RefsDropped(s.full, pages, idle, f, tails, b);
    FreeSwaHeld(s.swa, pages, idle, f, tails, b, false);
    FreeComponentHeld(C4, s.c4, pages, idle, f, tails, b);
    FreeComponentHeld(C128, s.c128, pages, idle, f, tails, b);
    FreeComponentHeld(Indexer, s.indexer, pages, idle, f, tails, b);
    FreedComponents(s, b);
    FreedPages(s, b, ReleaseSwaForFull(s.swa, b, true, false).value, FreeComponents(s, b, true).value);
  }

  // ----- eviction

  /** What a list of evicted nodes takes out of the tree. */
  ghost function NodeHands(nodes: seq<Node>): Hands {
    Hands(Live(multiset(LaneOf(nodes, Full))), Live(multiset(LaneOf(nodes, Swa))), Live(multiset(LaneOf(nodes, C4))),
      Live(multiset(LaneOf(nodes, C128))), Live(multiset(LaneOf(nodes, Indexer))))
  }

  lemma LessCoupled(lane: Lane, toPage: seq<int>, f: Flat, g: Flat)
    requires Coupled(lane, toPage, f, []) && forall q :: q in g ==> q in f && g[q] == f[q]
    ensures Coupled(lane, toPage, g, [])
  {
    forall q | q in g && 0 <= Entry(g, q, Full) < |toPage| ensures toPage[Entry(g, q, Full)] == Entry(g, q, lane) {
      assert Entry(f, q, Full) == Entry(g, q, Full);
    }
  }

  lemma EvictLane(lane: Lane, s: PoolLane, n: int, pages: int, idle: multiset<int>, f: Flat, g: Flat, tails: Tails,
                  nodes: seq<Node>, locked: multiset<Path>)
    requires LaneInv(lane, s, n, pages, idle, f, tails, multiset{}) && Evicted(f, g, nodes, locked)
    ensures LaneInv(lane, s, n, pages, idle, g, tails, Live(multiset(LaneOf(nodes, lane))))
  {
    LessCoupled(lane, s.toPage, f, g);
    LiveAdd(LaneBag(g, lane), multiset(LaneOf(nodes, lane)));
    LaneLeavesTree(lane, s, n, pages, idle, f, g, tails, multiset{}, Live(multiset(LaneOf(nodes, lane))), []);
    NoneHeld(Live(multiset(LaneOf(nodes, lane))));
  }

  lemma EvictFull(pages: int, idle: multiset<int>, f: Flat, g: Flat, tails: Tails, nodes: seq<Node>,
                  locked: multiset<Path>)
    requires FullInv(pages, idle, f, tails, multiset{}) && Evicted(f, g, nodes, locked)
    ensures FullInv(pages, idle, g, tails, Live(multiset(LaneOf(nodes, Full))))
  {
    LiveAdd(LaneBag(g, Full), multiset(LaneOf(nodes, Full)));
    FullLeavesTree(pages, idle, f, g, tails, multiset{}, Live(multiset(LaneOf(nodes, Full))));
    NoneHeld(Live(multiset(LaneOf(nodes, Full))));
  }

  /** Evicted nodes are in hand with all their pages. */
  lemma TakeEvicted(s: Pool, pages: int, idle: multiset<int>, f: Flat, g: Flat, tails: Tails, nodes: seq<Node>,
                    locked: multiset<Path>)
    requires Owned(s, pages, idle, f, tails, NOTHING) && Evicted(f, g, nodes, locked)
    ensures Owned(s, pages, idle, g, tails, NodeHands(nodes))
  {
    EvictFull(pages, idle, f, g, tails, nodes, locked);
    EvictLane(Swa, s.swa.lane, Dummy(s.swa), pages, idle, f, g, tails, nodes, locked);
    EvictLane(C4, s.c4, |s.c4.refs|, pages, idle, f, g, tails, nodes, locked);
    EvictLane(C128, s.c128, |s.c128.refs|, pages, idle, f, g, tails, nodes, locked);
    EvictLane(Indexer, s.indexer, |s.indexer.refs|, pages, idle, f, g, tails, nodes, locked);
  }

  lemma ReleaseComponentHeld(lane: Lane, s: PoolLane, pages: int, idle: multiset<int>, f: Flat, tails: Tails,
                             held: multiset<int>, rest: multiset<int>, handles: seq<int>)
    requires ComponentInv(lane, s, pages, idle, f, tails, held) && held == rest + Live(multiset(handles))
    requires forall i :: 0 <= i < |handles| ==> handles[i] >= -1
    ensures ReleaseComponent(s, handles).Some?
    ensures ComponentInv(lane, ReleaseComponent(s, handles).value, pages, idle, f, tails, rest)
  {
    GiveBackComponent(lane, s, |s.refs|, pages, idle, f, tails, held, rest, handles);
  }

  lemma ReleasedComponents(s: Pool, a: seq<int>, b: seq<int>, c: seq<int>)
    requires PoolOk(s) && ReleaseComponent(s.c4, a).Some? && ReleaseComponent(s.c128, b).Some?
    requires ReleaseComponent(s.indexer, c).Some?
    ensures ReleaseComponents(s, a, b, c) ==
            Some(s.(c4 := ReleaseComponent(s.c4, a).value, c128 := ReleaseComponent(s.c128, b).value,
                    indexer := ReleaseComponent(s.indexer, c).value))
    ensures PoolOk(ReleaseComponents(s, a, b, c).value)
  {
    ReleaseComponentsKeeps(s, a, b, c);
  }

  /** The callbacks for one evicted node return normally. */
  lemma ReleaseHandles(s: Pool, pages: int, idle: multiset<int>, f: Flat, tails: Tails, h: Hands, k: Hands, x: Node)
    requires Owned(s, pages, idle, f, tails, h) && LanesOk(x) && k.full == h.full
    requires h.swa == k.swa + Live(multiset(x.lanes[Swa])) && h.c4 == k.c4 + Live(multiset(x.lanes[C4]))
    requires h.c128 == k.c128 + Live(multiset(x.lanes[C128]))
    requires h.indexer == k.indexer + Live(multiset(x.lanes[Indexer]))
    ensures ReleaseComponents(s, x.lanes[C4], x.lanes[C128], x.lanes[Indexer]).Some?
    ensures ReleaseSwa(s.swa, x.lanes[Swa], false).Some?
    ensures var c := ReleaseComponents(s, x.lanes[C4], x.lanes[C128], x.lanes[Indexer]).value;
            var w := ReleaseSwa(s.swa, x.lanes[Swa], false).value;
            && Owned(c.(swa := w), pages, idle, f, tails, k) && TailsKept(s.swa.lane.toPage, w.lane.toPage, tails)
  {
    ReleaseComponentHeld(C4, s.c4, pages, idle, f, tails, h.c4, k.c4, x.lanes[C4]);
    ReleaseComponentHeld(C128, s.c128, pages, idle, f, tails, h.c128, k.c128, x.lanes[C128]);
    ReleaseComponentHeld(Indexer, s.indexer, pages, idle, f, tails, h.indexer, k.indexer, x.lanes[Indexer]);
    GiveBackSwa(s.swa, pages, idle, f, tails, h.swa, k.swa, x.lanes[Swa], [], false);
    ReleasedComponents(s, x.lanes[C4], x.lanes[C128], x.lanes[Indexer]);
  }

  lemma ForgottenPages(s: Pool, b: seq<int>)
    requires PoolOk(s) && b != [] && AllHeld(s.full, b) && InRange(b, |s.full|)
    ensures FreePages(s, b, false, false) ==
            Some(s.(full := AddAt(s.full, b, -1), swa := ForgetSwa(s.swa, b),
                    c4 := Forget(s.c4, b), c128 := Forget(s.c128, b), indexer := Forget(s.indexer, b)))
    ensures PoolOk(FreePages(s, b, false, false).value)
  {
    FreePagesKeeps(s, b, false, false);
  }

  /** Full pages in hand become idle; what they are mapped to stays with its owner. */
  lemma ForgetFull(s: Pool, pages: int, idle: multiset<int>, f: Flat, tails: Tails, b: seq<int>)
    requires Owned(s, pages, idle, f, tails, NOTHING.(full := multiset(b))) && b != []
    ensures FreePages(s, b, false, false).Some?
    ensures var r := FreePages(s, b, false, false).value;
            && Owned(r, pages, idle + multiset(b), f, tails, NOTHING)
            && TailsKept(s.swa.lane.toPage, r.swa.lane.toPage, tails)
  {
    RefsDropped(s.full, pages, idle, f, tails, b);
    ForgetHeld(Swa, s.swa.lane, Dummy(s.swa), pages, idle, f, tails, multiset{}, multiset(b), b);
    ForgetSwaKeeps(s.swa, b);
    ForgetComponentHeld(C4, s.c4, pages, idle, f, tails, multiset{}, b);
    ForgetComponentHeld(C128, s.c128, pages, idle, f, tails, multiset{}, b);
    ForgetComponentHeld(Indexer, s.indexer, pages, idle, f, tails, multiset{}, b);
    ForgottenPages(s, b);
  }

  // ----- releases along a handle's path

  lemma ReleasedCoupled(lane: Lane, toPage: seq<int>, f: Flat, p: Path, n: int)
    requires Coupled(lane, toPage, f, []) && lane != Full
    ensures Coupled(lane, toPage, ReleaseAlong(f, p, n, Full), [])
  {
    var g := ReleaseAlong(f, p, n, Full);
    forall q | q in g && 0 <= Entry(g, q, Full) < |toPage| ensures toPage[Entry(g, q, Full)] == Entry(g, q, lane) {
      assert Entry(f, q, Full) == Entry(g, q, Full);
    }
  }

  lemma HeadLane(lane: Lane, s: PoolLane, n: int, pages: int, idle: multiset<int>, f: Flat, tails: Tails, p: Path,
                 k: int)
    requires LaneInv(lane, s, n, pages, idle, f, tails, multiset{}) && lane != Full
    ensures LaneInv(lane, s, n, pages, idle, ReleaseAlong(f, p, k, Full), tails, multiset{})
  {
    ReleaseAlongOther(f, p, k, Full, lane);
    ReleasedCoupled(lane, s.toPage, f, p, k);
  }

  lemma HeadFull(pages: int, idle: multiset<int>, f: Flat, tails: Tails, p: Path, k: nat, released: seq<int>)
    requires FullInv(pages, idle, f, tails, multiset{}) && [] !in f && StoredPath(f, p) && k <= |p|
    requires CellsOk(f) && released == NonNegative(PagesAlong(f, p, Full)[..k])
    ensures FullInv(pages, idle, ReleaseAlong(f, p, k, Full), tails, multiset(released))
  {
    ReleaseAlongBag(f, p, k, Full);
    EntriesAlong(f, p, Full);
    NonNegativeBag(PagesAlong(f, p, Full)[..k]);
    FullLeavesTree(pages, idle, f, ReleaseAlong(f, p, k, Full), tails, multiset{}, multiset(released));
    NoneHeld(multiset(released));
  }

  lemma EntriesAlong(f: Flat, p: Path, lane: Lane)
    requires CellsOk(f)
    ensures forall i :: 0 <= i < |p| ==> PagesAlong(f, p, lane)[i] >= -1
  {
  }

  /** The head of a path gives up its full pages. */
  lemma TakeHead(s: Pool, pages: int, idle: multiset<int>, f: Flat, tails: Tails, p: Path, k: nat, released: seq<int>)
    requires Owned(s, pages, idle, f, tails, NOTHING) && [] !in f && StoredPath(f, p) && k <= |p| && CellsOk(f)
    requires released == NonNegative(PagesAlong(f, p, Full)[..k])
    ensures Owned(s, pages, idle, ReleaseAlong(f, p, k, Full), tails, NOTHING.(full := multiset(released)))
  {
    HeadFull(pages, idle, f, tails, p, k, released);
    HeadLane(Swa, s.swa.lane, Dummy(s.swa), pages, idle, f, tails, p, k);
    HeadLane(C4, s.c4, |s.c4.refs|, pages, idle, f, tails, p, k);
    HeadLane(C128, s.c128, |s.c128.refs|, pages, idle, f, tails, p, k);
    HeadLane(Indexer, s.indexer, |s.indexer.refs|, pages, idle, f, tails, p, k);
  }

  /** Only the window lane of `g` differs from `f`. */
  ghost predicate SwaDropCells(f: Flat, g: Flat) {
    && g.Keys == f.Keys
    && (forall q, l: Lane :: q in f && l != Swa ==> Entry(g, q, l) == Entry(f, q, l))
    && (forall q :: q in f ==> Entry(g, q, Swa) == Entry(f, q, Swa) || Entry(g, q, Swa) == -1)
  }

  ghost predicate SwaDrops(f: Flat, g: Flat, released: seq<int>) {
    && SwaDropCells(f, g) && (forall i :: 0 <= i < |released| ==> released[i] >= 0)
    && (forall l: Lane :: l != Swa ==> LaneBag(g, l) == LaneBag(f, l))
    && Live(LaneBag(g, Swa)) + multiset(released) == Live(LaneBag(f, Swa))
  }

  lemma SwaDropsLane(lane: Lane, s: PoolLane, n: int, pages: int, idle: multiset<int>, f: Flat, g: Flat, tails: Tails,
                     released: seq<int>)
    requires LaneInv(lane, s, n, pages, idle, f, tails, multiset{}) && SwaDrops(f, g, released) && lane != Swa
    ensures LaneInv(lane, s, n, pages, idle, g, tails, multiset{})
  {
    forall q | q in g && 0 <= Entry(g, q, Full) < |s.toPage| ensures s.toPage[Entry(g, q, Full)] == Entry(g, q, lane) {
      assert Entry(f, q, Full) == Entry(g, q, Full);
    }
  }

  /** Window pages the tree has given up can be released. */
  lemma ReleaseDropped(s: Pool, pages: int, idle: multiset<int>, f: Flat, g: Flat, tails: Tails, released: seq<int>,
                       tombstone: bool)
    requires Owned(s, pages, idle, f, tails, NOTHING) && SwaDrops(f, g, released)
    ensures ReleaseSwa(s.swa, released, tombstone).Some?
    ensures var w := ReleaseSwa(s.swa, released, tombstone).value;
            && Owned(s.(swa := w), pages, idle, g, tails, NOTHING) && TailsKept(s.swa.lane.toPage, w.lane.toPage, tails)
  {
    SwaLeavesTree(s.swa, pages, idle, f, g, tails, released, tombstone);
    SwaDropsLane(C4, s.c4, |s.c4.refs|, pages, idle, f, g, tails, released);
    SwaDropsLane(C128, s.c128, |s.c128.refs|, pages, idle, f, g, tails, released);
    SwaDropsLane(Indexer, s.indexer, |s.indexer.refs|, pages, idle, f, g, tails, released);
    assert LaneBag(g, Full) == LaneBag(f, Full);
  }

  // ----- allocation

  lemma RefsTaken(full: seq<int>, pages: int, idle: multiset<int>, now: multiset<int>, f: Flat, tails: Tails,
                  b: seq<int>)
    requires RefsOk(full, pages, idle) && idle == multiset(b) + now && FullInv(pages, now, f, tails, multiset(b))
    ensures RefsOk(AddAt(full, b, 1), pages, now)
  {
    FullInHand(pages, now, f, tails, multiset(b));
    forall p | p in b ensures p < pages { assert p in multiset(b); }
    forall p | 0 <= p < pages ensures AddAt(full, b, 1)[p] == if p in now then 0 else 1 {
      assert p in b <==> p in multiset(b);
    }
  }

  lemma AllocComponent(lane: Lane, s: PoolLane, pages: int, idle: multiset<int>, now: multiset<int>, f: Flat,
                       tails: Tails, b: seq<int>)
    requires ComponentInv(lane, s, pages, idle, f, tails, multiset{}) && idle == multiset(b) + now
    requires FullInv(pages, now, f, tails, multiset(b)) && Distinct(b) && InRange(b, pages) && |b| <= |s.free|
    ensures AllUnmapped(s.toPage, b) && CanAlloc(s, b)
    ensures var r := AllocAll(s, b);
            ComponentInv(lane, r, pages, now, f, tails, MappedBag(r.toPage, b)) && AllMapped(r.toPage, b)
  {
    LaneAllocates(lane, s, |s.refs|, pages, idle, now, f, tails, b);
    var r := AllocAll(s, b);
    KeptMapped(s.toPage, r.toPage, tails);
    FreshMapped(s, r.toPage, |s.refs|, b);
  }

  /** Pages mapped to what was free are mapped. */
  lemma FreshMapped(s: PoolLane, toPage: seq<int>, n: int, b: seq<int>)
    requires CountsOk(s, n) && |b| <= |s.free| && Mapped(toPage, b) == s.free[..|b|]
    ensures AllMapped(toPage, b)
  {
    forall p | p in b ensures 0 <= p < |toPage| && toPage[p] >= 0 {
      var i :| 0 <= i < |b| && b[i] == p;
      assert Mapped(toPage, b)[i] == s.free[i] && s.free[i] in s.free;
    }
  }

  lemma TakenComponents(s: Pool, b: seq<int>)
    requires PoolOk(s) && InRange(b, |s.full|) && b != []
    requires AllUnmapped(s.c4.toPage, b) && |b| <= |s.c4.free|
    requires AllUnmapped(s.c128.toPage, b) && |b| <= |s.c128.free|
    requires AllUnmapped(s.indexer.toPage, b) && |b| <= |s.indexer.free|
    ensures AllocComponents(s, b) ==
            Some(s.(c4 := AllocAll(s.c4, b), indexer := AllocAll(s.indexer, b), c128 := AllocAll(s.c128, b)))
  {
  }

  lemma TakenPages(s: Pool, b: seq<int>, c: Pool)
    requires PoolOk(s) && InRange(b, |s.full|) && b != [] && AllocComponents(s, b) == Some(c)
    requires AllUnmapped(s.swa.lane.toPage, b) && |b| <= |s.swa.lane.free|
    ensures AllocSwa(s.swa, b).Some? && AllocSwa(s.swa, b).value.lane == AllocAll(s.swa.lane, b)
    ensures AllocPages(s, b) == Some(c.(full := AddAt(s.full, b, 1), swa := AllocSwa(s.swa, b).value))
    ensures PoolOk(AllocPages(s, b).value)
  {
    hide AllocComponents, AllocAll, AddAt, CountsOk, MapOk;
    assert b[0] < |s.full|;
    AllocPagesKeeps(s, b);
  }

  ghost predicate InHand(s: Pool, b: seq<int>) {
    AllMapped(s.c4.toPage, b) && AllMapped(s.c128.toPage, b) && AllMapped(s.indexer.toPage, b)
  }

  /** With enough free pages in every lane, allocation returns normally: no mapping is
      stale, and the new pages are in hand with a fresh page of every lane. */
  lemma AllocHeld(s: Pool, pages: int, idle: multiset<int>, now: multiset<int>, f: Flat, tails: Tails, b: seq<int>)
    requires Owned(s, pages, idle, f, tails, NOTHING) && idle == multiset(b) + now && b != []
    requires |b| <= |s.swa.lane.free| && |b| <= |s.c4.free| && |b| <= |s.c128.free| && |b| <= |s.indexer.free|
    ensures AllocPages(s, b).Some?
    ensures var r := AllocPages(s, b).value;
            && Owned(r, pages, now, f, tails, WithLanes(r, b)) && InHand(r, b) && AllMapped(r.swa.lane.toPage, b)
            && TailsKept(s.swa.lane.toPage, r.swa.lane.toPage, tails)
  {
    hide LaneInvBut, FullInv, Pages, AllocPages, AllocAll, AllMapped, MappedBag, RefsOk, TailsMapped, TailsKept;
    FullTaken(pages, idle, now, f, tails, b);
    RefsTaken(s.full, pages, idle, now, f, tails, b);
    LaneAllocates(Swa, s.swa.lane, Dummy(s.swa), pages, idle, now, f, tails, b);
    AllocComponent(C4, s.c4, pages, idle, now, f, tails, b);
    AllocComponent(C128, s.c128, pages, idle, now, f, tails, b);
    AllocComponent(Indexer, s.indexer, pages, idle, now, f, tails, b);
    TakenComponents(s, b);
    TakenPages(s, b, AllocComponents(s, b).value);
    FreshMapped(s.swa.lane, AllocAll(s.swa.lane, b).toPage, Dummy(s.swa), b);
  }

  // ----- the tree takes pages over

  lemma ComponentJoins(lane: Lane, s: PoolLane, pages: int, idle: multiset<int>, f: Flat, base: Path, x: Node,
                       tails: Tails, held: multiset<int>)
    requires LanesOk(x) && SegmentKeys(base, x.key) !! f.Keys && x.lanes[lane] == Mapped(s.toPage, x.lanes[Full])
    requires ComponentInv(lane, s, pages, idle, f, tails, held + MappedBag(s.toPage, x.lanes[Full]))
    ensures ComponentInv(lane, s, pages, idle, f + Segment(base, x), tails, held)
  {
    LaneJoins(lane, s, |s.refs|, pages, idle, f, base, x, tails, held);
  }

  /** A new segment owns the pages of the request it was built from. */
  lemma TreeTakes(s: Pool, pages: int, idle: multiset<int>, f: Flat, base: Path, x: Node, tails: Tails)
    requires LanesOk(x) && SegmentKeys(base, x.key) !! f.Keys
    requires forall i :: 0 <= i < |x.lanes[Full]| ==> x.lanes[Full][i] >= 0
    requires x.lanes[Swa] == Mapped(s.swa.lane.toPage, x.lanes[Full])
    requires x.lanes[C4] == Mapped(s.c4.toPage, x.lanes[Full])
    requires x.lanes[C128] == Mapped(s.c128.toPage, x.lanes[Full])
    requires x.lanes[Indexer] == Mapped(s.indexer.toPage, x.lanes[Full])
    requires Owned(s, pages, idle, f, tails, WithLanes(s, x.lanes[Full]))
    ensures Owned(s, pages, idle, f + Segment(base, x), tails, NOTHING)
  {
    var b := x.lanes[Full];
    LiveOfLive(b);
    NoneHeld(multiset(b));
    FullJoins(pages, idle, f, base, x, tails, multiset{});
    NoneHeld(MappedBag(s.swa.lane.toPage, b));
    LaneJoins(Swa, s.swa.lane, Dummy(s.swa), pages, idle, f, base, x, tails, multiset{});
    NoneHeld(MappedBag(s.c4.toPage, b));
    ComponentJoins(C4, s.c4, pages, idle, f, base, x, tails, multiset{});
    NoneHeld(MappedBag(s.c128.toPage, b));
    ComponentJoins(C128, s.c128, pages, idle, f, base, x, tails, multiset{});
    NoneHeld(MappedBag(s.indexer.toPage, b));
    ComponentJoins(Indexer, s.indexer, pages, idle, f, base, x, tails, multiset{});
  }

  // ----- window pages of a tail

  lemma IdleAnyway(lane: Lane, s: PoolLane, n: int, pages: int, idle: multiset<int>, f: Flat, tails: Tails,
                   held: multiset<int>, b: multiset<int>)
    requires LaneInv(lane, s, n, pages, idle + b, f, tails, held)
    ensures LaneInv(lane, s, n, pages, idle, f, tails, held)
  {
  }

  lemma NoneMapped(toPage: seq<int>, b: seq<int>)
    requires forall p :: p in b ==> 0 <= p < |toPage| && toPage[p] == -1
    ensures MappedBag(toPage, b) == multiset{}
  {
    forall v | v in multiset(Mapped(toPage, b)) ensures v == -1 {
      assert v in Mapped(toPage, b);
    }
  }

  /** Without their window pages the full pages are in hand as before. */
  lemma LosesWindow(s: Pool, pages: int, idle: multiset<int>, f: Flat, tails: Tails, b: seq<int>)
    requires Owned(s, pages, idle, f, tails, WithLanes(s, b)) && b != []
    ensures ReleaseSwaForFull(s.swa, b, true, true).Some?
    ensures var w := ReleaseSwaForFull(s.swa, b, true, true).value; var r := s.(swa := w);
            && Owned(r, pages, idle, f, tails, WithLanes(r, b))
            && (forall p :: p in b ==> 0 <= p < |w.lane.toPage| && w.lane.toPage[p] == -1)
            && TailsKept(s.swa.lane.toPage, w.lane.toPage, tails)
  {
    FreeSwaHeld(s.swa, pages, idle, f, tails, b, true);
    var w := ReleaseSwaForFull(s.swa, b, true, true).value;
    IdleAnyway(Swa, w.lane, Dummy(w), pages, idle, f, tails, multiset{}, multiset(b));
    NoneMapped(w.lane.toPage, b);
  }

  lemma PutBack(s: Pool, pages: int, idle: multiset<int>, f: Flat, tails: Tails, u: int, a: seq<int>, b: seq<int>,
                c: seq<int>)
    requires u in tails && Cut(tails[u], a, b, c) && Owned(s, pages, idle, f, tails[u := a + c], WithLanes(s, b))
    requires InHand(s, b)
    ensures Owned(s, pages, idle, f, tails, NOTHING)
  {
    RestoredTail(tails, u, a, b, c);
    GiveToTail(s, pages, idle, f, tails[u := a + c], u, a, b, c, []);
    NothingLeft(s);
  }

  lemma RestoredTail(tails: Tails, u: int, a: seq<int>, b: seq<int>, c: seq<int>)
    requires u in tails && Cut(tails[u], a, b, c)
    ensures tails[u := a + c][u := a + b + c] == tails && b + [] == b
  {
  }

  /** A request lets go of the window pages in the middle of its tail. */
  lemma ReleaseActive(s: Pool, pages: int, idle: multiset<int>, f: Flat, tails: Tails, u: int, a: seq<int>, b: seq<int>,
                      c: seq<int>)
    requires u in tails && Cut(tails[u], a, b, c) && Owned(s, pages, idle, f, tails, NOTHING) && b != []
    ensures ReleaseSwaForFull(s.swa, b, true, true).Some?
    ensures var w := ReleaseSwaForFull(s.swa, b, true, true).value;
            && Owned(s.(swa := w), pages, idle, f, tails, NOTHING)
            && (forall p :: p in b ==> 0 <= p < |w.lane.toPage| && w.lane.toPage[p] == -1)
            && (forall p :: 0 <= p < |s.swa.lane.toPage| && s.swa.lane.toPage[p] == -1 ==> w.lane.toPage[p] == -1)
            && TailsKept(s.swa.lane.toPage, w.lane.toPage, tails[u := a + c])
  {
    TakeFromTail(s, pages, idle, f, tails, u, a, b, c);
    LosesWindow(s, pages, idle, f, tails[u := a + c], b);
    PutBack(s.(swa := ReleaseSwaForFull(s.swa, b, true, true).value), pages, idle, f, tails, u, a, b, c);
    UnmappedStays(s.swa, b);
  }

  lemma NothingLeft(s: Pool)
    ensures WithLanes(s, []) == NOTHING
  {
  }

  lemma UnmappedStays(s: SwaState, b: seq<int>)
    requires SwaOk(s) && ReleaseSwaForFull(s, b, true, true).Some?
    ensures var w := ReleaseSwaForFull(s, b, true, true).value;
            |w.lane.toPage| == |s.lane.toPage|
            && forall p :: 0 <= p < |s.lane.toPage| && s.lane.toPage[p] == -1 ==> w.lane.toPage[p] == -1
  {
    if b != [] {
      var hs := Translate(s.lane.toPage, b);
      var ps := Unique(Releasable(hs, Dummy(s)));
      if ps != [] {
        HeldPages(s.lane, hs, Dummy(s));
        ReleaseAllMap(s.lane, ps, true, Dummy(s));
      }
    }
  }

  // ----- the two ways the tree drops window pages

  lemma AlongDropsCells(f: Flat, p: Path, k: nat)
    ensures SwaDropCells(f, ReleaseAlong(f, p, k, Swa))
  {
  }

  lemma AlongDropsBag(f: Flat, p: Path, k: nat, released: seq<int>)
    requires [] !in f && StoredPath(f, p) && k <= |p| && CellsOk(f)
    requires released == NonNegative(PagesAlong(f, p, Swa)[..k])
    ensures Live(LaneBag(ReleaseAlong(f, p, k, Swa), Swa)) + multiset(released) == Live(LaneBag(f, Swa))
  {
    ReleaseAlongBag(f, p, k, Swa);
    EntriesAlong(f, p, Swa);
    NonNegativeBag(PagesAlong(f, p, Swa)[..k]);
  }

  lemma SwaDropsAlong(f: Flat, p: Path, k: nat, released: seq<int>)
    requires [] !in f && StoredPath(f, p) && k <= |p| && CellsOk(f)
    requires released == NonNegative(PagesAlong(f, p, Swa)[..k])
    ensures SwaDrops(f, ReleaseAlong(f, p, k, Swa), released)
  {
    AlongDropsCells(f, p, k);
    AlongDropsBag(f, p, k, released);
    forall l: Lane | l != Swa ensures LaneBag(ReleaseAlong(f, p, k, Swa), l) == LaneBag(f, l) {
      ReleaseAlongOther(f, p, k, Swa, l);
    }
  }

  lemma SwaDropsLeaves(f: Flat, g: Flat, released: seq<int>)
    requires SwaReleased(f, g, released)
    ensures SwaDrops(f, g, released)
  {
  }

  // ----- requests come and go

  lemma EmptyTailBags(toPage: seq<int>, tails: Tails, u: int)
    requires u !in tails
    ensures TailBags(tails[u := []]) == TailBags(tails)[u := multiset{}]
    ensures MappedBags(toPage, tails[u := []]) == MappedBags(toPage, tails)[u := multiset{}]
  {
    assert MappedBag(toPage, []) == multiset{};
  }

  lemma EmptyTailUnions(toPage: seq<int>, tails: Tails, u: int)
    requires u !in tails
    ensures Union(TailBags(tails[u := []])) == Union(TailBags(tails))
    ensures Union(MappedBags(toPage, tails[u := []])) == Union(MappedBags(toPage, tails))
  {
    EmptyTailBags(toPage, tails, u);
    UnionAdd(TailBags(tails), u, multiset{});
    UnionAdd(MappedBags(toPage, tails), u, multiset{});
  }

  lemma EmptyTailMapped(toPage: seq<int>, tails: Tails, u: int)
    requires u !in tails
    ensures TailsMapped(toPage, tails[u := []]) <==> TailsMapped(toPage, tails)
  {
    var more := tails[u := []];
    if TailsMapped(toPage, tails) {
      forall v | v in more ensures AllMapped(toPage, more[v]) { }
    }
    if TailsMapped(toPage, more) {
      forall v | v in tails ensures AllMapped(toPage, tails[v]) { assert more[v] == tails[v]; }
    }
  }

  lemma EmptyTailLane(lane: Lane, s: PoolLane, n: int, pages: int, idle: multiset<int>, f: Flat, tails: Tails,
                      held: multiset<int>, u: int)
    requires u !in tails
    ensures LaneInv(lane, s, n, pages, idle, f, tails[u := []], held) <==>
      LaneInv(lane, s, n, pages, idle, f, tails, held)
  {
    EmptyTailUnions(s.toPage, tails, u);
  }

  /** A request without own pages owns nothing. */
  lemma EmptyTail(s: Pool, pages: int, idle: multiset<int>, f: Flat, tails: Tails, h: Hands, u: int)
    requires u !in tails
    ensures Owned(s, pages, idle, f, tails[u := []], h) <==> Owned(s, pages, idle, f, tails, h)
  {
    EmptyTailUnions([], tails, u);
    EmptyTailLane(Swa, s.swa.lane, Dummy(s.swa), pages, idle, f, tails, h.swa, u);
    EmptyTailLane(C4, s.c4, |s.c4.refs|, pages, idle, f, tails, h.c4, u);
    EmptyTailMapped(s.c4.toPage, tails, u);
    EmptyTailLane(C128, s.c128, |s.c128.refs|, pages, idle, f, tails, h.c128, u);
    EmptyTailMapped(s.c128.toPage, tails, u);
    EmptyTailLane(Indexer, s.indexer, |s.indexer.refs|, pages, idle, f, tails, h.indexer, u);
    EmptyTailMapped(s.indexer.toPage, tails, u);
  }
}
