/** What the cache manager keeps about its requests, as predicates on values. */
module CacheSteps {
  import opened Options
  import opened Bags
  import opened RadixTree
  import opened RadixLocks
  import opened PrefixMap
  import opened RadixRoom
  import opened RadixSteps
  import opened PagePool
  import opened PoolSpec
  import opened Ownership
  import opened PoolOwnership
  import opened Paging

  /** A request's page table row: the pages of the locked prefix, then its own. */
  datatype Holder = Holder(handle: Handle, row: seq<int>)

  type Holders = map<int, Holder>

  function Tail(h: Holder): seq<int> {
    if h.handle.cachedLen <= |h.row| then h.row[h.handle.cachedLen..] else []
  }

  ghost function TailsOf(reqs: Holders): Tails {
    map u | u in reqs :: Tail(reqs[u])
  }

  ghost predicate Bound(h: Holder, p: Path, path: map<Id, Path>) {
    && h.handle.node in path && path[h.handle.node] == p && h.handle.cachedLen == |p| <= |h.row|
    && forall j :: 0 <= j < |h.row| ==> h.row[j] >= -1
  }

  ghost predicate AllBound(reqs: Holders, paths: map<int, Path>, path: map<Id, Path>) {
    && reqs.Keys == paths.Keys
    && forall u {:trigger reqs[u]} :: u in reqs ==> Bound(reqs[u], paths[u], path)
  }

  ghost function Lock(p: Path): multiset<Path> {
    multiset{p}
  }

  ghost function LockBags(paths: map<int, Path>): map<int, multiset<Path>> {
    map u | u in paths :: Lock(paths[u])
  }

  /** One lock for each request. */
  ghost function Locks(paths: map<int, Path>): multiset<Path> {
    Union(LockBags(paths))
  }

  lemma LockedPath(paths: map<int, Path>, u: int)
    requires u in paths
    ensures paths[u] in Locks(paths)
  {
    UnionMember(LockBags(paths), u, paths[u]);
  }

  lemma LockBagsAdd(paths: map<int, Path>, u: int, p: Path)
    ensures LockBags(paths[u := p]) == LockBags(paths)[u := Lock(p)]
  {
  }

  lemma LocksAdd(paths: map<int, Path>, u: int, p: Path)
    requires u !in paths
    ensures Locks(paths[u := p]) == Locks(paths) + Lock(p)
  {
    LockBagsAdd(paths, u, p);
    UnionAdd(LockBags(paths), u, Lock(p));
  }

  lemma LockBagsRemove(paths: map<int, Path>, u: int)
    requires u in paths
    ensures LockBags(paths - {u}) == LockBags(paths) - {u} && LockBags(paths)[u] == Lock(paths[u])
  {
  }

  lemma TakeAway(a: multiset<Path>, b: multiset<Path>, c: multiset<Path>)
    requires a == b + c
    ensures c == a - b
  {
  }

  lemma LocksRemove(paths: map<int, Path>, u: int)
    requires u in paths
    ensures Locks(paths - {u}) == Locks(paths) - Lock(paths[u])
  {
    UnionExtract(LockBags(paths), u);
    LockBagsRemove(paths, u);
    TakeAway(Locks(paths), Lock(paths[u]), Locks(paths - {u}));
  }

  /** The request's own pages have their window pages exactly from block `blocks` on. */
  ghost predicate WindowFrom(toPage: seq<int>, h: Holder, blocks: nat) {
    forall j :: h.handle.cachedLen <= j < |h.row| && 0 <= h.row[j] < |toPage| ==>
      (toPage[h.row[j]] == -1 <==> j < blocks)
  }

  ghost predicate FrontiersOk(toPage: seq<int>, reqs: Holders, frontier: map<int, nat>) {
    && frontier.Keys == reqs.Keys
    && forall u {:trigger reqs[u]} :: u in reqs ==>
         frontier[u] <= |reqs[u].row| && WindowFrom(toPage, reqs[u], frontier[u])
  }

  lemma FrontierKept(before: seq<int>, after: seq<int>, h: Holder, blocks: nat, tails: Tails, u: int)
    requires WindowFrom(before, h, blocks) && TailsKept(before, after, tails) && u in tails && Tail(h) == tails[u]
    ensures WindowFrom(after, h, blocks)
  {
    forall j | h.handle.cachedLen <= j < |h.row| && 0 <= h.row[j] < |after|
      ensures after[h.row[j]] == before[h.row[j]]
    {
      assert h.row[j] == Tail(h)[j - h.handle.cachedLen];
    }
  }

  lemma FrontiersKept(before: seq<int>, after: seq<int>, reqs: Holders, frontier: map<int, nat>)
    requires FrontiersOk(before, reqs, frontier) && TailsKept(before, after, TailsOf(reqs))
    ensures FrontiersOk(after, reqs, frontier)
  {
    forall u | u in reqs ensures frontier[u] <= |reqs[u].row| && WindowFrom(after, reqs[u], frontier[u]) {
      FrontierKept(before, after, reqs[u], frontier[u], TailsOf(reqs), u);
    }
  }

  lemma NoChange(toPage: seq<int>, tails: Tails)
    ensures TailsKept(toPage, toPage, tails)
  {
  }

  lemma KeptLength(before: seq<int>, after: seq<int>, tails: Tails)
    requires TailsKept(before, after, tails)
    ensures |after| == |before|
  {
  }

  lemma KeptTwice(a: seq<int>, b: seq<int>, c: seq<int>, tails: Tails)
    requires TailsKept(a, b, tails) && TailsKept(b, c, tails)
    ensures TailsKept(a, c, tails)
  {
  }

  // ----- evicted nodes, one at a time

  lemma {:induction false} LaneOfConcat(a: seq<Node>, b: seq<Node>, lane: Lane)
    requires forall x :: x in b ==> LanesOk(x)
    ensures LaneOf(a + b, lane) == LaneOf(a, lane) + LaneOf(b, lane)
    decreases |b|
  {
    if b == [] {
      assert a + b == a;
    } else {
      var n := |b| - 1;
      assert a + b == a + b[..n] + [b[n]];
      assert b[n] in b;
      LaneOfAppend(a + b[..n], b[n], lane);
      LaneOfConcat(a, b[..n], lane);
      assert b == b[..n] + [b[n]];
      LaneOfAppend(b[..n], b[n], lane);
    }
  }

  lemma LaneOfFirst(nodes: seq<Node>, lane: Lane)
    requires nodes != [] && forall x :: x in nodes ==> LanesOk(x)
    ensures LanesOk(nodes[0])
    ensures Live(multiset(LaneOf(nodes, lane)))
      == Live(multiset(LaneOf(nodes[1..], lane))) + Live(multiset(nodes[0].lanes[lane]))
  {
    assert nodes == [nodes[0]] + nodes[1..];
    LaneOfConcat([nodes[0]], nodes[1..], lane);
    assert [] + [nodes[0]] == [nodes[0]];
    LaneOfAppend([], nodes[0], lane);
    LiveAdd(multiset(nodes[0].lanes[lane]), multiset(LaneOf(nodes[1..], lane)));
  }

  lemma {:induction false} LaneOfEntries(nodes: seq<Node>, lane: Lane)
    requires forall x :: x in nodes ==> LanesOk(x)
    ensures forall i :: 0 <= i < |LaneOf(nodes, lane)| ==> LaneOf(nodes, lane)[i] >= -1
    decreases |nodes|
  {
    if nodes != [] {
      assert nodes[|nodes| - 1] in nodes;
      LaneOfEntries(nodes[..|nodes| - 1], lane);
    }
  }

  /** The hands after the callbacks of the nodes in front of `rest`. */
  ghost function LeftHands(nodes: seq<Node>, rest: seq<Node>): Hands {
    NodeHands(rest).(full := NodeHands(nodes).full)
  }

  lemma NextNode(s: Pool, pages: int, idle: multiset<int>, f: Flat, tails: Tails, nodes: seq<Node>, rest: seq<Node>)
    requires rest != [] && (forall x :: x in rest ==> LanesOk(x))
    requires Owned(s, pages, idle, f, tails, LeftHands(nodes, rest))
    ensures var x := rest[0];
            && LanesOk(x) && ReleaseComponents(s, x.lanes[C4], x.lanes[C128], x.lanes[Indexer]).Some?
            && ReleaseSwa(s.swa, x.lanes[Swa], false).Some?
            && Owned(ReleaseComponents(s, x.lanes[C4], x.lanes[C128],
                 x.lanes[Indexer]).value.(swa := ReleaseSwa(s.swa, x.lanes[Swa], false).value),
                 pages, idle, f, tails, LeftHands(nodes, rest[1..]))
            && TailsKept(s.swa.lane.toPage, ReleaseSwa(s.swa, x.lanes[Swa], false).value.lane.toPage, tails)
  {
    LaneOfFirst(rest, Swa);
    LaneOfFirst(rest, C4);
    LaneOfFirst(rest, C128);
    LaneOfFirst(rest, Indexer);
    ReleaseHandles(s, pages, idle, f, tails, LeftHands(nodes, rest), LeftHands(nodes, rest[1..]), rest[0]);
  }

  lemma NoNodesLeft(nodes: seq<Node>)
    requires forall x :: x in nodes ==> LanesOk(x)
    ensures LeftHands(nodes, []) == NOTHING.(full := multiset(NonNegative(LaneOf(nodes, Full))))
    ensures LeftHands(nodes, nodes) == NodeHands(nodes)
  {
    LaneOfEntries(nodes, Full);
    NonNegativeBag(LaneOf(nodes, Full));
    assert Live(multiset([])) == multiset{};
  }

  lemma MoreIdle(free: seq<int>, lazy: seq<int>, b: seq<int>)
    ensures multiset(free + b) + multiset(lazy) == multiset(free) + multiset(lazy) + multiset(b)
    ensures multiset(free) + multiset(lazy + b) == multiset(free) + multiset(lazy) + multiset(b)
  {
  }

  // ----- the initial state

  function UpTo(n: nat): seq<int> {
    seq(n, i => i)
  }

  lemma {:induction false} UpToBag(n: nat)
    ensures multiset(UpTo(n)) == Pages(n)
    decreases n
  {
    if n > 0 {
      UpToBag(n - 1);
      assert UpTo(n) == UpTo(n - 1) + [n - 1];
    }
  }

  lemma NoTails(tails: Tails, f: Flat, toPage: seq<int>)
    requires tails == map[] && f == map[]
    ensures Union(TailBags(tails)) == multiset{} && Union(MappedBags(toPage, tails)) == multiset{}
    ensures forall l: Lane :: Live(LaneBag(f, l)) == multiset{}
  {
    assert TailBags(tails) == map[] && MappedBags(toPage, tails) == map[];
    forall l: Lane ensures LaneBag(f, l) == multiset{} {
      EmptyBag(f, l);
    }
  }

  lemma StartLane(lane: Lane, s: PoolLane, n: nat, pages: int, idle: multiset<int>)
    requires CountsOk(s, n) && s.free == UpTo(n) && pages <= |s.toPage|
    requires forall p :: 0 <= p < |s.toPage| ==> s.toPage[p] == -1
    ensures LaneInv(lane, s, n, pages, idle, map[], map[], multiset{})
  {
    UpToBag(n);
    NoTails(map[], map[], s.toPage);
  }

  /** All pages are free at the start. */
  lemma StartOwned(s: Pool, pages: nat)
    requires PoolOk(s) && |s.full| >= pages && forall p :: 0 <= p < |s.full| ==> s.full[p] == 0
    requires s.swa.lane.toPage == s.c4.toPage == s.c128.toPage == s.indexer.toPage
    requires forall p :: 0 <= p < |s.full| ==> s.swa.lane.toPage[p] == -1
    requires s.swa.lane.free == UpTo(Dummy(s.swa)) && s.c4.free == UpTo(|s.c4.refs|)
    requires s.c128.free == UpTo(|s.c128.refs|) && s.indexer.free == UpTo(|s.indexer.refs|)
    requires |s.c4.refs| >= pages && |s.c128.refs| >= pages && |s.indexer.refs| >= pages
    ensures Owned(s, pages, multiset(UpTo(pages)) + multiset{}, map[], map[], NOTHING)
  {
    var idle := multiset(UpTo(pages)) + multiset{};
    UpToBag(pages);
    NoTails(map[], map[], s.c4.toPage);
    StartLane(Swa, s.swa.lane, Dummy(s.swa), pages, idle);
    StartLane(C4, s.c4, |s.c4.refs|, pages, idle);
    StartLane(C128, s.c128, |s.c128.refs|, pages, idle);
    StartLane(Indexer, s.indexer, |s.indexer.refs|, pages, idle);
  }

  lemma OwnedPool(s: Pool, pages: int, idle: multiset<int>, f: Flat, tails: Tails, h: Hands)
    requires Owned(s, pages, idle, f, tails, h)
    ensures PoolOk(s)
  {
  }

  lemma NoRequests(path: map<Id, Path>, toPage: seq<int>)
    ensures TailsOf(map[]) == map[] && Locks(map[]) == multiset{}
    ensures AllBound(map[], map[], path) && FrontiersOk(toPage, map[], map[])
  {
    assert LockBags(map[]) == map[];
  }

  /** Nodes that requests point to keep their place. */
  ghost predicate KeepsNodes(before: map<Id, Path>, after: map<Id, Path>, locked: multiset<Path>) {
    forall n :: n in before && before[n] in locked ==> n in after && after[n] == before[n]
  }

  lemma BoundKept(reqs: Holders, paths: map<int, Path>, before: map<Id, Path>, after: map<Id, Path>)
    requires AllBound(reqs, paths, before) && KeepsNodes(before, after, Locks(paths))
    ensures AllBound(reqs, paths, after)
  {
    forall u | u in reqs ensures Bound(reqs[u], paths[u], after) {
      LockedPath(paths, u);
    }
  }

  lemma EvictionKeepsNodes(before: map<Id, Path>, t: Tree, locked: multiset<Path>, counter: Id, ev: int, pr: int)
    requires CacheInv(t, locked, counter, ev, pr) && LockedNodesKept(before, t.nodes.Keys, locked)
    requires forall n :: n in t.nodes ==> n in before && t.path[n] == before[n]
    ensures KeepsNodes(before, t.path, locked)
  {
  }

  /** Window pages the tree still holds. */
  ghost function SwaLive(f: Flat): nat {
    |Live(LaneBag(f, Swa))|
  }

  lemma SwaLiveDrops(f: Flat, g: Flat, released: seq<int>)
    requires SwaDrops(f, g, released)
    ensures SwaLive(g) + |released| == SwaLive(f)
  {
  }

  function Least(a: nat, b: nat): nat {
    if a <= b then a else b
  }

  lemma MoreRoom(a: nat, b: nat, c: nat, d: nat, ps: PageSize)
    requires a <= c && b <= d
    ensures TokensIn(Least(a, b), ps) <= TokensIn(Least(c, d), ps)
  {
    MulGap(Least(c, d) - Least(a, b), ps);
    assert Least(c, d) * ps == (Least(c, d) - Least(a, b)) * ps + Least(a, b) * ps;
  }

  // ----- admission

  /** What admission looks at: the pages that are free, of the full lane and of the shortest
      component lane, the stored map and the locked paths. */
  datatype Supply = Supply(free: nat, components: nat, f: Flat, locks: multiset<Path>)

  /** Tokens that fit into what is free or evictable, by full pages and by component pages. */
  ghost function Room(s: Supply, ps: PageSize): nat {
    TokensIn(Least(s.free + SpareOf(s.f, s.locks, true), s.components + SpareOf(s.f, s.locks, false)), ps)
  }

  ghost function WithLock(s: Supply, p: Path): Supply {
    s.(locks := s.locks + Lock(p))
  }

  /** Tokens a new request may still need: the rest of its prompt and its output. */
  function Estimate(inputLen: nat, matched: nat, outputLen: nat, ps: PageSize): int {
    inputLen - TokensIn(matched, ps) + outputLen
  }

  /** What the request may still need behind its stored prefix `p`, on top of what is reserved,
      fits into the room that is left while the prefix is locked. */
  ghost predicate Admits(s: Supply, inputLen: nat, outputLen: nat, reserved: nat, p: Path, ps: PageSize) {
    Estimate(inputLen, |p|, outputLen, ps) + reserved <= Room(WithLock(s, p), ps)
  }

  /** Admission, spelled out: the whole sequence of the request and what is reserved fit into
      its stored prefix and what is free or evictable beside it, by live full pages and by
      component pages. */
  lemma AdmitsMeans(s: Supply, inputLen: nat, outputLen: nat, reserved: nat, p: Path, ps: PageSize)
    ensures Admits(s, inputLen, outputLen, reserved, p, ps) <==>
      && inputLen + outputLen + reserved
         <= TokensIn(|p|, ps) + TokensIn(s.free + SpareOf(s.f, s.locks + multiset{p}, true), ps)
      && inputLen + outputLen + reserved
         <= TokensIn(|p|, ps) + TokensIn(s.components + SpareOf(s.f, s.locks + multiset{p}, false), ps)
  {
    hide SpareOf, TokensIn;
    var t := WithLock(s, p);
    var full, components := s.free + SpareOf(s.f, t.locks, true), s.components + SpareOf(s.f, t.locks, false);
    TokensGrow(Least(full, components), full, ps);
    TokensGrow(Least(full, components), components, ps);
  }

  /** The same pages with more locks. */
  ghost predicate Tighter(s: Supply, t: Supply) {
    t == s.(locks := t.locks) && s.locks <= t.locks
  }

  lemma RoomShrinks(s: Supply, t: Supply, ps: PageSize)
    requires Tighter(s, t)
    ensures Room(t, ps) <= Room(s, ps)
  {
    hide SpareOf;
    SpareShrinks(s.f, s.locks, t.locks, true);
    SpareShrinks(s.f, s.locks, t.locks, false);
    MoreRoom(t.free + SpareOf(t.f, t.locks, true), t.components + SpareOf(t.f, t.locks, false),
      s.free + SpareOf(s.f, s.locks, true), s.components + SpareOf(s.f, s.locks, false), ps);
  }

  /** Who does not fit does not fit later either, while pages are only locked and reserved. */
  lemma StillRefused(s: Supply, t: Supply, inputLen: nat, outputLen: nat, reserved: nat, more: nat, p: Path,
                     ps: PageSize)
    requires Tighter(s, t) && reserved <= more && !Admits(s, inputLen, outputLen, reserved, p, ps)
    ensures !Admits(t, inputLen, outputLen, more, p, ps)
  {
    hide Room;
    RoomShrinks(WithLock(s, p), WithLock(t, p), ps);
  }

  /** With nothing locked, `cap` pages that are free or in the tree leave this much room. */
  lemma EmptyRoom(s: Supply, cap: nat, p: Path, ps: PageSize)
    requires s.locks == multiset{} && [] !in s.f
    requires s.free + |Live(LaneBag(s.f, Full))| >= cap && s.components + |s.f| >= cap
    ensures Room(WithLock(s, p), ps) + TokensIn(|p|, ps) >= TokensIn(cap, ps)
  {
    hide SpareOf, TokensIn;
    NothingLocked(s.f, true);
    NothingLocked(s.f, false);
    SpareUnderLock(s.f, s.locks, p, true);
    SpareUnderLock(s.f, s.locks, p, false);
    var t := WithLock(s, p);
    var least := Least(s.free + SpareOf(s.f, t.locks, true), s.components + SpareOf(s.f, t.locks, false));
    assert least + |p| >= cap;
    TokensAtMost(cap, least, |p|, ps);
  }

  lemma TokensGrow(a: nat, b: nat, ps: PageSize)
    requires a <= b
    ensures TokensIn(a, ps) <= TokensIn(b, ps)
  {
    MulGap(b - a, ps);
    assert b * ps == (b - a) * ps + a * ps;
  }

  lemma TokensAtMost(a: nat, b: nat, c: nat, ps: PageSize)
    requires a <= b + c
    ensures TokensIn(a, ps) <= TokensIn(b, ps) + TokensIn(c, ps)
  {
    MulGap(b + c - a, ps);
    assert (b + c) * ps == b * ps + c * ps == (b + c - a) * ps + a * ps;
  }

  lemma NothingLocked(f: Flat, live: bool)
    ensures SpareOf(f, multiset{}, live) == Worth(f, live)
  {
    forall q | q in f ensures Count(multiset{}, q) == 0 {
      CountZero(multiset{}, q);
    }
    assert Unlocked(f, multiset{}) == f;
  }

  /** A request that is refused by a cache nobody uses needs more than all pages hold. */
  lemma RefusedWhenEmpty(s: Supply, cap: nat, inputLen: nat, outputLen: nat, p: Path, ps: PageSize)
    requires s.locks == multiset{} && [] !in s.f
    requires s.free + |Live(LaneBag(s.f, Full))| >= cap && s.components + |s.f| >= cap
    requires !Admits(s, inputLen, outputLen, 0, p, ps)
    ensures inputLen + outputLen > TokensIn(cap, ps)
  {
    hide Room, TokensIn;
    EmptyRoom(s, cap, p, ps);
  }

  /** What fits into the room also fits into every lane but that of the windows, once all is
      evicted that is not locked. */
  lemma RoomFits(s: Supply, evictable: nat, needed: nat, ps: PageSize)
    requires evictable == SpareOf(s.f, s.locks, false) && TokensIn(needed, ps) <= Room(s, ps)
    ensures needed <= s.free + evictable && needed <= s.components + evictable
  {
    hide SpareOf;
    LiveAmongBlocks(s.f, s.locks);
    var most := Least(s.free + SpareOf(s.f, s.locks, true), s.components + SpareOf(s.f, s.locks, false));
    MulGap(most - needed, ps);
    assert most * ps == (most - needed) * ps + needed * ps;
  }

  lemma LiveAmongBlocks(f: Flat, locks: multiset<Path>)
    ensures SpareOf(f, locks, true) <= SpareOf(f, locks, false)
  {
    PagesAtMost(Unlocked(f, locks), true);
  }

  function Max(a: nat, b: nat): nat {
    if a >= b then a else b
  }

  lemma EvictableNonNegative(t: Tree, locked: multiset<Path>, counter: Id, ev: int, pr: int)
    requires CacheInv(t, locked, counter, ev, pr)
    ensures ev >= 0
  {
  }

  // ----- growing rows

  /** One request of a batch: positions below `cachedLen` have their pages, those up to
      `deviceLen` are about to be written. */
  datatype Extend = Extend(req: int, cachedLen: nat, deviceLen: nat)

  function NewPages(e: Extend, ps: nat): nat
    requires ps > 0
  {
    if Ceil(e.deviceLen, ps) > Ceil(e.cachedLen, ps) then Ceil(e.deviceLen, ps) - Ceil(e.cachedLen, ps) else 0
  }

  function NeededPages(batch: seq<Extend>, ps: nat): nat
    requires ps > 0
  {
    if batch == [] then 0 else NewPages(batch[0], ps) + NeededPages(batch[1..], ps)
  }

  lemma {:induction false} NeededUpTo(batch: seq<Extend>, i: nat, ps: nat)
    requires ps > 0 && i <= |batch|
    ensures NeededPages(batch, ps) == NeededPages(batch[..i], ps) + NeededPages(batch[i..], ps)
  {
    if i > 0 {
      NeededUpTo(batch[1..], i - 1, ps);
      assert batch[..i][1..] == batch[1..][..i - 1];
      assert batch[1..][i - 1..] == batch[i..];
    }
  }

  /** The row of a request after the first `i` requests of the batch have their pages. */
  ghost predicate RowGrown(before: Holder, now: Holder, pages: nat) {
    now.handle == before.handle && |now.row| == |before.row| + pages && now.row[..|before.row|] == before.row
  }

  ghost function GrownBy(batch: seq<Extend>, u: int, ps: nat): nat
    requires ps > 0
  {
    if batch == [] then 0
    else (if batch[0].req == u then NewPages(batch[0], ps) else 0) + GrownBy(batch[1..], u, ps)
  }

  lemma {:induction false} GrownByAppend(batch: seq<Extend>, e: Extend, u: int, ps: nat)
    requires ps > 0
    ensures GrownBy(batch + [e], u, ps) == GrownBy(batch, u, ps) + if e.req == u then NewPages(e, ps) else 0
  {
    if batch != [] {
      GrownByAppend(batch[1..], e, u, ps);
      assert (batch + [e])[1..] == batch[1..] + [e];
    }
  }

  ghost predicate AllGrown(before: Holders, now: Holders, batch: seq<Extend>, ps: nat)
    requires ps > 0
  {
    && now.Keys == before.Keys
    && forall u {:trigger now[u]} :: u in now ==> RowGrown(before[u], now[u], GrownBy(batch, u, ps))
  }

  lemma NoneGrown(reqs: Holders, ps: nat)
    requires ps > 0
    ensures AllGrown(reqs, reqs, [], ps)
  {
  }

  lemma GrownNext(before: Holders, now: Holders, batch: seq<Extend>, e: Extend, b: seq<int>, ps: nat)
    requires ps > 0 && AllGrown(before, now, batch, ps) && e.req in now && |b| == NewPages(e, ps)
    ensures AllGrown(before, now[e.req := now[e.req].(row := now[e.req].row + b)], batch + [e], ps)
  {
    var next := now[e.req := now[e.req].(row := now[e.req].row + b)];
    forall u | u in next ensures RowGrown(before[u], next[u], GrownBy(batch + [e], u, ps)) {
      GrownByAppend(batch, e, u, ps);
      assert RowGrown(before[u], now[u], GrownBy(batch, u, ps));
    }
  }

  lemma TailsGrow(reqs: Holders, u: int, b: seq<int>)
    requires u in reqs && reqs[u].handle.cachedLen <= |reqs[u].row|
    ensures TailsOf(reqs)[u] == Tail(reqs[u]) + []
    ensures TailsOf(reqs[u := reqs[u].(row := reqs[u].row + b)]) == TailsOf(reqs)[u := Tail(reqs[u]) + b + []]
  {
    assert Tail(reqs[u].(row := reqs[u].row + b)) == Tail(reqs[u]) + b + [];
  }

  lemma GrownBound(reqs: Holders, paths: map<int, Path>, path: map<Id, Path>, u: int, b: seq<int>)
    requires AllBound(reqs, paths, path) && u in reqs && forall i :: 0 <= i < |b| ==> b[i] >= 0
    ensures AllBound(reqs[u := reqs[u].(row := reqs[u].row + b)], paths, path)
    ensures reqs[u].handle.cachedLen <= |reqs[u].row|
  {
    assert Bound(reqs[u], paths[u], path);
    var next := reqs[u := reqs[u].(row := reqs[u].row + b)];
    forall v | v in next ensures Bound(next[v], paths[v], path) {
      assert Bound(reqs[v], paths[v], path);
    }
  }

  lemma GrownFrontiers(toPage: seq<int>, reqs: Holders, frontier: map<int, nat>, u: int, b: seq<int>)
    requires FrontiersOk(toPage, reqs, frontier) && u in reqs && AllMapped(toPage, b)
    ensures FrontiersOk(toPage, reqs[u := reqs[u].(row := reqs[u].row + b)], frontier)
  {
    var next := reqs[u := reqs[u].(row := reqs[u].row + b)];
    forall v | v in next ensures frontier[v] <= |next[v].row| && WindowFrom(toPage, next[v], frontier[v]) {
      assert frontier[v] <= |reqs[v].row| && WindowFrom(toPage, reqs[v], frontier[v]);
      if v == u {
        GrownWindow(toPage, reqs[u], b, frontier[u]);
      }
    }
  }

  lemma GrownWindow(toPage: seq<int>, h: Holder, b: seq<int>, e: nat)
    requires WindowFrom(toPage, h, e) && e <= |h.row| && AllMapped(toPage, b)
    ensures WindowFrom(toPage, h.(row := h.row + b), e)
  {
    var row := h.row + b;
    forall j | h.handle.cachedLen <= j < |row| && 0 <= row[j] < |toPage| ensures toPage[row[j]] == -1 <==> j < e {
      if j >= |h.row| {
        assert row[j] == b[j - |h.row|] && row[j] in b;
      }
    }
  }

  lemma InHandParts(s: Pool, b: seq<int>, rest: seq<int>)
    requires InHand(s, b + rest) && AllMapped(s.swa.lane.toPage, b + rest)
    ensures InHand(s, b) && InHand(s, rest) && forall i :: 0 <= i < |b| ==> b[i] >= 0
    ensures AllMapped(s.swa.lane.toPage, b) && AllMapped(s.swa.lane.toPage, rest)
  {
    forall p | p in b || p in rest ensures p in b + rest { }
    forall i | 0 <= i < |b| ensures b[i] >= 0 { assert b[i] in b; }
  }

  lemma SplitIdle(free: seq<int>, lazy: seq<int>, taken: seq<int>, all: seq<int>)
    requires all == taken + free
    ensures multiset(all) + multiset(lazy) == multiset(taken) + (multiset(free) + multiset(lazy))
  {
  }

  // ----- what the cache inserts for a request

  /** Window handles of a segment from block `from`, without those below the frontier. */
  function Tombstoned(handles: seq<int>, from: nat, evicted: nat): (r: seq<int>)
    ensures |r| == |handles|
  {
    seq(|handles|, i requires 0 <= i < |handles| => if from + i < evicted then -1 else handles[i])
  }

  /** Makes the lanes of a new segment from the page maps. */
  function LaneBuilder(s: Pool, row: seq<int>, evicted: nat): Builder {
    (from: nat, to: nat) =>
      if from <= to <= |row| then
        map[Swa := Tombstoned(Mapped(s.swa.lane.toPage, row[from..to]), from, evicted),
            C4 := Mapped(s.c4.toPage, row[from..to]), C128 := Mapped(s.c128.toPage, row[from..to]),
            Indexer := Mapped(s.indexer.toPage, row[from..to])]
      else map[]
  }

  ghost function NewSegment(s: Pool, blocks: Path, row: seq<int>, evicted: nat, from: nat): Node
    requires from <= |blocks| <= |row|
  {
    Node(ROOT, map[], blocks[from..], NewLanes(blocks, row, LaneBuilder(s, row, evicted), from), 0)
  }

  ghost predicate EntriesOk(s: Pool) {
    && (forall p :: 0 <= p < |s.swa.lane.toPage| ==> s.swa.lane.toPage[p] >= -1)
    && (forall p :: 0 <= p < |s.c4.toPage| ==> s.c4.toPage[p] >= -1)
    && (forall p :: 0 <= p < |s.c128.toPage| ==> s.c128.toPage[p] >= -1)
    && (forall p :: 0 <= p < |s.indexer.toPage| ==> s.indexer.toPage[p] >= -1)
  }

  lemma OwnedEntries(s: Pool, pages: int, idle: multiset<int>, f: Flat, tails: Tails, h: Hands)
    requires Owned(s, pages, idle, f, tails, h)
    ensures EntriesOk(s)
  {
  }

  lemma SegmentFits(s: Pool, blocks: Path, row: seq<int>, evicted: nat, from: nat)
    requires from <= |blocks| <= |row| && EntriesOk(s) && forall j :: 0 <= j < |row| ==> row[j] >= -1
    ensures LanesOk(NewSegment(s, blocks, row, evicted, from))
  {
    var x := NewSegment(s, blocks, row, evicted, from);
    forall l: Lane ensures l in x.lanes && |x.lanes[l]| == |x.key| {
      match l case Full => case Swa => case C4 => case C128 => case Indexer =>
    }
  }

  lemma BuilderFits(s: Pool, blocks: Path, row: seq<int>, evicted: nat)
    requires |blocks| <= |row| && EntriesOk(s) && forall j :: 0 <= j < |row| ==> row[j] >= -1
    ensures BuilderOk(blocks, row, LaneBuilder(s, row, evicted))
  {
    forall from: nat | from <= |blocks|
      ensures LanesOk(Node(ROOT, map[], blocks[from..], NewLanes(blocks, row, LaneBuilder(s, row, evicted), from), 0))
    {
      SegmentFits(s, blocks, row, evicted, from);
    }
  }

  /** Below the frontier of a request nothing is mapped any more: the check for live
      window pages there cannot fail, and tombstoning changes nothing. */
  lemma NothingLiveBelow(toPage: seq<int>, h: Holder, from: nat, to: nat, evicted: nat, frontier: nat)
    requires WindowFrom(toPage, h, frontier) && evicted <= frontier && h.handle.cachedLen <= from <= to <= |h.row|
    ensures Tombstoned(Mapped(toPage, h.row[from..to]), from, evicted) == Mapped(toPage, h.row[from..to])
  {
    forall i | 0 <= i < to - from && from + i < evicted ensures Mapped(toPage, h.row[from..to])[i] == -1 {
      assert h.row[from..to][i] == h.row[from + i];
    }
  }

  lemma SegmentLanes(s: Pool, blocks: Path, h: Holder, evicted: nat, frontier: nat, from: nat)
    requires h.handle.cachedLen <= from <= |blocks| <= |h.row| && WindowFrom(s.swa.lane.toPage, h, frontier)
    requires evicted <= frontier
    ensures var x := NewSegment(s, blocks, h.row, evicted, from); var b := h.row[from..|blocks|];
            && (forall l: Lane :: l in x.lanes) && x.lanes[Full] == b
            && x.lanes[Swa] == Mapped(s.swa.lane.toPage, b) && x.lanes[C4] == Mapped(s.c4.toPage, b)
            && x.lanes[C128] == Mapped(s.c128.toPage, b) && x.lanes[Indexer] == Mapped(s.indexer.toPage, b)
  {
    NothingLiveBelow(s.swa.lane.toPage, h, from, |blocks|, evicted, frontier);
    forall l: Lane ensures l in NewSegment(s, blocks, h.row, evicted, from).lanes {
      match l case Full => case Swa => case C4 => case C128 => case Indexer =>
    }
  }

  lemma MatchWithin(f: Flat, blocks: Path, longest: nat, m: nat)
    requires LongestMatch(f, blocks, longest) && m <= longest
    ensures m <= |blocks| && blocks[..m] <= blocks
  {
  }

  /** `matched` blocks of `key` are the deepest boundary with a live window page on its
      longest stored prefix, which has `longest` blocks. */
  ghost predicate Usable(t: Tree, key: Path, matched: nat, longest: nat) {
    && WF(t) && LongestMatch(FlatOf(t), key, longest) && matched <= longest <= |key|
    && (matched > 0 ==> Entry(FlatOf(t), key[..matched], Swa) >= 0)
    && NoLiveTailBetween(t, key[..longest], matched)
  }

  /** `longest` whole blocks of a prompt, which leave a token of it, are stored, and no more;
      `matched` of them are the deepest node boundary on them with a live window page. */
  ghost predicate BestPrefix(t: Tree, ids: seq<int>, matched: nat, longest: nat, ps: PageSize) {
    var blocks := Blocks(ids, ps);
    && WF(t) && matched <= longest <= |blocks| && TokensIn(longest, ps) < |ids|
    && (forall n: nat :: n <= |blocks| && TokensIn(n, ps) < |ids| ==>
         (n <= longest <==> StoredPath(FlatOf(t), blocks[..n])))
    && (matched > 0 ==> Entry(FlatOf(t), blocks[..matched], Swa) >= 0)
    && NoLiveTailBetween(t, blocks[..longest], matched)
  }

  lemma UsableIsBest(t: Tree, ids: seq<int>, matched: nat, longest: nat, ps: PageSize)
    requires ids != [] && Usable(t, Blocks(ids[..|ids| - 1], ps), matched, longest)
    ensures BestPrefix(t, ids, matched, longest, ps)
  {
    hide NoLiveTailBetween, FlatOf, Blocks, StoredPath, TokensIn, LongestMatch, Entry, WF;
    var n, blocks, key := |ids| - 1, Blocks(ids, ps), Blocks(ids[..|ids| - 1], ps);
    BlocksOfPrefix(ids, n, ps);
    assert key == blocks[..n / ps];
    BlocksWithin(longest, n, ps);
    assert blocks[..longest] == key[..longest] && blocks[..matched] == key[..matched];
    forall k: nat | k <= |blocks| && TokensIn(k, ps) < |ids|
      ensures k <= longest <==> StoredPath(FlatOf(t), blocks[..k])
    {
      BlocksWithin(k, n, ps);
      assert blocks[..k] == key[..k];
      MatchIsAll(FlatOf(t), key, longest, k);
    }
  }

  lemma BlocksWithin(k: nat, n: nat, ps: PageSize)
    ensures TokensIn(k, ps) <= n <==> k <= n / ps
  {
    var d := n / ps - k;
    MulGap(d, ps);
    assert n == n / ps * ps + n % ps;
    assert n / ps * ps == d * ps + k * ps;
  }

  lemma MatchIsAll(f: Flat, key: Path, longest: nat, k: nat)
    requires LongestMatch(f, key, longest) && k <= |key|
    ensures k <= longest <==> StoredPath(f, key[..k])
  {
    if k <= longest {
      forall i | 0 < i <= k ensures key[..k][..i] in f {
        assert key[..k][..i] == key[..longest][..i];
      }
    } else {
      assert key[..k][..longest + 1] == key[..longest + 1];
    }
  }

  /** A locked path that is a prefix of the inserted blocks is part of the match. */
  lemma MatchCoversHandle(f: Flat, blocks: Path, p: Path, matched: nat)
    requires LongestMatch(f, blocks, matched) && StoredPath(f, p) && p <= blocks
    ensures |p| <= matched
  {
    assert blocks[..|p|] == p;
    if matched < |p| {
      NoLongerMatch(f, blocks, matched, |p|);
    }
  }

  lemma CutTail(h: Holder, from: nat, to: nat)
    requires h.handle.cachedLen <= from <= to <= |h.row|
    ensures Cut(Tail(h), h.row[h.handle.cachedLen..from], h.row[from..to], h.row[to..])
  {
  }

  /** The tree takes over the part of a tail that an insertion stored. */
  lemma InsertedOwned(s: Pool, pages: int, idle: multiset<int>, f: Flat, tails: Tails, u: int, h: Holder, blocks: Path,
                      evicted: nat, frontier: nat, from: nat)
    requires u in tails && tails[u] == Tail(h) && Owned(s, pages, idle, f, tails, NOTHING)
    requires h.handle.cachedLen <= from <= |blocks| <= |h.row| && WindowFrom(s.swa.lane.toPage, h, frontier)
    requires evicted <= frontier
    requires (forall j :: 0 <= j < |h.row| ==> h.row[j] >= -1)
    requires SegmentKeys(blocks[..from], blocks[from..]) !! f.Keys
    ensures LanesOk(NewSegment(s, blocks, h.row, evicted, from))
    ensures Owned(s, pages, idle, f + Segment(blocks[..from], NewSegment(s, blocks, h.row, evicted, from)),
              tails[u := h.row[h.handle.cachedLen..from] + h.row[|blocks|..]], NOTHING)
    ensures InHand(s, h.row[from..|blocks|])
  {
    hide Owned;
    var x := NewSegment(s, blocks, h.row, evicted, from);
    OwnedEntries(s, pages, idle, f, tails, NOTHING);
    SegmentFits(s, blocks, h.row, evicted, from);
    SegmentLanes(s, blocks, h, evicted, frontier, from);
    CutTail(h, from, |blocks|);
    var a, b, c := h.row[h.handle.cachedLen..from], h.row[from..|blocks|], h.row[|blocks|..];
    TakeFromTail(s, pages, idle, f, tails, u, a, b, c);
    forall i | 0 <= i < |b| ensures b[i] >= 0 { assert b[i] in b; }
    TreeTakes(s, pages, idle, f, blocks[..from], x, tails[u := a + c]);
  }

  // ----- one request leaves or comes back

  lemma WithoutRequest(toPage: seq<int>, reqs: Holders, paths: map<int, Path>, frontier: map<int, nat>,
                       path: map<Id, Path>, u: int)
    requires AllBound(reqs, paths, path) && FrontiersOk(toPage, reqs, frontier) && u in reqs
    ensures AllBound(reqs - {u}, paths - {u}, path) && FrontiersOk(toPage, reqs - {u}, frontier - {u})
  {
    forall v | v in reqs - {u} ensures Bound((reqs - {u})[v], (paths - {u})[v], path) {
      assert Bound(reqs[v], paths[v], path);
    }
    forall v | v in reqs - {u}
      ensures (frontier - {u})[v] <= |(reqs - {u})[v].row| && WindowFrom(toPage, (reqs - {u})[v], (frontier - {u})[v])
    {
      assert frontier[v] <= |reqs[v].row| && WindowFrom(toPage, reqs[v], frontier[v]);
    }
  }

  lemma BoundAgain(reqs: Holders, paths: map<int, Path>, path: map<Id, Path>, u: int, h: Holder, p: Path)
    requires AllBound(reqs, paths, path) && Bound(h, p, path)
    ensures AllBound(reqs[u := h], paths[u := p], path)
  {
    var all := reqs[u := h];
    forall v | v in all ensures Bound(all[v], paths[u := p][v], path) {
      if v != u { assert Bound(reqs[v], paths[v], path); }
    }
  }

  lemma FrontierAgain(toPage: seq<int>, reqs: Holders, frontier: map<int, nat>, u: int, h: Holder, e: nat)
    requires FrontiersOk(toPage, reqs, frontier) && e <= |h.row| && WindowFrom(toPage, h, e)
    ensures FrontiersOk(toPage, reqs[u := h], frontier[u := e])
  {
    var all := reqs[u := h];
    forall v | v in all
      ensures frontier[u := e][v] <= |all[v].row| && WindowFrom(toPage, all[v], frontier[u := e][v])
    {
      if v != u { assert frontier[v] <= |reqs[v].row| && WindowFrom(toPage, reqs[v], frontier[v]); }
    }
  }

  lemma TailsWithout(reqs: Holders, u: int, t: seq<int>, h: Holder)
    ensures TailsOf(reqs - {u}) == TailsOf(reqs) - {u}
    ensures TailsOf(reqs - {u})[u := t] == TailsOf(reqs)[u := t]
    ensures Tail(h) == t ==> TailsOf((reqs - {u})[u := h]) == TailsOf(reqs)[u := t]
  {
  }

  lemma MapsAgain<V>(m: map<int, V>, u: int, v: V)
    ensures (m - {u})[u := v] == m[u := v]
  {
  }

  lemma FewerTailsKept(before: seq<int>, after: seq<int>, tails: Tails, u: int, t: seq<int>)
    requires TailsKept(before, after, tails[u := t])
    ensures TailsKept(before, after, tails - {u})
  {
    forall v, p | v in tails - {u} && p in (tails - {u})[v] && 0 <= p < |before| ensures after[p] == before[p] {
      assert tails[u := t][v] == tails[v];
    }
  }

  /** A shorter tail at the same place of the row keeps the frontier. */
  lemma FrontierOfRest(before: seq<int>, after: seq<int>, h: Holder, now: Holder, e: nat, tails: Tails, u: int)
    requires WindowFrom(before, h, e) && h.handle.cachedLen <= now.handle.cachedLen <= |now.row| == |h.row|
    requires now.row[now.handle.cachedLen..] == h.row[now.handle.cachedLen..]
    requires u in tails && tails[u] == Tail(now) && TailsKept(before, after, tails)
    ensures WindowFrom(after, now, e)
  {
    forall j | now.handle.cachedLen <= j < |now.row| && 0 <= now.row[j] < |after|
      ensures after[now.row[j]] == -1 <==> j < e
    {
      assert now.row[j] == Tail(now)[j - now.handle.cachedLen];
      assert now.row[j] == h.row[now.handle.cachedLen..][j - now.handle.cachedLen] == h.row[j];
    }
  }

  lemma RequestTail(reqs: Holders, u: int)
    requires u in reqs
    ensures u in TailsOf(reqs) && TailsOf(reqs)[u] == Tail(reqs[u])
  {
  }

  lemma RequestBound(reqs: Holders, paths: map<int, Path>, path: map<Id, Path>, toPage: seq<int>,
                     frontier: map<int, nat>, u: int)
    requires AllBound(reqs, paths, path) && FrontiersOk(toPage, reqs, frontier) && u in reqs
    ensures u in paths && Bound(reqs[u], paths[u], path)
    ensures u in frontier && frontier[u] <= |reqs[u].row| && WindowFrom(toPage, reqs[u], frontier[u])
  {
  }

  lemma BoundExtends(reqs: Holders, paths: map<int, Path>, before: map<Id, Path>, after: map<Id, Path>)
    requires AllBound(reqs, paths, before) && forall n :: n in before ==> n in after && after[n] == before[n]
    ensures AllBound(reqs, paths, after)
  {
    forall u | u in reqs ensures Bound(reqs[u], paths[u], after) {
      assert Bound(reqs[u], paths[u], before);
    }
  }

  lemma HandleStored(t: Tree, locked: multiset<Path>, counter: Id, ev: int, pr: int, n: Id)
    requires CacheInv(t, locked, counter, ev, pr) && n in t.path
    ensures n in t.nodes && StoredPath(FlatOf(t), t.path[n]) && [] !in FlatOf(t) && CellsOk(FlatOf(t))
  {
    NodePathStored(t, n);
    TreePrefixClosed(t);
    TreeCellsOk(t);
  }

  lemma UpdatedTwice<V>(m: map<int, V>, u: int, a: V, b: V)
    ensures m[u := a][u := b] == m[u := b]
  {
  }

  /** A request gives up the front of its tail. */
  lemma TakeFront(s: Pool, pages: int, idle: multiset<int>, f: Flat, tails: Tails, u: int, b: seq<int>, c: seq<int>)
    requires Owned(s, pages, idle, f, tails[u := b + c], NOTHING)
    ensures Owned(s, pages, idle, f, tails[u := c], WithLanes(s, b))
  {
    hide Owned;
    assert [] + b + c == b + c && [] + c == c;
    TakeFromTail(s, pages, idle, f, tails[u := b + c], u, [], b, c);
    UpdatedTwice(tails, u, b + c, c);
  }

  lemma TailGone(s: Pool, pages: int, idle: multiset<int>, f: Flat, tails: Tails, u: int)
    requires Owned(s, pages, idle, f, tails[u := []], NOTHING)
    ensures Owned(s, pages, idle, f, tails - {u}, NOTHING)
  {
    hide Owned;
    MapsAgain(tails, u, []);
    EmptyTail(s, pages, idle, f, tails - {u}, NOTHING, u);
  }

  // ----- the stored map after a forward is cached

  /** The full pages that the first `k` blocks of a path still have. */
  ghost function HeadPages(f: Flat, p: Path, k: nat): seq<int> {
    if k <= |PagesAlong(f, p, Full)| then NonNegative(PagesAlong(f, p, Full)[..k]) else []
  }

  /** Blocks in front of the last `tail` of `n`. */
  function BeforeLast(n: nat, tail: nat): nat {
    if n <= tail then 0 else n - tail
  }

  /** `g` is `f` with the blocks of a request added and with the window pages of its
      first `swaCut` and the full pages of its first `fullCut` blocks released. */
  ghost predicate Settled(f: Flat, g: Flat, blocks: Path, row: seq<int>, toPage: seq<int>, swaCut: nat, fullCut: nat) {
    && |blocks| <= |row|
    && (forall q :: q in g <==> q in f || (q != [] && IsPrefix(q, blocks)))
    && (forall q :: q in f && !IsPrefix(q, blocks) ==> g[q] == f[q])
    && (forall q, l: Lane :: q in f && IsPrefix(q, blocks) ==>
          Entry(g, q, l) == if (l == Swa && |q| <= swaCut) || (l == Full && |q| <= fullCut) then -1 else Entry(f, q, l))
    && (forall q :: q in g && q !in f ==>
         0 < |q| <= |blocks| && Entry(g, q, Full) == if |q| <= fullCut then -1 else row[|q| - 1])
    && (forall q :: q in g && q !in f ==>
         0 < |q| <= |blocks| && Entry(g, q, Swa) == if |q| <= swaCut then -1 else PageOf(toPage, row[|q| - 1]))
  }

  /** Of the stored blocks only the last `tail` have a window page, and only the last one has a
      full page. */
  ghost predicate OnlyTailKept(g: Flat, blocks: Path, tail: nat) {
    && (forall q :: q in g && IsPrefix(q, blocks) && |q| + tail <= |blocks| ==> Entry(g, q, Swa) < 0)
    && (forall q :: q in g && IsPrefix(q, blocks) && |q| < |blocks| ==> Entry(g, q, Full) < 0)
  }

  lemma SettledTail(f: Flat, g: Flat, blocks: Path, row: seq<int>, toPage: seq<int>, tail: nat)
    requires Settled(f, g, blocks, row, toPage, BeforeLast(|blocks|, tail), BeforeLast(|blocks|, 1))
    ensures OnlyTailKept(g, blocks, tail)
  {
  }

  lemma SettledStores(f: Flat, g: Flat, blocks: Path, row: seq<int>, toPage: seq<int>, swaCut: nat, fullCut: nat)
    requires |blocks| <= |row| && Settled(f, g, blocks, row, toPage, swaCut, fullCut)
    ensures StoredPath(g, blocks)
  {
  }

  /** What a map gives for a page. */
  function PageOf(toPage: seq<int>, p: int): int {
    if 0 <= p < |toPage| then toPage[p] else -1
  }

  lemma SegmentDomain(f: Flat, blocks: Path, m: nat, x: Node, q: Path)
    requires m <= |blocks| && LanesOk(x) && x.key == blocks[m..] && StoredPath(f, blocks[..m])
    requires SegmentKeys(blocks[..m], x.key) !! f.Keys
    ensures q in Segment(blocks[..m], x) <==> m < |q| && IsPrefix(q, blocks)
    ensures q != [] && IsPrefix(q, blocks) && |q| <= m ==> q in f
    ensures q in f && IsPrefix(q, blocks) ==> |q| <= m
  {
    SegmentKey(blocks[..m], x.key, q);
    assert blocks[..m] + blocks[m..] == blocks;
    if q != [] && IsPrefix(q, blocks) && |q| <= m {
      assert q == blocks[..m][..|q|];
    }
  }

  ghost predicate Released(e: Flat, g: Flat, p: Path, swaCut: nat, fullCut: nat) {
    && g.Keys == e.Keys && (forall q :: q in e && !IsPrefix(q, p) ==> g[q] == e[q])
    && (forall q, l: Lane :: q in e && IsPrefix(q, p) ==>
          Entry(g, q, l) == if (l == Swa && |q| <= swaCut) || (l == Full && |q| <= fullCut) then -1 else Entry(e, q, l))
  }

  lemma TwiceReleased(e: Flat, p: Path, a: nat, b: nat)
    ensures Released(e, ReleaseAlong(ReleaseAlong(e, p, a, Swa), p, b, Full), p, a, b)
  {
  }

  /** `e` is `f` with all blocks stored; the new cells hold the request's pages and the
      window pages these are mapped to. */
  ghost predicate Joined(f: Flat, e: Flat, blocks: Path, row: seq<int>, toPage: seq<int>) {
    && |blocks| <= |row|
    && (forall q :: q in e <==> q in f || (q != [] && IsPrefix(q, blocks)))
    && (forall q :: q in f ==> e[q] == f[q])
    && (forall q :: q in e && q !in f ==> 0 < |q| <= |blocks| && Entry(e, q, Full) == row[|q| - 1])
    && (forall q :: q in e && q !in f ==> 0 < |q| <= |blocks| && Entry(e, q, Swa) == PageOf(toPage, row[|q| - 1]))
  }

  lemma SegmentJoined(f: Flat, blocks: Path, m: nat, x: Node, row: seq<int>, toPage: seq<int>)
    requires m <= |blocks| <= |row| && LanesOk(x) && x.key == blocks[m..] && x.lanes[Full] == row[m..|blocks|]
    requires x.lanes[Swa] == Mapped(toPage, row[m..|blocks|])
    requires StoredPath(f, blocks[..m]) && SegmentKeys(blocks[..m], x.key) !! f.Keys
    ensures Joined(f, f + Segment(blocks[..m], x), blocks, row, toPage)
  {
    var e := f + Segment(blocks[..m], x);
    forall q ensures q in e <==> q in f || (q != [] && IsPrefix(q, blocks)) {
      SegmentDomain(f, blocks, m, x, q);
    }
    forall q | q in e && q !in f
      ensures 0 < |q| <= |blocks| && Entry(e, q, Full) == row[|q| - 1]
      ensures Entry(e, q, Swa) == PageOf(toPage, row[|q| - 1])
    {
      SegmentRow(blocks, m, x, row, toPage, q);
    }
  }

  lemma SegmentRow(blocks: Path, m: nat, x: Node, row: seq<int>, toPage: seq<int>, q: Path)
    requires m <= |blocks| <= |row| && LanesOk(x) && x.key == blocks[m..] && x.lanes[Full] == row[m..|blocks|]
    requires x.lanes[Swa] == Mapped(toPage, row[m..|blocks|])
    requires q in Segment(blocks[..m], x)
    ensures m < |q| <= |blocks| && Entry(Segment(blocks[..m], x), q, Full) == row[|q| - 1]
    ensures Entry(Segment(blocks[..m], x), q, Swa) == PageOf(toPage, row[|q| - 1])
  {
    hide Segment, Entry;
    assert exists k :: 0 < k <= |x.key| && q == blocks[..m] + x.key[..k] by { SegmentIndex(blocks[..m], x, q); }
    var k :| 0 < k <= |x.key| && q == blocks[..m] + x.key[..k];
    SegmentEntry(blocks[..m], x, Full, k - 1);
    SegmentEntry(blocks[..m], x, Swa, k - 1);
    assert row[m..|blocks|][k - 1] == row[m + k - 1];
  }

  lemma SegmentIndex(base: Path, x: Node, q: Path)
    requires LanesOk(x) && q in Segment(base, x)
    ensures exists k :: 0 < k <= |x.key| && q == base + x.key[..k]
  {
  }

  lemma SettledAfter(f: Flat, e: Flat, g: Flat, blocks: Path, row: seq<int>, toPage: seq<int>, swaCut: nat,
                     fullCut: nat)
    requires |blocks| <= |row| && Joined(f, e, blocks, row, toPage) && Released(e, g, blocks, swaCut, fullCut)
    requires [] !in f
    ensures Settled(f, g, blocks, row, toPage, swaCut, fullCut)
  {
  }

  lemma NewKeysApart(f: Flat, blocks: Path, m: nat, key: Path)
    requires LongestMatch(f, blocks, m) && PrefixClosed(f) && key == blocks[m..]
    ensures SegmentKeys(blocks[..m], key) !! f.Keys && [] !in f && StoredPath(f, blocks[..m])
  {
    forall q | q in SegmentKeys(blocks[..m], key) ensures q !in f {
      SegmentKey(blocks[..m], key, q);
      assert blocks[..m] + blocks[m..] == blocks;
      LongestMatchIsLongest(f, blocks, m, |q|);
      assert q == blocks[..|q|];
    }
  }

  lemma WholeBlocks(n: nat, ps: nat)
    requires ps > 0
    ensures n / ps <= Ceil(n, ps)
  {
    DivMonotone(n, n + ps - 1, ps);
  }

  lemma DivMonotone(a: nat, b: nat, ps: nat)
    requires ps > 0 && a <= b
    ensures a / ps <= b / ps
  {
    var d := b / ps - a / ps;
    assert d * ps == b - b % ps - (a - a % ps);
    MulGap(d, ps);
  }

  // ----- rewriting the locked part of a row

  lemma NewFront(reqs: Holders, paths: map<int, Path>, path: map<Id, Path>, toPage: seq<int>, frontier: map<int, nat>,
                 u: int, front: seq<int>)
    requires AllBound(reqs, paths, path) && FrontiersOk(toPage, reqs, frontier) && u in reqs
    requires |front| == reqs[u].handle.cachedLen && forall j :: 0 <= j < |front| ==> front[j] >= -1
    ensures |front| <= |reqs[u].row|
    ensures var now := reqs[u].(row := front + reqs[u].row[|front|..]);
            && AllBound(reqs[u := now], paths, path) && FrontiersOk(toPage, reqs[u := now], frontier)
            && TailsOf(reqs[u := now]) == TailsOf(reqs)
  {
    RequestBound(reqs, paths, path, toPage, frontier, u);
    var now := reqs[u].(row := front + reqs[u].row[|front|..]);
    BoundAgain(reqs, paths, path, u, now, paths[u]);
    assert paths[u := paths[u]] == paths && frontier[u := frontier[u]] == frontier;
    assert Tail(now) == Tail(reqs[u]);
    assert WindowFrom(toPage, now, frontier[u]);
    FrontierAgain(toPage, reqs, frontier, u, now, frontier[u]);
  }

  lemma FlatClosed(t: Tree, locked: multiset<Path>, counter: Id, ev: int, pr: int)
    requires CacheInv(t, locked, counter, ev, pr)
    ensures PrefixClosed(FlatOf(t)) && [] !in FlatOf(t)
  {
    TreePrefixClosed(t);
  }

  lemma NewSegmentJoined(f: Flat, s: Pool, blocks: Path, row: seq<int>, evicted: nat, m: nat)
    requires m <= |blocks| <= |row| && LongestMatch(f, blocks, m) && PrefixClosed(f)
    requires LanesOk(NewSegment(s, blocks, row, evicted, m))
    requires NewSegment(s, blocks, row, evicted, m).lanes[Swa] == Mapped(s.swa.lane.toPage, row[m..|blocks|])
    ensures Joined(f, f + Segment(blocks[..m], NewSegment(s, blocks, row, evicted, m)), blocks, row, s.swa.lane.toPage)
  {
    var x := NewSegment(s, blocks, row, evicted, m);
    NewKeysApart(f, blocks, m, x.key);
    SegmentJoined(f, blocks, m, x, row, s.swa.lane.toPage);
  }

  // ----- window pages behind an active request

  /** The own pages of all requests without blocks `from..to` of request `u`. */
  ghost function TailsBut(reqs: Holders, u: int, from: nat, to: nat): Tails {
    if u in reqs && reqs[u].handle.cachedLen <= from <= to <= |reqs[u].row| then
      TailsOf(reqs)[u := reqs[u].row[reqs[u].handle.cachedLen..from] + reqs[u].row[to..]]
    else TailsOf(reqs)
  }

  /** The window pages of a request's own pages from block `from` on are untouched. */
  ghost predicate KeptFrom(before: seq<int>, after: seq<int>, h: Holder, from: nat) {
    && |after| == |before|
    && forall j :: Max(h.handle.cachedLen, from) <= j < |h.row| && 0 <= h.row[j] < |before| ==>
         after[h.row[j]] == before[h.row[j]]
  }

  lemma RestOfTailKept(before: seq<int>, after: seq<int>, reqs: Holders, u: int, from: nat, to: nat)
    requires u in reqs && reqs[u].handle.cachedLen <= from <= to <= |reqs[u].row|
    requires TailsKept(before, after, TailsBut(reqs, u, from, to))
    ensures KeptFrom(before, after, reqs[u], to)
  {
    var t, h := TailsBut(reqs, u, from, to), reqs[u];
    forall j | to <= j < |h.row| && 0 <= h.row[j] < |before| ensures after[h.row[j]] == before[h.row[j]] {
      assert h.row[j] == h.row[to..][j - to];
      assert h.row[j] in t[u];
    }
  }

  lemma OthersKept(before: seq<int>, after: seq<int>, reqs: Holders, u: int, from: nat, to: nat)
    requires TailsKept(before, after, TailsBut(reqs, u, from, to))
    ensures TailsKept(before, after, TailsOf(reqs) - {u})
  {
    var t := TailsBut(reqs, u, from, to);
    forall v, p | v in TailsOf(reqs) - {u} && p in (TailsOf(reqs) - {u})[v] && 0 <= p < |before|
      ensures after[p] == before[p]
    {
      assert t[v] == TailsOf(reqs)[v];
    }
  }

  /** Releasing blocks `from..to` of its own pages moves the frontier of a request. */
  lemma FrontierMoves(before: seq<int>, after: seq<int>, h: Holder, e: nat, from: nat, to: nat, seen: nat)
    requires WindowFrom(before, h, e) && |after| == |before| && to <= |h.row| && from <= to
    requires from == h.handle.cachedLen || (from <= seen && seen <= e)
    requires forall p :: p in h.row[from..to] ==> 0 <= p < |after| && after[p] == -1
    requires forall p :: 0 <= p < |before| && before[p] == -1 ==> after[p] == -1
    requires KeptFrom(before, after, h, to)
    ensures WindowFrom(after, h, Max(e, to))
  {
    forall j | h.handle.cachedLen <= j < |h.row| && 0 <= h.row[j] < |after|
      ensures after[h.row[j]] == -1 <==> j < Max(e, to)
    {
      if from <= j < to {
        assert h.row[j] == h.row[from..to][j - from];
      }
    }
  }

  lemma OthersMove(before: seq<int>, after: seq<int>, reqs: Holders, frontier: map<int, nat>, u: int, from: nat,
                   to: nat, e: nat)
    requires FrontiersOk(before, reqs, frontier) && u in reqs && TailsKept(before, after, TailsBut(reqs, u, from, to))
    requires e <= |reqs[u].row| && WindowFrom(after, reqs[u], e)
    ensures FrontiersOk(after, reqs, frontier[u := e])
  {
    var t := TailsBut(reqs, u, from, to);
    forall v | v in reqs
      ensures frontier[u := e][v] <= |reqs[v].row| && WindowFrom(after, reqs[v], frontier[u := e][v])
    {
      if v != u {
        assert frontier[v] <= |reqs[v].row| && WindowFrom(before, reqs[v], frontier[v]);
        assert t[v] == Tail(reqs[v]);
        FrontierKept(before, after, reqs[v], frontier[v], t, v);
      }
    }
  }

  /** Blocks in front of the window and one more page. */
  function ActiveBlocks(deviceLen: nat, window: nat, ps: PageSize): nat {
    PagesIn(if deviceLen >= window + ps then deviceLen - window - ps else 0, ps)
  }

  /** The remembered frontier after a window release: behind what was released before, the
      stored prefix and the window, whichever is furthest. */
  function WindowEnd(deviceLen: nat, evicted: nat, cachedLen: nat, window: nat, ps: PageSize): nat {
    if ActiveBlocks(deviceLen, window, ps) > Max(PagesIn(evicted, ps), cachedLen)
      then TokensIn(ActiveBlocks(deviceLen, window, ps), ps) else evicted
  }

  lemma WholeTokens(n: nat, ps: PageSize)
    ensures PagesIn(TokensIn(n, ps), ps) == n
  {
    DivUnique(n * ps, ps, n, 0);
  }

  lemma ActiveEnd(deviceLen: nat, window: nat, ps: PageSize, blocks: nat)
    requires Ceil(deviceLen, ps) <= blocks + 1
    ensures ActiveBlocks(deviceLen, window, ps) <= blocks
    ensures ActiveBlocks(deviceLen, window, ps) > 0 ==>
      TokensIn(ActiveBlocks(deviceLen, window, ps), ps) + window + ps <= deviceLen
  {
    var m := if deviceLen >= window + ps then deviceLen - window - ps else 0;
    if m > 0 {
      DivStep(m + ps, ps);
      DivMonotone(m + ps, deviceLen + ps - 1, ps);
    } else {
      DivSmall(0, ps);
    }
  }

  /** Block `kept`, the first one that may still have its window page, ends less than a window
      and a page in front of `end`. */
  predicate Trimmed(kept: nat, end: int, window: nat, ps: PageSize) {
    TokensIn(kept + 1, ps) + window + ps > end
  }

  lemma ActiveReaches(deviceLen: nat, window: nat, ps: PageSize, kept: nat)
    requires ActiveBlocks(deviceLen, window, ps) <= kept
    ensures Trimmed(kept, deviceLen, window, ps)
  {
    var n := ActiveBlocks(deviceLen, window, ps);
    MulGap(kept - n, ps);
    assert (kept + 1) * ps == (kept - n) * ps + n * ps + ps;
    if deviceLen >= window + ps {
      var m := deviceLen - window - ps;
      assert m == m / ps * ps + m % ps;
    }
  }

  lemma TrimmedMore(kept: nat, end: int, more: nat, front: int, window: nat, ps: PageSize)
    requires Trimmed(kept, end, window, ps) && kept <= more && front <= end
    ensures Trimmed(more, front, window, ps)
  {
    MulGap(more - kept, ps);
    assert (more + 1) * ps == (more - kept) * ps + (kept + 1) * ps;
  }

  /** The request has no window page left in its own blocks that end a window and a page or
      more in front of `end`. */
  ghost predicate NoneLeftBehind(toPage: seq<int>, h: Holder, end: int, window: nat, ps: PageSize) {
    forall j :: h.handle.cachedLen <= j < |h.row| && TokensIn(j + 1, ps) + window + ps <= end ==>
      0 <= h.row[j] < |toPage| && toPage[h.row[j]] == -1
  }

  lemma BlockTrimmed(j: nat, kept: nat, end: int, window: nat, ps: PageSize)
    requires Trimmed(kept, end, window, ps) && TokensIn(j + 1, ps) + window + ps <= end
    ensures j < kept
  {
    if j >= kept {
      TrimmedMore(kept, end, j, end, window, ps);
    }
  }

  /** All positions in front of block `blocks` lie below the attention window of a forward
      whose first position is `from`: its query at `from` sees `window` positions. */
  ghost predicate OutOfWindow(blocks: nat, from: int, window: nat, ps: PageSize) {
    blocks == 0 || TokensIn(blocks, ps) + window <= from + 1
  }

  /** Position `q` lies in one of the request's own pages, and its window page changes
      hands. */
  ghost predicate LosesAt(before: seq<int>, after: seq<int>, h: Holder, q: nat, ps: PageSize) {
    var j := PagesIn(q, ps);
    h.handle.cachedLen <= j < |h.row| && 0 <= h.row[j] < |before| == |after| && after[h.row[j]] != before[h.row[j]]
  }

  /** All positions that lose their window page lie below the attention window of a forward
      whose first position is `from`. */
  ghost predicate ReleasedBelow(before: seq<int>, after: seq<int>, h: Holder, from: int, window: nat, ps: PageSize) {
    |after| == |before| && forall q: nat :: LosesAt(before, after, h, q, ps) ==> q + window <= from
  }

  lemma PositionInBlock(q: nat, blocks: nat, ps: PageSize)
    requires PagesIn(q, ps) < blocks
    ensures q < TokensIn(blocks, ps)
  {
    MulGap(blocks - PagesIn(q, ps) - 1, ps);
    assert blocks * ps == (blocks - PagesIn(q, ps) - 1) * ps + PagesIn(q, ps) * ps + ps;
    assert q == PagesIn(q, ps) * ps + q % ps;
  }

  /** What a release takes lies between the earlier frontier and the new one. */
  lemma ReleasedIsBelow(before: seq<int>, after: seq<int>, h: Holder, was: nat, now: nat, kept: nat, from: int,
                        window: nat, ps: PageSize)
    requires WindowFrom(before, h, was) && WindowFrom(after, h, now) && KeptFrom(before, after, h, kept) && kept <= now
    requires now == was || OutOfWindow(now, from, window, ps)
    ensures ReleasedBelow(before, after, h, from, window, ps)
  {
    hide PagesIn, TokensIn;
    forall q: nat | LosesAt(before, after, h, q, ps) ensures q + window <= from {
      var j := PagesIn(q, ps);
      assert after[h.row[j]] == -1 <==> j < now;
      assert before[h.row[j]] == -1 <==> j < was;
      PositionInBlock(q, now, ps);
    }
  }

  // ----- the window after a prompt is stored

  /** The window page behind block `j` before the blocks are stored: that of the tree's cell
      if there is one, otherwise the request's own. */
  ghost function WindowBefore(f: Flat, blocks: Path, row: seq<int>, toPage: seq<int>, j: nat): int
    requires j < |blocks| <= |row|
  {
    if blocks[..j + 1] in f then Entry(f, blocks[..j + 1], Swa) else PageOf(toPage, row[j])
  }

  /** Position `q` of the stored blocks has a window page before and none afterwards. */
  ghost predicate StoreLosesAt(f: Flat, g: Flat, blocks: Path, row: seq<int>, toPage: seq<int>, q: nat, ps: PageSize) {
    var j := PagesIn(q, ps);
    j < |blocks| <= |row| && WindowBefore(f, blocks, row, toPage, j) >= 0 && Entry(g, blocks[..j + 1], Swa) < 0
  }

  /** A stored block has a window page exactly if it had one and lies behind the cut.  A block
      that the tree had without its window page stays without, whatever the request owned. */
  lemma StoredWindow(f: Flat, g: Flat, blocks: Path, row: seq<int>, toPage: seq<int>, swaCut: nat, fullCut: nat, j: nat)
    requires j < |blocks| <= |row| && Settled(f, g, blocks, row, toPage, swaCut, fullCut)
    ensures blocks[..j + 1] in g
    ensures Entry(g, blocks[..j + 1], Swa) >= 0 <==> swaCut <= j && WindowBefore(f, blocks, row, toPage, j) >= 0
  {
    var c := blocks[..j + 1];
    assert IsPrefix(c, blocks) && |c| == j + 1;
    assert c in g;
  }

  /** Storing a prompt takes nothing that a forward starting at `at` or later attends to. */
  lemma StoreSpares(f: Flat, g: Flat, blocks: Path, row: seq<int>, toPage: seq<int>, tail: nat, fullCut: nat,
                    window: nat, ps: PageSize, cached: nat, at: nat)
    requires |blocks| <= |row| && Settled(f, g, blocks, row, toPage, BeforeLast(|blocks|, tail), fullCut)
    requires tail == Ceil(Max(window, 1), ps) + 1 && TokensIn(|blocks|, ps) <= cached <= at + 1
    ensures forall q: nat :: StoreLosesAt(f, g, blocks, row, toPage, q, ps) ==> q + window <= at
  {
    forall q: nat | StoreLosesAt(f, g, blocks, row, toPage, q, ps) ensures q + window <= at {
      StoredWindow(f, g, blocks, row, toPage, BeforeLast(|blocks|, tail), fullCut, PagesIn(q, ps));
      BehindTail(q, |blocks|, tail, window, ps);
    }
  }

  lemma BehindTail(q: nat, blocks: nat, tail: nat, window: nat, ps: PageSize)
    requires tail == Ceil(Max(window, 1), ps) + 1 && PagesIn(q, ps) < BeforeLast(blocks, tail)
    ensures q + window + ps < TokensIn(blocks, ps)
  {
    hide PagesIn;
    var n, cut := Max(window, 1) + ps - 1, blocks - tail;
    PositionInBlock(q, cut, ps);
    assert n == n / ps * ps + n % ps;
    assert blocks * ps == cut * ps + tail * ps;
    assert tail * ps == n / ps * ps + ps;
  }

  // ----- the window of other requests after a prompt is stored

  /** A forward that starts at `from` attends to position `q` of a stored path. */
  predicate Attended(p: Path, q: nat, from: nat, window: nat, ps: PageSize) {
    q < from < q + window && PagesIn(q, ps) < |p|
  }

  ghost predicate WindowLive(f: Flat, p: Path, from: nat, window: nat, ps: PageSize) {
    forall q: nat :: Attended(p, q, from, window, ps) ==> Entry(f, p[..PagesIn(q, ps) + 1], Swa) >= 0
  }

  /** The stored blocks run through the block where the window begins and end so far behind it
      that it is not in their kept tail. */
  predicate CutsInto(p: Path, blocks: Path, swaCut: nat, from: nat, window: nat, ps: PageSize) {
    var q := if from + 1 <= window then 0 else from + 1 - window;
    Attended(p, q, from, window, ps) && PagesIn(q, ps) < swaCut && IsPrefix(p[..PagesIn(q, ps) + 1], blocks)
  }

  lemma CellAfter(f: Flat, g: Flat, blocks: Path, row: seq<int>, toPage: seq<int>, swaCut: nat, fullCut: nat, c: Path)
    requires Settled(f, g, blocks, row, toPage, swaCut, fullCut) && c in f && Entry(f, c, Swa) >= 0
    ensures Entry(g, c, Swa) < 0 <==> |c| <= swaCut && IsPrefix(c, blocks)
  {
    assert c in g;
  }

  /** A lock does not protect window pages: storing the blocks of one request leaves the window
      of another whole exactly if it does not cut into it. */
  lemma StoreTakesFromOthers(f: Flat, g: Flat, blocks: Path, row: seq<int>, toPage: seq<int>, swaCut: nat,
                             fullCut: nat, p: Path, from: nat, window: nat, ps: PageSize)
    requires Settled(f, g, blocks, row, toPage, swaCut, fullCut) && StoredPath(f, p)
    requires WindowLive(f, p, from, window, ps)
    ensures WindowLive(g, p, from, window, ps) <==> !CutsInto(p, blocks, swaCut, from, window, ps)
  {
    hide PagesIn, Settled, Entry;
    var first := if from + 1 <= window then 0 else from + 1 - window;
    if CutsInto(p, blocks, swaCut, from, window, ps) {
      assert Attended(p, first, from, window, ps);
      CellAfter(f, g, blocks, row, toPage, swaCut, fullCut, p[..PagesIn(first, ps) + 1]);
    } else {
      forall q: nat | Attended(p, q, from, window, ps) ensures Entry(g, p[..PagesIn(q, ps) + 1], Swa) >= 0 {
        var c := p[..PagesIn(q, ps) + 1];
        CellAfter(f, g, blocks, row, toPage, swaCut, fullCut, c);
        FirstBlock(first, q, ps);
        assert p[..PagesIn(first, ps) + 1] == c[..PagesIn(first, ps) + 1];
      }
    }
  }

  /** A cache that holds just these blocks; block `i` has the pages `i`, as far as they have
      not been released. */
  function Holding(blocks: Path, swaCut: nat, fullCut: nat): Flat {
    map q | q in (set n | 0 < n <= |blocks| :: blocks[..n]) ::
      map[Full := if |q| <= fullCut then -1 else |q| - 1, Swa := if |q| <= swaCut then -1 else |q| - 1]
  }

  function Counting(n: nat): seq<int> {
    seq(n, i => i)
  }

  lemma HoldingSettles(p: Path, blocks: Path, swaCut: nat, fullCut: nat)
    requires p <= blocks
    ensures Settled(Holding(p, 0, 0), Holding(blocks, swaCut, fullCut), blocks, Counting(|blocks|), Counting(|blocks|),
      swaCut, fullCut)
  {
    hide Holding, Entry, IsPrefix;
    PrefixesWithin(p, blocks);
    HoldingPrefixes(p, 0, 0);
    HoldingPrefixes(blocks, swaCut, fullCut);
    HoldingEntries(p, 0, 0);
    HoldingEntries(blocks, swaCut, fullCut);
  }

  lemma PrefixesWithin(p: Path, blocks: Path)
    requires p <= blocks
    ensures forall q :: IsPrefix(q, p) ==> IsPrefix(q, blocks)
    ensures forall q :: IsPrefix(q, blocks) ==> |q| <= |blocks|
  {
  }

  lemma HoldingEntries(blocks: Path, swaCut: nat, fullCut: nat)
    ensures forall q, l: Lane :: q in Holding(blocks, swaCut, fullCut) ==>
              Entry(Holding(blocks, swaCut, fullCut), q, l)
              == if (l == Swa && |q| > swaCut) || (l == Full && |q| > fullCut) then |q| - 1 else -1
  {
  }

  lemma HoldingPrefixes(blocks: Path, swaCut: nat, fullCut: nat)
    ensures forall q :: q in Holding(blocks, swaCut, fullCut) <==> q != [] && IsPrefix(q, blocks)
  {
    forall q | q != [] && IsPrefix(q, blocks) ensures q in Holding(blocks, swaCut, fullCut) {
      assert q == blocks[..|q|];
    }
  }

  /** With pages of one token and a window of two: a request has locked the stored block `[7]`
      and its next forward attends to it, when another request stores four blocks that begin
      with it. */
  lemma SharedPrefixLoses()
    ensures var p: Path, blocks: Path, cut := [[7]], [[7], [8], [9], [10]], BeforeLast(4, Ceil(2, 1) + 1);
            && Settled(Holding(p, 0, 0), Holding(blocks, cut, BeforeLast(4, 1)), blocks, Counting(4), Counting(4), cut,
                 BeforeLast(4, 1))
            && StoredPath(Holding(p, 0, 0), p) && WindowLive(Holding(p, 0, 0), p, 1, 2, 1)
            && !WindowLive(Holding(blocks, cut, BeforeLast(4, 1)), p, 1, 2, 1)
  {
    hide Settled, Holding;
    var p: Path, blocks: Path, cut := [[7]], [[7], [8], [9], [10]], BeforeLast(4, Ceil(2, 1) + 1);
    assert p == blocks[..1];
    HoldingSettles(p, blocks, cut, BeforeLast(4, 1));
    HoldingLive(p, 1, 2, 1);
    StoreTakesFromOthers(Holding(p, 0, 0), Holding(blocks, cut, BeforeLast(4, 1)), blocks, Counting(4), Counting(4),
      cut, BeforeLast(4, 1), p, 1, 2, 1);
    assert Attended(p, 0, 1, 2, 1) && p[..1] == p;
  }

  lemma HoldingLive(p: Path, from: nat, window: nat, ps: PageSize)
    ensures StoredPath(Holding(p, 0, 0), p) && WindowLive(Holding(p, 0, 0), p, from, window, ps)
  {
    hide PagesIn;
    HoldingPrefixes(p, 0, 0);
    forall q: nat | Attended(p, q, from, window, ps)
      ensures Entry(Holding(p, 0, 0), p[..PagesIn(q, ps) + 1], Swa) >= 0
    {
      assert IsPrefix(p[..PagesIn(q, ps) + 1], p);
    }
  }

  lemma FirstBlock(a: nat, b: nat, ps: PageSize)
    requires a <= b
    ensures PagesIn(a, ps) <= PagesIn(b, ps)
  {
    DivMonotone(a, b, ps);
  }

  /** A request's own pages are pages of the pool. */
  lemma OwnPageKnown(s: Pool, pages: int, idle: multiset<int>, f: Flat, reqs: Holders, u: int, j: nat)
    requires Owned(s, pages, idle, f, TailsOf(reqs), NOTHING) && u in reqs
    requires reqs[u].handle.cachedLen <= j < |reqs[u].row|
    ensures 0 <= reqs[u].row[j] < |s.swa.lane.toPage| && s.swa.lane.toPage[reqs[u].row[j]] >= -1
  {
    hide FullInv, ComponentInv, PoolOk, RefsOk, CountsOk, LaneBagInv, Coupled;
    assert reqs[u].row[j] == Tail(reqs[u])[j - reqs[u].handle.cachedLen];
    assert TailsOf(reqs)[u] == Tail(reqs[u]);
    TailPage(pages, idle, f, TailsOf(reqs), NOTHING.full, u, reqs[u].row[j]);
  }

  lemma BelowLater(before: seq<int>, after: seq<int>, h: Holder, from: int, later: int, window: nat, ps: PageSize)
    requires ReleasedBelow(before, after, h, from, window, ps) && from <= later
    ensures ReleasedBelow(before, after, h, later, window, ps)
  {
  }

  lemma NewRequest(reqs: Holders, paths: map<int, Path>, frontier: map<int, nat>, path: map<Id, Path>, toPage: seq<int>,
                   u: int, h: Holder, p: Path)
    requires AllBound(reqs, paths, path) && FrontiersOk(toPage, reqs, frontier) && u !in reqs
    requires Bound(h, p, path) && |h.row| == |p|
    ensures AllBound(reqs[u := h], paths[u := p], path) && FrontiersOk(toPage, reqs[u := h], frontier[u := 0])
    ensures TailsOf(reqs[u := h]) == TailsOf(reqs)[u := []] && u !in TailsOf(reqs) && u !in paths
  {
    BoundAgain(reqs, paths, path, u, h, p);
    FrontierAgain(toPage, reqs, frontier, u, h, 0);
    assert Tail(h) == [];
  }

  lemma {:induction false} NoneReferenced(full: seq<int>, from: nat, n: nat)
    requires from <= n <= |full| && forall p :: from <= p < |full| ==> full[p] == 0
    ensures Referenced(full, n) == Referenced(full, from)
    decreases n
  {
    if n > from {
      NoneReferenced(full, from, n - 1);
    }
  }

  /** Free pages and pages in use add up to all pages. */
  lemma LiveAndFree(s: Pool, pages: nat, free: seq<int>, f: Flat, tails: Tails)
    requires Owned(s, pages, multiset(free) + multiset([]), f, tails, NOTHING)
    ensures |free| + Referenced(s.full, |s.full|) == pages
  {
    var idle, none: seq<int> := multiset(free) + multiset([]), [];
    assert multiset(free + none) == idle;
    FreeInOrder(pages, free, f, tails);
    forall p | 0 <= p < pages ensures s.full[p] == if p in free then 0 else 1 {
      assert p in idle <==> p in free;
    }
    var l := PoolLane([], s.full, free);
    LivePagesCounted(l, pages);
    NoneReferenced(s.full, pages, |s.full|);
  }

  /** When no request holds a row, every page is free or in the tree. */
  lemma FreeOrStored(s: Pool, pages: nat, free: seq<int>, f: Flat)
    requires Owned(s, pages, multiset(free) + multiset([]), f, map[], NOTHING)
    ensures |free| + |Live(LaneBag(f, Full))| == pages
    ensures Least(|s.c4.free|, Least(|s.c128.free|, |s.indexer.free|)) + |f| >= pages
  {
    hide PoolOk, RefsOk, Coupled, Placed, CountsOk, TailsMapped;
    var none: seq<int> := [];
    assert TailBags(map[]) == map[] && multiset(free) + multiset(none) == multiset(free);
    PageCount(pages);
    LaneFreeOrStored(C4, s.c4, f);
    LaneFreeOrStored(C128, s.c128, f);
    LaneFreeOrStored(Indexer, s.indexer, f);
  }

  lemma LaneFreeOrStored(lane: Lane, l: PoolLane, f: Flat)
    requires LaneBagInv(lane, l, |l.refs|, f, map[], multiset{})
    ensures |l.free| + |f| >= |l.refs|
  {
    assert MappedBags(l.toPage, map[]) == map[];
    PageCount(|l.refs|);
    LiveAtMost(f, lane);
  }

  lemma {:induction false} PageCount(n: nat)
    ensures |Pages(n)| == n
  {
    if n > 0 {
      PageCount(n - 1);
    }
  }

  lemma FreeInOrder(pages: nat, free: seq<int>, f: Flat, tails: Tails)
    requires FullInv(pages, multiset(free) + multiset([]), f, tails, multiset{})
    ensures Distinct(free) && forall i :: 0 <= i < |free| ==> 0 <= free[i] < pages
  {
    FullTaken(pages, multiset(free) + multiset([]), multiset([]), f, tails, free);
  }
}
