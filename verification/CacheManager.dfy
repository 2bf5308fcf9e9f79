/** The cache manager: moves full pages between the free list, the requests' page table
    rows and the prefix cache, and keeps every page owned exactly once. */
module CacheManagement {
  import opened Options
  import opened Bags
  import opened RadixTree
  import opened RadixLocks
  import opened PrefixMap
  import opened RadixRoom
  import opened RadixSteps
  import opened RadixCache
  import opened PagePool
  import opened PoolSpec
  import opened KvPool
  import opened Ownership
  import opened PoolOwnership
  import opened CacheSteps
  import opened Paging

  class CacheManager {
    const pages: nat
    const pageSize: PageSize
    const window: nat
    const cache: RadixPrefixCache
    const pool: KvCachePool
    var free: seq<int>
    var lazy: seq<int>
    var inRegion: bool
    var reqs: Holders
    ghost var paths: map<int, Path>
    ghost var frontier: map<int, nat>

    ghost function Idle(): multiset<int>
      reads this
    {
      multiset(free) + multiset(lazy)
    }

    /** Every page of every lane has one owner; `h` is what the current call holds. */
    ghost predicate PagesOwned(tails: Tails, h: Hands)
      reads this, cache, pool
    {
      && (!inRegion ==> lazy == [])
      && cache.Valid()
      && Owned(pool.View(), pages, Idle(), cache.Flat(), tails, h)
    }

    ghost predicate RequestsOk()
      reads this, cache, pool
    {
      && AllBound(reqs, paths, cache.path)
      && cache.locked == Locks(paths)
      && FrontiersOk(pool.swa.toPage, reqs, frontier)
    }

    ghost predicate Valid()
      reads this, cache, pool
    {
      PagesOwned(TailsOf(reqs), NOTHING) && RequestsOk()
    }

    constructor (pages: nat, pageSize: PageSize, window: nat, swaPages: nat)
      requires swaPages > 0
      ensures Valid() && fresh(cache) && fresh(pool)
      ensures reqs == map[] && free == UpTo(pages) && !inRegion
      ensures this.pages == pages && this.pageSize == pageSize && this.window == window
    {
      hide Owned, PoolOk, CacheInv, Union, AllBound, FrontiersOk, Locks;
      this.pages, this.pageSize, this.window := pages, pageSize, window;
      free, lazy, inRegion, reqs, paths, frontier := UpTo(pages), [], false, map[], map[], map[];
      cache := new RadixPrefixCache();
      pool := new KvCachePool(pages + 1, swaPages);
      new;
      StartOwned(pool.View(), pages);
      NoRequests(cache.path, pool.swa.toPage);
    }

    /** Frees full pages the caller holds.  In a lazy region they reach the free list
        only at its end. */
    method Free(b: seq<int>, ghost tails: Tails)
      requires PagesOwned(tails, WithLanes(pool.View(), b))
      modifies this`free, this`lazy, pool
      ensures PagesOwned(tails, NOTHING)
      ensures TailsKept(old(pool.swa.toPage), pool.swa.toPage, tails)
      ensures inRegion ==> free == old(free) && lazy == old(lazy) + b
      ensures !inRegion ==> free == old(free) + b && lazy == old(lazy)
    {
      hide Owned, PoolOk, RadixPrefixCache.Valid, FreePages, WithLanes, TailsKept;
      ghost var s, idle := pool.View(), Idle();
      NothingLeft(s);
      OwnedPool(s, pages, idle, cache.Flat(), tails, WithLanes(s, b));
      if |b| > 0 {
        FreeHeld(s, pages, idle, cache.Flat(), tails, b);
        var ok := pool.OnPagesFreed(b, true, true);
        assert ok;
        MoreIdle(free, lazy, b);
        if inRegion {
          lazy := lazy + b;
        } else {
          free := free + b;
        }
        assert Idle() == idle + multiset(b);
      } else {
        assert b == [];
        NoChange(pool.swa.toPage, tails);
      }
    }

    /** The callbacks for evicted nodes, then their full pages. */
    method ReleaseEvicted(nodes: seq<Node>, ghost tails: Tails) returns (valid: seq<int>)
      requires PagesOwned(tails, NodeHands(nodes)) && forall x :: x in nodes ==> LanesOk(x)
      modifies this`free, pool
      ensures PagesOwned(tails, NOTHING)
      ensures TailsKept(old(pool.swa.toPage), pool.swa.toPage, tails)
      ensures valid == NonNegative(LaneOf(nodes, Full)) && free == old(free) + valid
    {
      hide Owned, PoolOk, CacheInv, FreePages, WithLanes, LeftHands, NodeHands, ReleaseSwa, ReleaseComponents;
      NoNodesLeft(nodes);
      ghost var before, f, idle := pool.swa.toPage, cache.Flat(), Idle();
      var rest := nodes;
      while rest != []
        invariant forall x :: x in rest ==> LanesOk(x)
        invariant Owned(pool.View(), pages, idle, f, tails, LeftHands(nodes, rest))
        invariant TailsKept(before, pool.swa.toPage, tails)
        decreases |rest|
        modifies pool
      {
        ghost var s := pool.View();
        OwnedPool(s, pages, idle, f, tails, LeftHands(nodes, rest));
        NextNode(s, pages, idle, f, tails, nodes, rest);
        var x := rest[0];
        var ok := pool.ReleaseComponentPageHandles(x.lanes[C4], x.lanes[C128], x.lanes[Indexer]);
        assert ok;
        ReleaseComponentsKeeps(s, x.lanes[C4], x.lanes[C128], x.lanes[Indexer]);
        ok := pool.ReleaseSwaPageHandles(x.lanes[Swa], false);
        assert ok;
        rest := rest[1..];
        KeptTwice(before, s.swa.lane.toPage, pool.swa.toPage, tails);
      }
      assert rest == [];
      valid := NonNegative(LaneOf(nodes, Full));
      ghost var last := pool.swa.toPage;
      FreeFullOnly(valid, tails);
      KeptTwice(before, last, pool.swa.toPage, tails);
    }

    /** Full pages in hand go straight to the free list; what they are mapped to has
        another owner. */
    method FreeFullOnly(b: seq<int>, ghost tails: Tails)
      requires PagesOwned(tails, NOTHING.(full := multiset(b)))
      modifies this`free, pool
      ensures PagesOwned(tails, NOTHING)
      ensures TailsKept(old(pool.swa.toPage), pool.swa.toPage, tails)
      ensures free == old(free) + b
    {
      hide Owned, PoolOk, CacheInv, FreePages, TailsKept;
      ghost var s, idle, f := pool.View(), Idle(), cache.Flat();
      MoreIdle(free, lazy, b);
      if |b| > 0 {
        OwnedPool(s, pages, idle, f, tails, NOTHING.(full := multiset(b)));
        ForgetFull(s, pages, idle, f, tails, b);
        var ok := pool.OnPagesFreed(b, false, false);
        assert ok;
        free := free + b;
        assert Idle() == idle + multiset(b);
      } else {
        NoChange(pool.swa.toPage, tails);
        assert b == [] && NOTHING.(full := multiset([])) == NOTHING && free + b == free;
      }
    }

    ghost function SwaHeld(): nat
      reads cache
    {
      if cache.Valid() then SwaLive(cache.Flat()) else 0
    }

    /** Takes window pages from unlocked leaves. */
    method ReleaseSomeSwa(deficit: nat) returns (released: nat)
      requires Valid()
      modifies pool, cache`nodes
      ensures Valid()
      ensures released > 0 ==> SwaHeld() < old(SwaHeld())
      ensures released == 0 ==> pool.View() == old(pool.View()) && cache.nodes == old(cache.nodes)
      ensures released >= deficit || WindowsGone(cache.nodes, {})
    {
      hide Owned, PoolOk, CacheInv, WithLanes, AllBound, FrontiersOk, ReleaseSwa, SwaDrops, SwaLive, FlatOf, TailsOf,
        Locks, SwaReleased;
      ghost var f, s, tails := cache.Flat(), pool.View(), TailsOf(reqs);
      OwnedPool(s, pages, Idle(), f, tails, NOTHING);
      var swaPages := cache.ReleaseEvictableSwaPages(deficit);
      if |swaPages| == 0 {
        return 0;
      }
      SwaDropsLeaves(f, cache.Flat(), swaPages);
      SwaLiveDrops(f, cache.Flat(), swaPages);
      ReleaseDropped(s, pages, Idle(), f, cache.Flat(), tails, swaPages, true);
      var ok := pool.ReleaseSwaPageHandles(swaPages, true);
      assert ok;
      FrontiersKept(s.swa.lane.toPage, pool.swa.toPage, reqs, frontier);
      released := |swaPages|;
    }

    /** Takes at least `size` pages of unlocked leaves out of the tree. */
    method TakeLeaves(size: int) returns (raised: bool, nodes: seq<Node>)
      requires Valid() && size > 0
      modifies cache`nodes, cache`path, cache`evictableSize
      ensures raised <==> size > old(cache.evictableSize)
      ensures raised ==> Valid() && cache.evictableSize == old(cache.evictableSize)
      ensures !raised ==> cache.evictableSize + size <= old(cache.evictableSize)
      ensures !raised ==> (forall x :: x in nodes ==> LanesOk(x))
      ensures !raised ==> PagesOwned(TailsOf(reqs), NodeHands(nodes)) && RequestsOk()
    {
      hide Owned, PoolOk, CacheInv, AllBound, FrontiersOk, NodeHands, Locks, TailsOf;
      ghost var f, before := cache.Flat(), cache.path;
      raised, nodes := cache.Evict(size);
      if !raised {
        EvictionKeepsNodes(before, cache.View(), cache.locked, cache.counter, cache.evictableSize, cache.protectedSize);
        BoundKept(reqs, paths, before, cache.path);
        TakeEvicted(pool.View(), pages, Idle(), f, cache.Flat(), TailsOf(reqs), nodes, cache.locked);
      }
    }

    /** Evicts at least `size` pages of unlocked leaves. */
    method EvictSome(size: nat) returns (raised: bool, valid: seq<int>)
      requires Valid() && size > 0
      modifies this`free, pool, cache`nodes, cache`path, cache`evictableSize
      ensures Valid() && free == old(free) + valid
      ensures raised <==> size > old(cache.evictableSize)
      ensures raised ==> cache.evictableSize == old(cache.evictableSize) && pool.View() == old(pool.View())
      ensures raised ==> valid == []
      ensures !raised ==> cache.evictableSize + size <= old(cache.evictableSize)
    {
      hide PagesOwned, RadixPrefixCache.Valid, AllBound, FrontiersOk, NodeHands, Locks, TailsOf;
      ghost var before := pool.swa.toPage;
      var nodes;
      raised, nodes := TakeLeaves(size);
      valid := [];
      if !raised {
        valid := ReleaseEvicted(nodes, TailsOf(reqs));
        FrontiersKept(before, pool.swa.toPage, reqs, frontier);
      }
    }

    /** Some lane lacks more pages than are left to evict. */
    ghost predicate Short(needed: nat)
      reads this, cache, pool
    {
      var most := needed - cache.evictableSize;
      || |free| < most || |pool.swa.free| < most
      || |pool.c4.free| < most || |pool.c128.free| < most || |pool.indexer.free| < most
    }

    /** Enough pages of every lane are free. */
    ghost predicate Enough(needed: nat)
      reads this, pool
    {
      |free| >= needed && |pool.swa.free| >= needed
      && |pool.c4.free| >= needed && |pool.c128.free| >= needed && |pool.indexer.free| >= needed
    }

    lemma EvictableSize()
      requires Valid()
      ensures cache.evictableSize >= 0
    {
      EvictableNonNegative(cache.View(), cache.locked, cache.counter, cache.evictableSize, cache.protectedSize);
    }

    /** The component pages available are those of the shortest lane. */
    ghost predicate Shortest(components: nat)
      reads pool
    {
      && components <= |pool.c4.free| && components <= |pool.c128.free| && components <= |pool.indexer.free|
      && (components == |pool.c4.free| || components == |pool.c128.free| || components == |pool.indexer.free|)
    }

    /** Takes window pages from leaves when only those are short. */
    method ReleaseIfOnlySwa(needed: nat, components: nat) returns (released: nat)
      requires Valid()
      modifies pool, cache`nodes
      ensures Valid() && (released > 0 ==> SwaHeld() < old(SwaHeld()))
      ensures released == 0 ==> pool.View() == old(pool.View()) && cache.nodes == old(cache.nodes)
      ensures |old(pool.swa.free)| < needed && |free| >= needed && components >= needed ==>
        released >= needed - |old(pool.swa.free)| || WindowsGone(cache.nodes, {})
    {
      hide Valid, SwaHeld, WindowsGone;
      released := 0;
      if |pool.swa.free| < needed && |free| >= needed && components >= needed {
        released := ReleaseSomeSwa(needed - |pool.swa.free|);
      }
    }

    /** One round of `EvictForCapacity` while a lane is short.  It shrinks the tree or the
        window pages in it, unless there is not enough left to evict.  Nothing is evicted while
        only window pages are short and an unlocked leaf has some. */
    method EvictRound(needed: nat, components: nat) returns (raised: bool, stuck: bool, now: nat)
      requires Valid() && Shortest(components) && (|free| < needed || components < needed || |pool.swa.free| < needed)
      modifies this`free, pool, cache`nodes, cache`path, cache`evictableSize
      ensures Valid() && old(free) <= free && (raised || stuck ==> Short(needed)) && (!raised ==> Shortest(now))
      ensures !raised && !stuck ==> 0 <= cache.evictableSize <= old(cache.evictableSize)
      ensures !raised && !stuck && cache.evictableSize == old(cache.evictableSize) ==> SwaHeld() < old(SwaHeld())
      ensures old(|free|) >= needed && components >= needed && !WindowsGone(old(cache.nodes), {}) ==>
        !raised && !stuck && free == old(free) && cache.evictableSize == old(cache.evictableSize)
    {
      hide Valid, SwaHeld, Idle, WindowsGone;
      EvictableSize();
      raised, stuck, now := false, false, components;
      var released := ReleaseIfOnlySwa(needed, components);
      if released == 0 {
        var fullDeficit := if |free| < needed then needed - |free| else 0;
        var componentDeficit := if components < needed then needed - components else 0;
        var swaDeficit := if |pool.swa.free| < needed then needed - |pool.swa.free| else 0;
        var size := Max(Max(fullDeficit, componentDeficit), Max(swaDeficit, 1));
        var valid;
        raised, valid := EvictSome(size);
        if raised {
          return;
        }
        EvictableSize();
        now := pool.AvailableComponentPages();
        stuck := |valid| == 0 && (now < needed || |pool.swa.free| < needed) && cache.evictableSize == 0;
      } else {
        now := pool.AvailableComponentPages();
      }
    }

    /** Frees pages of every lane until `needed` are available, first from window pages
        of leaves when only those are short, otherwise by eviction.  Ends for every
        state: each round shrinks the tree or the window pages in it.  It fails only when
        what is left to evict cannot make up for what a lane lacks. */
    method EvictForCapacity(needed: nat) returns (ok: bool)
      requires Valid()
      modifies this`free, pool, cache`nodes, cache`path, cache`evictableSize
      ensures Valid() && old(free) <= free
      ensures if ok then Enough(needed) else Short(needed)
      ensures old(Enough(needed)) ==> ok && free == old(free) && pool.View() == old(pool.View())
      ensures old(Enough(needed)) ==> cache.nodes == old(cache.nodes)
    {
      hide Valid, SwaHeld, Idle, Short;
      ghost var enough := Enough(needed);
      EvictableSize();
      var components: nat := pool.AvailableComponentPages();
      while |free| < needed || components < needed || |pool.swa.free| < needed
        invariant Valid() && old(free) <= free && Shortest(components) && cache.evictableSize >= 0
        invariant enough ==> |free| >= needed && components >= needed && |pool.swa.free| >= needed
        invariant enough ==> free == old(free) && pool.View() == old(pool.View()) && cache.nodes == old(cache.nodes)
        decreases cache.evictableSize, SwaHeld()
      {
        var raised, stuck, now := EvictRound(needed, components);
        if raised || stuck {
          return false;
        }
        components := now;
      }
      ok := true;
    }

    /** Pages that have just been allocated have a page of every lane. */
    ghost predicate Fresh(b: seq<int>)
      reads pool
    {
      InHand(pool.View(), b) && AllMapped(pool.swa.toPage, b)
    }

    /** Takes the first free pages, with fresh pages of every lane. */
    method Allocate(needed: nat) returns (ok: bool, taken: seq<int>)
      requires Valid() && needed > 0
      modifies this`free, pool, cache`nodes, cache`path, cache`evictableSize
      ensures !ok ==> Valid() && Short(needed)
      ensures ok ==> |taken| == needed && Fresh(taken) && RequestsOk()
      ensures ok ==> PagesOwned(TailsOf(reqs), WithLanes(pool.View(), taken))
    {
      hide Owned, PoolOk, RadixPrefixCache.Valid, AllBound, FrontiersOk, Locks, AllocPages, InHand, AllMapped,
        WithLanes, TailsOf, TailsKept, Short;
      taken := [];
      ok := EvictForCapacity(needed);
      if !ok {
        return;
      }
      ghost var s, f, tails, all, idle := pool.View(), cache.Flat(), TailsOf(reqs), free, Idle();
      taken := free[..needed];
      free := free[needed..];
      SplitIdle(free, lazy, taken, all);
      OwnedPool(s, pages, idle, f, tails, NOTHING);
      AllocHeld(s, pages, idle, Idle(), f, tails, taken);
      ok := pool.OnPagesAllocated(taken);
      assert ok;
      FrontiersKept(s.swa.lane.toPage, pool.swa.toPage, reqs, frontier);
    }

    /** Appends the first pages in hand to the row of a request. */
    method WriteRow(u: int, b: seq<int>, rest: seq<int>)
      requires u in reqs && RequestsOk() && Fresh(b + rest)
      requires PagesOwned(TailsOf(reqs), WithLanes(pool.View(), b + rest))
      modifies this`reqs
      ensures reqs == old(reqs)[u := old(reqs)[u].(row := old(reqs)[u].row + b)]
      ensures RequestsOk() && Fresh(rest) && PagesOwned(TailsOf(reqs), WithLanes(pool.View(), rest))
    {
      hide Owned, PoolOk, CacheInv, AllBound, FrontiersOk, Locks, WithLanes;
      InHandParts(pool.View(), b, rest);
      GrownBound(reqs, paths, cache.path, u, b);
      GrownFrontiers(pool.swa.toPage, reqs, frontier, u, b);
      TailsGrow(reqs, u, b);
      GiveToTail(pool.View(), pages, Idle(), cache.Flat(), TailsOf(reqs), u, Tail(reqs[u]), b, [], rest);
      reqs := reqs[u := reqs[u].(row := reqs[u].row + b)];
    }

    method GiveRows(batch: seq<Extend>, taken: seq<int>)
      requires forall i :: 0 <= i < |batch| ==> batch[i].req in reqs
      requires RequestsOk() && Fresh(taken) && PagesOwned(TailsOf(reqs), WithLanes(pool.View(), taken))
      requires |taken| == NeededPages(batch, pageSize)
      modifies this`reqs
      ensures Valid() && AllGrown(old(reqs), reqs, batch, pageSize)
    {
      hide Owned, PoolOk, CacheInv, AllBound, FrontiersOk, Locks, WithLanes, Fresh, AllGrown, TailsOf, Ceil;
      var rest := taken;
      NoneGrown(reqs, pageSize);
      for i := 0 to |batch|
        invariant RequestsOk() && Fresh(rest) && PagesOwned(TailsOf(reqs), WithLanes(pool.View(), rest))
        invariant |rest| == NeededPages(batch[i..], pageSize) && reqs.Keys == old(reqs.Keys)
        invariant AllGrown(old(reqs), reqs, batch[..i], pageSize)
      {
        var k := NewPages(batch[i], pageSize);
        assert batch[i..][1..] == batch[i + 1..] && batch[..i + 1] == batch[..i] + [batch[i]];
        assert rest == rest[..k] + rest[k..];
        GrownNext(old(reqs), reqs, batch[..i], batch[i], rest[..k], pageSize);
        WriteRow(batch[i].req, rest[..k], rest[k..]);
        rest := rest[k..];
      }
      assert rest == [] && batch[..|batch|] == batch;
      NothingLeft(pool.View());
    }

    method TotalNeeded(batch: seq<Extend>) returns (needed: nat)
      ensures needed == NeededPages(batch, pageSize)
    {
      needed := 0;
      for i := 0 to |batch|
        invariant needed == NeededPages(batch[..i], pageSize)
      {
        NeededUpTo(batch[..i + 1], i, pageSize);
        assert batch[..i + 1][..i] == batch[..i] && batch[..i + 1][i..] == [batch[i]];
        needed := needed + NewPages(batch[i], pageSize);
      }
      assert batch[..|batch|] == batch;
    }

    /** Gives each request of a batch the pages for the positions it is about to write. */
    method AllocatePaged(batch: seq<Extend>) returns (ok: bool)
      requires Valid() && forall i :: 0 <= i < |batch| ==> batch[i].req in reqs
      modifies this`free, this`reqs, pool, cache`nodes, cache`path, cache`evictableSize
      ensures Valid() && (!ok ==> reqs == old(reqs) && Short(NeededPages(batch, pageSize)))
      ensures ok ==> AllGrown(old(reqs), reqs, batch, pageSize)
    {
      hide Owned, PoolOk, CacheInv, AllBound, FrontiersOk, Locks, WithLanes, AllGrown, TailsOf, NeededPages;
      var needed := TotalNeeded(batch);
      var taken: seq<int> := [];
      ok := true;
      NothingLeft(pool.View());
      if needed > 0 {
        ok, taken := Allocate(needed);
        if !ok {
          return;
        }
      }
      GiveRows(batch, taken);
    }

    // ----- a finished forward reaches the cache

    /** The blocks are those of the request and go on where its locked path ends. */
    ghost predicate Storable(u: int, blocks: Path, evicted: nat)
      reads this
    {
      && u in reqs && u in paths && u in frontier
      && paths[u] <= blocks && |blocks| <= |reqs[u].row| && evicted <= frontier[u]
    }

    /** The handle ends at the node with this path. */
    ghost predicate HandleFor(h: Handle, p: Path)
      reads cache
    {
      cache.IsHandle(h) && cache.path[h.node] == p
    }

    /** Inserts the blocks of a request.  The pages behind the part that was not stored
        yet go to the tree. */
    method Store(u: int, blocks: Path, evicted: nat) returns (matched: nat, h: Handle)
      requires Valid() && Storable(u, blocks, evicted)
      modifies cache`nodes, cache`counter, cache`path, cache`evictableSize
      ensures RequestsOk() && cache.Valid() && old(cache.Valid())
      ensures reqs[u].handle.cachedLen <= matched <= |blocks|
      ensures LongestMatch(old(cache.Flat()), blocks, matched)
      ensures PagesOwned(TailsOf(reqs)[u := reqs[u].row[reqs[u].handle.cachedLen..matched] + reqs[u].row[|blocks|..]],
        NOTHING)
      ensures HandleFor(h, blocks)
      ensures LanesOk(NewSegment(pool.View(), blocks, reqs[u].row, evicted, matched))
      ensures NewSegment(pool.View(), blocks, reqs[u].row, evicted, matched).lanes[Swa]
        == Mapped(pool.swa.toPage, reqs[u].row[matched..|blocks|])
      ensures cache.Flat() == old(cache.Flat())
        + Segment(blocks[..matched], NewSegment(pool.View(), blocks, reqs[u].row, evicted, matched))
    {
      hide Owned, PoolOk, CacheInv, AllBound, FrontiersOk, Locks, TailsOf, LaneBuilder, NewLanes, BuilderOk,
        LongestMatch;
      ghost var s, f, t := pool.View(), cache.Flat(), cache.View();
      ghost var pathBefore := cache.path;
      var row := reqs[u].row;
      RequestBound(reqs, paths, cache.path, pool.swa.toPage, frontier, u);
      RequestTail(reqs, u);
      OwnedEntries(s, pages, Idle(), f, TailsOf(reqs), NOTHING);
      BuilderFits(s, blocks, row, evicted);
      HandleStored(t, cache.locked, cache.counter, cache.evictableSize, cache.protectedSize, reqs[u].handle.node);
      matched, h := cache.InsertPrefix(blocks, row, LaneBuilder(pool.View(), row, evicted));
      MatchCoversHandle(f, blocks, paths[u], matched);
      BoundExtends(reqs, paths, pathBefore, cache.path);
      InsertedOwned(s, pages, Idle(), f, TailsOf(reqs), u, reqs[u], blocks, evicted, frontier[u], matched);
      SegmentLanes(s, blocks, reqs[u], evicted, frontier[u], matched);
    }

    /** The request is between its old and its new handle; `now` is its row with the
        new handle. */
    ghost predicate Between(u: int, now: Holder)
      reads this, cache, pool
    {
      && u in reqs && u in paths && u in frontier
      && PagesOwned(TailsOf(reqs)[u := Tail(now)], NOTHING)
      && AllBound(reqs - {u}, paths - {u}, cache.path)
      && cache.locked == Locks(paths - {u})
      && FrontiersOk(pool.swa.toPage, reqs - {u}, frontier - {u})
      && frontier[u] <= |now.row| && WindowFrom(pool.swa.toPage, now, frontier[u])
    }

    method Unlock(u: int)
      requires u in reqs && cache.Valid() && AllBound(reqs, paths, cache.path) && cache.locked == Locks(paths)
      modifies cache`nodes, cache`evictableSize, cache`protectedSize, cache`locked
      ensures u in paths && cache.Valid() && old(cache.Valid()) && cache.Flat() == old(cache.Flat())
      ensures cache.locked == Locks(paths - {u})
    {
      hide CacheInv, Locks;
      assert Bound(reqs[u], paths[u], cache.path);
      HandleStored(cache.View(), cache.locked, cache.counter, cache.evictableSize, cache.protectedSize,
        reqs[u].handle.node);
      LockedPath(paths, u);
      LocksRemove(paths, u);
      cache.LockHandle(reqs[u].handle, true);
    }

    /** Unlocks the old handle, then frees the pages the tree had already. */
    method DropOld(u: int, matched: nat, h: Handle)
      requires RequestsOk() && u in reqs && reqs[u].handle.cachedLen <= matched <= h.cachedLen <= |reqs[u].row|
      requires PagesOwned(
                 TailsOf(reqs)[u := reqs[u].row[reqs[u].handle.cachedLen..matched] + reqs[u].row[h.cachedLen..]],
                 NOTHING)
      modifies this`free, this`lazy, pool, cache`nodes, cache`evictableSize, cache`protectedSize, cache`locked
      ensures Between(u, Holder(h, reqs[u].row))
      ensures cache.Valid() && old(cache.Valid()) && cache.Flat() == old(cache.Flat())
    {
      hide Owned, PoolOk, CacheInv, AllBound, FrontiersOk, Locks, TailsOf, WithLanes, WindowFrom, TailsKept;
      var row, lo := reqs[u].row, reqs[u].handle.cachedLen;
      var dup, rest := row[lo..matched], row[h.cachedLen..];
      ghost var before, now := pool.swa.toPage, Holder(h, row);
      RequestBound(reqs, paths, cache.path, before, frontier, u);
      WithoutRequest(before, reqs, paths, frontier, cache.path, u);
      Unlock(u);
      TakeFront(pool.View(), pages, Idle(), cache.Flat(), TailsOf(reqs), u, dup, rest);
      Free(dup, TailsOf(reqs)[u := rest]);
      FewerTailsKept(before, pool.swa.toPage, TailsOf(reqs), u, rest);
      TailsWithout(reqs, u, rest, now);
      FrontiersKept(before, pool.swa.toPage, reqs - {u}, frontier - {u});
      FrontierOfRest(before, pool.swa.toPage, reqs[u], now, frontier[u], TailsOf(reqs)[u := rest], u);
    }

    /** A finished request frees the rest of its tail and is gone. */
    method Finish(u: int, now: Holder)
      requires Between(u, now)
      modifies this`free, this`lazy, this`reqs, this`paths, this`frontier, pool
      ensures Valid() && reqs == old(reqs) - {u} && paths == old(paths) - {u} && frontier == old(frontier) - {u}
    {
      hide Owned, PoolOk, CacheInv, AllBound, FrontiersOk, Locks, TailsOf, WithLanes, WindowFrom, TailsKept;
      ghost var before, tails := pool.swa.toPage, TailsOf(reqs);
      assert Tail(now) + [] == Tail(now);
      TakeFront(pool.View(), pages, Idle(), cache.Flat(), tails, u, Tail(now), []);
      Free(Tail(now), tails[u := []]);
      FewerTailsKept(before, pool.swa.toPage, tails, u, []);
      TailsWithout(reqs, u, [], now);
      FrontiersKept(before, pool.swa.toPage, reqs - {u}, frontier - {u});
      TailGone(pool.View(), pages, Idle(), cache.Flat(), tails, u);
      reqs := reqs - {u};
      paths := paths - {u};
      frontier := frontier - {u};
    }

    /** A request that goes on locks its new handle and keeps the rest of its tail. */
    method Continue(u: int, now: Holder)
      requires Between(u, now) && now.handle.node in cache.path && Bound(now, cache.path[now.handle.node], cache.path)
      modifies this`reqs, this`paths, cache`nodes, cache`evictableSize, cache`protectedSize, cache`locked
      ensures Valid() && reqs == old(reqs)[u := now] && paths == old(paths)[u := cache.path[now.handle.node]]
      ensures cache.Valid() && old(cache.Valid()) && cache.Flat() == old(cache.Flat())
    {
      hide Owned, PoolOk, CacheInv, AllBound, FrontiersOk, Locks, TailsOf, WindowFrom, Bump;
      ghost var p := cache.path[now.handle.node];
      HandleStored(cache.View(), cache.locked, cache.counter, cache.evictableSize, cache.protectedSize,
        now.handle.node);
      cache.LockHandle(now.handle, false);
      LocksAdd(paths - {u}, u, p);
      MapsAgain(paths, u, p);
      MapsAgain(reqs, u, now);
      MapsAgain(frontier, u, frontier[u]);
      assert frontier[u := frontier[u]] == frontier;
      TailsWithout(reqs, u, Tail(now), now);
      BoundAgain(reqs - {u}, paths - {u}, cache.path, u, now, p);
      FrontierAgain(pool.swa.toPage, reqs - {u}, frontier - {u}, u, now, frontier[u]);
      reqs := reqs[u := now];
      paths := paths[u := p];
    }

    /** Blocks of a path whose window pages are kept. */
    function WindowBlocks(): nat
    {
      Ceil(Max(window, 1), pageSize) + 1
    }

    method ReleaseOutOfWindow(h: Handle)
      requires Valid() && cache.IsHandle(h)
      modifies pool, cache`nodes, cache`counter, cache`path
      ensures Valid() && cache.Valid() && old(cache.Valid())
      ensures cache.Flat() == ReleaseAlong(old(cache.Flat()), old(cache.path[h.node]), HeadLen(h, WindowBlocks()), Swa)
      ensures forall n :: n in old(cache.path) ==> n in cache.path && cache.path[n] == old(cache.path)[n]
    {
      hide Owned, PoolOk, CacheInv, AllBound, FrontiersOk, Locks, TailsOf, ReleaseSwa, SwaDrops, ReleaseAlong, Ceil;
      ghost var f, s, tails := cache.Flat(), pool.View(), TailsOf(reqs);
      ghost var p, pathBefore, k := cache.path[h.node], cache.path, HeadLen(h, WindowBlocks());
      HandleStored(cache.View(), cache.locked, cache.counter, cache.evictableSize, cache.protectedSize, h.node);
      OwnedPool(s, pages, Idle(), f, tails, NOTHING);
      var released := cache.ReleaseHead(h, WindowBlocks(), Swa);
      SwaDropsAlong(f, p, k, released);
      ReleaseDropped(s, pages, Idle(), f, cache.Flat(), tails, released, true);
      var ok := pool.ReleaseSwaPageHandles(released, true);
      assert ok;
      BoundExtends(reqs, paths, pathBefore, cache.path);
      FrontiersKept(s.swa.lane.toPage, pool.swa.toPage, reqs, frontier);
    }

    /** The full pages of all but the last block go back to the free list; their
        component and window pages stay in the tree. */
    method ReleaseFullHead(h: Handle)
      requires Valid() && cache.IsHandle(h)
      modifies this`free, pool, cache`nodes, cache`counter, cache`path
      ensures Valid() && cache.Valid() && old(cache.Valid())
      ensures cache.Flat() == ReleaseAlong(old(cache.Flat()), old(cache.path[h.node]), HeadLen(h, 1), Full)
      ensures forall n :: n in old(cache.path) ==> n in cache.path && cache.path[n] == old(cache.path)[n]
      ensures free == old(free) + HeadPages(old(cache.Flat()), old(cache.path[h.node]), HeadLen(h, 1))
    {
      hide Owned, PoolOk, CacheInv, AllBound, FrontiersOk, Locks, TailsOf, ReleaseAlong;
      ghost var f, before, tails := cache.Flat(), pool.swa.toPage, TailsOf(reqs);
      ghost var p, pathBefore, k := cache.path[h.node], cache.path, HeadLen(h, 1);
      HandleStored(cache.View(), cache.locked, cache.counter, cache.evictableSize, cache.protectedSize, h.node);
      var released := cache.ReleaseHead(h, 1, Full);
      TakeHead(pool.View(), pages, Idle(), f, tails, p, k, released);
      BoundExtends(reqs, paths, pathBefore, cache.path);
      FreeFullOnly(released, tails);
      FrontiersKept(before, pool.swa.toPage, reqs, frontier);
    }

    /** Writes the stored pages of the locked path into the row. */
    method RefreshRow(u: int)
      requires Valid() && u in reqs
      modifies this`reqs
      ensures Valid() && u in old(reqs) && u in paths && cache.Valid()
      ensures reqs == old(reqs)[u := Holder(old(reqs)[u].handle,
                PagesAlong(cache.Flat(), paths[u], Full) + old(reqs)[u].row[old(reqs)[u].handle.cachedLen..])]
    {
      hide Owned, PoolOk, CacheInv, AllBound, FrontiersOk, Locks, TailsOf;
      RequestBound(reqs, paths, cache.path, pool.swa.toPage, frontier, u);
      HandleStored(cache.View(), cache.locked, cache.counter, cache.evictableSize, cache.protectedSize,
        reqs[u].handle.node);
      var front := cache.GetMatchedPages(reqs[u].handle, Full);
      EntriesAlong(cache.Flat(), paths[u], Full);
      NewFront(reqs, paths, cache.path, pool.swa.toPage, frontier, u, front);
      reqs := reqs[u := reqs[u].(row := front + reqs[u].row[|front|..])];
    }

    lemma CacheInOrder()
      requires Valid()
      ensures cache.Valid()
    {
    }

    lemma HandleStays(h: Handle)
      requires cache.Valid() && h.node in cache.path && |cache.path[h.node]| == h.cachedLen
      ensures cache.IsHandle(h)
    {
      HandleStored(cache.View(), cache.locked, cache.counter, cache.evictableSize, cache.protectedSize, h.node);
    }

    lemma FlatInOrder()
      requires cache.Valid()
      ensures PrefixClosed(cache.Flat()) && [] !in cache.Flat()
    {
      FlatClosed(cache.View(), cache.locked, cache.counter, cache.evictableSize, cache.protectedSize);
    }

    lemma Known(u: int)
      requires Valid() && u in reqs
      ensures u in paths && u in frontier
    {
      hide Owned, PoolOk, CacheInv, Locks;
    }

    lemma RowInOrder(u: int)
      requires RequestsOk() && u in reqs
      ensures forall j :: 0 <= j < |reqs[u].row| ==> reqs[u].row[j] >= -1
    {
      RequestBound(reqs, paths, cache.path, pool.swa.toPage, frontier, u);
    }

    /** Stores the blocks of a request and lets go of its old handle. */
    method StoreAndDrop(u: int, blocks: Path, evicted: nat) returns (h: Handle)
      requires Valid() && Storable(u, blocks, evicted)
      modifies this`free, this`lazy, pool, cache
      ensures cache.Valid() && old(cache.Valid())
      ensures HandleFor(h, blocks)
      ensures Joined(old(cache.Flat()), cache.Flat(), blocks, reqs[u].row, old(pool.swa.toPage))
      ensures Between(u, Holder(h, reqs[u].row))
    {
      hide RequestsOk, PagesOwned, Between, RadixPrefixCache.Valid, Joined, NewSegment, LongestMatch, Segment,
        PrefixClosed, LanesOk, TailsOf;
      CacheInOrder();
      ghost var f := cache.Flat();
      FlatInOrder();
      var matched;
      matched, h := Store(u, blocks, evicted);
      NewSegmentJoined(f, pool.View(), blocks, reqs[u].row, evicted, matched);
      DropOld(u, matched, h);
      HandleStays(h);
    }

    /** Exchanges the old handle of a request for one on all its blocks; a finished
        request ends here. */
    method Exchange(u: int, blocks: Path, evicted: nat, finished: bool) returns (h: Handle)
      requires Valid() && Storable(u, blocks, evicted)
      modifies this`free, this`lazy, this`reqs, this`paths, this`frontier, pool, cache
      ensures Valid() && cache.Valid() && old(cache.Valid()) && |blocks| <= |old(reqs)[u].row|
      ensures Joined(old(cache.Flat()), cache.Flat(), blocks, old(reqs)[u].row, old(pool.swa.toPage))
      ensures [] !in old(cache.Flat())
      ensures HandleFor(h, blocks)
      ensures finished ==> reqs == old(reqs) - {u} && paths == old(paths) - {u} && frontier == old(frontier) - {u}
      ensures !finished ==> u in reqs && paths == old(paths)[u := blocks] && frontier == old(frontier)
      ensures !finished ==> reqs == old(reqs)[u := Holder(h, old(reqs)[u].row)]
    {
      hide Between, RadixPrefixCache.Valid, Joined, PrefixClosed, PagesOwned, AllBound, FrontiersOk, Locks;
      var row := reqs[u].row;
      RowInOrder(u);
      CacheInOrder();
      FlatInOrder();
      h := StoreAndDrop(u, blocks, evicted);
      if finished {
        Finish(u, Holder(h, row));
      } else {
        Continue(u, Holder(h, row));
      }
      HandleStays(h);
    }

    /** Releases behind the window and behind the last block of a handle. */
    method ReleaseBehind(h: Handle)
      requires Valid() && cache.IsHandle(h)
      modifies this`free, pool, cache`nodes, cache`counter, cache`path
      ensures Valid() && cache.Valid() && old(cache.Valid())
      ensures Released(old(cache.Flat()), cache.Flat(), old(cache.path[h.node]),
                BeforeLast(h.cachedLen, WindowBlocks()), BeforeLast(h.cachedLen, 1))
    {
      hide Valid, RadixPrefixCache.Valid, Released, ReleaseAlong, WindowBlocks;
      CacheInOrder();
      ghost var e, p := cache.Flat(), cache.path[h.node];
      ReleaseOutOfWindow(h);
      HandleStays(h);
      ReleaseFullHead(h);
      TwiceReleased(e, p, HeadLen(h, WindowBlocks()), HeadLen(h, 1));
    }

    method CacheBlocks(u: int, blocks: Path, evicted: nat, finished: bool)
      requires Valid() && Storable(u, blocks, evicted)
      modifies this`free, this`lazy, this`reqs, this`paths, this`frontier, pool, cache
      ensures Valid() && cache.Valid() && old(cache.Valid()) && |blocks| <= |old(reqs)[u].row|
      ensures Settled(old(cache.Flat()), cache.Flat(), blocks, old(reqs)[u].row, old(pool.swa.toPage),
                BeforeLast(|blocks|, WindowBlocks()), BeforeLast(|blocks|, 1))
      ensures finished ==> reqs == old(reqs) - {u} && paths == old(paths) - {u} && frontier == old(frontier) - {u}
      ensures !finished ==> u in reqs && paths == old(paths)[u := blocks] && frontier == old(frontier)
      ensures !finished ==> reqs == old(reqs)[u := reqs[u]] && reqs[u].handle.cachedLen == |blocks|
      ensures !finished ==> reqs[u].row == PagesAlong(cache.Flat(), blocks, Full) + old(reqs)[u].row[|blocks|..]
    {
      hide Owned, PoolOk, CacheInv, RequestsOk, TailsOf, Settled, Joined, Released, Ceil, BeforeLast, PagesAlong, Max;
      ghost var f := cache.Flat();
      var row := reqs[u].row;
      var h := Exchange(u, blocks, evicted, finished);
      ghost var e := cache.Flat();
      ReleaseBehind(h);
      SettledAfter(f, e, cache.Flat(), blocks, row, old(pool.swa.toPage), BeforeLast(|blocks|, WindowBlocks()),
        BeforeLast(|blocks|, 1));
      if !finished {
        if |blocks| > 0 {
          RefreshRow(u);
          UpdatedTwice(old(reqs), u, Holder(h, row), reqs[u]);
        } else {
          assert PagesAlong(cache.Flat(), blocks, Full) + row[0..] == row;
        }
      }
    }

    /** Stores what a request has computed so far, frees what the tree had already, and
        releases window pages behind the window and full pages behind the last block.
        None of the steps can raise. */
    method CacheReq(u: int, ids: seq<int>, cachedLen: nat, evicted: nat, finished: bool)
      requires Valid() && u in reqs && cachedLen <= |ids| && |reqs[u].row| == Ceil(cachedLen, pageSize)
      requires paths[u] <= Blocks(ids[..cachedLen], pageSize) && PagesIn(evicted, pageSize) <= frontier[u]
      modifies this`free, this`lazy, this`reqs, this`paths, this`frontier, pool, cache
      ensures Valid() && cache.Valid() && old(cache.Valid())
      ensures |Blocks(ids[..cachedLen], pageSize)| <= |old(reqs)[u].row|
      ensures var blocks := Blocks(ids[..cachedLen], pageSize);
              Settled(old(cache.Flat()), cache.Flat(), blocks, old(reqs)[u].row, old(pool.swa.toPage),
                BeforeLast(|blocks|, WindowBlocks()), BeforeLast(|blocks|, 1))
      ensures OnlyTailKept(cache.Flat(), Blocks(ids[..cachedLen], pageSize), Ceil(Max(window, 1), pageSize) + 1)
      ensures finished ==> reqs == old(reqs) - {u} && paths == old(paths) - {u} && frontier == old(frontier) - {u}
      ensures !finished ==> u in reqs && paths == old(paths)[u := Blocks(ids[..cachedLen], pageSize)]
      ensures !finished ==> frontier == old(frontier)
      ensures !finished ==> reqs == old(reqs)[u := reqs[u]] && reqs[u].handle.cachedLen == |paths[u]|
      ensures !finished ==> reqs[u].row == PagesAlong(cache.Flat(), paths[u], Full) + old(reqs)[u].row[|paths[u]|..]
    {
      hide Owned, PoolOk, CacheInv, RequestsOk, TailsOf, Settled, Ceil, Blocks, OnlyTailKept;
      ghost var f, row, toPage := cache.Flat(), reqs[u].row, pool.swa.toPage;
      var blocks := Blocks(ids[..cachedLen], pageSize);
      BlockCount(ids[..cachedLen], pageSize);
      WholeBlocks(cachedLen, pageSize);
      Known(u);
      CacheBlocks(u, blocks, PagesIn(evicted, pageSize), finished);
      SettledTail(f, cache.Flat(), blocks, row, toPage, WindowBlocks());
    }

    // ----- window pages of active requests

    /** Releases blocks `from..to` of the request's own window pages. */
    method ReleaseBlocks(u: int, from: nat, to: nat, ghost seen: nat)
      requires Valid() && u in reqs && reqs[u].handle.cachedLen <= from < to <= |reqs[u].row|
      requires from == reqs[u].handle.cachedLen || (from <= seen && seen <= frontier[u])
      modifies this`frontier, pool
      ensures Valid() && u in old(frontier) && frontier == old(frontier)[u := Max(old(frontier)[u], to)]
      ensures TailsKept(old(pool.swa.toPage), pool.swa.toPage, TailsBut(reqs, u, from, to))
    {
      hide Owned, PoolOk, CacheInv, AllBound, FrontiersOk, Locks, TailsOf, WindowFrom, TailsKept, ReleaseSwaForFull;
      ghost var s, tails, before := pool.View(), TailsOf(reqs), pool.swa.toPage;
      var h := reqs[u];
      RequestBound(reqs, paths, cache.path, before, frontier, u);
      RequestTail(reqs, u);
      CutTail(h, from, to);
      OwnedPool(s, pages, Idle(), cache.Flat(), tails, NOTHING);
      ReleaseActive(s, pages, Idle(), cache.Flat(), tails, u, h.row[h.handle.cachedLen..from], h.row[from..to],
        h.row[to..]);
      var ok := pool.ReleaseSwaForFullPages(h.row[from..to], true, true);
      assert ok;
      KeptLength(before, pool.swa.toPage, TailsBut(reqs, u, from, to));
      RestOfTailKept(before, pool.swa.toPage, reqs, u, from, to);
      FrontierMoves(before, pool.swa.toPage, h, frontier[u], from, to, seen);
      OthersMove(before, pool.swa.toPage, reqs, frontier, u, from, to, Max(frontier[u], to));
      frontier := frontier[u := Max(frontier[u], to)];
    }

    /** Releases the window pages of an active request that its window has left.
        `deviceLen` may be one forward ahead, and `evicted` may be an older frontier.
        What is released lies more than a window and a page behind `deviceLen`, and no other
        request loses anything. */
    method ReleaseActiveSwa(u: int, deviceLen: nat, evicted: nat) returns (now: nat)
      requires Valid() && u in reqs && u in frontier && PagesIn(evicted, pageSize) <= frontier[u]
      requires Ceil(deviceLen, pageSize) <= |reqs[u].row| + 1
      modifies this`frontier, pool
      ensures Valid() && u in frontier && PagesIn(now, pageSize) <= frontier[u]
      ensures u in old(frontier) && frontier == old(frontier)[u := frontier[u]] && frontier[u] >= old(frontier)[u]
      ensures frontier[u] == old(frontier)[u] || OutOfWindow(frontier[u], deviceLen - pageSize - 1, window, pageSize)
      ensures ReleasedBelow(old(pool.swa.toPage), pool.swa.toPage, reqs[u], deviceLen - pageSize - 1, window, pageSize)
      ensures TailsKept(old(pool.swa.toPage), pool.swa.toPage, TailsOf(reqs) - {u})
      ensures now == WindowEnd(deviceLen, evicted, reqs[u].handle.cachedLen, window, pageSize)
      ensures KeptFrom(old(pool.swa.toPage), pool.swa.toPage, reqs[u], PagesIn(now, pageSize))
      ensures NoneLeftBehind(pool.swa.toPage, reqs[u], deviceLen, window, pageSize)
      ensures u in paths && Trimmed(Max(|paths[u]|, frontier[u]), deviceLen, window, pageSize)
    {
      hide Owned, PoolOk, CacheInv, AllBound, FrontiersOk, Locks, TailsOf, WindowFrom, PagesIn, TokensIn, Ceil,
        ActiveBlocks, TailsBut, ReleasedBelow, Trimmed, NoneLeftBehind;
      ghost var before := pool.swa.toPage;
      RequestBound(reqs, paths, cache.path, before, frontier, u);
      ActiveEnd(deviceLen, window, pageSize, |reqs[u].row|);
      var active := ActiveBlocks(deviceLen, window, pageSize);
      var from := Max(PagesIn(evicted, pageSize), reqs[u].handle.cachedLen);
      var to := Max(from, active);
      now := evicted;
      if to > from {
        ReleaseBlocks(u, from, to, PagesIn(evicted, pageSize));
        now := TokensIn(to, pageSize);
        WholeTokens(to, pageSize);
        RestOfTailKept(before, pool.swa.toPage, reqs, u, from, to);
        OthersKept(before, pool.swa.toPage, reqs, u, from, to);
      } else {
        NoChange(before, TailsOf(reqs));
      }
      RequestBound(reqs, paths, cache.path, pool.swa.toPage, frontier, u);
      ReleasedIsBelow(before, pool.swa.toPage, reqs[u], old(frontier)[u], frontier[u], PagesIn(now, pageSize),
        deviceLen - pageSize - 1, window, pageSize);
      ActiveReaches(deviceLen, window, pageSize, Max(|paths[u]|, frontier[u]));
      TrimmedPages(u, deviceLen);
    }

    lemma LockedLength(u: int)
      requires Valid() && u in reqs
      ensures u in paths && |paths[u]| == reqs[u].handle.cachedLen
    {
      hide Owned, PoolOk, CacheInv, Locks;
      RequestBound(reqs, paths, cache.path, pool.swa.toPage, frontier, u);
    }

    /** Where the frontier is, there the window pages of a request's own blocks end. */
    lemma TrimmedPages(u: int, end: int)
      requires Valid() && u in reqs && u in paths && u in frontier
      requires Trimmed(Max(|paths[u]|, frontier[u]), end, window, pageSize)
      ensures NoneLeftBehind(pool.swa.toPage, reqs[u], end, window, pageSize)
    {
      hide Owned, PoolOk, CacheInv, AllBound, FrontiersOk, Locks, TailsOf, TokensIn, Trimmed;
      RequestBound(reqs, paths, cache.path, pool.swa.toPage, frontier, u);
      forall j | reqs[u].handle.cachedLen <= j < |reqs[u].row| && TokensIn(j + 1, pageSize) + window + pageSize <= end
        ensures 0 <= reqs[u].row[j] < |pool.swa.toPage| && pool.swa.toPage[reqs[u].row[j]] == -1
      {
        BlockTrimmed(j, Max(|paths[u]|, frontier[u]), end, window, pageSize);
        OwnPageKnown(pool.View(), pages, Idle(), cache.Flat(), reqs, u, j);
      }
    }

    /** A request's own page has its window page exactly from the frontier on. */
    lemma OwnWindowPage(u: int, j: nat)
      requires Valid() && u in reqs && reqs[u].handle.cachedLen <= j < |reqs[u].row|
      ensures u in frontier && 0 <= reqs[u].row[j] < |pool.swa.toPage|
      ensures pool.swa.toPage[reqs[u].row[j]] >= 0 <==> frontier[u] <= j
    {
      hide Owned, CacheInv, AllBound, FrontiersOk, Locks, TailsOf;
      RequestBound(reqs, paths, cache.path, pool.swa.toPage, frontier, u);
      OwnPageKnown(pool.View(), pages, Idle(), cache.Flat(), reqs, u, j);
    }

    // ----- a request arrives

    /** A locked handle gets a row with its pages. */
    method Register(u: int, h: Handle)
      requires PagesOwned(TailsOf(reqs), NOTHING) && AllBound(reqs, paths, cache.path)
      requires FrontiersOk(pool.swa.toPage, reqs, frontier)
      requires u !in reqs && cache.IsHandle(h) && cache.locked == Locks(paths) + Lock(cache.path[h.node])
      modifies this`reqs, this`paths, this`frontier
      ensures Valid() && cache.Valid() && h.node in cache.path
      ensures reqs == old(reqs)[u := Holder(h, PagesAlong(cache.Flat(), cache.path[h.node], Full))]
      ensures paths == old(paths)[u := cache.path[h.node]] && frontier == old(frontier)[u := 0]
    {
      hide Owned, PoolOk, CacheInv, AllBound, FrontiersOk, Locks, TailsOf, PagesAlong, Lock;
      ghost var p := cache.path[h.node];
      HandleStored(cache.View(), cache.locked, cache.counter, cache.evictableSize, cache.protectedSize, h.node);
      var row := cache.GetMatchedPages(h, Full);
      EntriesAlong(cache.Flat(), p, Full);
      NewRequest(reqs, paths, frontier, cache.path, pool.swa.toPage, u, Holder(h, row), p);
      EmptyTail(pool.View(), pages, Idle(), cache.Flat(), TailsOf(reqs), NOTHING, u);
      LocksAdd(paths, u, p);
      reqs := reqs[u := Holder(h, row)];
      paths := paths[u := p];
      frontier := frontier[u := 0];
    }

    /** The longest usable stored prefix of a prompt without its last token. */
    method MatchReq(ids: seq<int>) returns (h: Handle, ghost longest: nat)
      requires Valid() && |ids| > 0
      modifies cache`nodes, cache`counter, cache`path
      ensures cache.IsHandle(h) && cache.path[h.node] == Matched(ids, h.cachedLen)
      ensures Usable(cache.View(), Matchable(ids), h.cachedLen, longest)
      ensures BestPrefix(cache.View(), ids, h.cachedLen, longest, pageSize)
      ensures Valid() && cache.Valid() && old(cache.Valid()) && cache.Flat() == old(cache.Flat())
    {
      hide Owned, PoolOk, RefInv, AllBound, FrontiersOk, Locks, TailsOf, Blocks, StoredPath, NoLiveTailBetween, FlatOf,
        LongestMatch, BestPrefix;
      ghost var before := cache.path;
      h, longest := cache.MatchPrefix(Matchable(ids));
      InvWF(cache.View(), cache.locked, cache.counter, cache.evictableSize, cache.protectedSize);
      MatchWithin(cache.Flat(), Matchable(ids), longest, longest);
      UsableIsBest(cache.View(), ids, h.cachedLen, longest, pageSize);
      BoundExtends(reqs, paths, before, cache.path);
    }

    /** The blocks of a prompt without its last token. */
    function Matchable(ids: seq<int>): Path {
      if ids == [] then [] else Blocks(ids[..|ids| - 1], pageSize)
    }

    function Matched(ids: seq<int>, matched: nat): Path {
      if matched <= |Matchable(ids)| then Matchable(ids)[..matched] else Matchable(ids)
    }

    /** Pages of the shortest component lane that are free. */
    ghost function ComponentsFree(): nat
      reads pool
    {
      Least(|pool.c4.free|, Least(|pool.c128.free|, |pool.indexer.free|))
    }

    ghost function Supplies(): Supply
      reads this`free, pool, cache
    {
      Supply(|free|, ComponentsFree(), if cache.Valid() then cache.Flat() else map[], cache.locked)
    }

    /** What is refused while no request holds a row needs more than all pages hold. */
    lemma RefusedUnused(inputLen: nat, outputLen: nat, p: Path)
      requires Valid() && reqs == map[] && !inRegion && !Admits(Supplies(), inputLen, outputLen, 0, p, pageSize)
      ensures inputLen + outputLen > TokensIn(pages, pageSize)
    {
      hide Owned, PoolOk, CacheInv, AllBound, FrontiersOk, Admits, TokensIn, RadixPrefixCache.Flat;
      CacheInOrder();
      FlatInOrder();
      NoPaths();
      assert TailsOf(reqs) == map[] && lazy == [];
      FreeOrStored(pool.View(), pages, free, cache.Flat());
      RefusedWhenEmpty(Supplies(), pages, inputLen, outputLen, p, pageSize);
    }

    lemma NoPaths()
      requires Valid() && reqs == map[]
      ensures cache.locked == multiset{}
    {
      hide Owned, PoolOk, CacheInv, FrontiersOk;
      NoRequests(cache.path, pool.swa.toPage);
      assert paths == map[];
    }

    /** The `n` tokens fit into the full lane and into every component lane, once all that is
        not locked is evicted. */
    ghost predicate IsThere(n: nat)
      reads this`free, pool, cache
    {
      && cache.evictableSize >= 0
      && n <= TokensIn(|free| + cache.evictableSize, pageSize)
      && n <= TokensIn(|pool.c4.free| + cache.evictableSize, pageSize)
      && n <= TokensIn(|pool.c128.free| + cache.evictableSize, pageSize)
      && n <= TokensIn(|pool.indexer.free| + cache.evictableSize, pageSize)
    }

    /** One of the lanes has no more: the full lane, of which eviction gives back the live
        pages only, or a component lane. */
    ghost predicate IsAll(n: nat)
      reads this`free, pool, cache
    {
      && cache.Valid() && cache.evictableSize >= 0
      && (|| n == TokensIn(|free| + SpareOf(cache.Flat(), cache.locked, true), pageSize)
          || n == TokensIn(|pool.c4.free| + cache.evictableSize, pageSize)
          || n == TokensIn(|pool.c128.free| + cache.evictableSize, pageSize)
          || n == TokensIn(|pool.indexer.free| + cache.evictableSize, pageSize))
    }

    /** The tokens that fit into what is free or can be evicted. */
    method AvailableSize() returns (n: nat)
      requires cache.Valid()
      ensures n == Room(Supplies(), pageSize)
      ensures IsThere(n) && IsAll(n) && n <= TokensIn(|free| + SpareOf(cache.Flat(), cache.locked, true), pageSize)
    {
      hide RadixPrefixCache.Valid, RadixPrefixCache.Flat, SpareOf, TokensIn;
      var live := cache.EvictablePages(true);
      var blocks := cache.EvictablePages(false);
      var components := pool.AvailableComponentPages();
      var most := Least(|free| + live, components + blocks);
      n := TokensIn(most, pageSize);
      cache.EvictableBlocks();
      LiveAmongBlocks(cache.Flat(), cache.locked);
      TokensGrow(most, |free| + live, pageSize);
      TokensGrow(most, |free| + blocks, pageSize);
      TokensGrow(most, |pool.c4.free| + blocks, pageSize);
      TokensGrow(most, |pool.c128.free| + blocks, pageSize);
      TokensGrow(most, |pool.indexer.free| + blocks, pageSize);
    }

    /** A batch that needs no more than is available can be short of window pages only. */
    lemma OnlyWindowShort(batch: seq<Extend>)
      requires Valid() && TokensIn(NeededPages(batch, pageSize), pageSize) <= Room(Supplies(), pageSize)
      ensures Short(NeededPages(batch, pageSize)) <==>
        |pool.swa.free| + cache.evictableSize < NeededPages(batch, pageSize)
    {
      hide Owned, AllBound, FrontiersOk, Locks, Room, SpareOf, TokensIn, NeededPages, RadixPrefixCache.Valid,
        RadixPrefixCache.Flat;
      CacheInOrder();
      cache.EvictableBlocks();
      RoomFits(Supplies(), cache.evictableSize, NeededPages(batch, pageSize), pageSize);
    }

    /** Admission.  A new request locks its stored prefix and gets its row unless what it may
        still need, on top of what is reserved, does not fit into what is available.  This
        is looked at again under the lock, and a refusal undoes the lock. */
    method TryAllocateOne(u: int, ids: seq<int>, outputLen: nat, reserved: nat)
      returns (admitted: bool, matched: nat, ghost longest: nat, ghost t: Tree)
      requires Valid() && u !in reqs && |ids| > 0
      modifies this`reqs, this`paths, this`frontier, cache
      ensures Usable(t, Matchable(ids), matched, longest) && FlatOf(t) == old(Supplies()).f
      ensures cache.View() == if admitted then Bump(t, Matched(ids, matched), 0, 1) else t
      ensures admitted <==> Admits(old(Supplies()), |ids|, outputLen, reserved, Matched(ids, matched), pageSize)
      ensures Supplies() == if admitted then WithLock(old(Supplies()), Matched(ids, matched)) else old(Supplies())
      ensures admitted ==> u in reqs && u in paths && reqs == old(reqs)[u := reqs[u]]
      ensures admitted ==> paths == old(paths)[u := Matched(ids, matched)] && frontier == old(frontier)[u := 0]
      ensures !admitted ==> reqs == old(reqs) && paths == old(paths) && frontier == old(frontier)
      ensures Valid() && cache.Valid() && old(cache.Valid()) && cache.Flat() == old(cache.Flat())
      ensures admitted ==> reqs[u].handle.cachedLen == matched
      ensures admitted ==> reqs[u].row == PagesAlong(cache.Flat(), paths[u], Full)
    {
      hide Valid, RadixPrefixCache.Valid, Usable, Matched, Room, Bump, PagesAlong, Matchable, FlatOf;
      CacheInOrder();
      var h;
      ghost var l, before;
      before := Supplies();
      h, l := MatchReq(ids);
      longest, matched, t := l, h.cachedLen, cache.View();
      MatchedLen(t, ids, matched, longest);
      assert Supplies() == before;
      var available := AvailableSize();
      RoomShrinks(before, WithLock(before, Matched(ids, matched)), pageSize);
      var need := Estimate(|ids|, matched, outputLen, pageSize) + reserved;
      if need > available {
        return false, matched, longest, t;
      }
      admitted := LockAndLook(u, h, need);
    }

    lemma MatchedLen(t: Tree, ids: seq<int>, matched: nat, longest: nat)
      requires Usable(t, Matchable(ids), matched, longest)
      ensures |Matched(ids, matched)| == matched
    {
    }

    /** Locks a handle that no request has yet. */
    method LockOnly(h: Handle)
      requires Valid() && cache.IsHandle(h)
      modifies cache`nodes, cache`evictableSize, cache`protectedSize, cache`locked
      ensures PagesOwned(TailsOf(reqs), NOTHING) && AllBound(reqs, paths, cache.path)
      ensures FrontiersOk(pool.swa.toPage, reqs, frontier)
      ensures cache.IsHandle(h) && cache.locked == Locks(paths) + Lock(cache.path[h.node])
      ensures cache.Valid() && old(cache.Valid()) && cache.Flat() == old(cache.Flat())
      ensures cache.View() == Bump(old(cache.View()), cache.path[h.node], 0, 1)
      ensures old(cache.locked) == Locks(paths)
    {
      hide Owned, PoolOk, CacheInv, AllBound, FrontiersOk, Locks, TailsOf, Bump;
      cache.LockHandle(h, false);
      HandleStays(h);
    }

    /** The second half of admission: the lock, and the same check under it. */
    method LockAndLook(u: int, h: Handle, need: int) returns (admitted: bool)
      requires Valid() && u !in reqs && cache.IsHandle(h)
      modifies this`reqs, this`paths, this`frontier, cache`nodes, cache`evictableSize, cache`protectedSize, cache`locked
      ensures admitted <==> need <= Room(WithLock(old(Supplies()), cache.path[h.node]), pageSize)
      ensures Supplies() == if admitted then WithLock(old(Supplies()), cache.path[h.node]) else old(Supplies())
      ensures cache.View() == if admitted then Bump(old(cache.View()), cache.path[h.node], 0, 1) else old(cache.View())
      ensures admitted ==> u in reqs && reqs == old(reqs)[u := reqs[u]] && paths == old(paths)[u := cache.path[h.node]]
      ensures admitted ==> frontier == old(frontier)[u := 0]
      ensures !admitted ==> reqs == old(reqs) && paths == old(paths) && frontier == old(frontier)
      ensures Valid() && cache.Valid() && old(cache.Valid()) && cache.Flat() == old(cache.Flat())
      ensures admitted ==> reqs[u].handle == h && reqs[u].row == PagesAlong(cache.Flat(), cache.path[h.node], Full)
    {
      hide PagesOwned, RadixPrefixCache.Valid, AllBound, FrontiersOk, Locks, Lock, Room, Bump, PagesAlong, TailsOf,
        FlatOf;
      CacheInOrder();
      LockUndone(cache.View(), cache.path[h.node]);
      LockOnly(h);
      var available := AvailableSize();
      admitted := need <= available;
      if admitted {
        Register(u, h);
      } else {
        Unregistered(h);
      }
    }

    /** Unlocks a handle that was locked in vain. */
    method Unregistered(h: Handle)
      requires PagesOwned(TailsOf(reqs), NOTHING) && AllBound(reqs, paths, cache.path)
      requires FrontiersOk(pool.swa.toPage, reqs, frontier)
      requires cache.IsHandle(h) && cache.locked == Locks(paths) + Lock(cache.path[h.node])
      modifies cache`nodes, cache`evictableSize, cache`protectedSize, cache`locked
      ensures Valid() && cache.Valid() && old(cache.Valid()) && cache.Flat() == old(cache.Flat())
      ensures cache.locked == Locks(paths)
      ensures cache.View() == Bump(old(cache.View()), cache.path[h.node], 0, -1)
    {
      hide Owned, PoolOk, CacheInv, AllBound, FrontiersOk, Locks, TailsOf, Bump;
      cache.LockHandle(h, true);
      assert cache.locked == Locks(paths);
    }

    // ----- lazy frees and the integrity check

    method BeginLazyFree()
      requires Valid() && !inRegion
      modifies this`inRegion
      ensures Valid() && inRegion
    {
      hide Owned, CacheInv, AllBound, FrontiersOk, Locks, TailsOf;
      inRegion := true;
    }

    /** The pages freed in the region join the free list. */
    method EndLazyFree()
      requires Valid() && inRegion
      modifies this`inRegion, this`free, this`lazy
      ensures Valid() && !inRegion && free == old(free) + old(lazy) && lazy == []
    {
      hide Owned, CacheInv, AllBound, FrontiersOk, Locks, TailsOf;
      assert multiset(free + lazy) + multiset([]) == multiset(free) + multiset(lazy);
      free := free + lazy;
      lazy := [];
      inRegion := false;
    }

    /** The idle check walks the tree, counts the pages in use and looks at the pool.  It passes
        exactly when free and used pages add up, and outside a lazy region they do. */
    method CheckIntegrity() returns (ok: bool)
      requires Valid()
      ensures ok <==> |free| + Referenced(pool.full, |pool.full|) == pages
      ensures !inRegion ==> ok
    {
      hide Owned, CacheInv, AllBound, FrontiersOk, Locks, TailsOf, ChecksPass, RadixPrefixCache.BooksOk, PoolOk;
      BooksInOrder();
      var walked := cache.CheckIntegrity();
      var live := 0;
      for p := 0 to |pool.full|
        invariant live == Referenced(pool.full, p)
      {
        if pool.full[p] > 0 {
          live := live + 1;
        }
      }
      ok := walked && ChecksPass(pool.View()) && |free| + live == pages;
      if !inRegion {
        LiveAndFree(pool.View(), pages, free, cache.Flat(), TailsOf(reqs));
      }
    }

    lemma BooksInOrder()
      requires Valid()
      ensures WF(cache.View()) && cache.BooksOk() && ChecksPass(pool.View())
    {
      hide AllBound, FrontiersOk, Locks, TailsOf, SizeOf, ChecksPass;
      OwnedPool(pool.View(), pages, Idle(), cache.Flat(), TailsOf(reqs), NOTHING);
      InOrderPasses(pool.View());
      CountsInOrder(cache.View(), cache.locked);
    }
  }
}
