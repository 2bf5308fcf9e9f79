/** The scheduler and the cache manager together: one iteration of the overlapped loop
    with all its cache calls. */
module Serving {
  import opened Options
  import opened RadixCache
  import opened RadixTree
  import opened Paging
  import opened RequestLife
  import opened ServingSteps
  import opened Reasoning
  import C = CacheSteps
  import S = SchedulerSteps
  import CacheManagement
  import PrefixMap
  import Scheduling

  datatype Msg =
    | UserMsg(uid: int, tokens: seq<int>, maxTokens: nat, ignoreEos: bool, effort: Option<string>)
    | AbortMsg(uid: int)

  /** Well-formed messages whose user ids are new. */
  predicate MsgsOk(msgs: seq<Msg>, seen: set<int>)
    decreases |msgs|
  {
    if msgs == [] then true
    else match msgs[0]
      case AbortMsg(_) => MsgsOk(msgs[1..], seen)
      case UserMsg(uid, tokens, maxTokens, _, effort) =>
        uid !in seen && |tokens| >= 1 && maxTokens >= 1 && Initial(effort).Some? && MsgsOk(msgs[1..], seen + {uid})
  }

  /** Requests that were known before and are aborted by a message are not active. */
  ghost predicate AbortsStopped(msgs: seq<Msg>, known: set<int>, reqs: map<int, S.Req>) {
    forall m :: m in msgs && m.AbortMsg? && m.uid in known ==> S.Stopped(reqs, m.uid)
  }

  class Server {
    const scheduler: Scheduling.Scheduler
    const manager: CacheManagement.CacheManager
    var prompts: Prompts
    var evicted: map<int, nat>
    var older: map<int, nat>

    ghost function View(): Link
      reads this, scheduler, manager
    {
      Link(scheduler.reqs, manager.reqs, manager.paths, manager.frontier, prompts, evicted, older, manager.pageSize,
        manager.window)
    }

    /** The scheduler and the manager are in order and agree on who holds what, no forward in
        flight or to come sees a position whose window page was released, and what lies far
        enough behind was released. */
    ghost predicate Valid()
      reads this, scheduler, manager, manager.cache, manager.pool
    {
      && scheduler.Valid() && manager.Valid()
      && Linked(View()) && WindowsKept(View(), scheduler.last + scheduler.ongoing)
      && WindowsTrimmed(View(), scheduler.last + scheduler.ongoing)
    }

    constructor (slots: nat, maxSeqLen: nat, ids: TokenIds, pages: nat, pageSize: PageSize, window: nat, swaPages: nat)
      requires swaPages > 0
      ensures Valid() && fresh(scheduler) && fresh(manager) && fresh(manager.cache) && fresh(manager.pool)
      ensures scheduler.ongoing == [] && scheduler.last == [] && !manager.inRegion && scheduler.maxSeqLen == maxSeqLen
      ensures scheduler.reqs == map[] && scheduler.seen == {} && scheduler.slots == slots && manager.pages == pages
    {
      hide CacheManagement.CacheManager.Valid, S.WorldOk, S.BooksOk, OncePerRequest;
      scheduler := new Scheduling.Scheduler(slots, maxSeqLen, ids);
      manager := new CacheManagement.CacheManager(pages, pageSize, window, swaPages);
      prompts, evicted, older := map[], map[], map[];
    }

    // ----- the cache calls of one request

    ghost predicate Fits(g: int)
      reads this, scheduler, manager
    {
      && g in scheduler.reqs && g in manager.reqs && g in manager.paths && g in manager.frontier && g in prompts
      && RowFits(scheduler.reqs[g], manager.reqs[g].row, manager.paths[g], prompts[g], manager.pageSize)
    }

    /** A retired request stores its blocks and gives its row and lock back. */
    method FinishRequest(g: int)
      requires manager.Valid() && Fits(g) && g in evicted && Behind(evicted[g], manager.frontier[g], manager.pageSize)
      requires scheduler.reqs[g].cached <= |Ids(scheduler.reqs[g], prompts[g])|
      modifies manager, manager.cache, manager.pool
      ensures manager.Valid() && manager.inRegion == old(manager.inRegion)
      ensures manager.reqs == old(manager.reqs) - {g} && manager.paths == old(manager.paths) - {g}
      ensures manager.frontier == old(manager.frontier) - {g}
      ensures IsStored(Computed(g))
    {
      hide CacheManagement.CacheManager.Valid, Blocks, RadixPrefixCache.Valid, RadixPrefixCache.Flat, C.Settled,
        PrefixMap.StoredPath, C.BeforeLast;
      var r := scheduler.reqs[g];
      manager.CacheInOrder();
      ghost var f, row, toPage := manager.cache.Flat(), manager.reqs[g].row, manager.pool.swa.toPage;
      PathFits(manager.paths[g], Ids(r, prompts[g]), r.cached, manager.pageSize);
      manager.CacheReq(g, Ids(r, prompts[g]), r.cached, evicted[g], true);
      C.SettledStores(f, manager.cache.Flat(), Computed(g), row, toPage,
        C.BeforeLast(|Computed(g)|, manager.WindowBlocks()), C.BeforeLast(|Computed(g)|, 1));
    }

    /** The blocks of what has been computed of a request. */
    ghost function Computed(g: int): Path
      reads this, scheduler
    {
      if g in scheduler.reqs && g in prompts && scheduler.reqs[g].cached <= |Ids(scheduler.reqs[g], prompts[g])| then
        Blocks(Ids(scheduler.reqs[g], prompts[g])[..scheduler.reqs[g].cached], manager.pageSize)
      else []
    }

    ghost predicate IsStored(p: Path)
      reads manager.cache
    {
      manager.cache.Valid() && PrefixMap.StoredPath(manager.cache.Flat(), p)
    }

    /** A request whose prompt is computed stores its blocks and goes on.  What this releases
        lies below the window of every forward that starts at `at` or later. */
    method StorePrompt(g: int, ghost at: nat)
      requires manager.Valid() && Fits(g) && g in evicted && Behind(evicted[g], manager.frontier[g], manager.pageSize)
      requires scheduler.reqs[g].cached <= |Ids(scheduler.reqs[g], prompts[g])| && scheduler.reqs[g].cached <= at + 1
      modifies manager, manager.cache, manager.pool
      ensures manager.Valid() && manager.inRegion == old(manager.inRegion) && Fits(g)
      ensures manager.reqs == old(manager.reqs)[g := manager.reqs[g]]
      ensures manager.paths == old(manager.paths)[g := manager.paths[g]]
      ensures manager.frontier == old(manager.frontier)
      ensures manager.paths[g] == Computed(g)
      ensures manager.cache.Valid() && old(manager.cache.Valid())
      ensures StoreSpared(old(manager.cache.Flat()), old(manager.reqs)[g].row, old(manager.pool.swa.toPage), g, at)
    {
      hide CacheManagement.CacheManager.Valid, C.Settled, C.StoreLosesAt, Blocks, RadixPrefixCache.Valid,
        RadixPrefixCache.Flat, C.BeforeLast;
      var r := scheduler.reqs[g];
      manager.CacheInOrder();
      ghost var f, row, toPage := manager.cache.Flat(), manager.reqs[g].row, manager.pool.swa.toPage;
      PathFits(manager.paths[g], Ids(r, prompts[g]), r.cached, manager.pageSize);
      StoredFits(Ids(r, prompts[g]), r.cached, manager.pageSize);
      manager.CacheReq(g, Ids(r, prompts[g]), r.cached, evicted[g], false);
      C.StoreSpares(f, manager.cache.Flat(), manager.paths[g], row, toPage, manager.WindowBlocks(),
        C.BeforeLast(|manager.paths[g]|, 1), manager.window, manager.pageSize, r.cached, at);
    }

    /** Whatever request `g` has lost of its window pages by storing its blocks lies below the
        window of a forward that starts at `at`. */
    ghost predicate StoreSpared(f: Flat, row: seq<int>, toPage: seq<int>, g: int, at: int)
      reads this, manager, manager.cache
    {
      && g in manager.paths && manager.cache.Valid()
      && forall q: nat ::
           C.StoreLosesAt(f, manager.cache.Flat(), manager.paths[g], row, toPage, q, manager.pageSize) ==>
           q + manager.window <= at
    }

    lemma SparedLater(f: Flat, row: seq<int>, toPage: seq<int>, g: int, at: int, later: int)
      requires StoreSpared(f, row, toPage, g, at) && at <= later
      ensures StoreSpared(f, row, toPage, g, later)
    {
      hide C.StoreLosesAt;
    }

    /** The own window pages of request `g` begin less than a window and two pages in front of
        `at`. */
    ghost predicate TrimmedAt(g: int, at: nat)
      reads this, manager
    {
      && g in manager.paths && g in manager.frontier
      && C.Trimmed(C.Max(|manager.paths[g]|, manager.frontier[g]), at + 1, manager.window, manager.pageSize)
    }

    /** A request that has just stored its blocks has next to nothing of its own in front. */
    lemma StoredTrimmed(g: int, at: nat)
      requires g in scheduler.reqs && g in prompts && g in manager.frontier
      requires g in manager.paths && manager.paths[g] == Computed(g)
      requires at <= scheduler.reqs[g].cached <= |Ids(scheduler.reqs[g], prompts[g])|
      ensures TrimmedAt(g, at)
    {
      hide Blocks;
      var cached := scheduler.reqs[g].cached;
      BlockCount(Ids(scheduler.reqs[g], prompts[g])[..cached], manager.pageSize);
      BlocksReach(cached, at, C.Max(|manager.paths[g]|, manager.frontier[g]), manager.window, manager.pageSize);
    }

    /** The window of a request moves on; `remembered` may be an older frontier.  What is
        released lies below the window of every forward that starts at `at` or later. */
    method MoveWindow(g: int, deviceLen: nat, remembered: nat, ghost at: nat) returns (now: nat)
      requires manager.Valid() && Fits(g) && Behind(remembered, manager.frontier[g], manager.pageSize)
      requires deviceLen <= scheduler.reqs[g].cached + 1 && deviceLen <= at + 2
      modifies manager`frontier, manager.pool
      ensures manager.Valid() && Fits(g) && Behind(now, manager.frontier[g], manager.pageSize)
      ensures g in old(manager.frontier) && manager.frontier[g] >= old(manager.frontier)[g]
      ensures manager.frontier == old(manager.frontier)[g := manager.frontier[g]]
      ensures now == C.WindowEnd(deviceLen, remembered, manager.reqs[g].handle.cachedLen, manager.window,
        manager.pageSize)
      ensures manager.frontier[g] == old(manager.frontier)[g]
        || C.OutOfWindow(manager.frontier[g], at, manager.window, manager.pageSize)
      ensures C.ReleasedBelow(old(manager.pool.swa.toPage), manager.pool.swa.toPage, manager.reqs[g], at,
        manager.window, manager.pageSize)
      ensures deviceLen > 0 ==> TrimmedAt(g, deviceLen - 1)
    {
      hide CacheManagement.CacheManager.Valid, Blocks, C.KeptFrom, C.WindowEnd, C.ReleasedBelow, C.TailsOf, C.Trimmed,
        C.NoneLeftBehind;
      CeilNext(scheduler.reqs[g].cached, manager.pageSize);
      CeilMonotone(deviceLen, scheduler.reqs[g].cached + 1, manager.pageSize);
      ghost var before := manager.pool.swa.toPage;
      now := manager.ReleaseActiveSwa(g, deviceLen, remembered);
      C.BelowLater(before, manager.pool.swa.toPage, manager.reqs[g], deviceLen - manager.pageSize - 1, at,
        manager.window, manager.pageSize);
    }

    // ----- results

    /** Reads one row of the previous forward.  A request that retires gives its pages and
        its lock back, a computed prompt is stored, and otherwise the window moves on.  What
        is released then lies below the window of every forward of the request in flight
        and of every later one. */
    method ProcessRow()
      requires Valid() && scheduler.last != []
      modifies scheduler, manager, manager.cache, manager.pool, this`evicted, this`older
      ensures Valid() && manager.inRegion == old(manager.inRegion)
      ensures scheduler.last == old(scheduler.last)[1..] && scheduler.ongoing == old(scheduler.ongoing)
      ensures Used(old(scheduler.last)[0], old(evicted), old(older)) && scheduler.seen == old(scheduler.seen)
      ensures S.WaitingKept(old(scheduler.reqs), scheduler.reqs)
      ensures S.Hosted(old(scheduler.reqs), old(scheduler.last), scheduler.reqs, scheduler.last)
      ensures Advances(old(scheduler.last)[0]) ==>
        ReleasedUnseen(old(manager.pool.swa.toPage), old(scheduler.last)[0].gen, scheduler.last + scheduler.ongoing)
      ensures Stores(old(scheduler.last)[0]) ==> old(manager.cache.Valid())
      ensures Stores(old(scheduler.last)[0]) ==> old(scheduler.last)[0].gen in old(manager.reqs)
      ensures Stores(old(scheduler.last)[0]) ==>
        StoreUnseen(old(manager.cache.Flat()), old(manager.reqs)[old(scheduler.last)[0].gen].row,
          old(manager.pool.swa.toPage),
          old(scheduler.last)[0].gen, scheduler.last + scheduler.ongoing)
      ensures Advances(old(scheduler.last)[0]) ==>
        C.NoneLeftBehind(manager.pool.swa.toPage, manager.reqs[old(scheduler.last)[0].gen],
          old(scheduler.last)[0].at + 1, manager.window, manager.pageSize)
    {
      hide CacheManagement.CacheManager.Valid, S.WorldOk, S.BooksOk, S.InSequence, Linked, HolderOk, RowFits, Behind,
        WindowsKept, WindowsTrimmed, WindowKept, S.Processed, S.Final, TokensOf, OncePerRequest, S.Holds, C.OutOfWindow,
        C.ReleasedBelow, Used, C.LosesAt, S.WaitingKept, StoreSpared, TrimmedAt, WindowsTrimmed, S.RowReplied,
        S.Hosted, C.NoneLeftBehind, C.StoreLosesAt, FirstStart, S.AfterResult;
      ghost var w, flight, k := scheduler.View(), scheduler.last + scheduler.ongoing, View();
      ghost var before := manager.pool.swa.toPage;
      var ref := scheduler.last[0];
      var g := ref.gen;
      S.FrontRequest(w, scheduler.last, scheduler.ongoing, scheduler.ids);
      FrontHolds(w, flight, scheduler.ids);
      ProcessedShape(scheduler.reqs[g], ref, scheduler.ids.eos);
      HeldByManager(k, g);
      ResultFits(k, g, ref, scheduler.ids.eos);
      OneLeft(scheduler.last, scheduler.ongoing);
      S.FewTokens(scheduler.last, scheduler.ongoing, g);
      S.RestStartsLater(w, flight, scheduler.ids);
      S.ResultKeepsWaiting(w.reqs, g, ref, scheduler.ids.eos);
      scheduler.ProcessRow();
      S.HostedRow(w.reqs, old(scheduler.last), scheduler.reqs[g], old(scheduler.log), scheduler.log,
        scheduler.ids.eos);
      assert scheduler.last + scheduler.ongoing == flight[1..];
      HostCovers(scheduler.View(), flight[1..], scheduler.ids, g);
      WindowsRest(k, flight);
      UseCache(ref, k);
      RestLater(flight, ref.at);
      WindowsResult(k, View(), g, flight[1..], ref.at);
      RowTrimmed(k, flight);
      if Advances(ref) {
        BelowMeans(before, manager.pool.swa.toPage, manager.reqs[g], ref.at, manager.window, manager.pageSize);
        TrimmedHere(g, ref.at);
      }
      if Stores(ref) {
        SparedAll(old(manager.cache.Flat()), k.holders[g].row, before, g, flight[1..], ref.at);
      }
    }

    lemma RowTrimmed(k: Link, flight: seq<Ref>)
      requires flight != [] && WindowsTrimmed(k, flight) && Linked(View())
      requires View().ps == k.ps && View().window == k.window && manager.reqs.Keys <= k.holders.Keys
      requires Elsewhere(k.reqs, scheduler.reqs, flight[0].gen) && Elsewhere(k.paths, manager.paths, flight[0].gen)
      requires Elsewhere(k.frontier, manager.frontier, flight[0].gen) && flight[0].gen in scheduler.reqs
      requires flight[0].at == FirstStart(flight[1..], flight[0].gen, scheduler.reqs[flight[0].gen].cached)
      requires scheduler.reqs[flight[0].gen].life.state == Active ==> TrimmedAt(flight[0].gen, flight[0].at)
      ensures WindowsTrimmed(View(), flight[1..])
    {
      hide Linked, WindowsTrimmed, C.Trimmed;
      var g := flight[0].gen;
      HolderKnown(View(), g);
      assert g in manager.reqs ==> WindowTrimmed(View(), g, flight[1..]);
      TrimmedResult(k, View(), g, flight);
    }

    lemma SparedAll(f: Flat, row: seq<int>, toPage: seq<int>, g: int, flight: seq<Ref>, at: nat)
      requires StoreSpared(f, row, toPage, g, at) && g in scheduler.reqs && at <= scheduler.reqs[g].cached
      requires forall i :: 0 <= i < |flight| && flight[i].gen == g ==> at <= flight[i].from
      ensures StoreUnseen(f, row, toPage, g, flight)
    {
      hide StoreSpared;
      SparedLater(f, row, toPage, g, at, scheduler.reqs[g].cached);
      forall i | 0 <= i < |flight| && flight[i].gen == g ensures StoreSpared(f, row, toPage, g, flight[i].from) {
        SparedLater(f, row, toPage, g, at, flight[i].from);
      }
    }

    /** The result completes the prompt of an active request. */
    ghost predicate Stores(ref: Ref)
      reads scheduler
    {
      && ref.gen in scheduler.reqs && scheduler.reqs[ref.gen].life.state == Active
      && !ref.chunk && ref.at == scheduler.reqs[ref.gen].prompt
    }

    /** What storing its prompt takes from request `g` no forward of it in `flight` attends to,
        and no later one. */
    ghost predicate StoreUnseen(f: Flat, row: seq<int>, toPage: seq<int>, g: int, flight: seq<Ref>)
      reads this, scheduler, manager, manager.cache
    {
      && g in scheduler.reqs && StoreSpared(f, row, toPage, g, scheduler.reqs[g].cached)
      && forall i :: 0 <= i < |flight| && flight[i].gen == g ==> StoreSpared(f, row, toPage, g, flight[i].from)
    }

    ghost function Window(g: int, deviceLen: nat, remembered: nat): nat
      reads this, manager
      requires g in manager.reqs
    {
      C.WindowEnd(deviceLen, remembered, manager.reqs[g].handle.cachedLen, manager.window, manager.pageSize)
    }

    /** The result moves the window of its request: a chunk or a decode step of an active
        one. */
    ghost predicate Advances(ref: Ref)
      reads scheduler
    {
      && ref.gen in scheduler.reqs && scheduler.reqs[ref.gen].life.state == Active
      && (ref.chunk || ref.at != scheduler.reqs[ref.gen].prompt)
    }

    /** Every position of the pages of request `g` that lost its window page lies below the
        window of all its forwards in `flight` and of every later one, which starts behind
        what is computed. */
    ghost predicate ReleasedUnseen(before: seq<int>, g: int, flight: seq<Ref>)
      reads this, scheduler, manager, manager.pool
    {
      && g in manager.reqs && g in scheduler.reqs
      && forall q: nat :: C.LosesAt(before, manager.pool.swa.toPage, manager.reqs[g], q, manager.pageSize) ==>
           && q + manager.window <= scheduler.reqs[g].cached
           && forall i :: 0 <= i < |flight| && flight[i].gen == g ==> q + manager.window <= flight[i].from
    }

    /** What the manager did for the request of a result. */
    ghost predicate Used(ref: Ref, before: map<int, nat>, olderBefore: map<int, nat>)
      reads this, scheduler, manager, manager.cache
    {
      var g := ref.gen;
      && g in scheduler.reqs
      && var s := scheduler.reqs[g];
         && (s.life.state == Retired ==> g !in manager.reqs && IsStored(Computed(g)))
         && (s.life.state == Active ==>
               && g in manager.reqs && g in manager.paths && g in evicted && g in older && g in before
               && g in olderBefore && g in prompts
               && s.cached <= |Ids(s, prompts[g])|
               && (if ref.chunk then
                     if ref.epoch + 1 == s.life.nextEpoch then evicted[g] == Window(g, ref.at + 1, before[g])
                     else older[g] == Window(g, ref.at + 1, olderBefore[g])
                   else if ref.at == s.prompt then manager.paths[g] == Computed(g)
                   else evicted[g] == Window(g, s.device, before[g])))
    }

    /** The window of a request moves on after a chunk or a decode step.  The chunk may not
        be the newest request object; then it is the older frontier that moves. */
    method Advance(ref: Ref)
      requires manager.Valid() && Fits(ref.gen) && ref.gen in evicted && ref.gen in older
      requires Behind(evicted[ref.gen], manager.frontier[ref.gen], manager.pageSize)
      requires Behind(older[ref.gen], manager.frontier[ref.gen], manager.pageSize)
      requires var s := scheduler.reqs[ref.gen];
               s.device == s.cached + 1 && ref.at <= s.cached && (!ref.chunk ==> s.cached <= ref.at + 1)
      modifies manager`frontier, manager.pool, this`evicted, this`older
      ensures manager.Valid() && Fits(ref.gen) && ref.gen in evicted && ref.gen in older
      ensures evicted == old(evicted)[ref.gen := evicted[ref.gen]] && older == old(older)[ref.gen := older[ref.gen]]
      ensures Behind(evicted[ref.gen], manager.frontier[ref.gen], manager.pageSize)
      ensures Behind(older[ref.gen], manager.frontier[ref.gen], manager.pageSize)
      ensures ref.gen in old(manager.frontier)
      ensures manager.frontier == old(manager.frontier)[ref.gen := manager.frontier[ref.gen]]
      ensures manager.frontier[ref.gen] == old(manager.frontier)[ref.gen]
              || C.OutOfWindow(manager.frontier[ref.gen], ref.at, manager.window, manager.pageSize)
      ensures C.ReleasedBelow(old(manager.pool.swa.toPage), manager.pool.swa.toPage, manager.reqs[ref.gen], ref.at,
        manager.window, manager.pageSize)
      ensures TrimmedAt(ref.gen, ref.at)
      ensures if ref.chunk then
                if ref.epoch + 1 == scheduler.reqs[ref.gen].life.nextEpoch
                  then evicted[ref.gen] == Window(ref.gen, ref.at + 1, old(evicted)[ref.gen])
                else older[ref.gen] == Window(ref.gen, ref.at + 1, old(older)[ref.gen])
              else evicted[ref.gen] == Window(ref.gen, scheduler.reqs[ref.gen].device, old(evicted)[ref.gen])
    {
      hide CacheManagement.CacheManager.Valid, RowFits, Behind, C.WindowEnd, C.OutOfWindow, C.ReleasedBelow, C.Trimmed;
      var g := ref.gen;
      ghost var f, e, o := manager.frontier[g], evicted[g], older[g];
      if ref.chunk && ref.epoch + 1 != scheduler.reqs[g].life.nextEpoch {
        var now := MoveWindow(g, ref.at + 1, older[g], ref.at);
        older := older[g := now];
        BehindMore(e, f, manager.frontier[g], manager.pageSize);
      } else {
        var now := MoveWindow(g, if ref.chunk then ref.at + 1 else scheduler.reqs[g].device, evicted[g], ref.at);
        evicted := evicted[g := now];
        BehindMore(o, f, manager.frontier[g], manager.pageSize);
        if !ref.chunk {
          TrimmedEarlier(g, scheduler.reqs[g].cached, ref.at);
        }
      }
    }

    lemma TrimmedHere(g: int, at: nat)
      requires manager.Valid() && g in manager.reqs && TrimmedAt(g, at)
      ensures C.NoneLeftBehind(manager.pool.swa.toPage, manager.reqs[g], at + 1, manager.window, manager.pageSize)
    {
      hide CacheManagement.CacheManager.Valid, C.Trimmed, C.NoneLeftBehind;
      manager.TrimmedPages(g, at + 1);
    }

    lemma TrimmedEarlier(g: int, at: nat, earlier: nat)
      requires TrimmedAt(g, at) && earlier <= at
      ensures TrimmedAt(g, earlier)
    {
      var kept := C.Max(|manager.paths[g]|, manager.frontier[g]);
      C.TrimmedMore(kept, at + 1, kept, earlier + 1, manager.window, manager.pageSize);
    }

    /** What the cache does for the request of a result: `k` is the link before. */
    method UseCache(ref: Ref, ghost k: Link)
      requires manager.Valid() && Linked(k) && k == View().(reqs := k.reqs) && ref.gen in k.reqs
      requires ref.gen in scheduler.reqs
      requires scheduler.reqs == k.reqs[ref.gen := scheduler.reqs[ref.gen]] && Fits(ref.gen) && S.Holds(k.reqs[ref.gen])
      requires var s := scheduler.reqs[ref.gen];
               && s.prompt == k.reqs[ref.gen].prompt && (S.Holds(s) <==> s.life.state != Retired)
               && s.device == s.cached + 1 && s.cached <= s.prompt + |s.committed|
               && ref.at <= s.cached && (s.life.state == Active && !ref.chunk ==> s.cached <= ref.at + 1)
      modifies manager, manager.cache, manager.pool, this`evicted, this`older
      ensures manager.Valid() && Linked(View()) && manager.inRegion == old(manager.inRegion)
      ensures Used(ref, old(evicted), old(older))
      ensures manager.reqs.Keys <= k.holders.Keys && Elsewhere(k.frontier, manager.frontier, ref.gen)
      ensures Elsewhere(k.paths, manager.paths, ref.gen)
      ensures scheduler.reqs[ref.gen].life.state == Active ==> ref.gen in manager.reqs && TrimmedAt(ref.gen, ref.at)
      ensures ref.gen in manager.reqs ==> ref.gen in k.frontier && ref.gen in manager.frontier
      ensures ref.gen in manager.reqs ==>
        manager.frontier[ref.gen] == k.frontier[ref.gen]
          || C.OutOfWindow(manager.frontier[ref.gen], ref.at, manager.window, manager.pageSize)
      ensures Advances(ref) ==> ref.gen in manager.reqs
      ensures Advances(ref) ==>
        C.ReleasedBelow(old(manager.pool.swa.toPage), manager.pool.swa.toPage, manager.reqs[ref.gen], ref.at,
          manager.window, manager.pageSize)
      ensures Stores(ref) ==> old(manager.cache.Valid()) && ref.gen in old(manager.reqs)
      ensures Stores(ref) ==>
        StoreSpared(old(manager.cache.Flat()), old(manager.reqs)[ref.gen].row, old(manager.pool.swa.toPage), ref.gen,
          ref.at)
    {
      hide CacheManagement.CacheManager.Valid, Linked, HolderOk, RowFits, Behind, S.Holds, C.WindowEnd, Blocks,
        C.OutOfWindow, C.ReleasedBelow, StoreSpared, RadixPrefixCache.Valid, RadixPrefixCache.Flat, IsStored,
        TrimmedAt;
      var g := ref.gen;
      var s := scheduler.reqs[g];
      HeldByManager(k, g);
      if s.life.state == Retired {
        FinishRequest(g);
        LinkedWithout(k, View(), g);
      } else {
        if s.life.state == Active {
          if !ref.chunk && ref.at == s.prompt {
            StorePrompt(g, ref.at);
            StoredTrimmed(g, ref.at);
          } else {
            Advance(ref);
          }
        }
        HolderMade(View(), g);
        LinkedAfter(k, View(), g);
      }
    }

    /** Reads the whole previous forward; what is freed meanwhile reaches the free list at
        the end. */
    method ProcessLast()
      requires Valid() && !manager.inRegion
      modifies scheduler, manager, manager.cache, manager.pool, this`evicted, this`older
      ensures Valid() && !manager.inRegion && scheduler.last == [] && scheduler.ongoing == old(scheduler.ongoing)
      ensures scheduler.seen == old(scheduler.seen) && S.WaitingKept(old(scheduler.reqs), scheduler.reqs)
      ensures S.Hosted(old(scheduler.reqs), old(scheduler.last), scheduler.reqs, [])
    {
      hide CacheManagement.CacheManager.Valid, S.WorldOk, S.BooksOk, Linked, WindowsKept, WindowsTrimmed, S.InSequence,
        OncePerRequest, S.Hosted;
      S.HostedNone(scheduler.reqs, scheduler.last);
      manager.BeginLazyFree();
      while scheduler.last != []
        invariant Valid() && manager.inRegion && scheduler.ongoing == old(scheduler.ongoing)
        invariant scheduler.seen == old(scheduler.seen)
        invariant S.WaitingKept(old(scheduler.reqs), scheduler.reqs)
        invariant S.Hosted(old(scheduler.reqs), old(scheduler.last), scheduler.reqs, scheduler.last)
        decreases |scheduler.last|
      {
        ghost var before, rows := scheduler.reqs, scheduler.last;
        ProcessRow();
        S.HostedThrough(old(scheduler.reqs), old(scheduler.last), before, rows, scheduler.reqs, scheduler.last);
        S.KeptThrough(old(scheduler.reqs), before, scheduler.reqs);
      }
      manager.EndLazyFree();
    }

    /** In every state of every run: whatever position a forward in flight attends to in the
        pages of its own request, the window page of that position is there. */
    lemma WindowPresent(i: nat, q: nat)
      requires Valid() && i < |scheduler.last + scheduler.ongoing|
      requires var ref := (scheduler.last + scheduler.ongoing)[i]; q < ref.at && ref.from < q + manager.window
      ensures var g := (scheduler.last + scheduler.ongoing)[i].gen; var j := PagesIn(q, manager.pageSize);
              && g in manager.reqs && j < |manager.reqs[g].row|
              && (manager.reqs[g].handle.cachedLen <= j ==>
                    && 0 <= manager.reqs[g].row[j] < |manager.pool.swa.toPage|
                    && manager.pool.swa.toPage[manager.reqs[g].row[j]] >= 0)
    {
      hide CacheManagement.CacheManager.Valid, S.WorldOk, S.InSequence, S.BooksOk, OncePerRequest, Linked, HolderOk,
        WindowKept, S.Holds, Ceil, Blocks;
      var flight := scheduler.last + scheduler.ongoing;
      var g := flight[i].gen;
      InFlightHolds(scheduler.View(), flight, scheduler.ids, i);
      HeldByManager(View(), g);
      BlockComputed(q, scheduler.reqs[g].cached, manager.pageSize);
      SeenKept(View(), g, flight, i, q);
      if manager.reqs[g].handle.cachedLen <= PagesIn(q, manager.pageSize) {
        manager.OwnWindowPage(g, PagesIn(q, manager.pageSize));
      }
    }

    /** Where the oldest forward of a request starts that has not been read, or what comes
        next if there is none. */
    ghost function Oldest(g: int): nat
      reads scheduler
      requires g in scheduler.reqs
    {
      FirstStart(scheduler.last + scheduler.ongoing, g, scheduler.reqs[g].cached)
    }

    /** A request's own blocks that have a window page. */
    ghost function OwnWindow(g: int): set<nat>
      reads manager, manager.pool
      requires g in manager.reqs
    {
      set j: nat | manager.reqs[g].handle.cachedLen <= j < |manager.reqs[g].row|
                   && 0 <= manager.reqs[g].row[j] < |manager.pool.swa.toPage|
                   && manager.pool.swa.toPage[manager.reqs[g].row[j]] >= 0
    }

    /** In every state of every run: an active request has given back the window pages of its
        own blocks that end a window and a page or more in front of its oldest forward that has
        not been read.  So its own window pages hold less than the window, what is computed
        beyond that forward's start, and three pages. */
    lemma WindowReleased(g: int)
      requires Valid() && g in scheduler.reqs && g in manager.reqs && scheduler.reqs[g].life.state == Active
      ensures C.NoneLeftBehind(manager.pool.swa.toPage, manager.reqs[g], Oldest(g) + 1, manager.window,
        manager.pageSize)
      ensures |OwnWindow(g)| * manager.pageSize
        < manager.window + (scheduler.reqs[g].cached - Oldest(g)) + 3 * manager.pageSize
    {
      hide CacheManagement.CacheManager.Valid, S.WorldOk, S.BooksOk, OncePerRequest, HolderOk, WindowsKept, S.Holds,
        C.Trimmed, C.NoneLeftBehind, Follow, FirstStart;
      var flight, ps := scheduler.last + scheduler.ongoing, manager.pageSize;
      HolderKnown(View(), g);
      assert WindowTrimmed(View(), g, flight);
      var kept := C.Max(|manager.paths[g]|, manager.frontier[g]);
      manager.TrimmedPages(g, Oldest(g) + 1);
      FollowBounds(flight, g, scheduler.reqs[g].cached);
      RowLength(View(), g);
      OwnWindowKept(g, kept);
      LiveBound(kept, |manager.reqs[g].row|, scheduler.reqs[g].cached, Oldest(g), manager.window, ps);
    }

    lemma OwnWindowKept(g: int, kept: nat)
      requires manager.Valid() && g in manager.reqs && g in manager.paths && g in manager.frontier
      requires kept == C.Max(|manager.paths[g]|, manager.frontier[g])
      ensures |OwnWindow(g)| <= if kept < |manager.reqs[g].row| then |manager.reqs[g].row| - kept else 0
    {
      hide CacheManagement.CacheManager.Valid;
      var rows := |manager.reqs[g].row|;
      forall j | j in OwnWindow(g) ensures kept <= j < rows {
        manager.OwnWindowPage(g, j);
        manager.LockedLength(g);
      }
      Interval(OwnWindow(g), kept, rows);
    }

    // ----- messages

    /** A new request; its prompt is kept when it is accepted. */
    method Submit(uid: int, tokens: seq<int>, maxTokens: nat, ignoreEos: bool, effort: Option<string>)
      requires Valid() && uid !in scheduler.seen && |tokens| >= 1 && maxTokens >= 1 && scheduler.maxSeqLen > 0
      requires Initial(effort).Some?
      modifies scheduler, this`prompts
      ensures Valid() && scheduler.last == old(scheduler.last) && scheduler.ongoing == old(scheduler.ongoing)
      ensures scheduler.seen == old(scheduler.seen) + {uid}
      ensures scheduler.nextGeneration >= old(scheduler.nextGeneration)
      ensures var g := old(scheduler.nextGeneration);
              if |tokens| < scheduler.maxSeqLen then
                && g !in old(scheduler.reqs) && g in scheduler.reqs
                && scheduler.reqs == old(scheduler.reqs)[g := scheduler.reqs[g]]
                && scheduler.reqs[g].uid == uid && scheduler.reqs[g].prompt == |tokens| && S.Waits(scheduler.reqs[g])
                && scheduler.reqs[g].slot == -1
              else scheduler.reqs == old(scheduler.reqs)
    {
      hide CacheManagement.CacheManager.Valid, S.WorldOk, S.BooksOk, Linked, WindowsKept, WindowsTrimmed, S.InSequence,
        OncePerRequest;
      ghost var k, w, flight := View(), scheduler.View(), scheduler.last + scheduler.ongoing;
      var g := scheduler.nextGeneration;
      scheduler.Submit(uid, |tokens|, maxTokens, ignoreEos, effort);
      if |tokens| < scheduler.maxSeqLen {
        prompts := prompts[g := tokens];
        S.GenerationUnused(w, flight, scheduler.ids, g);
        LinkedJoins(k, View(), g, scheduler.reqs[g], tokens);
        WindowsStay(k, View(), flight);
        TrimmedStay(k, View(), flight);
      }
    }

    /** Aborts the request of a user id.  If it retires at once it gives its pages back. */
    method Abort(uid: int)
      requires Valid() && scheduler.ongoing == []
      modifies scheduler, manager, manager.cache, manager.pool
      ensures Valid() && scheduler.last == old(scheduler.last) && scheduler.ongoing == []
      ensures manager.inRegion == old(manager.inRegion)
      ensures S.Stopped(scheduler.reqs, uid) && scheduler.seen == old(scheduler.seen)
      ensures S.AbortedIn(old(scheduler.reqs), scheduler.reqs, uid)
      ensures scheduler.nextGeneration == old(scheduler.nextGeneration)
      ensures uid in old(scheduler.live) && Retires(old(scheduler.live)[uid]) ==>
        old(scheduler.live)[uid] !in manager.reqs && IsStored(Computed(old(scheduler.live)[uid]))
    {
      hide CacheManagement.CacheManager.Valid, S.WorldOk, S.BooksOk, Linked, HolderOk, RowFits, Behind, WindowsKept,
        WindowsTrimmed, S.Final, S.Aborted, TokensOf, OncePerRequest, S.Holds, S.Stopped, S.AbortedIn,
        RadixPrefixCache.Valid, RadixPrefixCache.Flat, IsStored;
      ghost var k, w, flight := View(), scheduler.View(), scheduler.last + scheduler.ongoing;
      OneLive(w, flight, scheduler.ids, uid);
      var known := uid in scheduler.live;
      var g := if known then scheduler.live[uid] else 0;
      scheduler.Abort(uid);
      if known {
        HeldByManager(k, g);
        AbortedFits(k, g);
        AbortedShape(k.reqs[g]);
        HoldsMeans(k.reqs[g]);
        OneAborted(k.reqs, scheduler.reqs, uid, g);
        HoldsMeans(scheduler.reqs[g]);
        HostCovers(scheduler.View(), flight, scheduler.ids, g);
        WindowsStay(k, View(), flight);
        TrimmedStay(k, View(), flight);
        if scheduler.reqs[g].life.state == Retired {
          ghost var n := View();
          FinishRequest(g);
          LinkedWithout(k, View(), g);
          WindowsAfter(n, View(), g, flight);
          TrimmedStay(n, View(), flight);
        } else {
          HolderMade(View(), g);
          LinkedAfter(k, View(), g);
        }
      } else {
        NoneHolds(w.reqs, scheduler.reqs, uid);
        LinkedFewer(k, View());
        WindowsFewer(k, View(), flight);
        TrimmedFewer(k, View(), flight);
      }
    }

    ghost predicate Retires(g: int)
      reads scheduler
    {
      g in scheduler.reqs && scheduler.reqs[g].life.state == Retired
    }

    /** Hands all messages over in order.  New requests are taken or rejected, and a known
        request that was aborted is not active any more. */
    method ReceiveMsgs(msgs: seq<Msg>)
      requires Valid() && scheduler.ongoing == [] && scheduler.maxSeqLen > 0 && MsgsOk(msgs, scheduler.seen)
      modifies scheduler, manager, manager.cache, manager.pool, this`prompts
      ensures Valid() && scheduler.ongoing == [] && scheduler.last == old(scheduler.last)
      ensures manager.inRegion == old(manager.inRegion)
      ensures forall m :: m in msgs && m.UserMsg? ==> m.uid in scheduler.seen
      ensures AbortsStopped(msgs, old(scheduler.seen), scheduler.reqs)
    {
      hide CacheManagement.CacheManager.Valid, Scheduling.Scheduler.Valid, Linked, WindowsKept, WindowsTrimmed, Initial,
        S.Stopped, IsStored;
      for i := 0 to |msgs|
        invariant Valid() && scheduler.ongoing == [] && scheduler.last == old(scheduler.last)
        invariant MsgsOk(msgs[i..], scheduler.seen)
        invariant manager.inRegion == old(manager.inRegion) && old(scheduler.seen) <= scheduler.seen
        invariant forall m :: m in msgs[..i] && m.UserMsg? ==> m.uid in scheduler.seen
        invariant AbortsStopped(msgs[..i], old(scheduler.seen), scheduler.reqs)
      {
        assert msgs[i..][0] == msgs[i] && msgs[i..][1..] == msgs[i + 1..] && msgs[..i + 1] == msgs[..i] + [msgs[i]];
        ghost var before := scheduler.reqs;
        match msgs[i]
        case UserMsg(uid, tokens, maxTokens, ignoreEos, effort) =>
          Submit(uid, tokens, maxTokens, ignoreEos, effort);
          S.OthersStopped(before, scheduler.reqs, uid, old(scheduler.seen));
        case AbortMsg(uid) =>
          Abort(uid);
          S.StaysStopped(before, scheduler.reqs, uid);
      }
      assert msgs[..|msgs|] == msgs;
    }

    // ----- the next forward

    /** The next position of every running request. */
    method DecodeBatch() returns (batch: seq<C.Extend>)
      requires Valid()
      ensures Ready(View(), batch) && DecodeOf(batch, scheduler.reqs)
      ensures forall j :: 0 <= j < |batch| ==> batch[j].req in manager.reqs
    {
      hide CacheManagement.CacheManager.Valid, Linked, Ready, BeginsAt, HolderOk, WindowsKept, WindowsTrimmed,
        S.WorldOk, S.BooksOk, S.InSequence, OncePerRequest, InBatch, Apart, S.CanDecode;
      ghost var k := View();
      batch := [];
      var todo := scheduler.running;
      ReadyNone(k);
      NoneInBatch();
      RunningAll(scheduler.View(), scheduler.last + scheduler.ongoing, scheduler.ids);
      while todo != {}
        invariant todo <= scheduler.running && Ready(k, batch)
        invariant forall g :: InBatch(batch, g) <==> g in scheduler.running - todo
        invariant forall j :: 0 <= j < |batch| ==> batch[j].req in manager.reqs && NextOf(batch[j], scheduler.reqs)
        decreases todo
        modifies {}
      {
        S.SomeMember(todo);
        var g :| g in todo;
        RunningShape(scheduler.View(), g, scheduler.last + scheduler.ongoing, scheduler.ids);
        HeldByManager(k, g);
        HostCovers(scheduler.View(), scheduler.last + scheduler.ongoing, scheduler.ids, g);
        var e := C.Extend(g, scheduler.reqs[g].cached, scheduler.reqs[g].device);
        DecodeStarts(k, e);
        SameKeys(k.holders, g);
        ReadyMore(k, k, batch, e);
        InBatchMore(batch, e);
        batch := batch + [e];
        todo := todo - {g};
      }
      DistinctBatch(k, batch);
    }

    /** One decode step of every running request, with the pages it writes to.  It fails only
        when a lane is short of the pages the batch needs by more than can be evicted. */
    method ScheduleDecode() returns (ok: bool, ghost batch: seq<C.Extend>)
      requires Valid() && scheduler.ongoing == []
      modifies scheduler, manager, manager.cache, manager.pool
      ensures scheduler.last == old(scheduler.last) && manager.inRegion == old(manager.inRegion)
      ensures scheduler.seen == old(scheduler.seen)
      ensures DecodeOf(batch, old(scheduler.reqs))
      ensures ok ==> S.GensOf(scheduler.ongoing) == old(scheduler.running)
      ensures ok ==> IssuedFor(batch, scheduler.ongoing, old(scheduler.reqs), scheduler.reqs)
      ensures !ok ==> scheduler.reqs == old(scheduler.reqs) && scheduler.ongoing == []
      ensures !ok ==> manager.Valid() && manager.Short(C.NeededPages(batch, manager.pageSize))
      ensures ok ==> Valid()
    {
      hide CacheManagement.CacheManager.Valid, Scheduling.Scheduler.Valid, Linked, Ready, BeginsAt, HolderOk,
        WindowsKept, WindowsTrimmed, S.GensOf, S.BatchLaunched, C.AllGrown, C.NeededPages, InBatch, ForBatch,
        CacheManagement.CacheManager.Short, DecodeOf, S.Runs;
      ghost var k := View();
      RunningListed();
      var rows := DecodeBatch();
      batch := rows;
      assert scheduler.last + [] == scheduler.last;
      ok := manager.AllocatePaged(rows);
      if !ok {
        return;
      }
      NoneAway();
      scheduler.ScheduleDecode();
      DecodeIssued(batch, scheduler.ongoing, k.reqs, scheduler.reqs, old(scheduler.running));
      ReadyLinked(k, View(), batch, scheduler.ongoing);
      GrownKeys(k.holders, manager.reqs, batch, manager.pageSize);
      WindowsGrow(k, View(), scheduler.last, scheduler.ongoing);
      TrimmedGrow(k, View(), scheduler.last, batch, scheduler.ongoing);
    }

    /** Nothing of a request without a slot is in flight. */
    lemma NoneAway()
      requires scheduler.Valid() && scheduler.ongoing == []
      ensures forall g :: g in scheduler.reqs && scheduler.reqs[g].slot < 0 ==> S.NotInFlight(scheduler.last, g)
    {
      hide S.WorldOk, S.BooksOk, S.InSequence, OncePerRequest, S.NotInFlight;
      WaitingAway(scheduler.View(), scheduler.last + scheduler.ongoing, scheduler.ids);
      assert scheduler.last + [] == scheduler.last;
    }

    lemma RunningListed()
      requires scheduler.Valid()
      ensures forall g :: g in scheduler.running <==> g in scheduler.reqs && S.Runs(scheduler.reqs[g])
    {
      hide S.WorldOk, S.BooksOk, S.InSequence, OncePerRequest, S.Runs;
      RunningAll(scheduler.View(), scheduler.last + scheduler.ongoing, scheduler.ids);
    }

    // ----- prefill batches

    /** A prefill batch is being put together; nothing of it has been issued yet. */
    ghost predicate Preparing(batch: seq<C.Extend>, a: Adder)
      reads this, scheduler, manager, manager.cache, manager.pool
    {
      && scheduler.Valid() && scheduler.ongoing == [] && manager.Valid()
      && Ready(View(), batch) && WindowsKept(View(), scheduler.last) && WindowsTrimmed(View(), scheduler.last)
      && Gathered(batch, a, scheduler.reqs, scheduler.pending, |scheduler.freeSlots|, manager.pageSize)
    }

    /** What is open and reserved before anything is put into a batch. */
    method StartBatch() returns (a: Adder)
      requires Valid() && scheduler.ongoing == []
      ensures a == Adder(|scheduler.freeSlots|, S.Reserved(scheduler.reqs, manager.pageSize))
      ensures Preparing([], a)
    {
      hide CacheManagement.CacheManager.Valid, Scheduling.Scheduler.Valid, Linked, Ready, WindowsKept, WindowsTrimmed,
        S.Reserved;
      assert scheduler.last + [] == scheduler.last;
      var reserved := scheduler.ReservedTokens(manager.pageSize);
      a := Adder(|scheduler.freeSlots|, reserved);
      ReadyNone(View());
      GatheredNone(scheduler.reqs, scheduler.pending, |scheduler.freeSlots|, manager.pageSize);
    }

    /** Nothing was put into the batch. */
    lemma NothingPrepared(a: Adder)
      requires Preparing([], a)
      ensures Valid() && scheduler.ongoing == []
    {
      hide CacheManagement.CacheManager.Valid, Scheduling.Scheduler.Valid, Linked, Ready, WindowsKept, WindowsTrimmed,
        Gathered;
      assert scheduler.last + [] == scheduler.last;
      ReadyNothing(View());
    }

    /** The request needs more than the whole cache and the whole table have. */
    predicate TooLarge(r: S.Req) {
      scheduler.slots == 0 || r.prompt + r.output > TokensIn(manager.pages, manager.pageSize)
    }

    /** There is no place for a request only because it is too large, if nobody else holds
        anything. */
    lemma RefusedTooLarge(g: int)
      requires Valid() && !manager.inRegion && S.NobodyHolds(scheduler.reqs) && g in scheduler.reqs && g in prompts
      requires |scheduler.freeSlots| == 0 || Refused(manager.Supplies(), prompts[g], scheduler.reqs[g].output,
                 S.Reserved(scheduler.reqs, manager.pageSize), manager.pageSize)
      ensures TooLarge(scheduler.reqs[g])
    {
      hide CacheManagement.CacheManager.Valid, S.WorldOk, S.BooksOk, S.InSequence, OncePerRequest, HolderOk,
        WindowsKept, WindowsTrimmed, S.Holds, S.Reserved, C.Admits, C.Usable, FlatOf,
        CacheManagement.CacheManager.Supplies, Blocks, TokensIn;
      forall h ensures h !in manager.reqs {
      }
      assert manager.reqs == map[];
      S.NothingReserved(scheduler.View(), scheduler.last + scheduler.ongoing, scheduler.ids, manager.pageSize);
      if |scheduler.freeSlots| == 0 {
        S.AllSlotsFree(scheduler.reqs, scheduler.Rest(), scheduler.maxSeqLen);
      } else {
        var prompt, output := prompts[g], scheduler.reqs[g].output;
        var v: Verdict :| Answered(manager.Supplies(), prompt, output, 0, None, v, manager.pageSize);
        manager.RefusedUnused(|prompt|, output, StoredPart(prompt, v.matched, manager.pageSize));
      }
    }

    /** What the cache said about a new prompt with the supply `s`. */
    ghost predicate Admitted(g: int, reserved: nat, start: Option<nat>, v: Verdict, s: C.Supply)
      reads this, scheduler
    {
      && g in prompts && g in scheduler.reqs
      && Answered(s, prompts[g], scheduler.reqs[g].output, reserved, start, v, manager.pageSize)
    }

    /** A new prompt locks its stored prefix and starts behind it, with nothing released,
        unless it does not fit. */
    method StartNew(g: int, reserved: nat) returns (start: Option<nat>, ghost v: Verdict)
      requires manager.Valid() && g !in manager.reqs && g in prompts && prompts[g] != [] && g in scheduler.reqs
      modifies manager, manager.cache, this`evicted, this`older
      ensures manager.inRegion == old(manager.inRegion) && Admitted(g, reserved, start, v, old(manager.Supplies()))
      ensures C.Tighter(old(manager.Supplies()), manager.Supplies())
      ensures start.None? ==> View() == old(View())
      ensures start.Some? ==> g in manager.reqs && g in manager.paths && Started(old(View()), View(), g)
      ensures start.Some? ==> manager.paths[g] <= Blocks(Matchable(prompts[g]), manager.pageSize)
      ensures start.Some? ==> |manager.reqs[g].row| == |manager.paths[g]|
      ensures start.Some? ==> start.value == TokensIn(|manager.paths[g]|, manager.pageSize) < |prompts[g]|
      ensures manager.Valid()
    {
      hide CacheManagement.CacheManager.Valid, Blocks, TokensIn, PrefixMap.PagesAlong, C.Usable, FlatOf,
        RadixPrefixCache.Valid, RadixPrefixCache.Flat, RadixPrefixCache.View, C.Admits,
        CacheManagement.CacheManager.Supplies;
      ghost var before := manager.Supplies();
      var admitted, matched;
      ghost var longest, t;
      admitted, matched, longest, t := manager.TryAllocateOne(g, prompts[g], scheduler.reqs[g].output, reserved);
      v := Verdict(matched, longest, t);
      start := None;
      if admitted {
        UsableShort(t, manager.Matchable(prompts[g]), matched, longest);
        MatchedShort(prompts[g], manager.paths[g], manager.pageSize);
        start := Some(TokensIn(matched, manager.pageSize));
        evicted, older := evicted[g := 0], older[g := 0];
      }
    }

    /** Looks at one prompt for the prefill batch.  A resident one goes on in a new request
        object that inherits its window frontier.  A new one needs a table slot, locks its
        stored prefix and reserves what it may still need, or it changes nothing. */
    method Prepare(g: int, a: Adder, ghost batch: seq<C.Extend>)
      returns (e: Option<C.Extend>, now: Adder, ghost v: Verdict)
      requires Preparing(batch, a) && g in scheduler.pending && !InBatch(batch, g)
      modifies manager, manager.cache, this`evicted, this`older
      ensures manager.inRegion == old(manager.inRegion) && g in scheduler.reqs
      ensures e.Some? ==> e.value.req == g && e.value.deviceLen == e.value.cachedLen + 1 <= scheduler.reqs[g].prompt
      ensures e.None? ==> View() == old(View()) && now == a && scheduler.reqs[g].slot < 0
      ensures e.Some? ==> now.open == if scheduler.reqs[g].slot < 0 then a.open - 1 else a.open
      ensures e.Some? ==> now.reserved == if scheduler.reqs[g].slot >= 0 then a.reserved
        else a.reserved + (scheduler.reqs[g].prompt - e.value.cachedLen) + scheduler.reqs[g].output
      ensures scheduler.reqs[g].slot >= 0 ==> e.Some? && e.value.cachedLen == scheduler.reqs[g].cached
      ensures scheduler.reqs[g].slot >= 0 ==> g in old(evicted)
      ensures scheduler.reqs[g].slot >= 0 ==> View() == old(View()).(older := older)
      ensures scheduler.reqs[g].slot >= 0 ==> older == old(older)[g := old(evicted)[g]]
      ensures scheduler.reqs[g].slot < 0 && a.open == 0 ==> e.None?
      ensures scheduler.reqs[g].slot < 0 && a.open > 0 ==>
        Admitted(g, a.reserved, BeginOf(e), v, old(manager.Supplies()))
      ensures C.Tighter(old(manager.Supplies()), manager.Supplies()) && a.reserved <= now.reserved && now.open <= a.open
      ensures scheduler.reqs[g].slot < 0 && e.Some? ==> Started(old(View()), View(), g)
      ensures Preparing(if e.Some? then batch + [e.value] else batch, now)
    {
      hide CacheManagement.CacheManager.Valid, Scheduling.Scheduler.Valid, Linked, Ready, BeginsAt, HolderOk, InBatch,
        TokensIn, WindowsKept, WindowsTrimmed, Gathered, Admitted, S.Holds, Blocks;
      ghost var k := View();
      WaitingHere(g);
      ReadyMeans(k, batch, g);
      var r := scheduler.reqs[g];
      e, now, v := None, a, Verdict(0, 0, manager.cache.View());
      if r.slot >= 0 {
        older := older[g := evicted[g]];
        e := Some(C.Extend(g, r.cached, r.cached + 1));
        ResidentJoins(k, View(), batch, e.value, scheduler.last);
        GatheredMore(batch, a, e.value, scheduler.reqs, scheduler.pending, |scheduler.freeSlots|, manager.pageSize);
      } else if a.open > 0 {
        var start;
        start, v := StartNew(g, a.reserved);
        if start.Some? {
          e := Some(C.Extend(g, start.value, start.value + 1));
          NewJoins(k, View(), batch, e.value, scheduler.last);
          GatheredMore(batch, a, e.value, scheduler.reqs, scheduler.pending, |scheduler.freeSlots|, manager.pageSize);
          now := Adder(a.open - 1, a.reserved + (r.prompt - start.value + r.output));
        }
      }
    }

    lemma WaitingHere(g: int)
      requires scheduler.Valid() && g in scheduler.pending
      ensures g in scheduler.reqs && scheduler.reqs[g].committed == [] && scheduler.reqs[g].prompt >= 1
      ensures scheduler.reqs[g].cached < scheduler.reqs[g].prompt
      ensures (scheduler.reqs[g].slot < 0 ==> scheduler.reqs[g].cached == 0)
      ensures (S.Holds(scheduler.reqs[g]) <==> scheduler.reqs[g].slot >= 0) && scheduler.reqs[g].slot >= -1
      ensures scheduler.ongoing == [] && scheduler.reqs[g].slot < 0 ==> S.NotInFlight(scheduler.last, g)
    {
      hide S.WorldOk, S.BooksOk, S.InSequence, OncePerRequest, S.NotInFlight;
      WaitingShape(scheduler.View(), scheduler.last + scheduler.ongoing, scheduler.ids, g);
      WaitingAway(scheduler.View(), scheduler.last + scheduler.ongoing, scheduler.ids);
      assert scheduler.last + [] == scheduler.last;
    }

    /** Puts one share into the batch, unless it is for a new prompt that does not fit. */
    method PrepareShare(shares: seq<Share>, i: nat, a: Adder, batch: seq<C.Extend>)
      returns (more: seq<C.Extend>, now: Adder)
      requires i < |shares| && SharesOk(shares, scheduler.reqs) && Collected(batch, shares, i, scheduler.reqs)
      requires Preparing(batch, a)
      modifies manager, manager.cache, this`evicted, this`older
      ensures manager.inRegion == old(manager.inRegion)
      ensures Collected(more, shares, i + 1, scheduler.reqs)
      ensures Preparing(more, now)
    {
      hide Preparing, View, S.Continues, InBatch, Admitted, Started, S.Waits, Collected, ShareOf;
      WaitingPending(batch, a, shares[i].gen);
      NotCollected(batch, shares, i, scheduler.reqs);
      var e;
      ghost var v;
      e, now, v := Prepare(shares[i].gen, a, batch);
      if e.Some? {
        ShareGiven(batch, e.value, shares[i], now);
        var l := Lengthened(e.value, shares[i], scheduler.reqs);
        more := batch + [l];
        CollectedMore(batch, shares, i, scheduler.reqs, Some(l));
      } else {
        more := batch;
        CollectedMore(batch, shares, i, scheduler.reqs, None);
      }
    }

    /** Puts the shares into a batch, without the new prompts that do not fit. */
    method PrepareAll(shares: seq<Share>) returns (batch: seq<C.Extend>, ghost a: Adder)
      requires Valid() && scheduler.ongoing == [] && SharesOk(shares, scheduler.reqs)
      modifies manager, manager.cache, this`evicted, this`older
      ensures manager.inRegion == old(manager.inRegion)
      ensures PrefillOf(batch, shares, scheduler.reqs)
      ensures Preparing(batch, a)
    {
      hide Preparing, Valid, SharesOk, Collected, PrefillOf;
      var now := StartBatch();
      batch := [];
      CollectedNone(shares, scheduler.reqs);
      for i := 0 to |shares|
        invariant manager.inRegion == old(manager.inRegion) && Preparing(batch, now)
        invariant Collected(batch, shares, i, scheduler.reqs)
        modifies manager, manager.cache, this`evicted, this`older
      {
        batch, now := PrepareShare(shares, i, now, batch);
      }
      a := now;
      CollectedAll(batch, shares, scheduler.reqs);
    }

    lemma WaitingPending(batch: seq<C.Extend>, a: Adder, g: int)
      requires Preparing(batch, a) && g in scheduler.reqs && S.Waits(scheduler.reqs[g])
      ensures g in scheduler.pending
    {
      hide CacheManagement.CacheManager.Valid, S.WorldOk, S.BooksOk, S.InSequence, OncePerRequest, Ready, WindowsKept,
        WindowsTrimmed, Gathered;
      S.ListedWhere(scheduler.View(), g, scheduler.last + scheduler.ongoing, scheduler.ids);
    }

    lemma PreparingLonger(batch: seq<C.Extend>, longer: seq<C.Extend>, a: Adder)
      requires Preparing(batch, a) && Longer(batch, longer, scheduler.reqs)
      ensures Preparing(longer, a)
    {
      hide CacheManagement.CacheManager.Valid, Scheduling.Scheduler.Valid, Ready, WindowsKept, WindowsTrimmed, Gathered,
        Longer;
      ReadyLonger(View(), batch, longer);
      GatheredLonger(batch, longer, a, scheduler.reqs, scheduler.pending, |scheduler.freeSlots|, manager.pageSize);
    }

    lemma ShareGiven(batch: seq<C.Extend>, e: C.Extend, share: Share, a: Adder)
      requires Preparing(batch + [e], a) && e.req in scheduler.reqs && e.req == share.gen && share.chunk >= 1
      requires e.deviceLen == e.cachedLen + 1 <= scheduler.reqs[e.req].prompt
      ensures Preparing(batch + [Lengthened(e, share, scheduler.reqs)], a)
      ensures ShareOf(Lengthened(e, share, scheduler.reqs), share, scheduler.reqs)
    {
      hide CacheManagement.CacheManager.Valid, Scheduling.Scheduler.Valid, Ready, WindowsKept, WindowsTrimmed, Gathered,
        Longer;
      LongerLast(batch, e, share, a, scheduler.reqs, scheduler.pending, |scheduler.freeSlots|, manager.pageSize);
      PreparingLonger(batch + [e], batch + [Lengthened(e, share, scheduler.reqs)], a);
    }

    /** The scheduler takes every batch that was put together. */
    lemma Issuable(batch: seq<C.Extend>, a: Adder)
      requires Preparing(batch, a)
      ensures scheduler.PlanOk(PlanOf(batch)) && Apart(batch)
      ensures forall j :: 0 <= j < |batch| ==> batch[j].req in manager.reqs
    {
      hide CacheManagement.CacheManager.Valid, Scheduling.Scheduler.Valid, WindowsKept, WindowsTrimmed, BeginsAt,
        HolderOk, S.Continues;
      DistinctBatch(View(), batch);
      forall j | 0 <= j < |batch|
        ensures batch[j].req in manager.reqs && GoesOn(batch[j], scheduler.reqs, scheduler.pending)
      {
        BeginsHeld(View(), batch[j]);
      }
    }

    /** Issues a prefill batch, with the pages it writes to.  It fails only when a lane is short
        of the pages the batch needs by more than can be evicted. */
    method IssuePrefill(batch: seq<C.Extend>, ghost a: Adder) returns (ok: bool)
      requires Preparing(batch, a)
      modifies scheduler, manager, manager.cache, manager.pool
      ensures scheduler.last == old(scheduler.last) && manager.inRegion == old(manager.inRegion)
      ensures scheduler.seen == old(scheduler.seen)
      ensures ok ==> IssuedFor(batch, scheduler.ongoing, old(scheduler.reqs), scheduler.reqs)
      ensures !ok ==> scheduler.reqs == old(scheduler.reqs) && scheduler.ongoing == []
      ensures !ok ==> manager.Valid() && manager.Short(C.NeededPages(batch, manager.pageSize))
      ensures ok ==> Valid()
    {
      hide CacheManagement.CacheManager.Valid, Scheduling.Scheduler.Valid, Linked, Ready, WindowsKept, WindowsTrimmed,
        S.BatchLaunched, C.AllGrown, C.NeededPages, InBatch, ForBatch, CacheManagement.CacheManager.Short, S.NewSlots,
        HolderOk, BeginsAt, Gathered, Scheduling.Scheduler.PlanOk;
      ghost var k := View();
      Issuable(batch, a);
      ok := manager.AllocatePaged(batch);
      if !ok {
        return;
      }
      NoneAway();
      scheduler.SchedulePrefill(PlanOf(batch));
      PrefillIssued(batch, scheduler.ongoing, k.reqs, scheduler.reqs);
      ReadyLinked(k, View(), batch, scheduler.ongoing);
      GrownKeys(k.holders, manager.reqs, batch, manager.pageSize);
      WindowsGrow(k, View(), scheduler.last, scheduler.ongoing);
      TrimmedGrow(k, View(), scheduler.last, batch, scheduler.ongoing);
    }

    /** A prefill batch of the given shares, if any of them fits. */
    method SchedulePrefill(shares: seq<Share>) returns (ok: bool, batch: seq<C.Extend>)
      requires Valid() && scheduler.ongoing == [] && SharesOk(shares, scheduler.reqs)
      modifies scheduler, manager, manager.cache, manager.pool, this`evicted, this`older
      ensures scheduler.last == old(scheduler.last) && manager.inRegion == old(manager.inRegion)
      ensures scheduler.seen == old(scheduler.seen)
      ensures PrefillOf(batch, shares, old(scheduler.reqs))
      ensures ok ==> IssuedFor(batch, scheduler.ongoing, old(scheduler.reqs), scheduler.reqs)
      ensures batch == [] ==> ok && scheduler.reqs == old(scheduler.reqs) && scheduler.ongoing == []
      ensures !ok ==> scheduler.reqs == old(scheduler.reqs) && scheduler.ongoing == []
      ensures !ok ==> manager.Valid() && manager.Short(C.NeededPages(batch, manager.pageSize))
      ensures ok ==> Valid()
    {
      hide Valid, Preparing, PrefillOf, IssuedFor, CacheManagement.CacheManager.Valid,
        CacheManagement.CacheManager.Short, C.NeededPages;
      ghost var a;
      batch, a := PrepareAll(shares);
      if batch == [] {
        NothingPrepared(a);
        NothingIssued(scheduler.reqs);
        return true, [];
      }
      ok := IssuePrefill(batch, a);
    }

    // ----- the loop

    /** The round could not be issued: for its batch a lane is short of pages by more than can
        be evicted. */
    ghost predicate Starved(r: Round)
      reads scheduler, manager, manager.cache, manager.pool
    {
      manager.Valid() && scheduler.reqs == r.before && scheduler.ongoing == []
      && manager.Short(C.NeededPages(r.batch, manager.pageSize))
    }

    /** Issues the next forward: prompts out of the shares, or one decode step. */
    method Issue(shares: seq<Share>, decode: bool) returns (ok: bool, ghost r: Round)
      requires Valid() && scheduler.ongoing == []
      modifies scheduler, manager, manager.cache, manager.pool, this`evicted, this`older
      ensures scheduler.last == old(scheduler.last) && manager.inRegion == old(manager.inRegion)
      ensures scheduler.seen == old(scheduler.seen)
      ensures r.before == old(scheduler.reqs) && Chosen(r.batch, shares, decode, r.before)
      ensures ok ==> RoundOk(r) && r.flight == scheduler.ongoing && r.after == scheduler.reqs
      ensures !ok ==> Starved(r)
      ensures ok ==> Valid()
    {
      hide Valid, CacheManagement.CacheManager.Valid, CacheManagement.CacheManager.Short, C.NeededPages, PrefillOf,
        DecodeOf, IssuedFor, SharesOk;
      ghost var before := scheduler.reqs;
      NothingIssued(before);
      NoShares(before);
      r := Round([], [], before, before);
      ok := true;
      if SharesOk(shares, scheduler.reqs) {
        var batch;
        ok, batch := SchedulePrefill(shares);
        if batch != [] {
          r := Round(batch, scheduler.ongoing, before, scheduler.reqs);
          return;
        }
      }
      if ok && decode {
        ghost var rows;
        ok, rows := ScheduleDecode();
        r := Round(rows, scheduler.ongoing, before, scheduler.reqs);
      }
    }

    /** One iteration of the overlapped loop with all cache calls.  The only way it can stop
        is that a lane is short of the pages its batch needs. */
    method OverlapLoop(msgs: seq<Msg>, shares: seq<Share>, decode: bool) returns (ok: bool, ghost r: Round)
      requires Valid() && scheduler.ongoing == [] && !manager.inRegion && scheduler.maxSeqLen > 0
      requires MsgsOk(msgs, scheduler.seen)
      modifies scheduler, manager, manager.cache, manager.pool, this
      ensures AbortsStopped(msgs, old(scheduler.seen), r.before)
      ensures Chosen(r.batch, shares, decode, r.before)
      ensures ok ==> RoundOk(r) && r.flight == scheduler.last && S.WaitingKept(r.after, scheduler.reqs)
      ensures !ok ==> Starved(r)
      ensures ok ==> Valid() && scheduler.ongoing == [] && !manager.inRegion
      ensures forall m :: m in msgs && m.UserMsg? ==> m.uid in scheduler.seen
      ensures ok && shares == [] && !decode ==> scheduler.last == []
    {
      hide Valid, CacheManagement.CacheManager.Valid, Scheduling.Scheduler.Valid, S.GensOf, RoundOk, Starved,
        S.WaitingKept, Chosen, AbortsStopped;
      ReceiveMsgs(msgs);
      ok, r := Issue(shares, decode);
      if !ok {
        return;
      }
      if shares == [] && !decode {
        ChosenNothing(r);
      }
      ProcessLast();
      Rotate();
    }

    /** The loop without overlap: the forward just issued is read in the same round. */
    method NormalLoop(msgs: seq<Msg>, shares: seq<Share>, decode: bool) returns (ok: bool, ghost r: Round)
      requires Valid() && scheduler.ongoing == [] && scheduler.last == [] && !manager.inRegion
      requires scheduler.maxSeqLen > 0
      requires MsgsOk(msgs, scheduler.seen)
      modifies scheduler, manager, manager.cache, manager.pool, this
      ensures AbortsStopped(msgs, old(scheduler.seen), r.before)
      ensures Chosen(r.batch, shares, decode, r.before)
      ensures ok ==> RoundOk(r) && S.WaitingKept(r.after, scheduler.reqs)
      ensures !ok ==> Starved(r)
      ensures ok ==> Valid() && scheduler.ongoing == [] && scheduler.last == [] && !manager.inRegion
      ensures forall m :: m in msgs && m.UserMsg? ==> m.uid in scheduler.seen
    {
      hide Valid, CacheManagement.CacheManager.Valid, Scheduling.Scheduler.Valid, RoundOk, Starved, S.WaitingKept,
        Chosen, AbortsStopped;
      ok, r := OverlapLoop(msgs, shares, decode);
      if ok {
        ghost var issued := scheduler.reqs;
        ProcessLast();
        S.KeptThrough(r.after, issued, scheduler.reqs);
      }
    }

    /** The forward just issued is the one to be read next. */
    method Rotate()
      requires Valid() && scheduler.last == []
      modifies scheduler
      ensures Valid() && scheduler.last == old(scheduler.ongoing) && scheduler.ongoing == []
      ensures scheduler.seen == old(scheduler.seen)
      ensures scheduler.reqs == old(scheduler.reqs)
    {
      hide CacheManagement.CacheManager.Valid, Linked, S.WorldOk, S.BooksOk, OncePerRequest;
      assert [] + scheduler.ongoing == scheduler.ongoing == scheduler.ongoing + [];
      scheduler.Rotate();
    }

    /** The idle check: between iterations the page books always balance. */
    method RunWhenIdle() returns (ok: bool)
      requires Valid() && !manager.inRegion
      ensures ok
    {
      ok := manager.CheckIntegrity();
    }
  }

  lemma ReadyMeans(k: Link, batch: seq<C.Extend>, g: int)
    requires Ready(k, batch) && g in k.reqs && !InBatch(batch, g)
    ensures g in k.prompts && |k.prompts[g]| == k.reqs[g].prompt
    ensures g in k.holders <==> S.Holds(k.reqs[g])
    ensures g in k.holders ==> HolderOk(k, g) && g in k.evicted && g in k.older
  {
    if g in k.holders {
      assert HolderOk(k, g);
    }
  }

  lemma DistinctBatch(k: Link, batch: seq<C.Extend>)
    requires Ready(k, batch)
    ensures Apart(batch)
  {
  }

  lemma UsableShort(t: Tree, key: Path, matched: nat, longest: nat)
    requires C.Usable(t, key, matched, longest)
    ensures matched <= |key|
  {
  }

  lemma NoShares(reqs: map<int, S.Req>)
    ensures PrefillOf([], [], reqs)
  {
  }

  lemma ChosenNothing(r: Round)
    requires Chosen(r.batch, [], false, r.before) && RoundOk(r)
    ensures r.flight == []
  {
    hide RoundOk, ShareOf;
    assert r.batch != [] ==> AmongShares(r.batch[0], [], r.before);
    NoForwards(r);
  }

  lemma NoneInBatch()
    ensures forall g :: !InBatch([], g)
  {
  }

  lemma SameKeys<V>(m: map<int, V>, g: int)
    requires g in m
    ensures m.Keys == m.Keys + {g}
  {
  }

  lemma HoldsMeans(r: S.Req)
    ensures S.Holds(r) <==> r.slot >= 0 && r.life.state != Retired
  {
  }

  lemma NoneHolds(before: map<int, S.Req>, after: map<int, S.Req>, uid: int)
    requires (forall h :: h in before && before[h].uid == uid ==> !S.Holds(before[h]))
    requires S.AbortedIn(before, after, uid)
    ensures forall h :: h in after ==> h in before && after[h] == before[h]
    ensures forall h :: h in before && S.Holds(before[h]) ==> h in after
  {
    hide S.Final, S.Aborted;
    forall h | h in before ensures (h in after ==> after[h] == before[h]) && (S.Holds(before[h]) ==> h in after) {
      assert S.AbortOne(before, after, uid, h);
    }
  }

  lemma OneAborted(before: map<int, S.Req>, after: map<int, S.Req>, uid: int, g: int)
    requires S.AbortedIn(before, after, uid) && g in before && before[g].uid == uid && S.Holds(before[g])
    requires forall h :: h in before && before[h].uid == uid ==> h == g
    ensures g in after && after == before[g := after[g]]
    ensures after[g] == if before[g].life.state == Active then S.Final(S.Aborted(before[g])) else before[g]
  {
    hide S.Final, S.Aborted;
    forall h | h in before ensures h in after && (h != g ==> after[h] == before[h]) {
      assert S.AbortOne(before, after, uid, h);
    }
    assert S.AbortOne(before, after, uid, g);
    forall h | h in after.Keys ensures h in before.Keys {
      assert h in after;
    }
    var one := before[g := after[g]];
    forall h | h in one.Keys ensures h in after.Keys && after[h] == one[h] {
      assert h in before;
    }
    assert after.Keys == one.Keys;
  }

  lemma HeldByManager(k: Link, g: int)
    requires Linked(k) && g in k.reqs && S.Holds(k.reqs[g])
    ensures g in k.holders && HolderOk(k, g)
    ensures g in k.evicted && g in k.older && g in k.frontier && g in k.paths && g in k.prompts
    ensures Behind(k.evicted[g], k.frontier[g], k.ps) && Behind(k.older[g], k.frontier[g], k.ps)
    ensures RowFits(k.reqs[g], k.holders[g].row, k.paths[g], k.prompts[g], k.ps) && |k.prompts[g]| == k.reqs[g].prompt
  {
  }

  // ----- what the link means

  /** A request holds a row, a lock and pages exactly as long as it holds a table slot; so
      each of them is given back once, when the request retires. */
  lemma HeldTogether(k: Link, w: S.World, flight: seq<Ref>, ids: TokenIds, b: S.Books, maxSeqLen: nat, g: int)
    requires Linked(k) && k.reqs == w.reqs && S.WorldOk(w, flight, ids) && S.BooksOk(w.reqs, b, maxSeqLen)
    requires g in w.reqs
    ensures g in k.holders <==> w.reqs[g].slot >= 0 && w.reqs[g].life.state != Retired
    ensures g in k.holders ==> w.reqs[g].slot < |b.c4| && b.c4[w.reqs[g].slot] == g && w.reqs[g].slot !in b.free
    ensures g in b.retired ==> g !in k.holders
    ensures g in k.holders ==> |k.holders[g].row| == Ceil(w.reqs[g].cached, k.ps)
    ensures g in k.holders ==> k.paths[g] <= Blocks(Ids(w.reqs[g], k.prompts[g]), k.ps)
  {
    hide TokensOf, PositionsOf, Blocks, Ceil;
    if g in k.holders {
      assert HolderOk(k, g);
      S.SlotPartition(w.reqs, b, maxSeqLen, w.reqs[g].slot);
    }
  }
}
