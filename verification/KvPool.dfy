/** The key-value pool: reference counts, free lists and page maps updated in place,
    each call proved against its meaning in `PoolSpec`. */
module KvPool {
  import opened Options
  import opened PagePool
  import opened PoolSpec

  /** Takes the first free pages for the given full pages. */
  method TakePages(s: PoolLane, fulls: seq<int>) returns (r: PoolLane)
    requires CanAlloc(s, fulls)
    ensures r == AllocAll(s, fulls)
  {
    r := s;
    for i := 0 to |fulls|
      invariant r == AllocAll(s, fulls[..i])
    {
      assert fulls[..i + 1][..i] == fulls[..i];
      var page := r.free[0];
      r := PoolLane(r.toPage[fulls[i] := page], r.refs[page := r.refs[page] + 1], r.free[1..]);
    }
    assert fulls[..|fulls|] == fulls;
  }

  method Held(refs: seq<int>, pages: seq<int>) returns (ok: bool)
    ensures ok == AllHeld(refs, pages)
  {
    for i := 0 to |pages|
      invariant AllHeld(refs, pages[..i])
    {
      if pages[i] < 0 || pages[i] >= |refs| || refs[pages[i]] <= 0 {
        return false;
      }
    }
    ok := true;
  }

  /** Drops one reference of each page; the pages that are free then are appended to
      the free list and, with `unmap`, taken out of the map. */
  method GiveBack(s: PoolLane, pages: seq<int>, unmap: bool) returns (r: PoolLane)
    requires InRange(pages, |s.refs|)
    ensures r == ReleaseAll(s, pages, unmap)
  {
    r := s;
    for i := 0 to |pages|
      invariant r == ReleaseAll(s, pages[..i], unmap)
    {
      var a := pages[i];
      assert pages[..i + 1][..i] == pages[..i];
      var refs := r.refs[a := r.refs[a] - 1];
      var toPage, free := r.toPage, r.free;
      if !unmap || refs[a] == 0 {
        free := free + [a];
        if unmap {
          toPage := Cleared(toPage, a);
        }
      }
      r := PoolLane(toPage, refs, free);
    }
    assert pages[..|pages|] == pages;
  }

  method Cleared(toPage: seq<int>, page: int) returns (r: seq<int>)
    ensures r == Unmap(toPage, page)
  {
    r := toPage;
    for p := 0 to |toPage|
      invariant |r| == |toPage|
      invariant forall q :: 0 <= q < |toPage| ==> r[q] == if q < p && toPage[q] == page then -1 else toPage[q]
    {
      if r[p] == page {
        r := r[p := -1];
      }
    }
  }

  method Forgotten(toPage: seq<int>, fulls: seq<int>) returns (r: seq<int>)
    requires InRange(fulls, |toPage|)
    ensures r == ForgetAll(toPage, fulls)
  {
    r := toPage;
    for i := 0 to |fulls|
      invariant r == ForgetAll(toPage, fulls[..i])
    {
      assert fulls[..i + 1][..i] == fulls[..i];
      r := r[fulls[i] := -1];
    }
    assert fulls[..|fulls|] == fulls;
  }

  method Counted(full: seq<int>, pages: seq<int>, d: int) returns (r: seq<int>)
    ensures r == AddAt(full, pages, d)
  {
    r := full;
    for p := 0 to |full|
      invariant |r| == |full|
      invariant forall q :: 0 <= q < |full| ==> r[q] == if q < p && q in pages then full[q] + d else full[q]
    {
      if p in pages {
        r := r[p := r[p] + d];
      }
    }
  }

  class KvCachePool {
    var full: seq<int>
    var swa: PoolLane
    var c4: PoolLane
    var c128: PoolLane
    var indexer: PoolLane
    var swaAllocated: nat
    var swaFreed: nat
    var swaTombstoned: nat
    var swaVersion: nat

    function SwaView(): SwaState
      reads this
    {
      SwaState(swa, swaAllocated, swaFreed, swaTombstoned, swaVersion)
    }

    function View(): Pool
      reads this
    {
      Pool(full, SwaView(), c4, c128, indexer)
    }

    ghost predicate Valid()
      reads this
    {
      PoolOk(View())
    }

    constructor (pages: nat, swaPages: nat)
      requires swaPages > 0
      ensures Valid() && |full| == pages && |swa.refs| == swaPages
      ensures |c4.refs| == |c128.refs| == |indexer.refs| == pages
      ensures (forall p :: 0 <= p < pages ==> full[p] == 0)
      ensures swa.toPage == c4.toPage == c128.toPage == indexer.toPage == seq(pages, _ => -1)
      ensures swa.free == seq(swaPages - 1, i => i)
      ensures c4.free == c128.free == indexer.free == seq(pages, i => i)
    {
      full := seq(pages, _ => 0);
      swa := PoolLane(seq(pages, _ => -1), seq(swaPages, i => if i == swaPages - 1 then 1 else 0),
        seq(swaPages - 1, i => i));
      c4 := PoolLane(seq(pages, _ => -1), seq(pages, _ => 0), seq(pages, i => i));
      c128 := PoolLane(seq(pages, _ => -1), seq(pages, _ => 0), seq(pages, i => i));
      indexer := PoolLane(seq(pages, _ => -1), seq(pages, _ => 0), seq(pages, i => i));
      swaAllocated, swaFreed, swaTombstoned, swaVersion := 0, 0, 0, 0;
      new;
      forall a | 0 <= a < swaPages - 1 ensures a in swa.free { assert swa.free[a] == a; }
      forall a | 0 <= a < pages ensures a in c4.free { assert c4.free[a] == a; }
    }

    method AvailableComponentPages() returns (n: nat)
      ensures n <= |c4.free| && n <= |c128.free| && n <= |indexer.free|
      ensures n == |c4.free| || n == |c128.free| || n == |indexer.free|
    {
      n := |c4.free|;
      if |indexer.free| < n { n := |indexer.free|; }
      if |c128.free| < n { n := |c128.free|; }
    }

    method AllocateSwa(fulls: seq<int>) returns (ok: bool)
      requires Valid()
      modifies this`swa, this`swaAllocated, this`swaVersion
      ensures ok == AllocSwa(old(SwaView()), fulls).Some?
      ensures ok ==> SwaView() == AllocSwa(old(SwaView()), fulls).value
    {
      if |fulls| == 0 {
        return true;
      }
      if !InRange(fulls, |swa.toPage|) || !AllUnmapped(swa.toPage, fulls) || |fulls| > |swa.free| {
        return false;
      }
      swa := TakePages(swa, fulls);
      swaAllocated := swaAllocated + |fulls|;
      swaVersion := swaVersion + 1;
      ok := true;
    }

    /** Drops the references of window pages; a page that loses its last one is free
        and unmapped.  Any change of ownership or of the map moves the stamp. */
    method ReleaseSwaPageHandles(handles: seq<int>, tombstone: bool) returns (ok: bool)
      requires Valid()
      modifies this`swa, this`swaFreed, this`swaTombstoned, this`swaVersion
      ensures ok == ReleaseSwa(old(SwaView()), handles, tombstone).Some?
      ensures ok ==> SwaView() == ReleaseSwa(old(SwaView()), handles, tombstone).value
    {
      hide SwaOk, CountsOk, MapOk, Unique, Releasable, LastRefs, ReleaseAll, Stale;
      var pages := Unique(Releasable(handles, |swa.refs| - 1));
      if |pages| == 0 {
        return true;
      }
      ok := Held(swa.refs, pages);
      if !ok {
        return;
      }
      var last := LastRefs(swa.refs, pages);
      swaVersion := swaVersion + 1;
      if Stale(swa.toPage, last) {
        swaVersion := swaVersion + 1;
      }
      swa := GiveBack(swa, pages, true);
      swaFreed := swaFreed + |last|;
      if tombstone {
        swaTombstoned := swaTombstoned + |pages|;
      }
    }

    method ReleaseSwaForFullPages(fulls: seq<int>, freeSwa: bool, tombstone: bool) returns (ok: bool)
      requires Valid()
      modifies this`swa, this`swaFreed, this`swaTombstoned, this`swaVersion
      ensures ok == ReleaseSwaForFull(old(SwaView()), fulls, freeSwa, tombstone).Some?
      ensures ok ==> SwaView() == ReleaseSwaForFull(old(SwaView()), fulls, freeSwa, tombstone).value
    {
      if |fulls| == 0 {
        return true;
      }
      if !InRange(fulls, |swa.toPage|) {
        return false;
      }
      ok := true;
      if freeSwa {
        ok := ReleaseSwaPageHandles(Translate(swa.toPage, fulls), tombstone);
        if !ok {
          return;
        }
      }
      if !AllUnmapped(swa.toPage, fulls) {
        swaVersion := swaVersion + 1;
      }
      var toPage := Forgotten(swa.toPage, fulls);
      swa := swa.(toPage := toPage);
    }

    method AllocateComponents(fulls: seq<int>) returns (ok: bool)
      requires Valid()
      modifies this`c4, this`c128, this`indexer
      ensures ok == AllocComponents(old(View()), fulls).Some?
      ensures ok ==> View() == AllocComponents(old(View()), fulls).value
    {
      if |fulls| == 0 {
        return true;
      }
      if !InRange(fulls, |full|) {
        return false;
      }
      if !AllUnmapped(c4.toPage, fulls) || !AllUnmapped(c128.toPage, fulls) || !AllUnmapped(indexer.toPage, fulls) {
        return false;
      }
      if |fulls| > |c4.free| {
        return false;
      }
      c4 := TakePages(c4, fulls);
      if |fulls| > |indexer.free| {
        return false;
      }
      indexer := TakePages(indexer, fulls);
      if |fulls| > |c128.free| {
        return false;
      }
      c128 := TakePages(c128, fulls);
      ok := true;
    }

    static method ReleaseLane(s: PoolLane, handles: seq<int>) returns (ok: bool, r: PoolLane)
      ensures ok == ReleaseComponent(s, handles).Some?
      ensures ok ==> r == ReleaseComponent(s, handles).value
    {
      r := s;
      var pages := Unique(Releasable(handles, |s.refs|));
      ok := Held(s.refs, pages);
      if ok {
        r := GiveBack(s, pages, false);
      }
    }

    method ReleaseComponentPageHandles(c4Pages: seq<int>, c128Pages: seq<int>, indexerPages: seq<int>)
      returns (ok: bool)
      modifies this`c4, this`c128, this`indexer
      ensures ok == ReleaseComponents(old(View()), c4Pages, c128Pages, indexerPages).Some?
      ensures ok ==> View() == ReleaseComponents(old(View()), c4Pages, c128Pages, indexerPages).value
    {
      ok, c4 := ReleaseLane(c4, c4Pages);
      if ok {
        ok, c128 := ReleaseLane(c128, c128Pages);
      }
      if ok {
        ok, indexer := ReleaseLane(indexer, indexerPages);
      }
    }

    method ReleaseComponentsForFullPages(fulls: seq<int>, free: bool) returns (ok: bool)
      requires Valid() && InRange(fulls, |full|)
      modifies this`c4, this`c128, this`indexer
      ensures ok == FreeComponents(old(View()), fulls, free).Some?
      ensures ok ==> View() == FreeComponents(old(View()), fulls, free).value
    {
      ok := true;
      if free {
        ok := ReleaseComponentPageHandles(Translate(c4.toPage, fulls), Translate(c128.toPage, fulls),
          Translate(indexer.toPage, fulls));
        if !ok {
          return;
        }
      }
      var a := Forgotten(c4.toPage, fulls);
      c4 := c4.(toPage := a);
      var b := Forgotten(c128.toPage, fulls);
      c128 := c128.(toPage := b);
      var c := Forgotten(indexer.toPage, fulls);
      indexer := indexer.(toPage := c);
    }

    /** New full pages get fresh pages of every lane.  Nothing happens when none of them
        starts inside the pool. */
    method OnPagesAllocated(fulls: seq<int>) returns (ok: bool)
      requires Valid()
      modifies this
      ensures ok == AllocPages(old(View()), fulls).Some?
      ensures ok ==> View() == AllocPages(old(View()), fulls).value && Valid()
    {
      ghost var s := View();
      if Beyond(fulls, |full|) {
        return true;
      }
      ok := AllocateSwa(fulls);
      if !ok {
        return;
      }
      AllocSwaKeeps(s.swa, fulls);
      ok := AllocateComponents(fulls);
      if !ok {
        return;
      }
      full := Counted(full, fulls, 1);
      AllocPagesKeeps(s, fulls);
    }

    /** Frees full pages.  Their component and window pages go with them unless the
        caller has handed these to another owner. */
    method OnPagesFreed(fulls: seq<int>, freeComponents: bool, freeSwa: bool) returns (ok: bool)
      requires Valid()
      modifies this
      ensures ok == FreePages(old(View()), fulls, freeComponents, freeSwa).Some?
      ensures ok ==> View() == FreePages(old(View()), fulls, freeComponents, freeSwa).value && Valid()
    {
      hide CountsOk, MapOk, ReleaseSwaForFull, AddAt, Translate;
      ghost var s := View();
      if Beyond(fulls, |full|) {
        return true;
      }
      ok := Held(full, fulls);
      if !ok {
        return;
      }
      ok := ReleaseSwaForFullPages(fulls, freeSwa, false);
      if !ok {
        return;
      }
      StepKeeps(s.swa, ReleaseForFull(fulls, freeSwa, false));
      ok := ReleaseComponentsForFullPages(fulls, freeComponents);
      if !ok {
        return;
      }
      full := Counted(full, fulls, -1);
      FreePagesKeeps(s, fulls, freeComponents, freeSwa);
    }
  }
}
