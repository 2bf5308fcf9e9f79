/** What the calls on the key-value pool mean, as functions on its state, and the
    invariants every run of returning calls keeps.  `None` stands for a raised error. */
module PoolSpec {
  import opened Options

  import opened PagePool

  /** The window lane with its counters.  The last page is a pinned dummy. */
  datatype SwaState = SwaState(lane: PoolLane, allocatedTotal: nat, freedTotal: nat, tombstonedTotal: nat, version: nat)

  function Dummy(s: SwaState): int {
    |s.lane.refs| - 1
  }

  ghost predicate SwaOk(s: SwaState) {
    && Dummy(s) >= 0
    && CountsOk(s.lane, Dummy(s))
    && MapOk(s.lane, Dummy(s))
    && s.lane.refs[Dummy(s)] == 1
    && s.allocatedTotal - s.freedTotal == LivePages(s.lane, Dummy(s))
  }

  predicate InRange(pages: seq<int>, n: int) {
    forall i :: 0 <= i < |pages| ==> 0 <= pages[i] < n
  }

  predicate AllUnmapped(toPage: seq<int>, fulls: seq<int>)
    requires InRange(fulls, |toPage|)
  {
    forall i :: 0 <= i < |fulls| ==> toPage[fulls[i]] < 0
  }

  predicate AllHeld(refs: seq<int>, pages: seq<int>) {
    InRange(pages, |refs|) && forall i :: 0 <= i < |pages| ==> refs[pages[i]] > 0
  }

  /** Some map entry points to one of the pages. */
  predicate Stale(toPage: seq<int>, pages: seq<int>) {
    exists p :: 0 <= p < |toPage| && toPage[p] in pages
  }

  function Translate(toPage: seq<int>, fulls: seq<int>): (r: seq<int>)
    requires InRange(fulls, |toPage|)
    ensures |r| == |fulls|
  {
    seq(|fulls|, i requires 0 <= i < |fulls| => toPage[fulls[i]])
  }

  /** The pages whose last reference goes when each loses one. */
  function LastRefs(refs: seq<int>, pages: seq<int>): (r: seq<int>)
    requires InRange(pages, |refs|)
    ensures forall a :: a in r <==> a in pages && refs[a] == 1
  {
    if pages == [] then []
    else (if refs[pages[0]] == 1 then [pages[0]] else []) + LastRefs(refs, pages[1..])
  }

  function AllocSwa(s: SwaState, fulls: seq<int>): Option<SwaState>
    requires SwaOk(s)
  {
    if fulls == [] then Some(s)
    else if !InRange(fulls, |s.lane.toPage|) then None
    else if !AllUnmapped(s.lane.toPage, fulls) then None
    else if |fulls| > |s.lane.free| then None
    else Some(s.(lane := AllocAll(s.lane, fulls), allocatedTotal := s.allocatedTotal + |fulls|,
                 version := s.version + 1))
  }

  function ReleaseSwa(s: SwaState, handles: seq<int>, tombstone: bool): (r: Option<SwaState>)
    requires SwaOk(s)
    ensures r.Some? ==> |r.value.lane.toPage| == |s.lane.toPage|
  {
    var pages := Unique(Releasable(handles, Dummy(s)));
    if pages == [] then Some(s)
    else if !AllHeld(s.lane.refs, pages) then None
    else
      var last := LastRefs(s.lane.refs, pages);
      Some(SwaState(
             ReleaseAll(s.lane, pages, true), s.allocatedTotal, s.freedTotal + |last|,
             s.tombstonedTotal + (if tombstone then |pages| else 0),
             s.version + 1 + (if Stale(s.lane.toPage, last) then 1 else 0)))
  }

  function ForgetSwa(s: SwaState, fulls: seq<int>): (r: SwaState)
    requires InRange(fulls, |s.lane.toPage|)
    ensures |r.lane.toPage| == |s.lane.toPage|
  {
    s.(lane := s.lane.(toPage := ForgetAll(s.lane.toPage, fulls)),
       version := s.version + if AllUnmapped(s.lane.toPage, fulls) then 0 else 1)
  }

  function ReleaseSwaForFull(s: SwaState, fulls: seq<int>, freeSwa: bool, tombstone: bool): (r: Option<SwaState>)
    requires SwaOk(s)
    ensures r.Some? ==> |r.value.lane.toPage| == |s.lane.toPage|
  {
    if fulls == [] then Some(s)
    else if !InRange(fulls, |s.lane.toPage|) then None
    else if !freeSwa then Some(ForgetSwa(s, fulls))
    else match ReleaseSwa(s, Translate(s.lane.toPage, fulls), tombstone)
      case None => None
      case Some(r) => Some(ForgetSwa(r, fulls))
  }

  // ----- runs

  datatype Call =
    | Alloc(fulls: seq<int>)
    | Release(pages: seq<int>, tombstone: bool)
    | ReleaseForFull(fulls: seq<int>, freeSwa: bool, tombstone: bool)

  function Step(s: SwaState, c: Call): Option<SwaState>
    requires SwaOk(s)
  {
    match c
    case Alloc(fulls) => AllocSwa(s, fulls)
    case Release(pages, tombstone) => ReleaseSwa(s, pages, tombstone)
    case ReleaseForFull(fulls, freeSwa, tombstone) => ReleaseSwaForFull(s, fulls, freeSwa, tombstone)
  }

  /** `to` is reached from `from` by the calls, all of which return. */
  ghost predicate Run(from: SwaState, calls: seq<Call>, to: SwaState)
    decreases |calls|
  {
    if calls == [] then to == from
    else SwaOk(from) && Step(from, calls[0]).Some? && Run(Step(from, calls[0]).value, calls[1..], to)
  }

  /** The stamp moves with the map and with the ownership behind it. */
  ghost predicate Stamped(s: SwaState, r: SwaState) {
    && s.version <= r.version
    && (s.version == r.version ==> r.lane == s.lane)
  }

  lemma AllocSwaKeeps(s: SwaState, fulls: seq<int>)
    requires SwaOk(s) && AllocSwa(s, fulls).Some?
    ensures SwaOk(AllocSwa(s, fulls).value) && Stamped(s, AllocSwa(s, fulls).value)
  {
    if fulls != [] {
      AllocAllKeeps(s.lane, fulls, Dummy(s));
    }
  }

  lemma {:induction false} LastRefsAll(refs: seq<int>, pages: seq<int>)
    requires InRange(pages, |refs|) && forall i :: 0 <= i < |pages| ==> refs[pages[i]] == 1
    ensures LastRefs(refs, pages) == pages
  {
    if pages != [] {
      LastRefsAll(refs, pages[1..]);
    }
  }

  /** The pages of a release that does not raise are in use and lose their only
      reference. */
  lemma HeldPages(s: PoolLane, handles: seq<int>, pinned: int)
    requires CountsOk(s, pinned) && |s.refs| <= pinned + 1
    requires AllHeld(s.refs, Unique(Releasable(handles, pinned)))
    ensures var ps := Unique(Releasable(handles, pinned));
            && Distinct(ps)
            && forall i :: 0 <= i < |ps| ==> 0 <= ps[i] < pinned && ps[i] !in s.free && s.refs[ps[i]] == 1
  {
    var ps := Unique(Releasable(handles, pinned));
    UniqueAscending(Releasable(handles, pinned));
    forall i | 0 <= i < |ps| ensures 0 <= ps[i] < pinned && ps[i] !in s.free && s.refs[ps[i]] == 1 {
      assert ps[i] in ps;
    }
  }

  lemma ReleaseSwaKeeps(s: SwaState, handles: seq<int>, tombstone: bool)
    requires SwaOk(s) && ReleaseSwa(s, handles, tombstone).Some?
    ensures SwaOk(ReleaseSwa(s, handles, tombstone).value) && Stamped(s, ReleaseSwa(s, handles, tombstone).value)
  {
    hide ReleaseAll, Stale, LastRefs, Unique, Releasable;
    var pages := Unique(Releasable(handles, Dummy(s)));
    if pages != [] {
      HeldPages(s.lane, handles, Dummy(s));
      LastRefsAll(s.lane.refs, pages);
      ReleaseAllKeeps(s.lane, pages, true, Dummy(s));
    }
  }

  lemma ForgetKeeps(s: PoolLane, fulls: seq<int>, pinned: int)
    requires CountsOk(s, pinned) && MapOk(s, pinned) && InRange(fulls, |s.toPage|)
    ensures var r := s.(toPage := ForgetAll(s.toPage, fulls)); CountsOk(r, pinned) && MapOk(r, pinned)
  {
  }

  lemma ForgetNothing(s: PoolLane, fulls: seq<int>, pinned: int)
    requires MapOk(s, pinned) && InRange(fulls, |s.toPage|) && AllUnmapped(s.toPage, fulls)
    ensures ForgetAll(s.toPage, fulls) == s.toPage
  {
    forall p | 0 <= p < |s.toPage| ensures ForgetAll(s.toPage, fulls)[p] == s.toPage[p] {
      if p in fulls {
        var i :| 0 <= i < |fulls| && fulls[i] == p;
        assert s.toPage[fulls[i]] < 0;
      }
    }
  }

  lemma ForgetSwaKeeps(s: SwaState, fulls: seq<int>)
    requires SwaOk(s) && InRange(fulls, |s.lane.toPage|)
    ensures SwaOk(ForgetSwa(s, fulls)) && Stamped(s, ForgetSwa(s, fulls))
  {
    ForgetKeeps(s.lane, fulls, Dummy(s));
    if AllUnmapped(s.lane.toPage, fulls) {
      ForgetNothing(s.lane, fulls, Dummy(s));
    }
  }

  lemma StepKeeps(s: SwaState, c: Call)
    requires SwaOk(s) && Step(s, c).Some?
    ensures SwaOk(Step(s, c).value) && Stamped(s, Step(s, c).value)
  {
    match c
    case Alloc(fulls) => AllocSwaKeeps(s, fulls);
    case Release(pages, tombstone) => ReleaseSwaKeeps(s, pages, tombstone);
    case ReleaseForFull(fulls, freeSwa, tombstone) =>
      if fulls != [] {
        if freeSwa {
          var r := ReleaseSwa(s, Translate(s.lane.toPage, fulls), tombstone).value;
          ReleaseSwaKeeps(s, Translate(s.lane.toPage, fulls), tombstone);
          ForgetSwaKeeps(r, fulls);
        } else {
          ForgetSwaKeeps(s, fulls);
        }
      }
  }

  /** Every run of returning calls keeps each window page either free and
      unreferenced or in use and referenced once, the map injective into pages in
      use, the dummy pinned and `allocatedTotal - freedTotal` equal to the live pages; and
      two states of the run with equal stamps have equal maps. */
  lemma {:induction false} RunKeeps(from: SwaState, calls: seq<Call>, to: SwaState)
    requires SwaOk(from) && Run(from, calls, to)
    ensures SwaOk(to) && Stamped(from, to)
    decreases |calls|
  {
    if calls != [] {
      StepKeeps(from, calls[0]);
      RunKeeps(Step(from, calls[0]).value, calls[1..], to);
    }
  }

  lemma EqualStampsEqualMaps(from: SwaState, calls: seq<Call>, mid: SwaState, more: seq<Call>, to: SwaState)
    requires SwaOk(from) && Run(from, calls, mid) && Run(mid, more, to) && mid.version == to.version
    ensures SwaOk(to) && mid.lane.toPage == to.lane.toPage
    ensures Referenced(to.lane.refs, Dummy(to)) == to.allocatedTotal - to.freedTotal
  {
    RunKeeps(from, calls, mid);
    RunKeeps(mid, more, to);
    LivePagesCounted(to.lane, Dummy(to));
  }

  // ----- when a call raises, and what it counts

  /** The full page is inside the pool and has no page of a lane yet. */
  predicate Mappable(toPage: seq<int>, p: int) {
    0 <= p < |toPage| && toPage[p] < 0
  }

  /** Allocation raises exactly without enough free pages, or for a full page that is outside
      the pool or mapped already. */
  lemma AllocRaises(s: SwaState, fulls: seq<int>)
    requires SwaOk(s)
    ensures AllocSwa(s, fulls) == None <==>
      |fulls| > |s.lane.free| || exists p :: p in fulls && !Mappable(s.lane.toPage, p)
  {
    if fulls != [] && InRange(fulls, |s.lane.toPage|) && !AllUnmapped(s.lane.toPage, fulls) {
      var i :| 0 <= i < |fulls| && s.lane.toPage[fulls[i]] >= 0;
      assert fulls[i] in fulls && !Mappable(s.lane.toPage, fulls[i]);
    }
    if fulls != [] && !InRange(fulls, |s.lane.toPage|) {
      var i :| 0 <= i < |fulls| && !(0 <= fulls[i] < |s.lane.toPage|);
      assert fulls[i] in fulls && !Mappable(s.lane.toPage, fulls[i]);
    }
  }

  /** The handles of a release that stand for pages; the last page is a dummy. */
  function Real(handles: seq<int>, dummy: int): set<int> {
    set h | h in handles && h >= 0 && h != dummy
  }

  predicate InUse(refs: seq<int>, p: int) {
    0 <= p < |refs| && refs[p] > 0
  }

  lemma ReleasedOnes(handles: seq<int>, dummy: int)
    ensures forall p :: p in Unique(Releasable(handles, dummy)) <==> p in Real(handles, dummy)
    ensures |Unique(Releasable(handles, dummy))| == |Real(handles, dummy)|
  {
    var ps := Unique(Releasable(handles, dummy));
    UniqueAscending(Releasable(handles, dummy));
    assert (set p | p in ps) == Real(handles, dummy);
    DistinctSize(ps);
  }

  lemma {:induction false} DistinctSize(s: seq<int>)
    requires Distinct(s)
    ensures |set x | x in s| == |s|
  {
    if s != [] {
      DistinctSize(s[1..]);
      assert (set x | x in s) == {s[0]} + set x | x in s[1..];
    }
  }

  lemma HeldMeans(refs: seq<int>, pages: seq<int>)
    ensures AllHeld(refs, pages) <==> forall p :: p in pages ==> InUse(refs, p)
  {
    if forall p :: p in pages ==> InUse(refs, p) {
      forall i | 0 <= i < |pages| ensures 0 <= pages[i] < |refs| && refs[pages[i]] > 0 {
        assert InUse(refs, pages[i]);
      }
    }
  }

  /** A release of window handles raises exactly for a page that is not in use, which is a
      double free; otherwise every page in it counts once, as freed and, for tombstones, as
      such, and the version moves once, and once more if some map entry pointed to one. */
  lemma ReleaseCounts(s: SwaState, handles: seq<int>, tombstone: bool)
    requires SwaOk(s)
    ensures var given, r := Real(handles, |s.lane.refs| - 1), ReleaseSwa(s, handles, tombstone);
            && (r == None <==> exists p :: p in given && !InUse(s.lane.refs, p))
            && (r.Some? ==>
                  && r.value.allocatedTotal == s.allocatedTotal && r.value.freedTotal == s.freedTotal + |given|
                  && r.value.tombstonedTotal == s.tombstonedTotal + (if tombstone then |given| else 0)
                  && r.value.version == s.version + if given == {} then 0
                       else if exists p :: 0 <= p < |s.lane.toPage| && s.lane.toPage[p] in given then 2 else 1)
  {
    hide ReleaseAll, Unique, Releasable, Real;
    var pages, given := Unique(Releasable(handles, Dummy(s))), Real(handles, Dummy(s));
    ReleasedOnes(handles, Dummy(s));
    HeldMeans(s.lane.refs, pages);
    assert given == {} <==> pages == [];
    if pages != [] && AllHeld(s.lane.refs, pages) {
      HeldPages(s.lane, handles, Dummy(s));
      LastRefsAll(s.lane.refs, pages);
    }
  }

  /** The same for the handles of a component lane. */
  lemma ComponentRaises(s: PoolLane, handles: seq<int>)
    ensures ReleaseComponent(s, handles) == None <==> exists p :: p in Real(handles, |s.refs|) && !InUse(s.refs, p)
  {
    hide ReleaseAll, Unique, Releasable, Real;
    ReleasedOnes(handles, |s.refs|);
    HeldMeans(s.refs, Unique(Releasable(handles, |s.refs|)));
  }

  // ----- the whole pool

  /** `full` counts the references of full pages; the component lanes have no dummy. */
  datatype Pool = Pool(full: seq<int>, swa: SwaState, c4: PoolLane, c128: PoolLane, indexer: PoolLane)

  ghost predicate PoolOk(s: Pool) {
    && SwaOk(s.swa) && |s.swa.lane.toPage| == |s.full|
    && CountsOk(s.c4, |s.c4.refs|) && |s.c4.toPage| == |s.full|
    && CountsOk(s.c128, |s.c128.refs|) && |s.c128.toPage| == |s.full|
    && CountsOk(s.indexer, |s.indexer.refs|) && |s.indexer.toPage| == |s.full|
    && forall p :: 0 <= p < |s.full| ==> 0 <= s.full[p]
  }

  // ----- the integrity check of the pool

  predicate NoneNegative(refs: seq<int>) {
    forall a :: 0 <= a < |refs| ==> refs[a] >= 0
  }

  predicate FreeListOk(free: seq<int>, total: int) {
    InRange(free, if total < 0 then 0 else total) && Distinct(free)
  }

  /** Mapped pages are real ones, in use and not free. */
  predicate MappingOk(s: PoolLane, total: int) {
    forall p :: 0 <= p < |s.toPage| && s.toPage[p] >= 0 ==>
      s.toPage[p] < total && s.toPage[p] < |s.refs| && s.refs[s.toPage[p]] > 0 && s.toPage[p] !in s.free
  }

  /** None of the checks of the pool raises. */
  predicate ChecksPass(s: Pool) {
    && NoneNegative(s.full) && NoneNegative(s.swa.lane.refs)
    && NoneNegative(s.c4.refs) && NoneNegative(s.c128.refs) && NoneNegative(s.indexer.refs)
    && FreeListOk(s.c4.free, |s.c4.refs|) && FreeListOk(s.c128.free, |s.c128.refs|)
    && FreeListOk(s.indexer.free, |s.indexer.refs|)
    && FreeListOk(s.swa.lane.free, |s.swa.lane.refs| - 1) && MappingOk(s.swa.lane, |s.swa.lane.refs| - 1)
  }

  lemma InOrderPasses(s: Pool)
    requires PoolOk(s)
    ensures ChecksPass(s)
  {
  }

  function AddAt(full: seq<int>, pages: seq<int>, d: int): (r: seq<int>)
    ensures |r| == |full|
  {
    seq(|full|, p requires 0 <= p < |full| => if p in pages then full[p] + d else full[p])
  }

  function AllocComponents(s: Pool, fulls: seq<int>): Option<Pool>
    requires PoolOk(s)
  {
    if fulls == [] then Some(s)
    else if !InRange(fulls, |s.full|) then None
    else if !AllUnmapped(s.c4.toPage, fulls) || !AllUnmapped(s.c128.toPage, fulls)
            || !AllUnmapped(s.indexer.toPage, fulls) then None
    else if |fulls| > |s.c4.free| || |fulls| > |s.indexer.free| || |fulls| > |s.c128.free| then None
    else Some(s.(c4 := AllocAll(s.c4, fulls), indexer := AllocAll(s.indexer, fulls), c128 := AllocAll(s.c128, fulls)))
  }

  /** None of the pages starts inside a pool of `n` pages: nothing is to be done. */
  predicate Beyond(fulls: seq<int>, n: int) {
    forall i :: 0 <= i < |fulls| ==> fulls[i] >= n
  }

  function AllocPages(s: Pool, fulls: seq<int>): (r: Option<Pool>)
    requires PoolOk(s)
  {
    if Beyond(fulls, |s.full|) then Some(s)
    else match AllocSwa(s.swa, fulls)
      case None => None
      case Some(w) => match AllocComponents(s, fulls)
        case None => None
        case Some(c) => Some(c.(full := AddAt(s.full, fulls, 1), swa := w))
  }

  function ReleaseComponent(s: PoolLane, handles: seq<int>): (r: Option<PoolLane>)
    ensures r.Some? ==> |r.value.toPage| == |s.toPage|
  {
    var pages := Unique(Releasable(handles, |s.refs|));
    if AllHeld(s.refs, pages) then Some(ReleaseAll(s, pages, false)) else None
  }

  function ReleaseComponents(s: Pool, c4: seq<int>, c128: seq<int>, indexer: seq<int>): (r: Option<Pool>)
    ensures r.Some? ==>
      && |r.value.c4.toPage| == |s.c4.toPage| && |r.value.c128.toPage| == |s.c128.toPage|
      && |r.value.indexer.toPage| == |s.indexer.toPage|
  {
    match ReleaseComponent(s.c4, c4)
    case None => None
    case Some(a) => match ReleaseComponent(s.c128, c128)
      case None => None
      case Some(b) => match ReleaseComponent(s.indexer, indexer)
        case None => None
        case Some(c) => Some(s.(c4 := a, c128 := b, indexer := c))
  }

  function Forget(s: PoolLane, fulls: seq<int>): PoolLane
    requires InRange(fulls, |s.toPage|)
  {
    s.(toPage := ForgetAll(s.toPage, fulls))
  }

  function ForgetComponents(s: Pool, fulls: seq<int>): Pool
    requires InRange(fulls, |s.c4.toPage|) && InRange(fulls, |s.c128.toPage|) && InRange(fulls, |s.indexer.toPage|)
  {
    s.(c4 := Forget(s.c4, fulls), c128 := Forget(s.c128, fulls), indexer := Forget(s.indexer, fulls))
  }

  function FreeComponents(s: Pool, fulls: seq<int>, free: bool): Option<Pool>
    requires PoolOk(s) && InRange(fulls, |s.full|)
  {
    if !free then Some(ForgetComponents(s, fulls))
    else match ReleaseComponents(s, Translate(s.c4.toPage, fulls), Translate(s.c128.toPage, fulls),
                                 Translate(s.indexer.toPage, fulls))
      case None => None
      case Some(r) => Some(ForgetComponents(r, fulls))
  }

  function FreePages(s: Pool, fulls: seq<int>, freeComponents: bool, freeSwa: bool): Option<Pool>
    requires PoolOk(s)
  {
    if Beyond(fulls, |s.full|) then Some(s)
    else if !AllHeld(s.full, fulls) then None
    else match ReleaseSwaForFull(s.swa, fulls, freeSwa, false)
      case None => None
      case Some(w) => match FreeComponents(s, fulls, freeComponents)
        case None => None
        case Some(c) => Some(c.(full := AddAt(s.full, fulls, -1), swa := w))
  }

  lemma AllocPagesKeeps(s: Pool, fulls: seq<int>)
    requires PoolOk(s) && AllocPages(s, fulls).Some?
    ensures PoolOk(AllocPages(s, fulls).value)
  {
    if !Beyond(fulls, |s.full|) {
      AllocSwaKeeps(s.swa, fulls);
      AllocAllKeeps(s.c4, fulls, |s.c4.refs|);
      AllocAllKeeps(s.c128, fulls, |s.c128.refs|);
      AllocAllKeeps(s.indexer, fulls, |s.indexer.refs|);
    }
  }

  /** The allocation callback raises exactly when a lane lacks free pages or a full page is
      outside the pool or has a page of some lane already, unless all start behind the pool. */
  lemma PagesRaise(s: Pool, fulls: seq<int>)
    requires PoolOk(s) && |s.c128.toPage| == |s.indexer.toPage| == |s.full|
    ensures AllocPages(s, fulls) == None <==>
      && (exists p :: p in fulls && p < |s.full|)
      && (|| |fulls| > |s.swa.lane.free| || |fulls| > |s.c4.free| || |fulls| > |s.c128.free|
          || |fulls| > |s.indexer.free|
          || exists p :: p in fulls && !(Mappable(s.swa.lane.toPage, p) && Mappable(s.c4.toPage, p)
                                         && Mappable(s.c128.toPage, p) && Mappable(s.indexer.toPage, p)))
  {
    hide SwaOk;
    AllocRaises(s.swa, fulls);
    NotBeyond(fulls, |s.full|);
    UnmappedMeans(s.c4.toPage, fulls);
    UnmappedMeans(s.c128.toPage, fulls);
    UnmappedMeans(s.indexer.toPage, fulls);
  }

  lemma NotBeyond(fulls: seq<int>, n: int)
    ensures !Beyond(fulls, n) <==> exists p :: p in fulls && p < n
  {
    if !Beyond(fulls, n) {
      var i :| 0 <= i < |fulls| && fulls[i] < n;
      assert fulls[i] in fulls;
    }
  }

  lemma UnmappedMeans(toPage: seq<int>, fulls: seq<int>)
    ensures InRange(fulls, |toPage|) && AllUnmapped(toPage, fulls) <==> forall p :: p in fulls ==> Mappable(toPage, p)
  {
    if forall p :: p in fulls ==> Mappable(toPage, p) {
      forall i | 0 <= i < |fulls| ensures 0 <= fulls[i] < |toPage| && toPage[fulls[i]] < 0 {
        assert Mappable(toPage, fulls[i]);
      }
    }
  }

  lemma ReleaseComponentKeeps(s: PoolLane, handles: seq<int>)
    requires CountsOk(s, |s.refs|) && ReleaseComponent(s, handles).Some?
    ensures var r := ReleaseComponent(s, handles).value;
            && CountsOk(r, |r.refs|) && |r.refs| == |s.refs| && r.toPage == s.toPage
            && r.free == s.free + Unique(Releasable(handles, |s.refs|))
  {
    var ps := Unique(Releasable(handles, |s.refs|));
    HeldPages(s, handles, |s.refs|);
    ReleaseAllKeeps(s, ps, false, |s.refs|);
    ReleaseAllMap(s, ps, false, |s.refs|);
    assert ReleaseAll(s, ps, false).toPage == s.toPage;
  }

  lemma ReleaseComponentsKeeps(s: Pool, c4: seq<int>, c128: seq<int>, indexer: seq<int>)
    requires PoolOk(s) && ReleaseComponents(s, c4, c128, indexer).Some?
    ensures PoolOk(ReleaseComponents(s, c4, c128, indexer).value)
  {
    ReleaseComponentKeeps(s.c4, c4);
    ReleaseComponentKeeps(s.c128, c128);
    ReleaseComponentKeeps(s.indexer, indexer);
  }

  lemma FreePagesKeeps(s: Pool, fulls: seq<int>, freeComponents: bool, freeSwa: bool)
    requires PoolOk(s) && FreePages(s, fulls, freeComponents, freeSwa).Some?
    ensures PoolOk(FreePages(s, fulls, freeComponents, freeSwa).value)
  {
    if !Beyond(fulls, |s.full|) {
      StepKeeps(s.swa, ReleaseForFull(fulls, freeSwa, false));
      if freeComponents {
        ReleaseComponentsKeeps(s, Translate(s.c4.toPage, fulls), Translate(s.c128.toPage, fulls),
          Translate(s.indexer.toPage, fulls));
      }
    }
  }
}
