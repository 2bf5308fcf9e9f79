/** Who owns which page.  In every lane each page has exactly one owner: the free
    list, the prefix tree, the private tail of one request, or, in the middle of an
    operation, the caller's hands. */
module Ownership {
  import opened Options
  import opened Bags
  import opened RadixTree
  import opened PrefixMap
  import opened PagePool
  import opened PoolSpec

  type Tails = map<int, seq<int>>

  /** The pages 0..n, each once. */
  ghost function Pages(n: int): (r: multiset<int>)
    ensures forall v :: r[v] == if 0 <= v < n then 1 else 0
  {
    if n <= 0 then multiset{} else Pages(n - 1) + One(n - 1)
  }

  /** The lane pages of full pages; -1 for a page without one. */
  function Mapped(toPage: seq<int>, pages: seq<int>): (r: seq<int>)
    ensures |r| == |pages|
  {
    seq(|pages|, i requires 0 <= i < |pages| => if 0 <= pages[i] < |toPage| then toPage[pages[i]] else -1)
  }

  ghost function MappedBag(toPage: seq<int>, pages: seq<int>): multiset<int> {
    Live(multiset(Mapped(toPage, pages)))
  }

  ghost function TailBags(tails: Tails): map<int, multiset<int>> {
    map u | u in tails :: multiset(tails[u])
  }

  ghost function MappedBags(toPage: seq<int>, tails: Tails): map<int, multiset<int>> {
    map u | u in tails :: MappedBag(toPage, tails[u])
  }

  /** Full pages: idle, in the tree, in a tail or in hand, each exactly once. */
  ghost predicate FullInv(pages: int, idle: multiset<int>, f: Flat, tails: Tails, held: multiset<int>) {
    idle + Live(LaneBag(f, Full)) + Union(TailBags(tails)) + held == Pages(pages)
  }

  /** A cell that still has its full page agrees with the map, except that the map
      may still point to a page in `loose` that the cell has lost. */
  ghost predicate Coupled(lane: Lane, toPage: seq<int>, f: Flat, loose: seq<int>) {
    forall q :: q in f && 0 <= Entry(f, q, Full) < |toPage| ==>
      var v := toPage[Entry(f, q, Full)];
      v == Entry(f, q, lane) || (Entry(f, q, lane) == -1 && v in loose)
  }

  /** Only pages in use are mapped. */
  ghost predicate Placed(toPage: seq<int>, pages: int, idle: multiset<int>) {
    && pages <= |toPage|
    && (forall p :: 0 <= p < |toPage| ==> toPage[p] >= -1)
    && (forall p :: 0 <= p < |toPage| && (p in idle || p >= pages) ==> toPage[p] == -1)
  }

  ghost predicate LaneBagInv(lane: Lane, s: PoolLane, n: int, f: Flat, tails: Tails, held: multiset<int>) {
    multiset(s.free) + Live(LaneBag(f, lane)) + Union(MappedBags(s.toPage, tails)) + held == Pages(n)
  }

  /** The same for the pages of an auxiliary lane. */
  ghost predicate LaneInvBut(lane: Lane, s: PoolLane, n: int, pages: int, idle: multiset<int>, f: Flat, tails: Tails,
                             held: multiset<int>, loose: seq<int>) {
    && CountsOk(s, n)
    && LaneBagInv(lane, s, n, f, tails, held)
    && Placed(s.toPage, pages, idle)
    && Coupled(lane, s.toPage, f, loose)
  }

  ghost predicate LaneInv(lane: Lane, s: PoolLane, n: int, pages: int, idle: multiset<int>, f: Flat, tails: Tails,
                          held: multiset<int>) {
    LaneInvBut(lane, s, n, pages, idle, f, tails, held, [])
  }

  /** Nothing changed in the map for the pages of any tail. */
  ghost predicate TailsKept(before: seq<int>, after: seq<int>, tails: Tails) {
    && |after| == |before|
    && forall u, p :: u in tails && p in tails[u] && 0 <= p < |before| ==> after[p] == before[p]
  }

  // ----- one page, one owner

  lemma OnlyOnce(a: multiset<int>, b: multiset<int>, c: multiset<int>, d: multiset<int>, n: int, v: int)
    requires a + b + c + d == Pages(n) && v in d
    ensures 0 <= v < n && d[v] == 1 && v !in a && v !in b && v !in c
  {
    assert (a + b + c + d)[v] == a[v] + b[v] + c[v] + d[v];
  }

  lemma EntryInBag(f: Flat, q: Path, lane: Lane)
    requires q in f && Entry(f, q, lane) >= 0
    ensures Entry(f, q, lane) in Live(LaneBag(f, lane))
  {
    UnionMember(LaneBags(f, lane), q, Entry(f, q, lane));
  }

  lemma PageInTails(tails: Tails, u: int, p: int)
    requires u in tails && p in tails[u]
    ensures p in Union(TailBags(tails))
  {
    UnionMember(TailBags(tails), u, p);
  }

  lemma MappedInTails(toPage: seq<int>, tails: Tails, u: int, p: int)
    requires u in tails && p in tails[u] && 0 <= p < |toPage| && toPage[p] >= 0
    ensures toPage[p] in Union(MappedBags(toPage, tails))
  {
    var i :| 0 <= i < |tails[u]| && tails[u][i] == p;
    assert Mapped(toPage, tails[u])[i] == toPage[p];
    UnionMember(MappedBags(toPage, tails), u, toPage[p]);
  }

  lemma MappedConcat(toPage: seq<int>, a: seq<int>, b: seq<int>)
    ensures MappedBag(toPage, a + b) == MappedBag(toPage, a) + MappedBag(toPage, b)
  {
    assert Mapped(toPage, a + b) == Mapped(toPage, a) + Mapped(toPage, b);
    LiveAdd(multiset(Mapped(toPage, a)), multiset(Mapped(toPage, b)));
  }

  // ----- pages change hands

  lemma TailBagsUpdate(tails: Tails, u: int, s: seq<int>)
    ensures TailBags(tails[u := s]) == TailBags(tails)[u := multiset(s)]
  {
  }

  lemma MappedBagsUpdate(toPage: seq<int>, tails: Tails, u: int, s: seq<int>)
    ensures MappedBags(toPage, tails[u := s]) == MappedBags(toPage, tails)[u := MappedBag(toPage, s)]
  {
  }

  /** The middle of a tail. */
  ghost predicate Cut(t: seq<int>, a: seq<int>, b: seq<int>, c: seq<int>) {
    t == a + b + c
  }

  lemma CutBags(toPage: seq<int>, t: seq<int>, a: seq<int>, b: seq<int>, c: seq<int>)
    requires Cut(t, a, b, c)
    ensures multiset(t) == multiset(a + c) + multiset(b)
    ensures MappedBag(toPage, t) == MappedBag(toPage, a + c) + MappedBag(toPage, b)
  {
    MappedConcat(toPage, a, c);
    MappedConcat(toPage, a, b);
    MappedConcat(toPage, a + b, c);
  }

  lemma Cancelled<V>(a: multiset<V>, b: multiset<V>, c: multiset<V>, d: multiset<V>)
    requires a + (b + c) == d + b
    ensures d == a + c
  {
    assert d + b - b == d;
  }

  lemma TakeUnion<K, V>(m: map<K, multiset<V>>, k: K, rest: multiset<V>, taken: multiset<V>)
    requires k in m && m[k] == rest + taken
    ensures Union(m) == Union(m[k := rest]) + taken
  {
    UnionUpdate(m, k, rest);
    Cancelled(Union(m[k := rest]), rest, taken, Union(m));
  }

  /** Taking pages out of a tail. */
  lemma TailTakesFull(tails: Tails, u: int, a: seq<int>, b: seq<int>, c: seq<int>)
    requires u in tails && Cut(tails[u], a, b, c)
    ensures Union(TailBags(tails)) == Union(TailBags(tails[u := a + c])) + multiset(b)
  {
    CutBags([], tails[u], a, b, c);
    TailBagsUpdate(tails, u, a + c);
    TakeUnion(TailBags(tails), u, multiset(a + c), multiset(b));
  }

  lemma TailTakesLane(toPage: seq<int>, tails: Tails, u: int, a: seq<int>, b: seq<int>, c: seq<int>)
    requires u in tails && Cut(tails[u], a, b, c)
    ensures Union(MappedBags(toPage, tails)) == Union(MappedBags(toPage, tails[u := a + c])) + MappedBag(toPage, b)
  {
    CutBags(toPage, tails[u], a, b, c);
    MappedBagsUpdate(toPage, tails, u, a + c);
    TakeUnion(MappedBags(toPage, tails), u, MappedBag(toPage, a + c), MappedBag(toPage, b));
  }

  lemma TakeTail(lane: Lane, s: PoolLane, n: int, pages: int, idle: multiset<int>, f: Flat, tails: Tails,
                 held: multiset<int>, u: int, a: seq<int>, b: seq<int>, c: seq<int>)
    requires u in tails && Cut(tails[u], a, b, c)
    requires LaneInv(lane, s, n, pages, idle, f, tails, held)
    ensures LaneInv(lane, s, n, pages, idle, f, tails[u := a + c], held + MappedBag(s.toPage, b))
  {
    TailTakesLane(s.toPage, tails, u, a, b, c);
  }

  lemma GiveTail(lane: Lane, s: PoolLane, n: int, pages: int, idle: multiset<int>, f: Flat, tails: Tails,
                 held: multiset<int>, u: int, a: seq<int>, b: seq<int>, c: seq<int>)
    requires u in tails && tails[u] == a + c
    requires LaneInv(lane, s, n, pages, idle, f, tails, held + MappedBag(s.toPage, b))
    ensures LaneInv(lane, s, n, pages, idle, f, tails[u := a + b + c], held)
  {
    var more := tails[u := a + b + c];
    TailTakesLane(s.toPage, more, u, a, b, c);
    assert more[u := a + c] == tails;
  }

  // ----- giving lane pages back

  /** Pages in hand are in use and pairwise distinct, so a release of them neither
      raises nor leaves any of them out. */
  lemma HandlesInUse(s: PoolLane, n: int, others: multiset<int>, handles: seq<int>)
    requires CountsOk(s, n) && multiset(s.free) + others + Live(multiset(handles)) == Pages(n)
    requires forall i :: 0 <= i < |handles| ==> handles[i] >= -1
    ensures var ps := Unique(Releasable(handles, n));
            && multiset(ps) == Live(multiset(handles)) && AllHeld(s.refs, ps) && Distinct(ps)
            && forall i :: 0 <= i < |ps| ==> 0 <= ps[i] < n && ps[i] !in s.free && s.refs[ps[i]] == 1
  {
    hide CountsOk, Unique, Releasable, Live, Distinct, AllHeld;
    var ps := Unique(Releasable(handles, n));
    var r := Live(multiset(handles));
    UniqueAscending(Releasable(handles, n));
    AscendingDistinct(ps);
    forall v | v in r ensures r[v] == 1 && 0 <= v < n && v !in s.free && v in handles && v >= 0 {
      assert multiset(s.free) + others + multiset{} + r == Pages(n);
      OnlyOnce(multiset(s.free), others, multiset{}, r, n, v);
      LiveMember(handles, v);
    }
    forall v | v in ps ensures v in r {
      LiveMember(handles, v);
    }
    DistinctBag(ps, r);
    InUse(s, n, ps);
  }

  lemma LiveMember(s: seq<int>, v: int)
    ensures v in Live(multiset(s)) <==> v in s && v != -1
  {
    assert v in multiset(s) <==> v in s;
  }

  lemma InUse(s: PoolLane, n: int, ps: seq<int>)
    requires CountsOk(s, n) && forall v :: v in ps ==> 0 <= v < n && v !in s.free
    ensures AllHeld(s.refs, ps)
    ensures forall i :: 0 <= i < |ps| ==> 0 <= ps[i] < n && ps[i] !in s.free && s.refs[ps[i]] == 1
  {
    forall i | 0 <= i < |ps| ensures 0 <= ps[i] < n && ps[i] !in s.free && s.refs[ps[i]] == 1 {
      assert ps[i] in ps;
    }
  }

  lemma {:induction false} DistinctCount(s: seq<int>, v: int)
    requires Distinct(s)
    ensures multiset(s)[v] == if v in s then 1 else 0
  {
    if s != [] {
      DistinctCount(s[1..], v);
      assert s == [s[0]] + s[1..];
    }
  }

  lemma DistinctBag(s: seq<int>, r: multiset<int>)
    requires Distinct(s) && (forall v :: v in r ==> r[v] == 1 && v in s) && forall v :: v in s ==> v in r
    ensures multiset(s) == r
  {
    forall v ensures multiset(s)[v] == r[v] {
      DistinctCount(s, v);
    }
  }

  lemma InHandElsewhere(lane: Lane, s: PoolLane, n: int, f: Flat, tails: Tails, held: multiset<int>)
    requires LaneBagInv(lane, s, n, f, tails, held)
    ensures forall q :: q in f && Entry(f, q, lane) >= 0 ==> Entry(f, q, lane) !in held
    ensures forall u, p :: u in tails && p in tails[u] && 0 <= p < |s.toPage| && s.toPage[p] >= 0 ==>
      s.toPage[p] !in held
  {
    forall q | q in f && Entry(f, q, lane) >= 0 ensures Entry(f, q, lane) !in held {
      EntryInBag(f, q, lane);
      if Entry(f, q, lane) in held {
        OnlyOnce(multiset(s.free), Live(LaneBag(f, lane)), Union(MappedBags(s.toPage, tails)), held, n,
          Entry(f, q, lane));
      }
    }
    forall u, p | u in tails && p in tails[u] && 0 <= p < |s.toPage| && s.toPage[p] >= 0 ensures s.toPage[p] !in held {
      MappedInTails(s.toPage, tails, u, p);
      if s.toPage[p] in held {
        OnlyOnce(multiset(s.free), Live(LaneBag(f, lane)), Union(MappedBags(s.toPage, tails)), held, n, s.toPage[p]);
      }
    }
  }

  lemma FullInHand(pages: int, idle: multiset<int>, f: Flat, tails: Tails, held: multiset<int>)
    requires FullInv(pages, idle, f, tails, held)
    ensures forall q :: q in f && Entry(f, q, Full) >= 0 ==> Entry(f, q, Full) !in held
    ensures forall u, p :: u in tails && p in tails[u] ==> p !in held
    ensures forall p :: p in held ==> 0 <= p < pages && held[p] == 1 && p !in idle
  {
    forall q | q in f && Entry(f, q, Full) >= 0 ensures Entry(f, q, Full) !in held {
      EntryInBag(f, q, Full);
      if Entry(f, q, Full) in held {
        OnlyOnce(idle, Live(LaneBag(f, Full)), Union(TailBags(tails)), held, pages, Entry(f, q, Full));
      }
    }
    forall u, p | u in tails && p in tails[u] ensures p !in held {
      PageInTails(tails, u, p);
      if p in held {
        OnlyOnce(idle, Live(LaneBag(f, Full)), Union(TailBags(tails)), held, pages, p);
      }
    }
    forall p | p in held ensures 0 <= p < pages && held[p] == 1 && p !in idle {
      OnlyOnce(idle, Live(LaneBag(f, Full)), Union(TailBags(tails)), held, pages, p);
    }
  }

  lemma TailPage(pages: int, idle: multiset<int>, f: Flat, tails: Tails, held: multiset<int>, u: int, p: int)
    requires FullInv(pages, idle, f, tails, held) && u in tails && p in tails[u]
    ensures 0 <= p < pages
  {
    hide LaneBag, Live, Union, TailBags;
    PageInTails(tails, u, p);
    var a, b, c := Live(LaneBag(f, Full)), Union(TailBags(tails)), held;
    assert (idle + a + b + c)[p] == idle[p] + a[p] + b[p] + c[p];
  }

  lemma SameMapped(before: seq<int>, after: seq<int>, tails: Tails)
    requires TailsKept(before, after, tails)
    ensures MappedBags(after, tails) == MappedBags(before, tails)
  {
    forall u | u in tails ensures MappedBag(after, tails[u]) == MappedBag(before, tails[u]) {
      assert Mapped(after, tails[u]) == Mapped(before, tails[u]);
    }
    SameMap(MappedBags(after, tails), MappedBags(before, tails));
  }

  /** A change of the map that leaves tails and tree alone keeps the invariant. */
  lemma MapChange(lane: Lane, s: PoolLane, r: PoolLane, n: int, pages: int, idle: multiset<int>, now: multiset<int>,
                  f: Flat, tails: Tails, held: multiset<int>, left: multiset<int>)
    requires CountsOk(s, n) && LaneBagInv(lane, s, n, f, tails, held) && Placed(s.toPage, pages, idle) && CountsOk(r, n)
    requires multiset(r.free) + left == multiset(s.free) + held
    requires TailsKept(s.toPage, r.toPage, tails)
    requires forall p :: 0 <= p < |s.toPage| ==> r.toPage[p] == s.toPage[p] || r.toPage[p] == -1
    requires forall p :: p in now && 0 <= p < |s.toPage| ==> p in idle || r.toPage[p] == -1
    requires Coupled(lane, r.toPage, f, [])
    ensures LaneInv(lane, r, n, pages, now, f, tails, left)
  {
    SameMapped(s.toPage, r.toPage, tails);
    RegroupBags(multiset(s.free), multiset(r.free), Live(LaneBag(f, lane)), Union(MappedBags(s.toPage, tails)), held,
      left);
  }

  lemma RegroupBags(a: multiset<int>, b: multiset<int>, c: multiset<int>, d: multiset<int>, e: multiset<int>,
                    g: multiset<int>)
    requires b + g == a + e
    ensures b + c + d + g == a + c + d + e
  {
    forall v ensures (b + c + d + g)[v] == (a + c + d + e)[v] {
      assert (b + g)[v] == (a + e)[v];
    }
  }

  /** Component pages in hand can be released. */
  lemma GiveBackComponent(lane: Lane, s: PoolLane, n: int, pages: int, idle: multiset<int>, f: Flat, tails: Tails,
                          held: multiset<int>, rest: multiset<int>, handles: seq<int>)
    requires LaneInv(lane, s, n, pages, idle, f, tails, held) && n == |s.refs|
    requires held == rest + Live(multiset(handles)) && forall i :: 0 <= i < |handles| ==> handles[i] >= -1
    ensures ReleaseComponent(s, handles).Some?
    ensures var r := ReleaseComponent(s, handles).value;
            && LaneInv(lane, r, n, pages, idle, f, tails, rest) && |r.refs| == n && r.toPage == s.toPage
  {
    HandlesInUse(s, n, Live(LaneBag(f, lane)) + Union(MappedBags(s.toPage, tails)) + rest, handles);
    ReleaseComponentKeeps(s, handles);
    MapChange(lane, s, ReleaseComponent(s, handles).value, n, pages, idle, idle, f, tails, held, rest);
  }

  /** Taking pages in hand out of the map touches no tail and no tree cell. */
  lemma UnmapHeld(s: PoolLane, n: int, pages: int, idle: multiset<int>, f: Flat, tails: Tails, held: multiset<int>,
                  rest: multiset<int>, ps: seq<int>, loose: seq<int>)
    requires LaneInvBut(Swa, s, n, pages, idle, f, tails, held, loose) && (forall a :: a >= 0 && a in loose ==> a in ps)
    requires Distinct(ps) && held == rest + multiset(ps)
    requires forall i :: 0 <= i < |ps| ==> 0 <= ps[i] < n && ps[i] !in s.free
    requires InRange(ps, |s.refs|)
    ensures var r := ReleaseAll(s, ps, true);
            && LaneInv(Swa, r, n, pages, idle, f, tails, rest) && TailsKept(s.toPage, r.toPage, tails)
            && forall p :: 0 <= p < |s.toPage| ==> r.toPage[p] == if s.toPage[p] in ps then -1 else s.toPage[p]
  {
    var r := ReleaseAll(s, ps, true);
    ReleaseAllKeeps(s, ps, true, n);
    ReleaseAllMap(s, ps, true, n);
    InHandElsewhere(Swa, s, n, f, tails, held);
    forall a | a in ps ensures a in held && a >= 0 { assert a in multiset(ps); }
    MapChange(Swa, s, r, n, pages, idle, idle, f, tails, held, rest);
  }

  lemma HandlesLive(handles: seq<int>, ps: seq<int>)
    requires multiset(ps) == Live(multiset(handles))
    ensures forall a :: a >= 0 && a in handles ==> a in ps
    ensures ps == [] ==> Live(multiset(handles)) == multiset{}
  {
    forall a | a >= 0 && a in handles ensures a in ps {
      assert a in multiset(handles);
      assert a in Live(multiset(handles));
    }
  }

  /** The pages behind the handles that the caller holds. */
  lemma HeldHandles(lane: Lane, s: PoolLane, n: int, f: Flat, tails: Tails, held: multiset<int>, rest: multiset<int>,
                    handles: seq<int>)
    requires CountsOk(s, n) && LaneBagInv(lane, s, n, f, tails, held)
    requires held == rest + Live(multiset(handles)) && forall i :: 0 <= i < |handles| ==> handles[i] >= -1
    ensures var ps := Unique(Releasable(handles, n));
            && AllHeld(s.refs, ps) && Distinct(ps) && held == rest + multiset(ps)
            && (forall i :: 0 <= i < |ps| ==> 0 <= ps[i] < n && ps[i] !in s.free)
            && (forall a :: a >= 0 && a in handles ==> a in ps)
            && (ps == [] ==> held == rest)
  {
    HandlesInUse(s, n, Live(LaneBag(f, lane)) + Union(MappedBags(s.toPage, tails)) + rest, handles);
    HandlesLive(handles, Unique(Releasable(handles, n)));
  }

  /** What a release of window pages does to the map. */
  ghost predicate SwaUnmapped(before: seq<int>, after: seq<int>, handles: seq<int>) {
    && |after| == |before|
    && (forall p :: 0 <= p < |before| && before[p] >= 0 && before[p] in handles ==> after[p] == -1)
    && (forall p :: 0 <= p < |before| ==> after[p] == before[p] || after[p] == -1)
  }

  /** Window pages in hand can be released; the map entries that go with them belong
      to no tail and to no tree cell. */
  lemma GiveBackSwa(s: SwaState, pages: int, idle: multiset<int>, f: Flat, tails: Tails, held: multiset<int>,
                    rest: multiset<int>, handles: seq<int>, loose: seq<int>, tombstone: bool)
    requires SwaOk(s) && LaneInvBut(Swa, s.lane, Dummy(s), pages, idle, f, tails, held, loose)
    requires forall a :: a in loose ==> a in handles
    requires held == rest + Live(multiset(handles)) && forall i :: 0 <= i < |handles| ==> handles[i] >= -1
    ensures ReleaseSwa(s, handles, tombstone).Some?
    ensures var r := ReleaseSwa(s, handles, tombstone).value;
            && SwaOk(r) && LaneInv(Swa, r.lane, Dummy(s), pages, idle, f, tails, rest) && Dummy(r) == Dummy(s)
            && TailsKept(s.lane.toPage, r.lane.toPage, tails) && SwaUnmapped(s.lane.toPage, r.lane.toPage, handles)
  {
    hide LaneBag, Live, Union, MappedBags, Pages, Unique, Releasable, Placed;
    var ps := Unique(Releasable(handles, Dummy(s)));
    HeldHandles(Swa, s.lane, Dummy(s), f, tails, held, rest, handles);
    ReleaseSwaKeeps(s, handles, tombstone);
    if ps != [] {
      UnmapHeld(s.lane, Dummy(s), pages, idle, f, tails, held, rest, ps, loose);
    }
  }

  /** Full pages in hand leave the map when they become idle. */
  lemma ForgetHeld(lane: Lane, s: PoolLane, n: int, pages: int, idle: multiset<int>, f: Flat, tails: Tails,
                   held: multiset<int>, fullHeld: multiset<int>, fulls: seq<int>)
    requires LaneInv(lane, s, n, pages, idle, f, tails, held)
    requires FullInv(pages, idle, f, tails, fullHeld) && multiset(fulls) <= fullHeld
    ensures InRange(fulls, |s.toPage|)
    ensures LaneInv(lane, Forget(s, fulls), n, pages, idle + multiset(fulls), f, tails, held)
    ensures TailsKept(s.toPage, Forget(s, fulls).toPage, tails)
  {
    FullInHand(pages, idle, f, tails, fullHeld);
    forall i | 0 <= i < |fulls| ensures fulls[i] in fullHeld {
      assert fulls[i] in multiset(fulls);
    }
    forall p | p in multiset(fulls) ensures p in fulls { }
    MapChange(lane, s, Forget(s, fulls), n, pages, idle, idle + multiset(fulls), f, tails, held, held);
  }

  // ----- the tree loses pages

  lemma OutOfTree(x: multiset<int>, t: multiset<int>, y: multiset<int>, held: multiset<int>, u: multiset<int>,
                  moved: multiset<int>)
    requires u + moved == t
    ensures x + u + y + (held + moved) == x + t + y + held
  {
  }

  lemma IntoTree(x: multiset<int>, t: multiset<int>, y: multiset<int>, held: multiset<int>, moved: multiset<int>)
    ensures x + (t + moved) + y + held == x + t + y + (held + moved)
  {
  }

  lemma FullLeavesTree(pages: int, idle: multiset<int>, f: Flat, g: Flat, tails: Tails, held: multiset<int>,
                       moved: multiset<int>)
    requires FullInv(pages, idle, f, tails, held) && Live(LaneBag(g, Full)) + moved == Live(LaneBag(f, Full))
    ensures FullInv(pages, idle, g, tails, held + moved)
  {
    OutOfTree(idle, Live(LaneBag(f, Full)), Union(TailBags(tails)), held, Live(LaneBag(g, Full)), moved);
  }

  lemma LaneLeavesTree(lane: Lane, s: PoolLane, n: int, pages: int, idle: multiset<int>, f: Flat, g: Flat, tails: Tails,
                       held: multiset<int>, moved: multiset<int>, loose: seq<int>)
    requires LaneInv(lane, s, n, pages, idle, f, tails, held)
    requires Live(LaneBag(g, lane)) + moved == Live(LaneBag(f, lane))
    requires Coupled(lane, s.toPage, g, loose)
    ensures LaneInvBut(lane, s, n, pages, idle, g, tails, held + moved, loose)
  {
    OutOfTree(multiset(s.free), Live(LaneBag(f, lane)), Union(MappedBags(s.toPage, tails)), held,
      Live(LaneBag(g, lane)), moved);
  }

  lemma StoredTwice(f: Flat, lane: Lane, q: Path, r: Path)
    requires q in f && r in f && q != r && Entry(f, q, lane) == Entry(f, r, lane)
    ensures LaneBag(f, lane)[Entry(f, q, lane)] >= 2
  {
    UnionExtract(LaneBags(f, lane), q);
    UnionExtract(LaneBags(f, lane) - {q}, r);
  }

  /** No page is stored twice. */
  lemma UniqueCell(f: Flat, lane: Lane, q: Path, r: Path, n: int, others: multiset<int>)
    requires Live(LaneBag(f, lane)) + others == Pages(n) && q in f && r in f
    requires Entry(f, q, lane) == Entry(f, r, lane) >= 0
    ensures q == r
  {
    var v := Entry(f, q, lane);
    assert (Live(LaneBag(f, lane)) + others)[v] <= 1 && Live(LaneBag(f, lane))[v] == LaneBag(f, lane)[v];
    if q != r {
      StoredTwice(f, lane, q, r);
    }
  }

  lemma CellOfPage(f: Flat, lane: Lane, v: int) returns (q: Path)
    requires v >= 0 && v in LaneBag(f, lane)
    ensures q in f && Entry(f, q, lane) == v
  {
    q := UnionWitness(LaneBags(f, lane), v);
  }

  /** A page a cell has lost is among the released ones. */
  lemma LostIsReleased(f: Flat, g: Flat, lane: Lane, q: Path, n: int, others: multiset<int>, released: seq<int>)
    requires Live(LaneBag(f, lane)) + others == Pages(n) && g.Keys == f.Keys && q in f
    requires Live(LaneBag(g, lane)) + multiset(released) == Live(LaneBag(f, lane))
    requires forall r :: r in f ==> Entry(g, r, lane) == Entry(f, r, lane) || Entry(g, r, lane) == -1
    requires Entry(f, q, lane) >= 0 && Entry(g, q, lane) == -1
    ensures Entry(f, q, lane) in released
  {
    var v := Entry(f, q, lane);
    EntryInBag(f, q, lane);
    if v in LaneBag(g, lane) {
      var r := CellOfPage(g, lane, v);
      UniqueCell(f, lane, q, r, n, others);
    }
    assert v in Live(LaneBag(g, lane)) + multiset(released);
  }

  /** Window pages leave the tree one way: the cell and the map lose them together. */
  lemma SwaLeavesTree(s: SwaState, pages: int, idle: multiset<int>, f: Flat, g: Flat, tails: Tails, released: seq<int>,
                      tombstone: bool)
    requires SwaOk(s) && LaneInv(Swa, s.lane, Dummy(s), pages, idle, f, tails, multiset{})
    requires g.Keys == f.Keys && (forall i :: 0 <= i < |released| ==> released[i] >= 0)
    requires forall q :: q in f ==> Entry(g, q, Full) == Entry(f, q, Full)
    requires forall q :: q in f ==> Entry(g, q, Swa) == Entry(f, q, Swa) || Entry(g, q, Swa) == -1
    requires Live(LaneBag(g, Swa)) + multiset(released) == Live(LaneBag(f, Swa))
    ensures ReleaseSwa(s, released, tombstone).Some?
    ensures var r := ReleaseSwa(s, released, tombstone).value;
            && SwaOk(r) && LaneInv(Swa, r.lane, Dummy(s), pages, idle, g, tails, multiset{}) && Dummy(r) == Dummy(s)
            && TailsKept(s.lane.toPage, r.lane.toPage, tails)
  {
    var n, l := Dummy(s), s.lane;
    SwaStaysLoose(l, n, pages, idle, f, g, tails, released);
    LaneLeavesTree(Swa, l, n, pages, idle, f, g, tails, multiset{}, multiset(released), released);
    LiveOfLive(released);
    assert multiset{} + multiset(released) == multiset{} + Live(multiset(released));
    GiveBackSwa(s, pages, idle, g, tails, multiset{} + multiset(released), multiset{}, released, released, tombstone);
  }

  lemma LiveOfLive(s: seq<int>)
    requires forall i :: 0 <= i < |s| ==> s[i] >= 0
    ensures Live(multiset(s)) == multiset(s)
  {
    assert -1 !in multiset(s);
  }

  lemma SwaStaysLoose(s: PoolLane, n: int, pages: int, idle: multiset<int>, f: Flat, g: Flat, tails: Tails,
                      released: seq<int>)
    requires LaneInv(Swa, s, n, pages, idle, f, tails, multiset{}) && g.Keys == f.Keys
    requires forall q :: q in f ==> Entry(g, q, Full) == Entry(f, q, Full)
    requires forall q :: q in f ==> Entry(g, q, Swa) == Entry(f, q, Swa) || Entry(g, q, Swa) == -1
    requires Live(LaneBag(g, Swa)) + multiset(released) == Live(LaneBag(f, Swa))
    ensures Coupled(Swa, s.toPage, g, released)
  {
    hide CountsOk, LaneBag, Union, MappedBags, Pages;
    var others := multiset(s.free) + Union(MappedBags(s.toPage, tails));
    assert Live(LaneBag(f, Swa)) + others == Pages(n) by {
      assert multiset(s.free) + Live(LaneBag(f, Swa)) + Union(MappedBags(s.toPage, tails)) + multiset{} == Pages(n);
    }
    forall q | q in g && 0 <= Entry(g, q, Full) < |s.toPage|
      ensures var v := s.toPage[Entry(g, q, Full)]; v == Entry(g, q, Swa) || (Entry(g, q, Swa) == -1 && v in released)
    {
      if Entry(g, q, Swa) != Entry(f, q, Swa) && Entry(f, q, Swa) >= 0 {
        LostIsReleased(f, g, Swa, q, n, others, released);
      }
    }
  }

  // ----- allocation

  lemma FullTaken(pages: int, idle: multiset<int>, now: multiset<int>, f: Flat, tails: Tails, taken: seq<int>)
    requires FullInv(pages, idle, f, tails, multiset{}) && idle == multiset(taken) + now
    ensures FullInv(pages, now, f, tails, multiset(taken))
    ensures Distinct(taken) && InRange(taken, pages)
  {
    assert now + Live(LaneBag(f, Full)) + Union(TailBags(tails)) + multiset(taken) == Pages(pages);
    forall i | 0 <= i < |taken| ensures 0 <= taken[i] < pages {
      OnlyOnce(now, Live(LaneBag(f, Full)), Union(TailBags(tails)), multiset(taken), pages, taken[i]);
    }
    forall i, j | 0 <= i < j < |taken| ensures taken[i] != taken[j] {
      if taken[i] == taken[j] {
        OnlyOnce(now, Live(LaneBag(f, Full)), Union(TailBags(tails)), multiset(taken), pages, taken[i]);
        TwiceInBag(taken, i, j);
      }
    }
  }

  lemma TwiceInBag(s: seq<int>, i: nat, j: nat)
    requires i < j < |s| && s[i] == s[j]
    ensures multiset(s)[s[i]] >= 2
  {
    assert s == s[..i] + [s[i]] + s[i + 1..j] + [s[j]] + s[j + 1..];
  }

  lemma AllocMap(s: PoolLane, fulls: seq<int>)
    requires CanAlloc(s, fulls) && Distinct(fulls)
    ensures var r := AllocAll(s, fulls);
            && Mapped(r.toPage, fulls) == s.free[..|fulls|]
            && forall p :: 0 <= p < |s.toPage| && p !in fulls ==> r.toPage[p] == s.toPage[p]
  {
    var r := AllocAll(s, fulls);
    forall p | 0 <= p < |s.toPage| && p !in fulls ensures r.toPage[p] == s.toPage[p] {
      AllocAllMap(s, fulls, p);
    }
    forall i | 0 <= i < |fulls| ensures Mapped(r.toPage, fulls)[i] == s.free[i] {
      AllocAllMap(s, fulls, fulls[i]);
    }
  }

  lemma AllocatedKeepsTails(s: PoolLane, pages: int, now: multiset<int>, f: Flat, tails: Tails, fulls: seq<int>)
    requires FullInv(pages, now, f, tails, multiset(fulls)) && Distinct(fulls) && CanAlloc(s, fulls)
    ensures TailsKept(s.toPage, AllocAll(s, fulls).toPage, tails)
    ensures forall p :: p in fulls ==> p !in now
    ensures forall q :: q in f && Entry(f, q, Full) >= 0 ==> Entry(f, q, Full) !in fulls
  {
    AllocMap(s, fulls);
    FullInHand(pages, now, f, tails, multiset(fulls));
    forall p | p in fulls ensures p in multiset(fulls) { }
  }

  lemma AllocatedBag(lane: Lane, s: PoolLane, n: int, f: Flat, tails: Tails, fulls: seq<int>)
    requires LaneBagInv(lane, s, n, f, tails, multiset{}) && CountsOk(s, n)
    requires CanAlloc(s, fulls) && Distinct(fulls) && TailsKept(s.toPage, AllocAll(s, fulls).toPage, tails)
    ensures LaneBagInv(lane, AllocAll(s, fulls), n, f, tails, MappedBag(AllocAll(s, fulls).toPage, fulls))
  {
    hide CountsOk, Mapped, MappedBags, LaneBag, TailsKept, Distinct;
    var r, k := AllocAll(s, fulls), |fulls|;
    AllocMap(s, fulls);
    LiveOfLive(s.free[..k]);
    assert s.free == s.free[..k] + s.free[k..];
    SameMapped(s.toPage, r.toPage, tails);
    RegroupBags(multiset(s.free), multiset(r.free), Live(LaneBag(f, lane)), Union(MappedBags(s.toPage, tails)),
      multiset{}, multiset(s.free[..k]));
  }

  lemma LaneAllocates(lane: Lane, s: PoolLane, n: int, pages: int, idle: multiset<int>, now: multiset<int>, f: Flat,
                      tails: Tails, fulls: seq<int>)
    requires LaneInv(lane, s, n, pages, idle, f, tails, multiset{}) && idle == multiset(fulls) + now
    requires FullInv(pages, now, f, tails, multiset(fulls)) && Distinct(fulls) && InRange(fulls, pages)
    requires |fulls| <= |s.free|
    requires n <= |s.refs|
    ensures AllUnmapped(s.toPage, fulls) && CanAlloc(s, fulls)
    ensures var r := AllocAll(s, fulls);
            && LaneInv(lane, r, n, pages, now, f, tails, MappedBag(r.toPage, fulls))
            && TailsKept(s.toPage, r.toPage, tails)
            && Mapped(r.toPage, fulls) == s.free[..|fulls|]
  {
    forall i | 0 <= i < |fulls| ensures s.toPage[fulls[i]] == -1 { assert fulls[i] in idle; }
    AllocMap(s, fulls);
    AllocAllKeeps(s, fulls, n);
    AllocatedKeepsTails(s, pages, now, f, tails, fulls);
    AllocatedBag(lane, s, n, f, tails, fulls);
    AllocatedPlaced(s, pages, idle, now, fulls);
  }

  lemma AllocatedPlaced(s: PoolLane, pages: int, idle: multiset<int>, now: multiset<int>, fulls: seq<int>)
    requires Placed(s.toPage, pages, idle) && now <= idle && CanAlloc(s, fulls) && Distinct(fulls)
    requires InRange(fulls, pages)
    requires forall p :: p in fulls ==> p !in now
    ensures Placed(AllocAll(s, fulls).toPage, pages, now)
  {
    var r := AllocAll(s, fulls);
    AllocMap(s, fulls);
    forall i | 0 <= i < |fulls| ensures r.toPage[fulls[i]] >= 0 { assert Mapped(r.toPage, fulls)[i] == s.free[i]; }
  }

  // ----- the tree gains pages

  lemma CellsJoin(f: Flat, base: Path, x: Node, lane: Lane)
    requires LanesOk(x) && SegmentKeys(base, x.key) !! f.Keys
    ensures LaneBag(f + Segment(base, x), lane) == LaneBag(f, lane) + multiset(x.lanes[lane])
  {
    LaneBagMerge(f, Segment(base, x), lane);
    SegmentBag(base, x, lane);
  }

  lemma FullJoins(pages: int, idle: multiset<int>, f: Flat, base: Path, x: Node, tails: Tails, held: multiset<int>)
    requires LanesOk(x) && SegmentKeys(base, x.key) !! f.Keys
    requires FullInv(pages, idle, f, tails, held + Live(multiset(x.lanes[Full])))
    ensures FullInv(pages, idle, f + Segment(base, x), tails, held)
  {
    CellsJoin(f, base, x, Full);
    LiveAdd(LaneBag(f, Full), multiset(x.lanes[Full]));
    IntoTree(idle, Live(LaneBag(f, Full)), Union(TailBags(tails)), held, Live(multiset(x.lanes[Full])));
  }

  lemma LaneJoins(lane: Lane, s: PoolLane, n: int, pages: int, idle: multiset<int>, f: Flat, base: Path, x: Node,
                  tails: Tails, held: multiset<int>)
    requires LanesOk(x) && SegmentKeys(base, x.key) !! f.Keys && x.lanes[lane] == Mapped(s.toPage, x.lanes[Full])
    requires LaneInv(lane, s, n, pages, idle, f, tails, held + MappedBag(s.toPage, x.lanes[Full]))
    ensures LaneInv(lane, s, n, pages, idle, f + Segment(base, x), tails, held)
  {
    CellsJoin(f, base, x, lane);
    LiveAdd(LaneBag(f, lane), multiset(x.lanes[lane]));
    IntoTree(multiset(s.free), Live(LaneBag(f, lane)), Union(MappedBags(s.toPage, tails)), held,
      Live(multiset(x.lanes[lane])));
    JoinedCoupled(lane, s.toPage, f, base, x);
  }

  lemma JoinedCoupled(lane: Lane, toPage: seq<int>, f: Flat, base: Path, x: Node)
    requires LanesOk(x) && SegmentKeys(base, x.key) !! f.Keys && x.lanes[lane] == Mapped(toPage, x.lanes[Full])
    requires Coupled(lane, toPage, f, [])
    ensures Coupled(lane, toPage, f + Segment(base, x), [])
  {
    var g := f + Segment(base, x);
    forall q | q in g && 0 <= Entry(g, q, Full) < |toPage| ensures toPage[Entry(g, q, Full)] == Entry(g, q, lane) {
      if q in Segment(base, x) {
        NewCellCoupled(lane, toPage, base, x, q);
        assert Entry(Segment(base, x), q, Full) == Entry(g, q, Full);
        assert Entry(Segment(base, x), q, lane) == Entry(g, q, lane);
      } else {
        assert g[q] == f[q];
        assert Entry(f, q, Full) == Entry(g, q, Full);
      }
    }
  }

  lemma NewCellCoupled(lane: Lane, toPage: seq<int>, base: Path, x: Node, q: Path)
    requires LanesOk(x) && x.lanes[lane] == Mapped(toPage, x.lanes[Full]) && q in Segment(base, x)
    ensures 0 <= Entry(Segment(base, x), q, Full) < |toPage| ==>
      toPage[Entry(Segment(base, x), q, Full)] == Entry(Segment(base, x), q, lane)
  {
    var k :| 0 < k <= |x.key| && q == base + x.key[..k];
    BothEntries(base, x, lane, k - 1);
  }

  lemma BothEntries(base: Path, x: Node, lane: Lane, i: nat)
    requires LanesOk(x) && i < |x.key|
    ensures Entry(Segment(base, x), base + x.key[..i + 1], Full) == x.lanes[Full][i]
    ensures Entry(Segment(base, x), base + x.key[..i + 1], lane) == x.lanes[lane][i]
  {
    hide Segment, Entry;
    SegmentEntry(base, x, Full, i);
    SegmentEntry(base, x, lane, i);
  }
}
