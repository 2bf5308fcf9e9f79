/** Page lifetimes of one lane of the key-value pool: a free list, a reference count
    per page and the map from full-token pages to the lane's pages. */
module PagePool {

  /** `toPage[p]` is the lane's page for full page `p`, or -1. */
  datatype PoolLane = PoolLane(toPage: seq<int>, refs: seq<int>, free: seq<int>)

  predicate Distinct(s: seq<int>) {
    forall i, j :: 0 <= i < j < |s| ==> s[i] != s[j]
  }

  // ----- sorted, duplicate-free page lists

  function InsertUnique(x: int, s: seq<int>): seq<int> {
    if s == [] then [x]
    else if x < s[0] then [x] + s
    else if x == s[0] then s
    else [s[0]] + InsertUnique(x, s[1..])
  }

  function Unique(s: seq<int>): seq<int> {
    if s == [] then [] else InsertUnique(s[0], Unique(s[1..]))
  }

  predicate Ascending(s: seq<int>) {
    forall i, j :: 0 <= i < j < |s| ==> s[i] < s[j]
  }

  lemma {:induction false} InsertUniqueElements(x: int, s: seq<int>)
    ensures forall y :: y in InsertUnique(x, s) <==> y == x || y in s
  {
    if s != [] && x > s[0] {
      InsertUniqueElements(x, s[1..]);
      assert s == [s[0]] + s[1..];
    }
  }

  lemma {:induction false} InsertUniqueAscending(x: int, s: seq<int>)
    requires Ascending(s)
    ensures Ascending(InsertUnique(x, s))
  {
    if s != [] && x > s[0] {
      InsertUniqueAscending(x, s[1..]);
      InsertUniqueElements(x, s[1..]);
      var r := InsertUnique(x, s[1..]);
      forall i | 0 <= i < |r| ensures s[0] < r[i] {
        assert r[i] in r;
      }
    }
  }

  lemma {:induction false} InsertUniqueBag(x: int, s: seq<int>)
    requires x !in s
    ensures multiset(InsertUnique(x, s)) == multiset(s) + multiset{x}
  {
    if s != [] {
      assert s == [s[0]] + s[1..];
      if x > s[0] {
        InsertUniqueBag(x, s[1..]);
      }
    }
  }

  lemma {:induction false} UniqueAscending(s: seq<int>)
    ensures Ascending(Unique(s))
    ensures forall y :: y in Unique(s) <==> y in s
  {
    if s != [] {
      UniqueAscending(s[1..]);
      InsertUniqueAscending(s[0], Unique(s[1..]));
      InsertUniqueElements(s[0], Unique(s[1..]));
    }
  }

  lemma {:induction false} UniqueOfDistinct(s: seq<int>)
    requires Distinct(s)
    ensures multiset(Unique(s)) == multiset(s)
  {
    if s != [] {
      UniqueOfDistinct(s[1..]);
      UniqueAscending(s[1..]);
      InsertUniqueBag(s[0], Unique(s[1..]));
      assert s == [s[0]] + s[1..];
    }
  }

  /** The pages a release call acts on: real pages, without the pinned one. */
  function Releasable(pages: seq<int>, pinned: int): (r: seq<int>)
    ensures forall y :: y in r <==> y in pages && y >= 0 && y != pinned
  {
    if pages == [] then []
    else (if pages[0] >= 0 && pages[0] != pinned then [pages[0]] else []) + Releasable(pages[1..], pinned)
  }

  // ----- one page at a time

  /** Takes the first free page for full page `p`. */
  function AllocOne(s: PoolLane, p: int): PoolLane
    requires 0 <= p < |s.toPage| && s.free != [] && 0 <= s.free[0] < |s.refs|
  {
    var a := s.free[0];
    PoolLane(s.toPage[p := a], s.refs[a := s.refs[a] + 1], s.free[1..])
  }

  predicate CanAlloc(s: PoolLane, fulls: seq<int>) {
    && |fulls| <= |s.free|
    && (forall i :: 0 <= i < |fulls| ==> 0 <= fulls[i] < |s.toPage|)
    && (forall i :: 0 <= i < |s.free| ==> 0 <= s.free[i] < |s.refs|)
  }

  function AllocAll(s: PoolLane, fulls: seq<int>): (r: PoolLane)
    requires CanAlloc(s, fulls)
    ensures |r.toPage| == |s.toPage| && |r.refs| == |s.refs| && r.free == s.free[|fulls|..]
  {
    if fulls == [] then s else AllocOne(AllocAll(s, fulls[..|fulls| - 1]), fulls[|fulls| - 1])
  }

  /** Drops the map entries that point to page `a`. */
  function Unmap(toPage: seq<int>, a: int): seq<int> {
    seq(|toPage|, i requires 0 <= i < |toPage| => if toPage[i] == a then -1 else toPage[i])
  }

  /** Gives page `a` back.  With `unmap` the page is freed, together with the map
      entries that point to it, only when its last reference goes (window pages);
      without it the page is freed and the map left alone (component pages). */
  function ReleaseOne(s: PoolLane, a: int, unmap: bool): PoolLane
    requires 0 <= a < |s.refs|
  {
    var refs := s.refs[a := s.refs[a] - 1];
    if unmap && refs[a] != 0 then PoolLane(s.toPage, refs, s.free)
    else PoolLane(if unmap then Unmap(s.toPage, a) else s.toPage, refs, s.free + [a])
  }

  function ReleaseAll(s: PoolLane, pages: seq<int>, unmap: bool): (r: PoolLane)
    requires forall i :: 0 <= i < |pages| ==> 0 <= pages[i] < |s.refs|
    ensures |r.toPage| == |s.toPage| && |r.refs| == |s.refs|
  {
    if pages == [] then s
    else ReleaseOne(ReleaseAll(s, pages[..|pages| - 1], unmap), pages[|pages| - 1], unmap)
  }

  /** Clears the map entries of the given full pages. */
  function ForgetAll(toPage: seq<int>, fulls: seq<int>): (r: seq<int>)
    requires forall i :: 0 <= i < |fulls| ==> 0 <= fulls[i] < |toPage|
    ensures |r| == |toPage|
    ensures forall p :: 0 <= p < |toPage| ==> r[p] == if p in fulls then -1 else toPage[p]
  {
    if fulls == [] then toPage else ForgetAll(toPage, fulls[..|fulls| - 1])[fulls[|fulls| - 1] := -1]
  }

  // ----- the invariant of a lane

  /** Free pages are distinct, in range and unreferenced; all other pages below
      `pinned` are referenced once. */
  ghost predicate CountsOk(s: PoolLane, pinned: int) {
    && 0 <= pinned <= |s.refs|
    && Distinct(s.free)
    && (forall i :: 0 <= i < |s.free| ==> 0 <= s.free[i] < pinned)
    && (forall a :: 0 <= a < pinned ==> s.refs[a] == if a in s.free then 0 else 1)
  }

  /** Mapped pages are in range, in use and not shared. */
  ghost predicate MapOk(s: PoolLane, pinned: int) {
    && (forall p :: 0 <= p < |s.toPage| ==> -1 <= s.toPage[p] < pinned)
    && (forall p :: 0 <= p < |s.toPage| && s.toPage[p] >= 0 ==> s.toPage[p] !in s.free)
    && (forall p, r :: 0 <= p < r < |s.toPage| && s.toPage[p] >= 0 ==> s.toPage[p] != s.toPage[r])
  }

  lemma AllocOneKeeps(s: PoolLane, p: int, pinned: int)
    requires CountsOk(s, pinned) && s.free != [] && 0 <= p < |s.toPage|
    ensures CountsOk(AllocOne(s, p), pinned)
    ensures MapOk(s, pinned) ==> MapOk(AllocOne(s, p), pinned)
    ensures pinned < |s.refs| ==> AllocOne(s, p).refs[pinned] == s.refs[pinned]
  {
    var a, r := s.free[0], AllocOne(s, p);
    assert s.free == [a] + r.free;
    assert a !in r.free;
    if MapOk(s, pinned) {
      forall q | 0 <= q < |s.toPage| ensures s.toPage[q] != a {
        assert s.toPage[q] >= 0 ==> s.toPage[q] !in s.free;
      }
    }
  }

  lemma {:induction false} AllocAllKeeps(s: PoolLane, fulls: seq<int>, pinned: int)
    requires CountsOk(s, pinned) && CanAlloc(s, fulls)
    ensures CountsOk(AllocAll(s, fulls), pinned)
    ensures MapOk(s, pinned) ==> MapOk(AllocAll(s, fulls), pinned)
    ensures pinned < |s.refs| ==> AllocAll(s, fulls).refs[pinned] == s.refs[pinned]
    decreases |fulls|
  {
    if fulls != [] {
      var n := |fulls| - 1;
      AllocAllKeeps(s, fulls[..n], pinned);
      AllocOneKeeps(AllocAll(s, fulls[..n]), fulls[n], pinned);
    }
  }

  lemma ReleaseOneKeeps(s: PoolLane, a: int, unmap: bool, pinned: int)
    requires CountsOk(s, pinned) && 0 <= a < pinned && a !in s.free
    ensures CountsOk(ReleaseOne(s, a, unmap), pinned)
    ensures ReleaseOne(s, a, unmap).free == s.free + [a]
    ensures unmap && MapOk(s, pinned) ==> MapOk(ReleaseOne(s, a, unmap), pinned)
    ensures pinned < |s.refs| ==> ReleaseOne(s, a, unmap).refs[pinned] == s.refs[pinned]
  {
  }

  lemma {:induction false} ReleaseAllKeeps(s: PoolLane, pages: seq<int>, unmap: bool, pinned: int)
    requires CountsOk(s, pinned) && Distinct(pages)
    requires forall i :: 0 <= i < |pages| ==> 0 <= pages[i] < pinned && pages[i] !in s.free
    ensures CountsOk(ReleaseAll(s, pages, unmap), pinned)
    ensures ReleaseAll(s, pages, unmap).free == s.free + pages
    ensures unmap && MapOk(s, pinned) ==> MapOk(ReleaseAll(s, pages, unmap), pinned)
    ensures pinned < |s.refs| ==> ReleaseAll(s, pages, unmap).refs[pinned] == s.refs[pinned]
    decreases |pages|
  {
    if pages != [] {
      var n := |pages| - 1;
      ReleaseAllKeeps(s, pages[..n], unmap, pinned);
      assert pages[n] !in pages[..n];
      ReleaseOneKeeps(ReleaseAll(s, pages[..n], unmap), pages[n], unmap, pinned);
    }
  }

  /** What a release leaves in the map: everything, or all but the released pages. */
  lemma {:induction false} ReleaseAllMap(s: PoolLane, pages: seq<int>, unmap: bool, pinned: int)
    requires CountsOk(s, pinned) && Distinct(pages)
    requires forall i :: 0 <= i < |pages| ==> 0 <= pages[i] < pinned && pages[i] !in s.free
    ensures |ReleaseAll(s, pages, unmap).toPage| == |s.toPage|
    ensures forall p :: 0 <= p < |s.toPage| ==>
      ReleaseAll(s, pages, unmap).toPage[p] == if unmap && s.toPage[p] in pages then -1 else s.toPage[p]
    decreases |pages|
  {
    if pages != [] {
      var n := |pages| - 1;
      ReleaseAllMap(s, pages[..n], unmap, pinned);
      ReleaseAllKeeps(s, pages[..n], unmap, pinned);
      assert pages == pages[..n] + [pages[n]];
      assert pages[n] !in pages[..n];
    }
  }

  lemma CanAllocFewer(s: PoolLane, fulls: seq<int>, n: nat)
    requires CanAlloc(s, fulls) && n <= |fulls|
    ensures CanAlloc(s, fulls[..n])
  {
  }

  lemma AllocatedNone(s: PoolLane)
    requires CanAlloc(s, [])
    ensures AllocAll(s, []) == s
  {
  }

  lemma AllocatedLast(s: PoolLane, fulls: seq<int>)
    requires CanAlloc(s, fulls) && fulls != [] && CanAlloc(s, fulls[..|fulls| - 1])
    ensures AllocAll(s, fulls).toPage
      == AllocAll(s, fulls[..|fulls| - 1]).toPage[fulls[|fulls| - 1] := s.free[|fulls| - 1]]
  {
    var n := |fulls| - 1;
    assert AllocAll(s, fulls[..n]).free == s.free[n..];
    assert s.free[n..][0] == s.free[n];
  }

  /** Allocation maps distinct full pages to the head of the free list, in order. */
  lemma {:induction false} AllocAllMap(s: PoolLane, fulls: seq<int>, p: int)
    requires CanAlloc(s, fulls) && Distinct(fulls) && 0 <= p < |s.toPage|
    ensures forall i :: 0 <= i < |fulls| && fulls[i] == p ==> AllocAll(s, fulls).toPage[p] == s.free[i]
    ensures p !in fulls ==> AllocAll(s, fulls).toPage[p] == s.toPage[p]
    decreases |fulls|
  {
    hide AllocAll;
    if fulls == [] {
      AllocatedNone(s);
    } else {
      var n := |fulls| - 1;
      CanAllocFewer(s, fulls, n);
      AllocAllMap(s, fulls[..n], p);
      AllocatedLast(s, fulls);
      assert fulls == fulls[..n] + [fulls[n]];
    }
  }

  lemma {:induction false} AscendingDistinct(s: seq<int>)
    requires Ascending(s)
    ensures Distinct(s)
  {
  }

  // ----- counting live pages

  /** Number of pages below `pinned` that are in use. */
  function LivePages(s: PoolLane, pinned: int): int {
    pinned - |s.free|
  }

  ghost function Referenced(refs: seq<int>, n: int): int
    requires 0 <= n <= |refs|
  {
    if n == 0 then 0 else Referenced(refs, n - 1) + if refs[n - 1] > 0 then 1 else 0
  }

  ghost function Below(free: seq<int>, n: int): set<int> {
    set a | a in free && a < n
  }

  lemma BelowNext(free: seq<int>, n: int)
    ensures |Below(free, n)| == |Below(free, n - 1)| + if n - 1 in free then 1 else 0
  {
    if n - 1 in free {
      assert Below(free, n) == Below(free, n - 1) + {n - 1};
    } else {
      assert Below(free, n) == Below(free, n - 1);
    }
  }

  lemma {:induction false} ReferencedCount(s: PoolLane, pinned: int, n: int)
    requires CountsOk(s, pinned) && 0 <= n <= pinned
    ensures Referenced(s.refs, n) == n - |Below(s.free, n)|
    decreases n
  {
    if n == 0 {
      assert Below(s.free, 0) == {};
    } else {
      ReferencedCount(s, pinned, n - 1);
      BelowNext(s.free, n);
    }
  }

  lemma {:induction false} DistinctSize(s: seq<int>)
    requires Distinct(s)
    ensures |set x | x in s| == |s|
  {
    if s != [] {
      DistinctSize(s[1..]);
      assert (set x | x in s) == (set x | x in s[1..]) + {s[0]};
    }
  }

  /** `LivePages` is the number of referenced pages below the pinned one. */
  lemma LivePagesCounted(s: PoolLane, pinned: int)
    requires CountsOk(s, pinned)
    ensures Referenced(s.refs, pinned) == LivePages(s, pinned)
  {
    ReferencedCount(s, pinned, pinned);
    DistinctSize(s.free);
    assert Below(s.free, pinned) == set x | x in s.free;
  }
}
