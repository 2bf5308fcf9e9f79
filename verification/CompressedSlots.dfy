/** Where a compressed group of tokens is stored: the address that writes it, the address
    that reads it, and the address the pool derives from the full token location. */
module CompressedSlots {
  import opened Arithmetic
  import opened Options

  /** Slots of a component page. */
  function ComponentPageSize(page: Positive, ratio: Positive): (c: Positive)
    ensures ratio * (c - 1) < page <= ratio * c
  {
    var n := (page + ratio - 1) / ratio;
    Division(page + ratio - 1, ratio);
    Spread(ratio, n, -1);
    if n > 1 then n else 1
  }

  /** The location of compressed slot `raw`, read through a row of the page table; -1 for
      slots that are absent. */
  function ReadLoc(row: seq<int>, raw: int, size: Positive): int
    requires |row| > 0
  {
    var at := if raw < 0 then 0 else raw;
    var logical, offset := at / size, at % size;
    var page := row[if logical < |row| - 1 then logical else |row| - 1];
    if raw >= 0 && logical < |row| && page >= 0 then page * size + offset else -1
  }

  /** A position completes a group when it is the last of its `ratio` positions. */
  predicate Boundary(p: nat, ratio: Positive) {
    (p + 1) % ratio == 0
  }

  /** The rows whose position completes a group. */
  function BoundaryRows(positions: seq<nat>, ratio: Positive, n: nat): (r: seq<nat>)
    requires n <= |positions|
    ensures forall i :: 0 <= i < |r| ==> r[i] < n && Boundary(positions[r[i]], ratio)
  {
    if n == 0 then []
    else BoundaryRows(positions, ratio, n - 1) + if Boundary(positions[n - 1], ratio) then [n - 1] else []
  }

  lemma {:induction false} AllBoundaries(positions: seq<nat>, ratio: Positive, n: nat, i: nat)
    requires i < n <= |positions| && Boundary(positions[i], ratio)
    ensures i in BoundaryRows(positions, ratio, n)
  {
    if i < n - 1 {
      AllBoundaries(positions, ratio, n - 1, i);
    }
  }

  /** The write locations of a batch: one for every row that completes a group, and it is
      the location that later reads of that group use. */
  method WriteLocs(table: seq<seq<int>>, positions: seq<nat>, ratio: Positive, size: Positive)
    returns (rows: seq<nat>, out: seq<int>)
    requires |table| == |positions|
    requires forall i, j :: 0 <= i < |table| && 0 <= j < |table| ==> |table[i]| == |table[j]| > 0
    ensures rows == BoundaryRows(positions, ratio, |positions|) && |out| == |rows|
    ensures forall k :: 0 <= k < |out| ==> out[k] == ReadLoc(table[rows[k]], positions[rows[k]] / ratio, size)
  {
    hide ReadLoc, BoundaryRows;
    rows := FindBoundaries(positions, ratio);
    out := [];
    for k := 0 to |rows|
      invariant |out| == k
      invariant forall j :: 0 <= j < k ==> out[j] == ReadLoc(table[rows[j]], positions[rows[j]] / ratio, size)
    {
      var loc := WriteLoc(table[rows[k]], positions[rows[k]] / ratio, size);
      out := out + [loc];
    }
  }

  method FindBoundaries(positions: seq<nat>, ratio: Positive) returns (rows: seq<nat>)
    ensures rows == BoundaryRows(positions, ratio, |positions|)
  {
    rows := [];
    for i := 0 to |positions|
      invariant rows == BoundaryRows(positions, ratio, i)
    {
      if (positions[i] + 1) % ratio == 0 {
        rows := rows + [i];
      }
    }
  }

  /** Only rows that hold the page are looked up; the others keep the -1. */
  method WriteLoc(row: seq<int>, raw: nat, size: Positive) returns (loc: int)
    requires |row| > 0
    ensures loc == ReadLoc(row, raw, size)
  {
    var logical, offset := raw / size, raw % size;
    loc := -1;
    if logical < |row| {
      var page := row[logical];
      if page >= 0 {
        loc := page * size + offset;
      }
    }
  }

  /** The location the pool derives from a full token location; `None` when the page has
      no component page, which raises. */
  function PoolLoc(mapping: seq<int>, loc: int, page: Positive, ratio: Positive): Option<int> {
    if loc < 0 || loc / page >= |mapping| then Some(-1)
    else if mapping[loc / page] < 0 then None
    else Some(mapping[loc / page] * ComponentPageSize(page, ratio) + loc % page / ratio)
  }

  // ----- arithmetic

  /** Dividing by the ratio and then by the component page is dividing by the page. */
  lemma TwoSteps(p: nat, ratio: Positive, size: Positive)
    ensures ratio * size > 0
    ensures p / (ratio * size) == p / ratio / size
    ensures p % (ratio * size) / ratio == p / ratio % size
  {
    var g, r := p / ratio, p % ratio;
    var q, o := g / size, g % size;
    Division(p, ratio);
    Division(g, size);
    Monotone(ratio, 1, size);
    Monotone(ratio, o + 1, size);
    Spread(ratio, o, 1);
    assert ratio * g == ratio * (size * q) + ratio * o by {
      Spread(ratio, size * q, o);
    }
    assert ratio * (size * q) == (ratio * size) * q;
    Quotient(ratio * size, q, ratio * o + r);
    Quotient(ratio, o, r);
  }

  lemma DividedPage(page: Positive, ratio: Positive)
    requires page % ratio == 0
    ensures ratio * ComponentPageSize(page, ratio) == page
  {
    var c: nat, k: nat := ComponentPageSize(page, ratio), page / ratio;
    Division(page, ratio);
    Monotone(ratio, k + 1, c);
    Monotone(ratio, c, k);
    Monotone(ratio, k, c - 1);
    Spread(ratio, c, -1);
  }

  // ----- the three addresses agree

  /** Position `p` has the same place in its component page by its group number and by
      its full location. */
  predicate Agree(p: nat, page: Positive, ratio: Positive) {
    var size := ComponentPageSize(page, ratio);
    p / page == p / ratio / size && p % page / ratio == p / ratio % size
  }

  /** The places agree at every position that completes a group exactly when the ratio
      divides the page size. */
  lemma AgreeWhenDivided(page: Positive, ratio: Positive)
    ensures (forall p: nat :: Boundary(p, ratio) ==> Agree(p, page, ratio)) <==> page % ratio == 0
  {
    var size := ComponentPageSize(page, ratio);
    if page % ratio == 0 {
      DividedPage(page, ratio);
      forall p: nat ensures Agree(p, page, ratio) {
        TwoSteps(p, ratio, size);
      }
    } else {
      LastGroup(page, ratio);
    }
  }

  /** The last group of a page that is not divided lies partly in the next page. */
  lemma LastGroup(page: Positive, ratio: Positive)
    requires page % ratio != 0
    ensures var p := ratio * ComponentPageSize(page, ratio) - 1; Boundary(p, ratio) && !Agree(p, page, ratio)
  {
    var size: nat := ComponentPageSize(page, ratio);
    var p: nat := ratio * size - 1;
    Quotient(ratio, size, 0);
    Spread(ratio, size, -1);
    Quotient(ratio, size - 1, ratio - 1);
    assert p / ratio == size - 1;
    Quotient(size, 0, size - 1);
    Division(p, page);
    assert p >= page;
  }

  /** A full page table and a component page table of one request that fit the pool's map. */
  ghost predicate Fits(full: seq<int>, row: seq<int>, mapping: seq<int>) {
    && |row| == |full| > 0
    && forall q :: 0 <= q < |full| ==> 0 <= full[q] < |mapping| && row[q] == mapping[full[q]]
  }

  /** The full location of position `p`. */
  function FullLoc(full: seq<int>, p: nat, page: Positive): (loc: int)
    requires p / page < |full| && full[p / page] >= 0
    ensures loc >= 0 && loc / page == full[p / page] && loc % page == p % page
  {
    var f := full[p / page];
    Quotient(page, f, p % page);
    assert page * f == f * page;
    f * page + p % page
  }

  /** The slot that is written when position `p` completes its group is the slot read
      for that group, and the slot the pool derives from the full location of `p`. */
  lemma OneSlot(full: seq<int>, row: seq<int>, mapping: seq<int>, p: nat, page: Positive, ratio: Positive)
    requires page % ratio == 0 && Fits(full, row, mapping) && p / page < |full| && row[p / page] >= 0
    ensures PoolLoc(mapping, FullLoc(full, p, page), page, ratio)
      == Some(ReadLoc(row, p / ratio, ComponentPageSize(page, ratio)))
    ensures ReadLoc(row, p / ratio, ComponentPageSize(page, ratio)) >= 0
  {
    hide ComponentPageSize, FullLoc;
    var size := ComponentPageSize(page, ratio);
    DividedPage(page, ratio);
    TwoSteps(p, ratio, size);
    assert row[p / page] * size >= 0;
  }

  /** Different groups of one request have different slots. */
  lemma GroupsApart(row: seq<int>, size: Positive, g: nat, h: nat)
    requires |row| > 0 && g != h && (forall i, j :: 0 <= i < j < |row| && row[i] >= 0 ==> row[i] != row[j])
    requires ReadLoc(row, g, size) >= 0 && ReadLoc(row, h, size) >= 0
    ensures ReadLoc(row, g, size) != ReadLoc(row, h, size)
  {
    Decoded(row, size, g);
    Decoded(row, size, h);
    Division(g, size);
    Division(h, size);
  }

  lemma Decoded(row: seq<int>, size: Positive, g: nat)
    requires |row| > 0 && ReadLoc(row, g, size) >= 0
    ensures g / size < |row| && row[g / size] >= 0
    ensures ReadLoc(row, g, size) / size == row[g / size] && ReadLoc(row, g, size) % size == g % size
  {
    Quotient(size, row[g / size], g % size);
    assert row[g / size] * size == size * row[g / size];
  }
}
