/** The packed page layout of the FP8 indexer cache: in every page first the values of all
    its slots and then their four-byte scales. */
module PackedCache {
  import opened Arithmetic
  import opened Options

  type Byte = b: int | 0 <= b < 256

  const SCALE := 4

  /** One slot. */
  datatype Row = Row(values: seq<Byte>, scales: seq<Byte>)

  predicate RowOk(r: Row, dim: nat) {
    |r.values| == dim && |r.scales| == SCALE
  }

  datatype Shape = Shape(pages: nat, page: Positive, dim: Positive)

  function PageBytes(s: Shape): nat {
    s.page * (s.dim + SCALE)
  }

  function Bytes(s: Shape): nat {
    s.pages * PageBytes(s)
  }

  function SlotCount(s: Shape): nat {
    s.pages * s.page
  }

  // ----- addresses

  /** A byte of slot `o` of a page: values first, then scales. */
  function InPage(s: Shape, o: nat, scale: bool, j: nat): nat {
    if scale then s.page * s.dim + (o * SCALE + j) else o * s.dim + j
  }

  predicate ByteOf(s: Shape, o: nat, scale: bool, j: nat) {
    o < s.page && j < if scale then SCALE else s.dim
  }

  lemma InPageBounds(s: Shape, o: nat, scale: bool, j: nat)
    requires ByteOf(s, o, scale, j)
    ensures InPage(s, o, scale, j) < PageBytes(s) && (InPage(s, o, scale, j) < s.page * s.dim <==> !scale)
  {
    assert PageBytes(s) == s.page * s.dim + s.page * SCALE;
    DigitsBelow(if scale then SCALE else s.dim, o, j, s.page);
  }

  lemma InPageApart(s: Shape, o: nat, scale: bool, j: nat, o': nat, scale': bool, j': nat)
    requires ByteOf(s, o, scale, j) && ByteOf(s, o', scale', j') && InPage(s, o, scale, j) == InPage(s, o', scale', j')
    ensures o == o' && scale == scale' && j == j'
  {
    InPageBounds(s, o, scale, j);
    InPageBounds(s, o', scale', j');
    Digits(if scale then SCALE else s.dim, o, j, o', j');
  }

  function Address(s: Shape, slot: nat, scale: bool, j: nat): nat {
    slot / s.page * PageBytes(s) + InPage(s, slot % s.page, scale, j)
  }

  predicate ByteOfSlot(s: Shape, slot: nat, scale: bool, j: nat) {
    slot < SlotCount(s) && j < if scale then SCALE else s.dim
  }

  lemma AddressInside(s: Shape, slot: nat, scale: bool, j: nat)
    requires ByteOfSlot(s, slot, scale, j)
    ensures Address(s, slot, scale, j) < Bytes(s)
  {
    hide PageBytes, InPage;
    Division(slot, s.page);
    Monotone(s.page, s.pages, slot / s.page);
    assert s.page * (slot / s.page) == slot / s.page * s.page;
    InPageBounds(s, slot % s.page, scale, j);
    DigitsBelow(PageBytes(s), slot / s.page, InPage(s, slot % s.page, scale, j), s.pages);
  }

  /** In a page the values of all slots follow each other, then the scales of all slots, and
      then comes the next page. */
  lemma Contiguous(s: Shape, slot: nat)
    requires slot < SlotCount(s)
    ensures slot % s.page + 1 < s.page ==>
      && Address(s, slot + 1, false, 0) == Address(s, slot, false, 0) + s.dim
      && Address(s, slot + 1, true, 0) == Address(s, slot, true, 0) + SCALE
    ensures slot % s.page + 1 == s.page ==>
      && Address(s, slot / s.page * s.page, true, 0) == Address(s, slot, false, 0) + s.dim
      && Address(s, slot + 1, false, 0) == Address(s, slot, true, 0) + SCALE
    ensures forall scale: bool, j: nat :: Address(s, slot, scale, j) == Address(s, slot, scale, 0) + j
  {
    var k, o := slot / s.page, slot % s.page;
    Division(slot, s.page);
    assert s.page * k == k * s.page;
    if o + 1 < s.page {
      Quotient(s.page, k, o + 1);
      assert (o + 1) * s.dim == o * s.dim + s.dim;
    } else {
      Quotient(s.page, k + 1, 0);
      Quotient(s.page, k, 0);
      assert s.page * (k + 1) == s.page * k + s.page;
      assert (k + 1) * PageBytes(s) == k * PageBytes(s) + PageBytes(s);
      assert (o + 1) * s.dim == o * s.dim + s.dim;
      assert (o + 1) * SCALE == o * SCALE + SCALE;
      assert PageBytes(s) == s.page * s.dim + s.page * SCALE;
    }
  }

  /** No two bytes share an address. */
  lemma NoOverlap(s: Shape, slot: nat, scale: bool, j: nat, slot': nat, scale': bool, j': nat)
    requires ByteOfSlot(s, slot, scale, j) && ByteOfSlot(s, slot', scale', j')
    ensures Address(s, slot, scale, j) == Address(s, slot', scale', j') <==> slot == slot' && scale == scale' && j == j'
  {
    hide PageBytes, InPage;
    Division(slot, s.page);
    Division(slot', s.page);
    InPageBounds(s, slot % s.page, scale, j);
    InPageBounds(s, slot' % s.page, scale', j');
    if Address(s, slot, scale, j) == Address(s, slot', scale', j') {
      Digits(PageBytes(s), slot / s.page, InPage(s, slot % s.page, scale, j), slot' / s.page,
        InPage(s, slot' % s.page, scale', j'));
      InPageApart(s, slot % s.page, scale, j, slot' % s.page, scale', j');
    }
  }

  // ----- reading

  /** The slot as `dequantize` takes it out of the packed pages. */
  function ReadRow(s: Shape, packed: seq<Byte>, slot: nat): (r: Row)
    requires |packed| == Bytes(s) && slot < SlotCount(s)
    ensures RowOk(r, s.dim)
    ensures forall j :: 0 <= j < s.dim ==>
      Address(s, slot, false, j) < |packed| && r.values[j] == packed[Address(s, slot, false, j)]
    ensures forall j :: 0 <= j < SCALE ==>
      Address(s, slot, true, j) < |packed| && r.scales[j] == packed[Address(s, slot, true, j)]
  {
    assert forall j: nat, b :: ByteOfSlot(s, slot, b, j) ==> Address(s, slot, b, j) < |packed| by {
      forall j: nat, b | ByteOfSlot(s, slot, b, j) ensures Address(s, slot, b, j) < |packed| {
        AddressInside(s, slot, b, j);
      }
    }
    assert forall j: nat :: j < s.dim ==> ByteOfSlot(s, slot, false, j);
    assert forall j: nat :: j < SCALE ==> ByteOfSlot(s, slot, true, j);
    Row(seq(s.dim, j requires 0 <= j < s.dim => packed[Address(s, slot, false, j)]),
        seq(SCALE, j requires 0 <= j < SCALE => packed[Address(s, slot, true, j)]))
  }

  function Unpack(s: Shape, packed: seq<Byte>, slots: nat): (rows: seq<Row>)
    requires |packed| == Bytes(s) && slots <= SlotCount(s)
    ensures |rows| == slots && forall i :: 0 <= i < slots ==> rows[i] == ReadRow(s, packed, i)
  {
    seq(slots, i requires 0 <= i < slots => ReadRow(s, packed, i))
  }

  // ----- writing

  /** Writes one slot; all others keep their contents. */
  method WriteRow(s: Shape, packed: array<Byte>, slot: nat, r: Row)
    requires packed.Length == Bytes(s) && slot < SlotCount(s) && RowOk(r, s.dim)
    modifies packed
    ensures ReadRow(s, packed[..], slot) == r
    ensures forall t: nat :: t < SlotCount(s) && t != slot ==>
      ReadRow(s, packed[..], t) == ReadRow(s, old(packed[..]), t)
  {
    hide Address, Bytes, SlotCount, ReadRow;
    ghost var before := packed[..];
    WriteBytes(s, packed, slot, false, r.values);
    ghost var middle := packed[..];
    WriteBytes(s, packed, slot, true, r.scales);
    Written(s, before, middle, packed[..], slot, r);
  }

  /** One part of a slot was written and nothing else. */
  ghost predicate Wrote(s: Shape, before: seq<Byte>, after: seq<Byte>, slot: nat, scale: bool, part: seq<Byte>) {
    && |before| == |after| == Bytes(s) && slot < SlotCount(s)
    && (forall j: nat :: j < |part| ==>
         Address(s, slot, scale, j) < |after| && after[Address(s, slot, scale, j)] == part[j])
    && (forall t: nat, b, j: nat :: ByteOfSlot(s, t, b, j) && (t != slot || b != scale) ==>
          Address(s, t, b, j) < |after| && after[Address(s, t, b, j)] == before[Address(s, t, b, j)])
  }

  method WriteBytes(s: Shape, packed: array<Byte>, slot: nat, scale: bool, part: seq<Byte>)
    requires packed.Length == Bytes(s) && slot < SlotCount(s) && |part| == if scale then SCALE else s.dim
    modifies packed
    ensures Wrote(s, old(packed[..]), packed[..], slot, scale, part)
  {
    hide Address, Bytes, SlotCount;
    forall t: nat, b, j: nat | ByteOfSlot(s, t, b, j) ensures Address(s, t, b, j) < packed.Length {
      AddressInside(s, t, b, j);
    }
    for i := 0 to |part|
      invariant forall j: nat :: j < i ==>
        Address(s, slot, scale, j) < packed.Length && packed[Address(s, slot, scale, j)] == part[j]
      invariant forall t: nat, b, j: nat :: ByteOfSlot(s, t, b, j) && (t != slot || b != scale) ==>
                  Address(s, t, b, j) < packed.Length
                    && packed[Address(s, t, b, j)] == old(packed[..])[Address(s, t, b, j)]
    {
      AddressInside(s, slot, scale, i);
      forall t: nat, b, j: nat | ByteOfSlot(s, t, b, j)
        ensures Address(s, t, b, j) == Address(s, slot, scale, i) <==> t == slot && b == scale && j == i
      {
        NoOverlap(s, t, b, j, slot, scale, i);
      }
      assert forall j: nat :: j < i ==> ByteOfSlot(s, slot, scale, j);
      packed[Address(s, slot, scale, i)] := part[i];
    }
  }

  lemma Written(s: Shape, before: seq<Byte>, middle: seq<Byte>, after: seq<Byte>, slot: nat, r: Row)
    requires RowOk(r, s.dim) && Wrote(s, before, middle, slot, false, r.values)
    requires Wrote(s, middle, after, slot, true, r.scales)
    ensures ReadRow(s, after, slot) == r
    ensures forall t: nat :: t < SlotCount(s) && t != slot ==> ReadRow(s, after, t) == ReadRow(s, before, t)
  {
    hide Address, Bytes, SlotCount;
    var x := ReadRow(s, after, slot);
    assert x.scales == r.scales;
    forall j: nat | j < s.dim ensures x.values[j] == r.values[j] {
      assert ByteOfSlot(s, slot, false, j);
    }
    assert x.values == r.values;
    forall t: nat | t < SlotCount(s) && t != slot ensures ReadRow(s, after, t) == ReadRow(s, before, t) {
      OtherSlot(s, before, middle, after, slot, t, r);
    }
  }

  lemma OtherSlot(s: Shape, before: seq<Byte>, middle: seq<Byte>, after: seq<Byte>, slot: nat, t: nat, r: Row)
    requires Wrote(s, before, middle, slot, false, r.values) && Wrote(s, middle, after, slot, true, r.scales)
    requires t < SlotCount(s) && t != slot
    ensures ReadRow(s, after, t) == ReadRow(s, before, t)
  {
    hide Address, Bytes, SlotCount;
    var x, y := ReadRow(s, after, t), ReadRow(s, before, t);
    forall j: nat | j < s.dim ensures x.values[j] == y.values[j] {
      assert ByteOfSlot(s, t, false, j);
    }
    forall j: nat | j < SCALE ensures x.scales[j] == y.scales[j] {
      assert ByteOfSlot(s, t, true, j);
    }
    assert x.values == y.values && x.scales == y.scales;
  }

  /** The row that a slot has after the first `n` stores; `None` if none was to it. */
  function Stored(rows: seq<Row>, locs: seq<int>, slot: nat, n: nat): Option<Row>
    requires n <= |rows| == |locs|
  {
    if n == 0 then None
    else if locs[n - 1] == slot then Some(rows[n - 1])
    else Stored(rows, locs, slot, n - 1)
  }

  /** Stores rows at locations; negative ones are masked.  It raises when there are not as
      many locations as rows.  Afterwards every slot holds what was stored there, and the
      other slots what they held before. */
  method ScatterStore(s: Shape, packed: array<Byte>, rows: seq<Row>, locs: seq<int>) returns (raised: bool)
    requires packed.Length == Bytes(s) && forall i :: 0 <= i < |rows| ==> RowOk(rows[i], s.dim)
    requires forall i :: 0 <= i < |locs| ==> locs[i] < SlotCount(s)
    modifies packed
    ensures raised <==> |rows| != |locs|
    ensures raised ==> packed[..] == old(packed[..])
    ensures !raised ==> forall t: nat :: t < SlotCount(s) ==>
              ReadRow(s, packed[..], t)
                == match Stored(rows, locs, t, |rows|) case Some(r) => r case None => ReadRow(s, old(packed[..]), t)
  {
    hide Bytes, SlotCount, ReadRow;
    if |rows| != |locs| {
      return true;
    }
    for i := 0 to |rows|
      invariant forall t: nat :: t < SlotCount(s) ==>
                  ReadRow(s, packed[..], t)
                    == match Stored(rows, locs, t, i) case Some(r) => r case None => ReadRow(s, old(packed[..]), t)
    {
      if locs[i] >= 0 {
        WriteRow(s, packed, locs[i], rows[i]);
      }
    }
    raised := false;
  }

  datatype Outcome = Raised | Packed(pages: nat, bytes: array<Byte>)

  function ZeroRow(dim: nat): Row {
    Row(seq(dim, _ => 0), seq(SCALE, _ => 0))
  }

  /** Packs rows into whole pages, the last one filled up with zeros.  Unpacking gives the
      rows back. */
  method Pack(rows: seq<Row>, page: int, dim: Positive) returns (o: Outcome)
    requires forall i :: 0 <= i < |rows| ==> RowOk(rows[i], dim)
    ensures o.Raised? <==> page <= 0
    ensures o.Packed? ==>
              var s := Shape(o.pages, page, dim);
              && fresh(o.bytes) && o.bytes.Length == Bytes(s) && |rows| <= SlotCount(s) < |rows| + page
              && Unpack(s, o.bytes[..], |rows|) == rows
              && forall t: nat :: |rows| <= t < SlotCount(s) ==> ReadRow(s, o.bytes[..], t) == ZeroRow(dim)
  {
    hide ReadRow, Address;
    if page <= 0 {
      return Raised;
    }
    var pages := (|rows| + page - 1) / page;
    PagesFit(|rows|, page);
    var s := Shape(pages, page, dim);
    var packed := new Byte[Bytes(s)](_ => 0);
    ZerosEverywhere(s, packed[..]);
    for i := 0 to |rows|
      invariant forall t: nat :: t < i ==> ReadRow(s, packed[..], t) == rows[t]
      invariant forall t: nat :: i <= t < SlotCount(s) ==> ReadRow(s, packed[..], t) == ZeroRow(dim)
    {
      WriteRow(s, packed, i, rows[i]);
    }
    o := Packed(pages, packed);
  }

  lemma PagesFit(n: nat, page: Positive)
    ensures n <= (n + page - 1) / page * page < n + page
  {
    Division(n + page - 1, page);
    var k := (n + page - 1) / page;
    assert k * page == page * k;
  }

  lemma ZerosEverywhere(s: Shape, packed: seq<Byte>)
    requires |packed| == Bytes(s) && forall i :: 0 <= i < |packed| ==> packed[i] == 0
    ensures forall t: nat :: t < SlotCount(s) ==> ReadRow(s, packed, t) == ZeroRow(s.dim)
  {
    hide Bytes, SlotCount, Address;
    forall t: nat | t < SlotCount(s) ensures ReadRow(s, packed, t) == ZeroRow(s.dim) {
      var r := ReadRow(s, packed, t);
      assert r.values == ZeroRow(s.dim).values && r.scales == ZeroRow(s.dim).scales;
    }
  }
}
