/** The streaming weight loader: tensors arrive in any order, halves of merged weights
    and parts of packed experts wait in two buffers until their group is complete. */
module WeightLoader {

  type Tensor = int

  datatype Slot = Gate | Up | Down

  /** What the name of a tensor says: a weight of its own, one half of a merged weight,
      or one projection of one expert of a packed weight. */
  datatype Place = Plain(key: string) | Half(key: string, second: bool) | Expert(key: string, idx: nat, slot: Slot)

  /** A tensor of a file; skipped ones have no place. */
  datatype Entry = Skipped | Entry(place: Place, tensor: Tensor)

  datatype Stacked = Waiting(slots: map<Slot, Tensor>) | Pair(gate: Tensor, up: Tensor) | Single(down: Tensor)

  datatype Value = Whole(t: Tensor) | Cat(first: Tensor, second: Tensor) | Packed(experts: seq<Stacked>)

  datatype Named = Named(key: string, value: Value)

  type Parts = map<Place, Tensor>

  // ----- what should come out

  /** The parts that the weight `p` belongs to is made of. */
  function Needs(p: Place, experts: nat): set<Place> {
    match p
    case Plain(_) => {p}
    case Half(k, _) => {Half(k, false), Half(k, true)}
    case Expert(k, _, slot) =>
      if slot == Down then set i: nat | i < experts :: Expert(k, i, Down)
      else (set i: nat | i < experts :: Expert(k, i, Gate)) + (set i: nat | i < experts :: Expert(k, i, Up))
  }

  predicate Done(m: Parts, p: Place, experts: nat) {
    Needs(p, experts) <= m.Keys
  }

  /** The weight: halves and projections in their fixed order, experts by index. */
  function ValueOf(m: Parts, p: Place, experts: nat): Value
    requires Done(m, p, experts)
  {
    match p
    case Plain(_) => Whole(m[p])
    case Half(k, _) =>
      assert Half(k, false) in Needs(p, experts) && Half(k, true) in Needs(p, experts);
      Cat(m[Half(k, false)], m[Half(k, true)])
    case Expert(k, _, slot) =>
      if slot == Down then
        assert forall i: nat :: i < experts ==> Expert(k, i, Down) in Needs(p, experts);
        Packed(seq(experts, i requires 0 <= i < experts => Single(m[Expert(k, i, Down)])))
      else
        assert forall i: nat :: i < experts ==>
          Expert(k, i, Gate) in Needs(p, experts) && Expert(k, i, Up) in Needs(p, experts);
        Packed(seq(experts, i requires 0 <= i < experts => Pair(m[Expert(k, i, Gate)], m[Expert(k, i, Up)])))
  }

  ghost predicate Complete(m: Parts, experts: nat) {
    forall p :: p in m ==> Done(m, p, experts)
  }

  /** `out` names every complete weight of `m` exactly once, and nothing else. */
  ghost predicate IsOutput(m: Parts, experts: nat, out: seq<Named>) {
    && (forall i, j :: 0 <= i < j < |out| ==> out[i].key != out[j].key)
    && (forall p :: p in m && Done(m, p, experts) ==> Named(p.key, ValueOf(m, p, experts)) in out)
    && (forall n :: n in out ==> exists p :: p in m && Done(m, p, experts) && n == Named(p.key, ValueOf(m, p, experts)))
  }

  function Kind(p: Place): nat {
    match p
    case Plain(_) => 0
    case Half(_, _) => 1
    case Expert(_, _, slot) => if slot == Down then 2 else 3
  }

  /** Weights of different kinds have different names, and expert numbers are in range. */
  ghost predicate NamesOk(m: Parts, experts: nat) {
    && (forall p, q :: p in m && q in m && p.key == q.key ==> Kind(p) == Kind(q))
    && (forall p :: p in m && p.Expert? ==> p.idx < experts)
  }

  /** Parts of the same weight agree on it. */
  lemma SameGroup(m: Parts, p: Place, q: Place, experts: nat)
    requires p.key == q.key && Kind(p) == Kind(q)
    ensures Needs(p, experts) == Needs(q, experts)
    ensures Done(m, p, experts) ==> ValueOf(m, p, experts) == ValueOf(m, q, experts)
  {
  }

  function PartsOf(entries: seq<Entry>): Parts {
    if entries == [] then map[]
    else
      var m, e := PartsOf(entries[..|entries| - 1]), entries[|entries| - 1];
      if e.Entry? then m[e.place := e.tensor] else m
  }

  /** Every place occurs at most once. */
  ghost predicate Distinct(entries: seq<Entry>) {
    forall i, j :: 0 <= i < j < |entries| && entries[i].Entry? && entries[j].Entry? ==>
      entries[i].place != entries[j].place
  }

  function Flatten(files: seq<seq<Entry>>): seq<Entry> {
    if files == [] then [] else Flatten(files[..|files| - 1]) + files[|files| - 1]
  }

  lemma {:induction false} PartsMembers(entries: seq<Entry>)
    requires Distinct(entries)
    ensures forall p :: p in PartsOf(entries) <==> exists e :: e in entries && e.Entry? && e.place == p
    ensures forall e :: e in entries && e.Entry? ==>
      e.place in PartsOf(entries) && PartsOf(entries)[e.place] == e.tensor
  {
    if entries != [] {
      var rest, last := entries[..|entries| - 1], entries[|entries| - 1];
      PartsMembers(rest);
      assert entries == rest + [last];
      forall e | e in rest && e.Entry? ensures last.Entry? ==> e.place != last.place {
        var i :| 0 <= i < |rest| && rest[i] == e;
        assert entries[i] == e;
      }
    }
  }

  /** The order of the tensors and their grouping into files do not matter. */
  lemma OrderIrrelevant(a: seq<seq<Entry>>, b: seq<seq<Entry>>)
    requires Distinct(Flatten(a)) && multiset(Flatten(a)) == multiset(Flatten(b)) && Distinct(Flatten(b))
    ensures PartsOf(Flatten(a)) == PartsOf(Flatten(b))
  {
    var s, t := Flatten(a), Flatten(b);
    forall e ensures e in s <==> e in t {
      assert e in multiset(s) <==> e in multiset(t);
    }
    PartsMembers(s);
    PartsMembers(t);
    forall p | p in PartsOf(s) ensures p in PartsOf(t) && PartsOf(t)[p] == PartsOf(s)[p] {
      var e :| e in s && e.Entry? && e.place == p;
      assert e in t;
    }
    forall p | p in PartsOf(t) ensures p in PartsOf(s) {
      var e :| e in t && e.Entry? && e.place == p;
      assert e in s;
    }
  }

  /** Two outputs for the same parts are the same map of names to weights. */
  lemma OneOutput(m: Parts, experts: nat, a: seq<Named>, b: seq<Named>)
    requires NamesOk(m, experts) && IsOutput(m, experts, a) && IsOutput(m, experts, b)
    ensures forall n :: n in a <==> n in b
    ensures multiset(a) == multiset(b)
  {
    forall n ensures multiset(a)[n] == multiset(b)[n] {
      assert n in a <==> n in b;
      AtMostOnce(a, n);
      AtMostOnce(b, n);
    }
  }

  lemma {:induction false} AtMostOnce(a: seq<Named>, n: Named)
    requires forall i, j :: 0 <= i < j < |a| ==> a[i].key != a[j].key
    ensures multiset(a)[n] == if n in a then 1 else 0
  {
    if a != [] {
      var rest, last := a[..|a| - 1], a[|a| - 1];
      AtMostOnce(rest, n);
      assert a == rest + [last];
      if n in rest {
        var i :| 0 <= i < |rest| && rest[i] == n;
        assert a[i].key != last.key;
      }
    }
  }

  // ----- the outputs so far

  lemma NeededBySame(p: Place, q: Place, experts: nat)
    requires p in Needs(q, experts)
    ensures p.key == q.key && Kind(p) == Kind(q) && Needs(p, experts) == Needs(q, experts)
  {
    SameGroup(map[], p, q, experts);
  }

  lemma NeedsItself(p: Place, experts: nat)
    requires p.Expert? ==> p.idx < experts
    ensures p in Needs(p, experts)
  {
  }

  /** A weight that was complete before a new part stays what it was. */
  lemma DoneBefore(m: Parts, p: Place, t: Tensor, q: Place, experts: nat)
    requires p !in m && Done(m, q, experts)
    ensures Done(m[p := t], q, experts) && ValueOf(m[p := t], q, experts) == ValueOf(m, q, experts)
    ensures p !in Needs(q, experts)
  {
    var k := q.key;
    if q.Half? {
      assert Half(k, false) in Needs(q, experts) && Half(k, true) in Needs(q, experts);
    } else if q.Expert? && q.slot == Down {
      assert forall i: nat :: i < experts ==> Expert(k, i, Down) in Needs(q, experts);
    } else if q.Expert? {
      assert forall i: nat :: i < experts ==>
        Expert(k, i, Gate) in Needs(q, experts) && Expert(k, i, Up) in Needs(q, experts);
    }
  }

  /** A new part that completes nothing yields nothing. */
  lemma NoNewOutput(m: Parts, p: Place, t: Tensor, experts: nat, out: seq<Named>)
    requires p !in m && NamesOk(m[p := t], experts) && IsOutput(m, experts, out) && !Done(m[p := t], p, experts)
    ensures IsOutput(m[p := t], experts, out)
  {
    hide Needs, ValueOf;
    var n := m[p := t];
    forall q | q in n && Done(n, q, experts) ensures q in m && Done(m, q, experts) {
      if p in Needs(q, experts) {
        NeededBySame(p, q, experts);
      }
    }
    forall q | q in m && Done(m, q, experts)
      ensures Done(n, q, experts) && ValueOf(n, q, experts) == ValueOf(m, q, experts)
    {
      DoneBefore(m, p, t, q, experts);
    }
  }

  /** A new part that completes a weight yields it, once. */
  lemma NewOutput(m: Parts, p: Place, t: Tensor, experts: nat, out: seq<Named>)
    requires p !in m && NamesOk(m[p := t], experts) && IsOutput(m, experts, out) && Done(m[p := t], p, experts)
    ensures IsOutput(m[p := t], experts, out + [Named(p.key, ValueOf(m[p := t], p, experts))])
  {
    hide Needs, ValueOf, Kind;
    var n := m[p := t];
    var last := Named(p.key, ValueOf(n, p, experts));
    NeedsItself(p, experts);
    forall q | q in m && Done(m, q, experts)
      ensures q.key != p.key && Done(n, q, experts) && ValueOf(n, q, experts) == ValueOf(m, q, experts)
    {
      DoneBefore(m, p, t, q, experts);
      if q.key == p.key {
        SameGroup(m, p, q, experts);
      }
    }
    forall i | 0 <= i < |out| ensures out[i].key != p.key {
      assert out[i] in out;
    }
    forall q | q in n && Done(n, q, experts) ensures Named(q.key, ValueOf(n, q, experts)) in out + [last] {
      if p in Needs(q, experts) {
        NeededBySame(p, q, experts);
        SameGroup(n, q, p, experts);
      } else {
        StillDone(m, p, t, q, experts);
      }
    }
  }

  lemma StillDone(m: Parts, p: Place, t: Tensor, q: Place, experts: nat)
    requires NamesOk(m[p := t], experts) && q in m[p := t] && p !in Needs(q, experts) && Done(m[p := t], q, experts)
    ensures q in m && Done(m, q, experts)
  {
    hide Needs;
    if q == p {
      NeedsItself(p, experts);
    }
  }

  // ----- the buffers

  /** The halves of a merged weight that are there. */
  function Slots(m: Parts, k: string): map<bool, Tensor> {
    map b: bool | Half(k, b) in m :: m[Half(k, b)]
  }

  ghost predicate MergeOk(buf: map<string, map<bool, Tensor>>, m: Parts) {
    && (forall k :: k in buf <==> ((Half(k, false) in m) != (Half(k, true) in m)))
    && (forall k :: k in buf ==> buf[k] == Slots(m, k))
  }

  /** What there is of one expert. */
  function PartOf(m: Parts, k: string, i: nat): Stacked {
    if Expert(k, i, Down) in m then Single(m[Expert(k, i, Down)])
    else if Expert(k, i, Gate) in m && Expert(k, i, Up) in m then Pair(m[Expert(k, i, Gate)], m[Expert(k, i, Up)])
    else Waiting(map s: Slot | s in {Gate, Up} && Expert(k, i, s) in m :: m[Expert(k, i, s)])
  }

  predicate Has(m: Parts, k: string, i: nat) {
    Expert(k, i, Down) in m || Expert(k, i, Gate) in m || Expert(k, i, Up) in m
  }

  function Row(m: Parts, k: string, experts: nat): map<nat, Stacked> {
    map i: nat | i < experts && Has(m, k, i) :: PartOf(m, k, i)
  }

  predicate AllStacked(row: map<nat, Stacked>, experts: nat) {
    forall i: nat :: i < experts ==> i in row && !row[i].Waiting?
  }

  ghost predicate PackOk(buf: map<string, map<nat, Stacked>>, m: Parts, experts: nat) {
    && (forall k :: k in buf <==> Row(m, k, experts) != map[] && !AllStacked(Row(m, k, experts), experts))
    && (forall k :: k in buf ==> buf[k] == Row(m, k, experts))
  }

  function Collect(row: map<nat, Stacked>, experts: nat): (s: seq<Stacked>)
    requires forall i: nat :: i < experts ==> i in row
    ensures |s| == experts
  {
    seq(experts, i requires 0 <= i < experts => row[i])
  }

  lemma RowDone(m: Parts, p: Place, experts: nat)
    requires NamesOk(m, experts) && p in m && p.Expert?
    ensures Done(m, p, experts) <==> AllStacked(Row(m, p.key, experts), experts)
    ensures Done(m, p, experts) ==> ValueOf(m, p, experts) == Packed(Collect(Row(m, p.key, experts), experts))
  {
    var k, row := p.key, Row(m, p.key, experts);
    if p.slot == Down {
      forall i: nat | i < experts ensures Expert(k, i, Down) in m <==> i in row && !row[i].Waiting? {
        assert Expert(k, i, Gate) in m ==> Kind(Expert(k, i, Gate)) == Kind(p);
      }
    } else {
      forall i: nat | i < experts
        ensures Expert(k, i, Gate) in m && Expert(k, i, Up) in m <==> i in row && !row[i].Waiting?
      {
        assert Expert(k, i, Down) in m ==> Kind(Expert(k, i, Down)) == Kind(p);
      }
    }
  }

  lemma RowAfter(m: Parts, p: Place, t: Tensor, experts: nat)
    requires p.Expert? && p.idx < experts
    ensures Row(m[p := t], p.key, experts) == Row(m, p.key, experts)[p.idx := PartOf(m[p := t], p.key, p.idx)]
    ensures forall k :: k != p.key ==> Row(m[p := t], k, experts) == Row(m, k, experts)
  {
    hide Has, PartOf;
    var n := m[p := t];
    forall k | k != p.key ensures Row(n, k, experts) == Row(m, k, experts) {
      forall i: nat ensures Has(n, k, i) == Has(m, k, i) && PartOf(n, k, i) == PartOf(m, k, i) {
        OtherPart(m, p, t, k, i);
      }
    }
    HasPart(n, p);
    forall i: nat | i != p.idx
      ensures Has(n, p.key, i) == Has(m, p.key, i) && PartOf(n, p.key, i) == PartOf(m, p.key, i)
    {
      OtherPart(m, p, t, p.key, i);
    }
  }

  lemma HasPart(m: Parts, p: Place)
    requires p.Expert? && p in m
    ensures Has(m, p.key, p.idx)
  {
    match p.slot
    case Gate => assert p == Expert(p.key, p.idx, Gate);
    case Up => assert p == Expert(p.key, p.idx, Up);
    case Down => assert p == Expert(p.key, p.idx, Down);
  }

  lemma OtherPart(m: Parts, p: Place, t: Tensor, k: string, i: nat)
    requires p.Expert? ==> k != p.key || i != p.idx
    ensures Has(m[p := t], k, i) == Has(m, k, i) && PartOf(m[p := t], k, i) == PartOf(m, k, i)
  {
  }

  function Numbers(n: nat): (s: set<nat>)
    ensures |s| == n && forall i: nat :: i in s <==> i < n
  {
    if n == 0 then {} else Numbers(n - 1) + {n - 1}
  }

  /** A row of all experts has the size that the program compares. */
  lemma StackedSize(row: map<nat, Stacked>, experts: nat)
    requires forall i :: i in row ==> i < experts
    ensures AllStacked(row, experts) ==> |row| == experts
  {
    if AllStacked(row, experts) {
      assert row.Keys == Numbers(experts);
    }
  }

  // ----- what one part does to a buffer

  function Halves(buf: map<string, map<bool, Tensor>>, k: string): map<bool, Tensor> {
    if k in buf then buf[k] else map[]
  }

  lemma SlotsAfter(m: Parts, k: string, b: bool, t: Tensor)
    ensures Slots(m[Half(k, b) := t], k) == Slots(m, k)[b := t]
  {
    var n, c := m[Half(k, b) := t], !b;
    assert Half(k, c) in n <==> Half(k, c) in m;
    assert Slots(n, k).Keys == Slots(m, k).Keys + {b};
  }

  lemma OtherSlots(m: Parts, p: Place, t: Tensor, j: string)
    requires p.key != j
    ensures Slots(m[p := t], j) == Slots(m, j)
  {
  }

  lemma MergeSlots(buf: map<string, map<bool, Tensor>>, m: Parts, k: string, b: bool, t: Tensor)
    requires MergeOk(buf, m) && Half(k, b) !in m
    ensures Halves(buf, k)[b := t] == Slots(m[Half(k, b) := t], k)
    ensures forall j :: j != k ==> Slots(m[Half(k, b) := t], j) == Slots(m, j)
  {
    hide Slots;
    SlotsAfter(m, k, b, t);
    NoSlots(m, k);
    if k !in buf {
      assert Half(k, !b) !in m;
    }
    forall j | j != k ensures Slots(m[Half(k, b) := t], j) == Slots(m, j) {
      OtherSlots(m, Half(k, b), t, j);
    }
  }

  lemma NoSlots(m: Parts, k: string)
    ensures Half(k, false) !in m && Half(k, true) !in m ==> Slots(m, k) == map[]
  {
  }

  lemma SlotsMeans(m: Parts, k: string, b: bool, experts: nat)
    ensures Done(m, Half(k, b), experts) <==> false in Slots(m, k) && true in Slots(m, k)
    ensures Done(m, Half(k, b), experts) ==>
      ValueOf(m, Half(k, b), experts) == Cat(Slots(m, k)[false], Slots(m, k)[true])
  {
    assert Needs(Half(k, b), experts) == {Half(k, false), Half(k, true)};
  }

  lemma MergeStep(buf: map<string, map<bool, Tensor>>, m: Parts, k: string, b: bool, t: Tensor, experts: nat)
    requires MergeOk(buf, m) && Half(k, b) !in m
    ensures var n, slots := m[Half(k, b) := t], Halves(buf, k)[b := t]; var p := Half(k, b);
            && (Done(n, p, experts) <==> false in slots && true in slots)
            && (Done(n, p, experts) ==>
                 ValueOf(n, p, experts) == Cat(slots[false], slots[true]) && MergeOk(buf - {k}, n))
            && (!Done(n, p, experts) ==> MergeOk(buf[k := slots], n))
  {
    hide Needs, ValueOf, Done;
    var n, slots := m[Half(k, b) := t], Halves(buf, k)[b := t];
    MergeSlots(buf, m, k, b, t);
    SlotsMeans(n, k, b, experts);
  }

  function RowIn(buf: map<string, map<nat, Stacked>>, k: string): map<nat, Stacked> {
    if k in buf then buf[k] else map[]
  }

  function SlotsIn(row: map<nat, Stacked>, i: nat): map<Slot, Tensor> {
    if i in row && row[i].Waiting? then row[i].slots else map[]
  }

  /** The expert after one more of its projections. */
  function NextPart(row: map<nat, Stacked>, i: nat, slot: Slot, t: Tensor): Stacked {
    if slot == Down then Single(t)
    else
      var slots := SlotsIn(row, i)[slot := t];
      if Gate in slots && Up in slots then Pair(slots[Gate], slots[Up]) else Waiting(slots)
  }

  /** A part that is new belongs to an expert, and to a weight, that are not complete. */
  lemma NotStacked(m: Parts, p: Place, t: Tensor, experts: nat)
    requires p.Expert? && p !in m && NamesOk(m[p := t], experts)
    ensures !AllStacked(Row(m, p.key, experts), experts)
    ensures p.idx in Row(m, p.key, experts) ==> Row(m, p.key, experts)[p.idx].Waiting?
  {
    var n, k, i := m[p := t], p.key, p.idx;
    assert p in n && i < experts;
    var row := Row(m, k, experts);
    assert AllStacked(row, experts) ==> i in row && !row[i].Waiting?;
    forall s: Slot | Expert(k, i, s) in m ensures Kind(Expert(k, i, s)) == Kind(p) && s != p.slot {
      assert Expert(k, i, s) in n;
    }
  }

  lemma PartAfter(m: Parts, p: Place, t: Tensor, experts: nat)
    requires p.Expert? && p !in m && NamesOk(m[p := t], experts)
    ensures PartOf(m[p := t], p.key, p.idx) == NextPart(Row(m, p.key, experts), p.idx, p.slot, t)
  {
    var n, k, i := m[p := t], p.key, p.idx;
    assert p in n && i < experts;
    forall s: Slot | Expert(k, i, s) in m ensures Kind(Expert(k, i, s)) == Kind(p) && s != p.slot {
      assert Expert(k, i, s) in n;
    }
    var slots := SlotsIn(Row(m, k, experts), i)[p.slot := t];
    if p.slot != Down {
      assert slots == map s: Slot | s in {Gate, Up} && Expert(k, i, s) in n :: n[Expert(k, i, s)];
    }
  }

  lemma PackStep(buf: map<string, map<nat, Stacked>>, m: Parts, p: Place, t: Tensor, experts: nat)
    requires PackOk(buf, m, experts) && p.Expert? && p !in m && NamesOk(m[p := t], experts)
    ensures RowIn(buf, p.key) == Row(m, p.key, experts)
    ensures var n := m[p := t]; var row := RowIn(buf, p.key)[p.idx := NextPart(RowIn(buf, p.key), p.idx, p.slot, t)];
            && row == Row(n, p.key, experts) && (AllStacked(row, experts) <==> Done(n, p, experts))
            && (AllStacked(row, experts) ==>
                 PackOk(buf - {p.key}, n, experts) && ValueOf(n, p, experts) == Packed(Collect(row, experts)))
            && (!AllStacked(row, experts) ==> PackOk(buf[p.key := row], n, experts))
  {
    hide Row, PartOf, NextPart, AllStacked, ValueOf, Needs;
    NotStacked(m, p, t, experts);
    PartAfter(m, p, t, experts);
    RowAfter(m, p, t, experts);
    RowDone(m[p := t], p, experts);
  }

  lemma SameRows(m: Parts, p: Place, t: Tensor, experts: nat)
    requires !p.Expert?
    ensures forall k :: Row(m[p := t], k, experts) == Row(m, k, experts)
  {
    hide Has, PartOf;
    var n := m[p := t];
    forall k ensures Row(n, k, experts) == Row(m, k, experts) {
      forall i: nat ensures Has(n, k, i) == Has(m, k, i) && PartOf(n, k, i) == PartOf(m, k, i) {
        OtherPart(m, p, t, k, i);
      }
    }
  }

  lemma OtherMerges(buf: map<string, map<bool, Tensor>>, m: Parts, p: Place, t: Tensor)
    requires MergeOk(buf, m) && !p.Half?
    ensures MergeOk(buf, m[p := t])
  {
    forall k ensures Slots(m[p := t], k) == Slots(m, k) {
    }
  }

  lemma OtherPacks(buf: map<string, map<nat, Stacked>>, m: Parts, p: Place, t: Tensor, experts: nat)
    requires PackOk(buf, m, experts) && !p.Expert?
    ensures PackOk(buf, m[p := t], experts)
  {
    hide Row, AllStacked;
    SameRows(m, p, t, experts);
  }

  /** Nothing is left in the buffers exactly when every weight is complete. */
  lemma LeftInBuffers(merge: map<string, map<bool, Tensor>>, pack: map<string, map<nat, Stacked>>, m: Parts,
                      experts: nat)
    requires NamesOk(m, experts) && MergeOk(merge, m) && PackOk(pack, m, experts)
    ensures merge == map[] && pack == map[] <==> Complete(m, experts)
  {
    hide AllStacked, Row, PartOf;
    if Complete(m, experts) {
      forall k ensures k !in merge {
        assert forall b :: Half(k, b) in m ==>
          Done(m, Half(k, b), experts) && Half(k, !b) in Needs(Half(k, b), experts);
      }
      forall k ensures k !in pack {
        RowNotEmpty(m, k, experts);
      }
    } else {
      var p :| p in m && !Done(m, p, experts);
      NotDone(m, p, experts);
      if p.Expert? {
        RowDone(m, p, experts);
        RowNotEmpty(m, p.key, experts);
      } else if p.Half? {
        assert p == Half(p.key, p.second);
        assert p.key in merge;
      }
    }
  }

  lemma RowNotEmpty(m: Parts, k: string, experts: nat)
    requires NamesOk(m, experts)
    ensures Row(m, k, experts) != map[] <==> exists i: nat, s: Slot :: Expert(k, i, s) in m
    ensures Complete(m, experts) && Row(m, k, experts) != map[] ==> AllStacked(Row(m, k, experts), experts)
  {
    hide AllStacked, PartOf;
    var row := Row(m, k, experts);
    if row != map[] {
      assert row.Keys != {};
      var i :| i in row;
      assert Has(m, k, i);
      var s :| Expert(k, i, s) in m;
      RowDone(m, Expert(k, i, s), experts);
    }
    if i: nat, s: Slot :| Expert(k, i, s) in m {
      HasPart(m, Expert(k, i, s));
      assert i in row;
    }
  }

  lemma NotDone(m: Parts, p: Place, experts: nat)
    requires p in m && !Done(m, p, experts)
    ensures !p.Plain? && (p.Half? ==> Half(p.key, !p.second) !in m)
  {
    if p.Half? {
      assert Needs(p, experts) == {Half(p.key, p.second), Half(p.key, !p.second)};
    }
  }

  // ----- the loader

  class Loader {
    const experts: nat
    var mergeBuf: map<string, map<bool, Tensor>>
    var expertBuf: map<string, map<nat, Stacked>>
    var out: seq<Named>

    /** The loader after the parts `m`, in whatever order they came. */
    ghost predicate Loaded(m: Parts)
      reads this
    {
      NamesOk(m, experts) && MergeOk(mergeBuf, m) && PackOk(expertBuf, m, experts) && IsOutput(m, experts, out)
    }

    constructor (experts: nat)
      ensures Loaded(map[]) && this.experts == experts && out == []
    {
      this.experts := experts;
      mergeBuf, expertBuf, out := map[], map[], [];
    }

    method AddPlain(key: string, t: Tensor, ghost m: Parts)
      requires Loaded(m) && Plain(key) !in m && NamesOk(m[Plain(key) := t], experts)
      modifies this`out
      ensures Loaded(m[Plain(key) := t])
    {
      hide IsOutput, NamesOk, MergeOk, PackOk;
      NewOutput(m, Plain(key), t, experts, out);
      OtherMerges(mergeBuf, m, Plain(key), t);
      OtherPacks(expertBuf, m, Plain(key), t, experts);
      out := out + [Named(key, Whole(t))];
    }

    /** One half of a merged weight; the second one to come emits it. */
    method AddHalf(key: string, second: bool, t: Tensor, ghost m: Parts)
      requires Loaded(m) && Half(key, second) !in m && NamesOk(m[Half(key, second) := t], experts)
      modifies this`mergeBuf, this`out
      ensures Loaded(m[Half(key, second) := t])
    {
      hide IsOutput, NamesOk, MergeOk, PackOk, Needs, ValueOf;
      MergeStep(mergeBuf, m, key, second, t, experts);
      OtherPacks(expertBuf, m, Half(key, second), t, experts);
      var slots := Halves(mergeBuf, key)[second := t];
      ghost var buf := mergeBuf;
      mergeBuf := mergeBuf[key := slots];
      if !(false in slots && true in slots) {
        NoNewOutput(m, Half(key, second), t, experts, out);
        return;
      }
      NewOutput(m, Half(key, second), t, experts, out);
      mergeBuf := mergeBuf - {key};
      assert mergeBuf == buf - {key};
      out := out + [Named(key, Cat(slots[false], slots[true]))];
    }

    /** One projection of one expert.  The program's check that the expert is not stacked
        yet cannot fail. */
    method AddExpert(key: string, idx: nat, slot: Slot, t: Tensor, ghost m: Parts) returns (raised: bool)
      requires Loaded(m) && Expert(key, idx, slot) !in m && NamesOk(m[Expert(key, idx, slot) := t], experts)
      modifies this`expertBuf, this`out
      ensures !raised && Loaded(m[Expert(key, idx, slot) := t])
    {
      hide IsOutput, NamesOk, MergeOk, PackOk, Needs, ValueOf, Row, PartOf, AllStacked;
      ghost var p, buf := Expert(key, idx, slot), expertBuf;
      PackStep(expertBuf, m, p, t, experts);
      OtherMerges(mergeBuf, m, p, t);
      NotStacked(m, p, t, experts);
      var row := RowIn(expertBuf, key);
      if slot != Down {
        if idx in row && !row[idx].Waiting? {
          return true;
        }
        var slots := SlotsIn(row, idx)[slot := t];
        expertBuf := expertBuf[key := row[idx := Waiting(slots)]];
        if !(Gate in slots && Up in slots) {
          PartAfter(m, p, t, experts);
          HalfExpert(m[p := t], p, experts);
          NoNewOutput(m, p, t, experts, out);
          return false;
        }
        expertBuf := expertBuf[key := row[idx := Pair(slots[Gate], slots[Up])]];
      } else {
        expertBuf := expertBuf[key := row[idx := Single(t)]];
      }
      ghost var next := row[idx := NextPart(row, idx, slot, t)];
      assert expertBuf == buf[key := next];
      RowRange(m[p := t], key, experts);
      var done, packed := MaybeEmitExpert(key);
      if done {
        NewOutput(m, p, t, experts, out);
        expertBuf := expertBuf - {key};
        assert expertBuf == buf - {key};
        out := out + [Named(key, Packed(packed))];
      } else {
        NoNewOutput(m, p, t, experts, out);
      }
      raised := false;
    }

    /** Whether all experts of a packed weight are there, and their stack. */
    method MaybeEmitExpert(key: string) returns (done: bool, packed: seq<Stacked>)
      requires key in expertBuf && forall i :: i in expertBuf[key] ==> i < experts
      ensures done <==> AllStacked(expertBuf[key], experts)
      ensures done ==> packed == Collect(expertBuf[key], experts)
    {
      var row := expertBuf[key];
      packed := [];
      StackedSize(row, experts);
      if |row| != experts {
        return false, [];
      }
      for i := 0 to experts
        invariant |packed| == i && forall j: nat :: j < i ==> j in row && !row[j].Waiting? && packed[j] == row[j]
      {
        if i !in row || row[i].Waiting? {
          return false, [];
        }
        packed := packed + [row[i]];
      }
      done := true;
    }

    method Add(e: Entry, ghost m: Parts) returns (raised: bool)
      requires Loaded(m) && (e.Entry? ==> e.place !in m && NamesOk(m[e.place := e.tensor], experts))
      modifies this`mergeBuf, this`expertBuf, this`out
      ensures !raised && Loaded(if e.Entry? then m[e.place := e.tensor] else m)
    {
      hide IsOutput, NamesOk, MergeOk, PackOk;
      raised := false;
      if e.Skipped? {
        return;
      }
      match e.place
      case Plain(k) => AddPlain(k, e.tensor, m);
      case Half(k, b) => AddHalf(k, b, e.tensor, m);
      case Expert(k, i, s) => raised := AddExpert(k, i, s, e.tensor, m);
    }

    /** Loads all files.  What is yielded depends only on which tensors there are: every
        complete weight once, whatever the order, and the final check passes exactly
        when all weights are complete. */
    method Load(files: seq<seq<Entry>>) returns (ok: bool)
      requires mergeBuf == map[] && expertBuf == map[] && out == []
      requires Distinct(Flatten(files)) && NamesOk(PartsOf(Flatten(files)), experts)
      modifies this`mergeBuf, this`expertBuf, this`out
      ensures IsOutput(PartsOf(Flatten(files)), experts, out)
      ensures ok <==> Complete(PartsOf(Flatten(files)), experts)
    {
      hide IsOutput, NamesOk, MergeOk, PackOk, Distinct, PartsOf, Flatten, Complete;
      ghost var all, seen := Flatten(files), [];
      NothingLoaded(experts);
      for f := 0 to |files|
        invariant seen == Flatten(files[..f]) && seen <= all && Loaded(PartsOf(seen))
      {
        var file := files[f];
        NextFile(files, f);
        ghost var before := seen;
        for i := 0 to |file|
          invariant seen == before + file[..i] && before + file <= all && Loaded(PartsOf(seen))
        {
          assert file[..i + 1] == file[..i] + [file[i]];
          NextEntry(all, seen, file[i], experts);
          var raised := Add(file[i], PartsOf(seen));
          assert !raised;
          seen := seen + [file[i]];
        }
        assert file[..|file|] == file;
      }
      assert files[..|files|] == files;
      LeftInBuffers(mergeBuf, expertBuf, PartsOf(all), experts);
      ok := mergeBuf == map[] && expertBuf == map[];
    }
  }

  lemma RowRange(m: Parts, k: string, experts: nat)
    ensures forall i :: i in Row(m, k, experts) ==> i < experts
  {
  }

  lemma HalfExpert(m: Parts, p: Place, experts: nat)
    requires NamesOk(m, experts) && p in m && p.Expert? && PartOf(m, p.key, p.idx).Waiting?
    ensures !Done(m, p, experts) && !AllStacked(Row(m, p.key, experts), experts)
  {
    RowDone(m, p, experts);
  }

  lemma NothingLoaded(experts: nat)
    ensures PartsOf([]) == map[] && NamesOk(map[], experts) && MergeOk(map[], map[]) && PackOk(map[], map[], experts)
    ensures IsOutput(map[], experts, []) && Flatten([]) == []
  {
  }

  lemma NextFile(files: seq<seq<Entry>>, f: nat)
    requires f < |files|
    ensures Flatten(files[..f + 1]) == Flatten(files[..f]) + files[f]
    ensures Flatten(files[..f]) + files[f] <= Flatten(files)
  {
    assert files[..f + 1][..f] == files[..f];
    FlattenPrefix(files, f + 1);
  }

  lemma {:induction false} FlattenPrefix(files: seq<seq<Entry>>, f: nat)
    requires f <= |files|
    ensures Flatten(files[..f]) <= Flatten(files)
    decreases |files|
  {
    if f == |files| {
      assert files[..f] == files;
    } else {
      var rest := files[..|files| - 1];
      FlattenPrefix(rest, f);
      assert rest[..f] == files[..f];
    }
  }

  lemma NextEntry(all: seq<Entry>, seen: seq<Entry>, e: Entry, experts: nat)
    requires Distinct(all) && NamesOk(PartsOf(all), experts) && seen + [e] <= all
    ensures PartsOf(seen + [e]) == if e.Entry? then PartsOf(seen)[e.place := e.tensor] else PartsOf(seen)
    ensures e.Entry? ==> e.place !in PartsOf(seen)
    ensures NamesOk(PartsOf(seen + [e]), experts)
  {
    hide NamesOk;
    var more, n := seen + [e], |seen|;
    assert more[..n] == seen && all[n] == e && forall i :: 0 <= i < n ==> all[i] == seen[i];
    assert Distinct(seen) && Distinct(more);
    NewPlace(all, seen, e);
    SubParts(all, more);
    FewerNames(PartsOf(all), PartsOf(more), experts);
  }

  lemma NewPlace(all: seq<Entry>, seen: seq<Entry>, e: Entry)
    requires Distinct(all) && Distinct(seen) && seen + [e] <= all
    ensures e.Entry? ==> e.place !in PartsOf(seen)
  {
    PartsMembers(seen);
    assert all[|seen|] == e && forall i :: 0 <= i < |seen| ==> all[i] == seen[i];
  }

  lemma SubParts(all: seq<Entry>, more: seq<Entry>)
    requires Distinct(all) && Distinct(more) && more <= all
    ensures PartsOf(more).Keys <= PartsOf(all).Keys
  {
    PartsMembers(more);
    PartsMembers(all);
    forall e | e in more ensures e in all {
    }
  }

  lemma FewerNames(m: Parts, n: Parts, experts: nat)
    requires NamesOk(m, experts) && n.Keys <= m.Keys
    ensures NamesOk(n, experts)
  {
    assert forall p :: p in n ==> p in m;
  }
}
