/** What the scheduler keeps about every request, as predicates on values, and the steps
    that keep it. */
module SchedulerSteps {
  import opened Bags
  import opened Options
  import opened Reasoning
  import opened RequestLife

  /** A request generation.  `whole` says that its last prompt part has been issued;
      `committed` are the tokens on the host, `sampled` those on the device. */
  datatype Req = Req(uid: int, prompt: nat, output: nat, start: ReasoningState, life: Lifecycle, slot: int,
                     ignoreEos: bool, whole: bool, cached: nat, device: nat, committed: seq<int>, sampled: seq<int>)

  /** Where a request is listed. */
  datatype Marks = Marks(pending: bool, running: bool, owner: bool, live: bool)

  predicate CanDecode(r: Req) {
    r.whole && r.device < r.prompt + r.output
  }

  /** A request whose prompt has not been issued completely. */
  predicate Waits(r: Req) {
    r.life.state == Active && !r.whole
  }

  predicate Holds(r: Req) {
    r.slot >= 0 && r.life.state != Retired
  }

  ghost predicate LifeOk(r: Req, g: int, flight: seq<Ref>) {
    && r.life.outstanding == EpochsOf(flight, g)
    && (forall e :: e in r.life.outstanding ==> e < r.life.nextEpoch)
    && (r.life.released <==> r.life.state == Retired)
    && (r.life.state == Retired ==> r.life.outstanding == {})
    && (r.life.state == TerminalPending ==> r.life.outstanding != {})
    && r.slot >= -1 && (r.slot == -1 <==> r.life.nextEpoch == 0)
    && (r.slot == -1 ==> r.life.state == Active && !r.whole)
  }

  ghost predicate MarksOk(r: Req, m: Marks) {
    && m.pending == (r.life.state == Active && !r.whole)
    && m.running == (r.life.state == Active && CanDecode(r))
    && m.owner == (r.life.state == TerminalPending)
    && m.live == Holds(r)
  }

  /** Lengths and tokens.  While a request is active the host lags the device by the
      samples in flight, these are written at the last positions of the device, and
      the device never passes the admitted length. */
  ghost predicate LengthsOk(r: Req, flying: seq<int>, at: seq<nat>) {
    && r.prompt >= 1 && r.output >= 1 && r.committed <= r.sampled
    && (r.whole ==> r.cached + 1 == r.device <= r.prompt + r.output && r.prompt + |r.committed| <= r.prompt + r.output)
    && (r.whole && r.life.state == Active ==> r.sampled == r.committed + flying && r.prompt + |r.sampled| == r.device)
    && (r.whole && r.life.state == Active ==> forall i :: 0 <= i < |at| ==> at[i] + |at| == r.device + i)
    && (r.whole && r.life.state != Active ==> r.cached <= r.prompt + |r.committed|)
    && |at| == |flying| && (!r.whole ==> r.sampled == [] && flying == [])
    && (!r.whole && r.slot >= 0 ==> r.cached < r.prompt && r.device == r.cached + 1)
    && (r.slot < 0 ==> r.cached == 0)
  }

  /** A request is active as long as it has tokens left and has not met the end of sequence
      that it respects. */
  ghost predicate EndOk(r: Req, eos: int) {
    r.life.state == Active ==> |r.committed| < r.output && (!r.ignoreEos ==> eos !in r.committed)
  }

  ghost predicate RecOk(r: Req, g: int, m: Marks, flight: seq<Ref>, ids: TokenIds) {
    && LifeOk(r, g, flight) && MarksOk(r, m) && LengthsOk(r, TokensOf(flight, g), PositionsOf(flight, g))
    && EndOk(r, ids.eos) && Grammatical(r.start, r.sampled, ids) && r.start != Answer
  }

  datatype World = World(reqs: map<int, Req>, pending: set<int>, running: set<int>, owners: set<int>,
                         live: map<int, int>)

  ghost function MarksOf(w: World, g: int): Marks
    requires g in w.reqs
  {
    Marks(g in w.pending, g in w.running, g in w.owners, w.reqs[g].uid in w.live && w.live[w.reqs[g].uid] == g)
  }

  ghost predicate Listed(w: World) {
    && w.pending <= w.reqs.Keys && w.running <= w.reqs.Keys && w.owners <= w.reqs.Keys
    && (forall u :: u in w.live ==> w.live[u] in w.reqs && w.reqs[w.live[u]].uid == u)
    && (forall g, h :: g in w.reqs && h in w.reqs && w.reqs[g].uid == w.reqs[h].uid ==> g == h)
  }

  ghost predicate FlightOk(w: World, flight: seq<Ref>) {
    && EpochsApart(flight)
    && forall i :: 0 <= i < |flight| ==> flight[i].gen in w.reqs && (!flight[i].chunk ==> w.reqs[flight[i].gen].whole)
  }

  /** The forwards of every request in flight compute its positions one after another, up
      to what is computed when all of them have run. */
  ghost predicate InSequence(reqs: map<int, Req>, flight: seq<Ref>) {
    forall g {:trigger reqs[g]} :: g in reqs ==> Follow(flight, g, reqs[g].cached)
  }

  ghost predicate RecsOk(w: World, flight: seq<Ref>, ids: TokenIds) {
    forall g {:trigger w.reqs[g]} :: g in w.reqs ==> RecOk(w.reqs[g], g, MarksOf(w, g), flight, ids)
  }

  /** Every request is in order; `flight` are the forwards not processed yet. */
  ghost predicate WorldOk(w: World, flight: seq<Ref>, ids: TokenIds) {
    Listed(w) && FlightOk(w, flight) && RecsOk(w, flight, ids)
  }

  /** `v` differs from `w` only in what it says about request `g`. */
  ghost predicate OnlyAt(w: World, v: World, g: int) {
    && g in w.reqs && v.reqs.Keys == w.reqs.Keys && v.reqs[g].uid == w.reqs[g].uid
    && (forall h :: h in w.reqs && h != g ==> v.reqs[h] == w.reqs[h])
    && v.pending + {g} == w.pending + {g} && v.running + {g} == w.running + {g} && v.owners + {g} == w.owners + {g}
    && v.pending <= v.reqs.Keys && v.running <= v.reqs.Keys && v.owners <= v.reqs.Keys
    && (forall u :: u != w.reqs[g].uid ==> (u in v.live <==> u in w.live))
    && (forall u :: u in v.live && u != w.reqs[g].uid ==> v.live[u] == w.live[u])
    && (w.reqs[g].uid in v.live ==> v.live[w.reqs[g].uid] == g)
  }

  lemma MarksElsewhere(w: World, v: World, g: int, h: int)
    requires Listed(w) && OnlyAt(w, v, g) && h in w.reqs && h != g
    ensures MarksOf(v, h) == MarksOf(w, h)
  {
    assert h in v.pending + {g} <==> h in w.pending + {g};
    assert h in v.running + {g} <==> h in w.running + {g};
    assert h in v.owners + {g} <==> h in w.owners + {g};
    assert w.reqs[h].uid != w.reqs[g].uid;
  }

  lemma StillListed(w: World, v: World, g: int)
    requires Listed(w) && OnlyAt(w, v, g)
    ensures Listed(v)
  {
    forall u | u in v.live ensures v.live[u] in v.reqs && v.reqs[v.live[u]].uid == u {
      if u != w.reqs[g].uid { assert v.live[u] == w.live[u]; }
    }
  }

  /** A step of one request that leaves the flight of all others alone. */
  lemma OneStep(w: World, v: World, g: int, before: seq<Ref>, after: seq<Ref>, ids: TokenIds)
    requires Listed(w) && RecsOk(w, before, ids) && OnlyAt(w, v, g) && FlightOk(v, after)
    requires forall h :: h != g ==>
      TokensOf(after, h) == TokensOf(before, h) && EpochsOf(after, h) == EpochsOf(before, h)
    requires forall h :: h != g ==> PositionsOf(after, h) == PositionsOf(before, h)
    requires RecOk(v.reqs[g], g, MarksOf(v, g), after, ids)
    ensures WorldOk(v, after, ids)
  {
    hide TokensOf, PositionsOf, EpochsOf, Grammatical;
    StillListed(w, v, g);
    forall h | h in v.reqs ensures RecOk(v.reqs[h], h, MarksOf(v, h), after, ids) {
      if h != g {
        MarksElsewhere(w, v, g, h);
        assert RecOk(w.reqs[h], h, MarksOf(w, h), before, ids);
      }
    }
  }

  // ----- issuing a forward

  /** What issuing a forward does to a request: a chunk of the prompt, the last part of
      it, or one decode step. */
  function Issued(r: Req, life: Lifecycle, ref: Ref, slot: int, to: nat): Req {
    if ref.chunk then r.(life := life, slot := slot, cached := to, device := to + 1)
    else r.(life := life, slot := slot, whole := true, cached := to, device := to + 1,
            sampled := r.sampled + [ref.token])
  }

  lemma FlightAppends(flight: seq<Ref>, ref: Ref)
    ensures forall h :: h != ref.gen ==>
      TokensOf(flight + [ref], h) == TokensOf(flight, h) && EpochsOf(flight + [ref], h) == EpochsOf(flight, h)
    ensures forall h :: h != ref.gen ==> PositionsOf(flight + [ref], h) == PositionsOf(flight, h)
    ensures TokensOf(flight + [ref], ref.gen) == TokensOf(flight, ref.gen) + if ref.chunk then [] else [ref.token]
    ensures PositionsOf(flight + [ref], ref.gen) == PositionsOf(flight, ref.gen) + if ref.chunk then [] else [ref.at]
    ensures EpochsOf(flight + [ref], ref.gen) == EpochsOf(flight, ref.gen) + {ref.epoch}
  {
    forall h
      ensures TokensOf(flight + [ref], h)
        == TokensOf(flight, h) + if ref.gen == h && !ref.chunk then [ref.token] else []
    {
      TokensAppend(flight, ref, h);
    }
    forall h
      ensures PositionsOf(flight + [ref], h)
        == PositionsOf(flight, h) + if ref.gen == h && !ref.chunk then [ref.at] else []
    {
      PositionsAppend(flight, ref, h);
    }
    forall h ensures EpochsOf(flight + [ref], h) == EpochsOf(flight, h) + if ref.gen == h then {ref.epoch} else {} {
      EpochsAppend(flight, ref, h);
    }
  }

  lemma FlightFront(flight: seq<Ref>)
    requires flight != [] && EpochsApart(flight)
    ensures forall h :: h != flight[0].gen ==>
      TokensOf(flight[1..], h) == TokensOf(flight, h) && EpochsOf(flight[1..], h) == EpochsOf(flight, h)
      && PositionsOf(flight[1..], h) == PositionsOf(flight, h)
    ensures TokensOf(flight, flight[0].gen)
      == (if flight[0].chunk then [] else [flight[0].token]) + TokensOf(flight[1..], flight[0].gen)
    ensures flight[0].chunk ==> PositionsOf(flight[1..], flight[0].gen) == PositionsOf(flight, flight[0].gen)
    ensures !flight[0].chunk ==> PositionsOf(flight[1..], flight[0].gen) == PositionsOf(flight, flight[0].gen)[1..]
    ensures EpochsOf(flight[1..], flight[0].gen) == EpochsOf(flight, flight[0].gen) - {flight[0].epoch}
    ensures flight[0].epoch in EpochsOf(flight, flight[0].gen) && EpochsApart(flight[1..])
  {
    forall h
      ensures EpochsOf(flight[1..], h) == EpochsOf(flight, h) - if flight[0].gen == h then {flight[0].epoch} else {}
    {
      EpochsFront(flight, h);
    }
    EpochsFront(flight, flight[0].gen);
    assert [] + PositionsOf(flight[1..], flight[0].gen) == PositionsOf(flight[1..], flight[0].gen);
  }

  /** The next epoch is not in flight. */
  lemma EpochUnused(flight: seq<Ref>, ref: Ref, outstanding: set<nat>)
    requires EpochsApart(flight) && outstanding == EpochsOf(flight, ref.gen) && ref.epoch !in outstanding
    ensures EpochsApart(flight + [ref])
  {
    forall i | 0 <= i < |flight| && flight[i].gen == ref.gen ensures flight[i].epoch != ref.epoch {
      assert flight[i].epoch in EpochsOf(flight, ref.gen);
    }
  }

  /** Issuing keeps the record: the life goes on, the device moves to `to + 1`, and a
      sample the mask allows keeps the sequence grammatical. */
  lemma IssuedOk(r: Req, g: int, m: Marks, flight: seq<Ref>, ref: Ref, slot: int, to: nat, ids: TokenIds)
    requires RecOk(r, g, m, flight, ids) && r.life.state == Active && ref.gen == g && ref.epoch == r.life.nextEpoch
    requires ref.at == to
    requires slot >= 0 && (r.slot >= 0 ==> slot == r.slot) && |TokensOf(flight, g)| <= 1
    requires if ref.chunk then !r.whole
      && to < r.prompt else if r.whole then to == r.device < r.prompt + r.output else to == r.prompt
    requires !ref.chunk ==> Allowed(StateAfter(r.start, r.committed, ids), LastToken(r.sampled), ref.token, ids)
    ensures r.life.nextEpoch !in r.life.outstanding && Issue(r.life).Some?
    ensures var s := Issued(r, Issue(r.life).value.0, ref, slot, to);
            RecOk(s, g, Marks(!s.whole, CanDecode(s), false, true), flight + [ref], ids)
  {
    hide TokensOf, PositionsOf, EpochsOf, Grammatical, StateAfter, Allowed;
    FlightAppends(flight, ref);
    if !ref.chunk {
      MaskedSample(r.start, r.committed, r.sampled, ref.token, ids);
    }
  }

  // ----- processing a result

  /** A token reaches the host. */
  function Appended(r: Req, token: int): Req {
    r.(committed := r.committed + [token])
  }

  lemma CommitRoom(r: Req, g: int, m: Marks, flight: seq<Ref>, ids: TokenIds)
    requires RecOk(r, g, m, flight, ids) && EpochsApart(flight)
    requires flight != [] && flight[0].gen == g && !flight[0].chunk && r.whole && r.life.state == Active
    ensures r.prompt + |r.committed| < r.prompt + r.output
    ensures |r.sampled| > |r.committed| && r.sampled[|r.committed|] == flight[0].token
    ensures r.committed + [flight[0].token] <= r.sampled
  {
    FlightFront(flight);
  }

  /** Processing the front forward of an active request: the record without it. */
  lemma ProcessedOk(r: Req, g: int, m: Marks, flight: seq<Ref>, ids: TokenIds, finished: bool)
    requires RecOk(r, g, m, flight, ids) && EpochsApart(flight) && |TokensOf(flight, g)| <= 2
    requires flight != [] && flight[0].gen == g && !flight[0].chunk && r.whole && r.life.state == Active
    requires !finished ==> |r.committed| + 1 < r.output && (!r.ignoreEos ==> flight[0].token != ids.eos)
    ensures Complete(r.life, flight[0].epoch).Some?
    ensures var s := Appended(r, flight[0].token);
            && s.cached <= s.prompt + |s.committed|
            && (!finished ==> RecOk(s.(life := Complete(r.life, flight[0].epoch).value), g, m, flight[1..], ids))
            && (finished ==>
                  var t := s.(life := Complete(CommitTerminal(r.life).value, flight[0].epoch).value);
                  if t.life.outstanding == {} then RecOk(t.(life := MarkReleased(t.life).value), g,
                    Marks(false, false, false, false), flight[1..], ids)
                  else RecOk(t, g, Marks(false, false, true, true), flight[1..], ids))
  {
    hide TokensOf, PositionsOf, EpochsOf, Grammatical;
    FlightFront(flight);
    CommitRoom(r, g, m, flight, ids);
  }

  /** Processing a chunk of an active request only completes its forward. */
  lemma ChunkProcessedOk(r: Req, g: int, m: Marks, flight: seq<Ref>, ids: TokenIds)
    requires RecOk(r, g, m, flight, ids) && EpochsApart(flight) && r.life.state == Active
    requires flight != [] && flight[0].gen == g && flight[0].chunk
    ensures Complete(r.life, flight[0].epoch).Some?
    ensures RecOk(r.(life := Complete(r.life, flight[0].epoch).value), g, m, flight[1..], ids)
  {
    hide TokensOf, PositionsOf, EpochsOf, Grammatical;
    FlightFront(flight);
  }

  /** A terminal request drops its result; the last one retires it. */
  lemma DroppedOk(r: Req, g: int, m: Marks, flight: seq<Ref>, ids: TokenIds)
    requires RecOk(r, g, m, flight, ids) && EpochsApart(flight) && r.life.state != Active
    requires flight != [] && flight[0].gen == g
    ensures r.life.state == TerminalPending && Complete(r.life, flight[0].epoch).Some?
    ensures var t := r.(life := Complete(r.life, flight[0].epoch).value);
            if t.life.outstanding == {}
              then RecOk(t.(life := MarkReleased(t.life).value), g, Marks(false, false, false, false), flight[1..], ids)
            else RecOk(t, g, m, flight[1..], ids)
  {
    hide TokensOf, PositionsOf, EpochsOf, Grammatical;
    FlightFront(flight);
  }

  /** An abort between two forwards: the request is terminal, and retired at once when
      nothing is in flight. */
  lemma AbortedOk(r: Req, g: int, m: Marks, flight: seq<Ref>, ids: TokenIds)
    requires RecOk(r, g, m, flight, ids) && r.life.state == Active && r.slot >= 0 && |TokensOf(flight, g)| <= 1
    ensures var t := r.(life := CommitTerminal(r.life).value);
            if t.life.outstanding == {}
              then RecOk(t.(life := MarkReleased(t.life).value), g, Marks(false, false, false, false), flight, ids)
            else RecOk(t, g, Marks(false, false, true, true), flight, ids)
    ensures r.whole ==> r.cached <= r.prompt + |r.committed|
  {
    hide TokensOf, PositionsOf, EpochsOf, Grammatical;
  }

  lemma NewOk(r: Req, g: int, flight: seq<Ref>, ids: TokenIds)
    requires r.prompt >= 1 && r.output >= 1 && r.life == FRESH && r.slot == -1 && !r.whole && r.cached == 0
    requires r.committed == [] && r.sampled == []
    requires r.start != Answer && forall i :: 0 <= i < |flight| ==> flight[i].gen != g
    ensures RecOk(r, g, Marks(true, false, false, false), flight, ids)
  {
    NoTokens(flight, g);
    assert EpochsOf(flight, g) == {};
  }

  lemma {:induction false} NoTokens(flight: seq<Ref>, g: int)
    requires forall i :: 0 <= i < |flight| ==> flight[i].gen != g
    ensures TokensOf(flight, g) == [] && PositionsOf(flight, g) == []
    decreases |flight|
  {
    if flight != [] {
      assert flight[0].gen != g;
      forall i | 0 <= i < |flight[1..]| ensures flight[1..][i].gen != g {
        assert flight[1..][i] == flight[i + 1];
      }
      NoTokens(flight[1..], g);
    }
  }

  /** A request joins, or leaves before anything was issued for it. */
  lemma Joins(w: World, g: int, r: Req, flight: seq<Ref>, ids: TokenIds)
    requires WorldOk(w, flight, ids) && g !in w.reqs && (forall h :: h in w.reqs ==> w.reqs[h].uid != r.uid)
    requires RecOk(r, g, Marks(true, false, false, false), flight, ids)
    ensures WorldOk(w.(reqs := w.reqs[g := r], pending := w.pending + {g}), flight, ids)
  {
    hide TokensOf, PositionsOf, EpochsOf, Grammatical, LifeOk, LengthsOk;
    var v := w.(reqs := w.reqs[g := r], pending := w.pending + {g});
    forall h | h in v.reqs ensures RecOk(v.reqs[h], h, MarksOf(v, h), flight, ids) {
      if h != g {
        assert RecOk(w.reqs[h], h, MarksOf(w, h), flight, ids);
        assert MarksOf(v, h) == MarksOf(w, h);
      } else {
        assert MarksOf(v, g) == Marks(true, false, false, false);
      }
    }
  }

  lemma Leaves(w: World, g: int, flight: seq<Ref>, ids: TokenIds)
    requires WorldOk(w, flight, ids) && g in w.reqs && w.reqs[g].slot == -1
    ensures WorldOk(w.(reqs := w.reqs - {g}, pending := w.pending - {g}), flight, ids)
  {
    hide TokensOf, PositionsOf, Grammatical;
    var v := w.(reqs := w.reqs - {g}, pending := w.pending - {g});
    assert RecOk(w.reqs[g], g, MarksOf(w, g), flight, ids);
    forall i | 0 <= i < |flight| ensures flight[i].gen != g {
      assert flight[i].epoch in EpochsOf(flight, flight[i].gen);
    }
    forall u | u in w.live ensures w.live[u] != g {
      assert w.reqs[w.live[u]].uid == u;
    }
    forall h | h in v.reqs ensures RecOk(v.reqs[h], h, MarksOf(v, h), flight, ids) {
      assert RecOk(w.reqs[h], h, MarksOf(w, h), flight, ids);
      assert MarksOf(v, h) == MarksOf(w, h);
    }
  }

  // ----- table slots and their owner tags

  /** Every slot is free or held by exactly one request, whose generation both tags
      carry. */
  ghost predicate SlotsOk(reqs: map<int, Req>, free: seq<int>, c4: seq<int>, c128: seq<int>) {
    && c128 == c4
    && (forall i, j :: 0 <= i < j < |free| ==> free[i] != free[j])
    && (forall i :: 0 <= i < |free| ==> 0 <= free[i] < |c4| && c4[free[i]] == -1)
    && (forall s :: 0 <= s < |c4| ==>
         if c4[s] == -1 then s in free else c4[s] in reqs && Holds(reqs[c4[s]]) && reqs[c4[s]].slot == s)
    && (forall g {:trigger reqs[g]} :: g in reqs ==>
         g >= 0 && (Holds(reqs[g]) ==> reqs[g].slot < |c4| && c4[reqs[g].slot] == g))
  }

  lemma SlotTaken(reqs: map<int, Req>, free: seq<int>, c4: seq<int>, c128: seq<int>, g: int, r: Req)
    requires SlotsOk(reqs, free, c4, c128) && free != [] && g in reqs && !Holds(reqs[g])
    requires var s := free[|free| - 1]; r.slot == s && Holds(r)
    ensures var n := |free| - 1; var s := free[n];
            && 0 <= s < |c4| && c4[s] == -1 && c128[s] == -1
            && SlotsOk(reqs[g := r], free[..n], c4[s := g], c128[s := g])
  {
    var n := |free| - 1;
    var s := free[n];
    var now := reqs[g := r];
    forall t | 0 <= t < |c4|
      ensures if c4[s := g][t] == -1 then t in free[..n]
              else c4[s := g][t] in now && Holds(now[c4[s := g][t]]) && now[c4[s := g][t]].slot == t
    {
      if t != s && c4[t] == -1 {
        var i :| 0 <= i < |free| && free[i] == t;
        assert free[..n][i] == t;
      }
    }
    forall h | h in now ensures h >= 0 && (Holds(now[h]) ==> now[h].slot < |c4| && c4[s := g][now[h].slot] == h) {
      assert h in reqs && (h != g ==> now[h] == reqs[h]);
    }
  }

  lemma SlotKept(reqs: map<int, Req>, free: seq<int>, c4: seq<int>, c128: seq<int>, g: int, r: Req)
    requires SlotsOk(reqs, free, c4, c128) && g in reqs && r.slot == reqs[g].slot && (Holds(r) <==> Holds(reqs[g]))
    ensures SlotsOk(reqs[g := r], free, c4, c128)
  {
    var now := reqs[g := r];
    forall h | h in now ensures h >= 0 && (Holds(now[h]) ==> now[h].slot < |c4| && c4[now[h].slot] == h) {
      assert h in reqs && (h != g ==> now[h] == reqs[h]);
    }
  }

  lemma SlotReturned(reqs: map<int, Req>, free: seq<int>, c4: seq<int>, c128: seq<int>, g: int, r: Req)
    requires SlotsOk(reqs, free, c4, c128) && g in reqs && Holds(reqs[g]) && !Holds(r)
    ensures var s := reqs[g].slot;
            && 0 <= s < |c4| == |c128| && c4[s] == g && c128[s] == g
            && SlotsOk(reqs[g := r], free + [s], c4[s := -1], c128[s := -1])
  {
    var s := reqs[g].slot;
    var now := reqs[g := r];
    forall t | 0 <= t < |c4|
      ensures if c4[s := -1][t] == -1 then t in free + [s]
              else c4[s := -1][t] in now && Holds(now[c4[s := -1][t]]) && now[c4[s := -1][t]].slot == t
    {
      if t != s && c4[t] != -1 { assert c4[t] != g; }
    }
    forall h | h in now ensures h >= 0 && (Holds(now[h]) ==> now[h].slot < |c4| && c4[s := -1][now[h].slot] == h) {
      assert h in reqs && (h != g ==> now[h] == reqs[h]);
    }
  }

  // ----- replies

  datatype Reason = Stop | Length | LengthRejected

  datatype Finish = Finish(reason: Reason, promptTokens: int, completionTokens: int)

  /** One token for a user; the last reply also says how the request ended. */
  datatype Reply = Reply(uid: int, token: int, finish: Option<Finish>) {
    predicate Rejects() {
      finish.Some? && finish.value.reason == LengthRejected
    }
  }

  /** Tokens replied to `uid`. */
  function Replied(log: seq<Reply>, uid: int): seq<int> {
    if log == [] then []
    else
      var e := log[|log| - 1];
      Replied(log[..|log| - 1], uid) + if e.uid == uid && !e.Rejects() then [e.token] else []
  }

  ghost predicate FinishedIn(log: seq<Reply>, uid: int) {
    exists i :: 0 <= i < |log| && log[i].uid == uid && log[i].finish.Some?
  }

  /** Nothing follows a finished reply, and it reports the tokens replied. */
  ghost predicate LogOk(log: seq<Reply>) {
    && (forall i, j :: 0 <= i < j < |log| && log[i].uid == log[j].uid ==> log[i].finish.None?)
    && (forall i :: 0 <= i < |log| && log[i].finish.Some? ==>
          log[i].finish.value.completionTokens
          == if log[i].Rejects() then 0 else |Replied(log[..i + 1], log[i].uid)|)
  }

  /** Reply `i`, one of request `r`, is the last one exactly if it is the end of sequence
      that the request respects or the last token admitted, and says which. */
  ghost predicate EndsRight(log: seq<Reply>, i: nat, r: Req, eos: int)
    requires i < |log|
  {
    var stop := !r.ignoreEos && log[i].token == eos;
    && (log[i].finish.Some? <==> stop || |Replied(log[..i + 1], r.uid)| == r.output)
    && (log[i].finish.Some? ==>
          log[i].finish.value.reason == (if stop then Stop else Length) && log[i].finish.value.promptTokens == r.prompt)
  }

  /** What the replies say about one request. */
  ghost predicate RepliesOk(log: seq<Reply>, r: Req, eos: int) {
    && Replied(log, r.uid) == r.committed
    && (r.life.state == Active ==> !FinishedIn(log, r.uid))
    && forall i :: 0 <= i < |log| && log[i].uid == r.uid ==> EndsRight(log, i, r, eos)
  }

  ghost predicate AllReplies(log: seq<Reply>, reqs: map<int, Req>, eos: int) {
    LogOk(log) && forall g {:trigger reqs[g]} :: g in reqs ==> RepliesOk(log, reqs[g], eos)
  }

  lemma LogAppend(log: seq<Reply>, e: Reply)
    requires LogOk(log) && !FinishedIn(log, e.uid)
    requires e.finish.Some? ==>
      e.finish.value.completionTokens == if e.Rejects() then 0 else |Replied(log, e.uid)| + 1
    ensures LogOk(log + [e])
    ensures forall u :: Replied(log + [e], u) == Replied(log, u) + if e.uid == u && !e.Rejects() then [e.token] else []
    ensures forall u :: FinishedIn(log + [e], u) <==> FinishedIn(log, u) || (e.uid == u && e.finish.Some?)
  {
    var all := log + [e];
    assert all[..|log|] == log;
    forall i | 0 <= i < |all| && all[i].finish.Some?
      ensures all[i].finish.value.completionTokens
        == if all[i].Rejects() then 0 else |Replied(all[..i + 1], all[i].uid)|
    {
      if i < |log| { assert all[..i + 1] == log[..i + 1]; } else { assert all[..i + 1] == all; }
    }
    forall u | FinishedIn(log, u) || (e.uid == u && e.finish.Some?) ensures FinishedIn(all, u) {
      if FinishedIn(log, u) {
        var i :| 0 <= i < |log| && log[i].uid == u && log[i].finish.Some?;
        assert all[i] == log[i];
      } else {
        assert all[|log|] == e;
      }
    }
  }

  /** A further reply leaves what the earlier ones say. */
  lemma EarlierEnds(log: seq<Reply>, e: Reply, r: Req, s: Req, eos: int)
    requires RepliesOk(log, r, eos)
    requires s.uid == r.uid && s.prompt == r.prompt && s.output == r.output && s.ignoreEos == r.ignoreEos
    ensures forall i :: 0 <= i < |log| && log[i].uid == s.uid ==> EndsRight(log + [e], i, s, eos)
  {
    forall i | 0 <= i < |log| && log[i].uid == s.uid ensures EndsRight(log + [e], i, s, eos) {
      assert (log + [e])[..i + 1] == log[..i + 1];
      assert EndsRight(log, i, r, eos);
    }
  }

  /** `e` replies the last token of `s`, and says so if the request ends with it. */
  ghost predicate RepliesLast(e: Reply, s: Req, eos: int) {
    var stop := !s.ignoreEos && e.token == eos;
    && e.uid == s.uid
    && e.finish == if stop then Some(Finish(Stop, s.prompt, |s.committed|))
                   else if |s.committed| == s.output then Some(Finish(Length, s.prompt, |s.committed|)) else None
  }

  /** A token reply to an active request. */
  lemma ReplyToken(log: seq<Reply>, w: World, g: int, e: Reply, s: Req, eos: int)
    requires AllReplies(log, w.reqs, eos) && Listed(w) && g in w.reqs && w.reqs[g].life.state == Active
    requires s.uid == w.reqs[g].uid && s.prompt == w.reqs[g].prompt && s.output == w.reqs[g].output
    requires s.ignoreEos == w.reqs[g].ignoreEos && s.committed == w.reqs[g].committed + [e.token]
    requires RepliesLast(e, s, eos) && (s.life.state == Active ==> e.finish.None?)
    ensures AllReplies(log + [e], w.reqs[g := s], eos)
  {
    hide LogOk, FinishedIn, Replied;
    var r, all := w.reqs[g], log + [e];
    assert RepliesOk(log, r, eos);
    LogAppend(log, e);
    EarlierEnds(log, e, r, s, eos);
    assert all[..|log| + 1] == all;
    var now := w.reqs[g := s];
    forall h | h in now ensures RepliesOk(all, now[h], eos) {
      if h != g {
        assert RepliesOk(log, w.reqs[h], eos) && w.reqs[h].uid != e.uid;
        EarlierEnds(log, e, w.reqs[h], w.reqs[h], eos);
      }
    }
  }

  lemma RepliesKept(log: seq<Reply>, reqs: map<int, Req>, g: int, s: Req, eos: int)
    requires AllReplies(log, reqs, eos) && g in reqs && s.uid == reqs[g].uid && s.committed == reqs[g].committed
    requires s.prompt == reqs[g].prompt && s.output == reqs[g].output && s.ignoreEos == reqs[g].ignoreEos
    requires s.life.state == Active ==> reqs[g].life.state == Active
    ensures AllReplies(log, reqs[g := s], eos)
  {
    hide LogOk, FinishedIn, Replied;
    var now := reqs[g := s];
    forall h | h in now ensures RepliesOk(log, now[h], eos) {
      assert RepliesOk(log, reqs[h], eos);
      forall i | 0 <= i < |log| && log[i].uid == now[h].uid ensures EndsRight(log, i, now[h], eos) {
        assert EndsRight(log, i, reqs[h], eos);
      }
    }
  }

  // ----- everything but the requests

  datatype Books = Books(free: seq<int>, c4: seq<int>, c128: seq<int>, log: seq<Reply>, retired: seq<int>,
                         seen: set<int>, nextGeneration: nat, eos: int)

  /** Resources were given back once for every retired request and for no other. */
  ghost predicate RetiredOnce(reqs: map<int, Req>, retired: seq<int>) {
    && (forall i, j :: 0 <= i < j < |retired| ==> retired[i] != retired[j])
    && (forall i :: 0 <= i < |retired| ==> retired[i] in reqs)
    && (forall g {:trigger reqs[g]} :: g in reqs ==> (g in retired <==> reqs[g].life.state == Retired))
  }

  ghost predicate UidsSeen(reqs: map<int, Req>, log: seq<Reply>, seen: set<int>) {
    && (forall g {:trigger reqs[g]} :: g in reqs ==> reqs[g].uid in seen)
    && (forall i :: 0 <= i < |log| ==> log[i].uid in seen)
  }

  ghost predicate Admitted(reqs: map<int, Req>, nextGeneration: nat, maxSeqLen: nat) {
    forall g {:trigger reqs[g]} :: g in reqs ==>
      g < nextGeneration && reqs[g].prompt >= 1 && reqs[g].prompt + reqs[g].output <= maxSeqLen
  }

  ghost predicate BooksOk(reqs: map<int, Req>, b: Books, maxSeqLen: nat) {
    && SlotsOk(reqs, b.free, b.c4, b.c128)
    && AllReplies(b.log, reqs, b.eos)
    && RetiredOnce(reqs, b.retired)
    && UidsSeen(reqs, b.log, b.seen)
    && Admitted(reqs, b.nextGeneration, maxSeqLen)
  }

  lemma {:induction false} NotReplied(log: seq<Reply>, uid: int, seen: set<int>)
    requires uid !in seen && forall i :: 0 <= i < |log| ==> log[i].uid in seen
    ensures Replied(log, uid) == [] && !FinishedIn(log, uid)
    decreases |log|
  {
    if log != [] {
      NotReplied(log[..|log| - 1], uid, seen);
    }
  }

  lemma Rejected(reqs: map<int, Req>, b: Books, maxSeqLen: nat, e: Reply)
    requires BooksOk(reqs, b, maxSeqLen) && e.uid !in b.seen && e.Rejects() && e.finish.value.completionTokens == 0
    ensures BooksOk(reqs, b.(seen := b.seen + {e.uid}, log := b.log + [e]), maxSeqLen)
  {
    hide LogOk, FinishedIn, Replied, SlotsOk, RetiredOnce, Admitted;
    NotReplied(b.log, e.uid, b.seen);
    LogAppend(b.log, e);
    forall g | g in reqs ensures RepliesOk(b.log + [e], reqs[g], b.eos) {
      assert RepliesOk(b.log, reqs[g], b.eos);
      EarlierEnds(b.log, e, reqs[g], reqs[g], b.eos);
    }
  }

  lemma GenerationUnused(w: World, flight: seq<Ref>, ids: TokenIds, g: int)
    requires WorldOk(w, flight, ids) && g !in w.reqs
    ensures NotInFlight(flight, g) && forall i :: 0 <= i < |flight| ==> flight[i].gen != g
  {
  }

  lemma InitialState(effort: Option<string>)
    requires Initial(effort).Some?
    ensures effort == None || effort == Some("high") || effort == Some("max")
    ensures Initial(effort).value == if effort == None then Chat else Thinking
  {
  }

  lemma JoinsRest(reqs: map<int, Req>, b: Books, maxSeqLen: nat, g: int, r: Req)
    requires BooksOk(reqs, b, maxSeqLen) && g == b.nextGeneration && r.uid !in b.seen
    requires r.slot == -1 && r.committed == [] && r.life == FRESH && r.prompt >= 1 && r.prompt + r.output <= maxSeqLen
    ensures g !in reqs && forall h :: h in reqs ==> reqs[h].uid != r.uid
    ensures BooksOk(reqs[g := r], b.(seen := b.seen + {r.uid}, nextGeneration := g + 1), maxSeqLen)
  {
    hide LogOk, FinishedIn, Replied;
    assert forall h :: h in reqs ==> reqs[h].prompt >= 1 && h < g;
    NotReplied(b.log, r.uid, b.seen);
    var now := reqs[g := r];
    forall h | h in now ensures RepliesOk(b.log, now[h], b.eos) {
      if h != g { assert RepliesOk(b.log, reqs[h], b.eos); }
    }
    forall h | h in now ensures h >= 0 && (Holds(now[h]) ==> now[h].slot < |b.c4| && b.c4[now[h].slot] == h) {
      if h != g { assert now[h] == reqs[h]; }
    }
    forall h | h in now ensures h in b.retired <==> now[h].life.state == Retired {
      if h != g { assert now[h] == reqs[h]; }
    }
  }

  function MaxOf(a: int, b: int): int {
    if a >= b then a else b
  }

  lemma RecordOf(w: World, g: int, flight: seq<Ref>, ids: TokenIds)
    requires WorldOk(w, flight, ids) && g in w.reqs
    ensures RecOk(w.reqs[g], g, MarksOf(w, g), flight, ids) && EpochsApart(flight)
    ensures w.reqs[g].slot >= -1 && (w.reqs[g].whole ==> w.reqs[g].device >= 1)
  {
    assert RecOk(w.reqs[g], g, MarksOf(w, g), flight, ids);
  }

  /** A request is at most once in each of the two batches. */
  lemma FewTokens(last: seq<Ref>, ongoing: seq<Ref>, g: int)
    requires OncePerRequest(last) && OncePerRequest(ongoing)
    ensures |TokensOf(last + ongoing, g)| <= 2
    ensures (forall i :: 0 <= i < |ongoing| ==> ongoing[i].gen != g) ==> |TokensOf(last + ongoing, g)| <= 1
  {
    TokensConcat(last, ongoing, g);
    AtMostOneToken(last, g);
    AtMostOneToken(ongoing, g);
  }

  lemma OnceMore(batch: seq<Ref>, ref: Ref)
    requires OncePerRequest(batch) && forall i :: 0 <= i < |batch| ==> batch[i].gen != ref.gen
    ensures OncePerRequest(batch + [ref])
  {
  }

  // ----- launches

  /** Where the next positions start: behind what is computed, which for a request without
      a slot is a stored prefix of its prompt. */
  predicate Continues(r: Req, from: nat, to: nat) {
    r.cached <= from < to && (r.slot >= 0 ==> from == r.cached)
  }

  /** What may be computed next: a proper part of the prompt, all of it, or one token. */
  predicate Launchable(r: Req, from: nat, to: nat, chunk: bool) {
    && Continues(r, from, to)
    && if chunk then !r.whole && to < r.prompt
       else if r.whole then CanDecode(r) && to == r.device
       else to == r.prompt
  }

  /** The forward and the record after a launch.  A decode step reads the position
      `cached` where the previous forward wrote its sample. */
  ghost predicate Launched(r: Req, s: Req, ref: Ref, g: int, to: nat, chunk: bool) {
    && ref.gen == g && ref.chunk == chunk && ref.at == to && ref.epoch == r.life.nextEpoch && Continues(r, ref.from, to)
    && s.slot >= 0 && (r.slot >= 0 ==> s.slot == r.slot)
    && r.life.state == s.life.state == Active && s == Issued(r, s.life, ref, s.slot, to)
  }

  function SlotOf(b: Books, slot: int): int
    requires slot == -1 ==> b.free != []
  {
    if slot == -1 then b.free[|b.free| - 1] else slot
  }

  function WithSlot(b: Books, slot: int, g: int): Books
    requires slot == -1 ==> b.free != []
  {
    var s := SlotOf(b, slot);
    if slot == -1 && 0 <= s < |b.c4| && s < |b.c128| then
      b.(free := b.free[..|b.free| - 1], c4 := b.c4[s := g], c128 := b.c128[s := g])
    else b
  }

  lemma SlotFree(reqs: map<int, Req>, b: Books, maxSeqLen: nat)
    requires BooksOk(reqs, b, maxSeqLen) && b.free != []
    ensures var s := b.free[|b.free| - 1]; 0 <= s < |b.c4| == |b.c128| && b.c4[s] == -1 && b.c128[s] == -1
  {
  }

  lemma PositionsBound(reqs: map<int, Req>, b: Books, maxSeqLen: nat, g: int)
    requires BooksOk(reqs, b, maxSeqLen) && g in reqs
    ensures reqs[g].prompt >= 1 && reqs[g].prompt + reqs[g].output <= maxSeqLen
  {
  }

  lemma RecordUpdated(reqs: map<int, Req>, b: Books, maxSeqLen: nat, g: int, s: Req)
    requires BooksOk(reqs, b, maxSeqLen) && g in reqs && s.uid == reqs[g].uid && s.prompt == reqs[g].prompt
    requires s.output == reqs[g].output
    requires s.life.state == Retired <==> reqs[g].life.state == Retired
    ensures RetiredOnce(reqs[g := s], b.retired) && UidsSeen(reqs[g := s], b.log, b.seen)
    ensures Admitted(reqs[g := s], b.nextGeneration, maxSeqLen)
  {
    hide SlotsOk, AllReplies;
    var now := reqs[g := s];
    forall h | h in now ensures h in b.retired <==> now[h].life.state == Retired {
      assert h in reqs && (h != g ==> now[h] == reqs[h]);
    }
    forall h | h in now ensures now[h].uid in b.seen {
      assert h in reqs && (h != g ==> now[h] == reqs[h]);
    }
    forall h | h in now
      ensures h < b.nextGeneration && now[h].prompt >= 1 && now[h].prompt + now[h].output <= maxSeqLen
    {
      assert h in reqs && (h != g ==> now[h] == reqs[h]);
    }
  }

  /** Slots, tags and replies after a launch. */
  lemma LaunchRest(reqs: map<int, Req>, b: Books, maxSeqLen: nat, g: int, s: Req)
    requires BooksOk(reqs, b, maxSeqLen) && g in reqs && reqs[g].life.state == Active && reqs[g].slot >= -1
    requires s.uid == reqs[g].uid && s.prompt == reqs[g].prompt && s.output == reqs[g].output
    requires s.committed == reqs[g].committed && s.ignoreEos == reqs[g].ignoreEos && s.life.state == Active
    requires (reqs[g].slot == -1 ==> b.free != []) && s.slot == SlotOf(b, reqs[g].slot) >= 0
    ensures BooksOk(reqs[g := s], WithSlot(b, reqs[g].slot, g), maxSeqLen)
  {
    hide LogOk, FinishedIn, Replied;
    RecordUpdated(reqs, b, maxSeqLen, g, s);
    RepliesKept(b.log, reqs, g, s, b.eos);
    if reqs[g].slot == -1 {
      SlotTaken(reqs, b.free, b.c4, b.c128, g, s);
    } else {
      SlotKept(reqs, b.free, b.c4, b.c128, g, s);
    }
  }

  ghost function AfterLaunch(w: World, g: int, chunk: bool, s: Req): World
    requires g in w.reqs
  {
    World(w.reqs[g := s], if chunk then w.pending else w.pending - {g},
      if CanDecode(s) then w.running + {g} else w.running - {g}, w.owners, w.live[w.reqs[g].uid := g])
  }

  lemma LaunchWorld(w: World, g: int, flight: seq<Ref>, ref: Ref, s: Req, ids: TokenIds)
    requires WorldOk(w, flight, ids) && g in w.reqs && ref.gen == g && ref.epoch == w.reqs[g].life.nextEpoch
    requires w.reqs[g].life.state == Active && s.uid == w.reqs[g].uid && (s.whole <==> !ref.chunk)
    requires (w.reqs[g].whole ==> s.whole)
    requires RecOk(s, g, Marks(!s.whole, CanDecode(s), false, true), flight + [ref], ids)
    ensures WorldOk(AfterLaunch(w, g, ref.chunk, s), flight + [ref], ids)
  {
    hide TokensOf, PositionsOf, EpochsOf, Grammatical, LengthsOk;
    var v := AfterLaunch(w, g, ref.chunk, s);
    assert RecOk(w.reqs[g], g, MarksOf(w, g), flight, ids);
    FlightAppends(flight, ref);
    EpochUnused(flight, ref, w.reqs[g].life.outstanding);
    assert MarksOf(v, g) == Marks(!s.whole, CanDecode(s), false, true);
    OneStep(w, v, g, flight, flight + [ref], ids);
  }

  /** Everything is in order after a launch: no check can raise, and the requests and the
      rest follow. */
  lemma LaunchOk(w: World, last: seq<Ref>, ongoing: seq<Ref>, ids: TokenIds, b: Books, maxSeqLen: nat, g: int, ref: Ref)
    requires WorldOk(w, last + ongoing, ids) && OncePerRequest(last) && OncePerRequest(ongoing)
    requires BooksOk(w.reqs, b, maxSeqLen)
    requires InSequence(w.reqs, last + ongoing) && g in w.reqs && w.reqs[g].life.state == Active
    requires NotInFlight(ongoing, g)
    requires w.reqs[g].slot == -1 ==> b.free != []
    requires Launchable(w.reqs[g], ref.from, ref.at, ref.chunk) && ref.gen == g && ref.epoch == w.reqs[g].life.nextEpoch
    requires !ref.chunk ==>
      Allowed(StateAfter(w.reqs[g].start, w.reqs[g].committed, ids), LastToken(w.reqs[g].sampled), ref.token, ids)
    ensures w.reqs[g].slot >= -1 && Issue(w.reqs[g].life).Some?
    ensures var s := Issued(w.reqs[g], Issue(w.reqs[g].life).value.0, ref, SlotOf(b, w.reqs[g].slot), ref.at);
            && s.slot >= 0
            && WorldOk(AfterLaunch(w, g, ref.chunk, s), last + (ongoing + [ref]), ids)
            && OncePerRequest(ongoing + [ref])
            && InSequence(w.reqs[g := s], last + (ongoing + [ref]))
            && BooksOk(w.reqs[g := s], WithSlot(b, w.reqs[g].slot, g), maxSeqLen)
  {
    hide WorldOk, BooksOk, RecOk, Allowed, StateAfter, MarksOf, LastToken, WithSlot, TokensOf, EpochsOf, EpochsApart,
      OncePerRequest, InSequence, NotInFlight;
    var r, flight := w.reqs[g], last + ongoing;
    RecordOf(w, g, flight, ids);
    NoneOngoing(last, ongoing, g);
    FreeSlot(w.reqs, b, maxSeqLen, g);
    IssuedOk(r, g, MarksOf(w, g), flight, ref, SlotOf(b, r.slot), ref.at, ids);
    var s := Issued(r, Issue(r.life).value.0, ref, SlotOf(b, r.slot), ref.at);
    LaunchRest(w.reqs, b, maxSeqLen, g, s);
    LaunchWorld(w, g, flight, ref, s, ids);
    NextOnce(ongoing, ref);
    if r.slot == -1 {
      WaitingNotInFlight(w, flight, ids, g);
    }
    NextInSequence(w.reqs, flight, ref, s);
    assert last + (ongoing + [ref]) == flight + [ref];
  }

  /** Every position a launch computes has a rotary embedding. */
  lemma WithinBound(w: World, flight: seq<Ref>, ids: TokenIds, g: int, from: nat, to: nat, chunk: bool)
    requires WorldOk(w, flight, ids) && g in w.reqs && Launchable(w.reqs[g], from, to, chunk)
    ensures 0 < to <= w.reqs[g].prompt + w.reqs[g].output
  {
    hide TokensOf, PositionsOf, EpochsOf, Grammatical;
    RecordOf(w, g, flight, ids);
  }

  lemma NoneOngoing(last: seq<Ref>, ongoing: seq<Ref>, g: int)
    requires OncePerRequest(last) && OncePerRequest(ongoing) && NotInFlight(ongoing, g)
    ensures |TokensOf(last + ongoing, g)| <= 1
  {
    FewTokens(last, ongoing, g);
  }

  lemma NextOnce(ongoing: seq<Ref>, ref: Ref)
    requires OncePerRequest(ongoing) && NotInFlight(ongoing, ref.gen)
    ensures OncePerRequest(ongoing + [ref])
  {
    OnceMore(ongoing, ref);
  }

  lemma FreeSlot(reqs: map<int, Req>, b: Books, maxSeqLen: nat, g: int)
    requires BooksOk(reqs, b, maxSeqLen) && g in reqs && reqs[g].slot >= -1 && (reqs[g].slot == -1 ==> b.free != [])
    ensures SlotOf(b, reqs[g].slot) >= 0
  {
    hide AllReplies, RetiredOnce, UidsSeen, Admitted;
  }

  /** A decode step computes the position where the previous forward wrote its sample. */
  lemma DecodesNext(w: World, g: int, flight: seq<Ref>, ids: TokenIds)
    requires WorldOk(w, flight, ids) && g in w.reqs && CanDecode(w.reqs[g])
    ensures Launchable(w.reqs[g], w.reqs[g].cached, w.reqs[g].device, false)
  {
    hide TokensOf, PositionsOf, EpochsOf, Grammatical;
    RecordOf(w, g, flight, ids);
  }

  // ----- forwards in sequence

  /** Records that keep what is computed, or have nothing in flight. */
  lemma SameSequence(before: map<int, Req>, after: map<int, Req>, flight: seq<Ref>)
    requires InSequence(before, flight)
    requires forall g :: g in after ==> (g in before && after[g].cached == before[g].cached) || NotInFlight(flight, g)
    ensures InSequence(after, flight)
  {
    forall g | g in after ensures Follow(flight, g, after[g].cached) {
      if NotInFlight(flight, g) {
        NoneFollow(flight, g, after[g].cached);
      } else {
        assert Follow(flight, g, before[g].cached);
      }
    }
  }

  ghost predicate NotInFlight(flight: seq<Ref>, g: int) {
    forall i :: 0 <= i < |flight| ==> flight[i].gen != g
  }

  lemma RestInSequence(reqs: map<int, Req>, flight: seq<Ref>)
    requires InSequence(reqs, flight) && flight != []
    ensures InSequence(reqs, flight[1..])
  {
    forall g | g in reqs ensures Follow(flight[1..], g, reqs[g].cached) {
      assert Follow(flight, g, reqs[g].cached);
    }
  }

  /** The next forward of a request joins the sequence. */
  lemma NextInSequence(reqs: map<int, Req>, flight: seq<Ref>, ref: Ref, s: Req)
    requires InSequence(reqs, flight) && ref.gen in reqs && s.cached == ref.at && ref.from < ref.at
    requires ref.from == reqs[ref.gen].cached || NotInFlight(flight, ref.gen)
    ensures InSequence(reqs[ref.gen := s], flight + [ref])
  {
    var now := reqs[ref.gen := s];
    forall g | g in now ensures Follow(flight + [ref], g, now[g].cached) {
      assert Follow(flight, g, reqs[g].cached);
      if g == ref.gen {
        FollowAppend(flight, ref, reqs[g].cached);
      } else {
        FollowOther(flight, ref, g, reqs[g].cached);
      }
    }
  }

  /** Nothing of a request without a slot is in flight. */
  lemma WaitingNotInFlight(w: World, flight: seq<Ref>, ids: TokenIds, g: int)
    requires WorldOk(w, flight, ids) && g in w.reqs && w.reqs[g].slot == -1
    ensures NotInFlight(flight, g)
  {
    hide TokensOf, PositionsOf, Grammatical;
    RecordOf(w, g, flight, ids);
    forall i | 0 <= i < |flight| ensures flight[i].gen != g {
      assert flight[i].epoch in EpochsOf(flight, flight[i].gen);
    }
  }

  /** The oldest sample of an active request in flight is at most two positions behind the
      device length. */
  lemma FrontPosition(w: World, flight: seq<Ref>, ids: TokenIds)
    requires WorldOk(w, flight, ids) && flight != [] && flight[0].gen in w.reqs && !flight[0].chunk
    requires |TokensOf(flight, flight[0].gen)| <= 2 && w.reqs[flight[0].gen].life.state == Active
    ensures w.reqs[flight[0].gen].device == w.reqs[flight[0].gen].cached + 1 <= flight[0].at + 2
  {
    hide TokensOf, EpochsOf, Grammatical;
    var g := flight[0].gen;
    RecordOf(w, g, flight, ids);
    assert w.reqs[g].whole;
    assert PositionsOf(flight, g)[0] == flight[0].at;
  }

  /** When a result of a request is read, every other forward of it in flight starts where
      this one ended or later, and all of them end within what is computed; when the
      request decodes, at most one position has been computed since. */
  lemma RestStartsLater(w: World, flight: seq<Ref>, ids: TokenIds)
    requires WorldOk(w, flight, ids) && InSequence(w.reqs, flight) && flight != [] && flight[0].gen in w.reqs
    requires |TokensOf(flight, flight[0].gen)| <= 2
    ensures flight[0].at <= w.reqs[flight[0].gen].cached
    ensures flight[0].at == FirstStart(flight[1..], flight[0].gen, w.reqs[flight[0].gen].cached)
    ensures forall i :: 1 <= i < |flight| && flight[i].gen == flight[0].gen ==> flight[0].at <= flight[i].from
    ensures w.reqs[flight[0].gen].life.state == Active && !flight[0].chunk ==>
      w.reqs[flight[0].gen].cached <= flight[0].at + 1
  {
    hide TokensOf, EpochsOf, Grammatical;
    var g := flight[0].gen;
    RecordOf(w, g, flight, ids);
    assert Follow(flight, g, w.reqs[g].cached);
    FollowBounds(flight[1..], g, w.reqs[g].cached);
    if w.reqs[g].life.state == Active && !flight[0].chunk {
      FrontPosition(w, flight, ids);
    }
    forall i | 1 <= i < |flight| && flight[i].gen == g ensures flight[0].at <= flight[i].from {
      assert flight[i] == flight[1..][i - 1];
    }
  }

  lemma PendingRecord(w: World, g: int, flight: seq<Ref>, ids: TokenIds)
    requires WorldOk(w, flight, ids) && g in w.pending
    ensures g in w.reqs && w.reqs[g].life.state == Active && !w.reqs[g].whole && w.reqs[g].slot >= -1
  {
    assert RecOk(w.reqs[g], g, MarksOf(w, g), flight, ids);
  }

  lemma RunningRecord(w: World, g: int, flight: seq<Ref>, ids: TokenIds)
    requires WorldOk(w, flight, ids) && g in w.running
    ensures g in w.reqs && w.reqs[g].life.state == Active && CanDecode(w.reqs[g]) && w.reqs[g].slot >= 0
  {
    assert RecOk(w.reqs[g], g, MarksOf(w, g), flight, ids);
  }

  // ----- results

  /** The lists after request `g` has become `s` by a result or an abort. */
  ghost function AfterResult(w: World, g: int, s: Req): World
    requires g in w.reqs
  {
    var out := if s.life.state == Active then {} else {g};
    World(w.reqs[g := s], w.pending - out, w.running - out,
      if s.life.state == TerminalPending then w.owners + {g} else w.owners - {g},
      if s.life.state == Retired then w.live - {w.reqs[g].uid} else w.live)
  }

  lemma ResultWorld(w: World, g: int, m: Marks, flight: seq<Ref>, after: seq<Ref>, s: Req, ids: TokenIds)
    requires WorldOk(w, flight, ids) && g in w.reqs && s.uid == w.reqs[g].uid && s.whole == w.reqs[g].whole
    requires after == flight || (flight != [] && flight[0].gen == g && after == flight[1..])
    requires if s.life.state == Active then m == MarksOf(w, g) && w.reqs[g].life.state == Active
             else
               var owner := s.life.state == TerminalPending;
               m == Marks(false, false, owner, owner && MarksOf(w, g).live)
    requires RecOk(s, g, m, after, ids)
    ensures WorldOk(AfterResult(w, g, s), after, ids)
  {
    hide TokensOf, PositionsOf, EpochsOf, Grammatical, LengthsOk;
    var v := AfterResult(w, g, s);
    assert RecOk(w.reqs[g], g, MarksOf(w, g), flight, ids);
    if after != flight {
      FlightFront(flight);
    }
    assert MarksOf(v, g) == m;
    OneStep(w, v, g, flight, after, ids);
  }

  lemma ReplyBooks(w: World, flight: seq<Ref>, ids: TokenIds, b: Books, maxSeqLen: nat, g: int, s: Req, e: Reply)
    requires WorldOk(w, flight, ids) && BooksOk(w.reqs, b, maxSeqLen) && g in w.reqs && w.reqs[g].life.state == Active
    requires s.uid == w.reqs[g].uid && s.prompt == w.reqs[g].prompt && s.output == w.reqs[g].output
    requires s.slot == w.reqs[g].slot && s.ignoreEos == w.reqs[g].ignoreEos && s.life.state != Retired
    requires s.committed == w.reqs[g].committed + [e.token] && RepliesLast(e, s, b.eos)
    requires (s.life.state == Active ==> e.finish.None?)
    ensures BooksOk(w.reqs[g := s], b.(log := b.log + [e]), maxSeqLen)
  {
    hide LogOk, FinishedIn, Replied, RecsOk;
    ReplyToken(b.log, w, g, e, s, b.eos);
    RecordUpdated(w.reqs, b, maxSeqLen, g, s);
    SlotKept(w.reqs, b.free, b.c4, b.c128, g, s);
    assert w.reqs[g].uid in b.seen;
  }

  lemma QuietBooks(reqs: map<int, Req>, b: Books, maxSeqLen: nat, g: int, s: Req)
    requires BooksOk(reqs, b, maxSeqLen) && g in reqs && reqs[g].life.state != Retired && s.life.state != Retired
    requires s == reqs[g].(life := s.life) && (s.life.state == Active ==> reqs[g].life.state == Active)
    ensures BooksOk(reqs[g := s], b, maxSeqLen)
  {
    hide LogOk, FinishedIn, Replied;
    RecordUpdated(reqs, b, maxSeqLen, g, s);
    RepliesKept(b.log, reqs, g, s, b.eos);
    SlotKept(reqs, b.free, b.c4, b.c128, g, s);
  }

  function AfterRetire(b: Books, slot: int, g: int): Books {
    if 0 <= slot < |b.c4| && slot < |b.c128| then
      b.(free := b.free + [slot], c4 := b.c4[slot := -1], c128 := b.c128[slot := -1], retired := b.retired + [g])
    else b
  }

  /** A retired request returns its slot, which both tags say it owned. */
  lemma RetireBooks(reqs: map<int, Req>, b: Books, maxSeqLen: nat, g: int)
    requires BooksOk(reqs, b, maxSeqLen) && g in reqs && Holds(reqs[g]) && MarkReleased(reqs[g].life).Some?
    ensures var s := reqs[g].slot; 0 <= s < |b.c4| == |b.c128| && b.c4[s] == g && b.c128[s] == g && g !in b.retired
    ensures BooksOk(reqs[g := reqs[g].(life := MarkReleased(reqs[g].life).value)], AfterRetire(b, reqs[g].slot, g),
      maxSeqLen)
  {
    hide LogOk, FinishedIn, Replied;
    var s := reqs[g].(life := MarkReleased(reqs[g].life).value);
    var now := reqs[g := s];
    RepliesKept(b.log, reqs, g, s, b.eos);
    SlotReturned(reqs, b.free, b.c4, b.c128, g, s);
    forall h | h in now ensures h in b.retired + [g] <==> now[h].life.state == Retired {
      assert h in reqs && (h != g ==> now[h] == reqs[h]);
    }
    forall h | h in now ensures now[h].uid in b.seen {
      assert h in reqs && (h != g ==> now[h] == reqs[h]);
    }
    forall h | h in now
      ensures h < b.nextGeneration && now[h].prompt >= 1 && now[h].prompt + now[h].output <= maxSeqLen
    {
      assert h in reqs && (h != g ==> now[h] == reqs[h]);
    }
  }

  /** One prefill share: the prompt tokens of request `gen` from `from` to `to`. */
  datatype Grant = Grant(gen: int, from: nat, to: nat)

  /** The forward of a share: the rest of the prompt, or a chunk of it. */
  ghost predicate ForShare(ref: Ref, share: Grant, reqs: map<int, Req>) {
    && share.gen in reqs && ref.gen == share.gen && ref.from == share.from && ref.at == share.to
    && (ref.chunk <==> share.to < reqs[share.gen].prompt)
  }

  /** Requests of a plan that need a table slot. */
  function NewSlots(plan: seq<Grant>, reqs: map<int, Req>): nat {
    if plan == [] then 0
    else (if plan[0].gen in reqs && reqs[plan[0].gen].slot == -1 then 1 else 0) + NewSlots(plan[1..], reqs)
  }

  lemma {:induction false} NewSlotsLast(plan: seq<Grant>, reqs: map<int, Req>)
    requires plan != []
    ensures var n := |plan| - 1;
            NewSlots(plan, reqs) == NewSlots(plan[..n], reqs)
              + if plan[n].gen in reqs && reqs[plan[n].gen].slot == -1 then 1 else 0
    decreases |plan|
  {
    if |plan| > 1 {
      NewSlotsLast(plan[1..], reqs);
      assert plan[1..][..|plan| - 2] == plan[..|plan| - 1][1..];
    }
  }

  // ----- reservations

  /** Tokens a running request may still need, with what it takes to fill its last page. */
  function RunningNeed(r: Req, ps: nat): nat
    requires CanDecode(r) && ps >= 1
  {
    r.prompt + r.output - r.device + (ps - 1)
  }

  /** Tokens a partly computed prompt may still need: its rest and its output. */
  function ResidentNeed(r: Req): nat
    requires r.cached <= r.prompt
  {
    r.prompt - r.cached + r.output
  }

  ghost predicate Runs(r: Req) {
    r.life.state == Active && CanDecode(r)
  }

  ghost predicate Resident(r: Req) {
    Waits(r) && r.slot >= 0 && r.cached <= r.prompt
  }

  ghost function RunningNeeds(reqs: map<int, Req>, ps: nat): map<int, nat>
    requires ps >= 1
  {
    map g | g in reqs && Runs(reqs[g]) :: RunningNeed(reqs[g], ps)
  }

  ghost function ResidentNeeds(reqs: map<int, Req>): map<int, nat> {
    map g | g in reqs && Resident(reqs[g]) :: ResidentNeed(reqs[g])
  }

  /** What must stay available for the requests that have been admitted. */
  ghost function Reserved(reqs: map<int, Req>, ps: nat): nat
    requires ps >= 1
  {
    Total(RunningNeeds(reqs, ps)) + Total(ResidentNeeds(reqs))
  }

  /** No request holds a table slot. */
  ghost predicate NobodyHolds(reqs: map<int, Req>) {
    forall g :: g in reqs ==> !Holds(reqs[g])
  }

  lemma NothingReserved(w: World, flight: seq<Ref>, ids: TokenIds, ps: nat)
    requires WorldOk(w, flight, ids) && NobodyHolds(w.reqs) && ps >= 1
    ensures Reserved(w.reqs, ps) == 0
  {
    hide TokensOf, PositionsOf, EpochsOf, Grammatical;
    forall g | g in w.reqs ensures !Runs(w.reqs[g]) && !Resident(w.reqs[g]) {
      RecordOf(w, g, flight, ids);
    }
    assert RunningNeeds(w.reqs, ps) == map[] && ResidentNeeds(w.reqs) == map[];
  }

  lemma AllSlotsFree(reqs: map<int, Req>, b: Books, maxSeqLen: nat)
    requires BooksOk(reqs, b, maxSeqLen) && NobodyHolds(reqs) && b.free == []
    ensures |b.c4| == 0
  {
    hide BooksOk, Holds;
    if |b.c4| > 0 {
      SlotPartition(reqs, b, maxSeqLen, 0);
    }
  }

  lemma NeedsStart(needs: map<int, nat>)
    ensures Restrict(needs, needs.Keys) == needs
    ensures Total(Restrict(needs, {})) == 0
  {
    assert Restrict(needs, {}) == map[];
  }

  /** One more key of the sum has been looked at. */
  lemma NeedsNext(needs: map<int, nat>, todo: set<int>, g: int)
    requires g in todo && g in needs
    ensures Total(Restrict(needs, todo)) == needs[g] + Total(Restrict(needs, todo - {g}))
  {
    TotalExtract(Restrict(needs, todo), g);
    assert Restrict(needs, todo) - {g} == Restrict(needs, todo - {g});
  }

  lemma NeedAt(reqs: map<int, Req>, ps: nat, g: int)
    requires ps >= 1 && g in RunningNeeds(reqs, ps)
    ensures g in reqs && CanDecode(reqs[g]) && RunningNeeds(reqs, ps)[g] == RunningNeed(reqs[g], ps)
  {
  }

  lemma ResidentAt(reqs: map<int, Req>, g: int)
    requires g in ResidentNeeds(reqs)
    ensures g in reqs && reqs[g].cached <= reqs[g].prompt && ResidentNeeds(reqs)[g] == ResidentNeed(reqs[g])
  {
  }

  lemma NeedsListed(w: World, flight: seq<Ref>, ids: TokenIds, ps: nat)
    requires WorldOk(w, flight, ids) && ps >= 1
    ensures w.running == RunningNeeds(w.reqs, ps).Keys
    ensures (set g | g in w.pending && g in w.reqs && w.reqs[g].slot >= 0) == ResidentNeeds(w.reqs).Keys
  {
    hide LifeOk, FlightOk, TokensOf, PositionsOf, EpochsOf, CanDecode;
    forall g | g in w.reqs
      ensures g in w.running <==> g in RunningNeeds(w.reqs, ps)
      ensures g in w.pending && w.reqs[g].slot >= 0 <==> g in ResidentNeeds(w.reqs)
    {
      ListedWhere(w, g, flight, ids);
      RecordOf(w, g, flight, ids);
    }
    forall g | g in w.running ensures g in RunningNeeds(w.reqs, ps) {
      RunningRecord(w, g, flight, ids);
    }
  }

  lemma PositionsLeft(w: World, flight: seq<Ref>, ids: TokenIds, g: int)
    requires WorldOk(w, flight, ids) && g in w.reqs
    ensures w.reqs[g].prompt >= 1 && w.reqs[g].output >= 1
  {
    hide TokensOf, PositionsOf, EpochsOf;
    RecordOf(w, g, flight, ids);
  }

  ghost predicate LaunchedIn(before: map<int, Req>, after: map<int, Req>, ref: Ref) {
    ref.gen in before && ref.gen in after && Launched(before[ref.gen], after[ref.gen], ref, ref.gen, ref.at, ref.chunk)
  }

  /** The records after a batch: its requests were launched, the others are as before. */
  ghost predicate BatchLaunched(before: map<int, Req>, after: map<int, Req>, batch: seq<Ref>) {
    && after.Keys == before.Keys
    && (forall i :: 0 <= i < |batch| ==> LaunchedIn(before, after, batch[i]))
    && (forall g :: g in before && g !in GensOf(batch) ==> after[g] == before[g])
  }

  lemma NothingLaunched(reqs: map<int, Req>)
    ensures BatchLaunched(reqs, reqs, [])
  {
  }

  lemma OneLaunched(before: map<int, Req>, mid: map<int, Req>, after: map<int, Req>, batch: seq<Ref>, ref: Ref)
    requires BatchLaunched(before, mid, batch) && (forall i :: 0 <= i < |batch| ==> batch[i].gen != ref.gen)
    requires ref.gen in mid && ref.gen in after && after == mid[ref.gen := after[ref.gen]]
    requires Launched(mid[ref.gen], after[ref.gen], ref, ref.gen, ref.at, ref.chunk)
    ensures BatchLaunched(before, after, batch + [ref])
  {
    hide Launched;
    GensGrow(batch, ref);
    assert ref.gen !in GensOf(batch);
    var all := batch + [ref];
    forall i | 0 <= i < |all|
      ensures LaunchedIn(before, after, all[i])
    {
      if i < |batch| {
        assert all[i] == batch[i];
      }
    }
  }

  /** The requests of a batch. */
  ghost function GensOf(batch: seq<Ref>): set<int> {
    set i | 0 <= i < |batch| :: batch[i].gen
  }

  lemma NoGens()
    ensures GensOf([]) == {}
  {
  }

  lemma SomeGen(batch: seq<Ref>)
    ensures batch != [] ==> GensOf(batch) != {}
  {
    assert batch != [] ==> batch[0].gen in GensOf(batch);
  }

  lemma GensGrow(batch: seq<Ref>, ref: Ref)
    ensures GensOf(batch + [ref]) == GensOf(batch) + {ref.gen}
  {
    var all := batch + [ref];
    forall h | h in GensOf(batch) + {ref.gen} ensures h in GensOf(all) {
      if h in GensOf(batch) {
        var i :| 0 <= i < |batch| && batch[i].gen == h;
        assert all[i] == batch[i];
      } else {
        assert all[|batch|] == ref;
      }
    }
  }

  lemma InGens(batch: seq<Ref>, i: nat)
    requires i < |batch|
    ensures batch[i].gen in GensOf(batch)
  {
  }

  lemma GenAbsent(batch: seq<Ref>, g: int)
    requires g !in GensOf(batch)
    ensures forall i :: 0 <= i < |batch| ==> batch[i].gen != g
  {
  }

  lemma SomeMember(s: set<int>)
    requires s != {}
    ensures exists g :: g in s
  {
    assert (forall g :: g !in s) ==> s == {};
  }

  /** A terminal request without forwards in flight is retired. */
  function Final(s: Req): Req {
    if ReadyToRelease(s.life) then s.(life := MarkReleased(s.life).value) else s
  }

  lemma ListedWhere(w: World, g: int, flight: seq<Ref>, ids: TokenIds)
    requires WorldOk(w, flight, ids) && g in w.reqs
    ensures var r := w.reqs[g];
            && (g in w.pending <==> r.life.state == Active && !r.whole)
            && (g in w.running <==> r.life.state == Active && CanDecode(r))
            && (g in w.owners <==> r.life.state == TerminalPending)
            && (r.uid in w.live && w.live[r.uid] == g <==> Holds(r))
  {
    assert RecOk(w.reqs[g], g, MarksOf(w, g), flight, ids);
  }

  lemma FrontRequest(w: World, last: seq<Ref>, ongoing: seq<Ref>, ids: TokenIds)
    requires WorldOk(w, last + ongoing, ids) && last != []
    ensures last[0].gen in w.reqs && (!last[0].chunk ==> w.reqs[last[0].gen].whole)
    ensures (last + ongoing)[0] == last[0] && (last + ongoing)[1..] == last[1..] + ongoing
  {
    assert (last + ongoing)[0] == last[0];
  }

  lemma BatchRest(batch: seq<Ref>)
    requires OncePerRequest(batch) && batch != []
    ensures OncePerRequest(batch[1..])
  {
  }

  /** The lists follow when a result or an abort gives request `g` the record `s`. */
  lemma SameLists(w: World, v: World, g: int, flight: seq<Ref>, s: Req, ids: TokenIds)
    requires WorldOk(w, flight, ids) && g in w.reqs && v.reqs == w.reqs[g := s]
    requires s.life.state == Active ==> w.reqs[g].life.state == Active
    requires v.pending == w.pending - (if s.life.state == Active then {} else {g})
    requires v.running == w.running - (if s.life.state == Active then {} else {g})
    requires v.owners == if s.life.state == TerminalPending then w.owners + {g} else w.owners - {g}
    requires v.live == if s.life.state == Retired then w.live - {w.reqs[g].uid} else w.live
    ensures v == AfterResult(w, g, s)
  {
  }

  /** What happens to a record when its front forward is processed; `eos` is the
      token that ends a sequence. */
  function Processed(r: Req, ref: Ref, eos: int): Req
    requires ref.epoch in r.life.outstanding
  {
    var done := r.life.outstanding - {ref.epoch};
    if r.life.state != Active || ref.chunk then r.(life := r.life.(outstanding := done))
    else
      var s := Appended(r, ref.token);
      s.(life := r.life.(outstanding := done, state := if Finishes(s, ref.token, eos) then TerminalPending else Active))
  }

  lemma ProcessedKeeps(r: Req, ref: Ref, eos: int)
    requires ref.epoch in r.life.outstanding && r.life.state != Retired
    ensures var s := Processed(r, ref, eos); var sampled := r.life.state == Active && !ref.chunk;
            && s.uid == r.uid && s.prompt == r.prompt && s.output == r.output && s.slot == r.slot
            && s.life.state != Retired
            && (s.life.state == Active ==> r.life.state == Active)
            && (!sampled ==> s == r.(life := s.life) && s.life.state == r.life.state)
            && s.ignoreEos == r.ignoreEos && (sampled ==> s.committed == r.committed + [ref.token])
            && (sampled ==> (s.life.state == Active <==> !Finishes(s, ref.token, eos)))
            && (Holds(s) <==> s.slot >= 0)
  {
  }

  predicate ReachedEos(s: Req, token: int, eos: int) {
    !s.ignoreEos && token == eos
  }

  predicate Finishes(s: Req, token: int, eos: int) {
    |s.committed| == s.output || ReachedEos(s, token, eos)
  }

  /** The reply for a token that has reached the host. */
  function ReplyFor(s: Req, token: int, eos: int): Reply {
    var reason := if ReachedEos(s, token, eos) then Stop else Length;
    Reply(s.uid, token, if Finishes(s, token, eos) then Some(Finish(reason, s.prompt, |s.committed|)) else None)
  }

  /** What reading the sample of an active request does, in full: the token reaches host and
      user, and the request goes on unless this is the last token admitted or the end of
      sequence that it respects, which the reply then names.  Anything else is not replied. */
  ghost predicate RowReplied(r: Req, s: Req, ref: Ref, before: seq<Reply>, after: seq<Reply>, eos: int) {
    var stop := !r.ignoreEos && ref.token == eos;
    var full := |r.committed| + 1 == r.output;
    && s.output == r.output && s.whole == r.whole &&
    if r.life.state == Active && !ref.chunk then
      && s.committed == r.committed + [ref.token] && (s.life.state == Active <==> !stop && !full)
      && after == before + [Reply(r.uid, ref.token,
           if stop || full then Some(Finish(if stop then Stop else Length, r.prompt, |r.committed| + 1)) else None)]
    else
      s.committed == r.committed && (s.life.state == Active <==> r.life.state == Active) && after == before
  }

  lemma RowTells(r: Req, ref: Ref, before: seq<Reply>, after: seq<Reply>, eos: int)
    requires ref.epoch in r.life.outstanding
    requires after == if r.life.state == Active && !ref.chunk
                      then before + [ReplyFor(Processed(r, ref, eos), ref.token, eos)] else before
    ensures RowReplied(r, Final(Processed(r, ref, eos)), ref, before, after, eos)
  {
  }

  /** Every row can be processed: the forward is outstanding, an active request has
      room for the token, and the result keeps the request in order. */
  lemma RowOk(w: World, g: int, flight: seq<Ref>, ids: TokenIds)
    requires WorldOk(w, flight, ids) && flight != [] && flight[0].gen == g && g in w.reqs && |TokensOf(flight, g)| <= 2
    requires !flight[0].chunk ==> w.reqs[g].whole
    ensures flight[0].epoch in w.reqs[g].life.outstanding
    ensures w.reqs[g].life.state == Active && !flight[0].chunk ==>
      |w.reqs[g].committed| < w.reqs[g].output && w.reqs[g].cached <= w.reqs[g].prompt + |w.reqs[g].committed| + 1
    ensures w.reqs[g].life.state != Retired && w.reqs[g].slot >= 0
    ensures WorldOk(AfterResult(w, g, Final(Processed(w.reqs[g], flight[0], ids.eos))), flight[1..], ids)
  {
    hide TokensOf, PositionsOf, EpochsOf, Grammatical, LengthsOk, MarksOf, OnlyAt, FlightOk, EpochsApart, AfterResult;
    RecordOf(w, g, flight, ids);
    var r, ref := w.reqs[g], flight[0];
    FrontInFlight(flight);
    var s := Processed(r, ref, ids.eos);
    var m := MarksOf(w, g);
    ListedWhere(w, g, flight, ids);
    MarkValues(w, g);
    if r.life.state != Active {
      DroppedOk(r, g, m, flight, ids);
      ResultWorld(w, g, Marks(false, false, s.life.outstanding != {}, s.life.outstanding != {}), flight, flight[1..],
        Final(s), ids);
    } else if ref.chunk {
      ChunkProcessedOk(r, g, m, flight, ids);
      ResultWorld(w, g, m, flight, flight[1..], Final(s), ids);
    } else {
      CommitRoom(r, g, m, flight, ids);
      var finished := Finishes(Appended(r, ref.token), ref.token, ids.eos);
      ProcessedOk(r, g, m, flight, ids, finished);
      ResultWorld(w, g, if finished then Marks(false, false, s.life.outstanding != {}, s.life.outstanding != {}) else m,
        flight, flight[1..], Final(s), ids);
    }
  }

  /** The books after the next result of request `g`: a committed token is replied. */
  function BooksAfterRow(b: Books, r: Req, ref: Ref, eos: int): Books
    requires ref.epoch in r.life.outstanding
  {
    if r.life.state == Active
      && !ref.chunk then b.(log := b.log + [ReplyFor(Processed(r, ref, eos), ref.token, eos)]) else b
  }

  /** A result keeps the books, up to the return of what a retired request holds. */
  lemma RowBooks(w: World, last: seq<Ref>, ongoing: seq<Ref>, ids: TokenIds, b: Books, maxSeqLen: nat)
    requires WorldOk(w, last + ongoing, ids) && BooksOk(w.reqs, b, maxSeqLen) && last != []
    requires OncePerRequest(last) && OncePerRequest(ongoing) && b.eos == ids.eos
    ensures var ref := last[0];
            && ref.gen in w.reqs && ref.epoch in w.reqs[ref.gen].life.outstanding && Holds(w.reqs[ref.gen])
            && BooksOk(w.reqs[ref.gen := Processed(w.reqs[ref.gen], ref, ids.eos)],
                 BooksAfterRow(b, w.reqs[ref.gen], ref, ids.eos), maxSeqLen)
  {
    hide WorldOk, BooksOk, RecOk, EpochsOf, TokensOf, OncePerRequest, AfterResult, MarksOf, CanDecode, Replied,
      Processed;
    var ref := last[0];
    FrontRequest(w, last, ongoing, ids);
    FewTokens(last, ongoing, ref.gen);
    RowOk(w, ref.gen, last + ongoing, ids);
    var r := w.reqs[ref.gen];
    ProcessedKeeps(r, ref, ids.eos);
    var s := Processed(r, ref, ids.eos);
    if r.life.state == Active && !ref.chunk {
      ReplyBooks(w, last + ongoing, ids, b, maxSeqLen, ref.gen, s, ReplyFor(s, ref.token, ids.eos));
    } else {
      QuietBooks(w.reqs, b, maxSeqLen, ref.gen, s);
    }
  }

  /** A result keeps requests and flight in order. */
  lemma RowWorld(w: World, last: seq<Ref>, ongoing: seq<Ref>, ids: TokenIds)
    requires WorldOk(w, last + ongoing, ids) && last != [] && OncePerRequest(last) && OncePerRequest(ongoing)
    requires InSequence(w.reqs, last + ongoing)
    ensures var ref := last[0];
            && ref.gen in w.reqs && ref.epoch in w.reqs[ref.gen].life.outstanding
            && var s := Final(Processed(w.reqs[ref.gen], ref, ids.eos));
               && WorldOk(AfterResult(w, ref.gen, s), last[1..] + ongoing, ids) && OncePerRequest(last[1..])
               && InSequence(w.reqs[ref.gen := s], last[1..] + ongoing)
  {
    hide WorldOk, RecOk, EpochsOf, TokensOf, OncePerRequest, AfterResult, MarksOf, CanDecode, Processed, Final,
      InSequence;
    var ref := last[0];
    FrontRequest(w, last, ongoing, ids);
    FewTokens(last, ongoing, ref.gen);
    RowOk(w, ref.gen, last + ongoing, ids);
    BatchRest(last);
    RestInSequence(w.reqs, last + ongoing);
    var s := Final(Processed(w.reqs[ref.gen], ref, ids.eos));
    ProcessedCached(w.reqs[ref.gen], ref, ids.eos);
    SameSequence(w.reqs, w.reqs[ref.gen := s], last[1..] + ongoing);
  }

  /** What reading forwards does to the requests: whoever is active afterwards was so before,
      may get as much, and has exactly the samples that were read on the host. */
  ghost predicate Hosted(before: map<int, Req>, last: seq<Ref>, after: map<int, Req>, rest: seq<Ref>) {
    && after.Keys == before.Keys
    && forall g {:trigger after[g]} :: g in after && after[g].life.state == Active ==>
         && before[g].life.state == Active && after[g].output == before[g].output && after[g].whole == before[g].whole
         && after[g].committed + TokensOf(rest, g) == before[g].committed + TokensOf(last, g)
  }

  lemma HostedNone(reqs: map<int, Req>, last: seq<Ref>)
    ensures Hosted(reqs, last, reqs, last)
  {
  }

  lemma HostedThrough(a: map<int, Req>, la: seq<Ref>, b: map<int, Req>, lb: seq<Ref>, c: map<int, Req>, lc: seq<Ref>)
    requires Hosted(a, la, b, lb) && Hosted(b, lb, c, lc)
    ensures Hosted(a, la, c, lc)
  {
    hide TokensOf;
    forall g | g in c && c[g].life.state == Active
      ensures a[g].life.state == Active && c[g].output == a[g].output && c[g].whole == a[g].whole
      ensures c[g].committed + TokensOf(lc, g) == a[g].committed + TokensOf(la, g)
    {
      assert b[g].life.state == Active;
    }
  }

  /** Nothing was read before the batch `last`. */
  lemma HostedLater(a: map<int, Req>, b: map<int, Req>, last: seq<Ref>, c: map<int, Req>)
    requires Hosted(a, [], b, []) && Hosted(b, last, c, [])
    ensures Hosted(a, last, c, [])
  {
    forall g | g in c && c[g].life.state == Active
      ensures a[g].life.state == Active && c[g].output == a[g].output && c[g].whole == a[g].whole
      ensures c[g].committed + TokensOf([], g) == a[g].committed + TokensOf(last, g)
    {
      assert b[g].life.state == Active && TokensOf([], g) == [];
      assert b[g].committed == b[g].committed + [] == a[g].committed + [] == a[g].committed;
    }
  }

  lemma HostedRow(reqs: map<int, Req>, last: seq<Ref>, s: Req, before: seq<Reply>, after: seq<Reply>, eos: int)
    requires last != [] && last[0].gen in reqs
    requires RowReplied(reqs[last[0].gen], s, last[0], before, after, eos)
    ensures Hosted(reqs, last, reqs[last[0].gen := s], last[1..])
  {
    hide TokensOf;
    var r, g, rest, now := reqs[last[0].gen], last[0].gen, last[1..], reqs[last[0].gen := s];
    forall h | h in now && now[h].life.state == Active
      ensures reqs[h].life.state == Active && now[h].output == reqs[h].output && now[h].whole == reqs[h].whole
      ensures now[h].committed + TokensOf(rest, h) == reqs[h].committed + TokensOf(last, h)
    {
      TokensHead(last, h);
      if h == g && !last[0].chunk {
        assert r.committed + ([last[0].token] + TokensOf(rest, g))
          == (r.committed + [last[0].token]) + TokensOf(rest, g);
      } else {
        assert [] + TokensOf(rest, h) == TokensOf(rest, h);
      }
    }
  }

  lemma TokensHead(last: seq<Ref>, g: int)
    requires last != []
    ensures TokensOf(last, g)
      == (if last[0].gen == g && !last[0].chunk then [last[0].token] else []) + TokensOf(last[1..], g)
  {
  }

  /** Requests come, and of those that were there only aborted ones change. */
  ghost predicate OthersKept(before: map<int, Req>, after: map<int, Req>) {
    forall g :: g in before && g in after ==> after[g] == before[g] || after[g].life.state != Active
  }

  lemma KeptSame(reqs: map<int, Req>)
    ensures OthersKept(reqs, reqs)
  {
  }

  lemma KeptMore(a: map<int, Req>, b: map<int, Req>, c: map<int, Req>, m: int, n: int)
    requires OthersKept(a, b) && OthersKept(b, c) && m <= n
    requires (forall g :: g in a ==> g < m) && forall g :: g in c ==> g in b || g >= n
    ensures OthersKept(a, c)
  {
  }

  lemma KeptAborted(before: map<int, Req>, after: map<int, Req>, uid: int)
    requires AbortedIn(before, after, uid)
    ensures OthersKept(before, after) && forall g :: g in after ==> g in before
  {
    hide Final, Aborted;
    forall g | g in before && g in after ensures after[g] == before[g] || after[g].life.state != Active {
      assert AbortOne(before, after, uid, g);
      AbortedUid(before[g]);
    }
  }

  lemma GenerationsBelow(reqs: map<int, Req>, b: Books, maxSeqLen: nat)
    requires BooksOk(reqs, b, maxSeqLen)
    ensures forall g :: g in reqs ==> g < b.nextGeneration
  {
    hide SlotsOk, AllReplies, RetiredOnce, UidsSeen;
    forall g | g in reqs ensures g < b.nextGeneration {
      assert reqs[g].prompt >= 1;
    }
  }

  lemma ProcessedCached(r: Req, ref: Ref, eos: int)
    requires ref.epoch in r.life.outstanding
    ensures Final(Processed(r, ref, eos)).cached == r.cached
  {
  }

  /** The waiting requests are the same, with the same prompts and progress. */
  ghost predicate WaitingKept(before: map<int, Req>, after: map<int, Req>) {
    && after.Keys == before.Keys
    && forall g {:trigger after[g]} :: g in before ==>
         && (Waits(after[g]) <==> Waits(before[g]))
         && after[g].prompt == before[g].prompt && after[g].cached == before[g].cached
         && after[g].slot == before[g].slot
  }

  /** A result leaves all waiting requests alone: at most the life of one goes on. */
  lemma ResultKeepsWaiting(before: map<int, Req>, g: int, ref: Ref, eos: int)
    requires g in before && ref.epoch in before[g].life.outstanding && (!ref.chunk ==> before[g].whole)
    ensures WaitingKept(before, before[g := Final(Processed(before[g], ref, eos))])
  {
  }

  lemma KeptThrough(a: map<int, Req>, b: map<int, Req>, c: map<int, Req>)
    requires WaitingKept(a, b) && WaitingKept(b, c)
    ensures WaitingKept(a, c)
  {
    hide Waits;
    forall g | g in a
      ensures (Waits(c[g]) <==> Waits(a[g])) && c[g].prompt == a[g].prompt && c[g].cached == a[g].cached
      ensures c[g].slot == a[g].slot
    {
      assert b[g].prompt == a[g].prompt;
    }
  }

  lemma FrontInFlight(flight: seq<Ref>)
    requires flight != []
    ensures flight[0].epoch in EpochsOf(flight, flight[0].gen)
  {
  }

  lemma MarkValues(w: World, g: int)
    requires g in w.reqs
    ensures MarksOf(w, g)
      == Marks(g in w.pending, g in w.running, g in w.owners, w.reqs[g].uid in w.live && w.live[w.reqs[g].uid] == g)
  {
  }

  // ----- aborts

  /** An active request that has been issued, made terminal between two forwards. */
  function Aborted(r: Req): Req {
    r.(life := r.life.(state := TerminalPending))
  }

  lemma AbortWorld(w: World, g: int, flight: seq<Ref>, ids: TokenIds)
    requires WorldOk(w, flight, ids) && g in w.reqs && w.reqs[g].life.state == Active && w.reqs[g].slot >= 0
    requires |TokensOf(flight, g)| <= 1
    ensures WorldOk(AfterResult(w, g, Final(Aborted(w.reqs[g]))), flight, ids)
    ensures w.reqs[g].whole ==> w.reqs[g].cached <= w.reqs[g].prompt + |w.reqs[g].committed|
  {
    hide TokensOf, PositionsOf, EpochsOf, Grammatical, LengthsOk, MarksOf, OnlyAt, FlightOk, EpochsApart, AfterResult;
    RecordOf(w, g, flight, ids);
    var r, s := w.reqs[g], Aborted(w.reqs[g]);
    ListedWhere(w, g, flight, ids);
    MarkValues(w, g);
    AbortedOk(r, g, MarksOf(w, g), flight, ids);
    ResultWorld(w, g, Marks(false, false, s.life.outstanding != {}, s.life.outstanding != {}), flight, flight, Final(s),
      ids);
  }

  lemma LeavesRest(reqs: map<int, Req>, b: Books, maxSeqLen: nat, g: int)
    requires BooksOk(reqs, b, maxSeqLen) && g in reqs && reqs[g].slot == -1 && reqs[g].life.state != Retired
    ensures BooksOk(reqs - {g}, b, maxSeqLen)
  {
    hide LogOk, FinishedIn, Replied;
    var now := reqs - {g};
    forall h | h in now ensures RepliesOk(b.log, now[h], b.eos) {
      assert RepliesOk(b.log, reqs[h], b.eos);
    }
    forall h | h in now ensures h >= 0 && (Holds(now[h]) ==> now[h].slot < |b.c4| && b.c4[now[h].slot] == h) {
      assert now[h] == reqs[h];
    }
    forall h | h in now ensures h in b.retired <==> now[h].life.state == Retired {
      assert now[h] == reqs[h];
    }
    forall i | 0 <= i < |b.retired| ensures b.retired[i] in now {
      assert b.retired[i] in b.retired;
    }
    forall h | h in now ensures now[h].uid in b.seen {
      assert now[h] == reqs[h];
    }
    forall h | h in now
      ensures h < b.nextGeneration && now[h].prompt >= 1 && now[h].prompt + now[h].output <= maxSeqLen
    {
      assert now[h] == reqs[h];
    }
  }

  lemma LiveRequest(w: World, flight: seq<Ref>, ids: TokenIds, uid: int)
    requires WorldOk(w, flight, ids) && uid in w.live
    ensures w.live[uid] in w.reqs && w.reqs[w.live[uid]].uid == uid && w.reqs[w.live[uid]].slot >= 0
    ensures w.reqs[w.live[uid]].life.state != Retired && !ReadyToRelease(w.reqs[w.live[uid]].life)
  {
    var g := w.live[uid];
    assert RecOk(w.reqs[g], g, MarksOf(w, g), flight, ids);
  }

  // ----- messages

  datatype Msg =
    | UserMsg(uid: int, inputLen: nat, maxTokens: nat, ignoreEos: bool, effort: Option<string>)
    | AbortMsg(uid: int)

  /** Well-formed messages whose user ids are new. */
  predicate MsgsOk(msgs: seq<Msg>, seen: set<int>)
    decreases |msgs|
  {
    if msgs == [] then true
    else match msgs[0]
      case AbortMsg(_) => MsgsOk(msgs[1..], seen)
      case UserMsg(uid, inputLen, maxTokens, _, effort) =>
        uid !in seen && inputLen >= 1 && maxTokens >= 1 && Initial(effort).Some? && MsgsOk(msgs[1..], seen + {uid})
  }

  /** The user ids of new requests. */
  function NewUids(msgs: seq<Msg>): set<int> {
    if msgs == [] then {}
    else NewUids(msgs[..|msgs| - 1]) + if msgs[|msgs| - 1].UserMsg? then {msgs[|msgs| - 1].uid} else {}
  }

  /** How many of them are short enough. */
  function Accepted(msgs: seq<Msg>, maxSeqLen: nat): nat {
    if msgs == [] then 0
    else
      var m := msgs[|msgs| - 1];
      Accepted(msgs[..|msgs| - 1], maxSeqLen) + if m.UserMsg? && m.inputLen < maxSeqLen then 1 else 0
  }

  /** A new request that waits for its first forward; only the two known efforts start it
      thinking. */
  ghost predicate Queued(r: Req, uid: int, prompt: nat, output: nat, ignoreEos: bool, effort: Option<string>) {
    && r.uid == uid && r.prompt == prompt && r.output == output && r.life == FRESH && r.slot == -1
    && !r.whole && r.cached == 0 && r.committed == [] && r.sampled == [] && r.ignoreEos == ignoreEos
    && r.start == if effort == Some("high") || effort == Some("max") then Thinking else Chat
  }

  /** No request with this user id is active. */
  ghost predicate Stopped(reqs: map<int, Req>, uid: int) {
    forall g :: g in reqs && reqs[g].uid == uid ==> reqs[g].life.state != Active
  }

  lemma OthersStopped(before: map<int, Req>, after: map<int, Req>, uid: int, seen: set<int>)
    requires uid !in seen && forall g :: g in after ==> after[g].uid == uid || (g in before && after[g] == before[g])
    ensures forall u :: u in seen && Stopped(before, u) ==> Stopped(after, u)
  {
  }

  lemma StaysStopped(before: map<int, Req>, after: map<int, Req>, uid: int)
    requires Stopped(after, uid) && AbortedIn(before, after, uid)
    ensures forall u :: Stopped(before, u) ==> Stopped(after, u)
  {
    hide Final, Aborted;
    forall u | Stopped(before, u) ensures Stopped(after, u) {
      forall g | g in after && after[g].uid == u ensures after[g].life.state != Active {
        assert AbortOne(before, after, uid, g);
        AbortedUid(before[g]);
      }
    }
  }

  lemma AbortedUid(r: Req)
    ensures Final(Aborted(r)).uid == r.uid && Final(Aborted(r)).life.state != Active
  {
  }

  /** What an abort makes of a request with the user id: an issued active one becomes
      terminal, one that only waits is dropped. */
  ghost predicate AbortOne(before: map<int, Req>, after: map<int, Req>, uid: int, g: int)
    requires g in before
  {
    var r := before[g];
    var hit := r.uid == uid && r.life.state == Active;
    if hit && r.slot < 0 then g !in after
    else g in after && after[g] == if hit then Final(Aborted(r)) else r
  }

  ghost predicate AbortedIn(before: map<int, Req>, after: map<int, Req>, uid: int) {
    && (forall g :: g in after ==> g in before)
    && (forall g {:trigger AbortOne(before, after, uid, g)} :: g in before ==> AbortOne(before, after, uid, g))
  }

  lemma IssuedAborted(before: map<int, Req>, after: map<int, Req>, uid: int, g: int)
    requires g in before && before[g].uid == uid && before[g].life.state == Active && before[g].slot >= 0
    requires forall h :: h in before && before[h].uid == uid ==> h == g
    requires after == before[g := Final(Aborted(before[g]))]
    ensures AbortedIn(before, after, uid) && Stopped(after, uid)
  {
  }

  lemma WaitingAborted(before: map<int, Req>, after: map<int, Req>, uid: int, g: int)
    requires g in before && before[g].uid == uid && before[g].life.state == Active && before[g].slot < 0
    requires (forall h :: h in before && before[h].uid == uid ==> h == g) && after == before - {g}
    ensures AbortedIn(before, after, uid) && Stopped(after, uid)
  {
  }

  lemma NothingAborted(reqs: map<int, Req>, uid: int)
    requires Stopped(reqs, uid)
    ensures AbortedIn(reqs, reqs, uid)
  {
  }

  lemma StartsInOrder(slots: nat, maxSeqLen: nat, ids: TokenIds)
    ensures WorldOk(World(map[], {}, {}, {}, map[]), [], ids)
    ensures BooksOk(map[], Books(seq(slots, i => i), seq(slots, _ => -1), seq(slots, _ => -1), [], [], {}, 0, ids.eos),
      maxSeqLen)
  {
    var free := seq(slots, i => i);
    forall s | 0 <= s < slots ensures s in free { assert free[s] == s; }
  }

  lemma NoPlan(reqs: map<int, Req>)
    ensures NewSlots([], reqs) == 0
  {
  }

  lemma NoneTwice()
    ensures OncePerRequest([])
  {
  }

  lemma SameUid(w: World, flight: seq<Ref>, ids: TokenIds, g: int)
    requires WorldOk(w, flight, ids) && g in w.reqs
    ensures forall h :: h in w.reqs && w.reqs[h].uid == w.reqs[g].uid ==> h == g
  {
  }

  /** A request that is neither queued nor running nor live is not active. */
  lemma AbortCases(w: World, flight: seq<Ref>, ids: TokenIds, uid: int)
    requires WorldOk(w, flight, ids)
    ensures forall g :: g in w.reqs && w.reqs[g].uid == uid && w.reqs[g].life.state == Active ==>
      g in w.pending || uid in w.live
  {
    forall g | g in w.reqs && w.reqs[g].uid == uid && w.reqs[g].life.state == Active
      ensures g in w.pending || uid in w.live
    {
      ListedWhere(w, g, flight, ids);
      RecordOf(w, g, flight, ids);
    }
  }

  // ----- what the invariant means

  /** A table slot is either free or held by exactly one request that is not retired,
      and both owner tags name that request. */
  lemma SlotPartition(reqs: map<int, Req>, b: Books, maxSeqLen: nat, s: int)
    requires BooksOk(reqs, b, maxSeqLen) && 0 <= s < |b.c4|
    ensures |b.c128| == |b.c4| && b.c4[s] == b.c128[s]
    ensures s in b.free <==> b.c4[s] == -1
    ensures s in b.free <==> forall g :: g in reqs && Holds(reqs[g]) ==> reqs[g].slot != s
    ensures forall g, h ::
              g in reqs && h in reqs && Holds(reqs[g]) && Holds(reqs[h]) && reqs[g].slot == reqs[h].slot ==> g == h
    ensures forall g :: g in reqs && Holds(reqs[g]) && reqs[g].slot == s ==> b.c4[s] == g
  {
    hide AllReplies, RetiredOnce, UidsSeen, Admitted;
    if b.c4[s] != -1 {
      assert reqs[b.c4[s]].slot == s;
    }
  }

  /** Slot, tags, lock and pages of a request are given back once, when it is terminal
      and none of its forwards is in flight. */
  lemma ReleasedOnce(w: World, flight: seq<Ref>, ids: TokenIds, b: Books, maxSeqLen: nat, i: nat, j: nat)
    requires WorldOk(w, flight, ids) && BooksOk(w.reqs, b, maxSeqLen) && i < |b.retired| && j < |b.retired|
    ensures b.retired[i] == b.retired[j] ==> i == j
    ensures b.retired[i] in w.reqs && w.reqs[b.retired[i]].life.state == Retired
    ensures forall k :: 0 <= k < |flight| ==> flight[k].gen != b.retired[i]
  {
    hide SlotsOk, AllReplies, UidsSeen, Admitted, TokensOf;
    var g := b.retired[i];
    assert g in b.retired;
    RecordOf(w, g, flight, ids);
    forall k | 0 <= k < |flight| ensures flight[k].gen != g {
      assert flight[k].epoch in EpochsOf(flight, flight[k].gen);
    }
  }

  /** The host is behind the device by the samples in flight, never more than two; an
      active request with a sample in flight has room for it; and the device stays
      within the admitted length. */
  lemma HostLag(w: World, last: seq<Ref>, ongoing: seq<Ref>, ids: TokenIds, b: Books, maxSeqLen: nat, g: int)
    requires WorldOk(w, last + ongoing, ids) && OncePerRequest(last) && OncePerRequest(ongoing)
    requires BooksOk(w.reqs, b, maxSeqLen)
    requires g in w.reqs && w.reqs[g].whole && w.reqs[g].life.state == Active
    ensures var r, n := w.reqs[g], |TokensOf(last + ongoing, g)|;
            && r.prompt + |r.committed| + n == r.device <= r.prompt + r.output <= maxSeqLen && n <= 2
            && (n > 0 ==> |r.committed| < r.output)
  {
    hide TokensOf, PositionsOf, EpochsOf, Grammatical;
    RecordOf(w, g, last + ongoing, ids);
    FewTokens(last, ongoing, g);
    PositionsBound(w.reqs, b, maxSeqLen, g);
  }

  lemma {:induction false} SampleInFlight(flight: seq<Ref>, g: int)
    requires TokensOf(flight, g) != []
    ensures exists i :: 0 <= i < |flight| && flight[i].gen == g && !flight[i].chunk
    decreases |flight|
  {
    if flight[0].gen == g && !flight[0].chunk {
      assert 0 < |flight|;
    } else {
      SampleInFlight(flight[1..], g);
      var i :| 0 <= i < |flight[1..]| && flight[1..][i].gen == g && !flight[1..][i].chunk;
      assert flight[i + 1] == flight[1..][i];
    }
  }

  /** An active request is neither finished nor forgotten.  It has tokens left and has not
      met the end of sequence that it respects; it waits exactly until its prompt has been
      issued; it runs exactly as long as the tokens on the host and those in flight are
      fewer than it may have; and so it waits, runs or has a sample in flight. */
  lemma ActiveGoesOn(w: World, flight: seq<Ref>, ids: TokenIds, g: int)
    requires WorldOk(w, flight, ids) && g in w.reqs && w.reqs[g].life.state == Active
    ensures |w.reqs[g].committed| < w.reqs[g].output
    ensures |w.reqs[g].committed| + |TokensOf(flight, g)| <= w.reqs[g].output
    ensures !w.reqs[g].ignoreEos ==> ids.eos !in w.reqs[g].committed
    ensures g in w.pending <==> !w.reqs[g].whole
    ensures g in w.running <==>
      w.reqs[g].whole && |w.reqs[g].committed| + |TokensOf(flight, g)| < w.reqs[g].output
    ensures g in w.pending || g in w.running
      || exists i :: 0 <= i < |flight| && flight[i].gen == g && !flight[i].chunk
  {
    hide TokensOf, PositionsOf, EpochsOf, Grammatical;
    RecordOf(w, g, flight, ids);
    if w.reqs[g].whole && g !in w.running {
      SampleInFlight(flight, g);
    }
  }

  /** What a request has generated on the device, and so what the host has of it, keeps
      the reasoning grammar. */
  lemma GeneratedKeepsGrammar(w: World, flight: seq<Ref>, ids: TokenIds, g: int)
    requires WorldOk(w, flight, ids) && g in w.reqs && DistinctIds(ids)
    ensures var r := w.reqs[g];
            && r.committed <= r.sampled && ids.thinkStart !in r.sampled
            && (forall i :: 0 <= i < |r.sampled| && r.sampled[i] == ids.eos ==>
                 StateAfter(r.start, r.sampled[..i], ids) != Thinking)
            && (forall i, j :: 0 <= i < j < |r.sampled| && r.sampled[i] == ids.thinkEnd ==>
                 r.sampled[j] != ids.thinkEnd)
            && (ids.thinkEnd in r.sampled ==> r.start == Thinking)
  {
    RecordOf(w, g, flight, ids);
    GrammaticalMeans(w.reqs[g].start, w.reqs[g].sampled, ids);
  }

  /** Replies: the tokens on the host in order, at most the admitted number, nothing
      after a finished one; a reply finishes its request exactly at the end of sequence
      that it respects or at the last token admitted, and reports how many there were. */
  lemma RepliesTell(w: World, flight: seq<Ref>, ids: TokenIds, b: Books, maxSeqLen: nat, g: int, i: nat)
    requires WorldOk(w, flight, ids) && BooksOk(w.reqs, b, maxSeqLen) && b.eos == ids.eos && g in w.reqs
    requires i < |b.log| && b.log[i].uid == w.reqs[g].uid
    ensures Replied(b.log, w.reqs[g].uid) == w.reqs[g].committed
    ensures w.reqs[g].whole ==> |w.reqs[g].committed| <= w.reqs[g].output
    ensures b.log[i].finish.Some? ==> forall j :: i < j < |b.log| ==> b.log[j].uid != w.reqs[g].uid
    ensures b.log[i].finish.Some? <==>
      (!w.reqs[g].ignoreEos && b.log[i].token == ids.eos)
      || |Replied(b.log[..i + 1], w.reqs[g].uid)| == w.reqs[g].output
    ensures b.log[i].finish.Some? ==>
      b.log[i].finish.value == Finish(if !w.reqs[g].ignoreEos && b.log[i].token == ids.eos then Stop else Length,
        w.reqs[g].prompt, |w.reqs[g].committed|)
    ensures b.log[i].finish.Some? ==> w.reqs[g].life.state != Active
  {
    hide TokensOf, PositionsOf, EpochsOf, Grammatical, SlotsOk, RetiredOnce, UidsSeen, Admitted;
    RecordOf(w, g, flight, ids);
    assert RepliesOk(b.log, w.reqs[g], b.eos);
    assert EndsRight(b.log, i, w.reqs[g], b.eos);
    if b.log[i].finish.Some? {
      NoneAfter(b.log, i, |b.log|, w.reqs[g].uid);
      assert b.log[..|b.log|] == b.log;
    }
  }

  lemma {:induction false} NoneAfter(log: seq<Reply>, i: nat, n: nat, uid: int)
    requires LogOk(log) && i < n <= |log| && log[i].finish.Some? && log[i].uid == uid
    ensures Replied(log[..n], uid) == Replied(log[..i + 1], uid)
    decreases n
  {
    if n > i + 1 {
      NoneAfter(log, i, n - 1, uid);
      assert log[..n][..n - 1] == log[..n - 1];
      assert log[n - 1].uid != uid;
    }
  }
}
