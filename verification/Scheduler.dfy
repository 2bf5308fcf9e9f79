/** The overlapped scheduling loop: forward k + 1 is issued before the result of
    forward k is read, with aborts, end-of-sequence tokens, chunked prompts and slot
    reuse in between. */
module Scheduling {
  import opened Bags
  import opened Options
  import opened Reasoning
  import opened RequestLife
  import opened SchedulerSteps

  // ----- admission

  datatype Admission = Admission(admitted: nat, accepted: bool)

  /** `None` for arguments that are an error. */
  function DecideMaxSequenceAdmission(inputLen: int, requested: int, maxSeqLen: int): (r: Option<Admission>)
    ensures r.Some? <==> maxSeqLen > 0 && inputLen >= 0 && requested >= 0
    ensures r.Some? ==> (r.value.accepted <==> inputLen <= maxSeqLen && (requested > 0 ==> inputLen < maxSeqLen))
    ensures r.Some? && r.value.accepted ==> inputLen + r.value.admitted <= maxSeqLen && r.value.admitted <= requested
    ensures r.Some? && r.value.accepted && r.value.admitted < requested ==> inputLen + r.value.admitted == maxSeqLen
    ensures r.Some? && r.value.accepted && requested > 0 ==> r.value.admitted > 0
    ensures r.Some? && !r.value.accepted ==> r.value.admitted == 0
  {
    if maxSeqLen <= 0 || inputLen < 0 || requested < 0 then None
    else if inputLen > maxSeqLen then Some(Admission(0, false))
    else if requested > 0 && maxSeqLen - inputLen == 0 then Some(Admission(0, false))
    else Some(Admission(if requested <= maxSeqLen - inputLen then requested else maxSeqLen - inputLen, true))
  }

  /** Largest position of a forward; `None` when it is beyond the rotary cache. */
  function ValidateModelPositionBound(deviceLen: nat, ropeLen: int): Option<int> {
    if ropeLen <= 0 || deviceLen - 1 >= ropeLen then None else Some(deviceLen - 1)
  }

  class Scheduler {
    const ids: TokenIds
    const maxSeqLen: nat
    const slots: nat
    var reqs: map<int, Req>
    var pending: set<int>
    var running: set<int>
    var owners: set<int>
    var live: map<int, int>
    var nextGeneration: nat
    var freeSlots: seq<int>
    var c4Owners: seq<int>
    var c128Owners: seq<int>
    var last: seq<Ref>
    var ongoing: seq<Ref>
    var log: seq<Reply>
    ghost var retired: seq<int>
    ghost var seen: set<int>

    ghost function View(): World
      reads this
    {
      World(reqs, pending, running, owners, live)
    }

    ghost function Rest(): Books
      reads this
    {
      Books(freeSlots, c4Owners, c128Owners, log, retired, seen, nextGeneration, ids.eos)
    }

    /** Requests, forwards in flight, slots, tags, replies and releases agree. */
    ghost predicate Valid()
      reads this
    {
      && WorldOk(View(), last + ongoing, ids) && InSequence(reqs, last + ongoing)
      && OncePerRequest(last) && OncePerRequest(ongoing)
      && BooksOk(reqs, Rest(), maxSeqLen) && |c4Owners| == slots
    }

    constructor (slots: nat, maxSeqLen: nat, ids: TokenIds)
      ensures Valid() && last == [] && ongoing == [] && reqs == map[] && log == [] && seen == {}
      ensures this.slots == slots && this.maxSeqLen == maxSeqLen && this.ids == ids
    {
      hide WorldOk, BooksOk;
      this.slots, this.maxSeqLen, this.ids := slots, maxSeqLen, ids;
      reqs, pending, running, owners, live := map[], {}, {}, {}, map[];
      nextGeneration, freeSlots := 0, seq(slots, i => i);
      c4Owners, c128Owners := seq(slots, _ => -1), seq(slots, _ => -1);
      last, ongoing, log, retired, seen := [], [], [], [], {};
      new;
      StartsInOrder(slots, maxSeqLen, ids);
      assert last + ongoing == [];
    }

    // ----- table slots

    /** Tags a slot for a generation; it raises when the slot has an owner. */
    method AcquireSequenceSlot(slot: nat, g: int) returns (ok: bool)
      requires slot < |c4Owners| == |c128Owners|
      modifies this`c4Owners, this`c128Owners
      ensures ok <==> old(c4Owners)[slot] == -1 && old(c128Owners)[slot] == -1
      ensures ok ==> c4Owners == old(c4Owners)[slot := g] && c128Owners == old(c128Owners)[slot := g]
      ensures !ok ==> c4Owners == old(c4Owners) && c128Owners == old(c128Owners)
    {
      if c4Owners[slot] != -1 || c128Owners[slot] != -1 {
        return false;
      }
      c4Owners := c4Owners[slot := g];
      c128Owners := c128Owners[slot := g];
      ok := true;
    }

    method ReleaseSequenceSlot(slot: nat, g: int) returns (ok: bool)
      requires slot < |c4Owners| == |c128Owners|
      modifies this`c4Owners, this`c128Owners
      ensures ok <==> old(c4Owners)[slot] == g && old(c128Owners)[slot] == g
      ensures ok ==> c4Owners == old(c4Owners)[slot := -1] && c128Owners == old(c128Owners)[slot := -1]
      ensures !ok ==> c4Owners == old(c4Owners) && c128Owners == old(c128Owners)
    {
      if c4Owners[slot] != g || c128Owners[slot] != g {
        return false;
      }
      c4Owners := c4Owners[slot := -1];
      c128Owners := c128Owners[slot := -1];
      ok := true;
    }

    // ----- messages

    /** A new request: rejected with one finished reply, or queued with its output
        clamped to the model length. */
    method Submit(uid: int, inputLen: nat, maxTokens: nat, ignoreEos: bool, effort: Option<string>)
      requires Valid() && uid !in seen && inputLen >= 1 && maxTokens >= 1 && maxSeqLen > 0 && Initial(effort).Some?
      modifies this`reqs, this`pending, this`nextGeneration, this`log, this`seen
      ensures Valid() && seen == old(seen) + {uid}
      ensures inputLen < maxSeqLen ==> log == old(log) && nextGeneration == old(nextGeneration) + 1
      ensures inputLen < maxSeqLen ==> old(nextGeneration) in reqs
      ensures inputLen < maxSeqLen ==> reqs == old(reqs)[old(nextGeneration) := reqs[old(nextGeneration)]]
      ensures inputLen < maxSeqLen ==> old(nextGeneration) !in old(reqs)
      ensures inputLen < maxSeqLen ==> pending == old(pending) + {old(nextGeneration)}
      ensures inputLen < maxSeqLen ==> Queued(reqs[old(nextGeneration)], uid, inputLen,
        DecideMaxSequenceAdmission(inputLen, maxTokens, maxSeqLen).value.admitted, ignoreEos, effort)
      ensures inputLen >= maxSeqLen ==> reqs == old(reqs) && pending == old(pending)
      ensures inputLen >= maxSeqLen ==> nextGeneration == old(nextGeneration)
      ensures inputLen >= maxSeqLen ==>
        log == old(log) + [Reply(uid, ids.eos, Some(Finish(LengthRejected, inputLen, 0)))]
    {
      hide WorldOk, BooksOk, RecOk, InSequence, NotInFlight, Initial;
      ghost var b := Rest();
      seen := seen + {uid};
      var admission := DecideMaxSequenceAdmission(inputLen, maxTokens, maxSeqLen).value;
      if !admission.accepted {
        Rejected(reqs, b, maxSeqLen, Reply(uid, ids.eos, Some(Finish(LengthRejected, inputLen, 0))));
        log := log + [Reply(uid, ids.eos, Some(Finish(LengthRejected, inputLen, 0)))];
        return;
      }
      var g := nextGeneration;
      nextGeneration := nextGeneration + 1;
      var r := Req(uid, inputLen, admission.admitted, Initial(effort).value, FRESH, -1, ignoreEos, false, 0, 0, [], []);
      JoinsRest(reqs, b, maxSeqLen, g, r);
      GenerationUnused(View(), last + ongoing, ids, g);
      InitialState(effort);
      SameSequence(reqs, reqs[g := r], last + ongoing);
      NewOk(r, g, last + ongoing, ids);
      Joins(View(), g, r, last + ongoing, ids);
      reqs := reqs[g := r];
      pending := pending + {g};
    }

    // ----- issuing forwards

    /** Any token the mask leaves may be sampled.  The host state is that of the tokens
        the host has seen; the input token is the last one sampled. */
    method Sample(r: Req) returns (token: int)
      ensures Allowed(StateAfter(r.start, r.committed, ids), LastToken(r.sampled), token, ids)
    {
      var state, current := StateAfter(r.start, r.committed, ids), LastToken(r.sampled);
      ghost var free := MaxOf(Forbidden(state, current, ids).0, Forbidden(state, current, ids).1) + 1;
      assert Allowed(state, current, free, ids);
      token :| Allowed(state, current, token, ids);
    }

    /** The slot of a request; one that has none pops a free slot and tags it. */
    method SlotFor(g: int) returns (slot: nat)
      requires BooksOk(reqs, Rest(), maxSeqLen) && g in reqs && reqs[g].slot >= -1
      requires (reqs[g].slot == -1 ==> freeSlots != [])
      modifies this`freeSlots, this`c4Owners, this`c128Owners
      ensures Rest() == WithSlot(old(Rest()), reqs[g].slot, g) && |c4Owners| == old(|c4Owners|)
      ensures slot == SlotOf(old(Rest()), reqs[g].slot) && (reqs[g].slot >= 0 ==> slot == reqs[g].slot)
      ensures freeSlots == if reqs[g].slot == -1 then old(freeSlots)[..|old(freeSlots)| - 1] else old(freeSlots)
    {
      if reqs[g].slot >= 0 {
        return reqs[g].slot;
      }
      SlotFree(reqs, Rest(), maxSeqLen);
      var n := |freeSlots| - 1;
      slot := freeSlots[n];
      freeSlots := freeSlots[..n];
      var ok := AcquireSequenceSlot(slot, g);
      assert ok;
    }

    /** Issues one forward of an active request: its positions from `from` to `to` are
        computed when it has run.  None of the program's checks can raise. */
    method Launch(g: int, from: nat, to: nat, chunk: bool)
      requires Valid() && g in reqs && reqs[g].life.state == Active && (reqs[g].slot == -1 ==> freeSlots != [])
      requires NotInFlight(ongoing, g) && Launchable(reqs[g], from, to, chunk)
      modifies this`reqs, this`pending, this`running, this`live, this`freeSlots, this`c4Owners, this`c128Owners
      modifies this`ongoing
      ensures Valid() && g in reqs && last == old(last)
      ensures |ongoing| == |old(ongoing)| + 1 && ongoing == old(ongoing) + [ongoing[|old(ongoing)|]]
      ensures Launched(old(reqs)[g], reqs[g], ongoing[|old(ongoing)|], g, to, chunk)
      ensures ongoing[|old(ongoing)|].from == from
      ensures reqs == old(reqs)[g := reqs[g]]
      ensures pending == if chunk then old(pending) else old(pending) - {g}
      ensures running == if CanDecode(reqs[g]) then old(running) + {g} else old(running) - {g}
      ensures freeSlots == if old(reqs)[g].slot == -1 then old(freeSlots)[..|old(freeSlots)| - 1] else old(freeSlots)
      ensures 0 < to <= maxSeqLen && ValidateModelPositionBound(to, maxSeqLen).Some?
    {
      hide WorldOk, BooksOk, RecOk, Allowed, StateAfter, LastToken, WithSlot, SlotOf, OncePerRequest, InSequence,
        NotInFlight;
      ghost var w, b := View(), Rest();
      var r := reqs[g];
      PositionsBound(reqs, b, maxSeqLen, g);
      WithinBound(w, last + ongoing, ids, g, from, to, chunk);
      var token := Sample(r);
      var ref := Ref(g, r.life.nextEpoch, chunk, token, from, to);
      LaunchOk(w, last, ongoing, ids, b, maxSeqLen, g, ref);
      var issue := Issue(r.life);
      var slot := SlotFor(g);
      Place(g, ref, Issued(r, issue.value.0, ref, slot, to));
    }

    method Place(g: int, ref: Ref, s: Req)
      requires g in reqs && s.uid == reqs[g].uid
      modifies this`reqs, this`pending, this`running, this`live, this`ongoing
      ensures View() == AfterLaunch(old(View()), g, ref.chunk, s) && ongoing == old(ongoing) + [ref]
    {
      live := live[s.uid := g];
      reqs := reqs[g := s];
      ongoing := ongoing + [ref];
      if !ref.chunk {
        pending := pending - {g};
      }
      running := if CanDecode(s) then running + {g} else running - {g};
    }

    /** The shares of a plan from `i` on have not been touched. */
    ghost predicate Untouched(plan: seq<Grant>, i: nat, before: map<int, Req>)
      reads this
    {
      forall j :: i <= j < |plan| ==>
        && plan[j].gen in pending && plan[j].gen in reqs && plan[j].gen in before
        && reqs[plan[j].gen] == before[plan[j].gen]
    }

    ghost predicate SharesLaunched(plan: seq<Grant>, i: nat, before: map<int, Req>)
      reads this
    {
      |ongoing| == i <= |plan| && forall j :: 0 <= j < i ==> ForShare(ongoing[j], plan[j], before)
    }

    /** Launches one share of a prefill plan. */
    method LaunchShare(plan: seq<Grant>, i: nat, ghost before: map<int, Req>)
      requires Valid() && i < |plan| && Untouched(plan, i, before) && SharesLaunched(plan, i, before)
      requires BatchLaunched(before, reqs, ongoing)
      requires (forall j :: i <= j < |plan| ==>
        Continues(before[plan[j].gen], plan[j].from, plan[j].to) && plan[j].to <= before[plan[j].gen].prompt)
      requires (forall j, k :: 0 <= j < k < |plan| ==> plan[j].gen != plan[k].gen)
      requires |freeSlots| >= NewSlots(plan[i..], before)
      modifies this`reqs, this`pending, this`running, this`live, this`freeSlots, this`c4Owners, this`c128Owners
      modifies this`ongoing
      ensures Valid() && Untouched(plan, i + 1, before) && SharesLaunched(plan, i + 1, before)
      ensures BatchLaunched(before, reqs, ongoing)
      ensures last == old(last) && |freeSlots| >= NewSlots(plan[i + 1..], before)
    {
      hide WorldOk, BooksOk, InSequence, Issued, BatchLaunched, OncePerRequest, GensOf;
      var g := plan[i].gen;
      assert plan[i..][0] == plan[i] && plan[i..][1..] == plan[i + 1..];
      PendingRecord(View(), g, last + ongoing, ids);
      ghost var batch, mid := ongoing, reqs;
      Launch(g, plan[i].from, plan[i].to, plan[i].to < reqs[g].prompt);
      assert forall j :: 0 <= j < i ==> ongoing[j] == batch[j];
      OneLaunched(before, mid, reqs, batch, ongoing[i]);
    }

    /** Launches the shares of a prefill plan. */
    method SchedulePrefill(plan: seq<Grant>)
      requires Valid() && ongoing == [] && PlanOk(plan)
      modifies this`reqs, this`pending, this`running, this`live, this`freeSlots, this`c4Owners, this`c128Owners
      modifies this`ongoing
      ensures Valid() && last == old(last)
      ensures |ongoing| == |plan|
      ensures forall i :: 0 <= i < |plan| ==> plan[i].gen in old(reqs) && ForShare(ongoing[i], plan[i], old(reqs))
      ensures BatchLaunched(old(reqs), reqs, ongoing)
    {
      hide WorldOk, BooksOk, InSequence, Continues, BatchLaunched, OncePerRequest, ForShare;
      NothingLaunched(reqs);
      assert plan[0..] == plan;
      for i := 0 to |plan|
        invariant Valid() && last == old(last) && BatchLaunched(old(reqs), reqs, ongoing)
        invariant Untouched(plan, i, old(reqs)) && SharesLaunched(plan, i, old(reqs))
        invariant |freeSlots| >= NewSlots(plan[i..], old(reqs))
      {
        LaunchShare(plan, i, old(reqs));
      }
    }

    /** One decode step for every running request. */
    method ScheduleDecode()
      requires Valid() && ongoing == []
      modifies this`reqs, this`pending, this`running, this`live, this`freeSlots, this`c4Owners, this`c128Owners
      modifies this`ongoing
      ensures Valid() && last == old(last) && GensOf(ongoing) == old(running)
      ensures BatchLaunched(old(reqs), reqs, ongoing)
      ensures forall i :: 0 <= i < |ongoing| ==>
        !ongoing[i].chunk && ongoing[i].gen in old(reqs) && ongoing[i].at == old(reqs)[ongoing[i].gen].device
        && ongoing[i].from == old(reqs)[ongoing[i].gen].cached
    {
      hide WorldOk, BooksOk, InSequence, GensOf, Issued, BatchLaunched;
      var todo := running;
      NoGens();
      NothingLaunched(reqs);
      while todo != {}
        invariant Valid() && todo <= running && todo <= old(running) && last == old(last)
        invariant GensOf(ongoing) == old(running) - todo && BatchLaunched(old(reqs), reqs, ongoing)
        invariant forall g :: g in todo && g in reqs ==> g in old(reqs) && reqs[g] == old(reqs)[g]
        invariant forall i :: 0 <= i < |ongoing| ==>
          !ongoing[i].chunk && ongoing[i].gen in old(reqs) && ongoing[i].at == old(reqs)[ongoing[i].gen].device
          && ongoing[i].from == old(reqs)[ongoing[i].gen].cached
        decreases todo
      {
        SomeMember(todo);
        var g :| g in todo;
        ghost var before := ongoing;
        RunningRecord(View(), g, last + ongoing, ids);
        DecodesNext(View(), g, last + ongoing, ids);
        GenAbsent(ongoing, g);
        ghost var mid := reqs;
        Launch(g, reqs[g].cached, reqs[g].device, false);
        todo := todo - {g};
        GensGrow(before, ongoing[|before|]);
        OneLaunched(old(reqs), mid, reqs, before, ongoing[|before|]);
      }
    }

    /** Every share is for another waiting request and continues its prompt, and there
        is a slot for each request that has none. */
    predicate PlanOk(plan: seq<Grant>)
      reads this
    {
      && (forall i :: 0 <= i < |plan| ==> plan[i].gen in pending && plan[i].gen in reqs)
      && (forall i :: 0 <= i < |plan| ==>
           Continues(reqs[plan[i].gen], plan[i].from, plan[i].to) && plan[i].to <= reqs[plan[i].gen].prompt)
      && (forall i, j :: 0 <= i < j < |plan| ==> plan[i].gen != plan[j].gen)
      && |freeSlots| >= NewSlots(plan, reqs)
    }

    // ----- reservations

    /** What the running requests may still need. */
    method InflightTokens(ps: nat) returns (n: nat)
      requires Valid() && ps >= 1
      ensures n == Total(RunningNeeds(reqs, ps))
    {
      hide WorldOk, BooksOk, InSequence, RunningNeeds, OncePerRequest;
      ghost var needs := RunningNeeds(reqs, ps);
      NeedsListed(View(), last + ongoing, ids, ps);
      NeedsStart(needs);
      n := 0;
      var todo := running;
      while todo != {}
        invariant todo <= running && Total(needs) == n + Total(Restrict(needs, todo))
        decreases todo
      {
        SomeMember(todo);
        var g :| g in todo;
        RunningRecord(View(), g, last + ongoing, ids);
        NeedAt(reqs, ps, g);
        NeedsNext(needs, todo, g);
        n := n + RunningNeed(reqs[g], ps);
        todo := todo - {g};
      }
    }

    /** What must stay available for running requests and partly computed prompts before a
        new prompt is admitted. */
    method ReservedTokens(ps: nat) returns (n: nat)
      requires Valid() && ps >= 1
      ensures n == Reserved(reqs, ps)
    {
      hide WorldOk, BooksOk, InSequence, RunningNeeds, ResidentNeeds, OncePerRequest;
      ghost var needs := ResidentNeeds(reqs);
      n := InflightTokens(ps);
      NeedsListed(View(), last + ongoing, ids, ps);
      NeedsStart(needs);
      var todo := set g | g in pending && g in reqs && reqs[g].slot >= 0;
      while todo != {}
        invariant todo <= needs.Keys && Reserved(reqs, ps) == n + Total(Restrict(needs, todo))
        decreases todo
      {
        SomeMember(todo);
        var g :| g in todo;
        ResidentAt(reqs, g);
        NeedsNext(needs, todo, g);
        n := n + ResidentNeed(reqs[g]);
        todo := todo - {g};
      }
    }

    // ----- processing results

    /** Gives back the slot, the tags, the cache lock and the pages of a request, once. */
    method FreeReqResources(g: int)
      requires BooksOk(reqs, Rest(), maxSeqLen) && g in reqs && Holds(reqs[g]) && ReadyToRelease(reqs[g].life)
      requires g in owners
      requires reqs[g].uid in live && live[reqs[g].uid] == g
      modifies this`reqs, this`owners, this`live, this`freeSlots, this`c4Owners, this`c128Owners, this`retired
      ensures g in reqs && reqs == old(reqs)[g := old(reqs)[g].(life := MarkReleased(old(reqs)[g].life).value)]
      ensures owners == old(owners) - {g} && live == old(live) - {reqs[g].uid}
      ensures BooksOk(reqs, Rest(), maxSeqLen) && retired == old(retired) + [g]
      ensures freeSlots == old(freeSlots) + [reqs[g].slot]
      ensures |c4Owners| == old(|c4Owners|)
    {
      hide BooksOk;
      RetireBooks(reqs, Rest(), maxSeqLen, g);
      var r := reqs[g];
      owners := owners - {g};
      var ok := ReleaseSequenceSlot(r.slot, g);
      assert ok;
      freeSlots := freeSlots + [r.slot];
      retired := retired + [g];
      reqs := reqs[g := r.(life := MarkReleased(r.life).value)];
      live := live - {r.uid};
    }

    /** Writes a record back; a terminal one without forwards in flight is retired. */
    method Settle(g: int, s: Req)
      requires g in reqs && BooksOk(reqs[g := s], Rest(), maxSeqLen) && s.uid == reqs[g].uid
      requires ReadyToRelease(s.life) ==> Holds(s) && g in owners && s.uid in live && live[s.uid] == g
      modifies this`reqs, this`owners, this`live, this`freeSlots, this`c4Owners, this`c128Owners, this`retired
      ensures g in reqs && reqs == old(reqs)[g := Final(s)] && BooksOk(reqs, Rest(), maxSeqLen)
      ensures owners == (if ReadyToRelease(s.life) then old(owners) - {g} else old(owners))
      ensures live == (if ReadyToRelease(s.life) then old(live) - {s.uid} else old(live))
      ensures retired == (if ReadyToRelease(s.life) then old(retired) + [g] else old(retired))
      ensures |c4Owners| == old(|c4Owners|)
    {
      hide BooksOk;
      reqs := reqs[g := s];
      if ReadyToRelease(s.life) {
        FreeReqResources(g);
      }
    }

    method CommitTerminal(g: int)
      modifies this`running, this`owners
      ensures running == old(running) - {g} && owners == old(owners) + {g}
    {
      running := running - {g};
      owners := owners + {g};
    }

    /** A token reaches the host and is replied; the last one makes the request terminal. */
    method Commit(g: int, s: Req, token: int)
      modifies this`log, this`running, this`owners
      ensures log == old(log) + [ReplyFor(s, token, ids.eos)]
      ensures running == (if Finishes(s, token, ids.eos) then old(running) - {g} else old(running))
      ensures owners == (if Finishes(s, token, ids.eos) then old(owners) + {g} else old(owners))
    {
      log := log + [ReplyFor(s, token, ids.eos)];
      if Finishes(s, token, ids.eos) {
        CommitTerminal(g);
      }
    }

    /** Writes the result `ref` of a request back: its token reaches the host, and if it is
        terminal without forwards in flight it is retired. */
    method WriteBack(ref: Ref, ghost flight: seq<Ref>)
      requires WorldOk(View(), flight, ids) && ref.gen in reqs && Holds(reqs[ref.gen])
      requires (!ref.chunk ==> reqs[ref.gen].whole)
      requires ref.epoch in reqs[ref.gen].life.outstanding
      requires BooksOk(reqs[ref.gen := Processed(reqs[ref.gen], ref, ids.eos)],
        BooksAfterRow(Rest(), reqs[ref.gen], ref, ids.eos), maxSeqLen)
      modifies this`reqs, this`running, this`owners, this`live, this`freeSlots, this`c4Owners, this`c128Owners, this`log
      modifies this`retired
      ensures View() == AfterResult(old(View()), ref.gen, Final(Processed(old(reqs)[ref.gen], ref, ids.eos)))
      ensures BooksOk(reqs, Rest(), maxSeqLen) && old(retired) <= retired
      ensures log == BooksAfterRow(old(Rest()), old(reqs)[ref.gen], ref, ids.eos).log
      ensures |c4Owners| == old(|c4Owners|)
    {
      hide WorldOk, BooksOk, AfterResult, CanDecode, Processed;
      ghost var w, b := View(), Rest();
      var g := ref.gen;
      ListedWhere(w, g, flight, ids);
      ProcessedKeeps(reqs[g], ref, ids.eos);
      var s := Processed(reqs[g], ref, ids.eos);
      if reqs[g].life.state == Active && !ref.chunk {
        Commit(g, s, ref.token);
      }
      Settle(g, s);
      SameLists(w, View(), g, flight, Final(s), ids);
    }

    /** Processes one row of the previous forward.  A terminal request drops it, a chunk
        only completes, and otherwise the sample reaches the host and is replied. */
    method ProcessRow()
      requires Valid() && last != []
      modifies this`reqs, this`running, this`owners, this`live, this`freeSlots, this`c4Owners, this`c128Owners
      modifies this`last, this`log, this`retired
      ensures Valid() && last == old(last)[1..] && old(retired) <= retired
      ensures var ref := old(last)[0]; var g := ref.gen;
              && g in old(reqs) && ref.epoch in old(reqs)[g].life.outstanding
              && reqs == old(reqs)[g := Final(Processed(old(reqs)[g], ref, ids.eos))]
              && log == if old(reqs)[g].life.state == Active && !ref.chunk
                        then old(log) + [ReplyFor(Processed(old(reqs)[g], ref, ids.eos), ref.token, ids.eos)]
                          else old(log)
      ensures var ref := old(last)[0];
              RowReplied(old(reqs)[ref.gen], reqs[ref.gen], ref, old(log), log, ids.eos)
    {
      hide WorldOk, BooksOk, OncePerRequest, InSequence, Processed, Final, ReplyFor, RowReplied, Holds;
      ghost var w := View();
      FrontRequest(w, last, ongoing, ids);
      RowWorld(w, last, ongoing, ids);
      RowBooks(w, last, ongoing, ids, Rest(), maxSeqLen);
      WriteBack(last[0], last + ongoing);
      RowTells(w.reqs[last[0].gen], last[0], old(log), log, ids.eos);
      last := last[1..];
    }

    /** Processes all rows of the previous forward. */
    method ProcessLast()
      requires Valid()
      modifies this`reqs, this`running, this`owners, this`live, this`freeSlots, this`c4Owners, this`c128Owners
      modifies this`last, this`log, this`retired
      ensures Valid() && last == [] && old(log) <= log && old(retired) <= retired
      ensures Hosted(old(reqs), old(last), reqs, last)
    {
      hide WorldOk, BooksOk, InSequence, OncePerRequest, Hosted, RowReplied, Processed, Final, ReplyFor;
      HostedNone(reqs, last);
      while last != []
        invariant Valid() && old(log) <= log && old(retired) <= retired
        invariant Hosted(old(reqs), old(last), reqs, last)
        decreases |last|
      {
        ghost var before, rows, said := reqs, last, log;
        ProcessRow();
        HostedRow(before, rows, reqs[rows[0].gen], said, log, ids.eos);
        HostedThrough(old(reqs), old(last), before, rows, reqs, last);
      }
    }

    // ----- aborts

    /** Makes an issued request terminal; it is retired at once if nothing is in flight. */
    method AbortIssued(g: int)
      requires Valid() && ongoing == [] && g in reqs && reqs[g].life.state == Active && reqs[g].slot >= 0
      modifies this`reqs, this`pending, this`running, this`owners, this`live, this`freeSlots, this`c4Owners
      modifies this`c128Owners, this`retired
      ensures Valid() && reqs == old(reqs)[g := Final(Aborted(old(reqs)[g]))] && g !in running && g !in pending
      ensures reqs[g].uid == old(reqs)[g].uid && reqs[g].life.state != Active
      ensures old(retired) <= retired
    {
      hide WorldOk, BooksOk, RecOk, EpochsOf, TokensOf, OncePerRequest, AfterResult, InSequence;
      ghost var w, flight := View(), last + ongoing;
      FewTokens(last, ongoing, g);
      ListedWhere(w, g, flight, ids);
      AbortWorld(w, g, flight, ids);
      var s := Aborted(reqs[g]);
      QuietBooks(reqs, Rest(), maxSeqLen, g, s);
      pending := pending - {g};
      CommitTerminal(g);
      Settle(g, s);
      SameLists(w, View(), g, flight, Final(s), ids);
      SameSequence(w.reqs, reqs, flight);
    }

    /** A request that was never issued just leaves the queue. */
    method AbortWaiting(g: int)
      requires Valid() && g in pending && g in reqs && reqs[g].slot == -1
      modifies this`reqs, this`pending
      ensures Valid() && reqs == old(reqs) - {g} && pending == old(pending) - {g}
    {
      hide WorldOk, BooksOk, InSequence;
      PendingRecord(View(), g, last + ongoing, ids);
      SameSequence(reqs, reqs - {g}, last + ongoing);
      LeavesRest(reqs, Rest(), maxSeqLen, g);
      Leaves(View(), g, last + ongoing, ids);
      reqs := reqs - {g};
      pending := pending - {g};
    }

    /** Looks for the request in the queue, then among the running, then among the live
        ones. */
    method Abort(uid: int)
      requires Valid() && ongoing == []
      modifies this`reqs, this`pending, this`running, this`owners, this`live, this`freeSlots, this`c4Owners
      modifies this`c128Owners, this`retired
      ensures Valid() && old(retired) <= retired
      ensures Stopped(reqs, uid) && AbortedIn(old(reqs), reqs, uid)
      ensures last == old(last) && ongoing == []
    {
      hide WorldOk, BooksOk, InSequence, OncePerRequest, Final, Aborted, AbortedIn;
      ghost var w, flight := View(), last + ongoing;
      AbortCases(w, flight, ids, uid);
      if exists g :: g in pending && g in reqs && reqs[g].uid == uid {
        var g :| g in pending && g in reqs && reqs[g].uid == uid;
        SameUid(w, flight, ids, g);
        PendingRecord(w, g, flight, ids);
        if reqs[g].slot >= 0 {
          AbortIssued(g);
          IssuedAborted(w.reqs, reqs, uid, g);
        } else {
          AbortWaiting(g);
          WaitingAborted(w.reqs, reqs, uid, g);
        }
      } else if exists g :: g in running && g in reqs && reqs[g].uid == uid {
        var g :| g in running && g in reqs && reqs[g].uid == uid;
        SameUid(w, flight, ids, g);
        RunningRecord(w, g, flight, ids);
        AbortIssued(g);
        IssuedAborted(w.reqs, reqs, uid, g);
      } else if uid in live {
        var g := live[uid];
        LiveRequest(w, flight, ids, uid);
        SameUid(w, flight, ids, g);
        if reqs[g].life.state == Active {
          AbortIssued(g);
          IssuedAborted(w.reqs, reqs, uid, g);
        } else {
          NothingAborted(reqs, uid);
        }
      } else {
        NothingAborted(reqs, uid);
      }
    }

    // ----- the loop

    /** Handles all messages in order: every new request is taken or rejected, and a
        known request that was aborted is not active any more. */
    method ReceiveMsgs(msgs: seq<Msg>)
      requires Valid() && ongoing == [] && maxSeqLen > 0 && MsgsOk(msgs, seen)
      modifies this
      ensures Valid() && ongoing == [] && last == old(last) && old(log) <= log && old(retired) <= retired
      ensures seen == old(seen) + NewUids(msgs) && nextGeneration == old(nextGeneration) + Accepted(msgs, maxSeqLen)
      ensures forall m :: m in msgs && m.AbortMsg? && m.uid in old(seen) ==> Stopped(reqs, m.uid)
    {
      hide WorldOk, BooksOk, InSequence, Initial, Stopped;
      for i := 0 to |msgs|
        invariant Valid() && ongoing == [] && last == old(last) && old(log) <= log && old(retired) <= retired
        invariant MsgsOk(msgs[i..], seen)
        invariant seen == old(seen) + NewUids(msgs[..i])
        invariant nextGeneration == old(nextGeneration) + Accepted(msgs[..i], maxSeqLen)
        invariant forall m :: m in msgs[..i] && m.AbortMsg? && m.uid in old(seen) ==> Stopped(reqs, m.uid)
      {
        assert msgs[i..][0] == msgs[i] && msgs[i..][1..] == msgs[i + 1..];
        assert msgs[..i + 1][..i] == msgs[..i] && msgs[..i + 1] == msgs[..i] + [msgs[i]];
        ghost var before := reqs;
        match msgs[i]
        case UserMsg(uid, inputLen, maxTokens, ignoreEos, effort) =>
          Submit(uid, inputLen, maxTokens, ignoreEos, effort);
          OthersStopped(before, reqs, uid, old(seen));
        case AbortMsg(uid) =>
          Abort(uid);
          StaysStopped(before, reqs, uid);
      }
      assert msgs[..|msgs|] == msgs;
    }

    /** Issues a prefill batch for any plan, a decode batch for all that run, or nothing. */
    method ScheduleNextBatch(prefill: bool, decode: bool)
      requires Valid() && ongoing == []
      modifies this`reqs, this`pending, this`running, this`live, this`freeSlots, this`c4Owners, this`c128Owners
      modifies this`ongoing
      ensures Valid() && (!prefill && !decode ==> ongoing == [] && reqs == old(reqs))
      ensures !prefill && decode ==> GensOf(ongoing) == old(running)
      ensures !prefill && decode ==> forall i :: 0 <= i < |ongoing| ==> !ongoing[i].chunk
    {
      hide WorldOk, BooksOk, InSequence, OncePerRequest, GensOf;
      if prefill {
        NoPlan(reqs);
        assert PlanOk([]);
        var plan :| PlanOk(plan);
        SchedulePrefill(plan);
      } else if decode {
        ScheduleDecode();
      }
    }

    /** One iteration: messages, then the next forward is issued, and only then the
        previous one is read. */
    method OverlapLoop(msgs: seq<Msg>, prefill: bool, decode: bool)
      requires Valid() && ongoing == [] && maxSeqLen > 0 && MsgsOk(msgs, seen)
      modifies this
      ensures Valid() && ongoing == [] && old(log) <= log && old(retired) <= retired
      ensures seen == old(seen) + NewUids(msgs) && nextGeneration == old(nextGeneration) + Accepted(msgs, maxSeqLen)
      ensures !prefill && !decode ==> last == []
      ensures !prefill ==> forall i :: 0 <= i < |last| ==> !last[i].chunk
    {
      hide WorldOk, BooksOk, InSequence, OncePerRequest, GensOf;
      ReceiveMsgs(msgs);
      ScheduleNextBatch(prefill, decode);
      ProcessLast();
      Rotate();
    }

    /** The forward just issued is the one to be read next. */
    method Rotate()
      requires Valid() && last == []
      modifies this`last, this`ongoing
      ensures Valid() && last == old(ongoing) && ongoing == []
    {
      hide WorldOk, BooksOk, InSequence, OncePerRequest;
      assert [] + ongoing == ongoing + [];
      NoneTwice();
      last := ongoing;
      ongoing := [];
    }

    /** The loop without overlap: the forward just issued is read in the same round. */
    method NormalLoop(msgs: seq<Msg>, prefill: bool, decode: bool)
      requires Valid() && ongoing == [] && last == [] && maxSeqLen > 0 && MsgsOk(msgs, seen)
      modifies this
      ensures Valid() && ongoing == [] && last == [] && old(log) <= log && old(retired) <= retired
    {
      hide WorldOk, BooksOk, InSequence, OncePerRequest;
      OverlapLoop(msgs, prefill, decode);
      ProcessLast();
    }
  }
}
