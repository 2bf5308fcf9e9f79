/** The scheduler with everything that decides for it: messages reach the prefill queue
    and the server, the arbiter and the queue choose the batch, the server issues it with
    its cache calls, and the previous forward is read. */
module WholeLoop {
  import opened Options
  import opened RequestLife
  import opened ServingSteps
  import opened Turns
  import B = BatchChoice
  import C = CacheSteps
  import G = ProgressLedger
  import P = PhasePolicy
  import Q = PrefillQueue
  import S = SchedulerSteps
  import CacheManagement
  import Paging
  import Reasoning
  import Scheduling
  import Serving

  // ----- messages

  lemma Arrives(queue: seq<Q.Pending>, reqs: map<int, S.Req>, g: int, r: S.Req)
    requires Q.SameWaiting(queue, reqs) && g !in reqs && S.Waits(r) && r.slot == -1
    ensures Q.SameWaiting(queue + [Q.Pending(g, r.prompt, false, 0, 0)], reqs[g := r])
  {
    var more, now := queue + [Q.Pending(g, r.prompt, false, 0, 0)], reqs[g := r];
    forall i | 0 <= i < |more| ensures Q.EntryOk(more[i], now) {
      if i < |queue| { assert Q.EntryOk(queue[i], reqs); }
    }
    forall h | h in now && S.Waits(now[h]) ensures Q.InQueue(more, h) {
      if h == g {
        assert more[|queue|].gen == g;
      } else {
        assert Q.InQueue(queue, h);
        var i :| 0 <= i < |queue| && queue[i].gen == h;
        assert more[i].gen == h;
      }
    }
    forall i | 0 <= i < |queue| ensures queue[i].gen != g {
      assert Q.EntryOk(queue[i], reqs);
    }
  }

  lemma NotListed(queue: seq<Q.Pending>, reqs: map<int, S.Req>, g: int)
    requires Q.SameWaiting(queue, reqs) && g !in reqs
    ensures !Q.InQueue(queue, g)
  {
    forall i | 0 <= i < |queue| ensures queue[i].gen != g {
      assert Q.EntryOk(queue[i], reqs);
    }
  }

  /** An abort leaves the other waiting requests alone. */
  lemma OthersWait(before: map<int, S.Req>, after: map<int, S.Req>, uid: int, h: int)
    requires S.AbortedIn(before, after, uid) && h in before
    ensures if before[h].uid == uid then h !in after || !S.Waits(after[h]) else h in after && after[h] == before[h]
  {
    assert S.AbortOne(before, after, uid, h);
    S.AbortedUid(before[h]);
  }

  lemma NoneAborted(queue: seq<Q.Pending>, before: map<int, S.Req>, after: map<int, S.Req>, uid: int)
    requires Q.SameWaiting(queue, before) && S.AbortedIn(before, after, uid)
    requires forall h :: h in before && before[h].uid == uid ==> !S.Waits(before[h])
    ensures Q.SameWaiting(queue, after)
  {
    hide S.AbortedIn, S.Waits, Q.Matches, Q.InQueue;
    forall i | 0 <= i < |queue| ensures Q.EntryOk(queue[i], after) {
      assert Q.EntryOk(queue[i], before);
      OthersWait(before, after, uid, queue[i].gen);
    }
    forall h | h in after && S.Waits(after[h]) ensures Q.InQueue(queue, h) {
      AbortedBefore(before, after, uid, h);
      OthersWait(before, after, uid, h);
      assert S.Waits(before[h]);
    }
  }

  lemma AbortedBefore(before: map<int, S.Req>, after: map<int, S.Req>, uid: int, h: int)
    requires S.AbortedIn(before, after, uid) && h in after
    ensures h in before
  {
  }

  lemma OneAborted(queue: seq<Q.Pending>, before: map<int, S.Req>, after: map<int, S.Req>, uid: int, g: int)
    requires Q.SameWaiting(queue, before) && S.AbortedIn(before, after, uid) && g in before && before[g].uid == uid
    requires S.Waits(before[g])
    requires forall h :: h in before && before[h].uid == uid ==> h == g
    ensures Q.SameWaiting(B.Without(queue, g), after)
  {
    hide S.AbortedIn, S.Waits, Q.Matches, Q.InQueue, B.Without;
    assert Q.InQueue(queue, g);
    B.Removed(queue, g);
    var rest := B.Without(queue, g);
    forall i | 0 <= i < |rest| ensures Q.EntryOk(rest[i], after) {
      var j :| 0 <= j < |queue| && queue[j] == rest[i];
      assert Q.EntryOk(queue[j], before);
      OthersWait(before, after, uid, rest[i].gen);
    }
    forall h | h in after && S.Waits(after[h]) ensures Q.InQueue(rest, h) {
      AbortedBefore(before, after, uid, h);
      OthersWait(before, after, uid, h);
      assert S.Waits(before[h]);
    }
  }

  // ----- forwards

  lemma WaitingStays(queue: seq<Q.Pending>, before: map<int, S.Req>, after: map<int, S.Req>)
    requires Q.SameWaiting(queue, before) && S.WaitingKept(before, after)
    ensures Q.SameWaiting(queue, after)
  {
    hide S.Waits, Q.InQueue;
    forall i | 0 <= i < |queue| ensures Q.EntryOk(queue[i], after) {
      assert Q.EntryOk(queue[i], before) && queue[i].gen in after;
      assert after[queue[i].gen].prompt == before[queue[i].gen].prompt;
    }
    forall g | g in after && S.Waits(after[g]) ensures Q.InQueue(queue, g) {
      assert S.Waits(before[g]);
    }
  }

  /** A decode batch has no waiting request. */
  lemma DecodeStays(queue: seq<Q.Pending>, before: map<int, S.Req>, after: map<int, S.Req>, batch: seq<C.Extend>,
                    flight: seq<Ref>)
    requires Q.SameWaiting(queue, before) && DecodeOf(batch, before) && IssuedFor(batch, flight, before, after)
    ensures Q.SameWaiting(queue, after)
  {
    hide Q.InQueue, NextOf, Apart;
    forall g | g in before
      ensures g in after
      ensures if g in S.GensOf(flight) then !S.Waits(before[g]) && !S.Waits(after[g]) else after[g] == before[g]
    {
      if g in S.GensOf(flight) {
        assert InBatch(batch, g) && S.Runs(before[g]);
        LaunchedIndex(flight, g);
        var i :| 0 <= i < |flight| && flight[i].gen == g;
        assert S.LaunchedIn(before, after, flight[i]);
      }
    }
    forall i | 0 <= i < |queue| ensures Q.EntryOk(queue[i], after) {
      assert Q.EntryOk(queue[i], before);
    }
    forall g | g in after && S.Waits(after[g]) ensures Q.InQueue(queue, g) {
      assert S.Waits(before[g]);
    }
  }

  // ----- the pass over the queue

  /** The forwards of a pass, and the records before and after. */
  ghost predicate Issues(queue: seq<Q.Pending>, picked: seq<Q.Prepared>, chunks: seq<int>, before: map<int, S.Req>,
                         after: map<int, S.Req>, flight: seq<Ref>) {
    Q.Chunked(queue, picked, chunks) && IssuedFor(Q.ExtendsOf(Q.SharesOf(queue, picked, chunks)), flight, before, after)
  }

  /** The forward of a prompt that was picked. */
  lemma ForwardOf(queue: seq<Q.Pending>, picked: seq<Q.Prepared>, chunks: seq<int>, before: map<int, S.Req>,
                  after: map<int, S.Req>, flight: seq<Ref>, i: nat)
    requires Issues(queue, picked, chunks, before, after, flight) && i < |picked|
    ensures var g := queue[picked[i].index].gen;
            && g in S.GensOf(flight)
            && exists l :: 0 <= l < |flight| && flight[l].gen == g && flight[l].at == picked[i].cached + chunks[i]
  {
    hide S.BatchLaunched, S.GensOf;
    var batch := Q.ExtendsOf(Q.SharesOf(queue, picked, chunks));
    assert batch[i].req == queue[picked[i].index].gen && InBatch(batch, batch[i].req);
    LaunchedIndex(flight, batch[i].req);
  }

  /** A prompt that was served goes on waiting exactly if a part of it is left. */
  lemma Served(queue: seq<Q.Pending>, picked: seq<Q.Prepared>, chunks: seq<int>, before: map<int, S.Req>,
               after: map<int, S.Req>, flight: seq<Ref>, i: nat)
    requires Q.SameWaiting(queue, before) && Issues(queue, picked, chunks, before, after, flight) && i < |picked|
    ensures var e := Q.After(queue, picked[i], chunks[i]);
            && e.gen in S.GensOf(flight) && e.gen in after && (S.Waits(after[e.gen]) <==> e.resident)
            && (e.resident ==> Q.EntryOk(e, after))
  {
    hide Q.InQueue, S.GensOf, Q.ExtendsOf, Q.SharesOf, ForBatch;
    var g := queue[picked[i].index].gen;
    assert Q.EntryOk(queue[picked[i].index], before);
    ForwardOf(queue, picked, chunks, before, after, flight, i);
    var l :| 0 <= l < |flight| && flight[l].gen == g && flight[l].at == picked[i].cached + chunks[i];
    assert S.LaunchedIn(before, after, flight[l]);
    assert chunks[i] <= Q.RemainingOf(queue, picked)[i];
  }

  /** A prompt that was not served is as it was. */
  lemma NotServed(queue: seq<Q.Pending>, picked: seq<Q.Prepared>, chunks: seq<int>, before: map<int, S.Req>,
                  after: map<int, S.Req>, flight: seq<Ref>, k: nat)
    requires Q.SameWaiting(queue, before) && Issues(queue, picked, chunks, before, after, flight) && k < |queue|
    ensures Q.Picks(picked, k) <==> queue[k].gen in S.GensOf(flight)
    ensures !Q.Picks(picked, k) ==> Q.EntryOk(queue[k], after)
  {
    hide Q.InQueue, S.GensOf, S.Waits;
    var batch := Q.ExtendsOf(Q.SharesOf(queue, picked, chunks));
    if Q.Picks(picked, k) {
      var i :| 0 <= i < |picked| && picked[i].index == k;
      ForwardOf(queue, picked, chunks, before, after, flight, i);
    } else {
      assert Q.EntryOk(queue[k], before);
      forall j | 0 <= j < |batch| ensures batch[j].req != queue[k].gen {
        assert picked[j].index != k;
      }
      assert !InBatch(batch, queue[k].gen);
    }
  }

  /** After a pass the queue still lists exactly the waiting requests. */
  lemma PassStays(queue: seq<Q.Pending>, picked: seq<Q.Prepared>, chunks: seq<int>, before: map<int, S.Req>,
                  after: map<int, S.Req>, flight: seq<Ref>)
    requires Q.SameWaiting(queue, before) && Issues(queue, picked, chunks, before, after, flight)
    ensures Q.SameWaiting(Q.Rotated(queue, picked, chunks), after)
  {
    hide S.Waits, Q.EntryOk, IssuedFor, Q.After, S.GensOf;
    var a, b := Q.Unscheduled(queue, picked, |queue|), Q.Unfinished(queue, picked, chunks, |picked|);
    Q.PassApart(queue, picked, chunks);
    forall i | 0 <= i < |a| ensures Q.EntryOk(a[i], after) {
      Q.UnscheduledHas(queue, picked, |queue|, a[i]);
      var k: nat :| k < |queue| && !Q.Picks(picked, k) && queue[k] == a[i];
      NotServed(queue, picked, chunks, before, after, flight, k);
    }
    forall i | 0 <= i < |b| ensures Q.EntryOk(b[i], after) {
      Q.UnfinishedHas(queue, picked, chunks, |picked|, b[i]);
      var l: nat :| l < |picked| && Q.After(queue, picked[l], chunks[l]) == b[i];
      Served(queue, picked, chunks, before, after, flight, l);
    }
    forall g | g in after && S.Waits(after[g]) ensures Q.InQueue(a + b, g) {
      StillListed(queue, picked, chunks, before, after, flight, g);
    }
  }

  lemma StillListed(queue: seq<Q.Pending>, picked: seq<Q.Prepared>, chunks: seq<int>, before: map<int, S.Req>,
                    after: map<int, S.Req>, flight: seq<Ref>, g: int)
    requires Q.SameWaiting(queue, before) && Issues(queue, picked, chunks, before, after, flight) && g in after
    requires S.Waits(after[g])
    ensures Q.InQueue(Q.Rotated(queue, picked, chunks), g)
  {
    hide Q.EntryOk, Q.Matches, S.GensOf, Q.Unscheduled, Q.Unfinished, Q.RemainingOf;
    var a, b := Q.Unscheduled(queue, picked, |queue|), Q.Unfinished(queue, picked, chunks, |picked|);
    var batch := Q.ExtendsOf(Q.SharesOf(queue, picked, chunks));
    if g in S.GensOf(flight) {
      assert InBatch(batch, g);
      var i :| 0 <= i < |batch| && batch[i].req == g;
      Served(queue, picked, chunks, before, after, flight, i);
      Q.UnfinishedHas(queue, picked, chunks, |picked|, Q.After(queue, picked[i], chunks[i]));
      ListedBehind(a, b, Q.After(queue, picked[i], chunks[i]));
    } else {
      assert after[g] == before[g] && Q.InQueue(queue, g);
      var k :| 0 <= k < |queue| && queue[k].gen == g;
      NotServed(queue, picked, chunks, before, after, flight, k);
      Q.UnscheduledHas(queue, picked, |queue|, queue[k]);
      ListedInFront(a, b, queue[k]);
    }
  }

  lemma ListedInFront(a: seq<Q.Pending>, b: seq<Q.Pending>, x: Q.Pending)
    requires x in a
    ensures Q.InQueue(a + b, x.gen)
  {
    var j :| 0 <= j < |a| && a[j] == x;
    assert (a + b)[j].gen == x.gen;
  }

  lemma ListedBehind(a: seq<Q.Pending>, b: seq<Q.Pending>, x: Q.Pending)
    requires x in b
    ensures Q.InQueue(a + b, x.gen)
  {
    var j :| 0 <= j < |b| && b[j] == x;
    assert (a + b)[|a| + j].gen == x.gen;
  }

  /** A waiting request is in the scheduler's queue, has nothing on the host but its
      prompt, and a part of it is left. */
  lemma WaitingMeans(w: S.World, flight: seq<Ref>, ids: Reasoning.TokenIds)
    requires S.WorldOk(w, flight, ids)
    ensures forall g :: g in w.pending <==> g in w.reqs && S.Waits(w.reqs[g])
    ensures forall g :: g in w.reqs && S.Waits(w.reqs[g]) ==>
      w.reqs[g].cached < w.reqs[g].prompt && w.reqs[g].slot >= -1
  {
    hide S.LifeOk, S.LengthsOk, S.RecsOk, S.FlightOk;
    forall g | g in w.pending ensures g in w.reqs && S.Waits(w.reqs[g]) {
      S.PendingRecord(w, g, flight, ids);
    }
    forall g | g in w.reqs && S.Waits(w.reqs[g])
      ensures g in w.pending && w.reqs[g].cached < w.reqs[g].prompt && w.reqs[g].slot >= -1
    {
      S.ListedWhere(w, g, flight, ids);
      WaitingShape(w, flight, ids, g);
    }
  }

  /** The queue after a step of the batch choice. */
  lemma StepQueue(a: B.State, e: B.Event, b: B.State, q: nat)
    requires B.Step(a, e, b, q)
    ensures var queue := B.Receive(a.queue, e.msgs);
            if e.picked == [] then b.queue == queue
            else Q.Chunked(queue, e.picked, e.chunks)
                 && b.queue == Q.Rotated(queue, e.picked, e.chunks)
  {
  }

  /** The queue after one more message, if there is any. */
  function Delivered(queue: seq<Q.Pending>, event: Option<B.Msg>): seq<Q.Pending> {
    match event
    case None => queue
    case Some(Arrive(g, n)) => queue + [Q.Pending(g, n, false, 0, 0)]
    case Some(Abort(g)) => B.Without(queue, g)
  }

  lemma ReceiveNone(queue: seq<Q.Pending>)
    ensures B.Receive(queue, []) == queue
  {
  }

  lemma ReceiveLast(queue: seq<Q.Pending>, events: seq<B.Msg>, e: B.Msg)
    ensures B.Receive(queue, events + [e]) == Delivered(B.Receive(queue, events), Some(e))
  {
    assert (events + [e])[..|events|] == events;
  }

  /** What an iteration issued: the shares of the pass, or one decode step. */
  ghost predicate Issued(queue: seq<Q.Pending>, e: B.Event, r: Round) {
    && Q.SameWaiting(queue, r.before) && (e.decode <==> exists g :: g in r.before && S.Runs(r.before[g]))
    && (e.picked != [] ==>
         Q.Chunked(queue, e.picked, e.chunks) && r.batch == Q.ExtendsOf(Q.SharesOf(queue, e.picked, e.chunks)))
    && (e.picked == [] ==> if e.decode then DecodeOf(r.batch, r.before) else r.batch == [])
  }

  lemma EmptyRound(queue: seq<Q.Pending>, e: B.Event, r: Round)
    requires Issued(queue, e, r) && r.batch == []
    ensures e.picked == [] && !e.decode
  {
    hide Q.SameWaiting, S.Runs, NextOf;
    if e.picked == [] && e.decode {
      SomeDecodes(r.batch, r.before);
    }
  }

  lemma SomeDecodes(batch: seq<C.Extend>, reqs: map<int, S.Req>)
    requires DecodeOf(batch, reqs) && exists g :: g in reqs && S.Runs(reqs[g])
    ensures batch != []
  {
    hide S.Runs, NextOf;
    var g :| g in reqs && S.Runs(reqs[g]);
    assert InBatch(batch, g);
  }

  lemma NoneForgotten(w: S.World, flight: seq<Ref>, ids: Reasoning.TokenIds)
    requires S.WorldOk(w, flight, ids)
    ensures NobodyForgotten(w.reqs, flight)
  {
    hide S.WorldOk, S.Waits, S.Runs, SampleComes;
    RunningAll(w, flight, ids);
    WaitingMeans(w, flight, ids);
    forall g | g in w.reqs && w.reqs[g].life.state == Active
      ensures S.Waits(w.reqs[g]) || S.Runs(w.reqs[g]) || SampleComes(flight, g)
    {
      S.ActiveGoesOn(w, flight, ids, g);
      if i :| 0 <= i < |flight| && flight[i].gen == g && !flight[i].chunk {
        ItComes(flight, g, i);
      }
    }
  }

  lemma ItComes(flight: seq<Ref>, g: int, i: nat)
    requires i < |flight| && flight[i].gen == g && !flight[i].chunk
    ensures SampleComes(flight, g)
  {
  }

  lemma ServedOrComing(queue: seq<Q.Pending>, e: B.Event, r: Round, flight: seq<Ref>)
    requires Issued(queue, e, r) && NobodyForgotten(r.before, flight)
    ensures NobodyLeftOut(e, r, flight)
  {
    hide Q.SameWaiting, S.Runs, NextOf, InBatch, SampleComes;
  }

  /** A decode step samples for every request. */
  lemma SamplesOnly(queue: seq<Q.Pending>, e: B.Event, r: Round)
    requires Issued(queue, e, r) && RoundOk(r) && e.picked == []
    ensures forall i :: 0 <= i < |r.flight| ==> !r.flight[i].chunk
  {
    hide Q.SameWaiting, S.Runs, S.BatchLaunched, InBatch, S.GensOf;
    forall i | 0 <= i < |r.flight| ensures !r.flight[i].chunk {
      S.InGens(r.flight, i);
      if e.decode {
        BatchHas(r.batch, r.flight[i].gen);
        var j :| 0 <= j < |r.batch| && r.batch[j].req == r.flight[i].gen;
        assert NextOf(r.batch[j], r.before);
      } else {
        NoForwards(r);
      }
    }
  }

  lemma BatchHas(batch: seq<C.Extend>, g: int)
    requires InBatch(batch, g)
    ensures exists j :: 0 <= j < |batch| && batch[j].req == g
  {
  }

  /** One iteration as a step of a run. */
  lemma TurnMade(t: Turn, q: nat, queue: seq<Q.Pending>)
    requires B.Step(t.a, t.e, t.b, q) && Issued(queue, t.e, t.r) && RoundOk(t.r)
    requires NobodyForgotten(t.r.before, t.last) && S.Hosted(t.r.after, t.last, t.after, [])
    requires WithinOutput(t.after, t.r.flight)
    ensures TurnOk(t, q)
  {
    hide B.Step, NobodyForgotten, S.Hosted, WithinOutput, RoundOk, S.Runs, Q.SameWaiting, DecodeOf;
    ServedOrComing(queue, t.e, t.r, t.last);
    if t.e.picked == [] {
      SamplesOnly(queue, t.e, t.r);
    }
  }

  class Loop {
    const server: Serving.Server
    const dispatcher: B.Dispatcher

    /** Server, arbiter and queue are in order, and the queue lists exactly the requests
        that wait, with what has been computed of them. */
    ghost predicate Valid()
      reads this, server, server.scheduler, server.manager, server.manager.cache, server.manager.pool
      reads dispatcher, dispatcher.policy, dispatcher.prefill
    {
      && server.Valid() && P.PolicyOk(dispatcher.policy.View()) && Q.QueueOk(dispatcher.prefill.pending)
      && dispatcher.prefill.server == server && Q.SameWaiting(dispatcher.prefill.pending, server.scheduler.reqs)
    }

    constructor (slots: nat, maxSeqLen: nat, ids: Reasoning.TokenIds, pages: nat, pageSize: Paging.PageSize,
                 window: nat, swaPages: nat, isolatedBudget: nat, mixedBudget: nat, maxDecode: nat, first: P.Phase)
      requires swaPages > 0 && isolatedBudget > 0 && mixedBudget > 0 && maxDecode > 0
      ensures Valid() && server.scheduler.ongoing == [] && !server.manager.inRegion
      ensures server.scheduler.maxSeqLen == maxSeqLen && dispatcher.prefill.pending == []
    {
      hide Serving.Server.Valid;
      var all := new Serving.Server(slots, maxSeqLen, ids, pages, pageSize, window, swaPages);
      var policy := new P.MixedPhaseFairPolicy(isolatedBudget, mixedBudget, maxDecode, first);
      var prefill := new Q.PrefillManager(all);
      server := all;
      dispatcher := new B.Dispatcher(policy, prefill);
    }

    lemma InOrder()
      requires server.Valid()
      ensures S.WorldOk(server.scheduler.View(), server.scheduler.last + server.scheduler.ongoing, server.scheduler.ids)
    {
      hide CacheManagement.CacheManager.Valid, Linked, WindowsKept, WindowsTrimmed, S.WorldOk, S.BooksOk, S.InSequence,
        OncePerRequest;
    }

    lemma GenerationsUsed()
      requires server.Valid()
      ensures forall g :: g in server.scheduler.reqs ==> g < server.scheduler.nextGeneration
    {
      hide CacheManagement.CacheManager.Valid, Linked, WindowsKept, WindowsTrimmed, S.WorldOk, S.BooksOk, S.InSequence,
        OncePerRequest;
      S.GenerationsBelow(server.scheduler.reqs, server.scheduler.Rest(), server.scheduler.maxSeqLen);
    }

    lemma EnoughLeft()
      requires server.Valid() && server.scheduler.ongoing == []
      ensures WithinOutput(server.scheduler.reqs, server.scheduler.last)
    {
      hide Serving.Server.Valid, S.WorldOk, WithinOutput;
      InOrder();
      Enough(server.scheduler.View(), server.scheduler.last + server.scheduler.ongoing, server.scheduler.ids);
      assert server.scheduler.last + [] == server.scheduler.last;
    }

    lemma NoneLeftOut()
      requires server.Valid() && server.scheduler.ongoing == []
      ensures NobodyForgotten(server.scheduler.reqs, server.scheduler.last)
    {
      hide Serving.Server.Valid, S.WorldOk, NobodyForgotten;
      InOrder();
      NoneForgotten(server.scheduler.View(), server.scheduler.last + server.scheduler.ongoing, server.scheduler.ids);
      assert server.scheduler.last + [] == server.scheduler.last;
    }

    /** Hands one message to the server and says what it means for the queue. */
    method ReceiveOne(msg: Serving.Msg, ghost queue: seq<Q.Pending>) returns (event: Option<B.Msg>)
      requires server.Valid() && server.scheduler.ongoing == [] && server.scheduler.maxSeqLen > 0
      requires Serving.MsgsOk([msg], server.scheduler.seen) && Q.SameWaiting(queue, server.scheduler.reqs)
      modifies server`prompts, server.scheduler, server.manager, server.manager.cache, server.manager.pool
      ensures server.Valid() && server.scheduler.ongoing == [] && server.scheduler.last == old(server.scheduler.last)
      ensures server.manager.inRegion == old(server.manager.inRegion)
      ensures server.scheduler.seen
        == if msg.UserMsg? then old(server.scheduler.seen) + {msg.uid} else old(server.scheduler.seen)
      ensures Q.SameWaiting(Delivered(queue, event), server.scheduler.reqs)
      ensures event.Some? ==> B.ArrivalsOk([event.value])
      ensures event.Some? && event.value.Arrive? ==> !Q.InQueue(queue, event.value.gen)
      ensures msg.AbortMsg? ==> S.Stopped(server.scheduler.reqs, msg.uid)
      ensures S.OthersKept(old(server.scheduler.reqs), server.scheduler.reqs)
      ensures server.scheduler.nextGeneration >= old(server.scheduler.nextGeneration)
      ensures forall g :: g in server.scheduler.reqs ==>
        g in old(server.scheduler.reqs) || g >= old(server.scheduler.nextGeneration)
      ensures forall u :: u in old(server.scheduler.seen) && S.Stopped(old(server.scheduler.reqs), u) ==>
        S.Stopped(server.scheduler.reqs, u)
    {
      hide Q.SameWaiting, S.AbortedIn, S.Stopped, S.Waits, Serving.Server.Valid, Scheduling.Scheduler.Valid, S.WorldOk,
        B.Without, Serving.Server.IsStored, Serving.Server.Computed, Serving.Server.Retires, Q.Matches;
      ghost var w, flight := server.scheduler.View(), server.scheduler.last + server.scheduler.ongoing;
      InOrder();
      WaitingMeans(w, flight, server.scheduler.ids);
      event := None;
      match msg
      case UserMsg(uid, tokens, maxTokens, ignoreEos, effort) =>
        var g := server.scheduler.nextGeneration;
        server.Submit(uid, tokens, maxTokens, ignoreEos, effort);
        S.OthersStopped(w.reqs, server.scheduler.reqs, uid, old(server.scheduler.seen));
        if |tokens| < server.scheduler.maxSeqLen {
          event := Some(B.Arrive(g, |tokens|));
          Arrives(queue, w.reqs, g, server.scheduler.reqs[g]);
          NotListed(queue, w.reqs, g);
        }
      case AbortMsg(uid) =>
        var s := server.scheduler;
        if exists g :: g in s.pending && g in s.reqs && s.reqs[g].uid == uid {
          var g :| g in s.pending && g in s.reqs && s.reqs[g].uid == uid;
          event := Some(B.Abort(g));
          S.SameUid(w, flight, server.scheduler.ids, g);
          server.Abort(uid);
          OneAborted(queue, w.reqs, server.scheduler.reqs, uid, g);
        } else {
          server.Abort(uid);
          NoneAborted(queue, w.reqs, server.scheduler.reqs, uid);
        }
        S.StaysStopped(w.reqs, server.scheduler.reqs, uid);
        S.KeptAborted(w.reqs, server.scheduler.reqs, uid);
    }

    /** New and aborted requests reach the server and, as events, the queue. */
    method ReceiveMsgs(msgs: seq<Serving.Msg>) returns (events: seq<B.Msg>)
      requires Valid() && server.scheduler.ongoing == [] && server.scheduler.maxSeqLen > 0
      requires Serving.MsgsOk(msgs, server.scheduler.seen)
      modifies server`prompts, server.scheduler, server.manager, server.manager.cache, server.manager.pool
      ensures server.scheduler.ongoing == [] && server.scheduler.last == old(server.scheduler.last)
      ensures server.manager.inRegion == old(server.manager.inRegion)
      ensures Q.SameWaiting(B.Receive(dispatcher.prefill.pending, events), server.scheduler.reqs)
      ensures B.ArrivalsOk(events) && G.Fresh(dispatcher.prefill.pending, events)
      ensures Serving.AbortsStopped(msgs, old(server.scheduler.seen), server.scheduler.reqs)
      ensures S.OthersKept(old(server.scheduler.reqs), server.scheduler.reqs)
      ensures server.Valid()
    {
      hide Q.SameWaiting, Serving.Server.Valid, B.Without, S.Stopped, B.Receive, G.Fresh, Q.InQueue;
      events := [];
      G.FreshNone(dispatcher.prefill.pending);
      GenerationsUsed();
      S.KeptSame(server.scheduler.reqs);
      ReceiveNone(dispatcher.prefill.pending);
      for i := 0 to |msgs|
        invariant server.Valid() && server.scheduler.ongoing == []
        invariant server.scheduler.last == old(server.scheduler.last)
        invariant server.manager.inRegion == old(server.manager.inRegion)
        invariant Serving.MsgsOk(msgs[i..], server.scheduler.seen)
        invariant Q.SameWaiting(B.Receive(dispatcher.prefill.pending, events), server.scheduler.reqs)
        invariant B.ArrivalsOk(events) && G.Fresh(dispatcher.prefill.pending, events)
        invariant old(server.scheduler.seen) <= server.scheduler.seen
        invariant S.OthersKept(old(server.scheduler.reqs), server.scheduler.reqs)
        invariant server.scheduler.nextGeneration >= old(server.scheduler.nextGeneration)
        invariant Serving.AbortsStopped(msgs[..i], old(server.scheduler.seen), server.scheduler.reqs)
      {
        assert msgs[i..][0] == msgs[i] && msgs[i..][1..] == msgs[i + 1..] && [msgs[i]][1..] == [];
        assert msgs[..i + 1] == msgs[..i] + [msgs[i]];
        ghost var before, next := server.scheduler.reqs, server.scheduler.nextGeneration;
        var event := ReceiveOne(msgs[i], B.Receive(dispatcher.prefill.pending, events));
        S.KeptMore(old(server.scheduler.reqs), before, server.scheduler.reqs, old(server.scheduler.nextGeneration),
          next);
        if event.Some? {
          ReceiveLast(dispatcher.prefill.pending, events, event.value);
          G.FreshMore(dispatcher.prefill.pending, events, event.value);
          events := events + [event.value];
        }
      }
      assert msgs[..|msgs|] == msgs;
    }

    /** Issues the batch that was chosen.  The scheduler takes every batch of the queue, and
        the only way to fail is that a lane is short of the pages the batch needs. */
    method Issue(shares: seq<Q.Share>, ghost queue: seq<Q.Pending>, ghost e: B.Event, ghost a: Adder)
      returns (ok: bool, ghost r: Round)
      requires Q.SameWaiting(queue, server.scheduler.reqs) && server.scheduler.ongoing == []
      requires shares == [] <==> e.picked == []
      requires e.decode <==> server.scheduler.running != {}
      requires shares != [] ==> B.SharesFit(queue, e, shares, |server.scheduler.freeSlots|)
      requires if shares != [] then server.Preparing(Q.ExtendsOf(shares), a) else server.Valid()
      modifies server.scheduler, server.manager, server.manager.cache, server.manager.pool
      ensures server.manager.inRegion == old(server.manager.inRegion)
      ensures server.scheduler.last == old(server.scheduler.last)
      ensures r.before == old(server.scheduler.reqs) && Issued(queue, e, r)
      ensures ok ==> RoundOk(r) && r.flight == server.scheduler.ongoing && r.after == server.scheduler.reqs
      ensures !ok ==> server.Starved(r)
      ensures ok && e.picked == [] ==> Q.SameWaiting(queue, server.scheduler.reqs)
      ensures ok && e.picked != [] ==>
        Q.SameWaiting(Q.Rotated(queue, e.picked, e.chunks), server.scheduler.reqs)
      ensures ok ==> server.Valid()
    {
      hide Q.SameWaiting, Serving.Server.Valid, Serving.Server.Preparing, CacheManagement.CacheManager.Valid, S.Runs,
        IssuedFor, DecodeOf, CacheManagement.CacheManager.Short, Q.SharesOf, Q.ExtendsOf, Q.NewPicked;
      ghost var before := server.scheduler.reqs;
      RunningSome(shares, a);
      NothingIssued(before);
      ok, r := true, Round([], [], before, before);
      if shares != [] {
        ok := server.IssuePrefill(Q.ExtendsOf(shares), a);
        r := Round(Q.ExtendsOf(shares), server.scheduler.ongoing, before, server.scheduler.reqs);
        if ok {
          PassStays(queue, e.picked, e.chunks, before, server.scheduler.reqs, server.scheduler.ongoing);
        }
      } else if server.scheduler.running != {} {
        ghost var rows;
        ok, rows := server.ScheduleDecode();
        r := Round(rows, server.scheduler.ongoing, before, server.scheduler.reqs);
        if ok {
          DecodeStays(queue, before, server.scheduler.reqs, rows, server.scheduler.ongoing);
        }
      }
    }

    lemma RunningSome(shares: seq<Q.Share>, a: Adder)
      requires if shares != [] then server.Preparing(Q.ExtendsOf(shares), a) else server.Valid()
      ensures server.scheduler.running != {} <==>
        exists g :: g in server.scheduler.reqs && S.Runs(server.scheduler.reqs[g])
    {
      hide CacheManagement.CacheManager.Valid, Scheduling.Scheduler.Valid, Ready, WindowsKept, WindowsTrimmed, Gathered,
        Linked, S.Runs;
      server.RunningListed();
      if server.scheduler.running != {} {
        S.SomeMember(server.scheduler.running);
      }
    }

    /** When nobody holds anything and there is no place for any prompt, all that wait are too
        large. */
    lemma IdleTooLarge()
      requires server.Valid() && !server.manager.inRegion && S.NobodyHolds(server.scheduler.reqs)
      requires dispatcher.prefill.server == server
      requires Q.SameWaiting(dispatcher.prefill.pending, server.scheduler.reqs)
      requires dispatcher.prefill.NonePlacedNow(|dispatcher.prefill.pending|, dispatcher.prefill.AllOpen())
      ensures AllTooLarge(server.scheduler.reqs)
    {
      hide Serving.Server.Valid, Serving.Server.TooLarge, Refused, S.NobodyHolds, S.Reserved, S.Waits, Q.EntryOk;
      var queue, reqs := dispatcher.prefill.pending, server.scheduler.reqs;
      forall g | g in reqs && S.Waits(reqs[g]) ensures server.TooLarge(reqs[g]) {
        assert Q.InQueue(queue, g);
        var k :| 0 <= k < |queue| && queue[k].gen == g;
        PromptKept(g);
        assert Q.NoPlace(queue[k], server.prompts, reqs, server.manager.Supplies(), dispatcher.prefill.AllOpen(),
            server.manager.pageSize);
        server.RefusedTooLarge(g);
      }
    }

    lemma PromptKept(g: int)
      requires server.Valid() && g in server.scheduler.reqs
      ensures g in server.prompts
    {
      hide CacheManagement.CacheManager.Valid, Scheduling.Scheduler.Valid, HolderOk, WindowsKept, WindowsTrimmed;
    }

    /** The table has slots, and the cache holds a sequence of the admitted length. */
    predicate Sized() {
      && server.scheduler.slots > 0
      && server.scheduler.maxSeqLen <= Paging.TokensIn(server.manager.pages, server.manager.pageSize)
    }

    ghost predicate NobodyWaits(reqs: map<int, S.Req>) {
      forall g :: g in reqs ==> !S.Waits(reqs[g])
    }

    /** No accepted request is too large. */
    lemma NoneTooLarge()
      requires server.Valid() && AllTooLarge(server.scheduler.reqs) && Sized()
      ensures NobodyWaits(server.scheduler.reqs)
    {
      hide CacheManagement.CacheManager.Valid, Linked, WindowsKept, WindowsTrimmed, S.WorldOk, S.InSequence,
        OncePerRequest, S.Waits, Paging.TokensIn;
      var reqs := server.scheduler.reqs;
      forall g | g in reqs ensures !server.TooLarge(reqs[g]) {
        assert reqs[g].prompt + reqs[g].output <= server.scheduler.maxSeqLen;
      }
    }

    /** Every request that waits needs more than the whole cache and the whole table have. */
    ghost predicate AllTooLarge(reqs: map<int, S.Req>) {
      forall g :: g in reqs && S.Waits(reqs[g]) ==> server.TooLarge(reqs[g])
    }

    /** One iteration.  In every run the queue's passes are those of the batch choice, so no
        prompt starves, and the scheduler, the cache and the queue stay in agreement.  Nothing is
        issued while nobody holds anything only if nobody waits, in a cache of the size the
        program gives it.  The only way to stop is that a lane is short of the pages the chosen
        batch needs. */
    method OverlapLoop(msgs: seq<Serving.Msg>) returns (ok: bool, ghost event: B.Event, ghost r: Round)
      requires Valid() && server.scheduler.ongoing == [] && !server.manager.inRegion && server.scheduler.maxSeqLen > 0
      requires Serving.MsgsOk(msgs, server.scheduler.seen)
      modifies server, server.scheduler, server.manager, server.manager.cache, server.manager.pool, dispatcher.policy
      modifies dispatcher.prefill
      ensures B.Step(old(dispatcher.View()), event, dispatcher.View(), dispatcher.prefill.Quantum())
      ensures Issued(B.Receive(old(dispatcher.prefill.pending), event.msgs), event, r)
      ensures Serving.AbortsStopped(msgs, old(server.scheduler.seen), r.before)
      ensures G.Fresh(old(dispatcher.prefill.pending), event.msgs)
      ensures S.OthersKept(old(server.scheduler.reqs), r.before)
      ensures NobodyLeftOut(event, r, old(server.scheduler.last))
      ensures r.batch == [] ==> event.picked == []
      ensures r.batch == [] && S.NobodyHolds(r.before) ==> AllTooLarge(r.before)
      ensures r.batch == [] && S.NobodyHolds(r.before) && Sized() ==> NobodyWaits(r.before)
      ensures ok ==> RoundOk(r) && r.flight == server.scheduler.last && S.WaitingKept(r.after, server.scheduler.reqs)
      ensures ok ==>
        TurnOk(Turn(old(dispatcher.View()), event, dispatcher.View(), old(server.scheduler.last), r,
          server.scheduler.reqs), dispatcher.prefill.Quantum())
      ensures ok ==> server.scheduler.ongoing == [] && !server.manager.inRegion
      ensures !ok ==> server.Starved(r)
      ensures ok ==> Valid()
    {
      hide Q.SameWaiting, Serving.Server.Valid, Serving.Server.Preparing, CacheManagement.CacheManager.Valid, B.Step,
        B.Receive, B.SharesFit, Serving.AbortsStopped, Issued, RoundOk, Serving.Server.Starved, S.WaitingKept,
        NobodyForgotten, G.Fresh, S.OthersKept, S.Hosted,
        TurnOk, NobodyLeftOut;
      ghost var before := dispatcher.View();
      var events := ReceiveMsgs(msgs);
      NoneLeftOut();
      var decode := server.scheduler.running != {};
      var raised, phase, shares;
      ghost var a;
      raised, phase, shares, event, a := dispatcher.ScheduleNextBatch(events, decode);
      StepQueue(before, event, dispatcher.View(), dispatcher.prefill.Quantum());
      ghost var queue := B.Receive(before.queue, events);
      if phase == None && S.NobodyHolds(server.scheduler.reqs) {
        IdleTooLarge();
        if Sized() {
          NoneTooLarge();
        }
      }
      ok, r := Issue(shares, queue, event, a);
      ServedOrComing(queue, event, r, old(server.scheduler.last));
      if r.batch == [] {
        EmptyRound(queue, event, r);
      }
      if !ok {
        return;
      }
      ghost var issued := server.scheduler.reqs;
      server.ProcessLast();
      WaitingStays(dispatcher.prefill.pending, issued, server.scheduler.reqs);
      server.Rotate();
      EnoughLeft();
      TurnMade(Turn(before, event, dispatcher.View(), old(server.scheduler.last), r, server.scheduler.reqs),
        dispatcher.prefill.Quantum(), queue);
    }

    /** The loop without overlap: the forward just issued is read in the same round. */
    method NormalLoop(msgs: seq<Serving.Msg>) returns (ok: bool, ghost event: B.Event, ghost r: Round)
      requires Valid() && server.scheduler.ongoing == [] && server.scheduler.last == [] && !server.manager.inRegion
      requires server.scheduler.maxSeqLen > 0 && Serving.MsgsOk(msgs, server.scheduler.seen)
      modifies server, server.scheduler, server.manager, server.manager.cache, server.manager.pool, dispatcher.policy
      modifies dispatcher.prefill
      ensures B.Step(old(dispatcher.View()), event, dispatcher.View(), dispatcher.prefill.Quantum())
      ensures Issued(B.Receive(old(dispatcher.prefill.pending), event.msgs), event, r)
      ensures Serving.AbortsStopped(msgs, old(server.scheduler.seen), r.before)
      ensures G.Fresh(old(dispatcher.prefill.pending), event.msgs)
      ensures S.OthersKept(old(server.scheduler.reqs), r.before)
      ensures NobodyLeftOut(event, r, old(server.scheduler.last))
      ensures r.batch == [] ==> event.picked == []
      ensures r.batch == [] && S.NobodyHolds(r.before) ==> AllTooLarge(r.before)
      ensures r.batch == [] && S.NobodyHolds(r.before) && Sized() ==> NobodyWaits(r.before)
      ensures ok ==> RoundOk(r) && S.WaitingKept(r.after, server.scheduler.reqs)
      ensures ok ==> S.Hosted(r.after, r.flight, server.scheduler.reqs, [])
      ensures ok ==> server.scheduler.ongoing == [] && server.scheduler.last == [] && !server.manager.inRegion
      ensures !ok ==> server.Starved(r)
      ensures ok ==> Valid()
    {
      hide Q.SameWaiting, Serving.Server.Valid, CacheManagement.CacheManager.Valid, B.Step, B.Receive,
        Serving.AbortsStopped, Issued, RoundOk, Serving.Server.Starved, S.WaitingKept, NobodyForgotten, G.Fresh,
        S.OthersKept, S.Hosted, TurnOk, NobodyLeftOut;
      ghost var before := dispatcher.View();
      ok, event, r := OverlapLoop(msgs);
      if ok {
        ghost var issued := server.scheduler.reqs;
        server.ProcessLast();
        WaitingStays(dispatcher.prefill.pending, issued, server.scheduler.reqs);
        S.KeptThrough(r.after, issued, server.scheduler.reqs);
        TurnRead(Turn(before, event, dispatcher.View(), [], r, issued), dispatcher.prefill.Quantum());
        S.HostedLater(r.after, issued, r.flight, server.scheduler.reqs);
      }
    }
  }

}
