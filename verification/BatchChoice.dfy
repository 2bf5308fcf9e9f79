/** Which batch the scheduler issues next: the arbiter picks the phase, the prefill queue
    or the running set supplies the batch, and the arbiter is told what was scheduled.
    Together they bound how long a prompt can wait. */
module BatchChoice {
  import opened FairPrefill
  import opened PrefillQueue
  import opened Options
  import L = ServingSteps
  import P = PhasePolicy
  import Serving

  datatype Msg = Arrive(gen: int, inputLen: nat) | Abort(gen: int)

  datatype State = State(policy: P.Policy, queue: seq<Pending>)

  /** One iteration: the messages, whether anything can decode, and the prefill pass. */
  datatype Event = Event(msgs: seq<Msg>, decode: bool, picked: seq<Prepared>, chunks: seq<int>)

  // ----- messages

  function Find(queue: seq<Pending>, gen: int): (i: nat)
    ensures i <= |queue| && (i < |queue| ==> queue[i].gen == gen)
    ensures forall j :: 0 <= j < i ==> queue[j].gen != gen
  {
    if queue == [] || queue[0].gen == gen then 0 else 1 + Find(queue[1..], gen)
  }

  function Without(queue: seq<Pending>, gen: int): seq<Pending> {
    var i := Find(queue, gen);
    if i < |queue| then queue[..i] + queue[i + 1..] else queue
  }

  function Receive(queue: seq<Pending>, msgs: seq<Msg>): seq<Pending> {
    if msgs == [] then queue
    else
      var before := Receive(queue, msgs[..|msgs| - 1]);
      match msgs[|msgs| - 1]
      case Arrive(g, n) => before + [Pending(g, n, false, 0, 0)]
      case Abort(g) => Without(before, g)
  }

  lemma {:induction false} ReceiveKeeps(queue: seq<Pending>, msgs: seq<Msg>, k: nat, x: Pending)
    requires k < |queue| && queue[k] == x && Abort(x.gen) !in msgs
    ensures exists l :: 0 <= l <= k && l < |Receive(queue, msgs)| && Receive(queue, msgs)[l] == x
  {
    hide Without;
    if msgs == [] {
      assert Receive(queue, msgs)[k] == x;
    } else {
      var last := msgs[|msgs| - 1];
      assert last in msgs;
      ReceiveKeeps(queue, msgs[..|msgs| - 1], k, x);
      var before := Receive(queue, msgs[..|msgs| - 1]);
      var l :| 0 <= l <= k && l < |before| && before[l] == x;
      if last.Abort? {
        WithoutKeeps(before, last.gen, l, x);
        var j :| 0 <= j <= l && j < |Without(before, last.gen)| && Without(before, last.gen)[j] == x;
        assert Receive(queue, msgs)[j] == x;
      } else {
        assert Receive(queue, msgs)[l] == x;
      }
    }
  }

  lemma WithoutKeeps(queue: seq<Pending>, gen: int, l: nat, x: Pending)
    requires l < |queue| && queue[l] == x && x.gen != gen
    ensures exists j :: 0 <= j <= l && j < |Without(queue, gen)| && Without(queue, gen)[j] == x
  {
    assert Without(queue, gen)[if Find(queue, gen) <= l then l - 1 else l] == x;
  }

  lemma Removed(queue: seq<Pending>, g: int)
    requires GensApart(queue) && InQueue(queue, g)
    ensures GensApart(Without(queue, g))
    ensures forall i :: 0 <= i < |Without(queue, g)| ==>
      Without(queue, g)[i] in queue && Without(queue, g)[i].gen != g
    ensures forall h :: h != g && InQueue(queue, h) ==> InQueue(Without(queue, g), h)
  {
    var k, rest := Find(queue, g), Without(queue, g);
    assert k < |queue|;
    forall i | 0 <= i < |rest| ensures rest[i] in queue && rest[i].gen != g {
      assert rest[i] == queue[if i < k then i else i + 1];
    }
    forall h | h != g && InQueue(queue, h) ensures InQueue(rest, h) {
      var i :| 0 <= i < |queue| && queue[i].gen == h;
      assert rest[if i < k then i else i - 1].gen == h;
    }
  }

  // ----- the step

  predicate AnyResident(queue: seq<Pending>) {
    exists i :: 0 <= i < |queue| && queue[i].resident
  }

  /** What was scheduled when the prefill pass found nothing. */
  function Instead(decode: bool): Option<P.Phase> {
    if decode then Some(P.Decode) else None
  }

  ghost predicate Step(a: State, e: Event, b: State, q: nat) {
    var queue := Receive(a.queue, e.msgs);
    var d := P.Choose(a.policy, queue != [], e.decode);
    if d.phase != Some(P.Prefill) then
      e.picked == [] && b == State(P.Record(a.policy, d.phase, queue != [], e.decode), queue)
    else if e.picked == [] then
      && (d.prefillBudget >= q ==> !AnyResident(queue))
      && b == State(P.Record(a.policy, Instead(e.decode), queue != [], e.decode), queue)
    else
      && PassOk(queue, e.picked, e.chunks, b.queue, d.prefillBudget, q)
      && b.policy == P.Record(a.policy, Some(P.Prefill), queue != [], e.decode)
  }

  /** The pass gives tokens to the prompt. */
  ghost predicate Serves(a: State, e: Event, gen: int) {
    exists i: nat :: i < |Receive(a.queue, e.msgs)| && Receive(a.queue, e.msgs)[i].gen == gen && Picks(e.picked, i)
  }

  /** The shares of a pass, which need no more than the free table slots. */
  ghost predicate SharesFit(queue: seq<Pending>, e: Event, shares: seq<Share>, slots: nat) {
    && PickedOk(queue, e.picked) && |e.chunks| == |e.picked| && NewPicked(queue, e.picked) <= slots
    && (forall i :: 0 <= i < |e.chunks| ==> 0 < e.chunks[i] <= RemainingOf(queue, e.picked)[i])
    && shares == SharesOf(queue, e.picked, e.chunks)
  }

  class Dispatcher {
    const policy: P.MixedPhaseFairPolicy
    const prefill: PrefillManager

    ghost function View(): State
      reads this, policy, prefill
    {
      State(policy.View(), prefill.pending)
    }

    constructor (policy: P.MixedPhaseFairPolicy, prefill: PrefillManager)
      ensures this.policy == policy && this.prefill == prefill
    {
      this.policy, this.prefill := policy, prefill;
    }

    /** Removes a waiting prompt; `None` if it does not wait. */
    method AbortReq(gen: int) returns (found: Option<Pending>)
      modifies prefill
      ensures prefill.pending == Without(old(prefill.pending), gen)
      ensures found.Some? ==> found.value in old(prefill.pending) && found.value.gen == gen
      ensures found.None? <==> forall i :: 0 <= i < |old(prefill.pending)| ==> old(prefill.pending)[i].gen != gen
    {
      ghost var queue := prefill.pending;
      for i := 0 to |prefill.pending|
        invariant prefill.pending == queue && forall j :: 0 <= j < i ==> queue[j].gen != gen
      {
        if prefill.pending[i].gen == gen {
          found := Some(prefill.pending[i]);
          FoundAt(queue, gen, i);
          prefill.pending := prefill.pending[..i] + prefill.pending[i + 1..];
          return;
        }
      }
      found := None;
    }

    /** Handles the messages and chooses the next batch.  A prefill batch is prepared by the
        server. */
    method ScheduleNextBatch(msgs: seq<Msg>, decode: bool)
      returns (raised: bool, phase: Option<P.Phase>, shares: seq<Share>, ghost event: Event, ghost a: L.Adder)
      requires P.PolicyOk(policy.View()) && QueueOk(prefill.pending) && ArrivalsOk(msgs)
      requires prefill.server.Valid() && prefill.server.scheduler.ongoing == []
      requires SameWaiting(Receive(prefill.pending, msgs), prefill.server.scheduler.reqs)
      modifies policy, prefill, prefill.server`evicted, prefill.server`older, prefill.server.manager
      modifies prefill.server.manager.cache
      ensures prefill.server.manager.inRegion == old(prefill.server.manager.inRegion)
      ensures !raised && P.PolicyOk(policy.View()) && QueueOk(prefill.pending) && event.msgs == msgs
      ensures event.decode == decode
      ensures Step(old(View()), event, View(), prefill.Quantum())
      ensures phase == None <==> !decode && event.picked == []
      ensures (phase == Some(P.Prefill) <==> event.picked != []) && (phase == Some(P.Decode) ==> decode)
      ensures shares == [] <==> event.picked == []
      ensures shares != [] ==>
        SharesFit(Receive(old(prefill.pending), msgs), event, shares, |prefill.server.scheduler.freeSlots|)
      ensures shares != [] ==> prefill.server.Preparing(ExtendsOf(shares), a)
      ensures phase == None ==> prefill.NonePlacedNow(|prefill.pending|, prefill.AllOpen())
      ensures shares == [] ==> prefill.server.Valid()
    {
      hide PassOk, Without, Receive, SameWaiting, Serving.Server.Valid, Serving.Server.Preparing, RemainingOf,
        NewPicked, SharesOf, ExtendsOf, NewPassed, PrefillManager.NonePlacedNow, PrefillManager.AllOpen;
      ghost var before := View();
      Deliver(msgs);
      var prefillRunnable := |prefill.pending| > 0;
      var d := policy.ChoosePhase(prefillRunnable, decode);
      phase, raised, shares := None, false, [];
      event, a := Event(msgs, decode, [], []), L.Adder(0, 0);
      if !prefillRunnable {
        prefill.NobodyWaits();
      }
      if d.phase == Some(P.Prefill) {
        var batch, picked, chunks;
        PositiveBudget(policy.View(), prefillRunnable, decode);
        raised, batch, picked, chunks, a := prefill.ScheduleNextBatch(d.prefillBudget);
        if batch != [] {
          phase, shares := Some(P.Prefill), batch;
          event := Event(msgs, decode, picked, chunks);
          SharesSize(Receive(before.queue, msgs), picked, chunks, prefill.pending, d.prefillBudget, prefill.Quantum());
        } else if decode {
          phase := Some(P.Decode);
        }
      } else if d.phase == Some(P.Decode) {
        phase := Some(P.Decode);
      }
      policy.RecordScheduled(phase, prefillRunnable, decode);
    }

    method Deliver(msgs: seq<Msg>)
      requires QueueOk(prefill.pending) && ArrivalsOk(msgs)
      modifies prefill
      ensures prefill.pending == Receive(old(prefill.pending), msgs) && QueueOk(prefill.pending)
    {
      ghost var queue := prefill.pending;
      for i := 0 to |msgs|
        invariant prefill.pending == Receive(queue, msgs[..i]) && QueueOk(prefill.pending)
      {
        assert msgs[..i + 1][..i] == msgs[..i];
        match msgs[i]
        case Arrive(g, n) => prefill.AddOneReq(g, n);
        case Abort(g) => var found := AbortReq(g);
      }
      assert msgs[..|msgs|] == msgs;
    }
  }

  /** No prompt that arrives is empty. */
  predicate ArrivalsOk(msgs: seq<Msg>) {
    forall i :: 0 <= i < |msgs| && msgs[i].Arrive? ==> msgs[i].inputLen >= 1
  }

  lemma {:induction false} FoundAt(queue: seq<Pending>, gen: int, i: nat)
    requires i < |queue| && queue[i].gen == gen && forall j :: 0 <= j < i ==> queue[j].gen != gen
    ensures Find(queue, gen) == i
  {
  }

  lemma PositiveBudget(p: P.Policy, prefillRunnable: bool, decode: bool)
    requires P.PolicyOk(p) && P.Choose(p, prefillRunnable, decode).phase == Some(P.Prefill)
    ensures P.Choose(p, prefillRunnable, decode).prefillBudget > 0
  {
  }

  lemma SharesSize(queue: seq<Pending>, picked: seq<Prepared>, chunks: seq<int>, after: seq<Pending>, budget: int,
                   q: int)
    requires PassOk(queue, picked, chunks, after, budget, q)
    ensures picked != [] && PickedOk(queue, picked) && |chunks| == |picked|
    ensures forall i :: 0 <= i < |chunks| ==> 0 < chunks[i] <= RemainingOf(queue, picked)[i]
  {
  }

  // ----- how long a prompt waits

  /** A step either serves a resident prompt or brings its next service closer. */
  lemma StepCloser(a: State, e: Event, b: State, q: nat, k: nat, x: Pending)
    requires Step(a, e, b, q) && P.PolicyOk(a.policy) && a.policy.mixedBudget >= q
    requires k < |a.queue| && a.queue[k] == x && x.resident && Abort(x.gen) !in e.msgs
    ensures P.PolicyOk(b.policy) && b.policy.mixedBudget == a.policy.mixedBudget
    ensures b.policy.maxDecode == a.policy.maxDecode
    ensures Serves(a, e, x.gen) || exists l: nat ::
              l < |b.queue| && b.queue[l] == x && P.Patience(b.policy, l) < P.Patience(a.policy, k)
  {
    hide PassOk, P.Patience, Receive;
    ReceiveKeeps(a.queue, e.msgs, k, x);
    var queue := Receive(a.queue, e.msgs);
    var l: nat :| l <= k && l < |queue| && queue[l] == x;
    var d := P.Choose(a.policy, true, e.decode);
    P.StepWithPrompt(a.policy, e.decode);
    assert AnyResident(queue);
    var r: nat := l;
    if d.phase == Some(P.Prefill) && !Picks(e.picked, l) {
      ServedOrCloser(queue, e.picked, e.chunks, b.queue, d.prefillBudget, q, l);
      r :| r < l && r < |b.queue| && b.queue[r] == x;
    }
    if !(d.phase == Some(P.Prefill) && Picks(e.picked, l)) {
      assert P.Passed(a.policy, k, b.policy, r);
      P.PassedCloser(a.policy, k, b.policy, r);
    }
  }

  ghost predicate IsRun(run: seq<State>, events: seq<Event>, q: nat) {
    |run| == |events| + 1 && forall i :: 0 <= i < |events| ==> Step(run[i], events[i], run[i + 1], q)
  }

  lemma {:induction false} ServedWithin(run: seq<State>, events: seq<Event>, q: nat, k: nat, x: Pending)
    requires IsRun(run, events, q) && P.PolicyOk(run[0].policy) && run[0].policy.mixedBudget >= q
    requires k < |run[0].queue| && run[0].queue[k] == x && x.resident
    requires forall i :: 0 <= i < |events| ==> Abort(x.gen) !in events[i].msgs
    requires |events| > P.Patience(run[0].policy, k)
    ensures exists i :: 0 <= i < |events| && Serves(run[i], events[i], x.gen)
    decreases |events|
  {
    hide Step, Serves, P.PolicyOk, P.Patience;
    assert Step(run[0], events[0], run[0 + 1], q);
    StepCloser(run[0], events[0], run[1], q, k, x);
    if !Serves(run[0], events[0], x.gen) {
      var l: nat :| l < |run[1].queue| && run[1].queue[l] == x
        && P.Patience(run[1].policy, l) < P.Patience(run[0].policy, k);
      forall i | 0 <= i < |events[1..]| ensures Step(run[1..][i], events[1..][i], run[1..][i + 1], q) {
        assert Step(run[i + 1], events[i + 1], run[i + 1 + 1], q);
      }
      ServedWithin(run[1..], events[1..], q, l, x);
      var i :| 0 <= i < |events[1..]| && Serves(run[1..][i], events[1..][i], x.gen);
      assert Serves(run[i + 1], events[i + 1], x.gen);
    }
  }

  /** A resident prompt at queue position `k` gets prefill tokens within
      `(k + 1) * (maxDecode + 1)` steps, even if decoding is always possible and new
      requests keep arriving. */
  lemma NoPromptStarves(run: seq<State>, events: seq<Event>, q: nat, k: nat, x: Pending)
    requires IsRun(run, events, q) && P.PolicyOk(run[0].policy) && run[0].policy.mixedBudget >= q
    requires k < |run[0].queue| && run[0].queue[k] == x && x.resident
    requires forall i :: 0 <= i < |events| ==> Abort(x.gen) !in events[i].msgs
    requires |events| >= (k + 1) * (run[0].policy.maxDecode + 1)
    ensures exists i :: 0 <= i < |events| && Serves(run[i], events[i], x.gen)
  {
    var p := run[0].policy;
    P.SlotsMonotone(k, k + 1, p.maxDecode);
    assert P.Delay(p) <= p.maxDecode;
    ServedWithin(run, events, q, k, x);
  }
}
