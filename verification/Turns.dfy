/** Requests end: what one iteration of the loop does for a request whose prompt has been
    issued, and how many iterations it can take. */
module Turns {
  import opened Options
  import opened RequestLife
  import opened ServingSteps
  import B = BatchChoice
  import P = PhasePolicy
  import Q = PrefillQueue
  import S = SchedulerSteps
  import Reasoning

  /** A sample of the request is on its way to the host. */
  ghost predicate SampleComes(flight: seq<Ref>, g: int) {
    exists i :: 0 <= i < |flight| && flight[i].gen == g && !flight[i].chunk
  }

  /** Every active request waits for the rest of its prompt, runs, or has a sample on its way. */
  ghost predicate NobodyForgotten(reqs: map<int, S.Req>, flight: seq<Ref>) {
    forall g :: g in reqs && reqs[g].life.state == Active ==>
      S.Waits(reqs[g]) || S.Runs(reqs[g]) || SampleComes(flight, g)
  }

  /** A round without prompts issues a forward of every active request whose prompt has been
      issued, unless a sample of it is on its way. */
  ghost predicate NobodyLeftOut(e: B.Event, r: Round, flight: seq<Ref>) {
    e.picked == [] ==>
      forall g :: g in r.before && r.before[g].life.state == Active && r.before[g].whole ==>
        InBatch(r.batch, g) || SampleComes(flight, g)
  }

  /** And all its forwards sample. */
  ghost predicate AllServed(e: B.Event, r: Round, flight: seq<Ref>) {
    NobodyLeftOut(e, r, flight) && (e.picked == [] ==> forall i :: 0 <= i < |r.flight| ==> !r.flight[i].chunk)
  }

  /** Every active request has tokens left on the host, and room for those on their way. */
  ghost predicate WithinOutput(reqs: map<int, S.Req>, flight: seq<Ref>) {
    forall g :: g in reqs && reqs[g].life.state == Active ==>
      |reqs[g].committed| < reqs[g].output && |reqs[g].committed| + |TokensOf(flight, g)| <= reqs[g].output
  }

  /** One iteration: the batch choice before and after it, the forwards it reads, what it
      issues, and the requests at its end. */
  datatype Turn = Turn(a: B.State, e: B.Event, b: B.State, last: seq<Ref>, r: Round, after: map<int, S.Req>)

  ghost predicate TurnOk(t: Turn, q: nat) {
    && B.Step(t.a, t.e, t.b, q) && RoundOk(t.r)
    && (t.e.decode <==> exists g :: g in t.r.before && S.Runs(t.r.before[g]))
    && NobodyForgotten(t.r.before, t.last) && AllServed(t.e, t.r, t.last)
    && S.Hosted(t.r.after, t.last, t.after, []) && WithinOutput(t.after, t.r.flight)
  }

  lemma Enough(w: S.World, flight: seq<Ref>, ids: Reasoning.TokenIds)
    requires S.WorldOk(w, flight, ids)
    ensures WithinOutput(w.reqs, flight)
  {
    hide S.WorldOk, TokensOf;
    forall g | g in w.reqs && w.reqs[g].life.state == Active
      ensures |w.reqs[g].committed| < w.reqs[g].output
      ensures |w.reqs[g].committed| + |TokensOf(flight, g)| <= w.reqs[g].output
    {
      S.ActiveGoesOn(w, flight, ids, g);
    }
  }

  lemma TurnRead(t: Turn, q: nat)
    requires TurnOk(t, q)
    ensures S.Hosted(t.r.after, t.last, t.after, [])
  {
    hide B.Step, RoundOk, S.Hosted, NobodyForgotten, AllServed, WithinOutput;
  }

  // ----- one iteration

  /** Twice the tokens that the host still has to get, less those on their way. */
  ghost function Left(reqs: map<int, S.Req>, flight: seq<Ref>, g: int): int
    requires g in reqs
  {
    2 * (reqs[g].output - |reqs[g].committed|) - |TokensOf(flight, g)|
  }

  lemma {:induction false} TokenThere(flight: seq<Ref>, g: int, i: nat)
    requires i < |flight| && flight[i].gen == g && !flight[i].chunk
    ensures |TokensOf(flight, g)| >= 1
    decreases |flight|
  {
    if i > 0 {
      TokenThere(flight[1..], g, i - 1);
    }
  }

  lemma TokenComes(flight: seq<Ref>, g: int)
    requires SampleComes(flight, g)
    ensures |TokensOf(flight, g)| >= 1
  {
    var i :| 0 <= i < |flight| && flight[i].gen == g && !flight[i].chunk;
    TokenThere(flight, g, i);
  }

  /** Issuing a forward commits nothing. */
  lemma IssueKeeps(before: map<int, S.Req>, after: map<int, S.Req>, flight: seq<Ref>, g: int)
    requires S.BatchLaunched(before, after, flight) && g in before && before[g].whole
    ensures g in after && after[g].whole
    ensures after[g].committed == before[g].committed && after[g].output == before[g].output
  {
    if g in S.GensOf(flight) {
      LaunchedIndex(flight, g);
      var i :| 0 <= i < |flight| && flight[i].gen == g;
      assert S.LaunchedIn(before, after, flight[i]);
    }
  }

  lemma SampleIssued(r: Round, g: int)
    requires RoundOk(r) && InBatch(r.batch, g) && forall i :: 0 <= i < |r.flight| ==> !r.flight[i].chunk
    ensures |TokensOf(r.flight, g)| >= 1
  {
    hide S.BatchLaunched, InBatch;
    LaunchedIndex(r.flight, g);
    var i :| 0 <= i < |r.flight| && r.flight[i].gen == g;
    TokenThere(r.flight, g, i);
  }

  /** An iteration brings a request closer to its end if it serves no prompts, or if a sample
      of the request was on its way. */
  lemma TurnCloser(t: Turn, q: nat, g: int)
    requires TurnOk(t, q) && g in t.r.before && t.r.before[g].life.state == Active && t.r.before[g].whole
    requires g in t.after && t.after[g].life.state == Active
    ensures t.after[g].whole && t.after[g].output == t.r.before[g].output
    ensures Left(t.after, t.r.flight, g) <= Left(t.r.before, t.last, g)
    ensures t.e.picked == [] || SampleComes(t.last, g) ==>
      Left(t.after, t.r.flight, g) < Left(t.r.before, t.last, g)
    ensures Left(t.after, t.r.flight, g) >= 1
  {
    hide B.Step, S.BatchLaunched, S.Runs, S.Waits, SampleComes, InBatch, TokensOf, ForBatch;
    IssueKeeps(t.r.before, t.r.after, t.r.flight, g);
    assert t.after[g].committed + TokensOf([], g) == t.r.after[g].committed + TokensOf(t.last, g);
    NothingComes(g);
    if SampleComes(t.last, g) {
      TokenComes(t.last, g);
    } else if t.e.picked == [] {
      SampleIssued(t.r, g);
    }
  }

  lemma NothingComes(g: int)
    ensures TokensOf([], g) == []
  {
  }

  /** A request that runs keeps the next prompts away after a pass: of two iterations in a row
      one serves no prompts or reads a sample of it. */
  lemma OneOfTwo(s: Turn, t: Turn, q: nat, g: int)
    requires TurnOk(s, q) && TurnOk(t, q) && t.a == s.b
    requires g in s.r.before && s.r.before[g].life.state == Active && s.r.before[g].whole
    requires g in t.r.before && t.r.before[g].life.state == Active && t.r.before[g].whole
    ensures s.e.picked == [] || SampleComes(s.last, g) || t.e.picked == [] || SampleComes(t.last, g)
  {
    hide RoundOk, AllServed, S.Hosted, WithinOutput, SampleComes, S.Runs, B.Receive;
    if s.e.picked != [] && !SampleComes(s.last, g) && !SampleComes(t.last, g) {
      assert S.Runs(s.r.before[g]) && S.Runs(t.r.before[g]);
      PassRecorded(s, q);
    }
  }

  lemma PassRecorded(s: Turn, q: nat)
    requires TurnOk(s, q) && s.e.picked != [] && s.e.decode
    ensures s.b.policy.active && s.b.policy.last == Some(P.Prefill)
  {
    hide RoundOk, AllServed, S.Hosted, WithinOutput, NobodyForgotten, S.Runs, B.Receive, Q.Rotated, Q.RemainingOf,
      Q.GrantedOf;
  }

  // ----- whole runs

  /** The iterations follow each other: between two of them requests only come or end. */
  ghost predicate TurnsOk(turns: seq<Turn>, q: nat) {
    && (forall i :: 0 <= i < |turns| ==> TurnOk(turns[i], q))
    && forall i {:trigger turns[i]} :: 1 <= i < |turns| ==>
         && turns[i].a == turns[i - 1].b && turns[i].last == turns[i - 1].r.flight
         && S.OthersKept(turns[i - 1].after, turns[i].r.before)
  }

  /** The request is active all the time. */
  ghost predicate StaysActive(turns: seq<Turn>, g: int) {
    forall i :: 0 <= i < |turns| ==>
      && g in turns[i].r.before && turns[i].r.before[g].life.state == Active
      && g in turns[i].after && turns[i].after[g].life.state == Active
  }

  lemma TurnAt(turns: seq<Turn>, q: nat, g: int, n: nat)
    requires TurnsOk(turns, q) && StaysActive(turns, g) && n < |turns|
    ensures TurnOk(turns[n], q)
    ensures g in turns[n].r.before && turns[n].r.before[g].life.state == Active
    ensures g in turns[n].after && turns[n].after[g].life.state == Active
  {
    hide TurnOk;
  }

  /** The iteration serves no prompts or reads a sample of the request. */
  ghost predicate Helps(t: Turn, g: int) {
    t.e.picked == [] || SampleComes(t.last, g)
  }

  lemma {:induction false} LeftShrinks(turns: seq<Turn>, q: nat, g: int, n: nat)
    requires TurnsOk(turns, q) && StaysActive(turns, g) && n < |turns|
    requires g in turns[0].r.before && turns[0].r.before[g].whole
    ensures g in turns[n].r.before && g in turns[n].after && turns[n].after[g].whole
    ensures turns[n].after[g].output == turns[0].r.before[g].output
    ensures 2 * Left(turns[n].after, turns[n].r.flight, g) + n <= 2 * Left(turns[0].r.before, turns[0].last, g)
    ensures Helps(turns[n], g) ==>
      2 * Left(turns[n].after, turns[n].r.flight, g) + n + 1 <= 2 * Left(turns[0].r.before, turns[0].last, g)
    decreases n
  {
    hide TurnOk, SampleComes, Left, TurnsOk, StaysActive;
    TurnAt(turns, q, g, n);
    if n > 0 {
      TurnAt(turns, q, g, n - 1);
      LeftShrinks(turns, q, g, n - 1);
      SameLeft(turns, q, g, n);
      if !Helps(turns[n], g) {
        WholeBefore(turns, q, g, n - 1);
        OneOfTwo(turns[n - 1], turns[n], q, g);
      }
    }
    TurnCloser(turns[n], q, g);
  }

  lemma {:induction false} WholeBefore(turns: seq<Turn>, q: nat, g: int, n: nat)
    requires TurnsOk(turns, q) && StaysActive(turns, g) && n < |turns|
    requires g in turns[0].r.before && turns[0].r.before[g].whole
    ensures g in turns[n].r.before && turns[n].r.before[g].whole
    decreases n
  {
    hide TurnOk, TurnsOk, StaysActive;
    TurnAt(turns, q, g, n);
    if n > 0 {
      TurnAt(turns, q, g, n - 1);
      WholeBefore(turns, q, g, n - 1);
      TurnCloser(turns[n - 1], q, g);
      SameLeft(turns, q, g, n);
    }
  }

  lemma SameLeft(turns: seq<Turn>, q: nat, g: int, n: nat)
    requires TurnsOk(turns, q) && StaysActive(turns, g) && 0 < n < |turns|
    ensures g in turns[n].r.before && g in turns[n - 1].after
    ensures turns[n].r.before[g] == turns[n - 1].after[g]
    ensures Left(turns[n].r.before, turns[n].last, g) == Left(turns[n - 1].after, turns[n - 1].r.flight, g)
    ensures turns[n].a == turns[n - 1].b
  {
    hide TurnOk, TokensOf;
  }

  /** A request whose prompt has been issued is not active any more after four iterations for
      every token that it may get, whatever prompts arrive and are served meanwhile: it has
      been finished or aborted. */
  lemma EndsSoon(turns: seq<Turn>, q: nat, g: int)
    requires TurnsOk(turns, q) && turns != [] && g in turns[0].r.before && turns[0].r.before[g].whole
    requires |turns| >= 4 * turns[0].r.before[g].output
    ensures !StaysActive(turns, g)
  {
    hide TurnOk, TurnsOk, StaysActive;
    if StaysActive(turns, g) {
      var n := |turns| - 1;
      LeftShrinks(turns, q, g, n);
      WholeBefore(turns, q, g, n);
      TurnAt(turns, q, g, n);
      TurnCloser(turns[n], q, g);
    }
  }
}
