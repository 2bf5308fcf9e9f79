/** The arbiter between prefill and decode forwards. */
module PhasePolicy {
  import opened Arithmetic
  import opened Options

  datatype Phase = Prefill | Decode

  datatype Decision = Decision(phase: Option<Phase>, prefillBudget: nat, mixed: bool)

  /** Configuration and mixed-phase state. */
  datatype Policy = Policy(isolatedBudget: nat, mixedBudget: nat, maxDecode: nat, first: Phase, active: bool,
                           last: Option<Phase>, consecutive: nat)

  ghost predicate PolicyOk(p: Policy) {
    && p.isolatedBudget > 0 && 0 < p.mixedBudget <= p.isolatedBudget && p.maxDecode > 0
    && (if p.active then p.last.Some? else p.last == None)
    && (p.last != Some(Decode) ==> p.consecutive == 0)
  }

  function Choose(p: Policy, prefillRunnable: bool, decodeRunnable: bool): Decision {
    if !prefillRunnable && !decodeRunnable then Decision(None, 0, false)
    else if prefillRunnable && !decodeRunnable then Decision(Some(Prefill), p.isolatedBudget, false)
    else if decodeRunnable && !prefillRunnable then Decision(Some(Decode), 0, false)
    else
      var phase := if !p.active then p.first
                   else if p.last == Some(Prefill) then Decode
                   else if p.consecutive >= p.maxDecode then Prefill
                   else Decode;
      Decision(Some(phase), if phase == Prefill then p.mixedBudget else 0, true)
  }

  function Record(p: Policy, phase: Option<Phase>, prefillRunnable: bool, decodeRunnable: bool): Policy {
    if phase == None || !(prefillRunnable && decodeRunnable) then p.(active := false, last := None, consecutive := 0)
    else p.(active := true, last := phase, consecutive := if phase == Some(Decode) then p.consecutive + 1 else 0)
  }

  /** The arbiter as the scheduler uses it: state moves only when a batch was built. */
  class MixedPhaseFairPolicy {
    const isolatedBudget: nat
    const mixedBudget: nat
    const maxDecode: nat
    const first: Phase
    var active: bool
    var last: Option<Phase>
    var consecutive: nat

    ghost function View(): Policy
      reads this
    {
      Policy(isolatedBudget, mixedBudget, maxDecode, first, active, last, consecutive)
    }

    constructor (isolatedBudget: nat, mixedBudget: nat, maxDecode: nat, first: Phase)
      requires isolatedBudget > 0 && mixedBudget > 0 && maxDecode > 0
      ensures PolicyOk(View())
      ensures View() == Policy(isolatedBudget, if mixedBudget <= isolatedBudget then mixedBudget else isolatedBudget,
                                              maxDecode, first, false, None, 0)
    {
      this.isolatedBudget, this.maxDecode, this.first := isolatedBudget, maxDecode, first;
      this.mixedBudget := if mixedBudget <= isolatedBudget then mixedBudget else isolatedBudget;
      active, last, consecutive := false, None, 0;
    }

    /** Chooses only work that can run, and something whenever there is any.  With both
        kinds waiting no prefill follows a prefill, and after `maxDecode` decodes in a row
        it is the prompt's turn, with at least the mixed budget. */
    method ChoosePhase(prefillRunnable: bool, decodeRunnable: bool) returns (d: Decision)
      ensures d == Choose(View(), prefillRunnable, decodeRunnable)
      ensures d.phase == None <==> !prefillRunnable && !decodeRunnable
      ensures (d.phase == Some(Prefill) ==> prefillRunnable) && (d.phase == Some(Decode) ==> decodeRunnable)
      ensures PolicyOk(View()) && d.phase == Some(Prefill) ==> d.prefillBudget >= mixedBudget > 0
      ensures d.prefillBudget == if d.phase != Some(Prefill) then 0
                                 else if decodeRunnable then mixedBudget else isolatedBudget
      ensures d.mixed <==> prefillRunnable && decodeRunnable
      ensures PolicyOk(View()) && prefillRunnable && decodeRunnable ==>
        (d.phase == Some(Prefill) <==> Delay(View()) == 0)
    {
      if !prefillRunnable && !decodeRunnable {
        return Decision(None, 0, false);
      }
      if !decodeRunnable {
        return Decision(Some(Prefill), isolatedBudget, false);
      }
      if !prefillRunnable {
        return Decision(Some(Decode), 0, false);
      }
      var phase := Decode;
      if !active {
        phase := first;
      } else if last != Some(Prefill) && consecutive >= maxDecode {
        phase := Prefill;
      }
      d := Decision(Some(phase), if phase == Prefill then mixedBudget else 0, true);
    }

    /** A decode that a waiting prompt sees brings its turn closer by one; a prefill puts
        the next one `maxDecode` decodes away. */
    method RecordScheduled(phase: Option<Phase>, prefillRunnable: bool, decodeRunnable: bool)
      modifies this`active, this`last, this`consecutive
      ensures View() == Record(old(View()), phase, prefillRunnable, decodeRunnable)
      ensures PolicyOk(old(View())) ==> PolicyOk(View())
      ensures PolicyOk(old(View())) && prefillRunnable && decodeRunnable && phase == Some(Decode) ==>
        old(Delay(View())) > 0 ==> Delay(View()) + 1 == old(Delay(View()))
      ensures prefillRunnable && decodeRunnable && phase == Some(Prefill) ==> Delay(View()) == maxDecode
      ensures active <==> prefillRunnable && decodeRunnable && phase != None
      ensures !active ==> last == None && consecutive == 0
    {
      if phase == None || !(prefillRunnable && decodeRunnable) {
        active, last, consecutive := false, None, 0;
        return;
      }
      active := true;
      last := phase;
      if phase == Some(Decode) {
        consecutive := consecutive + 1;
      } else {
        consecutive := 0;
      }
    }
  }

  // ----- how long a prefill can wait

  /** Decode steps that can still come before the next prefill. */
  function Delay(p: Policy): nat {
    if !p.active then (if p.first == Decode then p.maxDecode else 0)
    else if p.last == Some(Prefill) then p.maxDecode
    else if p.consecutive >= p.maxDecode then 0
    else p.maxDecode - p.consecutive
  }

  /** With a prompt waiting, a step either decodes, which brings the next prefill closer,
      or prefills with at least the mixed budget. */
  lemma StepWithPrompt(p: Policy, decodeRunnable: bool)
    requires PolicyOk(p)
    ensures var d := Choose(p, true, decodeRunnable); var n := Record(p, d.phase, true, decodeRunnable);
            && d.phase.Some? && PolicyOk(n) && Delay(n) <= p.maxDecode && n.maxDecode == p.maxDecode
            && n.mixedBudget == p.mixedBudget
            && (d.phase.value == Decode ==> Delay(n) + 1 == Delay(p))
            && (d.phase.value == Prefill ==> d.prefillBudget >= p.mixedBudget)
  {
  }

  /** Two prefills never follow each other while both kinds of work wait. */
  lemma NoTwoPrefills(p: Policy)
    requires PolicyOk(p) && p.active && p.last == Some(Prefill)
    ensures Choose(p, true, true).phase == Some(Decode)
  {
  }

  /** One step as a waiting prompt at queue position `k` sees it: the arbiter moves on,
      a decode leaves the position alone or lowers it, and a prefill that passes the
      prompt by lowers it. */
  ghost predicate Passed(p: Policy, k: nat, n: Policy, l: nat) {
    exists decodeRunnable: bool ::
      var d := Choose(p, true, decodeRunnable);
      && n == Record(p, d.phase, true, decodeRunnable)
      && (if d.phase == Some(Prefill) then l < k else l <= k)
  }

  /** Steps a prompt at position `k` can still be passed over. */
  function Patience(p: Policy, k: nat): nat {
    Slots(k, p.maxDecode) + Delay(p)
  }

  function Slots(k: nat, maxDecode: nat): nat {
    k * (maxDecode + 1)
  }

  lemma PassedCloser(p: Policy, k: nat, n: Policy, l: nat)
    requires PolicyOk(p) && Passed(p, k, n, l)
    ensures PolicyOk(n) && n.maxDecode == p.maxDecode && Patience(n, l) < Patience(p, k)
  {
    var decodeRunnable: bool :|
      var d := Choose(p, true, decodeRunnable);
      && n == Record(p, d.phase, true, decodeRunnable)
      && (if d.phase == Some(Prefill) then l < k else l <= k);
    StepWithPrompt(p, decodeRunnable);
    SlotsMonotone(l, k, p.maxDecode);
  }

  lemma SlotsMonotone(l: nat, k: nat, maxDecode: nat)
    ensures l <= k ==> Slots(l, maxDecode) <= Slots(k, maxDecode)
    ensures l < k ==> Slots(l, maxDecode) + maxDecode + 1 <= Slots(k, maxDecode)
  {
    if l < k {
      Monotone(maxDecode + 1, l + 1, k);
      Spread(maxDecode + 1, l, 1);
    }
  }
}
