/** The reasoning grammar: the state a generation is in, the logits mask, and why the
    mask is right although the host sees each sample one forward late. */
module Reasoning {
  import opened Options

  datatype ReasoningState = Chat | Thinking | Answer

  datatype TokenIds = TokenIds(eos: int, thinkStart: int, thinkEnd: int)

  predicate DistinctIds(ids: TokenIds) {
    ids.eos != ids.thinkStart && ids.eos != ids.thinkEnd && ids.thinkStart != ids.thinkEnd
  }

  /** `None` for an unknown effort, which is an error. */
  function Initial(effort: Option<string>): (r: Option<ReasoningState>)
    ensures r == None <==> effort.Some? && effort.value != "high" && effort.value != "max"
    ensures r.Some? ==> (r.value == Thinking <==> effort.Some?) && r.value != Answer
  {
    match effort
    case None => Some(Chat)
    case Some(e) => if e == "high" || e == "max" then Some(Thinking) else None
  }

  function Advance(state: ReasoningState, token: int, ids: TokenIds): ReasoningState {
    if state == Thinking && token == ids.thinkEnd then Answer else state
  }

  function Effective(state: ReasoningState, current: Option<int>, ids: TokenIds): ReasoningState {
    if state == Thinking && current == Some(ids.thinkEnd) then Answer else state
  }

  /** The state after a generated sequence. */
  function StateAfter(start: ReasoningState, tokens: seq<int>, ids: TokenIds): ReasoningState {
    if tokens == [] then start
    else Advance(StateAfter(start, tokens[..|tokens| - 1], ids), tokens[|tokens| - 1], ids)
  }

  /** The last generated token, which is the next forward's input. */
  function LastToken(tokens: seq<int>): Option<int> {
    if tokens == [] then None else Some(tokens[|tokens| - 1])
  }

  /** The host has all samples but at most the last one; corrected by the current
      input token, its state is the true one. */
  lemma {:induction false} LagCorrected(start: ReasoningState, committed: seq<int>, sampled: seq<int>, ids: TokenIds)
    requires committed <= sampled && |sampled| <= |committed| + 1
    ensures Effective(StateAfter(start, committed, ids), LastToken(sampled), ids) == StateAfter(start, sampled, ids)
  {
    if |sampled| == |committed| {
      assert sampled == committed;
    } else {
      assert sampled[..|sampled| - 1] == committed;
    }
  }

  // ----- the mask

  datatype Logit = NegInf | Finite(value: real)

  /** The two tokens a row forbids. */
  function Forbidden(state: ReasoningState, current: Option<int>, ids: TokenIds): (int, int) {
    (ids.thinkStart, if Effective(state, current, ids) == Thinking then ids.eos else ids.thinkEnd)
  }

  predicate Allowed(state: ReasoningState, current: Option<int>, token: int, ids: TokenIds) {
    token != Forbidden(state, current, ids).0 && token != Forbidden(state, current, ids).1
  }

  /** Masks every row in place before sampling.  `current` is the decode input of each
      row; a prefill has none.  It raises when there are not as many states, or inputs,
      as rows. */
  method MaskReasoningLogits(logits: array2<Logit>, states: seq<ReasoningState>, ids: TokenIds,
                             current: Option<seq<int>>)
    returns (raised: bool)
    requires 0 <= ids.eos < logits.Length1 && 0 <= ids.thinkStart < logits.Length1 && 0 <= ids.thinkEnd < logits.Length1
    modifies logits
    ensures raised <==> |states| != logits.Length0 || (current.Some? && |current.value| != logits.Length0)
    ensures forall r, t :: 0 <= r < logits.Length0 && 0 <= t < logits.Length1 ==>
      logits[r, t] == if raised || Allowed(states[r], if current.Some? then Some(current.value[r]) else None, t, ids)
                      then old(logits[r, t]) else NegInf
  {
    if |states| != logits.Length0 || (current.Some? && |current.value| != logits.Length0) {
      return true;
    }
    raised := false;
    for r := 0 to logits.Length0
      invariant forall q, t :: 0 <= q < logits.Length0 && 0 <= t < logits.Length1 ==>
        logits[q, t] == if q >= r || Allowed(states[q], if current.Some? then Some(current.value[q]) else None, t, ids)
                        then old(logits[q, t]) else NegInf
    {
      var thinking := states[r] == Thinking;
      if current.Some? {
        thinking := thinking && current.value[r] != ids.thinkEnd;
      }
      logits[r, ids.thinkStart] := NegInf;
      logits[r, if thinking then ids.eos else ids.thinkEnd] := NegInf;
    }
  }

  // ----- generated sequences

  /** Every token was allowed in the true state in front of it. */
  ghost predicate Grammatical(start: ReasoningState, tokens: seq<int>, ids: TokenIds) {
    forall i :: 0 <= i < |tokens| ==> Allowed(StateAfter(start, tokens[..i], ids), None, tokens[i], ids)
  }

  lemma GrammaticalMore(start: ReasoningState, tokens: seq<int>, token: int, ids: TokenIds)
    requires Grammatical(start, tokens, ids) && Allowed(StateAfter(start, tokens, ids), None, token, ids)
    ensures Grammatical(start, tokens + [token], ids)
  {
    var all := tokens + [token];
    forall i | 0 <= i < |all| ensures Allowed(StateAfter(start, all[..i], ids), None, all[i], ids) {
      if i < |tokens| {
        assert all[..i] == tokens[..i];
      } else {
        assert all[..i] == tokens;
      }
    }
  }

  /** A sample the mask allows for the host's late state is allowed in the true one. */
  lemma MaskedSample(start: ReasoningState, committed: seq<int>, sampled: seq<int>, token: int, ids: TokenIds)
    requires committed <= sampled && |sampled| <= |committed| + 1 && Grammatical(start, sampled, ids)
    requires Allowed(StateAfter(start, committed, ids), LastToken(sampled), token, ids)
    ensures Grammatical(start, sampled + [token], ids)
  {
    LagCorrected(start, committed, sampled, ids);
    GrammaticalMore(start, sampled, token, ids);
  }

  lemma {:induction false} AnswerStays(start: ReasoningState, tokens: seq<int>, i: nat, j: nat, ids: TokenIds)
    requires i <= j <= |tokens| && StateAfter(start, tokens[..i], ids) != Thinking
    ensures StateAfter(start, tokens[..j], ids) != Thinking
    decreases j
  {
    if i < j {
      AnswerStays(start, tokens, i, j - 1, ids);
      assert tokens[..j][..j - 1] == tokens[..j - 1];
    }
  }

  /** No opening marker, no end of sequence while thinking, and at most one closing
      marker, which needs a request that started thinking. */
  lemma GrammaticalMeans(start: ReasoningState, tokens: seq<int>, ids: TokenIds)
    requires Grammatical(start, tokens, ids) && DistinctIds(ids) && start != Answer
    ensures ids.thinkStart !in tokens
    ensures forall i :: 0 <= i < |tokens| && tokens[i] == ids.eos ==> StateAfter(start, tokens[..i], ids) != Thinking
    ensures forall i, j :: 0 <= i < j < |tokens| && tokens[i] == ids.thinkEnd ==> tokens[j] != ids.thinkEnd
    ensures ids.thinkEnd in tokens ==> start == Thinking
  {
    forall i, j | 0 <= i < j < |tokens| && tokens[i] == ids.thinkEnd ensures tokens[j] != ids.thinkEnd {
      assert Allowed(StateAfter(start, tokens[..i], ids), None, tokens[i], ids);
      assert tokens[..i + 1][..i] == tokens[..i];
      AnswerStays(start, tokens, i + 1, j, ids);
      assert Allowed(StateAfter(start, tokens[..j], ids), None, tokens[j], ids);
    }
    forall i | 0 <= i < |tokens| && tokens[i] == ids.thinkEnd ensures start == Thinking {
      assert Allowed(StateAfter(start, tokens[..i], ids), None, tokens[i], ids);
      if start != Thinking {
        assert tokens[..0] == [];
        AnswerStays(start, tokens, 0, i, ids);
      }
    }
  }
}
