/** One request generation: its host commit state and the forwards issued for it. */
module RequestLife {
  import opened Options
  import opened Reasoning

  datatype State = Active | TerminalPending | Retired

  datatype Lifecycle = Lifecycle(state: State, nextEpoch: nat, outstanding: set<nat>, released: bool)

  const FRESH := Lifecycle(Active, 0, {}, false)

  // Each operation gives `None` where the program raises.

  function Issue(l: Lifecycle): Option<(Lifecycle, nat)> {
    if l.state != Active then None
    else if l.nextEpoch in l.outstanding then None
    else Some((l.(nextEpoch := l.nextEpoch + 1, outstanding := l.outstanding + {l.nextEpoch}), l.nextEpoch))
  }

  function Complete(l: Lifecycle, epoch: nat): Option<Lifecycle> {
    if epoch !in l.outstanding then None else Some(l.(outstanding := l.outstanding - {epoch}))
  }

  function CommitTerminal(l: Lifecycle): Option<Lifecycle> {
    if l.state != Active then None else Some(l.(state := TerminalPending))
  }

  predicate ReadyToRelease(l: Lifecycle) {
    l.state == TerminalPending && l.outstanding == {} && !l.released
  }

  function MarkReleased(l: Lifecycle): Option<Lifecycle> {
    if !ReadyToRelease(l) then None else Some(l.(released := true, state := Retired))
  }

  // ----- forwards in flight

  /** A forward issued for a request: it computes the positions from `from` to `at`, and
      unless it is a chunk of a prompt it samples `token`, which is written at `at`. */
  datatype Ref = Ref(gen: int, epoch: nat, chunk: bool, token: int, from: nat, at: nat)

  function TokensOf(flight: seq<Ref>, g: int): seq<int> {
    if flight == [] then []
    else (if flight[0].gen == g && !flight[0].chunk then [flight[0].token] else []) + TokensOf(flight[1..], g)
  }

  /** Where the samples in flight are written. */
  function PositionsOf(flight: seq<Ref>, g: int): seq<nat> {
    if flight == [] then []
    else (if flight[0].gen == g && !flight[0].chunk then [flight[0].at] else []) + PositionsOf(flight[1..], g)
  }

  /** Where the first forward of `g` in flight starts, or `end` if there is none. */
  function FirstStart(flight: seq<Ref>, g: int, end: nat): nat {
    if flight == [] then end
    else if flight[0].gen == g then flight[0].from else FirstStart(flight[1..], g, end)
  }

  /** The forwards of `g` in flight follow each other: each starts where the one before it
      ends, and the last one ends at `end`. */
  ghost predicate Follow(flight: seq<Ref>, g: int, end: nat) {
    flight != [] ==>
      && (flight[0].gen == g ==> flight[0].from < flight[0].at == FirstStart(flight[1..], g, end))
      && Follow(flight[1..], g, end)
  }

  function EpochsOf(flight: seq<Ref>, g: int): set<nat> {
    set i | 0 <= i < |flight| && flight[i].gen == g :: flight[i].epoch
  }

  /** No epoch of a request is in flight twice. */
  ghost predicate EpochsApart(flight: seq<Ref>) {
    forall i, j :: 0 <= i < j < |flight| && flight[i].gen == flight[j].gen ==> flight[i].epoch != flight[j].epoch
  }

  ghost predicate OncePerRequest(batch: seq<Ref>) {
    forall i, j :: 0 <= i < j < |batch| ==> batch[i].gen != batch[j].gen
  }

  lemma {:induction false} TokensAppend(flight: seq<Ref>, ref: Ref, g: int)
    ensures TokensOf(flight + [ref], g) == TokensOf(flight, g) + if ref.gen == g && !ref.chunk then [ref.token] else []
    decreases |flight|
  {
    if flight == [] {
      assert flight + [ref] == [ref] && [ref][1..] == [];
    } else {
      TokensAppend(flight[1..], ref, g);
      assert (flight + [ref])[1..] == flight[1..] + [ref];
      var head := if flight[0].gen == g && !flight[0].chunk then [flight[0].token] else [];
      var last := if ref.gen == g && !ref.chunk then [ref.token] else [];
      assert head + (TokensOf(flight[1..], g) + last) == (head + TokensOf(flight[1..], g)) + last;
    }
  }

  lemma {:induction false} PositionsAppend(flight: seq<Ref>, ref: Ref, g: int)
    ensures PositionsOf(flight + [ref], g)
      == PositionsOf(flight, g) + if ref.gen == g && !ref.chunk then [ref.at] else []
    decreases |flight|
  {
    if flight == [] {
      assert flight + [ref] == [ref] && [ref][1..] == [];
    } else {
      PositionsAppend(flight[1..], ref, g);
      assert (flight + [ref])[1..] == flight[1..] + [ref];
      var head := if flight[0].gen == g && !flight[0].chunk then [flight[0].at] else [];
      var last := if ref.gen == g && !ref.chunk then [ref.at] else [];
      assert head + (PositionsOf(flight[1..], g) + last) == (head + PositionsOf(flight[1..], g)) + last;
    }
  }

  lemma {:induction false} AsManyPositions(flight: seq<Ref>, g: int)
    ensures |PositionsOf(flight, g)| == |TokensOf(flight, g)|
    decreases |flight|
  {
    if flight != [] {
      AsManyPositions(flight[1..], g);
    }
  }

  lemma {:induction false} TokensConcat(a: seq<Ref>, b: seq<Ref>, g: int)
    ensures TokensOf(a + b, g) == TokensOf(a, g) + TokensOf(b, g)
    decreases |a|
  {
    if a == [] {
      assert a + b == b;
    } else {
      TokensConcat(a[1..], b, g);
      assert (a + b)[1..] == a[1..] + b;
      var head := if a[0].gen == g && !a[0].chunk then [a[0].token] else [];
      assert head + (TokensOf(a[1..], g) + TokensOf(b, g)) == (head + TokensOf(a[1..], g)) + TokensOf(b, g);
    }
  }

  lemma {:induction false} AtMostOneToken(batch: seq<Ref>, g: int)
    requires OncePerRequest(batch)
    ensures |TokensOf(batch, g)| <= 1
    ensures (forall i :: 0 <= i < |batch| ==> batch[i].gen != g) ==> TokensOf(batch, g) == []
    decreases |batch|
  {
    if batch != [] {
      AtMostOneToken(batch[1..], g);
      if batch[0].gen == g {
        forall i | 0 <= i < |batch[1..]| ensures batch[1..][i].gen != g {
          assert batch[1..][i] == batch[i + 1];
        }
      }
    }
  }

  lemma EpochsAppend(flight: seq<Ref>, ref: Ref, g: int)
    ensures EpochsOf(flight + [ref], g) == EpochsOf(flight, g) + if ref.gen == g then {ref.epoch} else {}
  {
    var all := flight + [ref];
    forall e | e in EpochsOf(flight, g) ensures e in EpochsOf(all, g) {
      var i :| 0 <= i < |flight| && flight[i].gen == g && flight[i].epoch == e;
      assert all[i] == flight[i];
    }
    assert all[|flight|] == ref;
  }

  lemma EpochsFront(flight: seq<Ref>, g: int)
    requires flight != [] && EpochsApart(flight)
    ensures EpochsOf(flight[1..], g) == EpochsOf(flight, g) - if flight[0].gen == g then {flight[0].epoch} else {}
    ensures flight[0].epoch in EpochsOf(flight, flight[0].gen)
  {
    var rest := flight[1..];
    forall e | e in EpochsOf(rest, g)
      ensures e in EpochsOf(flight, g) && (flight[0].gen == g ==> e != flight[0].epoch)
    {
      var i :| 0 <= i < |rest| && rest[i].gen == g && rest[i].epoch == e;
      assert flight[i + 1] == rest[i];
    }
    forall e | e in EpochsOf(flight, g) && !(flight[0].gen == g && e == flight[0].epoch)
      ensures e in EpochsOf(rest, g)
    {
      var i :| 0 <= i < |flight| && flight[i].gen == g && flight[i].epoch == e;
      assert rest[i - 1] == flight[i];
    }
  }

  // ----- forwards of one request follow each other

  lemma {:induction false} NoneFollow(flight: seq<Ref>, g: int, end: nat)
    requires forall i :: 0 <= i < |flight| ==> flight[i].gen != g
    ensures Follow(flight, g, end) && FirstStart(flight, g, end) == end
    decreases |flight|
  {
    if flight != [] {
      forall i | 0 <= i < |flight[1..]| ensures flight[1..][i].gen != g {
        assert flight[1..][i] == flight[i + 1];
      }
      NoneFollow(flight[1..], g, end);
    }
  }

  /** One more forward of `g` starts where the last one ended, or anywhere if there was
      none. */
  lemma {:induction false} FollowAppend(flight: seq<Ref>, ref: Ref, end: nat)
    requires Follow(flight, ref.gen, end) && ref.from < ref.at
    requires ref.from == end || forall i :: 0 <= i < |flight| ==> flight[i].gen != ref.gen
    ensures Follow(flight + [ref], ref.gen, ref.at)
    ensures FirstStart(flight + [ref], ref.gen, ref.at) == FirstStart(flight, ref.gen, ref.from)
    decreases |flight|
  {
    if flight == [] {
      assert flight + [ref] == [ref] && [ref][1..] == [];
    } else {
      assert (flight + [ref])[1..] == flight[1..] + [ref];
      if ref.from != end {
        forall i | 0 <= i < |flight[1..]| ensures flight[1..][i].gen != ref.gen {
          assert flight[1..][i] == flight[i + 1];
        }
      }
      FollowAppend(flight[1..], ref, end);
    }
  }

  lemma {:induction false} FirstOfTwo(a: seq<Ref>, b: seq<Ref>, g: int, end: nat)
    ensures FirstStart(a + b, g, end) == FirstStart(a, g, FirstStart(b, g, end))
    decreases |a|
  {
    if a == [] {
      assert a + b == b;
    } else {
      assert (a + b)[1..] == a[1..] + b;
      FirstOfTwo(a[1..], b, g, end);
    }
  }

  /** The first forward of `g` is one of them, if there is any. */
  lemma {:induction false} FirstIsOne(flight: seq<Ref>, g: int, end: nat)
    ensures (forall i :: 0 <= i < |flight| ==> flight[i].gen != g) ==> FirstStart(flight, g, end) == end
    ensures (exists i :: 0 <= i < |flight| && flight[i].gen == g) ==>
      exists i :: 0 <= i < |flight| && flight[i].gen == g && flight[i].from == FirstStart(flight, g, end)
    decreases |flight|
  {
    if flight != [] && flight[0].gen != g {
      var rest := flight[1..];
      FirstIsOne(rest, g, end);
      assert forall i :: 0 <= i < |rest| ==> rest[i] == flight[i + 1];
      if i :| 0 <= i < |flight| && flight[i].gen == g {
        assert rest[i - 1].gen == g;
        var j :| 0 <= j < |rest| && rest[j].gen == g && rest[j].from == FirstStart(rest, g, end);
        assert flight[j + 1] == rest[j];
      }
    }
  }

  lemma {:induction false} FollowOther(flight: seq<Ref>, ref: Ref, g: int, end: nat)
    requires Follow(flight, g, end) && ref.gen != g
    ensures Follow(flight + [ref], g, end) && FirstStart(flight + [ref], g, end) == FirstStart(flight, g, end)
    decreases |flight|
  {
    if flight == [] {
      assert flight + [ref] == [ref] && [ref][1..] == [];
    } else {
      assert (flight + [ref])[1..] == flight[1..] + [ref];
      FollowOther(flight[1..], ref, g, end);
    }
  }

  /** All forwards of `g` start at or behind the first one and end at or before `end`. */
  lemma {:induction false} FollowBounds(flight: seq<Ref>, g: int, end: nat)
    requires Follow(flight, g, end)
    ensures FirstStart(flight, g, end) <= end
    ensures forall i :: 0 <= i < |flight| && flight[i].gen == g ==>
      FirstStart(flight, g, end) <= flight[i].from < flight[i].at <= end
    decreases |flight|
  {
    if flight != [] {
      FollowBounds(flight[1..], g, end);
      forall i | 0 <= i < |flight| && flight[i].gen == g
        ensures FirstStart(flight, g, end) <= flight[i].from < flight[i].at <= end
      {
        if i > 0 { assert flight[i] == flight[1..][i - 1]; }
      }
    }
  }
}
