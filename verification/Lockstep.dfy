/** How the ranks of a tensor-parallel group receive the same messages: rank 0 drains
    the tokenizer's queue, broadcasts the messages over one FIFO per rank and announces
    how many there are; the other ranks read exactly that many. */
module Lockstep {
  import opened Options

  type Raw = int
  type History = seq<seq<Raw>>

  datatype Place = Idle | Wait | Drain | Send

  /** Rank 0 inside `receive_msg`: `got` is already broadcast, `raws` is not yet. */
  datatype Zero = Zero(pc: Place, got: seq<Raw>, raws: seq<Raw>, hist: History)

  datatype Spot = Rest | First | Count | Read

  /** Another rank, with its end of the broadcast queue and of the count channel. */
  datatype Follower = Follower(pc: Spot, got: seq<Raw>, need: nat, hist: History, chan: seq<Raw>, counts: seq<nat>)

  datatype Group = Group(arrived: seq<Raw>, inbox: seq<Raw>, zero: Zero, others: seq<Follower>)

  /** Whether a rank blocks is a function of its replicated scheduler state, that is, of
      the message lists it has received so far. */
  type Blocks = History -> bool

  function One(b: bool): nat {
    if b then 1 else 0
  }

  // ----- the steps

  function Put(others: seq<Follower>, m: Raw): (r: seq<Follower>)
    ensures |r| == |others| && forall k :: 0 <= k < |r| ==> r[k] == others[k].(chan := others[k].chan + [m])
  {
    seq(|others|, k requires 0 <= k < |others| => others[k].(chan := others[k].chan + [m]))
  }

  function Announce(others: seq<Follower>, n: nat): (r: seq<Follower>)
    ensures |r| == |others| && forall k :: 0 <= k < |r| ==> r[k] == others[k].(counts := others[k].counts + [n])
  {
    seq(|others|, k requires 0 <= k < |others| => others[k].(counts := others[k].counts + [n]))
  }

  /** The next step of rank 0; `None` while it waits for the tokenizer. */
  function ZeroStep(g: Group, blocks: Blocks): Option<Group> {
    var z := g.zero;
    match z.pc
    case Idle => Some(g.(zero := z.(pc := if blocks(z.hist) then Wait else Drain)))
    case Wait =>
      if g.inbox == [] then None
      else Some(g.(inbox := g.inbox[1..], zero := z.(pc := Drain, got := [g.inbox[0]]),
        others := Put(g.others, g.inbox[0])))
    case Drain =>
      if g.inbox != [] then Some(g.(inbox := g.inbox[1..], zero := z.(raws := z.raws + [g.inbox[0]])))
      else Some(g.(zero := z.(pc := Send), others := Announce(g.others, |z.raws|)))
    case Send =>
      if z.raws != [] then Some(g.(zero := z.(got := z.got + [z.raws[0]], raws := z.raws[1..]),
        others := Put(g.others, z.raws[0])))
      else Some(g.(zero := Zero(Idle, [], [], z.hist + [z.got])))
  }

  /** The next step of another rank; `None` while a channel it reads is empty. */
  function FollowerStep(f: Follower, blocks: Blocks): Option<Follower> {
    match f.pc
    case Rest => Some(f.(pc := if blocks(f.hist) then First else Count))
    case First => if f.chan == [] then None else Some(f.(pc := Count, got := [f.chan[0]], chan := f.chan[1..]))
    case Count => if f.counts == [] then None else Some(f.(pc := Read, need := f.counts[0], counts := f.counts[1..]))
    case Read =>
      if f.need == 0 then Some(f.(pc := Rest, got := [], hist := f.hist + [f.got]))
      else if f.chan == [] then None
      else Some(f.(got := f.got + [f.chan[0]], need := f.need - 1, chan := f.chan[1..]))
  }

  predicate Arrives(g: Group, h: Group) {
    && h.arrived != []
    && var msg := h.arrived[|h.arrived| - 1]; h == g.(arrived := g.arrived + [msg], inbox := g.inbox + [msg])
  }

  predicate Follows(g: Group, h: Group, blocks: Blocks, k: nat) {
    && k < |g.others| == |h.others| && FollowerStep(g.others[k], blocks) == Some(h.others[k])
    && h == g.(others := g.others[k := h.others[k]])
  }

  /** A message arrives, or one rank moves. */
  ghost predicate Next(g: Group, h: Group, blocks: Blocks) {
    Arrives(g, h) || ZeroStep(g, blocks) == Some(h) || exists k: nat :: Follows(g, h, blocks, k)
  }

  function Start(ranks: nat): Group {
    Group([], [], Zero(Idle, [], [], []), seq(ranks, _ => Follower(Rest, [], 0, [], [], [])))
  }

  ghost predicate IsRun(run: seq<Group>, blocks: Blocks) {
    run != [] && forall i :: 0 <= i < |run| - 1 ==> Next(run[i], run[i + 1], blocks)
  }

  // ----- what the broadcasts promise

  function Concat(h: History): seq<Raw> {
    if h == [] then [] else Concat(h[..|h| - 1]) + h[|h| - 1]
  }

  /** The rounds rank 0 has completely sent. */
  function Sent(z: Zero): History {
    if z.pc == Send && z.raws == [] then z.hist + [z.got] else z.hist
  }

  /** What it has sent of the round after those, and the count if it is announced. */
  function Part(z: Zero): seq<Raw> {
    if z.pc == Send && z.raws == [] then [] else z.got
  }

  function Announced(z: Zero, blocks: Blocks): seq<int> {
    if z.pc == Send && z.raws != [] then [|z.got| + |z.raws| - One(blocks(z.hist))] else []
  }

  /** The counts of the rounds from the `n`-th on. */
  function Counts(h: History, n: nat, blocks: Blocks): (r: seq<int>)
    requires n <= |h|
    ensures |r| == |h| - n
  {
    seq(|h| - n, i requires 0 <= i < |h| - n => |h[n + i]| - One(blocks(h[..n + i])))
  }

  ghost predicate ZeroOk(z: Zero, blocks: Blocks) {
    && (forall n :: 0 <= n < |z.hist| ==> |z.hist[n]| >= One(blocks(z.hist[..n])))
    && match z.pc
       case Idle => z.got == [] && z.raws == []
       case Wait => blocks(z.hist) && z.got == [] && z.raws == []
       case Drain => |z.got| == One(blocks(z.hist))
       case Send => |z.got| >= One(blocks(z.hist))
  }

  /** What a follower relies on, apart from where it stands in its own call. */
  ghost predicate Streams(f: Follower, h: History, part: seq<Raw>, pending: seq<int>, blocks: Blocks) {
    && |f.hist| <= |h| && f.hist == h[..|f.hist|]
    && f.got + f.chan == Concat(h[|f.hist|..]) + part
    && Taken(f, blocks) + f.counts == Counts(h, |f.hist|, blocks) + pending
  }

  /** The count that a rank has read and not yet used up. */
  function Taken(f: Follower, blocks: Blocks): seq<int> {
    if f.pc == Read then [|f.got| - One(blocks(f.hist)) + f.need] else []
  }

  ghost predicate SpotOk(f: Follower, blocks: Blocks) {
    match f.pc
    case Rest => f.got == []
    case First => blocks(f.hist) && f.got == []
    case Count => |f.got| == One(blocks(f.hist))
    case Read => |f.got| >= One(blocks(f.hist))
  }

  /** A rank has received a prefix of the rounds, and its channels hold exactly what it
      still has to read of the others. */
  ghost predicate FollowerOk(f: Follower, z: Zero, blocks: Blocks) {
    SpotOk(f, blocks) && Streams(f, Sent(z), Part(z), Announced(z, blocks), blocks)
  }

  ghost predicate GroupOk(g: Group, blocks: Blocks) {
    && ZeroOk(g.zero, blocks)
    && (forall k :: 0 <= k < |g.others| ==> FollowerOk(g.others[k], g.zero, blocks))
    && Accounted(g)
  }

  /** Where the messages that have arrived are. */
  ghost predicate Accounted(g: Group) {
    g.arrived == Concat(g.zero.hist) + g.zero.got + g.zero.raws + g.inbox
  }

  lemma StartOk(ranks: nat, blocks: Blocks)
    ensures GroupOk(Start(ranks), blocks)
  {
    var g := Start(ranks);
    forall k | 0 <= k < |g.others| ensures FollowerOk(g.others[k], g.zero, blocks) {
      assert g.others[k] == Follower(Rest, [], 0, [], [], []);
      NothingSent(blocks);
    }
  }

  lemma NothingSent(blocks: Blocks)
    ensures FollowerOk(Follower(Rest, [], 0, [], [], []), Zero(Idle, [], [], []), blocks)
  {
  }

  // ----- every step keeps it

  lemma {:induction false} ConcatSplit(a: History, b: History)
    ensures Concat(a + b) == Concat(a) + Concat(b)
  {
    if b == [] {
      assert a + b == a;
    } else {
      assert (a + b)[..|a + b| - 1] == a + b[..|b| - 1];
      ConcatSplit(a, b[..|b| - 1]);
    }
  }

  lemma ConcatOne(h: History, n: nat, last: seq<Raw>)
    requires n <= |h|
    ensures Concat((h + [last])[n..]) == Concat(h[n..]) + last && Concat(h + [last]) == Concat(h) + last
  {
    assert (h + [last])[n..] == h[n..] + [last];
    ConcatSplit(h[n..], [last]);
    ConcatSplit(h, [last]);
    assert Concat([last]) == [] + last;
  }

  lemma CountsOne(h: History, n: nat, last: seq<Raw>, blocks: Blocks)
    requires n <= |h|
    ensures Counts(h + [last], n, blocks) == Counts(h, n, blocks) + [|last| - One(blocks(h))]
  {
    var all := h + [last];
    assert all[..|h|] == h;
    forall i | 0 <= i < |h| - n ensures Counts(all, n, blocks)[i] == Counts(h, n, blocks)[i] {
      assert all[..n + i] == h[..n + i];
    }
  }

  lemma StreamMore(f: Follower, h: History, part: seq<Raw>, pending: seq<int>, m: Raw, blocks: Blocks)
    requires Streams(f, h, part, pending, blocks)
    ensures Streams(f.(chan := f.chan + [m]), h, part + [m], pending, blocks)
  {
    assert f.got + (f.chan + [m]) == (f.got + f.chan) + [m];
    assert Concat(h[|f.hist|..]) + part + [m] == Concat(h[|f.hist|..]) + (part + [m]);
  }

  lemma StreamCount(f: Follower, h: History, part: seq<Raw>, n: nat, blocks: Blocks)
    requires Streams(f, h, part, [], blocks)
    ensures Streams(f.(counts := f.counts + [n]), h, part, [n], blocks)
  {
    var x := Taken(f, blocks);
    assert x + (f.counts + [n]) == (x + f.counts) + [n];
  }

  lemma StreamRound(f: Follower, h: History, part: seq<Raw>, n: int, blocks: Blocks)
    requires Streams(f, h, part, [n], blocks) && n == |part| - One(blocks(h))
    ensures Streams(f, h + [part], [], [], blocks)
  {
    ConcatOne(h, |f.hist|, part);
    CountsOne(h, |f.hist|, part, blocks);
  }

  /** What a step of rank 0 puts on a rank's channels. */
  lemma ZeroKeepsFollower(g: Group, h: Group, blocks: Blocks, k: nat)
    requires GroupOk(g, blocks) && ZeroStep(g, blocks) == Some(h) && k < |g.others| == |h.others|
    ensures FollowerOk(h.others[k], h.zero, blocks)
  {
    hide Concat, Counts, ZeroOk;
    var z, f := g.zero, g.others[k];
    assert FollowerOk(f, z, blocks);
    match z.pc
    case Idle =>
    case Wait =>
      assert ZeroOk(z, blocks);
      WaitsEmpty(z, blocks);
      if g.inbox != [] {
        StreamMore(f, z.hist, [], [], g.inbox[0], blocks);
      }
    case Drain =>
      DrainsOne(z, blocks);
      if g.inbox == [] {
        StreamCount(f, z.hist, z.got, |z.raws|, blocks);
        if z.raws == [] {
          StreamRound(f.(counts := f.counts + [0]), z.hist, z.got, 0, blocks);
        }
      }
    case Send =>
      if z.raws != [] {
        var part := z.got + [z.raws[0]];
        StreamMore(f, z.hist, z.got, Announced(z, blocks), z.raws[0], blocks);
        if |z.raws| == 1 {
          StreamRound(h.others[k], z.hist, part, |part| - One(blocks(z.hist)), blocks);
        }
      }
  }

  lemma WaitsEmpty(z: Zero, blocks: Blocks)
    requires ZeroOk(z, blocks) && z.pc == Wait
    ensures z.got == [] && z.raws == [] && blocks(z.hist)
  {
  }

  lemma DrainsOne(z: Zero, blocks: Blocks)
    requires ZeroOk(z, blocks) && z.pc == Drain
    ensures |z.got| == One(blocks(z.hist))
  {
  }

  lemma ZeroStaysOk(g: Group, h: Group, blocks: Blocks)
    requires ZeroOk(g.zero, blocks) && ZeroStep(g, blocks) == Some(h)
    ensures ZeroOk(h.zero, blocks)
  {
    var z := g.zero;
    if z.pc == Send && z.raws == [] {
      assert z.hist[..|z.hist|] == z.hist;
      forall n | 0 <= n < |h.zero.hist| ensures |h.zero.hist[n]| >= One(blocks(h.zero.hist[..n])) {
        assert h.zero.hist[..n] == z.hist[..n];
      }
    }
  }

  lemma ZeroLosesNothing(g: Group, h: Group, blocks: Blocks)
    requires ZeroOk(g.zero, blocks) && Accounted(g) && ZeroStep(g, blocks) == Some(h)
    ensures Accounted(h)
  {
    hide Concat;
    var z := g.zero;
    assert g.inbox != [] ==> g.inbox == [g.inbox[0]] + g.inbox[1..];
    assert z.raws != [] ==> z.raws == [z.raws[0]] + z.raws[1..];
    ConcatOne(z.hist, 0, z.got);
  }

  lemma ZeroStepKeeps(g: Group, h: Group, blocks: Blocks)
    requires GroupOk(g, blocks) && ZeroStep(g, blocks) == Some(h)
    ensures GroupOk(h, blocks)
  {
    hide FollowerOk, ZeroOk, Accounted;
    forall k | 0 <= k < |h.others| ensures FollowerOk(h.others[k], h.zero, blocks) {
      ZeroKeepsFollower(g, h, blocks, k);
    }
    ZeroStaysOk(g, h, blocks);
    ZeroLosesNothing(g, h, blocks);
  }

  /** A rank that has read all it was told to read has read exactly one round. */
  lemma ReadsWholeRound(f: Follower, z: Zero, blocks: Blocks)
    requires FollowerOk(f, z, blocks) && f.pc == Read && f.need == 0
    ensures |f.hist| < |Sent(z)| && f.got == Sent(z)[|f.hist|]
    ensures f.chan == Concat(Sent(z)[|f.hist| + 1..]) + Part(z)
    ensures f.counts == Counts(Sent(z), |f.hist| + 1, blocks) + Announced(z, blocks)
  {
    hide Concat, Counts;
    var h, n := Sent(z), |f.hist|;
    var x := |f.got| - One(blocks(f.hist));
    assert [x] + f.counts == Counts(h, n, blocks) + Announced(z, blocks);
    NotAhead(f, z, blocks);
    assert h[..n] == f.hist;
    FirstRound(h, n, blocks);
    var more := Counts(h, n + 1, blocks) + Announced(z, blocks);
    assert Counts(h, n, blocks) + Announced(z, blocks) == [|h[n]| - One(blocks(f.hist))] + more;
    SameHalves([x], f.counts, [|h[n]| - One(blocks(f.hist))], more);
    var rest := Concat(h[n + 1..]) + Part(z);
    assert Concat(h[n..]) + Part(z) == h[n] + rest;
    SameHalves(f.got, f.chan, h[n], rest);
  }

  lemma SameHalves<T>(a: seq<T>, b: seq<T>, c: seq<T>, d: seq<T>)
    requires a + b == c + d && |a| == |c|
    ensures a == c && b == d
  {
    assert (a + b)[..|a|] == a && (c + d)[..|c|] == c;
    assert (a + b)[|a|..] == b && (c + d)[|c|..] == d;
  }

  /** While a round is not sent completely, less is on the channel than was announced. */
  lemma NotAhead(f: Follower, z: Zero, blocks: Blocks)
    requires FollowerOk(f, z, blocks) && f.pc == Read && f.need == 0
    ensures |f.hist| < |Sent(z)|
  {
    hide Counts, Announced;
    assert |f.got| <= |f.got + f.chan| && Sent(z)[|Sent(z)|..] == [];
    OpenRound(f, z, blocks);
  }

  /** A count beyond the rounds that are sent is that of the round being sent. */
  lemma OpenRound(f: Follower, z: Zero, blocks: Blocks)
    requires f.pc == Read && f.hist <= Sent(z)
    requires Taken(f, blocks) + f.counts == Counts(Sent(z), |f.hist|, blocks) + Announced(z, blocks)
    ensures f.hist == Sent(z) ==> z.raws != [] && |f.got| + f.need == |z.got| + |z.raws| && Part(z) == z.got
  {
    assert (Taken(f, blocks) + f.counts)[0] == Taken(f, blocks)[0];
  }

  lemma FirstRound(h: History, n: nat, blocks: Blocks)
    requires n < |h|
    ensures Concat(h[n..]) == h[n] + Concat(h[n + 1..])
    ensures Counts(h, n, blocks) == [|h[n]| - One(blocks(h[..n]))] + Counts(h, n + 1, blocks)
  {
    assert h[n..] == [h[n]] + h[n + 1..];
    ConcatSplit([h[n]], h[n + 1..]);
    assert Concat([h[n]]) == [] + h[n];
  }

  lemma FollowerStepKeeps(f: Follower, f': Follower, z: Zero, blocks: Blocks)
    requires FollowerOk(f, z, blocks) && FollowerStep(f, blocks) == Some(f')
    ensures FollowerOk(f', z, blocks)
  {
    hide Concat, Counts, Announced;
    if f.pc == Read && f.need == 0 {
      ReadsWholeRound(f, z, blocks);
      assert f'.hist == Sent(z)[..|f.hist| + 1];
    } else if f.pc == First {
      assert f'.got + f'.chan == f.chan;
    } else if f.pc == Read {
      assert f.chan == [f.chan[0]] + f.chan[1..];
      assert f'.got + f'.chan == f.got + f.chan;
    } else if f.pc == Count {
      assert f.counts == [f.counts[0]] + f.counts[1..];
      assert |f.got| - One(blocks(f.hist)) + f'.need == f.counts[0];
    }
  }

  lemma StepKeeps(g: Group, h: Group, blocks: Blocks)
    requires GroupOk(g, blocks) && Next(g, h, blocks)
    ensures GroupOk(h, blocks) && g.arrived <= h.arrived
  {
    hide FollowerOk, FollowerStep, ZeroOk;
    if ZeroStep(g, blocks) == Some(h) {
      ZeroStepKeeps(g, h, blocks);
    } else if !Arrives(g, h) {
      var k: nat :| Follows(g, h, blocks, k);
      FollowerStepKeeps(g.others[k], h.others[k], g.zero, blocks);
    }
  }

  lemma {:induction false} RunKeeps(run: seq<Group>, blocks: Blocks, i: nat)
    requires IsRun(run, blocks) && i < |run| && GroupOk(run[0], blocks)
    ensures GroupOk(run[i], blocks) && |run[i].others| == |run[0].others|
  {
    hide GroupOk;
    if i > 0 {
      RunKeeps(run, blocks, i - 1);
      assert Next(run[i - 1], run[i - 1 + 1], blocks);
      StepKeeps(run[i - 1], run[i], blocks);
    }
  }

  // ----- the lockstep

  /** In every run from the start the `n`-th call returns the same list on all ranks,
      rank 0 included, and the ranks blocked or did not block alike in it. */
  lemma SameLists(run: seq<Group>, ranks: nat, blocks: Blocks, i: nat, k: nat, n: nat)
    requires IsRun(run, blocks) && run[0] == Start(ranks) && i < |run|
    requires k < |run[i].others| && n < |run[i].others[k].hist|
    ensures |run[i].others| == ranks
    ensures n < |run[i].zero.hist| ==> run[i].others[k].hist[n] == run[i].zero.hist[n]
    ensures forall j :: 0 <= j < ranks && n < |run[i].others[j].hist| ==>
      run[i].others[j].hist[n] == run[i].others[k].hist[n]
    ensures n <= |run[i].zero.hist| && run[i].others[k].hist[..n] == run[i].zero.hist[..n]
    ensures blocks(run[i].others[k].hist[..n]) == blocks(run[i].zero.hist[..n])
  {
    hide Concat, Counts, SpotOk, ZeroOk;
    StartOk(ranks, blocks);
    RunKeeps(run, blocks, i);
    var g := run[i];
    assert FollowerOk(g.others[k], g.zero, blocks);
    forall j | 0 <= j < ranks && n < |g.others[j].hist| ensures g.others[j].hist[n] == g.others[k].hist[n] {
      assert FollowerOk(g.others[j], g.zero, blocks);
    }
  }

  /** When a rank has finished as many rounds as rank 0 and neither is in a call, its
      channels are empty. */
  lemma NoLeftovers(run: seq<Group>, ranks: nat, blocks: Blocks, i: nat, k: nat)
    requires IsRun(run, blocks) && run[0] == Start(ranks) && i < |run| && k < ranks == |run[i].others|
    requires run[i].zero.pc == Idle && run[i].others[k].pc == Rest && |run[i].others[k].hist| == |run[i].zero.hist|
    ensures run[i].others[k].chan == [] && run[i].others[k].counts == []
  {
    StartOk(ranks, blocks);
    RunKeeps(run, blocks, i);
    assert FollowerOk(run[i].others[k], run[i].zero, blocks);
  }

  /** Every message the tokenizer sent is returned by exactly one round of rank 0, in
      order, or is on its way there. */
  lemma NothingLost(run: seq<Group>, ranks: nat, blocks: Blocks, i: nat)
    requires IsRun(run, blocks) && run[0] == Start(ranks) && i < |run|
    ensures Concat(run[i].zero.hist) <= run[i].arrived
    ensures run[i].zero.pc == Idle && run[i].inbox == [] ==> Concat(run[i].zero.hist) == run[i].arrived
  {
    StartOk(ranks, blocks);
    RunKeeps(run, blocks, i);
  }

  ghost predicate Stuck(g: Group, blocks: Blocks) {
    ZeroStep(g, blocks) == None && forall k :: 0 <= k < |g.others| ==> FollowerStep(g.others[k], blocks) == None
  }

  /** No deadlock: nobody can move exactly when all ranks block in the same round and
      the tokenizer has sent nothing more. */
  lemma StuckOnlyIdle(run: seq<Group>, ranks: nat, blocks: Blocks, i: nat)
    requires IsRun(run, blocks) && run[0] == Start(ranks) && i < |run|
    ensures Stuck(run[i], blocks) <==>
              && run[i].inbox == [] && run[i].zero.pc == Wait
              && forall k :: 0 <= k < |run[i].others| ==>
                   run[i].others[k].pc == First && run[i].others[k].hist == run[i].zero.hist
  {
    StartOk(ranks, blocks);
    RunKeeps(run, blocks, i);
    var g := run[i];
    if ZeroStep(g, blocks) == None {
      forall k | 0 <= k < |g.others|
        ensures FollowerStep(g.others[k], blocks) == None <==>
          g.others[k].pc == First && g.others[k].hist == g.zero.hist
      {
        WaitsToo(g.others[k], g.zero, blocks);
      }
    }
  }

  lemma WaitsToo(f: Follower, z: Zero, blocks: Blocks)
    requires ZeroOk(z, blocks) && z.pc == Wait && FollowerOk(f, z, blocks)
    ensures FollowerStep(f, blocks) == None <==> f.pc == First && f.hist == z.hist
  {
    var n := |f.hist|;
    if n == |z.hist| {
      assert z.hist[n..] == [] && f.hist == z.hist;
      assert f.pc != Read;
    } else {
      assert z.hist[..n] == f.hist;
      FirstRound(z.hist, n, blocks);
      assert |f.got + f.chan| >= |z.hist[n]|;
      if f.pc == Read {
        assert (Taken(f, blocks) + f.counts)[0] == Counts(z.hist, n, blocks)[0];
      }
    }
  }

  // ----- the calls

  ghost predicate Ran(run: seq<Group>, g: Group, h: Group, blocks: Blocks) {
    IsRun(run, blocks) && run[0] == g && run[|run| - 1] == h
  }

  lemma RanOne(run: seq<Group>, g: Group, h: Group, n: Group, blocks: Blocks)
    requires Ran(run, g, h, blocks) && Next(h, n, blocks)
    ensures Ran(run + [n], g, n, blocks)
  {
    hide Next;
    var more := run + [n];
    forall i | 0 <= i < |more| - 1 ensures Next(more[i], more[i + 1], blocks) {
      if i == |run| - 1 {
        assert more[i] == h && more[i + 1] == n;
      } else {
        assert more[i] == run[i] && more[i + 1] == run[i + 1];
      }
    }
  }

  /** All ranks with their queues, between calls of rank 0. */
  class Cluster {
    var inbox: seq<Raw>
    var others: seq<Follower>
    ghost var arrived: seq<Raw>
    ghost var hist: History

    ghost function At(z: Zero): Group
      reads this
    {
      Group(arrived, inbox, z, others)
    }

    ghost function View(): Group
      reads this
    {
      At(Zero(Idle, [], [], hist))
    }

    constructor (ranks: nat)
      ensures View() == Start(ranks)
    {
      inbox, arrived, hist := [], [], [];
      others := seq(ranks, _ => Follower(Rest, [], 0, [], [], []));
    }

    /** The whole call on rank 0 when nothing comes in between: it returns all that has
        arrived, and each broadcast is a step of the protocol. */
    method RecvMsgMultiRank0(blocking: bool, ghost blocks: Blocks) returns (pending: seq<Raw>, ghost run: seq<Group>)
      requires blocking == blocks(hist) && (blocking ==> inbox != [])
      modifies this`inbox, this`others, this`hist
      ensures pending == old(inbox) && inbox == [] && hist == old(hist) + [pending]
      ensures Ran(run, old(View()), View(), blocks)
    {
      hide Next, IsRun, Ran, Put, Announce;
      ghost var g := View();
      run := [g];
      Alone(g, blocks);
      pending := [];
      run := ZeroMoves(run, g, View(), blocks);
      ghost var z := Zero(if blocking then Wait else Drain, [], [], hist);
      if blocking {
        var raw := inbox[0];
        run := ZeroMoves(run, g, At(z), blocks);
        inbox, others := inbox[1..], Put(others, raw);
        pending := [raw];
        z := z.(pc := Drain, got := [raw]);
      }
      var raws;
      raws, run := DrainInbox(pending, run, g, blocks);
      run := ZeroMoves(run, g, At(Zero(Drain, pending, raws, hist)), blocks);
      others := Announce(others, |raws|);
      pending, run := SendRaws(pending, raws, run, g, blocks);
      run := ZeroMoves(run, g, At(Zero(Send, pending, [], hist)), blocks);
      hist := hist + [pending];
    }

    method DrainInbox(pending: seq<Raw>, ghost run0: seq<Group>, ghost g: Group, ghost blocks: Blocks)
      returns (raws: seq<Raw>, ghost run: seq<Group>)
      requires Ran(run0, g, At(Zero(Drain, pending, [], hist)), blocks)
      modifies this`inbox
      ensures raws == old(inbox) && inbox == [] && Ran(run, g, At(Zero(Drain, pending, raws, hist)), blocks)
    {
      hide Next, IsRun, Ran, Put, Announce;
      raws, run := [], run0;
      while inbox != []
        invariant Ran(run, g, At(Zero(Drain, pending, raws, hist)), blocks)
        invariant raws + inbox == old(inbox)
        decreases |inbox|
      {
        run := ZeroMoves(run, g, At(Zero(Drain, pending, raws, hist)), blocks);
        raws := raws + [inbox[0]];
        inbox := inbox[1..];
      }
    }

    method SendRaws(got: seq<Raw>, raws: seq<Raw>, ghost run0: seq<Group>, ghost g: Group, ghost blocks: Blocks)
      returns (pending: seq<Raw>, ghost run: seq<Group>)
      requires Ran(run0, g, At(Zero(Send, got, raws, hist)), blocks)
      modifies this`others
      ensures pending == got + raws && Ran(run, g, At(Zero(Send, pending, [], hist)), blocks)
    {
      hide Next, IsRun, Ran, Put, Announce;
      pending, run := got, run0;
      var left := raws;
      while left != []
        invariant Ran(run, g, At(Zero(Send, pending, left, hist)), blocks)
        invariant pending + left == got + raws
        decreases |left|
      {
        run := ZeroMoves(run, g, At(Zero(Send, pending, left, hist)), blocks);
        others := Put(others, left[0]);
        pending := pending + [left[0]];
        left := left[1..];
      }
    }

    /** The whole call on another rank once its messages have arrived. */
    method RecvMsgMultiRank1(k: nat, blocking: bool, ghost blocks: Blocks)
      returns (pending: seq<Raw>, ghost run: seq<Group>)
      requires k < |others| && others[k].pc == Rest && others[k].got == [] && blocking == blocks(others[k].hist)
      requires others[k].counts != [] && |others[k].chan| >= One(blocking) + others[k].counts[0]
      modifies this`others
      ensures pending == old(others)[k].chan[..One(blocking) + old(others)[k].counts[0]]
      ensures |others| == |old(others)| && others[k].pc == Rest && others[k].hist == old(others)[k].hist + [pending]
      ensures pending + others[k].chan == old(others)[k].chan
      ensures Ran(run, old(View()), View(), blocks)
    {
      hide Next, IsRun, Ran;
      ghost var g := View();
      run := [g];
      Alone(g, blocks);
      pending := [];
      run := Move(run, g, k, blocks);
      others := others[k := others[k].(pc := if blocking then First else Count)];
      if blocking {
        run := Move(run, g, k, blocks);
        pending := [others[k].chan[0]];
        others := others[k := others[k].(pc := Count, got := pending, chan := others[k].chan[1..])];
      }
      run := Move(run, g, k, blocks);
      var n := others[k].counts[0];
      others := others[k := others[k].(pc := Read, need := n, counts := others[k].counts[1..])];
      pending, run := ReadCounted(k, n, run, g, blocks);
      run := Move(run, g, k, blocks);
      others := others[k := others[k].(pc := Rest, got := [], hist := others[k].hist + [pending])];
    }

    method ReadCounted(k: nat, n: nat, ghost run0: seq<Group>, ghost g: Group, ghost blocks: Blocks)
      returns (pending: seq<Raw>, ghost run: seq<Group>)
      requires k < |others| && others[k].pc == Read && others[k].need == n <= |others[k].chan|
      requires Ran(run0, g, View(), blocks)
      modifies this`others
      ensures k < |others| == |old(others)| && Ran(run, g, View(), blocks)
      ensures pending == old(others)[k].got + old(others)[k].chan[..n]
      ensures others[k] == old(others)[k].(need := 0, got := pending, chan := old(others)[k].chan[n..])
    {
      hide Next, IsRun, Ran;
      pending, run := others[k].got, run0;
      ghost var f := others[k];
      for i := 0 to n
        invariant |others| == |old(others)| && Ran(run, g, View(), blocks)
        invariant others[k] == f.(need := n - i, got := pending, chan := f.chan[i..]) && pending == f.got + f.chan[..i]
      {
        run := Move(run, g, k, blocks);
        pending := pending + [others[k].chan[0]];
        others := others[k := others[k].(got := pending, need := n - i - 1, chan := others[k].chan[1..])];
      }
    }

    ghost method Move(run: seq<Group>, g: Group, k: nat, blocks: Blocks) returns (more: seq<Group>)
      requires k < |others| && Ran(run, g, View(), blocks) && FollowerStep(others[k], blocks).Some?
      ensures Ran(more, g, View().(others := others[k := FollowerStep(others[k], blocks).value]), blocks)
    {
      var n := View().(others := others[k := FollowerStep(others[k], blocks).value]);
      assert Follows(View(), n, blocks, k);
      RanOne(run, g, View(), n, blocks);
      more := run + [n];
    }
  }

  lemma Alone(g: Group, blocks: Blocks)
    ensures Ran([g], g, g, blocks)
  {
  }

  ghost function ZeroMoves(run: seq<Group>, g: Group, h: Group, blocks: Blocks): (more: seq<Group>)
    requires Ran(run, g, h, blocks) && ZeroStep(h, blocks).Some?
    ensures Ran(more, g, ZeroStep(h, blocks).value, blocks)
  {
    RanOne(run, g, h, ZeroStep(h, blocks).value, blocks);
    run + [ZeroStep(h, blocks).value]
  }
}
