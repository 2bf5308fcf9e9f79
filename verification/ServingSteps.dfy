/** What ties the scheduler's requests to the cache manager's: who holds pages, how long
    the rows are, and which part of the tokens is stored. */
module ServingSteps {
  import opened Arithmetic
  import opened Bags
  import opened Options
  import opened RadixTree
  import opened Paging
  import opened CacheSteps
  import opened RequestLife
  import Reasoning
  import S = SchedulerSteps

  type Prompts = map<int, seq<int>>

  datatype Link = Link(reqs: map<int, S.Req>, holders: Holders, paths: map<int, Path>, frontier: map<int, nat>,
                       prompts: Prompts, evicted: map<int, nat>, older: map<int, nat>, ps: PageSize, window: nat)

  /** The tokens of a request that the host has. */
  function Ids(r: S.Req, prompt: seq<int>): seq<int> {
    prompt + r.committed
  }

  /** The row has a page for every computed position, and the locked path is made of
      the request's own tokens. */
  ghost predicate RowFits(r: S.Req, row: seq<int>, p: Path, prompt: seq<int>, ps: PageSize) {
    && |prompt| == r.prompt && |row| == Ceil(r.cached, ps)
    && p <= Blocks(Ids(r, prompt), ps) && TokensIn(|p|, ps) <= r.cached
  }

  /** A window frontier the program remembers is at most the true one. */
  ghost predicate Behind(tokens: nat, frontier: nat, ps: PageSize) {
    PagesIn(tokens, ps) <= frontier
  }

  ghost predicate HolderOk(k: Link, g: int) {
    && g in k.reqs && g in k.holders && g in k.paths && g in k.frontier && g in k.prompts && g in k.evicted
    && g in k.older
    && RowFits(k.reqs[g], k.holders[g].row, k.paths[g], k.prompts[g], k.ps)
    && Behind(k.evicted[g], k.frontier[g], k.ps) && Behind(k.older[g], k.frontier[g], k.ps)
  }

  /** Exactly the issued requests that are not retired hold a row and a lock. */
  ghost predicate Linked(k: Link) {
    && (forall g :: g in k.holders <==> g in k.reqs && S.Holds(k.reqs[g]))
    && (forall g :: g in k.reqs ==> g in k.prompts && |k.prompts[g]| == k.reqs[g].prompt)
    && (forall g :: g in k.holders ==> HolderOk(k, g))
  }

  /** What a request has lost of its window pages lies below the attention window of every
      forward of it in flight, and of every later one. */
  ghost predicate WindowKept(k: Link, g: int, flight: seq<Ref>) {
    && g in k.reqs && g in k.frontier
    && OutOfWindow(k.frontier[g], k.reqs[g].cached, k.window, k.ps)
    && forall i :: 0 <= i < |flight| && flight[i].gen == g ==>
         OutOfWindow(k.frontier[g], flight[i].from, k.window, k.ps)
  }

  ghost predicate WindowsKept(k: Link, flight: seq<Ref>) {
    forall g {:trigger k.holders[g]} :: g in k.holders ==> WindowKept(k, g, flight)
  }

  /** The own window pages of an active request begin less than a window and two pages in
      front of its oldest forward that has not been read, or of what comes next. */
  ghost predicate WindowTrimmed(k: Link, g: int, flight: seq<Ref>) {
    && g in k.reqs && g in k.paths && g in k.frontier
    && (k.reqs[g].life.state == Active ==>
          Trimmed(Max(|k.paths[g]|, k.frontier[g]), FirstStart(flight, g, k.reqs[g].cached) + 1, k.window, k.ps))
  }

  ghost predicate WindowsTrimmed(k: Link, flight: seq<Ref>) {
    forall g {:trigger k.holders[g]} :: g in k.holders ==> WindowTrimmed(k, g, flight)
  }

  // ----- pages and tokens

  lemma PagesBelow(n: nat, m: nat, ps: PageSize)
    requires TokensIn(n, ps) <= m
    ensures n <= m / ps
  {
    DivMonotone(TokensIn(n, ps), m, ps);
    WholeTokens(n, ps);
  }

  lemma CeilOfTokens(n: nat, ps: PageSize)
    ensures Ceil(TokensIn(n, ps), ps) == n
  {
    DivUnique(n * ps + ps - 1, ps, n, ps - 1);
  }

  lemma CeilNext(n: nat, ps: PageSize)
    ensures Ceil(n + 1, ps) <= Ceil(n, ps) + 1
  {
    DivStep(n + ps, ps);
    DivMonotone(n, n + ps - 1, ps);
    assert (n + ps) / ps == n / ps + 1;
  }

  lemma CeilMonotone(a: nat, b: nat, ps: PageSize)
    requires a <= b
    ensures Ceil(a, ps) <= Ceil(b, ps)
  {
    DivMonotone(a + ps - 1, b + ps - 1, ps);
  }

  /** What is locked is part of what is stored now. */
  lemma PathFits(p: Path, ids: seq<int>, cached: nat, ps: PageSize)
    requires p <= Blocks(ids, ps) && TokensIn(|p|, ps) <= cached <= |ids|
    ensures p <= Blocks(ids[..cached], ps)
  {
    BlocksOfPrefix(ids, cached, ps);
    PagesBelow(|p|, cached, ps);
  }

  /** What was stored is part of the request's tokens. */
  lemma StoredFits(ids: seq<int>, cached: nat, ps: PageSize)
    requires cached <= |ids|
    ensures var p := Blocks(ids[..cached], ps); p <= Blocks(ids, ps) && TokensIn(|p|, ps) <= cached
  {
    BlocksOfPrefix(ids, cached, ps);
  }

  lemma MoreTokens(p: Path, ids: seq<int>, more: seq<int>, ps: PageSize)
    requires p <= Blocks(ids, ps)
    ensures p <= Blocks(ids + more, ps)
  {
    BlocksShrink(ids + more, |ids|, ps);
    assert (ids + more)[..|ids|] == ids;
  }

  // ----- the host has what is stored

  /** The device length is one more than what is computed, and with at most one sample in
      flight, or for a request that is not active, all computed positions have their
      token on the host. */
  lemma HostCovers(w: S.World, flight: seq<Ref>, ids: Reasoning.TokenIds, g: int)
    requires S.WorldOk(w, flight, ids) && g in w.reqs && w.reqs[g].slot >= 0
    ensures w.reqs[g].device == w.reqs[g].cached + 1
    ensures |TokensOf(flight, g)| <= 1 || w.reqs[g].life.state != Active ==>
      w.reqs[g].cached <= w.reqs[g].prompt + |w.reqs[g].committed|
    ensures !w.reqs[g].whole ==> w.reqs[g].cached < w.reqs[g].prompt
    ensures w.reqs[g].life.state == Active && !w.reqs[g].whole ==> w.reqs[g].committed == []
  {
    hide TokensOf, PositionsOf, EpochsOf;
    S.RecordOf(w, g, flight, ids);
  }

  /** The request of the next result holds its resources. */
  lemma FrontHolds(w: S.World, flight: seq<Ref>, ids: Reasoning.TokenIds)
    requires S.WorldOk(w, flight, ids) && flight != [] && flight[0].gen in w.reqs
    ensures S.Holds(w.reqs[flight[0].gen]) && flight[0].epoch in w.reqs[flight[0].gen].life.outstanding
  {
    hide TokensOf, PositionsOf;
    S.RecordOf(w, flight[0].gen, flight, ids);
    S.FrontInFlight(flight);
  }

  /** A request with a forward in flight holds its resources, and the forward ends within
      what is computed. */
  lemma InFlightHolds(w: S.World, flight: seq<Ref>, ids: Reasoning.TokenIds, i: nat)
    requires S.WorldOk(w, flight, ids) && S.InSequence(w.reqs, flight) && i < |flight|
    ensures flight[i].gen in w.reqs && S.Holds(w.reqs[flight[i].gen]) && flight[i].at <= w.reqs[flight[i].gen].cached
  {
    hide TokensOf, PositionsOf, Reasoning.Grammatical;
    var g := flight[i].gen;
    S.RecordOf(w, g, flight, ids);
    assert flight[i].epoch in EpochsOf(flight, g);
    assert Follow(flight, g, w.reqs[g].cached);
    FollowBounds(flight, g, w.reqs[g].cached);
  }

  lemma BlockComputed(q: nat, cached: nat, ps: PageSize)
    requires q < cached
    ensures PagesIn(q, ps) < Ceil(cached, ps)
  {
    CeilMonotone(q + 1, cached, ps);
    DivStep(q + ps, ps);
    assert (q + ps) / ps == q / ps + 1;
  }

  /** What lies in the window of a forward in flight is behind the frontier. */
  lemma SeenKept(k: Link, g: int, flight: seq<Ref>, i: nat, q: nat)
    requires WindowKept(k, g, flight) && i < |flight| && flight[i].gen == g && flight[i].from < q + k.window
    ensures k.frontier[g] <= PagesIn(q, k.ps)
  {
    hide PagesIn, TokensIn;
    if PagesIn(q, k.ps) < k.frontier[g] {
      PositionInBlock(q, k.frontier[g], k.ps);
    }
  }

  /** Reading a result changes the tokens and the life of a request and nothing else. */
  lemma ProcessedShape(r: S.Req, ref: Ref, eos: int)
    requires ref.epoch in r.life.outstanding && S.Holds(r)
    ensures var s := S.Final(S.Processed(r, ref, eos));
            && s.prompt == r.prompt && s.cached == r.cached && s.device == r.device && s.slot == r.slot
            && s.whole == r.whole
            && s.committed == (if r.life.state == Active && !ref.chunk then r.committed + [ref.token] else r.committed)
            && s.slot >= 0 && (S.Holds(s) <==> s.life.state != Retired)
            && (s.life.state == Active ==> r.life.state == Active)
  {
  }

  lemma AbortedShape(r: S.Req)
    ensures var s := S.Final(S.Aborted(r));
            && s.prompt == r.prompt && s.cached == r.cached && s.slot == r.slot && s.committed == r.committed
            && s.life.state != Active
  {
  }

  // ----- the link after a step of one request

  /** One request changed, and the manager still holds its row. */
  lemma LinkedAfter(k: Link, n: Link, g: int)
    requires Linked(k) && g in k.holders && n.ps == k.ps && n.prompts == k.prompts
    requires n.reqs.Keys == k.reqs.Keys && n.holders.Keys == k.holders.Keys
    requires forall h :: h in k.reqs && h != g ==> n.reqs[h] == k.reqs[h]
    requires forall h :: h in k.holders && h != g ==> n.holders[h] == k.holders[h]
    requires Elsewhere(k.paths, n.paths, g) && Elsewhere(k.frontier, n.frontier, g)
    requires Elsewhere(k.evicted, n.evicted, g) && Elsewhere(k.older, n.older, g)
    requires S.Holds(n.reqs[g]) && n.reqs[g].prompt == k.reqs[g].prompt && HolderOk(n, g)
    ensures Linked(n)
  {
    hide RowFits, Behind;
    forall h | h in n.holders ensures HolderOk(n, h) {
      if h != g { assert HolderOk(k, h); }
    }
  }

  ghost predicate Elsewhere<V>(a: map<int, V>, b: map<int, V>, g: int) {
    forall h :: h in a && h != g ==> h in b && b[h] == a[h]
  }

  lemma HolderMade(k: Link, g: int)
    requires g in k.reqs && g in k.holders && g in k.paths && g in k.frontier && g in k.prompts && g in k.evicted
    requires g in k.older
    requires RowFits(k.reqs[g], k.holders[g].row, k.paths[g], k.prompts[g], k.ps)
    requires Behind(k.evicted[g], k.frontier[g], k.ps) && Behind(k.older[g], k.frontier[g], k.ps)
    ensures HolderOk(k, g)
  {
  }

  lemma BehindMore(tokens: nat, frontier: nat, more: nat, ps: PageSize)
    requires Behind(tokens, frontier, ps) && frontier <= more
    ensures Behind(tokens, more, ps)
  {
  }

  /** A retired request has left the manager. */
  lemma LinkedWithout(k: Link, n: Link, g: int)
    requires Linked(k) && g in k.holders && n.ps == k.ps && n.prompts == k.prompts
    requires g in n.reqs && n.reqs == k.reqs[g := n.reqs[g]] && n.holders == k.holders - {g}
    requires n.paths == k.paths - {g} && n.frontier == k.frontier - {g} && n.evicted == k.evicted && n.older == k.older
    requires !S.Holds(n.reqs[g]) && n.reqs[g].prompt == k.reqs[g].prompt
    ensures Linked(n)
  {
    hide RowFits, Behind;
    forall h | h in n.holders ensures HolderOk(n, h) {
      assert HolderOk(k, h);
    }
  }

  /** One request changed what is computed or its frontier; nothing new is in flight. */
  lemma WindowsAfter(k: Link, n: Link, g: int, flight: seq<Ref>)
    requires WindowsKept(k, flight) && n.ps == k.ps && n.window == k.window && n.holders.Keys <= k.holders.Keys
    requires Elsewhere(k.reqs, n.reqs, g) && Elsewhere(k.frontier, n.frontier, g)
    requires g in n.holders ==> WindowKept(n, g, flight)
    ensures WindowsKept(n, flight)
  {
    hide OutOfWindow;
    forall h | h in n.holders ensures WindowKept(n, h, flight) {
      if h != g { assert WindowKept(k, h, flight); }
    }
  }

  lemma WindowsRest(k: Link, flight: seq<Ref>)
    requires WindowsKept(k, flight) && flight != []
    ensures WindowsKept(k, flight[1..])
  {
    hide OutOfWindow;
    forall h | h in k.holders ensures WindowKept(k, h, flight[1..]) {
      assert WindowKept(k, h, flight);
    }
  }

  /** Requests that hold nothing come and go, and others keep what is computed. */
  lemma WindowsStay(k: Link, n: Link, flight: seq<Ref>)
    requires WindowsKept(k, flight) && n.ps == k.ps && n.window == k.window && n.holders == k.holders
    requires n.frontier == k.frontier
    requires forall h :: h in n.holders && h in k.reqs ==> h in n.reqs && n.reqs[h].cached == k.reqs[h].cached
    ensures WindowsKept(n, flight)
  {
    hide OutOfWindow;
    forall h | h in n.holders ensures WindowKept(n, h, flight) {
      assert WindowKept(k, h, flight);
    }
  }

  /** A prompt that is put into the next batch has lost nothing, or nothing changed. */
  lemma WindowsPrepared(k: Link, n: Link, g: int, flight: seq<Ref>)
    requires WindowsKept(k, flight) && n.ps == k.ps && n.window == k.window && n.reqs == k.reqs && g in n.reqs
    requires g in n.frontier
    requires n.holders.Keys == k.holders.Keys + {g} && Elsewhere(k.frontier, n.frontier, g)
    requires n.frontier[g] == 0 || (g in k.holders && n.frontier[g] == k.frontier[g])
    ensures WindowsKept(n, flight)
  {
    hide TokensIn;
    forall h | h in n.holders ensures WindowKept(n, h, flight) {
      if h in k.holders { assert WindowKept(k, h, flight); }
    }
  }

  /** Requests that hold nothing have left. */
  lemma WindowsFewer(k: Link, n: Link, flight: seq<Ref>)
    requires WindowsKept(k, flight) && n == k.(reqs := n.reqs) && Linked(k)
    requires forall h :: h in n.reqs ==> h in k.reqs && n.reqs[h] == k.reqs[h]
    requires forall h :: h in k.reqs && S.Holds(k.reqs[h]) ==> h in n.reqs
    ensures WindowsKept(n, flight)
  {
    hide HolderOk, OutOfWindow;
    forall h | h in n.holders ensures WindowKept(n, h, flight) {
      assert WindowKept(k, h, flight);
    }
  }

  /** After a result that ended at `at` the frontier of its request may have moved, but not
      into the window of what starts there or later. */
  lemma WindowsResult(k: Link, n: Link, g: int, flight: seq<Ref>, at: nat)
    requires WindowsKept(k, flight) && n.ps == k.ps && n.window == k.window && n.holders.Keys <= k.holders.Keys
    requires g in k.reqs && g in n.reqs && n.reqs == k.reqs[g := n.reqs[g]]
    requires n.reqs[g].cached == k.reqs[g].cached >= at
    requires forall i :: 0 <= i < |flight| && flight[i].gen == g ==> at <= flight[i].from
    requires Elsewhere(k.frontier, n.frontier, g)
    requires g in n.holders ==> g in k.frontier && g in n.frontier
    requires g in n.holders ==> n.frontier[g] == k.frontier[g] || OutOfWindow(n.frontier[g], at, k.window, k.ps)
    ensures WindowsKept(n, flight)
  {
    hide TokensIn;
    if g in n.holders {
      assert WindowKept(k, g, flight);
    }
    WindowsAfter(k, n, g, flight);
  }

  lemma HolderKnown(k: Link, g: int)
    requires Linked(k)
    ensures g in k.holders ==> g in k.reqs && g in k.paths && g in k.frontier
  {
  }

  lemma RowLength(k: Link, g: int)
    requires Linked(k) && g in k.holders
    ensures g in k.reqs && |k.holders[g].row| == Ceil(k.reqs[g].cached, k.ps)
  {
    assert HolderOk(k, g);
  }

  lemma LiveBound(kept: nat, rows: nat, cached: nat, start: nat, window: nat, ps: PageSize)
    requires Trimmed(kept, start + 1, window, ps) && rows == Ceil(cached, ps) && start <= cached
    ensures (if kept < rows then rows - kept else 0) * ps < window + (cached - start) + 3 * ps
  {
    var n := cached + ps - 1;
    assert n == n / ps * ps + n % ps;
    assert (kept + 1) * ps == kept * ps + ps;
    if kept < rows {
      assert rows * ps == (rows - kept) * ps + kept * ps;
    }
  }

  lemma {:induction false} Interval(s: set<nat>, a: nat, b: nat)
    requires forall j :: j in s ==> a <= j < b
    ensures |s| <= if a < b then b - a else 0
    decreases b
  {
    if a < b {
      Interval(s - {b - 1}, a, b - 1);
      assert |s| <= |s - {b - 1}| + 1;
    } else {
      assert s == {};
    }
  }

  /** A result of request `g` leaves the windows of all others alone. */
  lemma TrimmedResult(k: Link, n: Link, g: int, flight: seq<Ref>)
    requires WindowsTrimmed(k, flight) && flight != [] && flight[0].gen == g
    requires n.ps == k.ps && n.window == k.window && n.holders.Keys <= k.holders.Keys && Elsewhere(k.reqs, n.reqs, g)
    requires Elsewhere(k.paths, n.paths, g) && Elsewhere(k.frontier, n.frontier, g)
    requires g in n.holders ==> WindowTrimmed(n, g, flight[1..])
    ensures WindowsTrimmed(n, flight[1..])
  {
    hide Trimmed;
    forall h | h in n.holders ensures WindowTrimmed(n, h, flight[1..]) {
      if h != g { assert WindowTrimmed(k, h, flight); }
    }
  }

  /** Requests come and go without resources, or end; the others stay as they are. */
  lemma TrimmedStay(k: Link, n: Link, flight: seq<Ref>)
    requires WindowsTrimmed(k, flight) && n.ps == k.ps && n.window == k.window && n.holders.Keys <= k.holders.Keys
    requires forall h :: h in n.holders && h in k.reqs ==> h in n.reqs && GoesOnOrEnds(k.reqs[h], n.reqs[h])
    requires forall h :: h in n.holders && h in k.paths ==> h in n.paths && n.paths[h] == k.paths[h]
    requires forall h :: h in n.holders && h in k.frontier ==> h in n.frontier && n.frontier[h] == k.frontier[h]
    ensures WindowsTrimmed(n, flight)
  {
    hide Trimmed;
    forall h | h in n.holders ensures WindowTrimmed(n, h, flight) {
      assert WindowTrimmed(k, h, flight);
    }
  }

  ghost predicate GoesOnOrEnds(r: S.Req, s: S.Req) {
    s.cached == r.cached && (s.life.state == Active ==> r.life.state == Active)
  }

  /** Requests that hold nothing have left. */
  lemma TrimmedFewer(k: Link, n: Link, flight: seq<Ref>)
    requires WindowsTrimmed(k, flight) && n == k.(reqs := n.reqs) && Linked(k)
    requires forall h :: h in n.reqs ==> h in k.reqs && n.reqs[h] == k.reqs[h]
    requires forall h :: h in k.reqs && S.Holds(k.reqs[h]) ==> h in n.reqs
    ensures WindowsTrimmed(n, flight)
  {
    hide HolderOk, WindowsTrimmed;
    TrimmedStay(k, n, flight);
  }

  /** The blocks of what is computed reach to less than a block in front of its end. */
  lemma BlocksReach(cached: nat, at: nat, kept: nat, window: nat, ps: PageSize)
    requires at <= cached && cached / ps <= kept
    ensures Trimmed(kept, at + 1, window, ps)
  {
    var n := cached / ps;
    MulGap(kept - n, ps);
    assert (kept + 1) * ps == (kept - n) * ps + n * ps + ps;
    assert cached == n * ps + cached % ps;
  }

  lemma NothingBefore(kept: nat, window: nat, ps: PageSize)
    ensures Trimmed(kept, TokensIn(kept, ps) + 1, window, ps)
    ensures Trimmed(kept, 1, window, ps)
  {
    assert (kept + 1) * ps == kept * ps + ps;
    MulGap(kept, ps);
  }

  /** A prompt that is put into the next batch has nothing computed yet, or nothing changed. */
  lemma TrimmedPrepared(k: Link, n: Link, g: int, flight: seq<Ref>)
    requires WindowsTrimmed(k, flight) && n.ps == k.ps && n.window == k.window && n.reqs == k.reqs && g in n.reqs
    requires g in n.frontier && g in n.paths && n.holders.Keys == k.holders.Keys + {g}
    requires Elsewhere(k.paths, n.paths, g) && Elsewhere(k.frontier, n.frontier, g)
    requires (g in k.holders && g in k.paths && g in k.frontier && n.paths[g] == k.paths[g]
               && n.frontier[g] == k.frontier[g])
             || (S.NotInFlight(flight, g) && n.reqs[g].cached == 0)
    ensures WindowsTrimmed(n, flight)
  {
    hide Trimmed;
    NothingBefore(Max(|n.paths[g]|, n.frontier[g]), n.window, n.ps);
    FirstIsOne(flight, g, n.reqs[g].cached);
    forall h | h in n.holders ensures WindowTrimmed(n, h, flight) {
      if h in k.holders { assert WindowTrimmed(k, h, flight); }
    }
  }

  lemma RestLater(flight: seq<Ref>, at: nat)
    requires flight != [] && forall i :: 1 <= i < |flight| && flight[i].gen == flight[0].gen ==> at <= flight[i].from
    ensures forall i :: 0 <= i < |flight[1..]| && flight[1..][i].gen == flight[0].gen ==> at <= flight[1..][i].from
  {
    forall i | 0 <= i < |flight[1..]| && flight[1..][i].gen == flight[0].gen ensures at <= flight[1..][i].from {
      assert flight[1..][i] == flight[i + 1];
    }
  }

  lemma BelowMeans(before: seq<int>, after: seq<int>, h: Holder, from: int, window: nat, ps: PageSize)
    requires ReleasedBelow(before, after, h, from, window, ps)
    ensures forall q: nat :: LosesAt(before, after, h, q, ps) ==> q + window <= from
  {
    hide LosesAt;
  }

  /** After the next result of a request is read at most one of its samples is in flight. */
  lemma OneLeft(last: seq<Ref>, ongoing: seq<Ref>)
    requires last != [] && OncePerRequest(last) && OncePerRequest(ongoing)
    ensures |TokensOf(last[1..] + ongoing, last[0].gen)| <= 1
  {
    TokensConcat(last[1..], ongoing, last[0].gen);
    AtMostOneToken(ongoing, last[0].gen);
    S.NoTokens(last[1..], last[0].gen);
  }

  /** The row of a request still fits after its result was read. */
  lemma ResultFits(k: Link, g: int, ref: Ref, eos: int)
    requires Linked(k) && g in k.holders && ref.gen == g && ref.epoch in k.reqs[g].life.outstanding
    ensures HolderOk(k, g) && S.Holds(k.reqs[g])
    ensures RowFits(S.Final(S.Processed(k.reqs[g], ref, eos)), k.holders[g].row, k.paths[g], k.prompts[g], k.ps)
  {
    hide Blocks, Ceil, TokensIn;
    var r := k.reqs[g];
    assert HolderOk(k, g);
    ProcessedShape(r, ref, eos);
    MoreTokens(k.paths[g], Ids(r, k.prompts[g]), [ref.token], k.ps);
    assert Ids(r, k.prompts[g]) + [ref.token] == k.prompts[g] + (r.committed + [ref.token]);
  }

  // ----- batches

  lemma {:induction false} GrownOnce(batch: seq<Extend>, i: nat, ps: PageSize)
    requires i < |batch| && forall j, k :: 0 <= j < k < |batch| ==> batch[j].req != batch[k].req
    ensures GrownBy(batch, batch[i].req, ps) == NewPages(batch[i], ps)
    decreases |batch|
  {
    if i == 0 {
      GrownNot(batch[1..], batch[0].req, ps);
    } else {
      GrownOnce(batch[1..], i - 1, ps);
    }
  }

  lemma {:induction false} GrownNot(batch: seq<Extend>, u: int, ps: PageSize)
    requires forall i :: 0 <= i < |batch| ==> batch[i].req != u
    ensures GrownBy(batch, u, ps) == 0
  {
    if batch != [] {
      GrownNot(batch[1..], u, ps);
    }
  }

  lemma RowGrows(before: Holders, now: Holders, batch: seq<Extend>, i: nat, ps: PageSize)
    requires AllGrown(before, now, batch, ps) && i < |batch| && batch[i].req in now
    requires batch[i].cachedLen <= batch[i].deviceLen
    requires (forall j, k :: 0 <= j < k < |batch| ==> batch[j].req != batch[k].req)
    requires |before[batch[i].req].row| == Ceil(batch[i].cachedLen, ps)
    ensures |now[batch[i].req].row| == Ceil(batch[i].deviceLen, ps)
  {
    GrownOnce(batch, i, ps);
    CeilMonotone(batch[i].cachedLen, batch[i].deviceLen, ps);
    assert RowGrown(before[batch[i].req], now[batch[i].req], GrownBy(batch, batch[i].req, ps));
  }

  lemma RowStays(before: Holders, now: Holders, batch: seq<Extend>, u: int, ps: PageSize)
    requires AllGrown(before, now, batch, ps) && u in now && forall i :: 0 <= i < |batch| ==> batch[i].req != u
    ensures |now[u].row| == |before[u].row|
  {
    GrownNot(batch, u, ps);
    assert RowGrown(before[u], now[u], GrownBy(batch, u, ps));
  }

  // ----- reservations

  /** Pages that a request which decodes has still to be given until it has all its tokens. */
  function PagesToCome(r: S.Req, ps: PageSize): nat {
    var last := if r.prompt + r.output >= 1 then Ceil(r.prompt + r.output - 1, ps) else 0;
    if last >= Ceil(r.cached, ps) then last - Ceil(r.cached, ps) else 0
  }

  /** What is reserved for a decoding request covers these pages, and no smaller constant on
      top of the tokens that are left would: it is met when the first one opens a page. */
  lemma NeedCovers(r: S.Req, ps: PageSize)
    requires S.CanDecode(r) && r.device == r.cached + 1
    ensures TokensIn(PagesToCome(r, ps), ps) <= S.RunningNeed(r, ps)
    ensures r.cached % ps == 0 && r.device + 1 == r.prompt + r.output ==>
      TokensIn(PagesToCome(r, ps), ps) == S.RunningNeed(r, ps)
  {
    var m, n := r.prompt + r.output - 1 + ps - 1, r.cached + ps - 1;
    Division(m, ps);
    Division(n, ps);
    DivMonotone(n, m, ps);
    assert (m / ps - n / ps) * ps == m / ps * ps - n / ps * ps;
    if r.cached % ps == 0 && r.device + 1 == r.prompt + r.output {
      var k := r.cached / ps;
      Division(r.cached, ps);
      DivUnique(n, ps, k, ps - 1);
      assert (k + 1) * ps == k * ps + ps;
      DivUnique(m, ps, k + 1, 0);
    }
  }

  /** What is reserved for a partly computed prompt is all it has still to compute, with one
      token more; the pages of this may take the rest of one page beyond. */
  lemma ResidentCovers(r: S.Req, ps: PageSize)
    requires S.Resident(r) && r.cached < r.prompt && r.output >= 1
    ensures r.cached + S.ResidentNeed(r) == r.prompt + r.output
    ensures TokensIn(PagesToCome(r, ps), ps) + 2 <= S.ResidentNeed(r) + ps
  {
    var m, n := r.prompt + r.output - 1 + ps - 1, r.cached + ps - 1;
    Division(m, ps);
    Division(n, ps);
    assert (m / ps - n / ps) * ps == m / ps * ps - n / ps * ps;
  }

  /** What is reserved for the running requests covers all pages that they have still to be
      given, and what is reserved for the others all that they have still to compute. */
  lemma ReservedCovers(w: S.World, flight: seq<Ref>, ids: Reasoning.TokenIds, ps: PageSize)
    requires S.WorldOk(w, flight, ids)
    ensures S.Reserved(w.reqs, ps) == Total(S.RunningNeeds(w.reqs, ps)) + Total(S.ResidentNeeds(w.reqs))
    ensures forall g :: g in S.ResidentNeeds(w.reqs) <==>
      g in w.reqs && w.reqs[g].life.state == Active && !w.reqs[g].whole && w.reqs[g].slot >= 0
    ensures forall g :: g in S.ResidentNeeds(w.reqs) ==>
      w.reqs[g].cached + S.ResidentNeeds(w.reqs)[g] == w.reqs[g].prompt + w.reqs[g].output
    ensures Total(map g | g in w.reqs && S.Runs(w.reqs[g]) :: TokensIn(PagesToCome(w.reqs[g], ps), ps))
      <= Total(S.RunningNeeds(w.reqs, ps))
  {
    hide S.WorldOk, S.RunningNeed, S.ResidentNeed, PagesToCome, S.CanDecode;
    var come: map<int, nat> := map g | g in w.reqs && S.Runs(w.reqs[g]) :: TokensIn(PagesToCome(w.reqs[g], ps), ps);
    forall g | g in come ensures come[g] <= S.RunningNeeds(w.reqs, ps)[g] {
      S.ListedWhere(w, g, flight, ids);
      RunningShape(w, g, flight, ids);
      HostCovers(w, flight, ids, g);
      NeedCovers(w.reqs[g], ps);
    }
    TotalMonotone(come, S.RunningNeeds(w.reqs, ps));
    forall g | g in w.reqs
      ensures g in S.ResidentNeeds(w.reqs) <==>
        w.reqs[g].life.state == Active && !w.reqs[g].whole && w.reqs[g].slot >= 0
      ensures g in S.ResidentNeeds(w.reqs) ==>
        w.reqs[g].cached + S.ResidentNeeds(w.reqs)[g] == w.reqs[g].prompt + w.reqs[g].output
    {
      S.ListedWhere(w, g, flight, ids);
      if g in w.pending {
        WaitingShape(w, flight, ids, g);
        S.PositionsLeft(w, flight, ids, g);
        if S.Resident(w.reqs[g]) {
          ResidentCovers(w.reqs[g], ps);
        }
      }
    }
  }

  // ----- requests come and go

  lemma LinkedJoins(k: Link, n: Link, g: int, r: S.Req, tokens: seq<int>)
    requires Linked(k) && g !in k.reqs && !S.Holds(r) && r.prompt == |tokens|
    requires n == k.(reqs := k.reqs[g := r], prompts := k.prompts[g := tokens])
    ensures Linked(n)
  {
    hide RowFits, Behind;
    forall h | h in n.holders ensures HolderOk(n, h) {
      assert HolderOk(k, h);
    }
  }

  /** Requests without resources have left. */
  lemma LinkedFewer(k: Link, n: Link)
    requires Linked(k) && n == k.(reqs := n.reqs)
    requires forall h :: h in n.reqs ==> h in k.reqs && n.reqs[h] == k.reqs[h]
    requires forall h :: h in k.reqs && S.Holds(k.reqs[h]) ==> h in n.reqs
    ensures Linked(n)
  {
    hide RowFits, Behind;
    forall h | h in n.holders ensures HolderOk(n, h) {
      assert HolderOk(k, h);
    }
  }

  lemma AbortedFits(k: Link, g: int)
    requires Linked(k) && g in k.holders
    ensures g in k.reqs && g in k.paths && g in k.prompts
    ensures RowFits(S.Final(S.Aborted(k.reqs[g])), k.holders[g].row, k.paths[g], k.prompts[g], k.ps)
  {
    assert HolderOk(k, g);
  }

  /** The live request of a user id is the only one that holds resources for it. */
  lemma OneLive(w: S.World, flight: seq<Ref>, ids: Reasoning.TokenIds, uid: int)
    requires S.WorldOk(w, flight, ids)
    ensures uid in w.live ==> w.live[uid] in w.reqs && w.reqs[w.live[uid]].uid == uid && S.Holds(w.reqs[w.live[uid]])
    ensures forall h :: h in w.reqs && w.reqs[h].uid == uid && S.Holds(w.reqs[h]) ==> uid in w.live && w.live[uid] == h
    ensures forall h :: h in w.reqs && w.reqs[h].uid == uid && uid in w.live ==> w.live[uid] == h
  {
    hide S.RecsOk, S.FlightOk;
    forall h | h in w.reqs && w.reqs[h].uid == uid
      ensures S.Holds(w.reqs[h]) ==> uid in w.live && w.live[uid] == h
    {
      S.ListedWhere(w, h, flight, ids);
    }
    if uid in w.live {
      S.LiveRequest(w, flight, ids, uid);
      S.ListedWhere(w, w.live[uid], flight, ids);
    }
  }

  // ----- the next batch

  ghost predicate InBatch(batch: seq<Extend>, g: int) {
    exists j :: 0 <= j < |batch| && batch[j].req == g
  }

  /** A request that is ready for its next positions: its row reaches to where they start. */
  ghost predicate BeginsAt(k: Link, e: Extend) {
    var g := e.req;
    && g in k.reqs && g in k.holders && g in k.paths && g in k.frontier && g in k.prompts && g in k.evicted
    && g in k.older
    && k.reqs[g].cached <= e.cachedLen <= e.deviceLen && |k.holders[g].row| == Ceil(e.cachedLen, k.ps)
    && k.paths[g] <= Blocks(Ids(k.reqs[g], k.prompts[g]), k.ps) && TokensIn(|k.paths[g]|, k.ps) <= e.cachedLen
    && Behind(k.evicted[g], k.frontier[g], k.ps) && Behind(k.older[g], k.frontier[g], k.ps)
    && (k.reqs[g].slot < 0 ==> e.cachedLen == TokensIn(|k.paths[g]|, k.ps))
  }

  /** The link while a batch is put together: requests of the batch may hold a row before
      they have a slot. */
  ghost predicate Ready(k: Link, batch: seq<Extend>) {
    && (forall i, j :: 0 <= i < j < |batch| ==> batch[i].req != batch[j].req)
    && (forall j :: 0 <= j < |batch| ==> BeginsAt(k, batch[j]))
    && (forall g :: g in k.holders <==> g in k.reqs && (S.Holds(k.reqs[g]) || InBatch(batch, g)))
    && (forall g :: g in k.reqs ==> g in k.prompts && |k.prompts[g]| == k.reqs[g].prompt)
    && (forall g :: g in k.holders && !InBatch(batch, g) ==> HolderOk(k, g))
  }

  lemma ReadyNone(k: Link)
    requires Linked(k)
    ensures Ready(k, [])
  {
  }

  lemma InBatchMore(batch: seq<Extend>, e: Extend)
    ensures forall g :: InBatch(batch + [e], g) <==> InBatch(batch, g) || g == e.req
  {
    var all := batch + [e];
    forall g | InBatch(batch, g) || g == e.req ensures InBatch(all, g) {
      if InBatch(batch, g) {
        var j :| 0 <= j < |batch| && batch[j].req == g;
        assert all[j].req == g;
      } else {
        assert all[|batch|].req == g;
      }
    }
  }

  lemma ReadyMore(k: Link, n: Link, batch: seq<Extend>, e: Extend)
    requires Ready(k, batch) && !InBatch(batch, e.req) && BeginsAt(n, e)
    requires n.reqs == k.reqs && n.prompts == k.prompts && n.ps == k.ps && n.holders.Keys == k.holders.Keys + {e.req}
    requires Elsewhere(k.holders, n.holders, e.req) && Elsewhere(k.paths, n.paths, e.req)
    requires Elsewhere(k.frontier, n.frontier, e.req)
    requires Elsewhere(k.evicted, n.evicted, e.req) && Elsewhere(k.older, n.older, e.req)
    ensures Ready(n, batch + [e])
  {
    hide RowFits, Behind, Blocks, Ceil;
    var all := batch + [e];
    InBatchMore(batch, e);
    forall j | 0 <= j < |all| ensures BeginsAt(n, all[j]) {
      if j < |batch| {
        assert BeginsAt(k, batch[j]) && InBatch(batch, batch[j].req);
      }
    }
    forall g | g in n.holders && !InBatch(all, g) ensures HolderOk(n, g) {
      assert HolderOk(k, g);
    }
    forall i, j | 0 <= i < j < |all| ensures all[i].req != all[j].req {
      assert i < |batch| ==> InBatch(batch, batch[i].req);
    }
  }

  /** The forwards of a batch. */
  ghost predicate ForBatch(batch: seq<Extend>, flight: seq<Ref>) {
    && (forall g :: g in S.GensOf(flight) <==> InBatch(batch, g))
    && (forall i, j :: 0 <= i < |flight| && 0 <= j < |batch| && flight[i].gen == batch[j].req ==>
         flight[i].at == batch[j].deviceLen && flight[i].from == batch[j].cachedLen)
  }

  /** After the rows have grown and the forwards are issued everything is linked again. */
  lemma ReadyLinked(k: Link, n: Link, batch: seq<Extend>, flight: seq<Ref>)
    requires Ready(k, batch) && ForBatch(batch, flight) && S.BatchLaunched(k.reqs, n.reqs, flight)
    requires AllGrown(k.holders, n.holders, batch, k.ps) && n.paths == k.paths && n.frontier == k.frontier
    requires n.prompts == k.prompts && n.evicted == k.evicted && n.older == k.older && n.ps == k.ps
    ensures Linked(n)
    ensures forall g :: g in n.reqs ==> g in k.reqs && n.reqs[g].cached >= k.reqs[g].cached
    ensures forall i :: 0 <= i < |flight| ==> flight[i].gen in n.reqs && flight[i].at == n.reqs[flight[i].gen].cached
  {
    hide Behind, Blocks, Ceil, AllGrown, S.GensOf, S.BatchLaunched, RowFits;
    forall g | g in k.reqs
      ensures g in n.reqs && n.reqs[g].prompt == k.reqs[g].prompt && n.reqs[g].cached >= k.reqs[g].cached
      ensures g in n.holders <==> S.Holds(n.reqs[g])
      ensures g in n.holders ==> HolderOk(n, g)
    {
      LinkOne(k, n, batch, flight, g);
    }
    LaunchedKeys(k.reqs, n.reqs, flight);
    GrownKeys(k.holders, n.holders, batch, k.ps);
    forall i | 0 <= i < |flight| ensures flight[i].gen in n.reqs && flight[i].at == n.reqs[flight[i].gen].cached {
      LaunchedShape(k.reqs, n.reqs, flight, i);
    }
  }

  lemma LaunchedKeys(before: map<int, S.Req>, after: map<int, S.Req>, flight: seq<Ref>)
    requires S.BatchLaunched(before, after, flight)
    ensures after.Keys == before.Keys
  {
  }

  lemma GrownKeys(before: Holders, now: Holders, batch: seq<Extend>, ps: PageSize)
    requires AllGrown(before, now, batch, ps)
    ensures now.Keys == before.Keys
  {
  }

  lemma LaunchedShape(before: map<int, S.Req>, after: map<int, S.Req>, flight: seq<Ref>, i: nat)
    requires S.BatchLaunched(before, after, flight) && i < |flight|
    ensures flight[i].gen in before && flight[i].gen in after
    ensures var r, s := before[flight[i].gen], after[flight[i].gen];
            s.prompt == r.prompt && s.committed == r.committed && s.cached == flight[i].at && S.Holds(s)
  {
    assert S.LaunchedIn(before, after, flight[i]);
  }

  lemma LinkOne(k: Link, n: Link, batch: seq<Extend>, flight: seq<Ref>, g: int)
    requires Ready(k, batch) && ForBatch(batch, flight) && S.BatchLaunched(k.reqs, n.reqs, flight)
    requires AllGrown(k.holders, n.holders, batch, k.ps) && n.paths == k.paths && n.frontier == k.frontier
    requires n.prompts == k.prompts && n.evicted == k.evicted && n.older == k.older && n.ps == k.ps && g in k.reqs
    ensures g in n.reqs && n.reqs[g].prompt == k.reqs[g].prompt && n.reqs[g].cached >= k.reqs[g].cached
    ensures g in n.holders <==> S.Holds(n.reqs[g])
    ensures g in n.holders ==> HolderOk(n, g)
  {
    hide Behind, Blocks, Ceil, AllGrown, TokensIn, S.Launched;
    LaunchedKeys(k.reqs, n.reqs, flight);
    GrownKeys(k.holders, n.holders, batch, k.ps);
    if InBatch(batch, g) {
      var j :| 0 <= j < |batch| && batch[j].req == g;
      assert BeginsAt(k, batch[j]) && g in S.GensOf(flight);
      var i :| 0 <= i < |flight| && flight[i].gen == g;
      LaunchedShape(k.reqs, n.reqs, flight, i);
      RowGrows(k.holders, n.holders, batch, j, k.ps);
      HolderMade(n, g);
    } else {
      assert g !in S.GensOf(flight);
      if g in k.holders {
        assert HolderOk(k, g);
        RowStays(k.holders, n.holders, batch, g, k.ps);
        HolderMade(n, g);
      }
    }
  }

  /** The decode batch: every running request writes its next position. */
  lemma DecodeStarts(k: Link, e: Extend)
    requires HolderOk(k, e.req) && e.cachedLen == k.reqs[e.req].cached && e.deviceLen == k.reqs[e.req].cached + 1
    requires k.reqs[e.req].slot >= 0
    ensures BeginsAt(k, e)
  {
  }

  lemma BeginsHeld(k: Link, e: Extend)
    requires BeginsAt(k, e)
    ensures e.req in k.holders
  {
  }

  /** Exactly the running requests are listed as such. */
  lemma RunningAll(w: S.World, flight: seq<Ref>, ids: Reasoning.TokenIds)
    requires S.WorldOk(w, flight, ids)
    ensures forall g :: g in w.running <==> g in w.reqs && S.Runs(w.reqs[g])
  {
    hide S.RecsOk, S.FlightOk, S.CanDecode;
    forall g ensures g in w.running <==> g in w.reqs && S.Runs(w.reqs[g]) {
      if g in w.running {
        S.RunningRecord(w, g, flight, ids);
      } else if g in w.reqs {
        S.ListedWhere(w, g, flight, ids);
      }
    }
  }

  lemma RunningShape(w: S.World, g: int, flight: seq<Ref>, ids: Reasoning.TokenIds)
    requires S.WorldOk(w, flight, ids) && g in w.running
    ensures g in w.reqs && S.Runs(w.reqs[g]) && S.Holds(w.reqs[g]) && w.reqs[g].device >= w.reqs[g].prompt
  {
    hide TokensOf, PositionsOf, EpochsOf, Reasoning.Grammatical;
    S.RunningRecord(w, g, flight, ids);
    S.RecordOf(w, g, flight, ids);
  }

  /** A resident prompt goes on where its last chunk ended. */
  lemma ResidentStarts(k: Link, n: Link, e: Extend)
    requires HolderOk(k, e.req) && e.cachedLen == k.reqs[e.req].cached <= e.deviceLen && k.reqs[e.req].slot >= 0
    requires n == k.(older := k.older[e.req := k.evicted[e.req]])
    ensures BeginsAt(n, e)
  {
  }

  /** The part of a prompt that may be matched: at least one token is computed. */
  function Matchable(prompt: seq<int>): seq<int> {
    if prompt == [] then [] else prompt[..|prompt| - 1]
  }

  /** A new prompt starts behind its matched prefix. */
  lemma MatchedStarts(n: Link, e: Extend)
    requires e.req in n.reqs && e.req in n.holders && e.req in n.paths && e.req in n.frontier && e.req in n.prompts
    requires e.req in n.evicted && e.req in n.older && n.evicted[e.req] == n.older[e.req] == 0
    requires var g, m := e.req, |n.paths[e.req]|;
             && n.reqs[g].cached == 0 && n.reqs[g].committed == [] && n.prompts[g] != []
             && |n.holders[g].row| == m && n.paths[g] <= Blocks(Matchable(n.prompts[g]), n.ps)
             && e.cachedLen == TokensIn(m, n.ps) <= e.deviceLen
    ensures BeginsAt(n, e)
  {
    var g, m := e.req, |n.paths[e.req]|;
    var prompt := n.prompts[g];
    CeilOfTokens(m, n.ps);
    BlocksShrink(prompt, |prompt| - 1, n.ps);
    assert Ids(n.reqs[g], prompt) == prompt;
    NothingBehind(n.frontier[g], n.ps);
  }

  lemma NothingBehind(frontier: nat, ps: PageSize)
    ensures Behind(0, frontier, ps)
  {
    DivSmall(0, ps);
  }

  /** The match leaves a token to compute. */
  lemma MatchedShort(prompt: seq<int>, p: Path, ps: PageSize)
    requires prompt != [] && p <= Blocks(Matchable(prompt), ps)
    ensures TokensIn(|p|, ps) < |prompt|
  {
    var n := |prompt| - 1;
    BlockCount(prompt[..n], ps);
    assert n == n / ps * ps + n % ps;
    Monotone(ps, |p|, n / ps);
  }

  /** A new forward of a request starts where its computed positions end, so it sees
      nothing that has been released. */
  lemma WindowsGrow(k: Link, n: Link, last: seq<Ref>, batch: seq<Ref>)
    requires WindowsKept(k, last) && S.BatchLaunched(k.reqs, n.reqs, batch) && n.holders.Keys == k.holders.Keys
    requires n.frontier == k.frontier && n.ps == k.ps && n.window == k.window
    ensures WindowsKept(n, last + batch)
  {
    hide S.GensOf, S.Issued;
    forall g | g in n.holders ensures WindowKept(n, g, last + batch) {
      assert WindowKept(k, g, last);
      forall i | 0 <= i < |batch| && batch[i].gen == g
        ensures k.reqs[g].cached <= batch[i].from && k.reqs[g].cached <= n.reqs[g].cached
      {
        LaunchedShape(k.reqs, n.reqs, batch, i);
        LaunchedFrom(k.reqs, n.reqs, batch, i);
      }
      if g !in S.GensOf(batch) {
        assert n.reqs[g] == k.reqs[g];
      } else {
        LaunchedIndex(batch, g);
      }
    }
  }

  /** A new forward of a request starts where its computed positions end, and a first one
      behind what is stored; so the oldest one that has not been read stays, or has nothing
      of its own in front. */
  lemma TrimmedGrow(k: Link, n: Link, last: seq<Ref>, rows: seq<Extend>, batch: seq<Ref>)
    requires WindowsTrimmed(k, last) && S.BatchLaunched(k.reqs, n.reqs, batch) && n.holders.Keys == k.holders.Keys
    requires n.frontier == k.frontier && n.paths == k.paths && n.ps == k.ps && n.window == k.window
    requires Ready(k, rows) && ForBatch(rows, batch)
    requires forall g :: g in k.reqs && k.reqs[g].slot < 0 ==> S.NotInFlight(last, g)
    ensures WindowsTrimmed(n, last + batch)
  {
    hide S.BatchLaunched, ForBatch, Ready, Trimmed, S.GensOf;
    forall g | g in n.holders ensures WindowTrimmed(n, g, last + batch) {
      assert WindowTrimmed(k, g, last);
      LaunchedKeys(k.reqs, n.reqs, batch);
      FirstOfTwo(last, batch, g, n.reqs[g].cached);
      FirstIsOne(batch, g, n.reqs[g].cached);
      if i :| 0 <= i < |batch| && batch[i].gen == g {
        var first :| 0 <= first < |batch| && batch[first].gen == g
                     && batch[first].from == FirstStart(batch, g, n.reqs[g].cached);
        LaunchedStart(k, n, rows, batch, first);
        if k.reqs[g].slot < 0 {
          FirstIsOne(last, g, batch[first].from);
          NothingBefore(|k.paths[g]|, k.window, k.ps);
          TrimmedMore(|k.paths[g]|, batch[first].from + 1, Max(|k.paths[g]|, k.frontier[g]), batch[first].from + 1,
            k.window, k.ps);
        }
      } else {
        LaunchedElsewhere(k.reqs, n.reqs, batch, g);
      }
    }
  }

  lemma WaitingAway(w: S.World, flight: seq<Ref>, ids: Reasoning.TokenIds)
    requires S.WorldOk(w, flight, ids)
    ensures forall g :: g in w.reqs && w.reqs[g].slot < 0 ==> S.NotInFlight(flight, g)
  {
    hide S.WorldOk, S.NotInFlight;
    forall g | g in w.reqs && w.reqs[g].slot < 0 ensures S.NotInFlight(flight, g) {
      S.RecordOf(w, g, flight, ids);
      S.WaitingNotInFlight(w, flight, ids, g);
    }
  }

  lemma LaunchedElsewhere(before: map<int, S.Req>, after: map<int, S.Req>, batch: seq<Ref>, g: int)
    requires S.BatchLaunched(before, after, batch) && g in before && S.NotInFlight(batch, g)
    ensures g in after && after[g] == before[g]
  {
  }

  lemma LaunchedStart(k: Link, n: Link, rows: seq<Extend>, batch: seq<Ref>, i: nat)
    requires S.BatchLaunched(k.reqs, n.reqs, batch) && Ready(k, rows) && ForBatch(rows, batch) && i < |batch|
    ensures var g := batch[i].gen;
            && g in k.reqs && g in k.paths && k.reqs[g].life.state == Active
            && batch[i].from == if k.reqs[g].slot < 0 then TokensIn(|k.paths[g]|, k.ps) else k.reqs[g].cached
  {
    hide Blocks, Ceil, Behind, TokensIn, HolderOk;
    assert S.LaunchedIn(k.reqs, n.reqs, batch[i]);
    assert batch[i].gen in S.GensOf(batch);
    var j :| 0 <= j < |rows| && rows[j].req == batch[i].gen;
    assert BeginsAt(k, rows[j]);
  }

  lemma LaunchedIndex(batch: seq<Ref>, g: int)
    requires g in S.GensOf(batch)
    ensures exists i :: 0 <= i < |batch| && batch[i].gen == g
  {
  }

  lemma LaunchedFrom(before: map<int, S.Req>, after: map<int, S.Req>, batch: seq<Ref>, i: nat)
    requires S.BatchLaunched(before, after, batch) && i < |batch|
    ensures batch[i].gen in before && before[batch[i].gen].cached <= batch[i].from < batch[i].at
  {
    assert S.LaunchedIn(before, after, batch[i]);
  }

  // ----- plans

  /** The shares of a prefill batch. */
  function PlanOf(batch: seq<Extend>): (plan: seq<S.Grant>)
    ensures |plan| == |batch|
    ensures forall j :: 0 <= j < |plan| ==> plan[j] == S.Grant(batch[j].req, batch[j].cachedLen, batch[j].deviceLen)
  {
    seq(|batch|, j requires 0 <= j < |batch| => S.Grant(batch[j].req, batch[j].cachedLen, batch[j].deviceLen))
  }

  /** What is left while a prefill batch is put together: table slots that are open, and
      tokens that are reserved for what was admitted before. */
  datatype Adder = Adder(open: nat, reserved: nat)

  /** What the new prompts of a batch may still need. */
  function NewNeeds(batch: seq<Extend>, reqs: map<int, S.Req>): int {
    if batch == [] then 0
    else NewNeeds(batch[..|batch| - 1], reqs) + NewNeed(batch[|batch| - 1], reqs)
  }

  function NewNeed(e: Extend, reqs: map<int, S.Req>): int {
    if e.req in reqs && reqs[e.req].slot < 0 then reqs[e.req].prompt - e.cachedLen + reqs[e.req].output else 0
  }

  /** A waiting request goes on with its prompt. */
  ghost predicate GoesOn(e: Extend, reqs: map<int, S.Req>, pending: set<int>) {
    e.req in pending && e.req in reqs && S.Continues(reqs[e.req], e.cachedLen, e.deviceLen)
      && e.deviceLen <= reqs[e.req].prompt
  }

  /** The books of a prefill batch that is put together with `slots` free table slots. */
  ghost predicate Gathered(batch: seq<Extend>, a: Adder, reqs: map<int, S.Req>, pending: set<int>, slots: nat,
                           ps: PageSize) {
    && (forall j :: 0 <= j < |batch| ==> GoesOn(batch[j], reqs, pending))
    && S.NewSlots(PlanOf(batch), reqs) + a.open == slots
    && a.reserved == S.Reserved(reqs, ps) + NewNeeds(batch, reqs)
  }

  lemma GatheredNone(reqs: map<int, S.Req>, pending: set<int>, slots: nat, ps: PageSize)
    ensures Gathered([], Adder(slots, S.Reserved(reqs, ps)), reqs, pending, slots, ps)
  {
    hide S.Reserved;
  }

  /** One more prompt; a new one takes a slot and a reservation. */
  lemma GatheredMore(batch: seq<Extend>, a: Adder, e: Extend, reqs: map<int, S.Req>, pending: set<int>, slots: nat,
                     ps: PageSize)
    requires Gathered(batch, a, reqs, pending, slots, ps) && GoesOn(e, reqs, pending) && reqs[e.req].slot >= -1
    requires reqs[e.req].slot < 0 ==> a.open > 0
    ensures a.reserved + NewNeed(e, reqs) >= 0
    ensures Gathered(batch + [e],
              Adder(if reqs[e.req].slot < 0 then a.open - 1 else a.open, a.reserved + NewNeed(e, reqs)),
              reqs, pending, slots, ps)
  {
    hide S.Reserved;
    var all := batch + [e];
    assert all[..|batch|] == batch && PlanOf(all)[..|batch|] == PlanOf(batch);
    S.NewSlotsLast(PlanOf(all), reqs);
  }

  /** Larger shares for the same prompts. */
  ghost predicate Longer(batch: seq<Extend>, longer: seq<Extend>, reqs: map<int, S.Req>) {
    |longer| == |batch| && forall j :: 0 <= j < |batch| ==> LongerOne(batch[j], longer[j], reqs)
  }

  ghost predicate LongerOne(e: Extend, l: Extend, reqs: map<int, S.Req>) {
    l.req == e.req && l.cachedLen == e.cachedLen < l.deviceLen && e.req in reqs && l.deviceLen <= reqs[e.req].prompt
  }

  lemma GatheredLonger(batch: seq<Extend>, longer: seq<Extend>, a: Adder, reqs: map<int, S.Req>, pending: set<int>,
                       slots: nat, ps: PageSize)
    requires Gathered(batch, a, reqs, pending, slots, ps) && Longer(batch, longer, reqs)
    ensures Gathered(longer, a, reqs, pending, slots, ps)
  {
    hide S.Reserved;
    SameSlots(PlanOf(batch), PlanOf(longer), reqs);
    SameNeeds(batch, longer, reqs);
    forall j | 0 <= j < |longer| ensures GoesOn(longer[j], reqs, pending) {
      assert GoesOn(batch[j], reqs, pending) && LongerOne(batch[j], longer[j], reqs);
    }
  }

  lemma {:induction false} SameSlots(plan: seq<S.Grant>, other: seq<S.Grant>, reqs: map<int, S.Req>)
    requires |plan| == |other| && forall i :: 0 <= i < |plan| ==> plan[i].gen == other[i].gen
    ensures S.NewSlots(plan, reqs) == S.NewSlots(other, reqs)
  {
    if plan != [] {
      SameSlots(plan[1..], other[1..], reqs);
    }
  }

  lemma {:induction false} SameNeeds(batch: seq<Extend>, longer: seq<Extend>, reqs: map<int, S.Req>)
    requires Longer(batch, longer, reqs)
    ensures NewNeeds(batch, reqs) == NewNeeds(longer, reqs)
  {
    if batch != [] {
      var n := |batch| - 1;
      assert LongerOne(batch[n], longer[n], reqs);
      SameNeeds(batch[..n], longer[..n], reqs);
    }
  }

  /** How many positions are written does not matter before the pages are taken. */
  lemma ReadyLonger(k: Link, batch: seq<Extend>, longer: seq<Extend>)
    requires Ready(k, batch) && Longer(batch, longer, k.reqs)
    ensures Ready(k, longer)
  {
    hide Behind, Blocks, Ceil, TokensIn, HolderOk;
    forall j | 0 <= j < |longer| ensures BeginsAt(k, longer[j]) && longer[j].req == batch[j].req {
      assert BeginsAt(k, batch[j]) && LongerOne(batch[j], longer[j], k.reqs);
    }
    SameInBatch(batch, longer);
  }

  lemma SameInBatch(batch: seq<Extend>, longer: seq<Extend>)
    requires |longer| == |batch| && forall j :: 0 <= j < |batch| ==> longer[j].req == batch[j].req
    ensures forall g :: InBatch(longer, g) <==> InBatch(batch, g)
  {
    forall g | InBatch(batch, g) ensures InBatch(longer, g) {
      var j :| 0 <= j < |batch| && batch[j].req == g;
      assert longer[j].req == g;
    }
  }

  /** With nothing in the batch the link is whole. */
  lemma ReadyNothing(k: Link)
    requires Ready(k, [])
    ensures Linked(k)
  {
    hide HolderOk;
    forall g ensures !InBatch([], g) {
    }
  }

  /** What the cache said about a new prompt: `matched` of the `longest` stored blocks are
      usable in tree `t`. */
  datatype Verdict = Verdict(matched: nat, longest: nat, t: Tree)

  /** The first `matched` stored blocks of a prompt. */
  function StoredPart(prompt: seq<int>, matched: nat, ps: PageSize): Path {
    var p := Blocks(Matchable(prompt), ps);
    if matched <= |p| then p[..matched] else p
  }

  /** The cache's answer to a new prompt: where it starts, or that it does not fit. */
  ghost predicate Answered(s: Supply, prompt: seq<int>, output: nat, reserved: nat, start: Option<nat>, v: Verdict,
                           ps: PageSize) {
    && Usable(v.t, Blocks(Matchable(prompt), ps), v.matched, v.longest) && FlatOf(v.t) == s.f
    && (start.Some? <==> Admits(s, |prompt|, output, reserved, StoredPart(prompt, v.matched, ps), ps))
    && (start.Some? ==> start.value == TokensIn(v.matched, ps))
  }

  ghost predicate Refused(s: Supply, prompt: seq<int>, output: nat, reserved: nat, ps: PageSize) {
    exists v: Verdict :: Answered(s, prompt, output, reserved, None, v, ps)
  }

  /** While pages are only locked and reserved a refusal stands. */
  lemma RefusedStays(s: Supply, t: Supply, prompt: seq<int>, output: nat, reserved: nat, more: nat, ps: PageSize)
    requires Refused(s, prompt, output, reserved, ps) && Tighter(s, t) && reserved <= more
    ensures Refused(t, prompt, output, more, ps)
  {
    hide Usable, FlatOf, Admits, Blocks;
    var v: Verdict :| Answered(s, prompt, output, reserved, None, v, ps);
    StillRefused(s, t, |prompt|, output, reserved, more, StoredPart(prompt, v.matched, ps), ps);
    assert Answered(t, prompt, output, more, None, v, ps);
  }

  function BeginOf(e: Option<Extend>): Option<nat> {
    if e.Some? then Some(e.value.cachedLen) else None
  }

  /** A new prompt has got a row and a lock, and has lost nothing yet. */
  ghost predicate Started(k: Link, n: Link, g: int) {
    && g in n.holders && g in n.paths
    && n == k.(holders := k.holders[g := n.holders[g]], paths := k.paths[g := n.paths[g]],
         frontier := k.frontier[g := 0],
               evicted := k.evicted[g := 0], older := k.older[g := 0])
  }

  /** A resident prompt joins the batch. */
  lemma ResidentJoins(k: Link, n: Link, batch: seq<Extend>, e: Extend, flight: seq<Ref>)
    requires Ready(k, batch) && !InBatch(batch, e.req) && WindowsKept(k, flight) && e.req in k.holders
    requires HolderOk(k, e.req) && k.reqs[e.req].slot >= 0 && WindowsTrimmed(k, flight)
    requires e.cachedLen == k.reqs[e.req].cached <= e.deviceLen && n == k.(older := k.older[e.req := k.evicted[e.req]])
    ensures Ready(n, batch + [e]) && WindowsKept(n, flight) && WindowsTrimmed(n, flight)
  {
    hide RowFits, Behind, Blocks, Ceil, TokensIn, WindowsKept, WindowsTrimmed, InBatch, Ready;
    ResidentStarts(k, n, e);
    assert n.holders.Keys == k.holders.Keys + {e.req};
    ReadyMore(k, n, batch, e);
    WindowsPrepared(k, n, e.req, flight);
    TrimmedPrepared(k, n, e.req, flight);
  }

  /** A new prompt joins the batch. */
  lemma NewJoins(k: Link, n: Link, batch: seq<Extend>, e: Extend, flight: seq<Ref>)
    requires Ready(k, batch) && !InBatch(batch, e.req) && WindowsKept(k, flight) && Started(k, n, e.req)
    requires e.req in n.reqs && e.req in n.prompts && n.reqs[e.req].cached == 0 && n.reqs[e.req].committed == []
    requires n.prompts[e.req] != [] && WindowsTrimmed(k, flight) && S.NotInFlight(flight, e.req)
    requires var m := |n.paths[e.req]|;
             |n.holders[e.req].row| == m && n.paths[e.req] <= Blocks(Matchable(n.prompts[e.req]), n.ps)
             && e.cachedLen == TokensIn(m, n.ps) <= e.deviceLen
    ensures Ready(n, batch + [e]) && WindowsKept(n, flight) && WindowsTrimmed(n, flight)
  {
    hide RowFits, Behind, Blocks, Ceil, TokensIn, WindowsKept, WindowsTrimmed, InBatch, Ready;
    MatchedStarts(n, e);
    ReadyMore(k, n, batch, e);
    WindowsPrepared(k, n, e.req, flight);
    TrimmedPrepared(k, n, e.req, flight);
  }

  /** The share of a prompt in place of its first position. */
  function Lengthened(e: Extend, share: Share, reqs: map<int, S.Req>): Extend
    requires e.req in reqs
  {
    e.(deviceLen := ShareEnd(e, share, reqs))
  }

  lemma LongerLast(batch: seq<Extend>, e: Extend, share: Share, a: Adder, reqs: map<int, S.Req>, pending: set<int>,
                   slots: nat, ps: PageSize)
    requires Gathered(batch + [e], a, reqs, pending, slots, ps) && e.req in reqs && e.req == share.gen
    requires share.chunk >= 1
    requires e.deviceLen == e.cachedLen + 1 <= reqs[e.req].prompt
    ensures Longer(batch + [e], batch + [Lengthened(e, share, reqs)], reqs)
    ensures ShareOf(Lengthened(e, share, reqs), share, reqs)
  {
    hide S.Reserved, S.NewSlots, NewNeeds;
    var all, l := batch + [e], Lengthened(e, share, reqs);
    forall j | 0 <= j < |all| ensures LongerOne(all[j], (batch + [l])[j], reqs) {
      assert GoesOn(all[j], reqs, pending);
    }
    assert GoesOn(all[|batch|], reqs, pending);
  }

  // ----- which batch was issued

  /** A prompt and the size of its share. */
  datatype Share = Share(gen: int, chunk: nat)

  /** Where a share ends: it may reach to the end of the prompt, not beyond. */
  function ShareEnd(e: Extend, share: Share, reqs: map<int, S.Req>): nat
    requires e.req in reqs
  {
    if e.cachedLen + share.chunk <= reqs[e.req].prompt then e.cachedLen + share.chunk else reqs[e.req].prompt
  }

  /** The positions that a share pays for. */
  ghost predicate ShareOf(e: Extend, share: Share, reqs: map<int, S.Req>) {
    && e.req == share.gen && e.req in reqs && S.Continues(reqs[e.req], e.cachedLen, e.deviceLen)
    && e.deviceLen <= e.cachedLen + share.chunk && e.deviceLen <= reqs[e.req].prompt
    && (e.deviceLen == e.cachedLen + share.chunk || e.deviceLen == reqs[e.req].prompt)
  }

  ghost predicate Apart(batch: seq<Extend>) {
    forall i, j :: 0 <= i < j < |batch| ==> batch[i].req != batch[j].req
  }

  ghost predicate AmongShares(e: Extend, shares: seq<Share>, reqs: map<int, S.Req>) {
    exists i :: 0 <= i < |shares| && ShareOf(e, shares[i], reqs)
  }

  /** A prefill batch of some of the shares, and of all that are for resident prompts. */
  ghost predicate PrefillOf(batch: seq<Extend>, shares: seq<Share>, reqs: map<int, S.Req>) {
    && Apart(batch) && (forall j :: 0 <= j < |batch| ==> AmongShares(batch[j], shares, reqs))
    && (forall i :: 0 <= i < |shares| && shares[i].gen in reqs && reqs[shares[i].gen].slot >= 0 ==>
         InBatch(batch, shares[i].gen))
  }

  lemma PrefillOne(batch: seq<Extend>, shares: seq<Share>, share: Share, reqs: map<int, S.Req>, e: Option<Extend>)
    requires PrefillOf(batch, shares, reqs) && (e.Some? ==> ShareOf(e.value, share, reqs) && !InBatch(batch, share.gen))
    requires e.None? && share.gen in reqs ==> reqs[share.gen].slot < 0
    ensures PrefillOf(if e.Some? then batch + [e.value] else batch, shares + [share], reqs)
  {
    hide S.Continues;
    var all := shares + [share];
    var more := if e.Some? then batch + [e.value] else batch;
    forall j | 0 <= j < |more| ensures AmongShares(more[j], all, reqs) {
      if j < |batch| {
        assert AmongShares(batch[j], shares, reqs);
        var i :| 0 <= i < |shares| && ShareOf(batch[j], shares[i], reqs);
        assert all[i] == shares[i];
      } else {
        assert all[|shares|] == share;
      }
    }
    if e.Some? {
      InBatchMore(batch, e.value);
      assert forall j :: 0 <= j < |batch| ==> InBatch(batch, batch[j].req);
    }
  }

  /** The batch of the first `n` shares. */
  ghost predicate Collected(batch: seq<Extend>, shares: seq<Share>, n: nat, reqs: map<int, S.Req>) {
    n <= |shares| && PrefillOf(batch, shares[..n], reqs) && forall j :: 0 <= j < |batch| ==>
      IsBefore(batch[j].req, shares, n)
  }

  ghost predicate IsBefore(g: int, shares: seq<Share>, n: nat) {
    exists l :: 0 <= l < n <= |shares| && shares[l].gen == g
  }

  lemma CollectedNone(shares: seq<Share>, reqs: map<int, S.Req>)
    ensures Collected([], shares, 0, reqs)
  {
  }

  lemma CollectedAll(batch: seq<Extend>, shares: seq<Share>, reqs: map<int, S.Req>)
    requires Collected(batch, shares, |shares|, reqs)
    ensures PrefillOf(batch, shares, reqs)
  {
    hide PrefillOf;
    assert shares[..|shares|] == shares;
  }

  lemma NotCollected(batch: seq<Extend>, shares: seq<Share>, i: nat, reqs: map<int, S.Req>)
    requires i < |shares| && Collected(batch, shares, i, reqs)
    requires forall j, l :: 0 <= j < l < |shares| ==> shares[j].gen != shares[l].gen
    ensures !InBatch(batch, shares[i].gen)
  {
    hide PrefillOf;
  }

  lemma CollectedMore(batch: seq<Extend>, shares: seq<Share>, i: nat, reqs: map<int, S.Req>, e: Option<Extend>)
    requires i < |shares| && Collected(batch, shares, i, reqs)
    requires e.Some? ==> ShareOf(e.value, shares[i], reqs) && !InBatch(batch, shares[i].gen)
    requires e.None? && shares[i].gen in reqs ==> reqs[shares[i].gen].slot < 0
    ensures Collected(if e.Some? then batch + [e.value] else batch, shares, i + 1, reqs)
  {
    hide PrefillOf, S.Continues;
    PrefillOne(batch, shares[..i], shares[i], reqs, e);
    assert shares[..i + 1] == shares[..i] + [shares[i]];
    var more := if e.Some? then batch + [e.value] else batch;
    forall j | 0 <= j < |more| ensures IsBefore(more[j].req, shares, i + 1) {
      if j < |batch| {
        assert IsBefore(batch[j].req, shares, i);
        var l :| 0 <= l < i && shares[l].gen == batch[j].req;
        assert shares[l].gen == more[j].req;
      } else {
        assert shares[i].gen == more[j].req;
      }
    }
  }

  ghost predicate NextOf(e: Extend, reqs: map<int, S.Req>) {
    e.req in reqs && e.cachedLen == reqs[e.req].cached && e.deviceLen == reqs[e.req].device >= reqs[e.req].prompt
  }

  /** A decode batch: the next position of every running request. */
  ghost predicate DecodeOf(batch: seq<Extend>, reqs: map<int, S.Req>) {
    && Apart(batch) && (forall j :: 0 <= j < |batch| ==> NextOf(batch[j], reqs))
    && (forall g :: InBatch(batch, g) <==> g in reqs && S.Runs(reqs[g]))
  }

  /** Shares for different requests that wait. */
  predicate SharesOk(shares: seq<Share>, reqs: map<int, S.Req>) {
    && (forall i :: 0 <= i < |shares| ==> shares[i].gen in reqs && S.Waits(reqs[shares[i].gen]) && shares[i].chunk >= 1)
    && (forall i, j :: 0 <= i < j < |shares| ==> shares[i].gen != shares[j].gen)
  }

  function Offered(shares: seq<Share>, reqs: map<int, S.Req>): seq<Share> {
    if SharesOk(shares, reqs) then shares else []
  }

  /** Which batch was chosen: prompts out of the shares if there is one that is resident or
      fits, and otherwise the running requests, if they are to be decoded. */
  ghost predicate Chosen(batch: seq<Extend>, shares: seq<Share>, decode: bool, reqs: map<int, S.Req>) {
    || (batch != [] && PrefillOf(batch, Offered(shares, reqs), reqs))
    || (PrefillOf([], Offered(shares, reqs), reqs) && if decode then DecodeOf(batch, reqs) else batch == [])
  }

  /** The forwards that were issued for a batch, and the records after that. */
  ghost predicate IssuedFor(batch: seq<Extend>, flight: seq<Ref>, before: map<int, S.Req>, after: map<int, S.Req>) {
    && ForBatch(batch, flight) && S.BatchLaunched(before, after, flight)
    && forall i :: 0 <= i < |flight| ==>
         flight[i].gen in before && (flight[i].chunk <==> flight[i].at < before[flight[i].gen].prompt)
  }

  /** What one iteration issued: the batch, its forwards, and the records before and after. */
  datatype Round = Round(batch: seq<Extend>, flight: seq<Ref>, before: map<int, S.Req>, after: map<int, S.Req>)

  ghost predicate RoundOk(r: Round) {
    IssuedFor(r.batch, r.flight, r.before, r.after)
  }

  lemma NoForwards(r: Round)
    requires RoundOk(r) && r.batch == []
    ensures r.flight == []
  {
    hide S.BatchLaunched, S.GensOf;
    S.SomeGen(r.flight);
    forall g ensures g !in S.GensOf(r.flight) {
      assert !InBatch(r.batch, g);
    }
  }

  lemma NothingIssued(reqs: map<int, S.Req>)
    ensures RoundOk(Round([], [], reqs, reqs))
  {
    S.NothingLaunched(reqs);
    S.NoGens();
    forall g ensures !InBatch([], g) {
    }
  }

  /** The forwards of a prefill batch. */
  lemma PrefillIssued(batch: seq<Extend>, flight: seq<Ref>, before: map<int, S.Req>, after: map<int, S.Req>)
    requires Apart(batch) && S.BatchLaunched(before, after, flight)
    requires |flight| == |batch| && forall i :: 0 <= i < |flight| ==> S.ForShare(flight[i], PlanOf(batch)[i], before)
    ensures IssuedFor(batch, flight, before, after)
  {
    hide S.BatchLaunched;
    forall i | 0 <= i < |flight|
      ensures flight[i].gen == batch[i].req && flight[i].at == batch[i].deviceLen && flight[i].gen in before
      ensures flight[i].from == batch[i].cachedLen
    {
      assert S.ForShare(flight[i], PlanOf(batch)[i], before);
    }
    forall g ensures g in S.GensOf(flight) <==> InBatch(batch, g) {
      if InBatch(batch, g) {
        var j :| 0 <= j < |batch| && batch[j].req == g;
        assert flight[j].gen == g;
      }
      if g in S.GensOf(flight) {
        LaunchedIndex(flight, g);
        var i :| 0 <= i < |flight| && flight[i].gen == g;
        assert batch[i].req == g;
      }
    }
  }

  /** The forwards of a decode batch. */
  lemma DecodeIssued(batch: seq<Extend>, flight: seq<Ref>, before: map<int, S.Req>, after: map<int, S.Req>,
                     running: set<int>)
    requires DecodeOf(batch, before) && S.BatchLaunched(before, after, flight)
    requires S.GensOf(flight) == running && forall g :: g in running <==> g in before && S.Runs(before[g])
    requires forall i :: 0 <= i < |flight| ==>
      !flight[i].chunk && flight[i].gen in before && flight[i].at == before[flight[i].gen].device
      && flight[i].from == before[flight[i].gen].cached
    ensures IssuedFor(batch, flight, before, after)
  {
    hide S.BatchLaunched, S.Runs;
    forall i | 0 <= i < |flight| ensures flight[i].at >= before[flight[i].gen].prompt {
      assert flight[i].gen in S.GensOf(flight);
      assert InBatch(batch, flight[i].gen);
      var j :| 0 <= j < |batch| && batch[j].req == flight[i].gen;
      assert NextOf(batch[j], before);
    }
    forall i, j | 0 <= i < |flight| && 0 <= j < |batch| && flight[i].gen == batch[j].req
      ensures flight[i].at == batch[j].deviceLen && flight[i].from == batch[j].cachedLen
    {
      assert NextOf(batch[j], before);
    }
  }

  /** A waiting request has nothing on the host but its prompt; one without a slot has
      nothing computed. */
  lemma WaitingShape(w: S.World, flight: seq<Ref>, ids: Reasoning.TokenIds, g: int)
    requires S.WorldOk(w, flight, ids) && g in w.pending
    ensures g in w.reqs && w.reqs[g].committed == [] && w.reqs[g].prompt >= 1 && w.reqs[g].life.state == Active
    ensures w.reqs[g].cached < w.reqs[g].prompt && (w.reqs[g].slot < 0 ==> w.reqs[g].cached == 0)
    ensures (S.Holds(w.reqs[g]) <==> w.reqs[g].slot >= 0) && w.reqs[g].slot >= -1
  {
    hide TokensOf, PositionsOf, EpochsOf;
    S.PendingRecord(w, g, flight, ids);
    S.RecordOf(w, g, flight, ids);
  }
}
