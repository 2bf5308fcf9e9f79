/** Tokens and pages: a page holds `ps` consecutive tokens.  The prefix cache and the
    page tables work on tokens; these lemmas justify reasoning about them page by page. */
module Paging {
  import opened RadixTree
  import opened PrefixMap
  import opened RadixSteps

  type PageSize = n: nat | n > 0 witness 1

  /** Whole pages in `n` tokens. */
  function PagesIn(n: nat, ps: PageSize): nat {
    n / ps
  }

  function TokensIn(n: nat, ps: PageSize): nat {
    n * ps
  }

  function Ceil(n: nat, ps: nat): nat
    requires ps > 0
  {
    (n + ps - 1) / ps
  }

  lemma MulGap(d: int, ps: nat)
    ensures d >= 1 ==> d * ps >= ps
    ensures d <= -1 ==> d * ps <= 0 - ps
  {
  }

  lemma DivUnique(n: nat, ps: nat, q: nat, r: nat)
    requires n == q * ps + r && r < ps
    ensures n / ps == q && n % ps == r
  {
    var d := n / ps - q;
    assert d * ps == r - n % ps;
    MulGap(d, ps);
  }

  lemma DivStep(n: nat, ps: nat)
    requires 0 < ps <= n
    ensures n / ps == (n - ps) / ps + 1 && n % ps == (n - ps) % ps
  {
    var q := (n - ps) / ps;
    assert (q + 1) * ps == q * ps + ps;
    DivUnique(n, ps, q + 1, (n - ps) % ps);
  }

  lemma DivSmall(n: nat, ps: nat)
    requires n < ps
    ensures n / ps == 0 && n % ps == n
  {
    DivUnique(n, ps, 0, n);
  }

  /** The whole blocks of a token sequence. */
  function Blocks(ids: seq<int>, ps: nat): Path
    requires ps > 0
  {
    if |ids| < ps then [] else [ids[..ps]] + Blocks(ids[ps..], ps)
  }

  lemma {:induction false} BlockCount(ids: seq<int>, ps: nat)
    requires ps > 0
    ensures |Blocks(ids, ps)| == |ids| / ps
    decreases |ids|
  {
    if |ids| < ps {
      DivSmall(|ids|, ps);
    } else {
      DivStep(|ids|, ps);
      BlockCount(ids[ps..], ps);
    }
  }

  /** Blocks of a token prefix are a block prefix. */
  lemma {:induction false} BlocksShrink(ids: seq<int>, n: nat, ps: nat)
    requires ps > 0 && n <= |ids|
    ensures Blocks(ids[..n], ps) <= Blocks(ids, ps)
    decreases |ids|
  {
    if n >= ps {
      assert ids[..n][..ps] == ids[..ps];
      assert ids[..n][ps..] == ids[ps..][..n - ps];
      BlocksShrink(ids[ps..], n - ps, ps);
    }
  }

  lemma BlocksOfPrefix(ids: seq<int>, n: nat, ps: nat)
    requires ps > 0 && n <= |ids|
    ensures n / ps <= |Blocks(ids, ps)| && Blocks(ids[..n], ps) == Blocks(ids, ps)[..n / ps]
  {
    BlocksShrink(ids, n, ps);
    BlockCount(ids[..n], ps);
  }

  function CommonTokens(a: seq<int>, b: seq<int>): (n: nat)
    ensures n <= |a| && n <= |b| && a[..n] == b[..n]
    ensures n < |a| && n < |b| ==> a[n] != b[n]
  {
    if a == [] || b == [] || a[0] != b[0] then 0
    else
      var n := CommonTokens(a[1..], b[1..]);
      assert a[..n + 1] == [a[0]] + a[1..][..n] && b[..n + 1] == [b[0]] + b[1..][..n];
      n + 1
  }

  lemma CommonTokensAtLeast(a: seq<int>, b: seq<int>, k: nat)
    requires k <= |a| && k <= |b| && a[..k] == b[..k]
    ensures CommonTokens(a, b) >= k
  {
    hide CommonTokens;
    assert forall i :: 0 <= i < k ==> a[i] == a[..k][i] && b[i] == b[..k][i];
  }

  lemma CommonTokensSuffix(a: seq<int>, b: seq<int>, k: nat)
    requires k <= |a| && k <= |b| && a[..k] == b[..k]
    ensures CommonTokens(a, b) == k + CommonTokens(a[k..], b[k..])
  {
    hide CommonTokens;
    CommonTokensAtLeast(a, b, k);
    var n, m := CommonTokens(a, b), CommonTokens(a[k..], b[k..]);
    assert a[k..][..n - k] == a[..n][k..] && b[k..][..n - k] == b[..n][k..];
    CommonTokensAtLeast(a[k..], b[k..], n - k);
    assert a[..k + m] == a[..k] + a[k..][..m] && b[..k + m] == b[..k] + b[k..][..m];
    CommonTokensAtLeast(a, b, k + m);
  }

  /** The common token prefix, aligned down to whole pages, is the common block
      prefix: the token-level and the block-level match agree. */
  lemma {:induction false} MatchByBlocks(a: seq<int>, b: seq<int>, ps: nat)
    requires ps > 0
    ensures CommonTokens(a, b) / ps == CommonPrefix(Blocks(a, ps), Blocks(b, ps))
    decreases |a|
  {
    var n := CommonTokens(a, b);
    if n < ps {
      DivSmall(n, ps);
      if ps <= |a| && ps <= |b| {
        assert a[..ps][n] == a[n] && b[..ps][n] == b[n];
      }
    } else {
      assert a[..n][..ps] == a[..ps] && b[..n][..ps] == b[..ps];
      CommonTokensSuffix(a, b, ps);
      DivStep(n, ps);
      MatchByBlocks(a[ps..], b[ps..], ps);
    }
  }

  // ----- page table rows

  /** The token locations of a page; a released page reads -1 throughout. */
  function PageTokens(page: int, ps: nat): (r: seq<int>)
    ensures |r| == ps
  {
    seq(ps, t => if page < 0 then -1 else page * ps + t)
  }

  function TokenRow(pages: seq<int>, ps: nat): (r: seq<int>)
    ensures |r| == |pages| * ps
  {
    if pages == [] then [] else PageTokens(pages[0], ps) + TokenRow(pages[1..], ps)
  }

  function Starts(indices: seq<int>, ps: nat): seq<int>
    requires ps > 0
    decreases |indices|
  {
    if indices == [] then [] else [indices[0]] + Starts(indices[Min(ps, |indices|)..], ps)
  }

  /** Token locations of the pages that start at the given tokens. */
  function FromStarts(starts: seq<int>, ps: nat): seq<int> {
    if starts == [] then [] else seq(ps, t => starts[0] + t) + FromStarts(starts[1..], ps)
  }

  function WholePages(indices: seq<int>, ps: nat): seq<int>
    requires ps > 0
    decreases |indices|
  {
    if |indices| < ps then []
    else (if indices[0] >= 0 then indices[..ps] else []) + WholePages(indices[ps..], ps)
  }

  /** The filter in front of every release: a range that ends inside a page counts
      for the whole page. */
  function ValidFullIndices(indices: seq<int>, ps: nat): seq<int>
    requires ps > 0
  {
    if indices == [] then []
    else if |indices| % ps != 0 then FromStarts(NonNegative(Starts(indices, ps)), ps)
    else WholePages(indices, ps)
  }

  function StartOf(page: int, ps: nat): int {
    if page < 0 then -1 else page * ps
  }

  /** `indices` is a row of pages, cut somewhere in its last page. */
  ghost predicate CutRow(indices: seq<int>, pages: seq<int>, ps: nat) {
    && ps > 0 && pages != [] && (|pages| - 1) * ps < |indices| <= |pages| * ps
    && indices == TokenRow(pages, ps)[..|indices|]
  }

  lemma CutRowStep(indices: seq<int>, pages: seq<int>, ps: nat)
    requires CutRow(indices, pages, ps)
    ensures indices[0] == StartOf(pages[0], ps)
    ensures |pages| == 1 ==> |indices| <= ps
    ensures |pages| > 1 ==> |indices| > ps && indices[..ps] == PageTokens(pages[0], ps)
    ensures |pages| > 1 ==> CutRow(indices[ps..], pages[1..], ps)
  {
    var row := TokenRow(pages, ps);
    assert indices[0] == row[0] == PageTokens(pages[0], ps)[0];
    if |pages| == 1 {
      assert |pages| * ps == ps;
    } else {
      assert (|pages| - 1) * ps >= ps by { assert (|pages| - 2) * ps >= 0; }
      assert indices[..ps] == row[..ps] == PageTokens(pages[0], ps);
      assert indices[ps..] == row[..|indices|][ps..] == row[ps..][..|indices| - ps];
    }
  }

  lemma StartSign(page: int, ps: nat)
    requires ps > 0
    ensures StartOf(page, ps) >= 0 <==> page >= 0
    ensures page >= 0 ==> seq(ps, t => StartOf(page, ps) + t) == PageTokens(page, ps)
  {
  }

  lemma RowFiltered(pages: seq<int>, ps: nat)
    requires pages != []
    ensures TokenRow(NonNegative(pages), ps)
         == (if pages[0] >= 0 then PageTokens(pages[0], ps) else []) + TokenRow(NonNegative(pages[1..]), ps)
  {
    if pages[0] >= 0 {
      assert NonNegative(pages)[1..] == NonNegative(pages[1..]);
    } else {
      assert NonNegative(pages) == NonNegative(pages[1..]);
      assert [] + TokenRow(NonNegative(pages[1..]), ps) == TokenRow(NonNegative(pages[1..]), ps);
    }
  }

  lemma FilteredFirst(page: int, rest: seq<int>, pages: seq<int>, ps: nat)
    requires ps > 0 && pages != [] && pages[0] == page
    requires FromStarts(NonNegative(rest), ps) == TokenRow(NonNegative(pages[1..]), ps)
    ensures FromStarts(NonNegative([StartOf(page, ps)] + rest), ps) == TokenRow(NonNegative(pages), ps)
  {
    StartSign(page, ps);
    RowFiltered(pages, ps);
    var all := [StartOf(page, ps)] + rest;
    assert all[1..] == rest;
    if page >= 0 {
      assert NonNegative(all)[1..] == NonNegative(rest);
    } else {
      assert NonNegative(all) == NonNegative(rest);
    }
  }

  lemma {:induction false} StartsOfRow(indices: seq<int>, pages: seq<int>, ps: nat)
    requires CutRow(indices, pages, ps)
    ensures FromStarts(NonNegative(Starts(indices, ps)), ps) == TokenRow(NonNegative(pages), ps)
    decreases |pages|
  {
    CutRowStep(indices, pages, ps);
    if |pages| == 1 {
      FilteredFirst(pages[0], [], pages, ps);
    } else {
      StartsOfRow(indices[ps..], pages[1..], ps);
      FilteredFirst(pages[0], Starts(indices[ps..], ps), pages, ps);
    }
  }

  lemma {:induction false} WholeRow(indices: seq<int>, pages: seq<int>, ps: nat)
    requires CutRow(indices, pages, ps) && |indices| == |pages| * ps
    ensures WholePages(indices, ps) == TokenRow(NonNegative(pages), ps)
    decreases |pages|
  {
    CutRowStep(indices, pages, ps);
    if |pages| == 1 {
      assert |indices| == ps && WholePages(indices[ps..], ps) == [];
      assert indices == PageTokens(pages[0], ps) by { assert TokenRow(pages, ps) == PageTokens(pages[0], ps) + []; }
    } else {
      assert |indices[ps..]| == (|pages| - 1) * ps;
      WholeRow(indices[ps..], pages[1..], ps);
      StartSign(pages[0], ps);
      RowFiltered(pages, ps);
    }
  }

  /** Filtering the locations of a row gives the locations of its live pages, also
      when the row ends inside a page. */
  lemma ValidPages(indices: seq<int>, pages: seq<int>, ps: nat)
    requires CutRow(indices, pages, ps)
    ensures ValidFullIndices(indices, ps) == TokenRow(NonNegative(pages), ps)
  {
    StartsOfRow(indices, pages, ps);
    if |indices| % ps == 0 {
      FullCut(|indices|, |pages|, ps);
      WholeRow(indices, pages, ps);
    }
  }

  lemma FullCut(n: nat, k: nat, ps: nat)
    requires ps > 0 && k > 0 && (k - 1) * ps < n <= k * ps && n % ps == 0
    ensures n == k * ps
  {
    var q := n / ps;
    assert (q - k) * ps == n - k * ps;
    assert (k - 1) * ps == k * ps - ps;
    MulGap(q - k, ps);
  }
}
