/** The token estimate of a context response and its truncation to a budget. Text stands for
    its bytes; counts are cast to 32 bits as the code does. */
module TokenBudget {
  import opened Common

  const U32 := 0x1_0000_0000

  function AsU32(n: nat): (r: nat)
    ensures r < U32
    ensures r == n <==> n < U32
  {
    n % U32
  }

  datatype SymbolResult = SymbolResult(name: Bytes, signature: Bytes, source: Option<Bytes>)

  function HeaderSize(r: SymbolResult): nat { |r.name| + |r.signature| }

  function SourceSize(source: Option<Bytes>): nat { if source.Some? then |source.value| else 0 }

  function HeaderTokens(r: SymbolResult): nat { AsU32(HeaderSize(r) / 4) }

  function SourceTokens(source: Option<Bytes>): nat { AsU32(SourceSize(source) / 4) }

  function TotalSize(results: seq<SymbolResult>): nat {
    if results == [] then 0
    else
      var last := results[|results| - 1];
      TotalSize(results[..|results| - 1]) + HeaderSize(last) + SourceSize(last.source)
  }

  // ---- What truncation leaves ----

  /** The results after the pass, which of them fitted, and what is left of the budget. */
  datatype Walked = Walked(kept: seq<SymbolResult>, fitted: seq<bool>, left: nat)

  function TakeOne(w: Walked, r: SymbolResult): Walked {
    var header := HeaderTokens(r);
    if w.left < header then Walked(w.kept + [r.(source := None)], w.fitted + [false], w.left)
    else
      var left := w.left - header;
      if r.source.Some? && left < SourceTokens(r.source)
      then Walked(w.kept + [r.(source := Some(Cut(r.source.value, left * 4)))], w.fitted + [true], 0)
      else Walked(w.kept + [r], w.fitted + [true], left - SourceTokens(r.source))
  }

  function Cut(s: Bytes, n: nat): (c: Bytes)
    ensures c <= s
  {
    if n < |s| then s[..n] else s
  }

  function Walk(results: seq<SymbolResult>, budget: nat): Walked {
    if results == [] then Walked([], [], budget)
    else TakeOne(Walk(results[..|results| - 1], budget), results[|results| - 1])
  }

  /** Header tokens of the results that fitted, and the tokens of every source kept. */
  function Spent(kept: seq<SymbolResult>, fitted: seq<bool>): nat
    requires |kept| == |fitted|
  {
    if kept == [] then 0
    else
      var n := |kept| - 1;
      Spent(kept[..n], fitted[..n]) + (if fitted[n] then HeaderTokens(kept[n]) else 0) + SourceTokens(kept[n].source)
  }

  predicate SameButSource(a: SymbolResult, b: SymbolResult) {
    a.name == b.name && a.signature == b.signature
  }

  /** One result: a source is dropped when its header does not fit in what is left, cut only
      when nothing is left, and otherwise kept whole. */
  predicate KeptRight(r: SymbolResult, kept: SymbolResult, fitted: bool, left: nat) {
    && SameButSource(r, kept)
    && (kept.source.Some? ==> r.source.Some? && kept.source.value <= r.source.value)
    && (kept.source.Some? <==> fitted && r.source.Some?)
    && (!fitted ==> left < HeaderTokens(r))
    && (fitted && kept != r ==>
          left == 0 && |kept.source.value| % 4 == 0 && SourceTokens(kept.source) < SourceTokens(r.source))
  }

  lemma {:induction false} CutCosts(s: Bytes, left: nat)
    requires left < AsU32(|s| / 4)
    ensures |Cut(s, left * 4)| == left * 4 && SourceTokens(Some(Cut(s, left * 4))) == left
  {
    assert AsU32(|s| / 4) <= |s| / 4;
    assert left * 4 < |s|;
  }

  lemma TakeOneSpends(w: Walked, r: SymbolResult)
    requires |w.kept| == |w.fitted|
    ensures var w', n := TakeOne(w, r), |w.kept|;
            && w'.kept[..n] == w.kept && w'.fitted[..n] == w.fitted && |w'.kept| == |w'.fitted| == n + 1
            && w'.left <= w.left && KeptRight(r, w'.kept[n], w'.fitted[n], w'.left)
            && w.left - w'.left == (if w'.fitted[n] then HeaderTokens(w'.kept[n]) else 0) + SourceTokens(w'.kept[n].source)
  {
    if w.left >= HeaderTokens(r) && r.source.Some? && w.left - HeaderTokens(r) < SourceTokens(r.source) {
      CutCosts(r.source.value, w.left - HeaderTokens(r));
    }
  }

  ghost predicate AllRight(results: seq<SymbolResult>, w: Walked) {
    |w.kept| == |w.fitted| == |results| &&
    forall i | 0 <= i < |results| :: KeptRight(results[i], w.kept[i], w.fitted[i], w.left)
  }

  /** A smaller rest keeps what holds of a result. */
  lemma KeptStays(r: SymbolResult, kept: SymbolResult, fitted: bool, left: nat, left': nat)
    requires KeptRight(r, kept, fitted, left) && left' <= left
    ensures KeptRight(r, kept, fitted, left')
  {
  }

  lemma RightOneMore(results: seq<SymbolResult>, w: Walked, r: SymbolResult)
    requires AllRight(results, w)
    ensures AllRight(results + [r], TakeOne(w, r))
  {
    TakeOneSpends(w, r);
    var w', all := TakeOne(w, r), results + [r];
    forall i | 0 <= i < |all| ensures KeptRight(all[i], w'.kept[i], w'.fitted[i], w'.left) {
      if i < |results| {
        assert w'.kept[i] == w'.kept[..|results|][i] && w'.fitted[i] == w'.fitted[..|results|][i];
        KeptStays(results[i], w.kept[i], w.fitted[i], w.left, w'.left);
      }
    }
  }

  lemma SpentOneMore(w: Walked, r: SymbolResult)
    requires |w.kept| == |w.fitted|
    ensures var w' := TakeOne(w, r);
            |w'.kept| == |w'.fitted| && w'.left <= w.left
            && Spent(w'.kept, w'.fitted) == Spent(w.kept, w.fitted) + (w.left - w'.left)
  {
    TakeOneSpends(w, r);
  }

  lemma {:induction false} WalkIsRight(results: seq<SymbolResult>, budget: nat)
    ensures AllRight(results, Walk(results, budget))
  {
    if results != [] {
      var front, last := results[..|results| - 1], results[|results| - 1];
      WalkIsRight(front, budget);
      RightOneMore(front, Walk(front, budget), last);
      assert results == front + [last];
    }
  }

  ghost predicate Balances(w: Walked, budget: nat) {
    |w.kept| == |w.fitted| && w.left <= budget && budget - w.left == Spent(w.kept, w.fitted)
  }

  lemma BalancesOneMore(w: Walked, r: SymbolResult, budget: nat)
    requires Balances(w, budget)
    ensures Balances(TakeOne(w, r), budget)
  {
    SpentOneMore(w, r);
  }

  lemma {:induction false} WalkBalances(results: seq<SymbolResult>, budget: nat)
    ensures Balances(Walk(results, budget), budget)
  {
    if results != [] {
      WalkBalances(results[..|results| - 1], budget);
      BalancesOneMore(Walk(results[..|results| - 1], budget), results[|results| - 1], budget);
    }
  }

  /** Nothing goes below zero; the budget less what is left is the header tokens of the
      results that fitted and the tokens of every source kept; every source kept is a prefix
      of the original. */
  lemma {:induction false} BudgetIsExact(results: seq<SymbolResult>, budget: nat)
    ensures var w := Walk(results, budget);
            AllRight(results, w) && w.left <= budget && budget - w.left == Spent(w.kept, w.fitted)
  {
    WalkIsRight(results, budget);
    WalkBalances(results, budget);
  }

  // ---- The tokens of what is actually returned ----

  /** Every header is returned, fitted or not. */
  function Returned(kept: seq<SymbolResult>): nat {
    if kept == [] then 0
    else
      var last := kept[|kept| - 1];
      Returned(kept[..|kept| - 1]) + HeaderTokens(last) + SourceTokens(last.source)
  }

  lemma {:induction false} ReturnedAgainstSpent(kept: seq<SymbolResult>, fitted: seq<bool>)
    requires |kept| == |fitted|
    ensures Spent(kept, fitted) <= Returned(kept)
    ensures (forall i | 0 <= i < |kept| :: fitted[i]) ==> Returned(kept) == Spent(kept, fitted)
    ensures forall i | 0 <= i < |kept| && !fitted[i] :: Returned(kept) >= Spent(kept, fitted) + HeaderTokens(kept[i])
  {
    if kept != [] {
      var n := |kept| - 1;
      ReturnedAgainstSpent(kept[..n], fitted[..n]);
      forall i | 0 <= i < |kept| && !fitted[i] ensures Returned(kept) >= Spent(kept, fitted) + HeaderTokens(kept[i]) {
        if i < n { assert kept[..n][i] == kept[i] && !fitted[..n][i]; }
      }
    }
  }

  lemma UnfittedHeader(r: SymbolResult, kept: SymbolResult, left: nat)
    requires KeptRight(r, kept, false, left)
    ensures left < HeaderTokens(kept)
  {
  }

  /** What is returned stays within the budget exactly when every header fitted, for headers
      that did not fit are returned all the same. */
  lemma ReturnedWithinBudgetIffAllFit(results: seq<SymbolResult>, budget: nat)
    ensures var w := Walk(results, budget);
            Returned(w.kept) <= budget <==> forall i | 0 <= i < |w.fitted| :: w.fitted[i]
  {
    BudgetIsExact(results, budget);
    var Walked(kept, fitted, left) := Walk(results, budget);
    var spent, returned := Spent(kept, fitted), Returned(kept);
    ReturnedAgainstSpent(kept, fitted);
    if i :| 0 <= i < |fitted| && !fitted[i] {
      UnfittedHeader(results[i], kept[i], left);
      assert returned >= spent + HeaderTokens(kept[i]) > budget;
    }
  }

  /** The casts only matter for texts of four times 2^32 bytes and more: below that, a source
      counts a quarter of its length. */
  lemma CastsExactIffShort(source: Bytes)
    ensures SourceTokens(Some(source)) == |source| / 4 <==> |source| < 4 * 0x1_0000_0000
  {
    assert |source| / 4 < U32 <==> |source| < 4 * U32;
  }

  /** A header counts its name and its signature in the same way, and what is over is
      forgotten by whole multiples of 2^32. */
  lemma HeadersAndCasts(r: SymbolResult, n: nat)
    ensures |r.name| + |r.signature| < 4 * 0x1_0000_0000 ==> HeaderTokens(r) == (|r.name| + |r.signature|) / 4
    ensures AsU32(n + 0x1_0000_0000) == AsU32(n) && SourceTokens(None) == 0
    ensures TotalSize([r]) == |r.name| + |r.signature| + (if r.source.Some? then |r.source.value| else 0)
  {
    assert HeaderSize(r) / 4 < U32 <==> HeaderSize(r) < 4 * U32;
    assert [r][..0] == [];
  }

  lemma {:induction false} SizesAdd(a: seq<SymbolResult>, b: seq<SymbolResult>)
    ensures TotalSize(a + b) == TotalSize(a) + TotalSize(b)
  {
    if b == [] {
      assert a + b == a;
    } else {
      SizesAdd(a, b[..|b| - 1]);
      assert (a + b)[..|a + b| - 1] == a + b[..|b| - 1];
    }
  }

  // ---- The handler's part ----

  /** The body of the loop, for one result after `before`. */
  method TruncateOne(ghost before: seq<SymbolResult>, result: SymbolResult, remaining: nat, ghost budget: nat)
    returns (kept: SymbolResult, left: nat)
    requires remaining == Walk(before, budget).left
    ensures Walk(before + [result], budget).kept == Walk(before, budget).kept + [kept]
    ensures Walk(before + [result], budget).left == left
  {
    assert (before + [result])[..|before|] == before;
    var symTokens := AsU32((|result.name| + |result.signature|) / 4);
    kept, left := result, remaining;
    if remaining < symTokens {
      kept := result.(source := None);
      return;
    }
    left := remaining - symTokens;
    if result.source.Some? {
      var source := result.source.value;
      var sourceTokens := AsU32(|source| / 4);
      if left < sourceTokens {
        var maxChars := left * 4;
        kept := result.(source := Some(source[..if maxChars < |source| then maxChars else |source|]));
        left := 0;
      } else {
        left := left - sourceTokens;
      }
    }
  }

  /** The loop: it cuts and drops sources in place. */
  method Truncate(results: array<SymbolResult>, maxTokens: nat) returns (remaining: nat)
    requires maxTokens < U32
    modifies results
    ensures results[..] == Walk(old(results[..]), maxTokens).kept
    ensures remaining == Walk(old(results[..]), maxTokens).left
  {
    remaining := maxTokens;
    ghost var was := results[..];
    for i := 0 to results.Length
      invariant |Walk(was[..i], maxTokens).kept| == i
      invariant results[..i] == Walk(was[..i], maxTokens).kept && results[i..] == was[i..]
      invariant remaining == Walk(was[..i], maxTokens).left
    {
      assert was[..i + 1] == was[..i] + [was[i]];
      assert results[i] == was[i] by { assert results[i..][0] == was[i..][0]; }
      ghost var rest := results[i + 1..];
      assert rest == was[i + 1..] by { assert results[i..][1..] == was[i..][1..]; }
      var kept, left := TruncateOne(was[..i], results[i], remaining, maxTokens);
      results[i], remaining := kept, left;
      assert results[..i + 1] == results[..i] + [results[i]];
    }
    assert was[..results.Length] == was;
  }

  /** With a budget the reported estimate never exceeds it. Either nothing is cut and the
      estimate is a quarter of all the bytes, or the results are truncated and the estimate
      is exactly what was spent. */
  method EstimateAndTruncate(results: array<SymbolResult>, maxTokens: nat) returns (estimated: nat)
    requires maxTokens < U32
    modifies results
    ensures maxTokens > 0 ==> estimated <= maxTokens
    ensures var whole := AsU32(TotalSize(old(results[..])) / 4);
            if maxTokens > 0 && whole > maxTokens then
              var w := Walk(old(results[..]), maxTokens);
              results[..] == w.kept && |w.fitted| == |w.kept| && estimated == Spent(w.kept, w.fitted)
            else results[..] == old(results[..]) && estimated == whole
  {
    var total := 0;
    for i := 0 to results.Length
      invariant total == TotalSize(results[..i])
    {
      assert results[..i + 1][..i] == results[..i];
      total := total + |results[i].name| + |results[i].signature| + SourceSize(results[i].source);
    }
    assert results[..results.Length] == results[..];
    estimated := AsU32(total / 4);
    if maxTokens > 0 && estimated > maxTokens {
      BudgetIsExact(results[..], maxTokens);
      var remaining := Truncate(results, maxTokens);
      estimated := maxTokens - remaining;
    }
  }
}
