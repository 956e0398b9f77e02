/**
 The token estimate of engine/tokens.go and mcp/token_budget.go: a quarter of every
 run of word runes, rounded up, plus one for every other rune that is not a space.
 */
module Tokens {
  import opened Runes

  predicate IsSpace(r: Rune) {
    r == ' ' as int || r == '\t' as int || r == '\n' as int || r == '\r' as int
  }

  predicate IsWord(r: Rune) {
    || r == '_' as int
    || 'a' as int <= r <= 'z' as int || 'A' as int <= r <= 'Z' as int || '0' as int <= r <= '9' as int
  }

  /** Length of the run of word runes that `rs` begins with. */
  function RunLength(rs: seq<Rune>): (n: nat)
    ensures n <= |rs|
    ensures forall i :: 0 <= i < n ==> IsWord(rs[i])
    ensures n < |rs| ==> !IsWord(rs[n])
  {
    if rs == [] || !IsWord(rs[0]) then 0 else 1 + RunLength(rs[1..])
  }

  function CeilQuarter(n: nat): nat { (n + 3) / 4 }

  /** The estimate, run by maximal run. */
  function Estimate(rs: seq<Rune>): nat
    decreases |rs|
  {
    if rs == [] then 0
    else if IsWord(rs[0]) then CeilQuarter(RunLength(rs)) + Estimate(rs[RunLength(rs)..])
    else (if IsSpace(rs[0]) then 0 else 1) + Estimate(rs[1..])
  }

  /** The estimate of `rs` when `run` word runes come right before it. */
  function EstimateFrom(run: nat, rs: seq<Rune>): nat
    decreases |rs|
  {
    if rs == [] then CeilQuarter(run)
    else if IsWord(rs[0]) then EstimateFrom(run + 1, rs[1..])
    else CeilQuarter(run) + (if IsSpace(rs[0]) then 0 else 1) + EstimateFrom(0, rs[1..])
  }

  lemma {:induction false} FromIsRuns(run: nat, rs: seq<Rune>)
    ensures EstimateFrom(run, rs) == CeilQuarter(run + RunLength(rs)) + Estimate(rs[RunLength(rs)..])
    decreases |rs|
  {
    if rs == [] {
    } else if IsWord(rs[0]) {
      FromIsRuns(run + 1, rs[1..]);
      assert rs[1..][RunLength(rs[1..])..] == rs[RunLength(rs)..];
    } else {
      assert rs[0..] == rs;
      FromIsRuns(0, rs[1..]);
      FromZero(rs[1..]);
    }
  }

  lemma {:induction false} FromZero(rs: seq<Rune>)
    ensures EstimateFrom(0, rs) == Estimate(rs)
    decreases |rs|, 0
  {
    if rs == [] {
    } else if IsWord(rs[0]) {
      FromIsRuns(1, rs[1..]);
      assert rs[1..][RunLength(rs[1..])..] == rs[RunLength(rs)..];
    } else {
      FromZero(rs[1..]);
    }
  }

  /** ApproxTokens over the runes of its argument: two counters and one pass. */
  method ApproxTokens(rs: seq<Rune>) returns (tokens: nat)
    ensures tokens == Estimate(rs)
  {
    tokens := 0;
    var run := 0;
    for i := 0 to |rs|
      invariant tokens + EstimateFrom(run, rs[i..]) == EstimateFrom(0, rs)
    {
      var r := rs[i];
      assert rs[i..][1..] == rs[i + 1..];
      if IsSpace(r) {
        tokens, run := Flush(tokens, run);
      } else if IsWord(r) {
        run := run + 1;
      } else {
        tokens, run := Flush(tokens, run);
        tokens := tokens + 1;
      }
    }
    tokens, run := Flush(tokens, run);
    FromZero(rs);
  }

  /** The closure that ends a run. */
  method Flush(tokens: nat, run: nat) returns (tokens': nat, run': nat)
    ensures tokens' == tokens + CeilQuarter(run) && run' == 0
  {
    tokens', run' := tokens, run;
    if run > 0 {
      tokens' := tokens + (run + 3) / 4;
      run' := 0;
    }
  }

  /** Word runes right before a text add between their own cost less one and their own cost. */
  lemma FromRun(run: nat, b: seq<Rune>)
    ensures CeilQuarter(run) + Estimate(b) - 1 <= EstimateFrom(run, b) <= CeilQuarter(run) + Estimate(b)
  {
    hide Estimate, EstimateFrom;
    FromIsRuns(run, b);
    FromZero(b);
    FromIsRuns(0, b);
  }

  lemma {:induction false} FromConcat(run: nat, a: seq<Rune>, b: seq<Rune>)
    ensures EstimateFrom(run, a) + Estimate(b) <= EstimateFrom(run, a + b) + 1
    ensures EstimateFrom(run, a + b) <= EstimateFrom(run, a) + Estimate(b)
    ensures a != [] && !IsWord(a[|a| - 1]) ==> EstimateFrom(run, a + b) == EstimateFrom(run, a) + Estimate(b)
    decreases |a|
  {
    if a == [] {
      assert a + b == b;
      FromRun(run, b);
    } else {
      hide Estimate;
      assert (a + b)[1..] == a[1..] + b;
      FromConcat(if IsWord(a[0]) then run + 1 else 0, a[1..], b);
      if |a| == 1 {
        assert a[1..] + b == b;
        FromZero(b);
      }
    }
  }

  /** Nor does a cut before anything but a word rune. */
  lemma {:induction false} FromCut(run: nat, a: seq<Rune>, b: seq<Rune>)
    requires b != [] ==> !IsWord(b[0])
    ensures EstimateFrom(run, a + b) == EstimateFrom(run, a) + Estimate(b)
    decreases |a|
  {
    if a == [] {
      assert a + b == b;
      if b != [] { FromZero(b[1..]); }
    } else {
      hide Estimate;
      assert (a + b)[1..] == a[1..] + b;
      FromCut(if IsWord(a[0]) then run + 1 else 0, a[1..], b);
    }
  }

  lemma EstimateCutBeforeOther(a: seq<Rune>, b: seq<Rune>)
    requires b != [] ==> !IsWord(b[0])
    ensures Estimate(a + b) == Estimate(a) + Estimate(b)
  {
    hide Estimate, EstimateFrom;
    FromCut(0, a, b);
    FromZero(a);
    FromZero(a + b);
  }

  // ----- The estimate in numbers -----

  lemma {:induction false} RunOfWords(rs: seq<Rune>)
    requires forall i :: 0 <= i < |rs| ==> IsWord(rs[i])
    ensures RunLength(rs) == |rs|
  {
    if rs != [] { RunOfWords(rs[1..]); }
  }

  /** Letters, digits and underscores in a row cost a quarter each, rounded up at the end. */
  lemma WordRun(rs: seq<Rune>)
    requires forall i :: 0 <= i < |rs| ==>
               rs[i] == 95 || 97 <= rs[i] <= 122 || 65 <= rs[i] <= 90 || 48 <= rs[i] <= 57
    ensures |rs| <= 4 * Estimate(rs) < |rs| + 4
  {
    RunOfWords(rs);
    assert rs[|rs|..] == [];
  }

  /** Space, tab, newline and carriage return cost nothing; any rune that is neither they nor a word rune costs one. */
  lemma OtherRune(r: Rune)
    requires !(r == 95 || 97 <= r <= 122 || 65 <= r <= 90 || 48 <= r <= 57)
    ensures Estimate([r]) == if r == 32 || r == 9 || r == 10 || r == 13 then 0 else 1
  {
    assert [r][1..] == [];
  }

  /** Cutting a text changes its estimate by at most one, and never lowers it. */
  lemma EstimateConcat(a: seq<Rune>, b: seq<Rune>)
    ensures Estimate(a) + Estimate(b) - 1 <= Estimate(a + b) <= Estimate(a) + Estimate(b)
  {
    FromConcat(0, a, b);
    FromZero(a);
    FromZero(a + b);
  }

  /** A cut that does not split a word run changes nothing. */
  lemma EstimateCutBetweenRuns(a: seq<Rune>, b: seq<Rune>)
    requires a != [] ==> !IsWord(a[|a| - 1])
    ensures Estimate(a + b) == Estimate(a) + Estimate(b)
  {
    if a == [] {
      assert a + b == b;
    } else {
      FromConcat(0, a, b);
      FromZero(a);
      FromZero(a + b);
    }
  }
}
