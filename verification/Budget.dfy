/**
 The two greedy packers: skip what does not fit (bench/contextbench/budget.go) and
 stop at what does not fit (mcp/token_budget.go).
 */
module Budget {
  import opened Hits
  import opened Runes
  import Tokens

  function Sum(costs: seq<int>): int {
    if costs == [] then 0 else Sum(costs[..|costs| - 1]) + costs[|costs| - 1]
  }

  /** The costs at the given positions. */
  function At(costs: seq<int>, idx: seq<nat>): (r: seq<int>)
    requires forall i :: 0 <= i < |idx| ==> idx[i] < |costs|
    ensures |r| == |idx| && forall i :: 0 <= i < |idx| ==> r[i] == costs[idx[i]]
  {
    seq(|idx|, i requires 0 <= i < |idx| => costs[idx[i]])
  }

  lemma AtOneMore(costs: seq<int>, idx: seq<nat>, i: nat)
    requires i < |costs| && forall k :: 0 <= k < |idx| ==> idx[k] < |costs|
    ensures Sum(At(costs, idx + [i])) == Sum(At(costs, idx)) + costs[i]
  {
    var r := At(costs, idx + [i]);
    assert r[..|r| - 1] == At(costs, idx);
  }

  // ----- Skipping what does not fit -----

  /** The positions kept among the first `n`: the first, and what still fits when its turn comes. */
  function Packed(costs: seq<int>, max: int, n: nat): (idx: seq<nat>)
    requires n <= |costs|
    ensures forall k :: 0 <= k < |idx| ==> idx[k] < n
    ensures forall k, l :: 0 <= k < l < |idx| ==> idx[k] < idx[l]
    ensures n > 0 ==> idx != [] && idx[0] == 0
  {
    if n == 0 then []
    else
      var idx := Packed(costs, max, n - 1);
      if n == 1 || Sum(At(costs, idx)) + costs[n - 1] <= max then idx + [n - 1] else idx
  }

  function Used(costs: seq<int>, max: int, n: nat): int
    requires n <= |costs|
  {
    Sum(At(costs, Packed(costs, max, n)))
  }

  lemma UsedStep(costs: seq<int>, max: int, n: nat)
    requires 0 < n <= |costs|
    ensures var fits := n == 1 || Used(costs, max, n - 1) + costs[n - 1] <= max;
      && (n - 1 in Packed(costs, max, n) <==> fits)
      && Packed(costs, max, n) == Packed(costs, max, n - 1) + (if fits then [n - 1] else [])
      && Used(costs, max, n) == Used(costs, max, n - 1) + if fits then costs[n - 1] else 0
  {
    hide Sum;
    AtOneMore(costs, Packed(costs, max, n - 1), n - 1);
  }

  /** The budget is exceeded only by the first hit, and then only by it alone. */
  lemma {:induction false} ExceedsOnlyAlone(costs: seq<int>, max: int, n: nat)
    requires 0 < n <= |costs|
    ensures Used(costs, max, n) > max ==> Packed(costs, max, n) == [0] && Used(costs, max, n) == costs[0] > max
  {
    hide Used, Sum;
    if n == 1 {
      UsedStep(costs, max, 1);
      NothingUsed(costs, max);
    } else {
      ExceedsOnlyAlone(costs, max, n - 1);
      UsedStep(costs, max, n);
    }
  }

  lemma NothingUsed(costs: seq<int>, max: int)
    ensures Used(costs, max, 0) == 0
  {
  }

  lemma {:induction false} UsedGrows(costs: seq<int>, max: int, n: nat, m: nat)
    requires n <= m <= |costs| && forall k :: n <= k < m ==> costs[k] >= 0
    ensures Used(costs, max, n) <= Used(costs, max, m)
    ensures forall k :: 0 <= k < n && k !in Packed(costs, max, n) ==> k !in Packed(costs, max, m)
  {
    hide Used;
    if n < m {
      UsedGrows(costs, max, n, m - 1);
      UsedStep(costs, max, m);
    }
  }

  lemma {:induction false} KeptStays(costs: seq<int>, max: int, i: nat, n: nat, m: nat)
    requires n <= m <= |costs| && i in Packed(costs, max, n)
    ensures i in Packed(costs, max, m)
  {
    hide Packed;
    if n < m {
      KeptStays(costs, max, i, n, m - 1);
      UsedStep(costs, max, m);
    }
  }

  /** Nothing dropped of the first `n` hits fits beside what is kept of them. */
  ghost predicate Maximal(costs: seq<int>, max: int, n: nat)
    requires n <= |costs|
  {
    forall i: nat :: i < n && i !in Packed(costs, max, n) ==> Used(costs, max, n) + costs[i] > max
  }

  /** So it is for every budget, and for every list the given one begins with. */
  ghost predicate AlwaysMaximal(costs: seq<int>) {
    forall max, n: nat :: n <= |costs| ==> Maximal(costs, max, n)
  }

  /** No hit after the first has a negative count. */
  ghost predicate NoneNegative(costs: seq<int>) {
    forall k :: 1 <= k < |costs| ==> costs[k] >= 0
  }

  /** The running total is never above that of the first two hits while a negative count is still to come. */
  ghost predicate StaysLow(costs: seq<int>) {
    |costs| > 1 && forall j, k :: 2 <= k <= j < |costs| && costs[j] < 0 ==> Sum(costs[..k]) <= Sum(costs[..2])
  }

  /** The second hit's count is negative, none later is smaller, and the running total stays low. */
  ghost predicate SecondIsLeast(costs: seq<int>) {
    |costs| > 1 && costs[1] < 0 && (forall k :: 2 <= k < |costs| ==> costs[1] <= costs[k]) && StaysLow(costs)
  }

  // ----- Where it holds -----

  /** From `m` on nothing lowers the total, so what was dropped from there on still does not fit. */
  lemma DroppedLate(costs: seq<int>, max: int, m: nat, n: nat, i: nat)
    requires m <= i < n <= |costs| && i !in Packed(costs, max, n) && i >= 1
    requires forall k :: m < k < n ==> costs[k] >= 0
    ensures Used(costs, max, n) + costs[i] > max
  {
    hide Used, Packed;
    if i in Packed(costs, max, i + 1) { KeptStays(costs, max, i, i + 1, n); }
    UsedStep(costs, max, i + 1);
    UsedGrows(costs, max, i + 1, n);
  }

  lemma FirstIsKept(costs: seq<int>, max: int, n: nat)
    requires 0 < n <= |costs|
    ensures 0 in Packed(costs, max, n)
  {
    assert Packed(costs, max, n)[0] == 0;
  }

  lemma NonNegativeIsMaximal(costs: seq<int>, max: int, n: nat)
    requires n <= |costs| && NoneNegative(costs)
    ensures Maximal(costs, max, n)
  {
    hide Used, Packed;
    forall i: nat | i < n && i !in Packed(costs, max, n) ensures Used(costs, max, n) + costs[i] > max {
      FirstIsKept(costs, max, n);
      DroppedLate(costs, max, 0, n, i);
    }
  }

  /** Below the first two hits' total only the first hit is kept. */
  lemma {:induction false} OnlyFirst(costs: seq<int>, max: int, n: nat)
    requires 0 < n <= |costs| && |costs| > 1 && max < costs[0] + costs[1]
    requires forall k :: 2 <= k < n ==> costs[1] <= costs[k]
    ensures Packed(costs, max, n) == [0] && Used(costs, max, n) == costs[0]
  {
    hide Used, Packed;
    UsedStep(costs, max, n);
    if n == 1 { NothingPacked(costs, max); } else { OnlyFirst(costs, max, n - 1); }
  }

  lemma NothingPacked(costs: seq<int>, max: int)
    ensures Packed(costs, max, 0) == [] && Used(costs, max, 0) == 0
  {
  }

  /** What fits when its turn comes is kept, all of it. */
  lemma {:induction false} KeepsWhatFits(costs: seq<int>, max: int, n: nat)
    requires n <= |costs| && forall k :: 2 <= k <= n ==> Sum(costs[..k]) <= max
    ensures Used(costs, max, n) == Sum(costs[..n])
    ensures forall i: nat :: i < n ==> i in Packed(costs, max, n)
  {
    hide Used, Packed, Sum;
    if n == 0 {
      NothingPacked(costs, max);
      NoSum(costs);
    } else {
      KeepsWhatFits(costs, max, n - 1);
      SumStep(costs, n);
      UsedStep(costs, max, n);
      forall i: nat | i < n - 1 ensures i in Packed(costs, max, n) { KeptStays(costs, max, i, n - 1, n); }
    }
  }

  lemma SumStep(costs: seq<int>, n: nat)
    requires 0 < n <= |costs|
    ensures Sum(costs[..n]) == Sum(costs[..n - 1]) + costs[n - 1]
  {
    assert costs[..n][..n - 1] == costs[..n - 1];
  }

  lemma NoSum(costs: seq<int>)
    ensures Sum(costs[..0]) == 0
  {
  }

  /** Just past the last negative count among the first `n`, or 2. */
  function PastNegatives(costs: seq<int>, n: nat): (m: nat)
    requires 2 <= n <= |costs|
    ensures 2 <= m <= n && (m > 2 ==> costs[m - 1] < 0)
    ensures forall k :: m <= k < n ==> costs[k] >= 0
  {
    if n == 2 || costs[n - 1] < 0 then n else PastNegatives(costs, n - 1)
  }

  /** A budget for the first two hits takes everything up to the last negative count. */
  lemma KeepsNegatives(costs: seq<int>, max: int, n: nat)
    requires 2 <= n <= |costs| && StaysLow(costs) && Sum(costs[..2]) <= max
    ensures forall i: nat :: i < PastNegatives(costs, n) ==> i in Packed(costs, max, PastNegatives(costs, n))
  {
    hide Packed, Sum, PastNegatives;
    var m := PastNegatives(costs, n);
    forall k | 2 <= k <= m ensures Sum(costs[..k]) <= max {
      if k == m { SumStep(costs, m); }
      assert m > 2 && k < m ==> Sum(costs[..k]) <= Sum(costs[..2]);
      assert m > 2 ==> Sum(costs[..m - 1]) <= Sum(costs[..2]);
    }
    KeepsWhatFits(costs, max, m);
  }

  lemma FirstTwo(costs: seq<int>)
    requires |costs| > 1
    ensures Sum(costs[..2]) == costs[0] + costs[1]
  {
    hide Sum;
    SumStep(costs, 2);
    SumStep(costs, 1);
    NoSum(costs);
  }

  lemma SecondLeastIsMaximal(costs: seq<int>, max: int, n: nat)
    requires n <= |costs| && SecondIsLeast(costs)
    ensures Maximal(costs, max, n)
  {
    hide Used, Packed, Sum, PastNegatives, StaysLow;
    FirstTwo(costs);
    forall i: nat | i < n && i !in Packed(costs, max, n) ensures Used(costs, max, n) + costs[i] > max {
      FirstIsKept(costs, max, n);
      if max < costs[0] + costs[1] {
        OnlyFirst(costs, max, n);
      } else if n == 1 {
      } else {
        var m := PastNegatives(costs, n);
        KeepsNegatives(costs, max, n);
        if i < m { KeptStays(costs, max, i, m, n); }
        DroppedLate(costs, max, m, n, i);
      }
    }
  }

  // ----- Where it does not -----

  /**
   One less than `n` hits cost in all, when up to `m` the total never was as high and
   from there on nothing lowers it: exactly one hit's worth is dropped.
   */
  lemma {:induction false} OneShort(costs: seq<int>, m: nat, n: nat) returns (i: nat)
    requires 2 <= m <= n <= |costs| && forall k :: m - 1 <= k < n ==> costs[k] >= 0
    requires forall k :: 2 <= k < m ==> Sum(costs[..k]) < Sum(costs[..m])
    ensures var max := Sum(costs[..n]) - 1;
      && 1 <= i < n && costs[i] >= 0 && i !in Packed(costs, max, n)
      && Used(costs, max, n) + costs[i] == Sum(costs[..n])
  {
    hide Used, Packed, Sum;
    var max := Sum(costs[..n]) - 1;
    SumStep(costs, n);
    UsedStep(costs, max, n);
    if costs[n - 1] == 0 && n > m {
      i := OneShort(costs, m, n - 1);
    } else {
      forall k | 2 <= k <= n - 1 ensures Sum(costs[..k]) <= max {
        if k < m { PrefixSumsGrow(costs, m, n); } else { PrefixSumsGrow(costs, k, n - 1); }
      }
      KeepsWhatFits(costs, max, n - 1);
      i := n - 1;
    }
  }

  /** A negative count then makes room for the hit that was dropped. */
  lemma NegativeMakesRoom(costs: seq<int>, m: nat, j: nat)
    requires 2 <= m <= j < |costs| && costs[j] < 0 && forall k :: m - 1 <= k < j ==> costs[k] >= 0
    requires forall k :: 2 <= k < m ==> Sum(costs[..k]) < Sum(costs[..m])
    ensures !Maximal(costs, Sum(costs[..j]) - 1, j + 1)
  {
    hide Used, Packed, Sum;
    var i := OneShort(costs, m, j);
    UsedStep(costs, Sum(costs[..j]) - 1, j + 1);
  }

  lemma FirstNegative(costs: seq<int>, m: nat, k: nat) returns (j: nat)
    requires m <= k < |costs| && costs[k] < 0
    ensures m <= j <= k && costs[j] < 0 && forall i :: m <= i < j ==> costs[i] >= 0
  {
    j := m;
    while costs[j] >= 0
      invariant m <= j <= k && forall i :: m <= i < j ==> costs[i] >= 0
      decreases k - j
    {
      j := j + 1;
    }
  }

  /** A count below a negative second one is kept where the second was dropped. */
  lemma SmallerMakesRoom(costs: seq<int>, k: nat)
    requires 2 <= k < |costs| && costs[1] < 0 && costs[k] < costs[1]
    requires forall i :: 2 <= i < k ==> costs[1] <= costs[i]
    ensures !Maximal(costs, costs[0] + costs[1] - 1, k + 1)
  {
    hide Used, Packed;
    var max := costs[0] + costs[1] - 1;
    OnlyFirst(costs, max, k);
    UsedStep(costs, max, k + 1);
    assert 1 !in Packed(costs, max, k + 1);
  }

  lemma FirstSmaller(costs: seq<int>, k: nat) returns (i: nat)
    requires 2 <= k < |costs| && costs[k] < costs[1]
    ensures 2 <= i <= k && costs[i] < costs[1] && forall h :: 2 <= h < i ==> costs[1] <= costs[h]
  {
    i := 2;
    while costs[i] >= costs[1]
      invariant 2 <= i <= k && forall h :: 2 <= h < i ==> costs[1] <= costs[h]
      decreases k - i
    {
      i := i + 1;
    }
  }

  /** The first prefix that costs more than the first two hits ends in a positive count. */
  lemma FirstAbove(costs: seq<int>, k: nat) returns (m: nat)
    requires 2 <= k <= |costs| && Sum(costs[..k]) > Sum(costs[..2])
    ensures 3 <= m <= k && Sum(costs[..m]) > Sum(costs[..2]) && costs[m - 1] > 0
    ensures forall h :: 2 <= h < m ==> Sum(costs[..h]) <= Sum(costs[..2])
  {
    hide Sum;
    m := 2;
    while Sum(costs[..m]) <= Sum(costs[..2])
      invariant 2 <= m <= k && forall h :: 2 <= h < m ==> Sum(costs[..h]) <= Sum(costs[..2])
      decreases k - m
    {
      m := m + 1;
    }
    SumStep(costs, m);
  }

  /** A total above the first two hits', with a negative count still to come. */
  lemma HighMakesRoom(costs: seq<int>, j: nat, k: nat)
    requires 2 <= k <= j < |costs| && costs[j] < 0 && Sum(costs[..k]) > Sum(costs[..2])
    ensures !AlwaysMaximal(costs)
  {
    hide Sum, Maximal;
    var m := FirstAbove(costs, k);
    var h := FirstNegative(costs, m, j);
    NegativeMakesRoom(costs, m, h);
  }

  lemma NegativeBreaks(costs: seq<int>)
    requires !NoneNegative(costs) && !SecondIsLeast(costs)
    ensures !AlwaysMaximal(costs)
  {
    hide Sum, Maximal;
    var k :| 1 <= k < |costs| && costs[k] < 0;
    if costs[1] >= 0 {
      var j := FirstNegative(costs, 2, k);
      NegativeMakesRoom(costs, 2, j);
    } else if h :| 2 <= h < |costs| && costs[h] < costs[1] {
      var i := FirstSmaller(costs, h);
      SmallerMakesRoom(costs, i);
    } else {
      var j, h :| 2 <= h <= j < |costs| && costs[j] < 0 && Sum(costs[..h]) > Sum(costs[..2]);
      HighMakesRoom(costs, j, h);
    }
  }

  /**
   The packing is maximal at every budget and after every hit exactly when no count
   after the first is negative, or the second is negative, none later is smaller, and
   the running total never exceeds the first two hits' while a negative count is
   still to come. The first hit's count does not matter, as it is never dropped.
   */
  lemma PackingIsMaximal(costs: seq<int>)
    ensures AlwaysMaximal(costs) <==> NoneNegative(costs) || SecondIsLeast(costs)
  {
    hide Maximal, SecondIsLeast, NoneNegative;
    if NoneNegative(costs) {
      forall max, n: nat | n <= |costs| ensures Maximal(costs, max, n) { NonNegativeIsMaximal(costs, max, n); }
    } else if SecondIsLeast(costs) {
      forall max, n: nat | n <= |costs| ensures Maximal(costs, max, n) { SecondLeastIsMaximal(costs, max, n); }
    } else {
      NegativeBreaks(costs);
    }
  }

  /** A hit has a negative count exactly when it comes with one and without text. */
  lemma NegativeHit(h: Hit, count: string -> nat)
    ensures HitTokens(h, count) < 0 <==> h.tokens < 0 && h.text == ""
  {
  }

  /** A hit that comes without a count has it taken from its text; any other keeps what it comes with. */
  lemma CountFilledIn(h: Hit, count: string -> nat)
    ensures Costs([h], count) == [if h.tokens > 0 || h.text == "" then h.tokens else count(h.text)]
    ensures Kept([h], count, [0]) == [h.(tokens := Costs([h], count)[0])]
  {
  }

  function Costs(hits: seq<Hit>, count: string -> nat): (r: seq<int>)
    ensures |r| == |hits| && forall i :: 0 <= i < |hits| ==> r[i] == HitTokens(hits[i], count)
  {
    seq(|hits|, i requires 0 <= i < |hits| => HitTokens(hits[i], count))
  }

  /** The kept hits, with their counts filled in. */
  function Kept(hits: seq<Hit>, count: string -> nat, idx: seq<nat>): (r: seq<Hit>)
    requires forall k :: 0 <= k < |idx| ==> idx[k] < |hits|
  {
    seq(|idx|, k requires 0 <= k < |idx| => hits[idx[k]].(tokens := HitTokens(hits[idx[k]], count)))
  }

  method EnsureTokens(h: Hit, count: string -> nat) returns (h': Hit)
    ensures h' == h.(tokens := HitTokens(h, count))
  {
    h' := h;
    if h.tokens <= 0 && h.text != "" {
      h' := h.(tokens := count(h.text));
    }
  }

  method PackBudget(hits: seq<Hit>, maxTokens: int, count: string -> nat) returns (kept: seq<Hit>, usedTokens: int)
    ensures var idx := Packed(Costs(hits, count), maxTokens, |hits|);
      kept == Kept(hits, count, idx) && usedTokens == Sum(At(Costs(hits, count), idx))
    ensures hits != [] ==> kept != [] && (usedTokens > maxTokens ==> |kept| == 1 && usedTokens == kept[0].tokens)
  {
    hide Sum, Packed, Kept, Used;
    kept, usedTokens := [], 0;
    ghost var costs := Costs(hits, count);
    NothingKept(hits, count, maxTokens);
    UsedIs(costs, maxTokens, |hits|);
    if |hits| == 0 {
      return;
    }
    var first := EnsureTokens(hits[0], count);
    kept := kept + [first];
    usedTokens := first.tokens;
    KeptStep(hits, count, maxTokens, 0);
    for i := 1 to |hits|
      invariant kept == Kept(hits, count, Packed(costs, maxTokens, i))
      invariant usedTokens == Used(costs, maxTokens, i)
    {
      KeptStep(hits, count, maxTokens, i);
      var h := EnsureTokens(hits[i], count);
      if usedTokens + h.tokens <= maxTokens {
        kept := kept + [h];
        usedTokens := usedTokens + h.tokens;
      }
    }
    ExceedsOnlyAlone(costs, maxTokens, |hits|);
    FirstKept(hits, count, maxTokens);
  }

  lemma FirstKept(hits: seq<Hit>, count: string -> nat, max: int)
    requires hits != []
    ensures var idx := Packed(Costs(hits, count), max, |hits|);
      |Kept(hits, count, idx)| == |idx| > 0 && Kept(hits, count, idx)[0].tokens == Costs(hits, count)[0]
  {
    hide Sum;
  }

  lemma UsedIs(costs: seq<int>, max: int, n: nat)
    requires n <= |costs|
    ensures Used(costs, max, n) == Sum(At(costs, Packed(costs, max, n)))
  {
    hide Sum, Packed;
  }

  lemma NothingKept(hits: seq<Hit>, count: string -> nat, max: int)
    ensures var costs := Costs(hits, count);
      Kept(hits, count, Packed(costs, max, 0)) == [] && Used(costs, max, 0) == 0
  {
  }

  /** What happens to hit `i` when its turn comes. */
  lemma KeptStep(hits: seq<Hit>, count: string -> nat, max: int, i: nat)
    requires i < |hits|
    ensures var costs, t := Costs(hits, count), HitTokens(hits[i], count);
      var fits := i == 0 || Used(costs, max, i) + t <= max;
      && Kept(hits, count, Packed(costs, max, i + 1))
         == Kept(hits, count, Packed(costs, max, i)) + (if fits then [hits[i].(tokens := t)] else [])
      && Used(costs, max, i + 1) == Used(costs, max, i) + (if fits then t else 0)
  {
    hide Sum, Used, Packed;
    UsedStep(Costs(hits, count), max, i + 1);
  }

  // ----- Stopping at what does not fit -----

  /** The first `n` fit, or are the first alone, and the next does not fit beside them. */
  ghost predicate StopsAt(costs: seq<int>, max: int, n: nat) {
    && n <= |costs| && (costs != [] ==> n > 0)
    && (n > 1 ==> Sum(costs[..n]) <= max)
    && (n < |costs| ==> Sum(costs[..n + 1]) > max)
  }

  /** How many results stay: as many as fit one after the other, and at least one. */
  function PrefixKept(costs: seq<int>, max: int): (n: nat)
    ensures StopsAt(costs, max, n)
  {
    PrefixFrom(costs, max, 0)
  }

  function PrefixFrom(costs: seq<int>, max: int, n: nat): (r: nat)
    requires n <= |costs|
    requires n > 1 ==> Sum(costs[..n]) <= max
    ensures n <= r && StopsAt(costs, max, r)
    decreases |costs| - n
  {
    if n == |costs| || (n > 0 && Sum(costs[..n + 1]) > max) then n else PrefixFrom(costs, max, n + 1)
  }

  lemma {:induction false} PrefixSumsGrow(costs: seq<int>, n: nat, m: nat)
    requires n <= m <= |costs| && forall k :: n <= k < m ==> costs[k] >= 0
    ensures Sum(costs[..n]) <= Sum(costs[..m])
  {
    if n < m {
      PrefixSumsGrow(costs, n, m - 1);
      assert costs[..m][..m - 1] == costs[..m - 1];
    }
  }

  /** It is the longest prefix within the budget: no longer one fits. */
  lemma PrefixIsLongest(costs: seq<int>, max: int, m: nat)
    requires PrefixKept(costs, max) < m <= |costs| && forall k :: 0 <= k < |costs| ==> costs[k] >= 0
    ensures Sum(costs[..m]) > max
  {
    PrefixSumsGrow(costs, PrefixKept(costs, max) + 1, m);
  }

  /** A larger budget keeps no less. */
  lemma PrefixGrowsWithBudget(costs: seq<int>, max: int, max': int)
    requires max <= max' && forall k :: 0 <= k < |costs| ==> costs[k] >= 0
    ensures PrefixKept(costs, max) <= PrefixKept(costs, max')
  {
    var n, n' := PrefixKept(costs, max), PrefixKept(costs, max');
    if n' < n { PrefixIsLongest(costs, max', n); }
  }

  /** Whatever stopping keeps, skipping keeps too: the packer takes the whole prefix. */
  lemma PrefixWithinPacked(costs: seq<int>, max: int, i: nat)
    requires i < PrefixKept(costs, max) && forall k :: 0 <= k < |costs| ==> costs[k] >= 0
    ensures i in Packed(costs, max, |costs|)
  {
    hide Packed;
    var n := PrefixKept(costs, max);
    PackedPrefix(costs, max, i + 1);
    KeptStays(costs, max, i, i + 1, |costs|);
  }

  lemma {:induction false} PackedPrefix(costs: seq<int>, max: int, n: nat)
    requires n <= PrefixKept(costs, max) && forall k :: 0 <= k < |costs| ==> costs[k] >= 0
    ensures Used(costs, max, n) == Sum(costs[..n])
    ensures n > 0 ==> n - 1 in Packed(costs, max, n)
  {
    hide Used, Packed, PrefixKept;
    if n == 0 {
      NothingUsed(costs, max);
    } else {
      PackedPrefix(costs, max, n - 1);
      UsedStep(costs, max, n);
      assert costs[..n][..n - 1] == costs[..n - 1];
      PrefixSumsGrow(costs, n, PrefixKept(costs, max));
    }
  }

  const ROW_SCAFFOLD_TOKENS := 8

  /** A search result, as far as its size goes: the runes of its chunk and of its path. */
  datatype SearchResult = SearchResult(text: seq<Rune>, file: seq<Rune>)

  function ResultTokens(r: SearchResult): (n: int)
    ensures n >= ROW_SCAFFOLD_TOKENS
  {
    Tokens.Estimate(r.text) + Tokens.Estimate(r.file) + ROW_SCAFFOLD_TOKENS
  }

  function ResultCosts(results: seq<SearchResult>): (r: seq<int>)
    ensures |r| == |results| && forall i :: 0 <= i < |r| ==> r[i] == ResultTokens(results[i]) >= 8
  {
    seq(|results|, i requires 0 <= i < |results| => ResultTokens(results[i]))
  }

  /** A result costs what its text and its path are estimated at, and eight more. */
  lemma RowCost(r: SearchResult)
    ensures ResultCosts([r]) == [Tokens.Estimate(r.text) + Tokens.Estimate(r.file) + 8]
  {
  }

  /** applyTokenBudget: a budget that is not positive lets everything through, uncounted. */
  method ApplyTokenBudget(results: seq<SearchResult>, maxTokens: int)
    returns (kept: seq<SearchResult>, dropped: nat, approxTotal: int)
    ensures kept <= results && dropped == |results| - |kept|
    ensures maxTokens <= 0 ==> kept == results && approxTotal == 0
    ensures maxTokens > 0 ==>
              && |kept| == PrefixKept(ResultCosts(results), maxTokens)
              && approxTotal == Sum(ResultCosts(kept))
              && (approxTotal > maxTokens ==> |kept| == 1)
  {
    hide ResultTokens, Sum, PrefixFrom, PrefixKept, Tokens.Estimate;
    ghost var costs := ResultCosts(results);
    PrefixStarts(costs, maxTokens);
    if maxTokens <= 0 || |results| == 0 {
      assert costs[..0] == [];
      assert |results| == 0 ==> ResultCosts(results) == [];
      return results, 0, 0;
    }
    var used, n := 0, 0;
    while n < |results|
      invariant 0 <= n <= |results|
      invariant used == Sum(costs[..n]) && (n > 1 ==> used <= maxTokens)
      invariant PrefixFrom(costs, maxTokens, n) == PrefixKept(costs, maxTokens)
    {
      var text := Tokens.ApproxTokens(results[n].text);
      var file := Tokens.ApproxTokens(results[n].file);
      var cost := text + file + ROW_SCAFFOLD_TOKENS;
      CostIs(results[n], text, file);
      PrefixStep(costs, maxTokens, n);
      if n > 0 && used + cost > maxTokens {
        break;
      }
      used := used + cost;
      n := n + 1;
    }
    if n == |results| { PrefixEnds(costs, maxTokens); }
    assert ResultCosts(results[..n]) == costs[..n];
    return results[..n], |results| - n, used;
  }

  lemma PrefixStarts(costs: seq<int>, max: int)
    ensures PrefixFrom(costs, max, 0) == PrefixKept(costs, max) && Sum(costs[..0]) == 0
  {
  }

  lemma PrefixEnds(costs: seq<int>, max: int)
    requires |costs| > 1 ==> Sum(costs[..|costs|]) <= max
    ensures PrefixFrom(costs, max, |costs|) == |costs|
  {
  }

  lemma PrefixStep(costs: seq<int>, max: int, n: nat)
    requires n < |costs| && (n > 1 ==> Sum(costs[..n]) <= max)
    ensures Sum(costs[..n + 1]) == Sum(costs[..n]) + costs[n]
    ensures PrefixFrom(costs, max, n) ==
            if n > 0 && Sum(costs[..n]) + costs[n] > max then n else PrefixFrom(costs, max, n + 1)
  {
    assert costs[..n + 1][..n] == costs[..n];
  }

  lemma CostIs(r: SearchResult, text: int, file: int)
    requires text == Tokens.Estimate(r.text) && file == Tokens.Estimate(r.file)
    ensures ResultTokens(r) == text + file + ROW_SCAFFOLD_TOKENS
  {
  }
}
