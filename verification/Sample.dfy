/** The language-stratified sample of a task list (bench/contextbench/loader.go). */
module Sample {
  import opened StringOrder

  /** A task, as far as sampling looks at it; `rest` is everything else. */
  datatype Task = Task(id: string, language: string, rest: string)

  /** What to count: one particular task, a language's tasks, or all. */
  datatype Query = Exactly(task: Task) | Speaks(language: string) | Any

  predicate Matches(q: Query, t: Task) {
    match q
    case Exactly(x) => t == x
    case Speaks(l) => t.language == l
    case Any => true
  }

  function Count(s: seq<Task>, q: Query): (n: nat)
    ensures n <= |s|
  {
    if s == [] then 0 else Count(s[..|s| - 1], q) + if Matches(q, s[|s| - 1]) then 1 else 0
  }

  lemma {:induction false} CountConcat(a: seq<Task>, b: seq<Task>, q: Query)
    ensures Count(a + b, q) == Count(a, q) + Count(b, q)
  {
    if b == [] {
      assert a + b == a;
    } else {
      CountConcat(a, b[..|b| - 1], q);
      assert (a + b)[..|a + b| - 1] == a + b[..|b| - 1];
    }
  }

  lemma {:induction false} CountAll(s: seq<Task>, q: Query)
    requires forall t :: t in s ==> Matches(q, t)
    ensures Count(s, q) == |s|
  {
    if s != [] { CountAll(s[..|s| - 1], q); }
  }

  lemma CountOne(t: Task, q: Query)
    ensures Count([t], q) == if Matches(q, t) then 1 else 0
  {
    assert [t][..0] == [] && Count([], q) == 0;
  }

  /** The same tasks as often, in any order. */
  ghost predicate SameTasks(a: seq<Task>, b: seq<Task>) {
    |a| == |b| && forall q :: Count(a, q) == Count(b, q)
  }

  // ----- Languages -----

  function OfLanguage(tasks: seq<Task>, l: string): (r: seq<Task>)
    ensures forall t :: t in r <==> t in tasks && t.language == l
  {
    if tasks == [] then []
    else
      assert tasks == tasks[..|tasks| - 1] + [tasks[|tasks| - 1]];
      OfLanguage(tasks[..|tasks| - 1], l) + if tasks[|tasks| - 1].language == l then [tasks[|tasks| - 1]] else []
  }

  predicate HasLanguage(tasks: seq<Task>, l: string) { exists t :: t in tasks && t.language == l }

  /** The languages of the tasks, in order. */
  ghost predicate AreLanguages(langs: seq<string>, tasks: seq<Task>) {
    StrictlySorted(langs) && forall l :: l in langs <==> HasLanguage(tasks, l)
  }

  type Lists = map<string, seq<Task>>

  /** How many of what is still listed match, language by language. */
  function Pool(langs: seq<string>, byLang: Lists, q: Query): nat
    requires forall l :: l in langs ==> l in byLang
  {
    if langs == [] then 0 else Pool(langs[..|langs| - 1], byLang, q) + Count(byLang[langs[|langs| - 1]], q)
  }

  lemma {:induction false} PoolUnchanged(langs: seq<string>, byLang: Lists, byLang': Lists, q: Query)
    requires forall l :: l in langs ==> l in byLang && l in byLang' && Count(byLang[l], q) == Count(byLang'[l], q)
    ensures Pool(langs, byLang, q) == Pool(langs, byLang', q)
  {
    if langs != [] { PoolUnchanged(langs[..|langs| - 1], byLang, byLang', q); }
  }

  lemma {:induction false} PoolUpdate(langs: seq<string>, byLang: Lists, l: string, list: seq<Task>, q: Query)
    requires StrictlySorted(langs) && l in langs && forall x :: x in langs ==> x in byLang
    ensures Pool(langs, byLang[l := list], q) == Pool(langs, byLang, q) - Count(byLang[l], q) + Count(list, q)
  {
    var init, last := langs[..|langs| - 1], langs[|langs| - 1];
    assert langs == init + [last];
    if l == last {
      forall x | x in init ensures x != l {
        LessIrreflexive(l);
      }
      PoolUnchanged(init, byLang, byLang[l := list], q);
    } else {
      assert l in init;
      PoolUpdate(init, byLang, l, list, q);
    }
  }

  // ----- Grouping and shuffling -----

  ghost predicate GroupedBy(byLang: Lists, tasks: seq<Task>) {
    && (forall l :: l in byLang <==> HasLanguage(tasks, l))
    && (forall l :: l in byLang ==> byLang[l] == OfLanguage(tasks, l))
  }

  lemma LanguageOneMore(tasks: seq<Task>, t: Task, l: string)
    ensures HasLanguage(tasks + [t], l) <==> HasLanguage(tasks, l) || l == t.language
    ensures OfLanguage(tasks + [t], l) == OfLanguage(tasks, l) + if l == t.language then [t] else []
    ensures !HasLanguage(tasks, l) ==> OfLanguage(tasks, l) == []
  {
    var all, mine := tasks + [t], OfLanguage(tasks, l);
    assert all[..|tasks|] == tasks;
    assert forall x :: x in all <==> x in tasks || x == t;
    assert mine != [] ==> mine[0] in mine;
  }

  method GroupByLanguage(tasks: seq<Task>) returns (byLang: Lists)
    ensures GroupedBy(byLang, tasks)
  {
    hide OfLanguage, HasLanguage;
    byLang := map[];
    NothingGrouped();
    for i := 0 to |tasks|
      invariant GroupedBy(byLang, tasks[..i])
    {
      var t := tasks[i];
      forall l ensures HasLanguage(tasks[..i + 1], l) <==> HasLanguage(tasks[..i], l) || l == t.language
               ensures OfLanguage(tasks[..i + 1], l) == OfLanguage(tasks[..i], l) + if l == t.language then [t] else []
      {
        assert tasks[..i + 1] == tasks[..i] + [t];
        LanguageOneMore(tasks[..i], t, l);
      }
      LanguageOneMore(tasks[..i], t, t.language);
      byLang := byLang[t.language := (if t.language in byLang then byLang[t.language] else []) + [t]];
    }
    assert tasks[..|tasks|] == tasks;
  }

  lemma NothingGrouped()
    ensures GroupedBy(map[], [])
  {
  }

  method Languages(byLang: Lists) returns (langs: seq<string>)
    ensures StrictlySorted(langs) && forall l :: l in langs <==> l in byLang
  {
    langs := [];
    var todo := byLang.Keys;
    while todo != {}
      invariant todo <= byLang.Keys
      invariant forall l :: l in langs <==> l in byLang && l !in todo
      invariant forall i, j :: 0 <= i < j < |langs| ==> langs[i] != langs[j]
      decreases |todo|
    {
      var l :| l in todo;
      todo := todo - {l};
      langs := langs + [l];
    }
    langs := SortStrings(langs);
  }

  lemma {:induction false} CountUpdate(s: seq<Task>, i: nat, t: Task, q: Query)
    requires i < |s|
    ensures Count(s[i := t], q) == Count(s, q) - Count([s[i]], q) + Count([t], q)
  {
    CountOne(s[i], q);
    CountOne(t, q);
    var n := |s| - 1;
    if i == n {
      assert s[i := t][..n] == s[..n];
    } else {
      CountUpdate(s[..n], i, t, q);
      assert s[i := t][..n] == s[..n][i := t];
    }
  }

  lemma SwapKeepsTasks(s: seq<Task>, i: nat, j: nat)
    requires i < |s| && j < |s|
    ensures SameTasks(s[i := s[j]][j := s[i]], s)
  {
    forall q ensures Count(s[i := s[j]][j := s[i]], q) == Count(s, q) {
      CountUpdate(s, i, s[j], q);
      CountUpdate(s[i := s[j]], j, s[i], q);
    }
  }

  /** rand.Shuffle: each position from the last down is swapped with one drawn at or before it. */
  method Shuffle(s: seq<Task>, draw: nat -> nat) returns (r: seq<Task>)
    ensures SameTasks(r, s)
  {
    hide Count;
    r := s;
    var i := |s| - 1;
    while i > 0
      invariant -1 <= i < |s| && SameTasks(r, s)
    {
      var j := draw(i) % (i + 1);
      SwapKeepsTasks(r, i, j);
      r := r[i := r[j]][j := r[i]];
      i := i - 1;
    }
  }

  // ----- Shares -----

  function Portion(n: nat, k: nat, d: nat): (r: nat)
    requires d > 0
  {
    assert n * k >= 0;
    n * k / d
  }

  /** A language's share of the sample: proportional, rounded down, at least one. */
  function Share(tasks: seq<Task>, l: string, targetN: nat): nat
    requires tasks != []
  {
    var n := |OfLanguage(tasks, l)|;
    var count := Portion(n, targetN, |tasks|);
    if count == 0 then 1 else count
  }

  function Shares(tasks: seq<Task>, langs: seq<string>, targetN: nat): nat
    requires tasks != []
  {
    if langs == [] then 0
    else Shares(tasks, langs[..|langs| - 1], targetN) + Share(tasks, langs[|langs| - 1], targetN)
  }

  lemma ShareFits(tasks: seq<Task>, l: string, targetN: nat)
    requires targetN < |tasks| && HasLanguage(tasks, l)
    ensures Share(tasks, l, targetN) <= |OfLanguage(tasks, l)|
  {
    var n := |OfLanguage(tasks, l)|;
    var t :| t in tasks && t.language == l;
    assert t in OfLanguage(tasks, l);
    QuotientAtMost(n, targetN, |tasks|);
  }

  /** The share is the whole part of the proportional one, and 1 where that is less than 1. */
  lemma ShareIsProportional(tasks: seq<Task>, l: string, targetN: nat)
    requires tasks != []
    ensures var s, n := Share(tasks, l, targetN), Count(tasks, Speaks(l));
      && s >= 1
      && n * targetN < (s + 1) * |tasks|
      && (s * |tasks| <= n * targetN || (s == 1 && n * targetN < |tasks|))
  {
    CountIsLength(tasks, l);
    hide Count, OfLanguage;
    var x, d := |OfLanguage(tasks, l)| * targetN, |tasks|;
    WholePart(x, d);
    assert x / d == 0 ==> 2 * d > x;
  }

  lemma WholePart(x: nat, d: nat)
    requires d > 0
    ensures x / d * d <= x < (x / d + 1) * d
    ensures x / d == 0 ==> x < d
  {
    DivMod(x, d, x / d, x % d);
  }

  lemma DivMod(x: nat, d: nat, q: nat, r: nat)
    requires x == d * q + r && r < d
    ensures q * d <= x < (q + 1) * d
    ensures q == 0 ==> x < d
  {
    assert (q + 1) * d == q * d + d;
  }

  lemma QuotientAtMost(n: nat, k: nat, d: nat)
    requires k < d
    ensures n * k / d <= n
  {
    var q := n * k / d;
    assert q * d <= n * k <= n * d;
    CancelFactor(q, n, d);
  }

  lemma CancelFactor(q: nat, n: nat, d: nat)
    requires d > 0 && q * d <= n * d
    ensures q <= n
  {
    if q > n { ProductGrows(n, q, d); }
  }

  lemma ProductGrows(n: nat, q: nat, d: nat)
    requires n < q && d > 0
    ensures n * d < q * d
  {
    assert q * d - n * d == (q - n) * d;
  }

  // ----- Nothing is lost and nothing is taken twice -----

  /** What is taken and what is still listed make up the tasks; each list holds its own language. */
  ghost predicate Balanced(out: seq<Task>, byLang: Lists, langs: seq<string>, tasks: seq<Task>) {
    && StrictlySorted(langs)
    && (forall l :: l in langs ==> l in byLang && forall t :: t in byLang[l] ==> t.language == l)
    && (forall q :: Count(out, q) + Pool(langs, byLang, q) == Count(tasks, q))
  }

  lemma {:induction false} PoolOfEmpty(langs: seq<string>, byLang: Lists, q: Query)
    requires forall l :: l in langs ==> l in byLang && byLang[l] == []
    ensures Pool(langs, byLang, q) == 0
  {
    if langs != [] { PoolOfEmpty(langs[..|langs| - 1], byLang, q); }
  }

  /** The grouped lists hold every task once. */
  lemma {:induction false} GroupsBalance(tasks: seq<Task>, langs: seq<string>, byLang: Lists, q: Query)
    requires StrictlySorted(langs) && forall t :: t in tasks ==> t.language in langs
    requires forall l :: l in langs ==> l in byLang && byLang[l] == OfLanguage(tasks, l)
    ensures Pool(langs, byLang, q) == Count(tasks, q)
  {
    if tasks == [] {
      PoolOfEmpty(langs, byLang, q);
    } else {
      var init, t := tasks[..|tasks| - 1], tasks[|tasks| - 1];
      assert t in tasks;
      var before: Lists := byLang[t.language := OfLanguage(init, t.language)];
      forall l | l in langs ensures l in before && before[l] == OfLanguage(init, l) {
        assert l != t.language ==> OfLanguage(tasks, l) == OfLanguage(init, l) + [];
      }
      GroupsBalance(init, langs, before, q);
      PoolUpdate(langs, byLang, t.language, OfLanguage(init, t.language), q);
      CountConcat(OfLanguage(init, t.language), [t], q);
      CountOne(t, q);
    }
  }

  /** Taking the first `k` of a list. */
  lemma Take(out: seq<Task>, byLang: Lists, langs: seq<string>, tasks: seq<Task>, l: string, k: nat)
    requires Balanced(out, byLang, langs, tasks) && l in langs && k <= |byLang[l]|
    ensures Balanced(out + byLang[l][..k], byLang[l := byLang[l][k..]], langs, tasks)
  {
    hide Count, Pool, StrictlySorted;
    var list := byLang[l];
    forall q ensures Count(out + list[..k], q) + Pool(langs, byLang[l := list[k..]], q) == Count(tasks, q) {
      CountConcat(out, list[..k], q);
      CountConcat(list[..k], list[k..], q);
      assert list[..k] + list[k..] == list;
      PoolUpdate(langs, byLang, l, list[k..], q);
    }
  }

  lemma Reorder(out: seq<Task>, byLang: Lists, langs: seq<string>, tasks: seq<Task>, l: string, list: seq<Task>)
    requires Balanced(out, byLang, langs, tasks) && l in langs && SameTasks(list, byLang[l])
    ensures Balanced(out, byLang[l := list], langs, tasks)
  {
    hide Pool, StrictlySorted;
    forall q ensures Pool(langs, byLang[l := list], q) == Pool(langs, byLang, q) {
      PoolUpdate(langs, byLang, l, list, q);
    }
    CountAll(byLang[l], Speaks(l));
    AllIfCounted(list, Speaks(l));
  }

  lemma {:induction false} AllIfCounted(s: seq<Task>, q: Query)
    requires Count(s, q) == |s|
    ensures forall t :: t in s ==> Matches(q, t)
  {
    if s != [] {
      AllIfCounted(s[..|s| - 1], q);
      assert s == s[..|s| - 1] + [s[|s| - 1]];
    }
  }

  lemma BalancedLengths(out: seq<Task>, byLang: Lists, langs: seq<string>, tasks: seq<Task>)
    requires Balanced(out, byLang, langs, tasks)
    ensures |out| + Pool(langs, byLang, Any) == |tasks|
  {
    CountAll(out, Any);
    CountAll(tasks, Any);
  }

  // ----- The code -----

  method ShuffleEach(byLang: Lists, langs: seq<string>, draw: (string, nat) -> nat, ghost tasks: seq<Task>)
    returns (byLang': Lists)
    requires Balanced([], byLang, langs, tasks)
    ensures Balanced([], byLang', langs, tasks)
    ensures forall l :: l in langs ==> l in byLang && l in byLang' && |byLang'[l]| == |byLang[l]|
  {
    hide Count, Pool, Balanced;
    KeysOf([], byLang, langs, tasks);
    byLang' := byLang;
    for i := 0 to |langs|
      invariant Balanced([], byLang', langs, tasks)
      invariant forall l :: l in langs ==> l in byLang && l in byLang' && |byLang'[l]| == |byLang[l]|
    {
      var l := langs[i];
      assert l in langs;
      var list := Shuffle(byLang'[l], n => draw(l, n));
      Reorder([], byLang', langs, tasks, l, list);
      byLang' := byLang'[l := list];
    }
  }

  lemma KeysOf(out: seq<Task>, byLang: Lists, langs: seq<string>, tasks: seq<Task>)
    requires Balanced(out, byLang, langs, tasks)
    ensures forall l :: l in langs ==> l in byLang
  {
  }

  /** Every language gets its share, so `out` may overshoot the target. */
  method Allocate(byLang: Lists, langs: seq<string>, tasks: seq<Task>, targetN: nat)
    returns (out: seq<Task>, byLang': Lists)
    requires targetN < |tasks| && AreLanguages(langs, tasks) && Balanced([], byLang, langs, tasks)
    requires forall l :: l in langs ==> l in byLang && |byLang[l]| == |OfLanguage(tasks, l)|
    ensures Balanced(out, byLang', langs, tasks) && |out| == Shares(tasks, langs, targetN)
    ensures Laid(out, langs, tasks, targetN, |langs|)
  {
    hide Count, Pool, Balanced, Share, Shares, OfLanguage, Less, HasLanguage, Allocating, Laid;
    out, byLang' := [], byLang;
    AllocatingNone(byLang, langs, tasks, targetN);
    for i := 0 to |langs|
      invariant Allocating(out, byLang', langs, tasks, targetN, i)
    {
      var l := langs[i];
      assert l in langs;
      AllocatingNext(out, byLang', langs, tasks, targetN, i);
      var list := byLang'[l];
      var count := |list| * targetN / |tasks|;
      if count == 0 && |list| > 0 {
        count := 1;
      }
      if count > |list| {
        count := |list|;
      }
      CountIsShare(tasks, l, targetN, |list|, count);
      AllocateOne(out, byLang', langs, tasks, targetN, i);
      out, byLang' := out + list[..count], byLang'[l := list[count..]];
    }
    AllocatingAll(out, byLang', langs, tasks, targetN);
  }

  /** What the allocation has done with the first `i` languages. */
  ghost predicate Allocating(out: seq<Task>, byLang: Lists, langs: seq<string>, tasks: seq<Task>, targetN: nat, i: nat)
    requires tasks != [] && i <= |langs|
  {
    && Balanced(out, byLang, langs, tasks) && |out| == Shares(tasks, langs[..i], targetN)
    && (forall l :: l in langs ==> l in byLang)
    && (forall j :: i <= j < |langs| ==> |byLang[langs[j]]| == |OfLanguage(tasks, langs[j])|)
    && Laid(out, langs, tasks, targetN, i)
  }

  /** How much of a block of `share` places after `start` others the first `m` places hold. */
  function Overlap(start: nat, share: nat, m: nat): nat {
    if m <= start then 0 else if m - start >= share then share else m - start
  }

  /** Where language `j`'s block begins: after the shares of the languages before it. */
  function BlockStart(tasks: seq<Task>, langs: seq<string>, targetN: nat, j: nat): nat
    requires tasks != [] && j <= |langs|
  {
    Shares(tasks, langs[..j], targetN)
  }

  /** The first `i` languages' shares lie one after the other: what every prefix of `out` holds of each. */
  ghost predicate Laid(out: seq<Task>, langs: seq<string>, tasks: seq<Task>, targetN: nat, i: nat)
    requires tasks != [] && i <= |langs|
  {
    forall m: nat, j: nat :: m <= |out| && j < |langs| ==>
      Count(out[..m], Speaks(langs[j]))
      == if j >= i then 0 else Overlap(BlockStart(tasks, langs, targetN, j), Share(tasks, langs[j], targetN), m)
  }

  lemma {:induction false} CountNone(s: seq<Task>, q: Query)
    requires forall t :: t in s ==> !Matches(q, t)
    ensures Count(s, q) == 0
  {
    if s != [] { CountNone(s[..|s| - 1], q); }
  }

  lemma BlockStartNext(tasks: seq<Task>, langs: seq<string>, targetN: nat, j: nat)
    requires tasks != [] && j < |langs|
    ensures BlockStart(tasks, langs, targetN, j + 1)
         == BlockStart(tasks, langs, targetN, j) + Share(tasks, langs[j], targetN)
  {
    hide Share;
    assert langs[..j + 1][..j] == langs[..j];
  }

  lemma {:induction false} BlocksAscend(tasks: seq<Task>, langs: seq<string>, targetN: nat, j: nat, i: nat)
    requires tasks != [] && j <= i <= |langs|
    ensures BlockStart(tasks, langs, targetN, j) <= BlockStart(tasks, langs, targetN, i)
  {
    hide Share, BlockStart;
    if j < i {
      BlocksAscend(tasks, langs, targetN, j, i - 1);
      BlockStartNext(tasks, langs, targetN, i - 1);
    }
  }

  /** What a prefix that reaches `m` places into a block of language `l` counts of `x`. */
  lemma CountInto(out: seq<Task>, block: seq<Task>, m: nat, l: string, x: string)
    requires |out| < m <= |out| + |block| && forall t :: t in block ==> t.language == l
    ensures Count((out + block)[..m], Speaks(x)) == Count(out, Speaks(x)) + if x == l then m - |out| else 0
  {
    hide Count;
    var part := block[..m - |out|];
    assert (out + block)[..m] == out + part;
    CountConcat(out, part, Speaks(x));
    if x == l { CountAll(part, Speaks(x)); } else { CountNone(part, Speaks(x)); }
  }

  /** Adding the next language's block. */
  lemma LayNext(out: seq<Task>, block: seq<Task>, langs: seq<string>, tasks: seq<Task>, targetN: nat, i: nat)
    requires tasks != [] && i < |langs| && StrictlySorted(langs)
    requires Laid(out, langs, tasks, targetN, i) && |out| == BlockStart(tasks, langs, targetN, i)
    requires |block| == Share(tasks, langs[i], targetN) && forall t :: t in block ==> t.language == langs[i]
    ensures Laid(out + block, langs, tasks, targetN, i + 1)
  {
    hide Count, Share, BlockStart, Less;
    var all := out + block;
    forall m: nat, j: nat | m <= |all| && j < |langs|
      ensures Count(all[..m], Speaks(langs[j]))
              == if j >= i + 1 then 0
                 else Overlap(BlockStart(tasks, langs, targetN, j), Share(tasks, langs[j], targetN), m)
    {
      if m <= |out| {
        assert all[..m] == out[..m];
      } else {
        CountInto(out, block, m, langs[i], langs[j]);
        assert out[..|out|] == out;
        DistinctLanguages(langs, i, j);
        if j < i {
          BlockStartNext(tasks, langs, targetN, j);
          BlocksAscend(tasks, langs, targetN, j + 1, i);
        }
      }
    }
  }

  lemma DistinctLanguages(langs: seq<string>, i: nat, j: nat)
    requires StrictlySorted(langs) && i < |langs| && j < |langs|
    ensures langs[i] == langs[j] <==> i == j
  {
    hide Less;
    LessIrreflexive(langs[i]);
  }

  lemma AllocatingNone(byLang: Lists, langs: seq<string>, tasks: seq<Task>, targetN: nat)
    requires tasks != [] && Balanced([], byLang, langs, tasks)
    requires forall l :: l in langs ==> l in byLang && |byLang[l]| == |OfLanguage(tasks, l)|
    ensures Allocating([], byLang, langs, tasks, targetN, 0)
  {
    hide Pool, Share, OfLanguage;
  }

  lemma AllocatingNext(out: seq<Task>, byLang: Lists, langs: seq<string>, tasks: seq<Task>, targetN: nat, i: nat)
    requires tasks != [] && i < |langs| && Allocating(out, byLang, langs, tasks, targetN, i)
    ensures langs[i] in byLang && |byLang[langs[i]]| == |OfLanguage(tasks, langs[i])|
  {
    hide Count, Pool, Share, OfLanguage, Balanced, Laid;
    assert langs[i] in langs;
  }

  lemma AllocatingAll(out: seq<Task>, byLang: Lists, langs: seq<string>, tasks: seq<Task>, targetN: nat)
    requires tasks != [] && Allocating(out, byLang, langs, tasks, targetN, |langs|)
    ensures Balanced(out, byLang, langs, tasks) && |out| == Shares(tasks, langs, targetN)
    ensures Laid(out, langs, tasks, targetN, |langs|)
  {
    hide Count, Pool, Share, OfLanguage, Balanced, Laid;
    assert langs[..|langs|] == langs;
  }

  lemma AllocateOne(out: seq<Task>, byLang: Lists, langs: seq<string>, tasks: seq<Task>, targetN: nat, i: nat)
    requires tasks != [] && i < |langs| && Allocating(out, byLang, langs, tasks, targetN, i)
    requires langs[i] in byLang && Share(tasks, langs[i], targetN) <= |byLang[langs[i]]|
    ensures var l := langs[i];
      var count, list := Share(tasks, l, targetN), byLang[l];
      Allocating(out + list[..count], byLang[l := list[count..]], langs, tasks, targetN, i + 1)
  {
    hide Count, Pool, Share, OfLanguage, Less, Laid;
    var l := langs[i];
    var count, list := Share(tasks, l, targetN), byLang[l];
    assert l in langs;
    Take(out, byLang, langs, tasks, l, count);
    LayNext(out, list[..count], langs, tasks, targetN, i);
    BlockStartNext(tasks, langs, targetN, i);
    forall j | i < j < |langs| ensures langs[j] != l { DistinctLanguages(langs, i, j); }
  }

  lemma CountIsShare(tasks: seq<Task>, l: string, targetN: nat, n: nat, count: int)
    requires targetN < |tasks| && HasLanguage(tasks, l) && n == |OfLanguage(tasks, l)|
    requires var c := n * targetN / |tasks|;
      var c' := if c == 0 && n > 0 then 1 else c;
      count == if c' > n then n else c'
    ensures count == Share(tasks, l, targetN) && 0 <= count <= n
  {
    ShareFits(tasks, l, targetN);
  }

  /** What is left of the lists, one after the other. */
  function Rest(langs: seq<string>, byLang: Lists): seq<Task>
    requires forall l :: l in langs ==> l in byLang
  {
    if langs == [] then [] else Rest(langs[..|langs| - 1], byLang) + byLang[langs[|langs| - 1]]
  }

  /** At most `n` of them. */
  function UpTo(s: seq<Task>, n: nat): seq<Task> { if n <= |s| then s[..n] else s }

  lemma RestNext(langs: seq<string>, byLang: Lists, i: nat)
    requires (forall l :: l in langs ==> l in byLang) && i < |langs|
    ensures langs[i] in langs
    ensures Rest(langs[..i + 1], byLang) == Rest(langs[..i], byLang) + byLang[langs[i]]
  {
    assert langs[..i + 1][..i] == langs[..i];
  }

  lemma RestAll(langs: seq<string>, byLang: Lists)
    requires forall l :: l in langs ==> l in byLang
    ensures Rest(langs[..|langs|], byLang) == Rest(langs, byLang) && Rest(langs[..0], byLang) == []
  {
    assert langs[..|langs|] == langs;
  }

  /** The list of the language that is being taken from, `k` places on. */
  lemma UpToMore(r: seq<Task>, list: seq<Task>, n: nat, k: nat)
    requires k <= |list| && (k > 0 ==> |r| + k <= n) && (|r| + k < n ==> k == |list|)
    ensures UpTo(r, n) + list[..k] == UpTo(r + list, n)
  {
    if |r| + k < n {
      assert list[..k] == list;
    } else if |r| <= n {
      assert k == n - |r|;
      assert (r + list)[..n] == r + list[..k];
    } else {
      assert (r + list)[..n] == r[..n] && list[..k] == [];
    }
  }

  /** The fill: language by language, one task at a time, until there are enough. */
  method Fill(out: seq<Task>, byLang: Lists, langs: seq<string>, ghost tasks: seq<Task>, targetN: nat)
    returns (out': seq<Task>)
    requires Balanced(out, byLang, langs, tasks) && |out| <= targetN < |tasks|
    ensures forall l :: l in langs ==> l in byLang
    ensures |out'| == targetN && out' == out + UpTo(Rest(langs, byLang), targetN - |out|)
    ensures forall q :: Count(out', q) <= Count(tasks, q)
  {
    hide Count, Pool, Balanced, Rest, UpTo, StrictlySorted;
    KeysOf(out, byLang, langs, tasks);
    RestAll(langs, byLang);
    NothingUpTo(out, targetN - |out|);
    out' := out;
    var byLang' := byLang;
    ghost var n := targetN - |out|;
    for i := 0 to |langs|
      invariant Balanced(out', byLang', langs, tasks) && |out'| <= targetN
      invariant forall l :: l in langs ==> l in byLang'
      invariant forall j :: i <= j < |langs| ==> byLang'[langs[j]] == byLang[langs[j]]
      invariant out' == out + UpTo(Rest(langs[..i], byLang), n)
    {
      var l := langs[i];
      ghost var r, list, k := Rest(langs[..i], byLang), byLang[l], 0;
      UpToLength(r, n);
      while |byLang'[l]| > 0 && |out'| < targetN
        invariant Balanced(out', byLang', langs, tasks) && |out'| <= targetN
        invariant forall l :: l in langs ==> l in byLang'
        invariant k <= |list| && byLang' == byLang'[l := list[k..]]
        invariant forall j :: i < j < |langs| ==> byLang'[langs[j]] == byLang[langs[j]]
        invariant out' == out + (UpTo(r, n) + list[..k]) && (k > 0 ==> |r| + k <= n)
        decreases |byLang'[l]|
      {
        Take(out', byLang', langs, tasks, l, 1);
        OthersApart(out', byLang', langs, tasks, i);
        assert byLang'[l][..1] == [byLang'[l][0]] && list[..k + 1] == list[..k] + [byLang'[l][0]];
        assert list[k..][1..] == list[k + 1..];
        out', byLang' := out' + [byLang'[l][0]], byLang'[l := byLang'[l][1..]];
        k := k + 1;
      }
      UpToMore(r, list, n, k);
      RestNext(langs, byLang, i);
    }
    BalancedLengths(out', byLang', langs, tasks);
    FillsUp(out, byLang, langs, tasks, targetN);
    SubTasks(out', byLang', langs, tasks);
  }

  lemma NothingUpTo(out: seq<Task>, n: nat)
    ensures out + UpTo([], n) == out
  {
  }

  lemma UpToLength(r: seq<Task>, n: nat)
    ensures |UpTo(r, n)| == if n <= |r| then n else |r|
  {
  }

  lemma OthersApart(out: seq<Task>, byLang: Lists, langs: seq<string>, tasks: seq<Task>, i: nat)
    requires Balanced(out, byLang, langs, tasks) && i < |langs|
    ensures forall j :: i < j < |langs| ==> langs[j] != langs[i]
  {
    forall j | i < j < |langs| ensures langs[j] != langs[i] { DistinctLanguages(langs, i, j); }
  }

  lemma {:induction false} RestLength(langs: seq<string>, byLang: Lists)
    requires forall l :: l in langs ==> l in byLang
    ensures |Rest(langs, byLang)| == Pool(langs, byLang, Any)
  {
    if langs != [] {
      RestLength(langs[..|langs| - 1], byLang);
      CountAll(byLang[langs[|langs| - 1]], Any);
    }
  }

  /** What is taken and what is left are all the tasks, more than are wanted. */
  lemma FillsUp(out: seq<Task>, byLang: Lists, langs: seq<string>, tasks: seq<Task>, targetN: nat)
    requires Balanced(out, byLang, langs, tasks) && |out| <= targetN < |tasks|
    ensures forall l :: l in langs ==> l in byLang
    ensures |UpTo(Rest(langs, byLang), targetN - |out|)| == targetN - |out|
  {
    KeysOf(out, byLang, langs, tasks);
    BalancedLengths(out, byLang, langs, tasks);
    RestLength(langs, byLang);
  }

  lemma SubTasks(out: seq<Task>, byLang: Lists, langs: seq<string>, tasks: seq<Task>)
    requires Balanced(out, byLang, langs, tasks)
    ensures forall q :: Count(out, q) <= Count(tasks, q)
  {
    hide Count, Pool;
    KeysOf(out, byLang, langs, tasks);
    forall q ensures Count(out, q) <= Count(tasks, q) {
      assert Pool(langs, byLang, q) >= 0;
    }
  }

  ghost predicate SortedById(s: seq<Task>) {
    forall i, j :: 0 <= i < j < |s| ==> AtMost(s[i].id, s[j].id)
  }

  method SortById(s: seq<Task>) returns (r: seq<Task>)
    ensures SortedById(r) && SameTasks(r, s)
  {
    hide Count, Less;
    r := [];
    for i := 0 to |s|
      invariant SortedById(r) && SameTasks(r, s[..i])
    {
      var t := s[i];
      var p: nat := |r|;
      while p > 0 && Less(t.id, r[p - 1].id)
        invariant p <= |r|
        invariant p < |r| ==> AtMost(t.id, r[p].id)
      {
        p := p - 1;
      }
      if p > 0 { LessTotal(t.id, r[p - 1].id); }
      TaskInserted(r, p, t);
      forall q ensures Count(r[..p] + [t] + r[p..], q) == Count(s[..i + 1], q) {
        assert s[..i + 1] == s[..i] + [t] && r == r[..p] + r[p..];
        CountConcat(s[..i], [t], q);
        CountConcat(r[..p], r[p..], q);
        CountConcat(r[..p], [t], q);
        CountConcat(r[..p] + [t], r[p..], q);
      }
      r := r[..p] + [t] + r[p..];
    }
    assert s[..|s|] == s;
  }

  lemma TaskInserted(r: seq<Task>, p: nat, t: Task)
    requires SortedById(r) && p <= |r|
    requires p > 0 ==> AtMost(r[p - 1].id, t.id)
    requires p < |r| ==> AtMost(t.id, r[p].id)
    ensures SortedById(r[..p] + [t] + r[p..])
  {
    hide AtMost;
    var s := r[..p] + [t] + r[p..];
    forall k | 0 <= k < p ensures AtMost(s[k].id, t.id) {
      if k < p - 1 { AtMostTransitive(r[k].id, r[p - 1].id, t.id); }
    }
    forall k | p <= k < |r| ensures AtMost(t.id, r[k].id) {
      if k > p { AtMostTransitive(t.id, r[p].id, r[k].id); }
    }
    forall i, j | 0 <= i < j < |s| ensures AtMost(s[i].id, s[j].id) {
      if j == p { assert s[j] == t; }
      if i == p { assert s[i] == t && s[j] == r[j - 1]; }
    }
  }

  /** What a language lists beyond its share. */
  function Left(tasks: seq<Task>, l: string, targetN: nat): nat
    requires tasks != []
  {
    var n, share := |OfLanguage(tasks, l)|, Share(tasks, l, targetN);
    if share <= n then n - share else 0
  }

  function Lefts(tasks: seq<Task>, langs: seq<string>, targetN: nat): nat
    requires tasks != []
  {
    if langs == [] then 0
    else Lefts(tasks, langs[..|langs| - 1], targetN) + Left(tasks, langs[|langs| - 1], targetN)
  }

  /**
   How many tasks of language `j` a sample has. If the shares fill it: what the first
   `targetN` places hold of the language's share, the shares laid out in language
   order. Otherwise its share, and of the places left over what falls to it when the
   languages are emptied in order.
   */
  function Takes(tasks: seq<Task>, langs: seq<string>, targetN: nat, j: nat): nat
    requires tasks != [] && j < |langs|
  {
    var share, all := Share(tasks, langs[j], targetN), Shares(tasks, langs, targetN);
    if all >= targetN then Overlap(BlockStart(tasks, langs, targetN, j), share, targetN)
    else share + Overlap(Lefts(tasks, langs[..j], targetN), Left(tasks, langs[j], targetN), targetN - all)
  }

  /**
   What a sample of more tasks than wanted is, for any shuffle: `targetN` of the
   tasks, none more often than it is listed, by instance ID, and as many of each
   language as it takes.
   */
  ghost predicate IsSample(out: seq<Task>, tasks: seq<Task>, targetN: nat)
    requires tasks != []
  {
    && |out| == targetN && SortedById(out)
    && (forall q :: Count(out, q) <= Count(tasks, q))
    && (forall langs, j: nat :: AreLanguages(langs, tasks) && j < |langs| ==>
          TakesItsPlaces(out, tasks, targetN, langs, j))
  }

  ghost predicate TakesItsPlaces(out: seq<Task>, tasks: seq<Task>, targetN: nat, langs: seq<string>, j: nat)
    requires tasks != [] && j < |langs|
  {
    Count(out, Speaks(langs[j])) == Takes(tasks, langs, targetN, j)
  }

  method StratifiedSample(tasks: seq<Task>, targetN: nat, draw: (string, nat) -> nat) returns (out: seq<Task>)
    ensures |tasks| <= targetN ==> out == tasks
    ensures |tasks| > targetN ==> IsSample(out, tasks, targetN)
  {
    hide Count, Pool, Balanced, Share, Shares, OfLanguage, Less, Laid, TakesItsPlaces, AreLanguages, BlockStart,
      Takes, Rest, UpTo, AreLeft;
    if |tasks| <= targetN {
      return tasks;
    }
    var byLang := GroupByLanguage(tasks);
    var langs := Languages(byLang);
    StartsBalanced(tasks, langs, byLang);
    LanguagesFound(tasks, langs, byLang);
    byLang := ShuffleEach(byLang, langs, draw, tasks);
    out, byLang := Allocate(byLang, langs, tasks, targetN);
    ghost var given := out;
    KeysOf(given, byLang, langs, tasks);
    WhatIsLeft(given, byLang, langs, tasks, targetN);
    if |out| < targetN {
      out := Fill(out, byLang, langs, tasks, targetN);
    } else {
      SubTasks(out, byLang, langs, tasks);
      PrefixCounts(out, targetN);
      if |out| > targetN {
        out := out[..targetN];
      }
      assert out == given[..targetN];
    }
    ghost var chosen := out;
    out := SortById(out);
    forall ls, j: nat | AreLanguages(ls, tasks) && j < |ls| ensures TakesItsPlaces(out, tasks, targetN, ls, j) {
      LanguagesUnique(langs, ls, tasks);
      if |given| < targetN {
        FilledTakes(given, byLang, chosen, out, langs, tasks, targetN, j);
      } else {
        CutTakes(given, chosen, out, langs, tasks, targetN, j);
      }
    }
  }

  lemma LanguagesFound(tasks: seq<Task>, langs: seq<string>, byLang: Lists)
    requires StrictlySorted(langs) && (forall l :: l in langs <==> l in byLang) && GroupedBy(byLang, tasks)
    ensures AreLanguages(langs, tasks)
    ensures forall l :: l in langs ==> l in byLang && |byLang[l]| == |OfLanguage(tasks, l)|
  {
    hide OfLanguage, HasLanguage, StrictlySorted;
  }

  lemma CutTakes(given: seq<Task>, chosen: seq<Task>, out: seq<Task>, langs: seq<string>, tasks: seq<Task>,
                 targetN: nat, j: nat)
    requires tasks != [] && j < |langs| && Laid(given, langs, tasks, targetN, |langs|)
    requires |given| == Shares(tasks, langs, targetN) >= targetN && chosen == given[..targetN] && SameTasks(out, chosen)
    ensures TakesItsPlaces(out, tasks, targetN, langs, j)
  {
    hide Count, Share, Shares, BlockStart, Lefts;
  }

  // ----- What is left after the shares -----

  lemma {:induction false} CountIsLength(tasks: seq<Task>, l: string)
    ensures Count(tasks, Speaks(l)) == |OfLanguage(tasks, l)|
  {
    if tasks != [] { CountIsLength(tasks[..|tasks| - 1], l); }
  }

  lemma {:induction false} PoolSpeaks(langs: seq<string>, byLang: Lists, l: string)
    requires StrictlySorted(langs)
    requires forall x :: x in langs ==> x in byLang && forall t :: t in byLang[x] ==> t.language == x
    ensures Pool(langs, byLang, Speaks(l)) == if l in langs then |byLang[l]| else 0
  {
    if langs != [] {
      hide Count;
      var init, last := langs[..|langs| - 1], langs[|langs| - 1];
      assert langs == init + [last];
      PoolSpeaks(init, byLang, l);
      if l == last {
        CountAll(byLang[last], Speaks(l));
        LastNotBefore(langs);
      } else {
        CountNone(byLang[last], Speaks(l));
      }
    }
  }

  lemma LastNotBefore(langs: seq<string>)
    requires StrictlySorted(langs) && langs != []
    ensures langs[|langs| - 1] !in langs[..|langs| - 1]
  {
    hide Less;
    LessIrreflexive(langs[|langs| - 1]);
  }

  /** After the shares each list has what its language lists beyond its share. */
  ghost predicate AreLeft(byLang: Lists, langs: seq<string>, tasks: seq<Task>, targetN: nat)
    requires tasks != []
  {
    forall j :: 0 <= j < |langs| ==>
      && langs[j] in byLang && |byLang[langs[j]]| == Left(tasks, langs[j], targetN)
      && Share(tasks, langs[j], targetN) <= |OfLanguage(tasks, langs[j])|
  }

  lemma WhatIsLeft(given: seq<Task>, byLang: Lists, langs: seq<string>, tasks: seq<Task>, targetN: nat)
    requires tasks != [] && Balanced(given, byLang, langs, tasks)
    requires Laid(given, langs, tasks, targetN, |langs|) && |given| == Shares(tasks, langs, targetN)
    ensures AreLeft(byLang, langs, tasks, targetN)
  {
    hide Count, Pool, Share, Shares, OfLanguage, Laid, BlockStart, StrictlySorted;
    forall j | 0 <= j < |langs|
      ensures langs[j] in byLang && |byLang[langs[j]]| == Left(tasks, langs[j], targetN)
      ensures Share(tasks, langs[j], targetN) <= |OfLanguage(tasks, langs[j])|
    {
      assert langs[j] in langs;
      GivenShare(given, langs, tasks, targetN, j);
      CountIsLength(tasks, langs[j]);
      PoolSpeaks(langs, byLang, langs[j]);
    }
  }

  lemma GivenShare(given: seq<Task>, langs: seq<string>, tasks: seq<Task>, targetN: nat, j: nat)
    requires tasks != [] && j < |langs|
    requires Laid(given, langs, tasks, targetN, |langs|) && |given| == Shares(tasks, langs, targetN)
    ensures Count(given, Speaks(langs[j])) == Share(tasks, langs[j], targetN)
  {
    hide Count, Share, Shares, BlockStart;
    assert given[..|given|] == given;
    BlockStartNext(tasks, langs, targetN, j);
    BlocksAscend(tasks, langs, targetN, j + 1, |langs|);
    SharesAreLastStart(tasks, langs, targetN);
  }

  lemma {:induction false} RestStarts(langs: seq<string>, byLang: Lists, tasks: seq<Task>, targetN: nat, j: nat)
    requires tasks != [] && AreLeft(byLang, langs, tasks, targetN) && j <= |langs|
    ensures forall l :: l in langs[..j] ==> l in byLang
    ensures |Rest(langs[..j], byLang)| == Lefts(tasks, langs[..j], targetN)
  {
    hide Left;
    if j > 0 {
      RestStarts(langs, byLang, tasks, targetN, j - 1);
      assert langs[..j][..j - 1] == langs[..j - 1];
    }
  }

  /** What the first `m` of the rest hold of a language. */
  lemma {:induction false} RestCounts(langs: seq<string>, byLang: Lists, j: nat, m: nat)
    requires StrictlySorted(langs) && j < |langs|
    requires forall x :: x in langs ==> x in byLang && forall t :: t in byLang[x] ==> t.language == x
    ensures Count(UpTo(Rest(langs, byLang), m), Speaks(langs[j]))
         == Overlap(|Rest(langs[..j], byLang)|, |byLang[langs[j]]|, m)
  {
    hide Count, Rest, StrictlySorted;
    var n := |langs| - 1;
    var init, last := langs[..n], langs[n];
    var before, block := Rest(init, byLang), byLang[last];
    assert init[..j] == langs[..j];
    assert StrictlySorted(init) by { PrefixSorted(langs, n); }
    RestNext(langs, byLang, n);
    assert langs[..n + 1] == langs;
    if m <= |before| {
      assert UpTo(before + block, m) == UpTo(before, m);
      if j < n { RestCounts(init, byLang, j, m); } else { NotBefore(langs, byLang, m); }
    } else {
      var reach := if m <= |before + block| then m else |before + block|;
      if |block| > 0 { CountInto(before, block, reach, last, langs[j]); }
      assert |block| == 0 ==> before + block == before;
      assert UpTo(before + block, m) == (before + block)[..reach];
      assert UpTo(before, m) == before;
      DistinctLanguages(langs, n, j);
      if j < n { RestCounts(init, byLang, j, m); } else { NotBefore(langs, byLang, m); }
    }
  }

  lemma PrefixSorted(langs: seq<string>, n: nat)
    requires StrictlySorted(langs) && n <= |langs|
    ensures StrictlySorted(langs[..n])
  {
    hide Less;
  }

  lemma {:induction false} SpeakEarlier(langs: seq<string>, byLang: Lists)
    requires forall x :: x in langs ==> x in byLang && forall t :: t in byLang[x] ==> t.language == x
    ensures forall t :: t in Rest(langs, byLang) ==> t.language in langs
  {
    if langs != [] {
      assert langs == langs[..|langs| - 1] + [langs[|langs| - 1]];
      SpeakEarlier(langs[..|langs| - 1], byLang);
    }
  }

  /** None of the last language comes before its own list. */
  lemma NotBefore(langs: seq<string>, byLang: Lists, m: nat)
    requires StrictlySorted(langs) && langs != []
    requires forall x :: x in langs ==> x in byLang && forall t :: t in byLang[x] ==> t.language == x
    ensures var n := |langs| - 1;
      (forall x :: x in langs[..n] ==> x in byLang)
      && Count(UpTo(Rest(langs[..n], byLang), m), Speaks(langs[n])) == 0
  {
    hide Count, Rest;
    var n := |langs| - 1;
    LastNotBefore(langs);
    SpeakEarlier(langs[..n], byLang);
    CountNone(UpTo(Rest(langs[..n], byLang), m), Speaks(langs[n]));
  }

  lemma FilledTakes(given: seq<Task>, byLang: Lists, chosen: seq<Task>, out: seq<Task>, langs: seq<string>,
                    tasks: seq<Task>, targetN: nat, j: nat)
    requires tasks != [] && j < |langs| && Balanced(given, byLang, langs, tasks)
    requires Laid(given, langs, tasks, targetN, |langs|) && |given| == Shares(tasks, langs, targetN) < targetN
    requires AreLeft(byLang, langs, tasks, targetN) && forall l :: l in langs ==> l in byLang
    requires chosen == given + UpTo(Rest(langs, byLang), targetN - |given|) && SameTasks(out, chosen)
    ensures TakesItsPlaces(out, tasks, targetN, langs, j)
  {
    hide Count, Pool, Share, Shares, OfLanguage, Laid, BlockStart, StrictlySorted, Rest, UpTo, Lefts;
    var n := targetN - |given|;
    GivenShare(given, langs, tasks, targetN, j);
    CountConcat(given, UpTo(Rest(langs, byLang), n), Speaks(langs[j]));
    RestCounts(langs, byLang, j, n);
    RestStarts(langs, byLang, tasks, targetN, j);
  }

  lemma SharesAreLastStart(tasks: seq<Task>, langs: seq<string>, targetN: nat)
    requires tasks != []
    ensures BlockStart(tasks, langs, targetN, |langs|) == Shares(tasks, langs, targetN)
  {
    assert langs[..|langs|] == langs;
  }

  /** There is one list of the languages in order. */
  lemma {:induction false} LanguagesUnique(a: seq<string>, b: seq<string>, tasks: seq<Task>)
    requires AreLanguages(a, tasks) && AreLanguages(b, tasks)
    ensures a == b
  {
    SortedUnique(a, b);
  }

  lemma PrefixCounts(s: seq<Task>, n: nat)
    requires n <= |s|
    ensures forall q :: Count(s[..n], q) <= Count(s, q)
  {
    forall q ensures Count(s[..n], q) <= Count(s, q) {
      assert s == s[..n] + s[n..];
      CountConcat(s[..n], s[n..], q);
    }
  }

  lemma StartsBalanced(tasks: seq<Task>, langs: seq<string>, byLang: Lists)
    requires StrictlySorted(langs) && (forall l :: l in langs <==> l in byLang)
    requires GroupedBy(byLang, tasks)
    ensures Balanced([], byLang, langs, tasks)
  {
    hide Pool, StrictlySorted;
    forall t | t in tasks ensures t.language in langs { assert HasLanguage(tasks, t.language); }
    forall q ensures Count([], q) + Pool(langs, byLang, q) == Count(tasks, q) {
      GroupsBalance(tasks, langs, byLang, q);
    }
  }
}
