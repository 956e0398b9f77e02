/**
 NDCG at a cutoff (bench/ndcg/ndcg.go). The discount is any positive, non-increasing
 weight of the 0-based rank; the source's is one over log2(rank + 2).
 */
module Ndcg {
  import opened Collections

  type Doc = string
  type Rels = map<Doc, real>
  type Weight = nat -> real

  ghost predicate Discount(w: Weight) {
    && (forall i :: w(i) > 0.0)
    && (forall i, j :: i <= j ==> w(j) <= w(i))
  }

  predicate Positive(rels: Rels, d: Doc) { d in rels && rels[d] > 0.0 }

  /** Unjudged documents and non-positive judgements are worth nothing. */
  function Rel(rels: Rels, d: Doc): (r: real)
    ensures r >= 0.0 && (r > 0.0 <==> Positive(rels, d))
  {
    if Positive(rels, d) then rels[d] else 0.0
  }

  /** What rank `i` contributes: a document's first occurrence only, and nothing past the end. */
  function Gain(ranked: seq<Doc>, rels: Rels, i: nat): (r: real)
    ensures r >= 0.0
  {
    if i < |ranked| && ranked[i] !in ranked[..i] then Rel(rels, ranked[i]) else 0.0
  }

  /** Discounted gain of the first `n` ranks. */
  function Dcg(ranked: seq<Doc>, rels: Rels, w: Weight, n: nat): real {
    if n == 0 then 0.0 else Dcg(ranked, rels, w, n - 1) + Gain(ranked, rels, n - 1) * w(n - 1)
  }

  /** Undiscounted gain of the first `n` ranks. */
  function Cumulated(ranked: seq<Doc>, rels: Rels, n: nat): real {
    if n == 0 then 0.0 else Cumulated(ranked, rels, n - 1) + Gain(ranked, rels, n - 1)
  }

  ghost predicate Descending(ds: seq<Doc>, rels: Rels) {
    forall i, j :: 0 <= i < j < |ds| ==> Rel(rels, ds[i]) >= Rel(rels, ds[j])
  }

  /** The relevant documents, each once, the most relevant first. */
  ghost predicate IsIdeal(best: seq<Doc>, rels: Rels) {
    && NoRepeats(best)
    && (forall d :: d in best <==> Positive(rels, d))
    && Descending(best, rels)
  }

  // ----- No ranking gathers more, up to any rank, than an ideal one -----

  /** First occurrences of relevant documents among the first `n` ranks. */
  function Found(ranked: seq<Doc>, rels: Rels, n: nat): seq<Doc> {
    if n == 0 then []
    else if n <= |ranked| && ranked[n - 1] !in ranked[..n - 1] && Positive(rels, ranked[n - 1]) then
      Found(ranked, rels, n - 1) + [ranked[n - 1]]
    else Found(ranked, rels, n - 1)
  }

  lemma {:induction false} FoundHolds(ranked: seq<Doc>, rels: Rels, n: nat)
    ensures |Found(ranked, rels, n)| <= n && NoRepeats(Found(ranked, rels, n))
    ensures forall d :: d in Found(ranked, rels, n) ==>
              Positive(rels, d) && d in ranked[..if n < |ranked| then n else |ranked|]
  {
    if n > 0 {
      FoundHolds(ranked, rels, n - 1);
      if n <= |ranked| { assert ranked[..n] == ranked[..n - 1] + [ranked[n - 1]]; }
    }
  }

  function RelSum(ds: seq<Doc>, rels: Rels): real {
    if ds == [] then 0.0 else RelSum(ds[..|ds| - 1], rels) + Rel(rels, ds[|ds| - 1])
  }

  /** Rank `n - 1` adds its document's gain to what has been found, or gains nothing. */
  lemma FoundStep(ranked: seq<Doc>, rels: Rels, n: nat)
    requires n > 0
    ensures var before, gain := Found(ranked, rels, n - 1), Gain(ranked, rels, n - 1);
      || (Found(ranked, rels, n) == before && gain == 0.0)
      || (n <= |ranked| && Found(ranked, rels, n) == before + [ranked[n - 1]] && gain == Rel(rels, ranked[n - 1]))
  {
    hide NoRepeats;
  }

  lemma {:induction false} CumulatedIsFound(ranked: seq<Doc>, rels: Rels, n: nat)
    ensures Cumulated(ranked, rels, n) == RelSum(Found(ranked, rels, n), rels)
  {
    hide Found, RelSum, Gain, Rel, Positive;
    if n == 0 {
      NothingFound(ranked, rels);
    } else {
      CumulatedIsFound(ranked, rels, n - 1);
      FoundStep(ranked, rels, n);
      if n <= |ranked| { RelSumOneMore(Found(ranked, rels, n - 1), rels, ranked[n - 1]); }
    }
  }

  lemma NothingFound(ranked: seq<Doc>, rels: Rels)
    ensures RelSum(Found(ranked, rels, 0), rels) == 0.0
  {
  }

  lemma RelSumOneMore(ds: seq<Doc>, rels: Rels, d: Doc)
    ensures RelSum(ds + [d], rels) == RelSum(ds, rels) + Rel(rels, d)
  {
    assert (ds + [d])[..|ds|] == ds;
  }

  lemma {:induction false} RemoveFromSum(ds: seq<Doc>, rels: Rels, p: nat)
    requires p < |ds|
    ensures RelSum(ds, rels) == RelSum(ds[..p] + ds[p + 1..], rels) + Rel(rels, ds[p])
  {
    hide RelSum;
    var init, last := ds[..|ds| - 1], ds[|ds| - 1];
    RelSumOneMore(init, rels, last);
    assert ds == init + [last];
    if p == |ds| - 1 {
      assert ds[..p] + ds[p + 1..] == init;
    } else {
      RemoveFromSum(init, rels, p);
      RelSumOneMore(init[..p] + init[p + 1..], rels, last);
      assert ds[..p] + ds[p + 1..] == init[..p] + init[p + 1..] + [last];
    }
  }

  lemma {:induction false} DistinctCount(ds: seq<Doc>)
    requires NoRepeats(ds)
    ensures |set d | d in ds| == |ds|
  {
    if ds != [] {
      var init := ds[..|ds| - 1];
      DistinctCount(init);
      assert (set d | d in ds) == (set d | d in init) + {ds[|ds| - 1]};
    }
  }

  lemma AtMostAsMany(some: seq<Doc>, all: seq<Doc>)
    requires NoRepeats(some) && NoRepeats(all) && forall d :: d in some ==> d in all
    ensures |some| <= |all|
  {
    DistinctCount(some);
    DistinctCount(all);
    SubsetCount(set d | d in some, set d | d in all);
  }

  /** More distinct documents than `few` holds: one of them is not in it. */
  lemma SomeOutside(many: seq<Doc>, few: seq<Doc>) returns (p: nat)
    requires NoRepeats(many) && NoRepeats(few) && |many| > |few|
    ensures p < |many| && many[p] !in few
  {
    if forall d :: d in many ==> d in few {
      AtMostAsMany(many, few);
    }
    var d :| d in many && d !in few;
    p :| 0 <= p < |many| && many[p] == d;
  }

  lemma PastPrefix(ds: seq<Doc>, n: nat, d: Doc) returns (q: nat)
    requires n <= |ds| && d in ds && d !in ds[..n]
    ensures n <= q < |ds| && ds[q] == d
  {
    assert ds == ds[..n] + ds[n..];
    var i :| 0 <= i < |ds[n..]| && ds[n..][i] == d;
    q := n + i;
  }

  lemma SubsetCount(s: set<Doc>, t: set<Doc>)
    requires s <= t
    ensures |s| <= |t|
  {
    assert t == s + (t - s);
  }

  /** One of `n` relevant documents is worth no more than the `n`-th best. */
  lemma SomeNoBetter(ds: seq<Doc>, best: seq<Doc>, rels: Rels, n: nat) returns (p: nat)
    requires IsIdeal(best, rels) && NoRepeats(ds) && |ds| == n <= |best| && n > 0
    requires forall d :: d in ds ==> Positive(rels, d)
    ensures p < |ds| && Rel(rels, ds[p]) <= Rel(rels, best[n - 1])
  {
    p := SomeOutside(ds, best[..n - 1]);
    assert ds[p] in ds;
    var q := PastPrefix(best, n - 1, ds[p]);
  }

  lemma WithoutOne(ds: seq<Doc>, p: nat)
    requires p < |ds| && NoRepeats(ds)
    ensures var rest := ds[..p] + ds[p + 1..]; NoRepeats(rest) && forall d :: d in rest ==> d in ds
  {
    assert ds == ds[..p] + [ds[p]] + ds[p + 1..];
  }

  /** Any `n` relevant documents are worth at most the first `n` of an ideal ranking. */
  lemma {:induction false} TopIsBest(ds: seq<Doc>, best: seq<Doc>, rels: Rels, n: nat)
    requires IsIdeal(best, rels) && NoRepeats(ds) && |ds| <= n <= |best|
    requires forall d :: d in ds ==> Positive(rels, d)
    ensures RelSum(ds, rels) <= RelSum(best[..n], rels)
  {
    hide IsIdeal, NoRepeats, Positive;
    if n > 0 {
      assert best[..n][..n - 1] == best[..n - 1];
      if |ds| < n {
        TopIsBest(ds, best, rels, n - 1);
      } else {
        var p := SomeNoBetter(ds, best, rels, n);
        RemoveFromSum(ds, rels, p);
        WithoutOne(ds, p);
        TopIsBest(ds[..p] + ds[p + 1..], best, rels, n - 1);
      }
    }
  }

  lemma IdealGains(best: seq<Doc>, rels: Rels, i: nat)
    requires IsIdeal(best, rels) && i < |best|
    ensures Gain(best, rels, i) > 0.0
  {
    hide Descending;
    assert best[i] in best && best[i] !in best[..i];
  }

  lemma {:induction false} FoundInIdeal(best: seq<Doc>, rels: Rels, n: nat)
    requires IsIdeal(best, rels)
    ensures Found(best, rels, n) == best[..if n < |best| then n else |best|]
  {
    if n > 0 {
      hide IsIdeal, Found, Gain, Rel, Positive, NoRepeats;
      FoundInIdeal(best, rels, n - 1);
      FoundStep(best, rels, n);
      if n <= |best| {
        IdealGains(best, rels, n - 1);
        assert best[..n] == best[..n - 1] + [best[n - 1]];
      }
    }
  }

  lemma IdealGathersMost(ranked: seq<Doc>, best: seq<Doc>, rels: Rels, n: nat)
    requires IsIdeal(best, rels)
    ensures Cumulated(ranked, rels, n) <= Cumulated(best, rels, n)
  {
    hide Found, RelSum;
    CumulatedIsFound(ranked, rels, n);
    CumulatedIsFound(best, rels, n);
    FoundInIdeal(best, rels, n);
    var ds := Found(ranked, rels, n);
    FoundHolds(ranked, rels, n);
    AtMostAsMany(ds, best);
    TopIsBest(ds, best, rels, if n < |best| then n else |best|);
  }

  // ----- More up to every rank means more after discounting -----

  lemma AbelStep(w0: real, w1: real, d: real, s: real, g: real, g': real)
    requires 0.0 < w1 <= w0 && d >= 0.0 && s >= w0 * d && d + g' - g >= 0.0
    ensures s + g' * w1 - g * w1 >= w1 * (d + g' - g) >= 0.0
  {
    assert w0 * d >= w1 * d;
    assert w1 * (d + g' - g) == w1 * d + g' * w1 - g * w1;
  }

  /** How much more `r'` gathers than `r` in the first `n` ranks, before and after discounting. */
  function Lead(r: seq<Doc>, r': seq<Doc>, rels: Rels, n: nat): real {
    Cumulated(r', rels, n) - Cumulated(r, rels, n)
  }

  function DcgLead(r: seq<Doc>, r': seq<Doc>, rels: Rels, w: Weight, n: nat): real {
    Dcg(r', rels, w, n) - Dcg(r, rels, w, n)
  }

  lemma {:induction false} LeadKeeps(r: seq<Doc>, r': seq<Doc>, rels: Rels, w: Weight, n: nat)
    requires Discount(w) && n > 0
    requires forall m: nat :: m <= n ==> Lead(r, r', rels, m) >= 0.0
    ensures DcgLead(r, r', rels, w, n) >= w(n - 1) * Lead(r, r', rels, n) >= 0.0
  {
    hide Gain, Lead, DcgLead;
    var d, s, w0 := 0.0, 0.0, w(0);
    if n > 1 {
      LeadKeeps(r, r', rels, w, n - 1);
      d, s, w0 := Lead(r, r', rels, n - 1), DcgLead(r, r', rels, w, n - 1), w(n - 2);
    }
    var g, g' := Gain(r, rels, n - 1), Gain(r', rels, n - 1);
    LeadStep(r, r', rels, w, n);
    AbelStep(w0, w(n - 1), d, s, g, g');
  }

  lemma LeadStep(r: seq<Doc>, r': seq<Doc>, rels: Rels, w: Weight, n: nat)
    requires n > 0
    ensures Lead(r, r', rels, n)
         == (if n == 1 then 0.0 else Lead(r, r', rels, n - 1)) + Gain(r', rels, n - 1) - Gain(r, rels, n - 1)
    ensures DcgLead(r, r', rels, w, n) == (if n == 1 then 0.0 else DcgLead(r, r', rels, w, n - 1))
                                          + Gain(r', rels, n - 1) * w(n - 1) - Gain(r, rels, n - 1) * w(n - 1)
  {
    hide Gain;
    assert Lead(r, r', rels, 0) == 0.0 && DcgLead(r, r', rels, w, 0) == 0.0;
  }

  lemma GatheringMoreIsBetter(r: seq<Doc>, r': seq<Doc>, rels: Rels, w: Weight, n: nat)
    requires Discount(w)
    requires forall m: nat :: m <= n ==> Cumulated(r, rels, m) <= Cumulated(r', rels, m)
    ensures Dcg(r, rels, w, n) <= Dcg(r', rels, w, n)
  {
    if n > 0 { LeadKeeps(r, r', rels, w, n); }
  }

  // ----- The score -----

  lemma PlaceNoRepeats(ds: seq<Doc>, d: Doc, p: nat)
    requires NoRepeats(ds) && d !in ds && p <= |ds|
    ensures NoRepeats(ds[..p] + [d] + ds[p..])
  {
    var r := ds[..p] + [d] + ds[p..];
    forall i, j | 0 <= i < j < |r| ensures r[i] != r[j] {
      assert i != p ==> r[i] == ds[if i < p then i else i - 1];
      assert j != p ==> r[j] == ds[if j < p then j else j - 1];
    }
  }

  lemma PlaceDescends(ds: seq<Doc>, rels: Rels, d: Doc, p: nat)
    requires Descending(ds, rels) && p <= |ds|
    requires forall i :: 0 <= i < p ==> Rel(rels, ds[i]) >= Rel(rels, d)
    requires p < |ds| ==> Rel(rels, ds[p]) <= Rel(rels, d)
    ensures Descending(ds[..p] + [d] + ds[p..], rels)
  {
    hide Rel;
    var r := ds[..p] + [d] + ds[p..];
    forall i, j | 0 <= i < j < |r| ensures Rel(rels, r[i]) >= Rel(rels, r[j]) {
      var i', j' := if i < p then i else i - 1, if j < p then j else j - 1;
      if i == p {
        assert r[i] == d && r[j] == ds[j'];
        assert j' > p ==> Rel(rels, ds[p]) >= Rel(rels, ds[j']);
      } else if j == p {
        assert r[i] == ds[i'] && r[j] == d;
      } else {
        assert r[i] == ds[i'] && r[j] == ds[j'];
      }
    }
  }

  lemma PlaceKeeps(ds: seq<Doc>, rels: Rels, d: Doc, p: nat)
    requires NoRepeats(ds) && Descending(ds, rels) && d !in ds && p <= |ds|
    requires forall i :: 0 <= i < p ==> Rel(rels, ds[i]) >= Rel(rels, d)
    requires p < |ds| ==> Rel(rels, ds[p]) <= Rel(rels, d)
    ensures var r := ds[..p] + [d] + ds[p..];
      NoRepeats(r) && Descending(r, rels) && forall x :: x in r <==> x in ds || x == d
  {
    hide NoRepeats, Descending, Rel;
    InsertHolds(ds, p, d);
    PlaceNoRepeats(ds, d, p);
    PlaceDescends(ds, rels, d, p);
  }

  /** Descending order of any list of relevant documents, as the insertion of one after another. */
  function Ordered(ds: seq<Doc>, rels: Rels): (r: seq<Doc>)
    requires NoRepeats(ds)
    ensures NoRepeats(r) && Descending(r, rels) && forall d :: d in r <==> d in ds
  {
    if ds == [] then []
    else
      var init, d := Ordered(ds[..|ds| - 1], rels), ds[|ds| - 1];
      var p := Place(init, rels, d);
      PlaceKeeps(init, rels, d, p);
      assert forall x :: x in ds <==> x in ds[..|ds| - 1] || x == d by { assert ds == ds[..|ds| - 1] + [d]; }
      init[..p] + [d] + init[p..]
  }

  function Place(ds: seq<Doc>, rels: Rels, d: Doc): (p: nat)
    requires Descending(ds, rels)
    ensures p <= |ds|
    ensures forall i :: 0 <= i < p ==> Rel(rels, ds[i]) >= Rel(rels, d)
    ensures p < |ds| ==> Rel(rels, ds[p]) <= Rel(rels, d)
  {
    if ds == [] || Rel(rels, ds[|ds| - 1]) >= Rel(rels, d) then |ds| else Place(ds[..|ds| - 1], rels, d)
  }

  lemma {:induction false} Listing(s: set<Doc>) returns (ds: seq<Doc>)
    ensures NoRepeats(ds) && forall d :: d in ds <==> d in s
  {
    if s == {} {
      ds := [];
    } else {
      var d :| d in s;
      var rest := Listing(s - {d});
      ds := rest + [d];
    }
  }

  lemma IdealExists(rels: Rels)
    ensures exists best :: IsIdeal(best, rels)
  {
    var ds := Listing(set d | d in rels && rels[d] > 0.0);
    assert IsIdeal(Ordered(ds, rels), rels);
  }

  lemma IdealsAgree(best: seq<Doc>, best': seq<Doc>, rels: Rels, w: Weight, n: nat)
    requires IsIdeal(best, rels) && IsIdeal(best', rels) && Discount(w)
    ensures Dcg(best, rels, w, n) == Dcg(best', rels, w, n)
  {
    forall m: nat | m <= n ensures Cumulated(best, rels, m) == Cumulated(best', rels, m) {
      IdealGathersMost(best, best', rels, m);
      IdealGathersMost(best', best, rels, m);
    }
    GatheringMoreIsBetter(best, best', rels, w, n);
    GatheringMoreIsBetter(best', best, rels, w, n);
  }

  ghost function IdealDcg(rels: Rels, w: Weight, k: nat): real {
    IdealExists(rels);
    var best :| IsIdeal(best, rels);
    Dcg(best, rels, w, k)
  }

  /** The score, read off the definition: the ideal may be any one of the ideal rankings. */
  ghost function Score(ranked: seq<Doc>, rels: Rels, w: Weight, k: nat): real {
    if IdealDcg(rels, w, k) == 0.0 then 0.0 else Dcg(ranked, rels, w, k) / IdealDcg(rels, w, k)
  }

  lemma IdealDcgIs(best: seq<Doc>, rels: Rels, w: Weight, k: nat)
    requires IsIdeal(best, rels) && Discount(w)
    ensures IdealDcg(rels, w, k) == Dcg(best, rels, w, k)
  {
    IdealExists(rels);
    var b :| IsIdeal(b, rels) && IdealDcg(rels, w, k) == Dcg(b, rels, w, k);
    IdealsAgree(b, best, rels, w, k);
  }

  lemma {:induction false} DcgNotNegative(ranked: seq<Doc>, rels: Rels, w: Weight, n: nat)
    requires Discount(w)
    ensures Dcg(ranked, rels, w, n) >= 0.0
    ensures n > 0 && Gain(ranked, rels, 0) > 0.0 ==> Dcg(ranked, rels, w, n) > 0.0
  {
    if n > 0 {
      DcgNotNegative(ranked, rels, w, n - 1);
      assert Gain(ranked, rels, n - 1) * w(n - 1) >= 0.0;
      if n == 1 && Gain(ranked, rels, 0) > 0.0 {
        assert Gain(ranked, rels, 0) * w(0) > 0.0;
      }
    }
  }

  /** No ranking, with or without duplicates, discounts to more than an ideal one. */
  lemma IdealIsBest(ranked: seq<Doc>, rels: Rels, w: Weight, k: nat)
    requires Discount(w)
    ensures 0.0 <= Dcg(ranked, rels, w, k) <= IdealDcg(rels, w, k)
  {
    IdealExists(rels);
    var best :| IsIdeal(best, rels) && IdealDcg(rels, w, k) == Dcg(best, rels, w, k);
    forall m: nat | m <= k ensures Cumulated(ranked, rels, m) <= Cumulated(best, rels, m) {
      IdealGathersMost(ranked, best, rels, m);
    }
    GatheringMoreIsBetter(ranked, best, rels, w, k);
    DcgNotNegative(ranked, rels, w, k);
  }

  lemma ScoreInUnitInterval(ranked: seq<Doc>, rels: Rels, w: Weight, k: nat)
    requires Discount(w)
    ensures 0.0 <= Score(ranked, rels, w, k) <= 1.0
  {
    hide Dcg, IdealDcg;
    IdealIsBest(ranked, rels, w, k);
    var d, i := Dcg(ranked, rels, w, k), IdealDcg(rels, w, k);
    if i != 0.0 { QuotientBounds(d, i); }
  }

  lemma QuotientBounds(d: real, i: real)
    requires 0.0 <= d <= i && i > 0.0
    ensures 0.0 <= d / i <= 1.0
  {
    var q := d / i;
    assert q * i == d;
    assert q < 0.0 ==> q * i < 0.0;
    assert q > 1.0 ==> (q - 1.0) * i > 0.0;
  }

  lemma {:induction false} TailDoesNotCount(best: seq<Doc>, rest: seq<Doc>, rels: Rels, w: Weight, n: nat)
    requires IsIdeal(best, rels)
    ensures Dcg(best + rest, rels, w, n) == Dcg(best, rels, w, n)
  {
    hide Gain, IsIdeal;
    if n > 0 {
      TailDoesNotCount(best, rest, rels, w, n - 1);
      TailGainsNothing(best, rest, rels, n - 1);
    }
  }

  lemma TailGainsNothing(best: seq<Doc>, rest: seq<Doc>, rels: Rels, i: nat)
    requires IsIdeal(best, rels)
    ensures Gain(best + rest, rels, i) == Gain(best, rels, i)
  {
    hide Descending, NoRepeats;
    var r := best + rest;
    if i < |best| {
      assert r[..i] == best[..i];
    } else if i < |r| && Positive(rels, r[i]) {
      assert r[i] in best;
      var q :| 0 <= q < |best| && best[q] == r[i];
      assert r[..i][q] == r[i];
    }
  }

  /** An ideal ranking scores exactly 1, whatever is ranked after it, as soon as one document is relevant. */
  lemma IdealScoresOne(best: seq<Doc>, rest: seq<Doc>, rels: Rels, w: Weight, k: nat)
    requires IsIdeal(best, rels) && Discount(w) && k > 0 && exists d :: Positive(rels, d)
    ensures Score(best + rest, rels, w, k) == 1.0
  {
    hide Dcg, IdealDcg;
    TailDoesNotCount(best, rest, rels, w, k);
    IdealDcgIs(best, rels, w, k);
    var d :| Positive(rels, d);
    assert d in best && best[0] in best && best[0] !in best[..0];
    assert Gain(best, rels, 0) > 0.0;
    DcgNotNegative(best, rels, w, k);
    DivideSelf(Dcg(best, rels, w, k));
  }

  lemma DivideSelf(d: real)
    requires d > 0.0
    ensures d / d == 1.0
  {
  }

  /** When no document is relevant every ranking scores 0. */
  lemma NothingRelevantScoresZero(ranked: seq<Doc>, rels: Rels, w: Weight, k: nat)
    requires Discount(w) && !exists d :: Positive(rels, d)
    ensures Score(ranked, rels, w, k) == 0.0
  {
    hide Dcg, IdealDcg;
    IdealDcgIs([], rels, w, k);
    EmptyDcg([], rels, w, k);
  }

  lemma {:induction false} EmptyDcg(best: seq<Doc>, rels: Rels, w: Weight, n: nat)
    requires best == []
    ensures Dcg(best, rels, w, n) == 0.0
  {
    if n > 0 { EmptyDcg(best, rels, w, n - 1); }
  }

  function Swapped(r: seq<Doc>, i: nat): (r': seq<Doc>)
    requires i + 1 < |r|
  {
    r[i := r[i + 1]][i + 1 := r[i]]
  }

  lemma {:induction false} SwapGathers(r: seq<Doc>, rels: Rels, i: nat, n: nat)
    requires NoRepeats(r) && i + 1 < |r| && Rel(rels, r[i]) <= Rel(rels, r[i + 1])
    ensures Cumulated(Swapped(r, i), rels, n) - Cumulated(r, rels, n)
            == if n == i + 1 then Rel(rels, r[i + 1]) - Rel(rels, r[i]) else 0.0
  {
    if n > 0 {
      SwapGathers(r, rels, i, n - 1);
      var r', m := Swapped(r, i), n - 1;
      if m < |r| {
        assert r[m] !in r[..m] && r'[m] !in r'[..m];
      }
    }
  }

  /** Moving a document ahead of the adjacent, no more relevant one before it never lowers the score. */
  lemma SwapNeverLowers(r: seq<Doc>, rels: Rels, w: Weight, i: nat, k: nat)
    requires Discount(w) && NoRepeats(r) && i + 1 < |r| && Rel(rels, r[i]) <= Rel(rels, r[i + 1])
    ensures Score(r, rels, w, k) <= Score(Swapped(r, i), rels, w, k)
  {
    hide IdealDcg, Swapped;
    forall m: nat | m <= k ensures Cumulated(r, rels, m) <= Cumulated(Swapped(r, i), rels, m) {
      SwapGathers(r, rels, i, m);
    }
    GatheringMoreIsBetter(r, Swapped(r, i), rels, w, k);
    IdealIsBest(r, rels, w, k);
    if IdealDcg(rels, w, k) != 0.0 {
      DivideBoth(Dcg(r, rels, w, k), Dcg(Swapped(r, i), rels, w, k), IdealDcg(rels, w, k));
    }
  }

  lemma DivideBoth(a: real, b: real, i: real)
    requires a <= b && i > 0.0
    ensures a / i <= b / i
  {
    var p, q := a / i, b / i;
    assert p * i == a && q * i == b;
    assert p > q ==> (p - q) * i > 0.0;
  }

  // ----- The score in numbers -----

  /** A rank is worth its document's judgement times its weight, at the document's first occurrence, if positive. */
  lemma RankGives(ranked: seq<Doc>, rels: Rels, w: Weight, n: nat)
    ensures Dcg(ranked, rels, w, 0) == 0.0
    ensures Dcg(ranked, rels, w, n + 1) - Dcg(ranked, rels, w, n)
         == if n < |ranked| && ranked[n] !in ranked[..n] && ranked[n] in rels && rels[ranked[n]] > 0.0
            then rels[ranked[n]] * w(n) else 0.0
  {
  }

  /** Of two documents, ranking the less relevant one alone scores their ratio at cutoff 1. */
  lemma SecondAlone(a: Doc, b: Doc, x: real, y: real, w: Weight)
    requires Discount(w) && a != b && 0.0 < y <= x
    ensures Score([b], map[a := x, b := y], w, 1) == y / x
  {
    var rels := map[a := x, b := y];
    assert IsIdeal([a, b], rels) by { TwoIdeal(a, b, rels); }
    hide Dcg, IdealDcg, IsIdeal, Discount;
    IdealDcgIs([a, b], rels, w, 1);
    RankGives([b], rels, w, 0);
    RankGives([a, b], rels, w, 0);
    assert w(0) > 0.0 by { Weighs(w, 0); }
    CancelWeight(y, x, w(0));
  }

  lemma TwoIdeal(a: Doc, b: Doc, rels: Rels)
    requires a != b && rels.Keys == {a, b} && 0.0 < rels[b] <= rels[a]
    ensures IsIdeal([a, b], rels)
  {
    var best := [a, b];
    assert best[0] in best && best[1] in best;
  }

  lemma Weighs(w: Weight, i: nat)
    requires Discount(w)
    ensures w(i) > 0.0
  {
  }

  lemma CancelWeight(y: real, x: real, u: real)
    requires u > 0.0 && x > 0.0
    ensures x * u != 0.0 && (y * u) / (x * u) == y / x
  {
    var q := y / x;
    assert q * x == y;
    assert q * (x * u) == y * u;
  }

  /** Nothing but `d` is worth anything, and `i` is its first rank. */
  ghost predicate OnlyAt(ranked: seq<Doc>, rels: Rels, d: Doc, i: nat) {
    && d in rels && rels[d] > 0.0 && (forall e :: e in rels && e != d ==> rels[e] <= 0.0)
    && i < |ranked| && ranked[i] == d && d !in ranked[..i]
  }

  lemma {:induction false} OnlyRank(ranked: seq<Doc>, rels: Rels, w: Weight, d: Doc, i: nat, n: nat)
    requires OnlyAt(ranked, rels, d, i)
    ensures Dcg(ranked, rels, w, n) == if n <= i then 0.0 else rels[d] * w(i)
  {
    hide Dcg;
    if n == 0 {
      RankGives(ranked, rels, w, 0);
    } else {
      OnlyRank(ranked, rels, w, d, i, n - 1);
      RankGives(ranked, rels, w, n - 1);
      if n - 1 < i { assert ranked[..i][n - 1] == ranked[n - 1]; }
      if n - 1 > i { assert n - 1 < |ranked| ==> ranked[..n - 1][i] == d; }
    }
  }

  /** A single relevant document scores what its first rank weighs against the first of all. */
  lemma SingleRelevant(ranked: seq<Doc>, rels: Rels, w: Weight, d: Doc, i: nat, k: nat)
    requires Discount(w) && OnlyAt(ranked, rels, d, i) && i < k
    ensures w(0) > 0.0 && Score(ranked, rels, w, k) == w(i) / w(0)
  {
    hide Dcg, IdealDcg;
    assert IsIdeal([d], rels) by { assert [d][0] in [d]; }
    hide IsIdeal;
    IdealDcgIs([d], rels, w, k);
    OnlyRank(ranked, rels, w, d, i, k);
    OnlyRank([d], rels, w, d, 0, k);
    Weighs(w, 0);
    CancelGain(rels[d], w(i), w(0));
  }

  lemma CancelGain(g: real, u: real, v: real)
    requires g > 0.0 && v > 0.0
    ensures g * v != 0.0 && (g * u) / (g * v) == u / v
  {
    CancelWeight(u, v, g);
    assert g * u == u * g && g * v == v * g;
  }

  // ----- The code -----

  /** One more judgement in its place. */
  lemma InsertStep(sorted: seq<real>, docs: seq<Doc>, rels: Rels, p: nat, v: real, d: Doc)
    requires NoRepeats(docs) && Descending(docs, rels) && ValuesOf(sorted, docs, rels)
    requires d !in docs && Positive(rels, d) && v == rels[d] && p <= |sorted|
    requires (p > 0 ==> sorted[p - 1] >= v) && (p < |sorted| ==> sorted[p] < v)
    ensures var sorted', docs' := sorted[..p] + [v] + sorted[p..], docs[..p] + [d] + docs[p..];
      && NoRepeats(docs') && Descending(docs', rels) && ValuesOf(sorted', docs', rels)
      && (forall x :: x in docs' <==> x in docs || x == d)
      && (forall x :: x in sorted' <==> x in sorted || x == v)
  {
    hide NoRepeats, ValuesOf;
    InsertValues(sorted, docs, rels, p, v, d);
    PlaceKeeps(docs, rels, d, p);
  }

  lemma InsertValues(sorted: seq<real>, docs: seq<Doc>, rels: Rels, p: nat, v: real, d: Doc)
    requires Descending(docs, rels) && ValuesOf(sorted, docs, rels)
    requires Positive(rels, d) && v == rels[d] && p <= |sorted|
    requires (p > 0 ==> sorted[p - 1] >= v) && (p < |sorted| ==> sorted[p] < v)
    ensures |docs| == |sorted|
    ensures forall k :: 0 <= k < p ==> Rel(rels, docs[k]) >= Rel(rels, d)
    ensures p < |docs| ==> Rel(rels, docs[p]) <= Rel(rels, d)
    ensures ValuesOf(sorted[..p] + [v] + sorted[p..], docs[..p] + [d] + docs[p..], rels)
    ensures forall x :: x in sorted[..p] + [v] + sorted[p..] <==> x in sorted || x == v
  {
    InsertHolds(sorted, p, v);
    ValuesInserted(sorted, docs, rels, p, v, d);
    forall k | 0 <= k < p ensures Rel(rels, docs[k]) >= Rel(rels, d) {
      if k < p - 1 { assert Rel(rels, docs[k]) >= Rel(rels, docs[p - 1]); }
    }
  }

  lemma ValuesInserted(vs: seq<real>, ds: seq<Doc>, rels: Rels, p: nat, v: real, d: Doc)
    requires ValuesOf(vs, ds, rels) && Positive(rels, d) && v == rels[d] && p <= |vs|
    ensures ValuesOf(vs[..p] + [v] + vs[p..], ds[..p] + [d] + ds[p..], rels)
  {
  }

  lemma DescendingValues(sorted: seq<real>, docs: seq<Doc>, rels: Rels)
    requires Descending(docs, rels) && ValuesOf(sorted, docs, rels)
    ensures forall i, j :: 0 <= i < j < |sorted| ==> sorted[i] >= sorted[j]
  {
    forall i, j | 0 <= i < j < |sorted| ensures sorted[i] >= sorted[j] {
      assert Rel(rels, docs[i]) >= Rel(rels, docs[j]);
    }
  }

  /** sort.Slice on `ideal`, largest first; `docs` follows along for the proof. */
  method SortDescending(ideal: seq<real>, ghost docs: seq<Doc>, ghost rels: Rels)
    returns (sorted: seq<real>, ghost docs': seq<Doc>)
    requires NoRepeats(docs) && ValuesOf(ideal, docs, rels)
    ensures NoRepeats(docs') && Descending(docs', rels) && ValuesOf(sorted, docs', rels)
    ensures forall d :: d in docs' <==> d in docs
    ensures |sorted| == |ideal| && forall v :: v in sorted <==> v in ideal
    ensures forall i, j :: 0 <= i < j < |sorted| ==> sorted[i] >= sorted[j]
  {
    hide Descending, Rel;
    sorted, docs' := [], [];
    assert Descending([], rels) by { NothingDescends(rels); }
    for i := 0 to |ideal|
      invariant NoRepeats(docs') && Descending(docs', rels) && ValuesOf(sorted, docs', rels)
      invariant forall d :: d in docs' <==> d in docs[..i]
      invariant |sorted| == i && forall v :: v in sorted <==> v in ideal[..i]
    {
      var p: nat := |sorted|;
      while p > 0 && sorted[p - 1] < ideal[i]
        invariant p <= |sorted|
        invariant p < |sorted| ==> sorted[p] < ideal[i]
      {
        p := p - 1;
      }
      assert docs[i] !in docs[..i];
      InsertStep(sorted, docs', rels, p, ideal[i], docs[i]);
      sorted, docs' := sorted[..p] + [ideal[i]] + sorted[p..], docs'[..p] + [docs[i]] + docs'[p..];
      assert docs[..i + 1] == docs[..i] + [docs[i]] && ideal[..i + 1] == ideal[..i] + [ideal[i]];
    }
    assert docs[..|ideal|] == docs && ideal[..|ideal|] == ideal;
    DescendingValues(sorted, docs', rels);
  }

  lemma NothingDescends(rels: Rels)
    ensures Descending([], rels)
  {
  }

  ghost predicate ValuesOf(vs: seq<real>, ds: seq<Doc>, rels: Rels) {
    |vs| == |ds| && forall i :: 0 <= i < |ds| ==> Positive(rels, ds[i]) && vs[i] == rels[ds[i]]
  }

  /** The relevant judgements, in whatever order the map yields them. */
  method Relevant(rels: Rels) returns (ideal: seq<real>, ghost docs: seq<Doc>)
    ensures NoRepeats(docs) && ValuesOf(ideal, docs, rels)
    ensures forall d :: d in docs <==> Positive(rels, d)
    ensures forall v :: v in ideal <==> exists d :: Positive(rels, d) && rels[d] == v
  {
    ideal, docs := [], [];
    var todo := rels.Keys;
    while todo != {}
      invariant todo <= rels.Keys
      invariant NoRepeats(docs) && ValuesOf(ideal, docs, rels)
      invariant forall d :: d in docs <==> Positive(rels, d) && d !in todo
      decreases |todo|
    {
      var d :| d in todo;
      todo := todo - {d};
      if rels[d] > 0.0 {
        ideal, docs := ideal + [rels[d]], docs + [d];
      }
    }
    forall v ensures v in ideal <==> exists d :: Positive(rels, d) && rels[d] == v {
      if d :| Positive(rels, d) && rels[d] == v {
        var i :| 0 <= i < |docs| && docs[i] == d;
        assert ideal[i] == v;
      }
      if v in ideal {
        var i :| 0 <= i < |ideal| && ideal[i] == v;
        assert Positive(rels, docs[i]) && rels[docs[i]] == v;
      }
    }
  }

  method DcgOfRanking(ranked: seq<Doc>, rels: Rels, k: nat, w: Weight) returns (dcg: real)
    ensures dcg == Dcg(ranked, rels, w, k)
  {
    dcg := 0.0;
    var seen: set<Doc> := {};
    var i := 0;
    while i < |ranked| && i < k
      invariant 0 <= i <= |ranked| && i <= k
      invariant dcg == Dcg(ranked, rels, w, i)
      invariant seen == set d | d in ranked[..i]
    {
      var doc := ranked[i];
      assert ranked[..i + 1] == ranked[..i] + [doc];
      if doc !in seen {
        seen := seen + {doc};
        if doc in rels && rels[doc] > 0.0 {
          dcg := dcg + rels[doc] * w(i);
        }
      }
      i := i + 1;
    }
    NothingPastTheEnd(ranked, rels, w, i, k);
  }

  lemma {:induction false} NothingPastTheEnd(ranked: seq<Doc>, rels: Rels, w: Weight, n: nat, k: nat)
    requires n <= k && (n < k ==> n >= |ranked|)
    ensures Dcg(ranked, rels, w, n) == Dcg(ranked, rels, w, k)
  {
    if n < k { NothingPastTheEnd(ranked, rels, w, n, k - 1); }
  }

  method DcgOfIdeal(ideal: seq<real>, k: nat, w: Weight, ghost best: seq<Doc>, ghost rels: Rels) returns (idcg: real)
    requires NoRepeats(best) && ValuesOf(ideal, best, rels)
    ensures idcg == Dcg(best, rels, w, k)
  {
    idcg := 0.0;
    var i := 0;
    while i < |ideal| && i < k
      invariant 0 <= i <= |ideal| && i <= k
      invariant idcg == Dcg(best, rels, w, i)
    {
      assert best[i] !in best[..i];
      idcg := idcg + ideal[i] * w(i);
      i := i + 1;
    }
    NothingPastTheEnd(best, rels, w, i, k);
  }

  /** AtK. The source panics on a cutoff that is not positive. */
  method AtK(ranked: seq<Doc>, rels: Rels, k: nat, w: Weight) returns (score: real)
    requires k > 0 && Discount(w)
    ensures score == Score(ranked, rels, w, k)
  {
    hide Dcg, IdealDcg;
    var dcg := DcgOfRanking(ranked, rels, k, w);
    var ideal, docs := Relevant(rels);
    if |ideal| == 0 {
      IdealDcgIs(docs, rels, w, k);
      EmptyDcg(docs, rels, w, k);
      return 0.0;
    }
    ideal, docs := SortDescending(ideal, docs, rels);
    var idcg := DcgOfIdeal(ideal, k, w, docs, rels);
    IdealDcgIs(docs, rels, w, k);
    if idcg == 0.0 {
      return 0.0;
    }
    return dcg / idcg;
  }
}
