/** What merged spans promise, and the two readings of gold spans made through them. */
module SpanTheorems {
  import opened Hits
  import opened StringOrder
  import opened Spans

  // ----- The merged ranges are determined by the lines they cover -----

  function Range(s: Span): (string, int, int) { (s.file, s.first, s.last) }

  ghost predicate SameCover(a: seq<Span>, b: seq<Span>) {
    forall file, line :: Covers(a, file, line) <==> Covers(b, file, line)
  }

  /** Whatever a canonical list covers does not come before its first span. */
  lemma FirstIsLeast(a: seq<Span>, file: string, line: int)
    requires Canonical(a) && Covers(a, file, line)
    ensures a != [] && AtMost(a[0].file, file) && (a[0].file == file ==> a[0].first <= line)
    ensures a[0].file == file && line > a[0].last ==> line > a[0].last + 1
  {
    var k :| 0 <= k < |a| && a[k].file == file && a[k].first <= line <= a[k].last;
    LessIrreflexive(file);
    if k > 0 { assert Before(a[0], a[k]); }
  }

  lemma SameFirst(a: seq<Span>, b: seq<Span>)
    requires Canonical(a) && Canonical(b) && SameCover(a, b) && a != []
    ensures b != [] && Range(a[0]) == Range(b[0])
  {
    assert Covers(a, a[0].file, a[0].first);
    FirstIsLeast(b, a[0].file, a[0].first);
    assert Covers(b, b[0].file, b[0].first);
    FirstIsLeast(a, b[0].file, b[0].first);
    AtMostAntisymmetric(a[0].file, b[0].file);
    if a[0].last < b[0].last {
      assert Covers(b, b[0].file, a[0].last + 1);
      FirstIsLeast(a, b[0].file, a[0].last + 1);
    }
    if b[0].last < a[0].last {
      assert Covers(a, a[0].file, b[0].last + 1);
      FirstIsLeast(b, a[0].file, b[0].last + 1);
    }
  }

  lemma TailCovers(a: seq<Span>, file: string, line: int)
    requires Canonical(a) && a != []
    ensures Covers(a[1..], file, line)
            <==> Covers(a, file, line) && !(file == a[0].file && a[0].first <= line <= a[0].last)
  {
    assert forall s :: s in a <==> s == a[0] || s in a[1..];
    if Covers(a[1..], file, line) {
      var k :| 0 <= k < |a[1..]| && a[1..][k].file == file && a[1..][k].first <= line <= a[1..][k].last;
      assert a[1..][k] == a[k + 1] && Before(a[0], a[k + 1]);
      LessIrreflexive(file);
    }
  }

  /** Canonical lists that cover the same lines have the same ranges. */
  lemma {:induction false} CanonicalFormIsUnique(a: seq<Span>, b: seq<Span>)
    requires Canonical(a) && Canonical(b) && SameCover(a, b)
    ensures |a| == |b| && forall k :: 0 <= k < |a| ==> Range(a[k]) == Range(b[k])
  {
    hide Less;
    if a == [] {
      if b != [] { SameFirst(b, a); }
    } else {
      SameFirst(a, b);
      forall file, line ensures Covers(a[1..], file, line) <==> Covers(b[1..], file, line) {
        TailCovers(a, file, line);
        TailCovers(b, file, line);
      }
      CanonicalFormIsUnique(a[1..], b[1..]);
      forall k | 0 < k < |a| ensures Range(a[k]) == Range(b[k]) {
        assert a[k] == a[1..][k - 1] && b[k] == b[1..][k - 1];
      }
    }
  }

  /** The order of the input does not matter to the merged ranges, nor does repetition. */
  lemma MergeIgnoresInputOrder(m: seq<Span>, m': seq<Span>, spans: seq<Span>, spans': seq<Span>, norm: Norm)
    requires IsMerge(m, spans, norm) && IsMerge(m', spans', norm)
    requires forall s :: s in spans <==> s in spans'
    ensures |m| == |m'| && forall k :: 0 <= k < |m| ==> Range(m[k]) == Range(m'[k])
  {
    forall file, line ensures Covers(m, file, line) <==> Covers(m', file, line) {
      assert CoversValid(spans, norm, file, line) <==> CoversValid(spans', norm, file, line);
    }
    CanonicalFormIsUnique(m, m');
  }

  // ----- Overlap -----

  predicate SpansOverlap(s: Span, t: Span, norm: Norm) {
    norm(s.file) == norm(t.file) && s.first <= t.last && t.first <= s.last
  }

  function HitSpan(h: Hit): Span { Span(h.file, h.first, h.last, "") }

  predicate Overlaps(h: Hit, gold: seq<Span>, norm: Norm) {
    exists g :: g in gold && SpansOverlap(HitSpan(h), g, norm)
  }

  method HitOverlapsGold(h: Hit, gold: seq<Span>, norm: Norm) returns (r: bool)
    ensures r <==> Overlaps(h, gold, norm)
  {
    for i := 0 to |gold|
      invariant forall g :: g in gold[..i] ==> !SpansOverlap(HitSpan(h), g, norm)
    {
      if SpansOverlap(HitSpan(h), gold[i], norm) {
        return true;
      }
      assert gold[..i + 1] == gold[..i] + [gold[i]];
    }
    assert gold[..|gold|] == gold;
    return false;
  }

  function ValidSpans(gold: seq<Span>, norm: Norm): (r: seq<Span>)
    ensures forall g :: g in r <==> g in gold && Valid(g, norm)
  {
    if gold == [] then []
    else
      assert gold == gold[..|gold| - 1] + [gold[|gold| - 1]];
      ValidSpans(gold[..|gold| - 1], norm) + if Valid(gold[|gold| - 1], norm) then [gold[|gold| - 1]] else []
  }

  /** Normalising the gold paths a second time does nothing. */
  ghost predicate NormalGold(gold: seq<Span>, norm: Norm) {
    forall g :: g in gold && Valid(g, norm) ==> norm(norm(g.file)) == norm(g.file)
  }

  lemma MergedFileIsNormal(m: seq<Span>, gold: seq<Span>, norm: Norm, s: Span)
    requires IsMerge(m, gold, norm) && NormalGold(gold, norm) && s in m
    ensures norm(s.file) == s.file
  {
    var k :| 0 <= k < |m| && m[k] == s;
    assert Covers(m, s.file, s.first);
  }

  /** A well-formed hit overlaps the merged gold exactly when it overlaps one of the valid gold spans. */
  lemma OverlapUnchanged(h: Hit, m: seq<Span>, gold: seq<Span>, norm: Norm)
    requires IsMerge(m, gold, norm) && NormalGold(gold, norm) && h.first <= h.last
    ensures Overlaps(h, m, norm) <==> Overlaps(h, ValidSpans(gold, norm), norm)
  {
    var f := norm(h.file);
    if Overlaps(h, m, norm) {
      var s :| s in m && SpansOverlap(HitSpan(h), s, norm);
      MergedFileIsNormal(m, gold, norm, s);
      var line := if h.first < s.first then s.first else h.first;
      assert Covers(m, f, line);
      var g :| g in gold && Valid(g, norm) && norm(g.file) == f && g.first <= line <= g.last;
      assert g in ValidSpans(gold, norm) && SpansOverlap(HitSpan(h), g, norm);
    }
    if Overlaps(h, ValidSpans(gold, norm), norm) {
      var g :| g in ValidSpans(gold, norm) && SpansOverlap(HitSpan(h), g, norm);
      var line := if h.first < g.first then g.first else h.first;
      assert CoversValid(gold, norm, f, line);
      assert Covers(m, f, line);
      var s :| s in m && s.file == f && s.first <= line <= s.last;
      MergedFileIsNormal(m, gold, norm, s);
      assert SpansOverlap(HitSpan(h), s, norm);
    }
  }

  /** Merging never changes what `h` overlaps. */
  ghost predicate MergeIsInvisible(h: Hit, norm: Norm) {
    forall gold: seq<Span>, m: seq<Span> :: NormalGold(gold, norm) && IsMerge(m, gold, norm) ==>
      (Overlaps(h, m, norm) <==> Overlaps(h, ValidSpans(gold, norm), norm))
  }

  /**
   On a usable path, merging is invisible to a hit exactly when the hit's lines are
   in order or it ends before line 1. A hit that ends before it starts can overlap
   a merged span without overlapping either part of it.
   */
  lemma InvisibleExactlyToOrderedHits(h: Hit, norm: Norm)
    requires norm(norm(h.file)) == norm(h.file) && norm(h.file) != "" && norm(h.file) != "."
    ensures MergeIsInvisible(h, norm) <==> h.first <= h.last || h.last < 1
  {
    if h.first <= h.last {
      forall gold: seq<Span>, m: seq<Span> | NormalGold(gold, norm) && IsMerge(m, gold, norm)
        ensures Overlaps(h, m, norm) <==> Overlaps(h, ValidSpans(gold, norm), norm)
      {
        OverlapUnchanged(h, m, gold, norm);
      }
    } else if h.last < 1 {
      forall gold: seq<Span>, m: seq<Span> | NormalGold(gold, norm) && IsMerge(m, gold, norm)
        ensures Overlaps(h, m, norm) <==> Overlaps(h, ValidSpans(gold, norm), norm)
      {
        forall s: Span | s in m ensures s.first >= 1 {
          var k :| 0 <= k < |m| && m[k] == s;
        }
      }
    } else {
      TwoHalves(h, norm);
    }
  }

  lemma TwoHalves(h: Hit, norm: Norm)
    requires norm(norm(h.file)) == norm(h.file) && norm(h.file) != "" && norm(h.file) != "."
    requires 1 <= h.last < h.first
    ensures !MergeIsInvisible(h, norm)
  {
    var f := norm(h.file);
    var g1, g2, whole := Span(f, 1, h.first - 1, ""), Span(f, h.first, h.first, ""), Span(f, 1, h.first, "");
    var gold, m := [g1, g2], [whole];
    forall file, line ensures Covers(m, file, line) <==> CoversValid(gold, norm, file, line) {
      if Covers(m, file, line) {
        assert whole in m;
        if line < h.first { assert g1 in gold && Valid(g1, norm); } else { assert g2 in gold && Valid(g2, norm); }
      }
      if CoversValid(gold, norm, file, line) { assert whole in m; }
    }
    assert NormalGold(gold, norm) && IsMerge(m, gold, norm);
    assert whole in m && SpansOverlap(HitSpan(h), whole, norm);
    assert !SpansOverlap(HitSpan(h), g1, norm) && !SpansOverlap(HitSpan(h), g2, norm);
    assert !Overlaps(h, ValidSpans(gold, norm), norm);
  }

  // ----- Tokens to the first gold line -----

  /** The first hit that overlaps, or the number of hits. */
  function FirstOverlap(hits: seq<Hit>, gold: seq<Span>, norm: Norm): (n: nat)
    ensures n <= |hits|
    ensures n < |hits| ==> Overlaps(hits[n], gold, norm)
    ensures forall k :: 0 <= k < n ==> !Overlaps(hits[k], gold, norm)
  {
    if hits == [] || Overlaps(hits[0], gold, norm) then 0 else 1 + FirstOverlap(hits[1..], gold, norm)
  }

  function TokensOf(hits: seq<Hit>, count: string -> nat): int {
    if hits == [] then 0 else TokensOf(hits[..|hits| - 1], count) + HitTokens(hits[|hits| - 1], count)
  }

  /** The tokens of the hits before the first that overlaps, or -1. */
  function TokensToGold(hits: seq<Hit>, gold: seq<Span>, norm: Norm, count: string -> nat): int {
    var n := FirstOverlap(hits, gold, norm);
    if n == |hits| then -1 else TokensOf(hits[..n], count)
  }

  /**
   The answer in numbers: 0 if the first hit overlaps; -1 if none does; otherwise a hit
   before the first overlap adds what it comes with, or what its text counts.
   */
  lemma GoldInNumbers(h: Hit, hits: seq<Hit>, gold: seq<Span>, norm: Norm, count: string -> nat)
    ensures TokensToGold([], gold, norm, count) == -1
    ensures Overlaps(h, gold, norm) ==> TokensToGold([h] + hits, gold, norm, count) == 0
    ensures !Overlaps(h, gold, norm) && (forall x :: x in hits ==> !Overlaps(x, gold, norm)) ==>
              TokensToGold([h] + hits, gold, norm, count) == -1
    ensures !Overlaps(h, gold, norm) && (exists x :: x in hits && Overlaps(x, gold, norm)) ==>
              TokensToGold([h] + hits, gold, norm, count)
              == TokensToGold(hits, gold, norm, count)
                 + if h.tokens > 0 || h.text == "" then h.tokens else count(h.text)
  {
    hide Overlaps;
    var all := [h] + hits;
    assert all[1..] == hits;
    var n := FirstOverlap(hits, gold, norm);
    if !Overlaps(h, gold, norm) {
      if n < |hits| {
        assert hits[n] in hits;
        assert all[..n + 1] == [h] + hits[..n];
        TokensOfMore(h, hits[..n], count);
      } else {
        assert forall x :: x in hits ==> !Overlaps(x, gold, norm);
      }
    }
  }

  lemma {:induction false} TokensOfMore(h: Hit, hits: seq<Hit>, count: string -> nat)
    ensures TokensOf([h] + hits, count) == HitTokens(h, count) + TokensOf(hits, count)
  {
    if hits == [] {
      assert [h] + hits == [h] && [h][..0] == [];
    } else {
      assert ([h] + hits)[..|hits|] == [h] + hits[..|hits| - 1];
      TokensOfMore(h, hits[..|hits| - 1], count);
    }
  }

  /** TokensToFirstGoldLine, which looks at merged gold; on well-formed hits that is the unmerged gold's answer. */
  method TokensToFirstGoldLine(hits: seq<Hit>, gold: seq<Span>, norm: Norm, count: string -> nat) returns (r: int)
    ensures exists m :: IsMerge(m, gold, norm) && r == TokensToGold(hits, m, norm, count)
    ensures NormalGold(gold, norm) && (forall h :: h in hits ==> h.first <= h.last)
            ==> r == TokensToGold(hits, ValidSpans(gold, norm), norm, count)
  {
    hide Overlaps, IsMerge;
    var merged := MergeSpans(gold, norm);
    if NormalGold(gold, norm) && forall h :: h in hits ==> h.first <= h.last {
      FirstOverlapUnchanged(hits, merged, gold, norm);
    }
    if |merged| == 0 {
      NothingOverlapsNothing(hits, norm);
      return -1;
    }
    var cumulative := 0;
    for i := 0 to |hits|
      invariant FirstOverlap(hits, merged, norm) >= i
      invariant cumulative == TokensOf(hits[..i], count)
    {
      var h := hits[i];
      var toks := h.tokens;
      if toks <= 0 && h.text != "" {
        toks := count(h.text);
      }
      var overlaps := HitOverlapsGold(h, merged, norm);
      if overlaps {
        return cumulative;
      }
      assert hits[..i + 1][..i] == hits[..i];
      cumulative := cumulative + toks;
    }
    return -1;
  }

  lemma NothingOverlapsNothing(hits: seq<Hit>, norm: Norm)
    ensures FirstOverlap(hits, [], norm) == |hits|
  {
  }

  /** Merging the gold leaves the first overlapping hit where it is. */
  lemma {:induction false} FirstOverlapUnchanged(hits: seq<Hit>, m: seq<Span>, gold: seq<Span>, norm: Norm)
    requires IsMerge(m, gold, norm) && NormalGold(gold, norm) && forall h :: h in hits ==> h.first <= h.last
    ensures FirstOverlap(hits, m, norm) == FirstOverlap(hits, ValidSpans(gold, norm), norm)
  {
    hide Overlaps, IsMerge, NormalGold;
    if hits != [] {
      OverlapUnchanged(hits[0], m, gold, norm);
      FirstOverlapUnchanged(hits[1..], m, gold, norm);
    }
  }

  /** Spans with their lines in order overlap exactly when they share a line of one file. */
  lemma OverlapIsASharedLine(s: Span, t: Span, norm: Norm)
    requires s.first <= s.last && t.first <= t.last
    ensures SpansOverlap(s, t, norm) <==> norm(s.file) == norm(t.file) && exists line :: On(s, line) && On(t, line)
  {
    var line := if s.first < t.first then t.first else s.first;
    assert SpansOverlap(s, t, norm) ==> On(s, line) && On(t, line);
  }

  predicate On(s: Span, line: int) { s.first <= line <= s.last }

  /** What merging keeps are the lines from 1 on of spans that are in order, of files with a usable name. */
  lemma MergedLines(m: seq<Span>, spans: seq<Span>, norm: Norm, file: string, line: int)
    requires IsMerge(m, spans, norm)
    ensures Covers(m, file, line)
            <==> file != "" && file != "." && exists s ::
                   s in spans && norm(s.file) == file && 1 <= s.first <= line <= s.last
  {
    assert Covers(m, file, line) <==> CoversValid(spans, norm, file, line);
  }
}
