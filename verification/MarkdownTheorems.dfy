/** What the sections of a markdown file promise (engine/markdown.go). */
module MarkdownTheorems {
  import opened Collections
  import opened Runes
  import opened MarkdownLines
  import opened MarkdownSections
  import Tokens

  // ----- Sections partition the lines -----

  ghost predicate InSection(out: seq<Section>, k: int, line: int) {
    0 <= k < |out| && out[k].startLine <= line <= out[k].endLine
  }

  ghost predicate Covered(out: seq<Section>, line: int) {
    exists k :: InSection(out, k, line)
  }

  /** The sections cover lines 1 to `n` in order, without gap or overlap. */
  ghost predicate Tiles(out: seq<Section>, n: nat) {
    && (out == [] <==> n == 0)
    && (out != [] ==> out[0].startLine == 1 && out[|out| - 1].endLine == n)
    && (forall k :: 0 <= k < |out| ==> out[k].startLine <= out[k].endLine)
    && (forall k :: 0 <= k < |out| - 1 ==> out[k].endLine + 1 == out[k + 1].startLine)
  }

  /**
   Sections cover the lines in order without gap or overlap: every 1-based line
   number lies in exactly one section.
   */
  lemma SectionsPartitionLines(source: Bytes)
    ensures var ls, out := Lines(source), Sections(Lines(source));
      && (source == [] <==> out == [])
      && Tiles(out, |ls|)
      && (forall line :: 1 <= line <= |ls| <==> Covered(out, line))
      && (forall line, k, k' :: InSection(out, k, line) && InSection(out, k', line) ==> k == k')
  {
    hide KindAt, Lines, Sections, SectionAt, HeadingAt, Boundaries;
    var ls, out := Lines(source), Sections(Lines(source));
    LinesStep(source);
    SectionsTile(ls);
    forall line ensures 1 <= line <= |ls| <==> Covered(out, line) {
      if 1 <= line <= |ls| { TilesCover(out, |ls|, line); }
      if Covered(out, line) {
        var k :| InSection(out, k, line);
        TilesAscend(out, |ls|, 0, k);
        TilesAscend(out, |ls|, k, |out| - 1);
      }
    }
    forall line, k, k' | InSection(out, k, line) && InSection(out, k', line) ensures k == k' {
      if k < k' { TilesAscend(out, |ls|, k, k'); }
      if k' < k { TilesAscend(out, |ls|, k', k); }
    }
  }

  lemma SectionsTile(ls: seq<Bytes>)
    ensures Tiles(Sections(ls), |ls|)
  {
    hide KindAt, HeadingAt, Boundaries, Tokens.Estimate, Decode, Join;
    StartsAtZero(ls);
    var out := Sections(ls);
    forall k | 0 <= k < |out| ensures out[k].startLine == Starts(ls)[k] + 1 && out[k].endLine == EndOf(ls, k) {
      assert out[k] == SectionAt(ls, k);
    }
    if out != [] {
      assert out[0].startLine == 1 && out[|out| - 1].endLine == |ls|;
      assert Starts(ls)[0] < |ls|;
    }
    forall k | 0 <= k < |out| ensures out[k].startLine <= out[k].endLine {
      assert Starts(ls)[k] < EndOf(ls, k);
    }
    forall k | 0 <= k < |out| - 1 ensures out[k].endLine + 1 == out[k + 1].startLine {
      assert EndOf(ls, k) == Starts(ls)[k + 1];
    }
  }

  lemma {:induction false} TilesAscend(out: seq<Section>, n: nat, k: nat, k': nat)
    requires Tiles(out, n) && k <= k' < |out|
    ensures k < k' ==> out[k].endLine < out[k'].startLine
    ensures out[k].startLine <= out[k'].startLine && out[k].endLine <= out[k'].endLine
  {
    if k < k' { TilesAscend(out, n, k, k' - 1); }
  }

  lemma TilesCover(out: seq<Section>, n: nat, line: nat)
    requires Tiles(out, n) && 1 <= line <= n
    ensures Covered(out, line)
  {
    var k := |out| - 1;
    while out[k].startLine > line
      invariant 0 <= k < |out| && line <= out[k].endLine
    {
      k := k - 1;
    }
    assert InSection(out, k, line);
  }

  lemma StartsAtZero(ls: seq<Bytes>)
    ensures ls != [] ==> Starts(ls) != [] && Starts(ls)[0] == 0
  {
  }

  // ----- Heading paths -----

  lemma BoundaryIsHeading(ls: seq<Bytes>, k: nat)
    requires 0 < k < |Starts(ls)|
    ensures Starts(ls)[k] > 0 && IsHeading(Kinds(ls), Starts(ls)[k])
  {
    hide KindAt;
    assert Starts(ls)[0] < Starts(ls)[k];
    assert Starts(ls)[k] in Starts(ls);
  }

  lemma ATXLevel(body: Bytes)
    requires ContentKind(body).HeadingATX?
    ensures 1 <= Leading(TrimLeft(body), HASH) <= 6
  {
  }

  lemma HeadingLevels(ls: seq<Bytes>)
    ensures forall k :: 0 <= k < |HeadingsOf(ls)| && HeadingsOf(ls)[k].Some? ==> 1 <= HeadingsOf(ls)[k].value.level <= 6
  {
    hide Step, ContentKind, Boundaries, HeadingText, TrimSpaceLeft, TrimSpaceRight;
    forall k | 0 <= k < |HeadingsOf(ls)| && HeadingsOf(ls)[k].Some?
      ensures 1 <= HeadingsOf(ls)[k].value.level <= 6
    {
      var i := Starts(ls)[k];
      if Kinds(ls)[i].HeadingATX? {
        ContentOnlyOutside(ls, i);
        ATXLevel(StripTrailingNewline(ls[i]));
      }
    }
  }

  /**
   A headed section's path is its own heading preceded, again and again, by the
   nearest earlier heading of strictly smaller level. Levels along it strictly
   increase within 1..6, and only the first section can have no heading.
   */
  lemma HeadingPaths(source: Bytes, k: nat)
    requires k < |Sections(Lines(source))|
    ensures var hs, s := HeadingsOf(Lines(source)), Sections(Lines(source))[k];
      && (k > 0 ==> hs[k].Some?)
      && (hs[k].None? ==> s.path == [] && s.level == 0)
      && (hs[k].Some? ==>
            var chain := Enclosing(hs, k);
            && s.path == Texts(chain) && s.path != [] && |s.path| <= 6
            && s.level == chain[|chain| - 1].level
            && (forall i :: 0 <= i < |chain| ==> 1 <= chain[i].level <= 6)
            && (forall i, j :: 0 <= i < j < |chain| ==> chain[i].level < chain[j].level))
  {
    hide KindAt, Lines, Boundaries, Tokens.Estimate, Decode, Join;
    var ls := Lines(source);
    var hs := HeadingsOf(ls);
    if k > 0 { BoundaryIsHeading(ls, k); }
    HeadingLevels(ls);
    assert Sections(ls)[k] == SectionAt(ls, k);
    if hs[k].Some? {
      EnclosingLevels(hs, Some(k));
    }
  }

  /** No section after the first begins inside a fence or front matter. */
  lemma SectionsStartOutsideFences(ls: seq<Bytes>, k: nat)
    requires 0 < k < |Starts(ls)|
    ensures StateBefore(ls, Starts(ls)[k]).Normal?
  {
    hide Step;
    BoundaryIsHeading(ls, k);
    ContentOnlyOutside(ls, Starts(ls)[k]);
  }

  // ----- Fenced text does not matter -----

  lemma HeadingAtAgrees(ls: seq<Bytes>, ls': seq<Bytes>, i: nat, j: nat, b: nat)
    requires DifferOnlyIn(ls, ls', i, j) && Kinds(ls) == Kinds(ls')
    requires forall t :: i <= t < j ==> Kinds(ls)[t] == CodeInside
    ensures HeadingAt(ls, Kinds(ls), b) == HeadingAt(ls', Kinds(ls'), b)
  {
    hide KindAt, StripTrailingNewline, HeadingText, SetextLevel, TrimSpaceLeft, TrimSpaceRight, TrimLeft, Leading;
  }

  /** Everything about a section but its token estimate. */
  function Outline(s: Section): (nat, nat, nat, seq<Bytes>) { (s.startLine, s.endLine, s.level, s.path) }

  /**
   Replacing the interior lines of a fenced block by as many other lines, none of
   which closes the fence, leaves every section's line range, level and heading
   path as they were.
   */
  lemma FencedTextIsInert(source: Bytes, source': Bytes, i: nat, j: nat, mark: byte, len: nat)
    requires DifferOnlyIn(Lines(source), Lines(source'), i, j)
    requires Interior(Lines(source), i, j, mark, len)
    requires forall t :: i <= t < j ==> !Closes(StripTrailingNewline(Lines(source')[t]), mark, len)
    ensures |Sections(Lines(source))| == |Sections(Lines(source'))|
    ensures forall k :: 0 <= k < |Sections(Lines(source))| ==>
              Outline(Sections(Lines(source))[k]) == Outline(Sections(Lines(source'))[k])
  {
    hide KindAt, Lines, Closes, HeadingAt, Boundaries, Tokens.Estimate, Decode, Join, Enclosing;
    var ls, ls' := Lines(source), Lines(source');
    InteriorKindsAgree(ls, ls', i, j, mark, len);
    forall b: nat ensures HeadingAt(ls, Kinds(ls), b) == HeadingAt(ls', Kinds(ls'), b) {
      HeadingAtAgrees(ls, ls', i, j, b);
    }
    assert HeadingsOf(ls) == HeadingsOf(ls');
    forall k | 0 <= k < |Sections(ls)| ensures Outline(Sections(ls)[k]) == Outline(Sections(ls')[k]) {
      assert Sections(ls)[k] == SectionAt(ls, k);
      assert Sections(ls')[k] == SectionAt(ls', k);
    }
  }

  lemma OnlyBetween(before: seq<Bytes>, was: seq<Bytes>, now: seq<Bytes>, after: seq<Bytes>)
    requires |was| == |now|
    ensures DifferOnlyIn(before + was + after, before + now + after, |before|, |before| + |was|)
  {
  }

  lemma Between(before: seq<Bytes>, mid: seq<Bytes>, after: seq<Bytes>, mark: byte, len: nat)
    requires forall l :: l in mid ==> !Closes(StripTrailingNewline(l), mark, len)
    ensures var ls := before + mid + after;
      forall t :: |before| <= t < |before| + |mid| ==> !Closes(StripTrailingNewline(ls[t]), mark, len)
  {
    hide Closes, StripTrailingNewline;
    var ls := before + mid + after;
    forall t | |before| <= t < |before| + |mid| ensures !Closes(StripTrailingNewline(ls[t]), mark, len) {
      assert ls[t] == mid[t - |before|];
    }
  }

  /** The same on texts put together from lines: what is replaced is any run of well-formed lines. */
  lemma ReplacingFencedLines(before: seq<Bytes>, was: seq<Bytes>, now: seq<Bytes>, after: seq<Bytes>,
                             mark: byte, len: nat)
    requires WellFormed(before + was + after) && WellFormed(before + now + after) && |was| == |now|
    requires StateBefore(before + was + after, |before|) == InFence(mark, len)
    requires forall l :: l in was || l in now ==> !Closes(StripTrailingNewline(l), mark, len)
    ensures var out := Sections(Lines(Join(before + was + after)));
      var out' := Sections(Lines(Join(before + now + after)));
      |out| == |out'| && forall k :: 0 <= k < |out| ==> Outline(out[k]) == Outline(out'[k])
  {
    hide KindAt, Step, Closes, StripTrailingNewline, Lines, Join, Sections, StateBefore, WellFormed, DifferOnlyIn;
    var ls, ls' := before + was + after, before + now + after;
    LinesOfJoin(ls);
    LinesOfJoin(ls');
    Between(before, was, after, mark, len);
    Between(before, now, after, mark, len);
    OnlyBetween(before, was, now, after);
    FencedTextIsInert(Join(ls), Join(ls'), |before|, |before| + |was|, mark, len);
  }

  // ----- Token estimates add up -----

  function TokenSum(out: seq<Section>): nat {
    if out == [] then 0 else TokenSum(out[..|out| - 1]) + out[|out| - 1].tokens
  }

  /** A text that ends a line ends in a rune of its own that is no word rune. */
  lemma CutAfterNewline(a: Bytes, b: Bytes)
    requires a != [] ==> a[|a| - 1] == NL
    ensures Tokens.Estimate(Decode(a + b)) == Tokens.Estimate(Decode(a)) + Tokens.Estimate(Decode(b))
  {
    hide Tokens.Estimate;
    DecodeConcat(a, b);
    if a != [] { DecodeLast(a); }
    Tokens.EstimateCutBetweenRuns(Decode(a), Decode(b));
  }

  lemma {:induction false} JoinEndsLine(ls: seq<Bytes>, n: nat)
    requires WellFormed(ls) && n < |ls|
    ensures Join(ls[..n]) != [] ==> Join(ls[..n])[|Join(ls[..n])| - 1] == NL
  {
    if n > 0 {
      assert ls[..n] == ls[..n - 1] + [ls[n - 1]];
      JoinConcat(ls[..n - 1], [ls[n - 1]]);
      assert Join([ls[n - 1]]) == ls[n - 1] + Join([]);
      assert WellFormedLine(ls[n - 1], false);
    }
  }

  function TextTokens(ls: seq<Bytes>): nat { Tokens.Estimate(Decode(Join(ls))) }

  /** Lines cut at a line boundary: their estimates add up. */
  lemma CutLines(ls: seq<Bytes>, b: nat, e: nat)
    requires WellFormed(ls) && b < e <= |ls|
    ensures TextTokens(ls[..e]) == TextTokens(ls[..b]) + TextTokens(ls[b..e])
  {
    hide Tokens.Estimate, Decode, Join, WellFormed;
    assert ls[..e] == ls[..b] + ls[b..e];
    JoinConcat(ls[..b], ls[b..e]);
    JoinEndsLine(ls, b);
    CutAfterNewline(Join(ls[..b]), Join(ls[b..e]));
  }

  lemma TokenSumStep(out: seq<Section>, n: nat)
    requires 0 < n <= |out|
    ensures TokenSum(out[..n]) == TokenSum(out[..n - 1]) + out[n - 1].tokens
  {
    assert out[..n][..n - 1] == out[..n - 1];
  }

  lemma TokensOfSection(ls: seq<Bytes>, k: nat)
    requires k < |Starts(ls)|
    ensures Sections(ls)[k].tokens == TextTokens(ls[Starts(ls)[k]..EndOf(ls, k)])
    ensures Starts(ls)[k] == if k == 0 then 0 else EndOf(ls, k - 1)
  {
    hide HeadingsOf, Tokens.Estimate, Decode, Join;
    StartsAtZero(ls);
    assert Sections(ls)[k] == SectionAt(ls, k);
  }

  lemma TokenStep(ls: seq<Bytes>, k: nat, b: nat, e: nat)
    requires WellFormed(ls) && k < |Starts(ls)| && b == Starts(ls)[k] && e == EndOf(ls, k)
    requires TokenSum(Sections(ls)[..k]) == TextTokens(ls[..b])
    ensures TokenSum(Sections(ls)[..k + 1]) == TextTokens(ls[..e])
    ensures b == if k == 0 then 0 else EndOf(ls, k - 1)
  {
    hide Starts, EndOf, TextTokens, TokenSum, WellFormed, Sections, SectionAt;
    TokenSumStep(Sections(ls), k + 1);
    TokensOfSection(ls, k);
    CutLines(ls, b, e);
  }

  lemma {:induction false} TokensUpTo(ls: seq<Bytes>, n: nat)
    requires WellFormed(ls) && n <= |Starts(ls)|
    ensures TokenSum(Sections(ls)[..n]) == TextTokens(ls[..if n == 0 then 0 else EndOf(ls, n - 1)])
  {
    if n == 0 {
      EmptyEstimate();
      assert ls[..0] == [];
    } else {
      hide Starts, EndOf, TextTokens, TokenSum, WellFormed, Sections, SectionAt;
      TokensUpTo(ls, n - 1);
      TokenStep(ls, n - 1, Starts(ls)[n - 1], EndOf(ls, n - 1));
    }
  }

  lemma EmptyEstimate()
    ensures Tokens.Estimate(Decode(Join([]))) == 0
  {
  }

  /** The sections' estimates sum to the whole file's: no word run crosses a line end. */
  lemma SectionTokensSum(source: Bytes)
    ensures TokenSum(Sections(Lines(source))) == Tokens.Estimate(Decode(source))
  {
    hide KindAt, HeadingAt, Tokens.Estimate, Decode, Join, Boundaries, Lines, TokenSum;
    var ls := Lines(source);
    LinesWellFormed(source);
    TokensUpTo(ls, |Starts(ls)|);
    StartsAtZero(ls);
    assert Sections(ls)[..|Starts(ls)|] == Sections(ls);
    assert ls[..|ls|] == ls;
  }
}
