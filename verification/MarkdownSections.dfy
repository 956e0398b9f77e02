/**
 Sections of a markdown file (engine/markdown.go): heading boundaries, the heading
 stack, and what the sections say. The stack is proved against the plain reading
 of a heading path: own heading, nearest earlier heading of smaller level, and so on.
 */
module MarkdownSections {
  import opened Collections
  import opened Runes
  import opened MarkdownLines
  import Tokens

  // ----- Boundaries -----

  /** A line is promoted to a setext heading by the underline that follows it. */
  predicate IsSetext(ks: seq<LineKind>, i: nat) {
    i + 1 < |ks| && ks[i].Text? && ks[i + 1].SetextUnderline?
  }

  predicate IsHeading(ks: seq<LineKind>, i: nat) {
    i < |ks| && (ks[i].HeadingATX? || IsSetext(ks, i))
  }

  /** The section starts among the first `n` lines: line 0 and every heading. */
  function Boundaries(ks: seq<LineKind>, n: nat): (bs: seq<nat>)
    requires n <= |ks|
    ensures forall i: nat :: i in bs <==> i < n && (i == 0 || IsHeading(ks, i))
    ensures forall k :: 0 <= k < |bs| ==> bs[k] < n
    ensures forall k, l :: 0 <= k < l < |bs| ==> bs[k] < bs[l]
    ensures n > 0 ==> |bs| > 0 && bs[0] == 0
  {
    if n == 0 then []
    else if n == 1 || IsHeading(ks, n - 1) then Boundaries(ks, n - 1) + [n - 1]
    else Boundaries(ks, n - 1)
  }

  method SectionBoundaries(lines: seq<ScannedLine>) returns (out: seq<nat>)
    ensures out == Boundaries(KindsOf(lines), |lines|)
  {
    out := [];
    if |lines| == 0 {
      return;
    }
    out := [0];
    var ks := KindsOf(lines);
    for i := 1 to |lines|
      invariant out == Boundaries(ks, i)
    {
      if lines[i].kind.HeadingATX? {
        out := out + [i];
      } else if lines[i].kind.Text? && i + 1 < |lines| && lines[i + 1].kind.SetextUnderline? {
        out := out + [i];
      }
    }
  }

  function KindsOf(lines: seq<ScannedLine>): (r: seq<LineKind>)
    ensures |r| == |lines| && forall i :: 0 <= i < |lines| ==> r[i] == lines[i].kind
  {
    seq(|lines|, i requires 0 <= i < |lines| => lines[i].kind)
  }

  // ----- Headings -----

  datatype Heading = Heading(level: nat, text: Bytes)

  function LeadingFromEnd(s: Bytes, c: byte): (n: nat)
    ensures n <= |s|
  {
    if s != [] && s[|s| - 1] == c then 1 + LeadingFromEnd(s[..|s| - 1], c) else 0
  }

  /** The text of an ATX line: without the opening hashes and without a closing run of them. */
  function HeadingText(body: Bytes): Bytes {
    var t := TrimLeft(body);
    var rest := TrimRight(TrimLeft(t[Leading(t, HASH)..]));
    var k := |rest| - LeadingFromEnd(rest, HASH);
    if k == 0 then []
    else if k < |rest| && IsBlankByte(rest[k - 1]) then TrimRight(rest[..k])
    else rest
  }

  /** White space as Go's unicode package has it. */
  predicate IsSpaceRune(r: Rune) {
    || 9 <= r <= 13 || r == 0x20 || r == 0x85 || r == 0xA0
    || r == 0x1680 || 0x2000 <= r <= 0x200A || r == 0x2028 || r == 0x2029 || r == 0x202F || r == 0x205F || r == 0x3000
  }

  function TrimSpaceLeft(s: Bytes): Bytes
    decreases |s|
  {
    if s != [] && IsSpaceRune(First(s)) then TrimSpaceLeft(s[Size(s)..]) else s
  }

  /** The last `n` bytes encode one white-space rune; none takes more than three. */
  predicate SpaceTail(s: Bytes, n: nat) {
    1 <= n <= |s| && Size(s[|s| - n..]) == n && IsSpaceRune(First(s[|s| - n..]))
  }

  function TrimSpaceRight(s: Bytes): Bytes
    decreases |s|
  {
    if SpaceTail(s, 1) then TrimSpaceRight(s[..|s| - 1])
    else if SpaceTail(s, 2) then TrimSpaceRight(s[..|s| - 2])
    else if SpaceTail(s, 3) then TrimSpaceRight(s[..|s| - 3])
    else s
  }

  function SetextLevel(underline: Bytes): nat {
    var t := TrimRight(TrimLeft(StripTrailingNewline(underline)));
    if t != [] && t[0] == EQUALS then 1 else 2
  }

  /** What mdResolveHeading makes of line `i`. */
  function HeadingAt(ls: seq<Bytes>, ks: seq<LineKind>, i: nat): Option<Heading>
    requires |ls| == |ks|
  {
    if i >= |ls| then None
    else
      var body := StripTrailingNewline(ls[i]);
      if ks[i].HeadingATX? then Some(Heading(Leading(TrimLeft(body), HASH), HeadingText(body)))
      else if IsSetext(ks, i) then Some(Heading(SetextLevel(ls[i + 1]), TrimSpaceRight(TrimSpaceLeft(body))))
      else None
  }

  // ----- Heading paths, read off the headings alone -----

  type Headings = seq<Option<Heading>>

  /** The nearest heading before section `n` whose level is below `level`. */
  function NearestBelow(hs: Headings, n: nat, level: nat): (r: Option<nat>)
    requires n <= |hs|
    ensures r.Some? ==>
      && r.value < n && hs[r.value].Some? && hs[r.value].value.level < level
      && forall j :: r.value < j < n && hs[j].Some? ==> hs[j].value.level >= level
    ensures r.None? ==> forall j :: 0 <= j < n && hs[j].Some? ==> hs[j].value.level >= level
  {
    if n == 0 then None
    else if hs[n - 1].Some? && hs[n - 1].value.level < level then Some(n - 1)
    else NearestBelow(hs, n - 1, level)
  }

  /** Section `k`'s heading preceded by the chain of nearest headings of smaller and smaller level. */
  function Enclosing(hs: Headings, k: nat): (r: seq<Heading>)
    requires k < |hs| && hs[k].Some?
    ensures r != [] && r[|r| - 1] == hs[k].value
  {
    EnclosingOpt(hs, NearestBelow(hs, k, hs[k].value.level)) + [hs[k].value]
  }

  function EnclosingOpt(hs: Headings, k: Option<nat>): seq<Heading>
    requires k.Some? ==> k.value < |hs| && hs[k.value].Some?
    decreases if k.Some? then k.value + 1 else 0
  {
    if k.None? then []
    else EnclosingOpt(hs, NearestBelow(hs, k.value, hs[k.value].value.level)) + [hs[k.value].value]
  }

  function Texts(hs: seq<Heading>): (r: seq<Bytes>)
    ensures |r| == |hs| && forall i :: 0 <= i < |hs| ==> r[i] == hs[i].text
  {
    seq(|hs|, i requires 0 <= i < |hs| => hs[i].text)
  }

  lemma {:induction false} EnclosingLevels(hs: Headings, k: Option<nat>)
    requires k.Some? ==> k.value < |hs| && hs[k.value].Some?
    requires forall j :: 0 <= j < |hs| && hs[j].Some? ==> 1 <= hs[j].value.level <= 6
    ensures var r := EnclosingOpt(hs, k);
      && (forall i, j :: 0 <= i < j < |r| ==> r[i].level < r[j].level)
      && (forall i :: 0 <= i < |r| ==> 1 <= r[i].level <= 6 && r[i].level >= i + 1)
      && |r| <= 6
    decreases if k.Some? then k.value + 1 else 0
  {
    if k.Some? {
      var p := NearestBelow(hs, k.value, hs[k.value].value.level);
      EnclosingLevels(hs, p);
      var r, init := EnclosingOpt(hs, k), EnclosingOpt(hs, p);
      if p.Some? { assert init[|init| - 1] == hs[p.value].value; }
      assert r[|r| - 1] == hs[k.value].value;
      assert |init| > 0 ==> init[|init| - 1].level < r[|r| - 1].level;
    }
  }

  // ----- Sections -----

  datatype Section = Section(path: seq<Bytes>, level: nat, startLine: nat, endLine: nat, tokens: nat)

  function HeadingsOf(ls: seq<Bytes>): (hs: Headings)
    ensures |hs| == |Starts(ls)|
    ensures forall k :: 0 <= k < |hs| ==> hs[k] == HeadingAt(ls, Kinds(ls), Starts(ls)[k])
  {
    seq(|Starts(ls)|, k requires 0 <= k < |Starts(ls)| => HeadingAt(ls, Kinds(ls), Starts(ls)[k]))
  }

  function Starts(ls: seq<Bytes>): seq<nat> { Boundaries(Kinds(ls), |ls|) }

  /** The line after section `k`'s last: the next boundary, or the end of the file. */
  function EndOf(ls: seq<Bytes>, k: nat): (r: nat)
    requires k < |Starts(ls)|
    ensures Starts(ls)[k] < r <= |ls|
  {
    if k + 1 < |Starts(ls)| then Starts(ls)[k + 1] else |ls|
  }

  function SectionAt(ls: seq<Bytes>, k: nat): Section
    requires k < |Starts(ls)|
  {
    var h := HeadingsOf(ls)[k];
    var text := Join(ls[Starts(ls)[k]..EndOf(ls, k)]);
    Section(if h.Some? then Texts(Enclosing(HeadingsOf(ls), k)) else [],
            if h.Some? then h.value.level else 0,
            Starts(ls)[k] + 1,
            EndOf(ls, k),
            Tokens.Estimate(Decode(text)))
  }

  function Sections(ls: seq<Bytes>): (r: seq<Section>)
    ensures |r| == |Starts(ls)| && forall k :: 0 <= k < |r| ==> r[k] == SectionAt(ls, k)
  {
    seq(|Starts(ls)|, k requires 0 <= k < |Starts(ls)| => SectionAt(ls, k))
  }

  // ----- The heading stack -----

  /** The stack is the enclosing chain of the section on top of it. */
  ghost predicate StackIs(stack: seq<Heading>, hs: Headings, top: Option<nat>) {
    && (top.Some? ==> top.value < |hs| && hs[top.value].Some?)
    && stack == EnclosingOpt(hs, top)
  }

  /** Whoever looks below `level` from `n` finds the same heading as from just past `top`. */
  ghost predicate SameBelow(hs: Headings, n: nat, level: nat, top: Option<nat>) {
    && n <= |hs|
    && (top.Some? ==> top.value < n)
    && NearestBelow(hs, n, level) == if top.Some? then NearestBelow(hs, top.value + 1, level) else None
  }

  lemma {:induction false} SkipHigher(hs: Headings, n: nat, high: nat, level: nat)
    requires n <= |hs| && level <= high
    ensures SameBelow(hs, n, level, NearestBelow(hs, n, high))
  {
    if n > 0 && !(hs[n - 1].Some? && hs[n - 1].value.level < high) {
      SkipHigher(hs, n - 1, high, level);
    }
  }

  /** Popping: what is dropped is at or above the new heading's level, so nothing it hides is lost. */
  lemma PopKeepsBelow(hs: Headings, n: nat, level: nat, top: nat)
    requires SameBelow(hs, n, level, Some(top)) && top < |hs| && hs[top].Some? && hs[top].value.level >= level
    ensures SameBelow(hs, n, level, NearestBelow(hs, top, hs[top].value.level))
  {
    SkipHigher(hs, top, hs[top].value.level, level);
  }

  /** The loop that pops the stack for a heading of `level` at section `k`. */
  method PopTo(stack: seq<Heading>, level: nat, ghost hs: Headings, ghost k: nat, ghost top: Option<nat>)
    returns (stack': seq<Heading>)
    requires k <= |hs| && StackIs(stack, hs, top) && SameBelow(hs, k, level, top)
    ensures StackIs(stack', hs, NearestBelow(hs, k, level))
  {
    stack' := stack;
    ghost var top' := top;
    while |stack'| > 0 && stack'[|stack'| - 1].level >= level
      invariant StackIs(stack', hs, top') && SameBelow(hs, k, level, top')
    {
      PopKeepsBelow(hs, k, level, top'.value);
      top' := NearestBelow(hs, top'.value, hs[top'.value].value.level);
      stack' := stack'[..|stack'| - 1];
    }
  }

  /** The last headed section before `k`. */
  function LastHeaded(hs: Headings, k: nat): (r: Option<nat>)
    requires k <= |hs|
    ensures r.Some? ==> r.value < k && hs[r.value].Some? && forall j :: r.value < j < k ==> hs[j].None?
    ensures r.None? ==> forall j :: 0 <= j < k ==> hs[j].None?
  {
    if k == 0 then None else if hs[k - 1].Some? then Some(k - 1) else LastHeaded(hs, k - 1)
  }

  lemma {:induction false} BelowFromLast(hs: Headings, k: nat, level: nat)
    requires k <= |hs|
    ensures SameBelow(hs, k, level, LastHeaded(hs, k))
  {
    if k > 0 && hs[k - 1].None? { BelowFromLast(hs, k - 1, level); }
  }

  /** mdResolveHeading on a scanned line, reading the source again. */
  method ResolveHeading(source: Bytes, lines: seq<ScannedLine>, b: nat) returns (h: Option<Heading>)
    requires Scans(lines, source) && b < |lines|
    ensures h == HeadingAt(Lines(source), Kinds(Lines(source)), b)
  {
    hide KindAt, FenceOf, ContentKind, Lines, Join;
    var ln := lines[b];
    assert Names(ln, source, Lines(source), b);
    if ln.kind.HeadingATX? {
      var body := StripTrailingNewline(source[ln.start..ln.end]);
      var trimmed := TrimLeft(body);
      var lvl := 0;
      while lvl < |trimmed| && trimmed[lvl] == HASH
        invariant lvl <= Leading(trimmed, HASH)
      {
        lvl := lvl + 1;
      }
      assert lvl == Leading(trimmed, HASH);
      return Some(Heading(lvl, HeadingText(body)));
    }
    if b + 1 < |lines| {
      assert Names(lines[b + 1], source, Lines(source), b + 1);
    }
    if ln.kind.Text? && b + 1 < |lines| && lines[b + 1].kind.SetextUnderline? {
      var body := StripTrailingNewline(source[ln.start..ln.end]);
      var underline := source[lines[b + 1].start..lines[b + 1].end];
      return Some(Heading(SetextLevel(underline), TrimSpaceRight(TrimSpaceLeft(body))));
    }
    return None;
  }

  /** The loop body: section `k` and the stack after it. */
  method ParseSection(source: Bytes, lines: seq<ScannedLine>, boundaries: seq<nat>, k: nat, stack: seq<Heading>)
    returns (section: Section, stack': seq<Heading>)
    requires Scans(lines, source) && boundaries == Starts(Lines(source)) && k < |boundaries|
    requires StackIs(stack, HeadingsOf(Lines(source)), LastHeaded(HeadingsOf(Lines(source)), k))
    ensures section == SectionAt(Lines(source), k)
    ensures StackIs(stack', HeadingsOf(Lines(source)), LastHeaded(HeadingsOf(Lines(source)), k + 1))
  {
    hide KindAt, Lines, Join, HeadingAt, Decode, Boundaries, Tokens.Estimate;
    ghost var ls, hs := Lines(source), HeadingsOf(Lines(source));
    var b := boundaries[k];
    var endIdx := |lines|;
    if k + 1 < |boundaries| {
      endIdx := boundaries[k + 1];
    }
    assert endIdx == EndOf(ls, k);
    SectionText(lines, source, b, endIdx);
    var sectionText := source[lines[b].start..lines[endIdx - 1].end];
    var h := ResolveHeading(source, lines, b);
    assert h == hs[k];
    stack' := stack;
    var path: seq<Bytes> := [];
    var level := 0;
    if h.Some? {
      level := h.value.level;
      BelowFromLast(hs, k, level);
      stack' := PopTo(stack', level, hs, k, LastHeaded(hs, k));
      stack' := stack' + [h.value];
      path := Texts(stack');
    }
    var tokens := Tokens.ApproxTokens(Decode(sectionText));
    section := Section(path, level, b + 1, endIdx, tokens);
  }

  /** parseMdSections: every section, with its heading path read off the stack. */
  method ParseMdSections(source: Bytes) returns (out: seq<Section>)
    ensures out == Sections(Lines(source))
  {
    hide *;
    var lines := ScanMdLines(source);
    ghost var ls := Lines(source);
    KindsScanned(lines, source);
    var boundaries := SectionBoundaries(lines);
    StartsAre(ls, boundaries);
    EmptyStack(HeadingsOf(ls));
    out := [];
    var stack: seq<Heading> := [];
    for k := 0 to |boundaries|
      invariant out == Sections(ls)[..k]
      invariant StackIs(stack, HeadingsOf(ls), LastHeaded(HeadingsOf(ls), k))
    {
      var section;
      section, stack := ParseSection(source, lines, boundaries, k, stack);
      out := out + [section];
      SectionsUpTo(ls, k);
    }
  }

  lemma StartsAre(ls: seq<Bytes>, bs: seq<nat>)
    requires bs == Boundaries(Kinds(ls), |ls|)
    ensures bs == Starts(ls) && |HeadingsOf(ls)| == |bs| && Sections(ls)[..|bs|] == Sections(ls)
  {
  }

  lemma EmptyStack(hs: Headings)
    ensures StackIs([], hs, LastHeaded(hs, 0))
  {
  }

  lemma SectionsUpTo(ls: seq<Bytes>, k: nat)
    requires k < |Starts(ls)|
    ensures Sections(ls)[..k + 1] == Sections(ls)[..k] + [SectionAt(ls, k)]
  {
    hide SectionAt, Starts;
  }

  lemma KindsScanned(lines: seq<ScannedLine>, source: Bytes)
    requires Scans(lines, source)
    ensures KindsOf(lines) == Kinds(Lines(source)) && |lines| == |Lines(source)|
  {
    hide KindAt;
    forall i | 0 <= i < |lines| ensures KindsOf(lines)[i] == Kinds(Lines(source))[i] {
      assert Names(lines[i], source, Lines(source), i);
    }
  }

  lemma JoinSlice(ls: seq<Bytes>, b: nat, e: nat)
    requires b <= e <= |ls|
    ensures |Join(ls[..b])| <= |Join(ls[..e])| <= |Join(ls)|
    ensures Join(ls)[|Join(ls[..b])|..|Join(ls[..e])|] == Join(ls[b..e])
  {
    var pre, mid, post := ls[..b], ls[b..e], ls[e..];
    assert ls[..e] == pre + mid && ls == ls[..e] + post;
    JoinConcat(pre, mid);
    JoinConcat(ls[..e], post);
    assert Join(ls) == Join(pre) + Join(mid) + Join(post);
  }

  /** The bytes from one scanned line's start to a later one's end are the lines between. */
  lemma SectionText(lines: seq<ScannedLine>, source: Bytes, b: nat, e: nat)
    requires Scans(lines, source) && b < e <= |lines|
    ensures lines[b].start <= lines[e - 1].end <= |source|
    ensures source[lines[b].start..lines[e - 1].end] == Join(Lines(source)[b..e])
  {
    hide KindAt, Lines, Join;
    LinesWellFormed(source);
    assert Names(lines[b], source, Lines(source), b) && Names(lines[e - 1], source, Lines(source), e - 1);
    JoinSlice(Lines(source), b, e);
  }
}
