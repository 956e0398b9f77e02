/**
 The line scanner of engine/markdown.go: how a markdown file falls into lines and
 what each line is, as a fold over the lines before it.
 */
module MarkdownLines {
  import opened Collections
  import opened Runes

  type Bytes = seq<byte>

  const NL: byte := 10
  const CR: byte := 13
  const TAB: byte := 9
  const SPACE: byte := 32
  const HASH: byte := 35        // #
  const RPAREN: byte := 41      // )
  const STAR: byte := 42        // *
  const PLUS: byte := 43        // +
  const DASH: byte := 45        // -
  const DOT: byte := 46         // .
  const COLON: byte := 58       // :
  const EQUALS: byte := 61      // =
  const BACKTICK: byte := 96    // `
  const PIPE: byte := 124       // |
  const TILDE: byte := 126      // ~

  // ----- Lines -----

  /** Length of the first line of `s`, its newline included. */
  function LineEnd(s: Bytes): (n: nat)
    requires s != []
    ensures 1 <= n <= |s|
    ensures forall i :: 0 <= i < n - 1 ==> s[i] != NL
    ensures n < |s| ==> s[n - 1] == NL
  {
    if s[0] == NL || |s| == 1 then 1 else 1 + LineEnd(s[1..])
  }

  function Lines(s: Bytes): seq<Bytes> {
    if s == [] then [] else [s[..LineEnd(s)]] + Lines(s[LineEnd(s)..])
  }

  function Join(ls: seq<Bytes>): Bytes {
    if ls == [] then [] else ls[0] + Join(ls[1..])
  }

  /** A newline ends a line and occurs nowhere else; only the last line may lack one. */
  ghost predicate WellFormedLine(l: Bytes, last: bool) {
    && l != []
    && (forall i :: 0 <= i < |l| - 1 ==> l[i] != NL)
    && (!last ==> l[|l| - 1] == NL)
  }

  ghost predicate WellFormed(ls: seq<Bytes>) {
    forall i :: 0 <= i < |ls| ==> WellFormedLine(ls[i], i == |ls| - 1)
  }

  lemma LinesStep(s: Bytes)
    ensures Lines(s) == [] <==> s == []
    ensures s != [] ==> Lines(s) == [s[..LineEnd(s)]] + Lines(s[LineEnd(s)..])
  {
  }

  lemma {:induction false} LinesWellFormed(s: Bytes)
    ensures WellFormed(Lines(s)) && Join(Lines(s)) == s
  {
    if s != [] {
      hide Lines, Join, WellFormed, WellFormedLine, LineEnd;
      var n := LineEnd(s);
      var line, rest := s[..n], s[n..];
      LinesWellFormed(rest);
      FirstLineWellFormed(s);
      LinesStep(s);
      LinesStep(rest);
      PrependWellFormed(line, Lines(rest));
      JoinCons(line, Lines(rest));
      CutAt(s, n);
    }
  }

  lemma CutAt(s: Bytes, n: nat)
    requires n <= |s|
    ensures s[..n] + s[n..] == s
  {
  }

  lemma FirstLineWellFormed(s: Bytes)
    requires s != []
    ensures WellFormedLine(s[..LineEnd(s)], s[LineEnd(s)..] == [])
  {
  }

  lemma PrependWellFormed(line: Bytes, ls: seq<Bytes>)
    requires WellFormed(ls) && WellFormedLine(line, ls == [])
    ensures WellFormed([line] + ls)
  {
    var all := [line] + ls;
    forall i | 0 <= i < |all| ensures WellFormedLine(all[i], i == |all| - 1) {
      if i > 0 { assert WellFormedLine(ls[i - 1], i - 1 == |ls| - 1); }
    }
  }

  lemma {:induction false} LineEndOfJoin(l: Bytes, rest: Bytes)
    requires WellFormedLine(l, rest == [])
    ensures LineEnd(l + rest) == |l|
  {
    var s := l + rest;
    var n := LineEnd(s);
    assert forall i :: 0 <= i < |l| ==> s[i] == l[i];
    assert n >= |l|;
    assert rest != [] ==> s[|l| - 1] == NL;
  }

  /** Well-formed lines are recovered from the text they make up. */
  lemma {:induction false} LinesOfJoin(ls: seq<Bytes>)
    requires WellFormed(ls)
    ensures Lines(Join(ls)) == ls
  {
    if ls != [] {
      var l, rest := ls[0], Join(ls[1..]);
      assert WellFormedLine(ls[0], |ls| == 1);
      assert WellFormed(ls[1..]) by { TailWellFormed(ls); }
      hide Lines, WellFormed, WellFormedLine;
      LinesOfJoin(ls[1..]);
      JoinEmpty(ls[1..]);
      LineEndOfJoin(l, rest);
      LinesStep(l + rest);
      assert (l + rest)[..|l|] == l && (l + rest)[|l|..] == rest;
    }
  }

  lemma TailWellFormed(ls: seq<Bytes>)
    requires WellFormed(ls) && ls != []
    ensures WellFormed(ls[1..])
  {
    forall i | 0 <= i < |ls| - 1 ensures WellFormedLine(ls[1..][i], i == |ls| - 2) {
      assert WellFormedLine(ls[i + 1], i + 1 == |ls| - 1);
    }
  }

  lemma {:induction false} JoinEmpty(ls: seq<Bytes>)
    requires WellFormed(ls)
    ensures Join(ls) == [] <==> ls == []
  {
    if ls != [] { assert WellFormedLine(ls[0], |ls| == 1); }
  }

  lemma {:induction false} JoinConcat(a: seq<Bytes>, b: seq<Bytes>)
    ensures Join(a + b) == Join(a) + Join(b)
  {
    if a == [] {
      assert a + b == b;
    } else {
      hide Join;
      JoinConcat(a[1..], b);
      assert a == [a[0]] + a[1..];
      ConsConcat(a[0], a[1..], b);
      JoinCons(a[0], a[1..] + b);
      JoinCons(a[0], a[1..]);
      ConcatAssociative(a[0], Join(a[1..]), Join(b));
    }
  }

  lemma ConsConcat(l: Bytes, rest: seq<Bytes>, b: seq<Bytes>)
    ensures ([l] + rest) + b == [l] + (rest + b)
  {
  }

  lemma JoinCons(l: Bytes, rest: seq<Bytes>)
    ensures Join([l] + rest) == l + Join(rest)
  {
    assert ([l] + rest)[1..] == rest;
  }

  // ----- Classifying one line -----

  datatype LineKind =
    | Text | Blank | HeadingATX | SetextUnderline | CodeFence | CodeInside
    | FrontmatterDelim | FrontmatterInside | TableSep | TableRow | List

  function StripTrailingNewline(l: Bytes): Bytes {
    var n := |l|;
    if n > 0 && l[n - 1] == NL then
      if n >= 2 && l[n - 2] == CR then l[..n - 2] else l[..n - 1]
    else l
  }

  predicate IsBlankByte(b: byte) { b == SPACE || b == TAB }

  function TrimLeft(s: Bytes): (r: Bytes)
    ensures r != [] ==> !IsBlankByte(r[0])
  {
    if s != [] && IsBlankByte(s[0]) then TrimLeft(s[1..]) else s
  }

  function TrimRight(s: Bytes): (r: Bytes)
    ensures r != [] ==> !IsBlankByte(r[|r| - 1])
    ensures r <= s
  {
    if s != [] && IsBlankByte(s[|s| - 1]) then TrimRight(s[..|s| - 1]) else s
  }

  /** How many bytes `s` begins with that equal `c`. */
  function Leading(s: Bytes, c: byte): (n: nat)
    ensures n <= |s|
    ensures forall i :: 0 <= i < n ==> s[i] == c
    ensures n < |s| ==> s[n] != c
  {
    if s != [] && s[0] == c then 1 + Leading(s[1..], c) else 0
  }

  predicate IsAllSameNonEmpty(s: Bytes, c: byte) {
    var t := TrimRight(s);
    t != [] && forall i :: 0 <= i < |t| ==> t[i] == c
  }

  predicate IsTableRow(t: Bytes) {
    |t| >= 2 && t[0] == PIPE && PIPE in t[1..]
  }

  predicate IsTableSeparator(t: Bytes) {
    && DASH in t && PIPE in t
    && forall b :: b in t ==> b == PIPE || b == DASH || b == COLON || IsBlankByte(b)
  }

  predicate IsDigit(b: byte) { 48 <= b <= 57 }

  /** Leading digits, at most `limit` of them. */
  function Digits(s: Bytes, limit: nat): (n: nat)
    ensures n <= |s|
  {
    if s != [] && limit > 0 && IsDigit(s[0]) then 1 + Digits(s[1..], limit - 1) else 0
  }

  predicate IsListMarker(t: Bytes) {
    t != [] &&
    if t[0] == DASH || t[0] == STAR || t[0] == PLUS then |t| >= 2 && IsBlankByte(t[1])
    else
      var i := Digits(t, 9);
      && i > 0
      && i + 1 < |t| && (t[i] == DOT || t[i] == RPAREN) && IsBlankByte(t[i + 1])
  }

  /** An ATX heading: one to six hashes, then a blank or the end of the line. */
  predicate IsATX(t: Bytes) {
    var n := Leading(t, HASH);
    1 <= n <= 6 && (n == |t| || IsBlankByte(t[n]))
  }

  function ContentKind(body: Bytes): LineKind {
    var t := TrimLeft(body);
    if t == [] then Blank
    else if IsATX(t) then HeadingATX
    else if (t[0] == EQUALS || t[0] == DASH) && IsAllSameNonEmpty(t, t[0]) then SetextUnderline
    else if IsTableSeparator(t) then TableSep
    else if IsTableRow(t) then TableRow
    else if IsListMarker(t) then List
    else Text
  }

  datatype Fence = NoFence | Fence(mark: byte, len: nat)

  function UpTo3Spaces(body: Bytes): (n: nat)
    ensures n <= 3 && n <= |body|
    ensures forall i :: 0 <= i < n ==> body[i] == SPACE
    ensures n < 3 && n < |body| ==> body[n] != SPACE
  {
    var n := Leading(body, SPACE);
    if n < 3 then n else 3
  }

  /** A run of at least three backticks or tildes, at most three spaces in; what follows it does not matter. */
  function FenceOf(body: Bytes): Fence {
    var rest := body[UpTo3Spaces(body)..];
    if rest == [] || (rest[0] != BACKTICK && rest[0] != TILDE) then NoFence
    else if Leading(rest, rest[0]) < 3 then NoFence
    else Fence(rest[0], Leading(rest, rest[0]))
  }

  predicate IsFrontmatterOpen(body: Bytes) {
    var t := TrimRight(body);
    t == [DASH, DASH, DASH] || t == [PLUS, PLUS, PLUS]
  }

  // ----- The scanner's state -----

  datatype Scan = Normal | InFence(mark: byte, len: nat) | InFrontmatter(delim: Bytes)

  /** Whether a line closes the fence opened by `len` of `mark`: same character, at least as long. */
  predicate Closes(body: Bytes, mark: byte, len: nat) {
    FenceOf(body).Fence? && FenceOf(body).mark == mark && FenceOf(body).len >= len
  }

  /** One line: the state after it and the kind it is given. */
  function Step(st: Scan, first: bool, body: Bytes): (Scan, LineKind) {
    match st
    case InFrontmatter(delim) =>
      if TrimRight(body) == delim then (Normal, FrontmatterDelim) else (st, FrontmatterInside)
    case InFence(c, n) =>
      if Closes(body, c, n) then (Normal, CodeFence) else (st, CodeInside)
    case Normal =>
      if first && IsFrontmatterOpen(body) then (InFrontmatter(TrimRight(body)), FrontmatterDelim)
      else match FenceOf(body)
           case Fence(c, n) => (InFence(c, n), CodeFence)
           case NoFence => (Normal, ContentKind(body))
  }

  /** The state before line `i`: the fold of `Step` over the lines before it. */
  function StateBefore(ls: seq<Bytes>, i: nat): Scan
    requires i <= |ls|
  {
    if i == 0 then Normal else Step(StateBefore(ls, i - 1), i == 1, StripTrailingNewline(ls[i - 1])).0
  }

  function KindAt(ls: seq<Bytes>, i: nat): LineKind
    requires i < |ls|
  {
    Step(StateBefore(ls, i), i == 0, StripTrailingNewline(ls[i])).1
  }

  function Kinds(ls: seq<Bytes>): (r: seq<LineKind>)
    ensures |r| == |ls| && forall i :: 0 <= i < |ls| ==> r[i] == KindAt(ls, i)
  {
    seq(|ls|, i requires 0 <= i < |ls| => KindAt(ls, i))
  }

  // ----- The scanner's loops -----

  method DetectCodeFence(body: Bytes) returns (mark: byte, len: nat)
    ensures FenceOf(body) == if mark == 0 then NoFence else Fence(mark, len)
  {
    var i := 0;
    while i < |body| && i < 3 && body[i] == SPACE
      invariant i <= UpTo3Spaces(body)
    {
      i := i + 1;
    }
    assert i == UpTo3Spaces(body);
    if i >= |body| {
      return 0, 0;
    }
    var c := body[i];
    if c != BACKTICK && c != TILDE {
      return 0, 0;
    }
    ghost var rest := body[i..];
    var runLen := 0;
    while i < |body| && body[i] == c
      invariant runLen <= Leading(rest, c)
      invariant i == |body| - |rest| + runLen
    {
      i := i + 1;
      runLen := runLen + 1;
    }
    assert runLen == Leading(rest, c);
    if runLen < 3 {
      return 0, 0;
    }
    return c, runLen;
  }

  method ClassifyContentLine(body: Bytes) returns (kind: LineKind)
    ensures kind == ContentKind(body)
  {
    var t := TrimLeft(body);
    if t == [] {
      return Blank;
    }
    if t[0] == HASH {
      var hashCount := 0;
      while hashCount < |t| && hashCount < 7 && t[hashCount] == HASH
        invariant hashCount <= 7 && hashCount <= Leading(t, HASH)
      {
        hashCount := hashCount + 1;
      }
      assert hashCount == Leading(t, HASH) || (hashCount == 7 && Leading(t, HASH) >= 7);
      if 1 <= hashCount <= 6 {
        if hashCount == |t| || IsBlankByte(t[hashCount]) {
          return HeadingATX;
        }
      }
    }
    if (t[0] == EQUALS || t[0] == DASH) && IsAllSameNonEmpty(t, t[0]) {
      return SetextUnderline;
    }
    if IsTableSeparator(t) {
      return TableSep;
    }
    if IsTableRow(t) {
      return TableRow;
    }
    if IsListMarker(t) {
      return List;
    }
    return Text;
  }

  datatype ScannedLine = ScannedLine(kind: LineKind, start: nat, end: nat)

  /** `l` gives the place and the kind of line `i`. */
  ghost predicate Names(l: ScannedLine, source: Bytes, ls: seq<Bytes>, i: nat) {
    && i < |ls|
    && l.start <= l.end <= |source|
    && source[l.start..l.end] == ls[i]
    && l.start == |Join(ls[..i])|
    && l.end == |Join(ls[..i + 1])|
    && l.kind == KindAt(ls, i)
  }

  /** The scanned lines name, in order, exactly the lines of the source and their kinds. */
  ghost predicate Scans(out: seq<ScannedLine>, source: Bytes) {
    && |out| == |Lines(source)|
    && forall i :: 0 <= i < |out| ==> Names(out[i], source, Lines(source), i)
  }

  /** scanMdLines' five state variables, as one state. */
  function StateOf(inFence: bool, fenceChar: byte, fenceLen: nat, inFrontmatter: bool, delim: Bytes): Scan {
    if inFrontmatter then InFrontmatter(delim) else if inFence then InFence(fenceChar, fenceLen) else Normal
  }

  /** The switch in the loop: one line against the five variables. */
  method ScanLine(inFence: bool, fenceChar: byte, fenceLen: nat, inFrontmatter: bool, delim: Bytes,
                  lineIdx: nat, body: Bytes)
    returns (inFence': bool, fenceChar': byte, fenceLen': nat, inFrontmatter': bool, delim': Bytes, kind: LineKind)
    ensures (StateOf(inFence', fenceChar', fenceLen', inFrontmatter', delim'), kind)
         == Step(StateOf(inFence, fenceChar, fenceLen, inFrontmatter, delim), lineIdx == 0, body)
  {
    inFence', fenceChar', fenceLen', inFrontmatter', delim' := inFence, fenceChar, fenceLen, inFrontmatter, delim;
    if inFrontmatter {
      if TrimRight(body) == delim {
        inFrontmatter', inFence' := false, false;
        kind := FrontmatterDelim;
      } else {
        kind := FrontmatterInside;
      }
    } else if inFence {
      var fc, fl := DetectCodeFence(body);
      if fc != 0 && fc == fenceChar && fl >= fenceLen {
        inFence' := false;
        fenceChar', fenceLen' := 0, 0;
        kind := CodeFence;
      } else {
        kind := CodeInside;
      }
    } else if lineIdx == 0 && IsFrontmatterOpen(body) {
      inFrontmatter' := true;
      delim' := TrimRight(body);
      kind := FrontmatterDelim;
    } else {
      var fc, fl := DetectCodeFence(body);
      if fc != 0 {
        inFence' := true;
        fenceChar', fenceLen' := fc, fl;
        kind := CodeFence;
      } else {
        kind := ClassifyContentLine(body);
      }
    }
  }

  method ScanMdLines(source: Bytes) returns (out: seq<ScannedLine>)
    ensures Scans(out, source)
  {
    hide Step, StripTrailingNewline, StateBefore, KindAt, Lines, Join, LineEnd;
    out := [];
    LinesStep(source);
    if |source| == 0 {
      return;
    }
    ghost var ls := Lines(source);
    var inFence, fenceChar, fenceLen := false, 0, 0;
    var inFrontmatter, frontmatterDelim: Bytes := false, [];
    var start, lineIdx := 0, 0;
    ScanStarts(source);
    while start < |source|
      invariant start <= |source| && lineIdx <= |ls| && lineIdx == |out|
      invariant Lines(source[start..]) == ls[lineIdx..] && start == |Join(ls[..lineIdx])|
      invariant StateOf(inFence, fenceChar, fenceLen, inFrontmatter, frontmatterDelim) == StateBefore(ls, lineIdx)
      invariant forall i :: 0 <= i < |out| ==> Names(out[i], source, ls, i)
      decreases |source| - start
    {
      var end := start + LineEnd(source[start..]);
      var body := StripTrailingNewline(source[start..end]);
      LineHere(source, start, ls, lineIdx);
      StateAndKind(ls, lineIdx);
      var kind: LineKind;
      inFence, fenceChar, fenceLen, inFrontmatter, frontmatterDelim, kind :=
        ScanLine(inFence, fenceChar, fenceLen, inFrontmatter, frontmatterDelim, lineIdx, body);
      out := out + [ScannedLine(kind, start, end)];
      start := end;
      lineIdx := lineIdx + 1;
    }
    LinesStep(source[start..]);
  }

  lemma ScanStarts(source: Bytes)
    ensures source[0..] == source && Lines(source)[0..] == Lines(source)
    ensures Join(Lines(source)[..0]) == [] && StateBefore(Lines(source), 0) == Normal
  {
  }

  lemma StateAndKind(ls: seq<Bytes>, i: nat)
    requires i < |ls|
    ensures (StateBefore(ls, i + 1), KindAt(ls, i)) == Step(StateBefore(ls, i), i == 0, StripTrailingNewline(ls[i]))
  {
    hide Step;
  }

  /** The scan position is at line `i`: what comes next is that line. */
  lemma LineHere(source: Bytes, start: nat, ls: seq<Bytes>, i: nat)
    requires start < |source| && i <= |ls| && Lines(source[start..]) == ls[i..] && start == |Join(ls[..i])|
    ensures var end := start + LineEnd(source[start..]);
      && i < |ls| && end <= |source| && source[start..end] == ls[i]
      && Lines(source[end..]) == ls[i + 1..] && end == |Join(ls[..i + 1])|
  {
    hide Lines, Join;
    var rest := source[start..];
    var n := LineEnd(rest);
    LinesStep(rest);
    assert source[start..start + n] == rest[..n];
    assert source[start + n..] == rest[n..];
    assert ls[i..][0] == ls[i] && ls[i..][1..] == ls[i + 1..];
    assert ls[..i + 1] == ls[..i] + [ls[i]];
    JoinConcat(ls[..i], [ls[i]]);
    JoinOne(ls[i]);
  }

  lemma JoinOne(l: Bytes)
    ensures Join([l]) == l
  {
    assert Join([l]) == l + Join([]);
  }

  /** Scanned lines tile the source: each starts where the one before ends, and together they are all of it. */
  lemma ScannedLinesTile(out: seq<ScannedLine>, source: Bytes)
    requires Scans(out, source)
    ensures source != [] ==> out != [] && out[0].start == 0 && out[|out| - 1].end == |source|
    ensures forall i :: 0 <= i < |out| - 1 ==> out[i].end == out[i + 1].start
    ensures forall i :: 0 <= i < |out| ==> WellFormedLine(source[out[i].start..out[i].end], i == |out| - 1)
  {
    hide KindAt;
    var ls := Lines(source);
    LinesWellFormed(source);
    assert ls[..|ls|] == ls && Join(ls[..0]) == [];
    forall i | 0 <= i < |out|
      ensures i < |out| - 1 ==> out[i].end == out[i + 1].start
      ensures WellFormedLine(source[out[i].start..out[i].end], i == |out| - 1)
      ensures i == 0 ==> out[i].start == 0
      ensures i == |out| - 1 ==> out[i].end == |source|
    {
      assert Names(out[i], source, ls, i);
      assert WellFormedLine(ls[i], i == |ls| - 1);
      if i < |out| - 1 { assert Names(out[i + 1], source, ls, i + 1); }
    }
  }

  // ----- What the state tells -----

  /** Only a line met outside fences and front matter is text or a heading. */
  lemma ContentOnlyOutside(ls: seq<Bytes>, i: nat)
    requires i < |ls|
    requires KindAt(ls, i).HeadingATX? || KindAt(ls, i).Text? || KindAt(ls, i).SetextUnderline?
    ensures StateBefore(ls, i).Normal?
    ensures KindAt(ls, i) == ContentKind(StripTrailingNewline(ls[i]))
  {
  }

  /** The state depends on the lines before it only. */
  lemma {:induction false} StateOfPrefix(ls: seq<Bytes>, ls': seq<Bytes>, i: nat)
    requires i <= |ls| && i <= |ls'| && forall t :: 0 <= t < i ==> ls[t] == ls'[t]
    ensures StateBefore(ls, i) == StateBefore(ls', i)
  {
    hide Step;
    if i > 0 { StateOfPrefix(ls, ls', i - 1); }
  }

  /** Lines i..j are the interior of a fence, from inside it on, and none of them closes it. */
  ghost predicate Interior(ls: seq<Bytes>, i: nat, j: nat, mark: byte, len: nat) {
    && i <= j <= |ls|
    && StateBefore(ls, i) == InFence(mark, len)
    && forall t :: i <= t < j ==> !Closes(StripTrailingNewline(ls[t]), mark, len)
  }

  lemma {:induction false} InteriorStaysInside(ls: seq<Bytes>, i: nat, j: nat, mark: byte, len: nat)
    requires Interior(ls, i, j, mark, len)
    ensures StateBefore(ls, j) == InFence(mark, len)
    ensures forall t :: i <= t < j ==> KindAt(ls, t) == CodeInside
  {
    hide Step, Closes;
    if i < j {
      InteriorStaysInside(ls, i, j - 1, mark, len);
      StaysInside(mark, len, j - 1 == 0, StripTrailingNewline(ls[j - 1]));
    }
  }

  lemma StaysInside(mark: byte, len: nat, first: bool, body: Bytes)
    ensures !Closes(body, mark, len) ==> Step(InFence(mark, len), first, body) == (InFence(mark, len), CodeInside)
  {
  }

  ghost predicate DifferOnlyIn(ls: seq<Bytes>, ls': seq<Bytes>, i: nat, j: nat) {
    && |ls| == |ls'| && i <= j <= |ls|
    && forall t :: 0 <= t < |ls| && !(i <= t < j) ==> ls[t] == ls'[t]
  }

  lemma {:induction false} StateAfterInterior(ls: seq<Bytes>, ls': seq<Bytes>, i: nat, j: nat, n: nat)
    requires DifferOnlyIn(ls, ls', i, j) && j <= n <= |ls| && StateBefore(ls, j) == StateBefore(ls', j)
    ensures StateBefore(ls, n) == StateBefore(ls', n)
  {
    hide Step;
    if n > j { StateAfterInterior(ls, ls', i, j, n - 1); }
  }

  /** Swapping the interior of a fence for other lines that do not close it changes no line's kind. */
  lemma InteriorKindsAgree(ls: seq<Bytes>, ls': seq<Bytes>, i: nat, j: nat, mark: byte, len: nat)
    requires DifferOnlyIn(ls, ls', i, j)
    requires Interior(ls, i, j, mark, len)
    requires forall t :: i <= t < j ==> !Closes(StripTrailingNewline(ls'[t]), mark, len)
    ensures Kinds(ls) == Kinds(ls')
    ensures forall t :: i <= t < j ==> Kinds(ls)[t] == CodeInside
  {
    hide Step, Closes;
    StateOfPrefix(ls, ls', i);
    InteriorStaysInside(ls, i, j, mark, len);
    InteriorStaysInside(ls', i, j, mark, len);
    forall t | 0 <= t < |ls| ensures Kinds(ls)[t] == Kinds(ls')[t] {
      if t < i {
        StateOfPrefix(ls, ls', t);
      } else if t >= j {
        StateAfterInterior(ls, ls', i, j, t);
      }
    }
  }
}
