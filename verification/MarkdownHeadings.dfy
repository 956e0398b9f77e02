/**
 What a line of markdown says, spelled out in its bytes (engine/markdown.go): the
 level and text of ATX and setext headings, and where fences open.
 */
module MarkdownHeadings {
  import opened Collections
  import opened Runes
  import opened MarkdownLines
  import opened MarkdownSections

  predicate Blanks(s: Bytes) { forall i :: 0 <= i < |s| ==> s[i] == SPACE || s[i] == TAB }

  /** `n` times the same byte. */
  function Run(c: byte, n: nat): (r: Bytes)
    ensures |r| == n && forall i :: 0 <= i < n ==> r[i] == c
  {
    seq(n, _ => c)
  }

  /** The line is `body` with the end it has in a file: none, a newline, or a carriage return and a newline. */
  predicate Ended(line: Bytes, body: Bytes) {
    && (line == body || line == body + [NL] || line == body + [CR, NL])
    && (body != [] ==> body[|body| - 1] != CR && body[|body| - 1] != NL)
  }

  lemma StripEnded(line: Bytes, body: Bytes)
    requires Ended(line, body)
    ensures StripTrailingNewline(line) == body
  {
  }

  // ----- Trimming -----

  lemma {:induction false} TrimLeftBlanks(pre: Bytes, t: Bytes)
    requires Blanks(pre) && (t != [] ==> !IsBlankByte(t[0]))
    ensures TrimLeft(pre + t) == t
  {
    if pre == [] {
      assert pre + t == t;
    } else {
      assert (pre + t)[1..] == pre[1..] + t;
      TrimLeftBlanks(pre[1..], t);
    }
  }

  lemma {:induction false} TrimRightBlanks(t: Bytes, post: Bytes)
    requires Blanks(post) && (t != [] ==> !IsBlankByte(t[|t| - 1]))
    ensures TrimRight(t + post) == t
  {
    if post == [] {
      assert t + post == t;
    } else {
      var n := |post| - 1;
      assert (t + post)[..|t| + n] == t + post[..n];
      assert (t + post)[|t| + n] == post[n] && post[n] in post;
      TrimRightBlanks(t, post[..n]);
    }
  }

  lemma {:induction false} LeadingOfRun(c: byte, n: nat, rest: Bytes)
    requires rest != [] ==> rest[0] != c
    ensures Leading(Run(c, n) + rest, c) == n
  {
    if n > 0 {
      assert (Run(c, n) + rest)[1..] == Run(c, n - 1) + rest;
      LeadingOfRun(c, n - 1, rest);
    } else {
      assert Run(c, 0) + rest == rest;
    }
  }

  lemma {:induction false} LeadingFromEndOfRun(t: Bytes, c: byte, n: nat)
    requires t != [] ==> t[|t| - 1] != c
    ensures LeadingFromEnd(t + Run(c, n), c) == n
  {
    if n > 0 {
      var s := t + Run(c, n);
      assert s[..|s| - 1] == t + Run(c, n - 1);
      LeadingFromEndOfRun(t, c, n - 1);
    } else {
      assert t + Run(c, 0) == t;
    }
  }

  lemma {:induction false} LeadingFromEndIs(s: Bytes, c: byte)
    ensures forall i :: |s| - LeadingFromEnd(s, c) <= i < |s| ==> s[i] == c
  {
    if s != [] && s[|s| - 1] == c { LeadingFromEndIs(s[..|s| - 1], c); }
  }

  // ----- ATX headings -----

  /** Text as it stands in a heading: not empty, and no blank at either end. */
  predicate Proper(t: Bytes) {
    t != [] && !IsBlankByte(t[0]) && !IsBlankByte(t[|t| - 1])
  }

  /** `t` is hashes from some place on, at its start or after a blank. */
  ghost predicate ClosingRun(t: Bytes) {
    exists k :: HashesFrom(t, k)
  }

  predicate HashesFrom(t: Bytes, k: int) {
    0 <= k < |t| && (forall i :: k <= i < |t| ==> t[i] == HASH) && (k == 0 || t[k - 1] == SPACE || t[k - 1] == TAB)
  }

  /**
   What follows the opening hashes reads as `text`: blanks and nothing else or only
   hashes; or blanks, the text, and blanks; or the same with a closing run of hashes.
   */
  ghost predicate Reads(rest: Bytes, text: Bytes) {
    || (text == [] && Blanks(rest))
    || (text == [] && exists gap, m, post :: IsOnlyHashes(rest, gap, m, post))
    || (exists gap, post :: IsPlain(rest, gap, text, post))
    || (exists gap, gap', m, post :: IsClosed(rest, gap, text, gap', m, post))
  }

  predicate IsOnlyHashes(rest: Bytes, gap: Bytes, m: nat, post: Bytes) {
    Blanks(gap) && gap != [] && Blanks(post) && rest == gap + (Run(HASH, m) + post)
  }

  ghost predicate IsPlain(rest: Bytes, gap: Bytes, t: Bytes, post: Bytes) {
    Blanks(gap) && gap != [] && Blanks(post) && Proper(t) && !ClosingRun(t) && rest == gap + (t + post)
  }

  predicate IsClosed(rest: Bytes, gap: Bytes, t: Bytes, gap': Bytes, m: nat, post: Bytes) {
    && Blanks(gap) && gap != [] && Blanks(gap') && gap' != [] && Blanks(post) && Proper(t) && m > 0
    && rest == gap + ((t + gap' + Run(HASH, m)) + post)
  }

  /** The text of what is left after the opening hashes, once blanks are off both ends. */
  function Closed(rest: Bytes): Bytes {
    var k := |rest| - LeadingFromEnd(rest, HASH);
    if k == 0 then []
    else if k < |rest| && IsBlankByte(rest[k - 1]) then TrimRight(rest[..k])
    else rest
  }

  lemma TextOfTail(pre: Bytes, n: nat, gap: Bytes, t: Bytes, post: Bytes)
    requires Blanks(pre) && n > 0 && Blanks(gap) && Blanks(post)
    requires t != [] ==> gap != [] && Proper(t)
    ensures HeadingText(pre + (Run(HASH, n) + (gap + (t + post)))) == Closed(t)
  {
    hide TrimLeft, TrimRight, Leading, LeadingFromEnd;
    var rest := gap + (t + post);
    var marked := Run(HASH, n) + rest;
    TrimLeftBlanks(pre, marked);
    if rest != [] { FirstIsBlank(gap, t, post); }
    LeadingOfRun(HASH, n, rest);
    assert marked[n..] == rest;
    if t == [] {
      AllBlank(gap, t, post);
      TrimLeftBlanks(rest, []);
      assert rest + [] == rest;
      TrimRightBlanks([], []);
      assert [] + [] == t;
    } else {
      TrimLeftBlanks(gap, t + post);
      TrimRightBlanks(t, post);
    }
  }

  lemma FirstIsBlank(gap: Bytes, t: Bytes, post: Bytes)
    requires Blanks(gap) && Blanks(post) && (t != [] ==> gap != []) && gap + (t + post) != []
    ensures IsBlankByte((gap + (t + post))[0])
  {
    if gap != [] {
      assert gap[0] in gap;
    } else {
      assert gap + (t + post) == post && post[0] in post;
    }
  }

  lemma AllBlank(gap: Bytes, t: Bytes, post: Bytes)
    requires Blanks(gap) && Blanks(post) && t == []
    ensures Blanks(gap + (t + post))
  {
  }

  lemma PlainText(t: Bytes)
    requires Proper(t) && !ClosingRun(t)
    ensures Closed(t) == t
  {
    LeadingFromEndIs(t, HASH);
    assert !HashesFrom(t, |t| - LeadingFromEnd(t, HASH));
  }

  lemma ClosedText(t: Bytes, gap: Bytes, m: nat)
    requires Proper(t) && Blanks(gap) && gap != [] && m > 0
    ensures Proper(t + gap + Run(HASH, m)) && Closed(t + gap + Run(HASH, m)) == t
  {
    hide TrimRight, LeadingFromEnd;
    var rest := t + gap + Run(HASH, m);
    assert gap[|gap| - 1] in gap;
    LeadingFromEndOfRun(t + gap, HASH, m);
    assert rest[..|t| + |gap|] == t + gap;
    TrimRightBlanks(t, gap);
  }

  lemma OnlyHashes(m: nat)
    ensures Closed(Run(HASH, m)) == []
    ensures m > 0 ==> Proper(Run(HASH, m))
  {
    LeadingFromEndOfRun([], HASH, m);
    assert [] + Run(HASH, m) == Run(HASH, m);
  }

  lemma AtxText(pre: Bytes, n: nat, rest: Bytes, text: Bytes)
    requires Blanks(pre) && n > 0 && Reads(rest, text)
    ensures HeadingText(pre + (Run(HASH, n) + rest)) == text
  {
    hide HeadingText, Closed, Proper, ClosingRun, Blanks, Run;
    if text == [] && Blanks(rest) {
      NoBytes();
      assert rest == rest + ([] + []);
      TextOfTail(pre, n, rest, [], []);
      OnlyHashes(0);
    } else if gap, m, post :| text == [] && IsOnlyHashes(rest, gap, m, post) {
      OnlyHashes(m);
      NoBytes();
      TextOfTail(pre, n, gap, Run(HASH, m), post);
    } else if gap, post :| IsPlain(rest, gap, text, post) {
      PlainText(text);
      TextOfTail(pre, n, gap, text, post);
    } else {
      var gap, gap', m, post :| IsClosed(rest, gap, text, gap', m, post);
      ClosedText(text, gap', m);
      TextOfTail(pre, n, gap, text + gap' + Run(HASH, m), post);
    }
  }

  lemma NoBytes()
    ensures Blanks([]) && Run(HASH, 0) == []
  {
  }

  /** What follows the opening hashes begins with a blank, or is nothing. */
  lemma ReadsAfterBlank(rest: Bytes, text: Bytes)
    requires Reads(rest, text)
    ensures rest != [] ==> IsBlankByte(rest[0])
  {
    if Blanks(rest) {
    } else if gap, m, post :| IsOnlyHashes(rest, gap, m, post) {
      assert rest[0] == gap[0];
    } else if gap, post :| IsPlain(rest, gap, text, post) {
      assert rest[0] == gap[0];
    } else {
      var gap, gap', m, post :| IsClosed(rest, gap, text, gap', m, post);
      assert rest[0] == gap[0];
    }
  }

  lemma HashesAreContent(pre: Bytes, n: nat, rest: Bytes)
    requires Blanks(pre) && n > 0
    ensures var body := pre + (Run(HASH, n) + rest); FenceOf(body) == NoFence && !IsFrontmatterOpen(body)
  {
    var body := pre + (Run(HASH, n) + rest);
    var k := UpTo3Spaces(body);
    assert forall i :: 0 <= i < |pre| ==> body[i] == pre[i];
    assert body[|pre|] == HASH;
    assert k <= |pre|;
    assert body[k..][0] == body[k];
    assert body[0] == HASH || body[0] == pre[0];
  }

  /** An ATX line where headings are looked for: its level is the number of hashes, its text what they enclose. */
  lemma AtxHeading(ls: seq<Bytes>, i: nat, pre: Bytes, n: nat, rest: Bytes, text: Bytes)
    requires i < |ls| && StateBefore(ls, i).Normal?
    requires Blanks(pre) && 1 <= n <= 6 && Reads(rest, text) && Ended(ls[i], pre + (Run(HASH, n) + rest))
    ensures HeadingAt(ls, Kinds(ls), i) == Some(Heading(n, text))
  {
    hide HeadingText, Reads, FenceOf, IsFrontmatterOpen, TrimLeft, TrimRight, StateBefore;
    var body, marked := pre + (Run(HASH, n) + rest), Run(HASH, n) + rest;
    StripEnded(ls[i], body);
    HashesAreContent(pre, n, rest);
    ReadsAfterBlank(rest, text);
    TrimLeftBlanks(pre, marked);
    LeadingOfRun(HASH, n, rest);
    AtxText(pre, n, rest, text);
    assert marked[n..] == rest;
    assert IsATX(marked);
  }

  /** Seven hashes open no heading, nor do hashes right before a text. */
  lemma NotAtx(pre: Bytes, n: nat, rest: Bytes)
    requires Blanks(pre) && n > 0 && (rest != [] ==> rest[0] != HASH)
    requires n > 6 || (rest != [] && !IsBlankByte(rest[0]))
    ensures !ContentKind(pre + (Run(HASH, n) + rest)).HeadingATX?
  {
    hide TrimLeft;
    var marked := Run(HASH, n) + rest;
    TrimLeftBlanks(pre, marked);
    LeadingOfRun(HASH, n, rest);
    assert marked[n..] == rest;
  }

  // ----- Setext headings -----

  /** ASCII white space, and the characters that leave a mark. */
  predicate Whites(s: Bytes) { forall i :: 0 <= i < |s| ==> 9 <= s[i] <= 13 || s[i] == SPACE }

  predicate Marked(b: byte) { 33 <= b <= 126 }

  lemma AsciiFirst(s: Bytes)
    requires s != [] && s[0] < 128
    ensures Size(s) == 1 && First(s) == s[0]
  {
  }

  lemma {:induction false} TrimSpaceLeftOf(pre: Bytes, t: Bytes)
    requires Whites(pre) && t != [] && Marked(t[0])
    ensures TrimSpaceLeft(pre + t) == t
  {
    hide Size, First;
    AsciiFirst(pre + t);
    if pre == [] {
      assert pre + t == t;
    } else {
      assert (pre + t)[1..] == pre[1..] + t;
      TrimSpaceLeftOf(pre[1..], t);
    }
  }

  /** An ASCII byte at the end is the last rune by itself. */
  lemma LastAscii(s: Bytes)
    requires s != [] && s[|s| - 1] < 128
    ensures SpaceTail(s, 1) <==> IsSpaceRune(s[|s| - 1])
  {
    hide Size, First, IsSpaceRune;
    assert s[|s| - 1..] == [s[|s| - 1]];
    AsciiFirst([s[|s| - 1]]);
  }

  lemma NoLongTail(s: Bytes, n: nat)
    requires s != [] && s[|s| - 1] < 128 && n > 1
    ensures !SpaceTail(s, n)
  {
    hide Size, First, IsSpaceRune;
    if n <= |s| { LastOfTail(s, n); }
  }

  lemma LastOfTail(s: Bytes, n: nat)
    requires s != [] && s[|s| - 1] < 128 && 1 < n <= |s|
    ensures Size(s[|s| - n..]) != n
  {
    hide Size;
    var tail := s[|s| - n..];
    assert tail[n - 1] == s[|s| - 1];
  }

  lemma {:induction false} TrimSpaceRightOf(t: Bytes, post: Bytes)
    requires Whites(post) && t != [] && Marked(t[|t| - 1])
    ensures TrimSpaceRight(t + post) == t
  {
    hide SpaceTail;
    var s := t + post;
    LastAscii(s);
    NoLongTail(s, 2);
    NoLongTail(s, 3);
    if post == [] {
      assert s == t;
    } else {
      assert s[..|s| - 1] == t + post[..|post| - 1];
      TrimSpaceRightOf(t, post[..|post| - 1]);
    }
  }

  /** A line under a text that holds nothing but `=` or nothing but `-` is an underline, and tells its level. */
  lemma UnderlineSays(pre: Bytes, mark: byte, n: nat, post: Bytes)
    requires Blanks(pre) && Blanks(post) && n > 0 && (mark == EQUALS || mark == DASH)
    ensures var body := pre + (Run(mark, n) + post);
      && FenceOf(body) == NoFence && ContentKind(body) == SetextUnderline
      && TrimRight(TrimLeft(body)) == Run(mark, n)
  {
    hide TrimLeft, TrimRight;
    var body, marks := pre + (Run(mark, n) + post), Run(mark, n) + post;
    TrimLeftBlanks(pre, marks);
    TrimRightBlanks(Run(mark, n), post);
    var k := UpTo3Spaces(body);
    assert forall i :: 0 <= i < |pre| ==> body[i] == pre[i];
    assert body[|pre|] == mark;
    assert k <= |pre| && body[k..][0] == body[k];
    assert marks[0] == mark && Leading(marks, HASH) == 0;
  }

  /**
   A text line over an underline: `=` makes it a heading of level 1, `-` of level 2,
   and its text is the line without the white space around it.
   */
  lemma SetextHeading(ls: seq<Bytes>, i: nat, pre: Bytes, text: Bytes, post: Bytes,
                      pre': Bytes, mark: byte, n: nat, post': Bytes)
    requires i + 1 < |ls| && KindAt(ls, i).Text?
    requires Whites(pre) && Whites(post) && text != [] && Marked(text[0]) && Marked(text[|text| - 1])
    requires Ended(ls[i], pre + (text + post))
    requires Blanks(pre') && Blanks(post') && n > 0 && (mark == EQUALS || mark == DASH)
    requires Ended(ls[i + 1], pre' + (Run(mark, n) + post'))
    ensures HeadingAt(ls, Kinds(ls), i) == Some(Heading(if mark == EQUALS then 1 else 2, text))
  {
    hide TrimSpaceLeft, TrimSpaceRight, TrimLeft, TrimRight, FenceOf, ContentKind, IsFrontmatterOpen;
    StripEnded(ls[i], pre + (text + post));
    StripEnded(ls[i + 1], pre' + (Run(mark, n) + post'));
    assert StateBefore(ls, i + 1).Normal?;
    UnderlineSays(pre', mark, n, post');
    TrimSpaceLeftOf(pre, text + post);
    TrimSpaceRightOf(text, post);
  }

  // ----- Fences, and what is no heading -----

  /** Up to three spaces and three or more marks open a fence, of that length; fewer marks or more spaces do not. */
  lemma FenceOpens(spaces: nat, mark: byte, n: nat, info: Bytes)
    requires (mark == BACKTICK || mark == TILDE) && n > 0 && (info != [] ==> info[0] != mark)
    ensures var body := Run(SPACE, spaces) + (Run(mark, n) + info);
      FenceOf(body) == if spaces <= 3 && n >= 3 then Fence(mark, n) else NoFence
  {
    var marks := Run(mark, n) + info;
    var body := Run(SPACE, spaces) + marks;
    LeadingOfRun(SPACE, spaces, marks);
    LeadingOfRun(mark, n, info);
    if spaces <= 3 {
      assert body[spaces..] == marks;
    } else {
      assert body[3..][0] == SPACE;
    }
  }

  /** The same run closes a fence of its own mark that is no longer than itself. */
  lemma FenceCloses(spaces: nat, mark: byte, n: nat, info: Bytes, open: byte, len: nat)
    requires (mark == BACKTICK || mark == TILDE) && n > 0 && (info != [] ==> info[0] != mark)
    ensures Closes(Run(SPACE, spaces) + (Run(mark, n) + info), open, len)
            <==> spaces <= 3 && n >= 3 && mark == open && n >= len
  {
    FenceOpens(spaces, mark, n, info);
  }

  // ----- Front matter -----

  /** Three dashes or pluses on the first line open front matter, and on no other. */
  lemma FrontMatterOpens(ls: seq<Bytes>, i: nat, mark: byte, n: nat, post: Bytes)
    requires i < |ls| && StateBefore(ls, i).Normal? && (mark == DASH || mark == PLUS) && n > 0
    requires Blanks(post) && Ended(ls[i], Run(mark, n) + post)
    ensures StateBefore(ls, i + 1) == if i == 0 && n == 3 then InFrontmatter([mark, mark, mark]) else Normal
    ensures KindAt(ls, i).FrontmatterDelim? <==> i == 0 && n == 3
  {
    hide TrimRight, ContentKind, FenceOf, IsFrontmatterOpen, Run, StripTrailingNewline;
    StripEnded(ls[i], Run(mark, n) + post);
    OpensIff(mark, n, post);
    NoFenceHere(mark, n, post);
    ContentIsNoDelim(Run(mark, n) + post);
  }

  lemma OpensIff(mark: byte, n: nat, post: Bytes)
    requires (mark == DASH || mark == PLUS) && Blanks(post)
    ensures IsFrontmatterOpen(Run(mark, n) + post) <==> n == 3
    ensures n == 3 ==> TrimRight(Run(mark, n) + post) == [mark, mark, mark]
  {
    hide TrimRight;
    TrimRightBlanks(Run(mark, n), post);
    assert n == 3 ==> Run(mark, n) == [mark, mark, mark];
  }

  lemma ContentIsNoDelim(body: Bytes)
    ensures !ContentKind(body).FrontmatterDelim?
  {
  }

  lemma NoFenceHere(mark: byte, n: nat, post: Bytes)
    requires (mark == DASH || mark == PLUS) && n > 0
    ensures FenceOf(Run(mark, n) + post) == NoFence
  {
    assert (Run(mark, n) + post)[0..] == Run(mark, n) + post;
  }

  /** It lasts until the line that opened it comes again, whatever stands between. */
  lemma FrontMatterLasts(ls: seq<Bytes>, i: nat, delim: Bytes, t: Bytes, post: Bytes)
    requires i < |ls| && StateBefore(ls, i) == InFrontmatter(delim)
    requires Blanks(post) && (t != [] ==> !IsBlankByte(t[|t| - 1])) && Ended(ls[i], t + post)
    ensures StateBefore(ls, i + 1) == if t == delim then Normal else InFrontmatter(delim)
    ensures KindAt(ls, i) == if t == delim then FrontmatterDelim else FrontmatterInside
  {
    StripEnded(ls[i], t + post);
    TrimRightBlanks(t, post);
  }

  predicate IsLetter(b: byte) { 65 <= b <= 90 || 97 <= b <= 122 }

  /** A line that begins with a letter is text. */
  lemma LetterIsText(pre: Bytes, t: Bytes)
    requires Blanks(pre) && t != [] && IsLetter(t[0])
    ensures ContentKind(pre + t) == Text
  {
    hide TrimLeft;
    TrimLeftBlanks(pre, t);
    assert t[0] in t;
  }

  /** A bullet and a blank, or up to nine digits, a dot or parenthesis and a blank, begin a list item. */
  lemma ItemIsList(pre: Bytes, marker: Bytes, blank: byte, t: Bytes, k: nat)
    requires Blanks(pre) && IsBlankByte(blank) && k < |t| && IsLetter(t[k])
    requires marker == [DASH] || marker == [STAR] || marker == [PLUS] || Numbered(marker)
    ensures ContentKind(pre + (marker + [blank] + t)) == List
  {
    hide TrimLeft, TrimRight, Digits, IsAllSameNonEmpty;
    var item := marker + [blank] + t;
    TrimLeftBlanks(pre, item);
    assert item[|marker| + 1 + k] == t[k] && item[|marker| + 1 + k] in item;
    assert item[0] == marker[0] && item[|marker|] == blank;
    NotAllSame(item, |marker| + 1 + k);
    if Numbered(marker) { DigitsOf(marker, |marker| - 1, item, 9); }
  }

  predicate Numbered(marker: Bytes) {
    && 2 <= |marker| <= 10 && (marker[|marker| - 1] == DOT || marker[|marker| - 1] == RPAREN)
    && forall i :: 0 <= i < |marker| - 1 ==> 48 <= marker[i] <= 57
  }

  lemma {:induction false} DigitsOf(marker: Bytes, n: nat, s: Bytes, limit: nat)
    requires n <= limit && n < |marker| <= |s| && s[..|marker|] == marker
    requires (forall i :: 0 <= i < n ==> 48 <= marker[i] <= 57) && !(48 <= marker[n] <= 57)
    ensures Digits(s, limit) == n
  {
    assert s[0] == marker[0];
    if n > 0 {
      assert s[1..][..|marker| - 1] == marker[1..];
      DigitsOf(marker[1..], n - 1, s[1..], limit - 1);
    }
  }

  /** A line with a letter in it is no underline. */
  lemma NotAllSame(s: Bytes, k: nat)
    requires k < |s| && IsLetter(s[k]) && (s[0] == DASH || !IsLetter(s[0]))
    ensures !IsAllSameNonEmpty(s, s[0])
  {
    LetterStays(s, k);
  }

  lemma {:induction false} LetterStays(s: Bytes, k: nat)
    requires k < |s| && IsLetter(s[k])
    ensures k < |TrimRight(s)| && TrimRight(s)[k] == s[k]
  {
    if IsBlankByte(s[|s| - 1]) { LetterStays(s[..|s| - 1], k); }
  }
}
