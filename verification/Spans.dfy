/**
 Merging line spans (bench/contextbench/gold.go, bench/contextbench/traj.go). How a
 path is normalised is a parameter.
 */
module Spans {
  import opened Collections
  import opened StringOrder

  datatype Span = Span(file: string, first: int, last: int, content: string)

  type Norm = string -> string

  /** What MergeSpans keeps: a usable path and a range of lines from 1. */
  predicate Valid(s: Span, norm: Norm) {
    norm(s.file) != "" && norm(s.file) != "." && 1 <= s.first <= s.last
  }

  /** `line` of `file` lies in one of the spans, their paths taken as they are. */
  predicate Covers(spans: seq<Span>, file: string, line: int) {
    exists s :: s in spans && s.file == file && s.first <= line <= s.last
  }

  /** `line` of the file normalised to `file` lies in one of the valid spans. */
  predicate CoversValid(spans: seq<Span>, norm: Norm, file: string, line: int) {
    exists s :: s in spans && Valid(s, norm) && norm(s.file) == file && s.first <= line <= s.last
  }

  /** Not touching: an earlier file, or a gap of at least one line. */
  predicate Before(a: Span, b: Span) {
    Less(a.file, b.file) || (a.file == b.file && a.last + 1 < b.first)
  }

  /** Sorted, disjoint and non-adjacent within a file. */
  ghost predicate Canonical(out: seq<Span>) {
    && (forall i :: 0 <= i < |out| ==> 1 <= out[i].first <= out[i].last)
    && (forall i, j :: 0 <= i < j < |out| ==> Before(out[i], out[j]))
  }

  lemma BeforeTransitive(a: Span, b: Span, c: Span)
    requires Before(a, b) && Before(b, c) && b.first <= b.last
    ensures Before(a, c)
  {
    if Less(a.file, b.file) && Less(b.file, c.file) { LessTransitive(a.file, b.file, c.file); }
  }

  // ----- Sorting -----

  predicate InOrder(a: Span, b: Span) {
    || Less(a.file, b.file)
    || (a.file == b.file && (a.first < b.first || (a.first == b.first && a.last <= b.last)))
  }

  ghost predicate Sorted(s: seq<Span>) { forall i, j :: 0 <= i < j < |s| ==> InOrder(s[i], s[j]) }

  lemma InOrderTransitive(a: Span, b: Span, c: Span)
    requires InOrder(a, b) && InOrder(b, c)
    ensures InOrder(a, c)
  {
    if Less(a.file, b.file) && Less(b.file, c.file) { LessTransitive(a.file, b.file, c.file); }
  }

  /** The comparison handed to sort.Slice. */
  predicate Precedes(a: Span, b: Span) {
    if a.file != b.file then Less(a.file, b.file)
    else if a.first != b.first then a.first < b.first
    else a.last < b.last
  }

  lemma PrecedesOrNot(a: Span, b: Span)
    ensures if Precedes(a, b) then InOrder(a, b) else InOrder(b, a)
  {
    LessTotal(a.file, b.file);
  }

  method SortSpans(spans: seq<Span>) returns (out: seq<Span>)
    ensures Sorted(out) && |out| == |spans| && forall s :: s in out <==> s in spans
  {
    out := [];
    for i := 0 to |spans|
      invariant Sorted(out) && |out| == i && forall s :: s in out <==> s in spans[..i]
    {
      var s := spans[i];
      var p: nat := |out|;
      while p > 0 && Precedes(s, out[p - 1])
        invariant p <= |out|
        invariant p < |out| ==> InOrder(s, out[p])
      {
        PrecedesOrNot(s, out[p - 1]);
        p := p - 1;
      }
      if p > 0 { PrecedesOrNot(s, out[p - 1]); }
      Inserted(out, p, s);
      out := out[..p] + [s] + out[p..];
      assert spans[..i + 1] == spans[..i] + [s];
    }
    assert spans[..|spans|] == spans;
  }

  /** Between its neighbours a span is in order with all of them. */
  lemma BetweenAll(out: seq<Span>, p: nat, s: Span, k: nat)
    requires Sorted(out) && p <= |out| && k < |out|
    requires p > 0 ==> InOrder(out[p - 1], s)
    requires p < |out| ==> InOrder(s, out[p])
    ensures if k < p then InOrder(out[k], s) else InOrder(s, out[k])
  {
    hide InOrder;
    if k < p - 1 { InOrderTransitive(out[k], out[p - 1], s); }
    if k > p { InOrderTransitive(s, out[p], out[k]); }
  }

  lemma Inserted(out: seq<Span>, p: nat, s: Span)
    requires Sorted(out) && p <= |out|
    requires p > 0 ==> InOrder(out[p - 1], s)
    requires p < |out| ==> InOrder(s, out[p])
    ensures Sorted(out[..p] + [s] + out[p..])
    ensures forall x :: x in out[..p] + [s] + out[p..] <==> x in out || x == s
  {
    hide InOrder;
    InsertHolds(out, p, s);
    var r := out[..p] + [s] + out[p..];
    forall i, j | 0 <= i < j < |r| ensures InOrder(r[i], r[j]) {
      if i == p {
        BetweenAll(out, p, s, j - 1);
      } else if j == p {
        BetweenAll(out, p, s, i);
      } else {
        assert r[i] == out[if i < p then i else i - 1] && r[j] == out[if j < p then j else j - 1];
      }
    }
  }

  // ----- Merging what is sorted -----

  /** `s` goes into the last span when it starts no later than right after it. */
  function Absorb(out: seq<Span>, s: Span): (r: seq<Span>)
    ensures r != []
  {
    var n := |out|;
    if n > 0 && out[n - 1].file == s.file && s.first <= out[n - 1].last + 1 then
      if s.last > out[n - 1].last then out[n - 1 := out[n - 1].(last := s.last)] else out
    else out + [s]
  }

  lemma AbsorbCanonical(out: seq<Span>, s: Span)
    requires Canonical(out) && 1 <= s.first <= s.last
    requires out != [] ==> var t := out[|out| - 1]; Less(t.file, s.file) || (t.file == s.file && t.first <= s.first)
    ensures Canonical(Absorb(out, s))
  {
    hide Less;
    var n, r := |out|, Absorb(out, s);
    if |r| == n + 1 && n > 0 {
      forall k | 0 <= k < n ensures Before(out[k], s) {
        if k < n - 1 { BeforeTransitive(out[k], out[n - 1], s); }
      }
    }
  }

  lemma AbsorbCovers(out: seq<Span>, s: Span, file: string, line: int)
    requires out != [] && out[|out| - 1].file == s.file ==> out[|out| - 1].first <= s.first
    ensures Covers(Absorb(out, s), file, line)
            <==> Covers(out, file, line) || (s.file == file && s.first <= line <= s.last)
  {
    var n, r := |out|, Absorb(out, s);
    if |r| == n + 1 {
      assert forall x :: x in r <==> x in out || x == s;
    } else {
      var init := out[..n - 1];
      assert out == init + [out[n - 1]] && r == init + [r[n - 1]];
      assert forall x :: x in out <==> x in init || x == out[n - 1];
      assert forall x :: x in r <==> x in init || x == r[n - 1];
    }
  }

  /** Every merged span starts, and has its content from, one of the spans merged. */
  ghost predicate From(out: seq<Span>, spans: seq<Span>) {
    forall k :: 0 <= k < |out| ==>
      exists s :: s in spans && (s.file, s.first, s.content) == (out[k].file, out[k].first, out[k].content)
  }

  /** What the merging loop has done with the first `i` spans. */
  ghost predicate Merged(out: seq<Span>, spans: seq<Span>, i: nat)
    requires i <= |spans|
  {
    && Canonical(out) && From(out, spans[..i]) && (out == [] <==> i == 0)
    && (out != [] ==> out[|out| - 1].file == spans[i - 1].file && out[|out| - 1].first <= spans[i - 1].first)
    && (forall file, line :: Covers(out, file, line) <==> Covers(spans[..i], file, line))
  }

  lemma AbsorbFrom(out: seq<Span>, spans: seq<Span>, s: Span)
    requires From(out, spans)
    ensures From(Absorb(out, s), spans + [s])
  {
    var r, all := Absorb(out, s), spans + [s];
    assert s in all && forall x :: x in spans ==> x in all;
    forall k | 0 <= k < |r|
      ensures exists x :: x in all && (x.file, x.first, x.content) == (r[k].file, r[k].first, r[k].content)
    {
      if k < |out| {
        var x :| x in spans && (x.file, x.first, x.content) == (out[k].file, out[k].first, out[k].content);
        assert x in all;
      }
    }
  }

  lemma MergeStep(out: seq<Span>, spans: seq<Span>, i: nat)
    requires Sorted(spans) && i < |spans| && 1 <= spans[i].first <= spans[i].last && Merged(out, spans, i)
    ensures Merged(Absorb(out, spans[i]), spans, i + 1)
  {
    hide Less, Canonical, Covers, From;
    var s := spans[i];
    if i > 0 {
      assert InOrder(spans[i - 1], s);
      LessIrreflexive(s.file);
    }
    AbsorbCanonical(out, s);
    AbsorbFrom(out, spans[..i], s);
    assert spans[..i + 1] == spans[..i] + [s];
    forall file, line ensures Covers(Absorb(out, s), file, line) <==> Covers(spans[..i + 1], file, line) {
      AbsorbCovers(out, s, file, line);
      CoversOneMore(spans[..i], s, file, line);
    }
  }

  lemma CoversOneMore(spans: seq<Span>, s: Span, file: string, line: int)
    ensures Covers(spans + [s], file, line)
            <==> Covers(spans, file, line) || (s.file == file && s.first <= line <= s.last)
  {
    assert forall x :: x in spans + [s] <==> x in spans || x == s;
  }

  method MergeSorted(spans: seq<Span>) returns (out: seq<Span>)
    requires Sorted(spans) && forall s :: s in spans ==> 1 <= s.first <= s.last
    ensures Canonical(out) && From(out, spans) && (out == [] <==> spans == [])
    ensures forall file, line :: Covers(out, file, line) <==> Covers(spans, file, line)
  {
    hide Sorted, Canonical, Covers, From;
    out := [];
    MergedNothing(spans);
    for i := 0 to |spans|
      invariant Merged(out, spans, i)
    {
      var s := spans[i];
      MergeStep(out, spans, i);
      ghost var r := Absorb(out, s);
      var n := |out|;
      if n > 0 && out[n - 1].file == s.file && s.first <= out[n - 1].last + 1 {
        if s.last > out[n - 1].last {
          out := out[n - 1 := out[n - 1].(last := s.last)];
        }
      } else {
        out := out + [s];
      }
      assert out == r;
    }
    assert spans[..|spans|] == spans;
  }

  lemma MergedNothing(spans: seq<Span>)
    ensures Merged([], spans, 0)
  {
  }

  // ----- MergeSpans -----

  /** The specification of MergeSpans: canonical form of exactly the valid input's lines. */
  ghost predicate IsMerge(out: seq<Span>, spans: seq<Span>, norm: Norm) {
    && Canonical(out)
    && (forall file, line :: Covers(out, file, line) <==> CoversValid(spans, norm, file, line))
  }

  /** Its start and content are those of a valid span of its file. */
  ghost predicate HasOrigin(m: Span, spans: seq<Span>, norm: Norm) {
    exists s :: s in spans && Valid(s, norm) && (norm(s.file), s.first, s.content) == (m.file, m.first, m.content)
  }

  method MergeSpans(spans: seq<Span>, norm: Norm) returns (out: seq<Span>)
    ensures IsMerge(out, spans, norm)
    ensures out == [] <==> forall s :: s in spans ==> !Valid(s, norm)
    ensures forall k :: 0 <= k < |out| ==>
              HasOrigin(out[k], spans, norm)
  {
    var valid: seq<Span> := [];
    for i := 0 to |spans|
      invariant forall v :: v in valid <==>
          exists s :: s in spans[..i] && Valid(s, norm) && v == s.(file := norm(s.file))
    {
      var s := spans[i];
      assert spans[..i + 1] == spans[..i] + [s];
      var f := norm(s.file);
      if !(f == "" || f == "." || s.first < 1 || s.last < s.first) {
        valid := valid + [Span(f, s.first, s.last, s.content)];
      }
    }
    assert spans[..|spans|] == spans;
    forall file, line ensures Covers(valid, file, line) <==> CoversValid(spans, norm, file, line) {
      if CoversValid(spans, norm, file, line) {
        var s :| s in spans && Valid(s, norm) && norm(s.file) == file && s.first <= line <= s.last;
        assert s.(file := norm(s.file)) in valid;
      }
    }
    if s :| s in spans && Valid(s, norm) { assert s.(file := norm(s.file)) in valid; }
    assert valid == [] <==> forall s :: s in spans ==> !Valid(s, norm) by {
      assert valid != [] ==> valid[0] in valid;
    }
    if |valid| == 0 {
      out := [];
      return;
    }
    var sorted := SortSpans(valid);
    out := MergeSorted(sorted);
    forall k | 0 <= k < |out|
      ensures HasOrigin(out[k], spans, norm)
    {
      var v :| v in sorted && (v.file, v.first, v.content) == (out[k].file, out[k].first, out[k].content);
      assert v in valid;
    }
  }
}
