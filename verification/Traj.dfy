/** The per-file spans of a trajectory record (bench/contextbench/traj.go). */
module Traj {
  import opened Collections
  import opened Hits
  import opened StringOrder
  import opened Spans

  /** A hit's lines, pulled up to line 1 and to at least one line. */
  function Clamped(h: Hit, norm: Norm): (s: Span)
    ensures 1 <= s.first <= s.last && s.file == norm(h.file)
    ensures 1 <= h.first <= h.last ==> (s.first, s.last) == (h.first, h.last)
  {
    var first := if h.first < 1 then 1 else h.first;
    Span(norm(h.file), first, if h.last < first then first else h.last, "")
  }

  /** The hits' clamped lines in a file. */
  predicate HitCovers(hits: seq<Hit>, norm: Norm, file: string, line: int) {
    exists h :: h in hits && norm(h.file) == file && Clamped(h, norm).first <= line <= Clamped(h, norm).last
  }

  predicate HitIn(hits: seq<Hit>, norm: Norm, file: string) {
    exists h :: h in hits && norm(h.file) == file
  }

  /** The hits of the first `n` filed under their normalised paths. */
  ghost predicate Grouped(byFile: map<string, seq<Span>>, hits: seq<Hit>, norm: Norm) {
    && (forall f :: f in byFile <==> f != "" && HitIn(hits, norm, f))
    && (forall f :: f in byFile ==> byFile[f] != [])
    && (forall f, s :: f in byFile && s in byFile[f] ==> s.file == f && 1 <= s.first <= s.last)
    && (forall f, line :: f in byFile ==> (Covers(byFile[f], f, line) <==> HitCovers(hits, norm, f, line)))
  }

  lemma GroupStep(byFile: map<string, seq<Span>>, hits: seq<Hit>, norm: Norm, h: Hit)
    requires Grouped(byFile, hits, norm)
    ensures var f := norm(h.file);
      var before := if f in byFile then byFile[f] else [];
      Grouped(if f == "" then byFile else byFile[f := before + [Clamped(h, norm)]], hits + [h], norm)
  {
    hide Covers, HitCovers, Clamped;
    var f, s := norm(h.file), Clamped(h, norm);
    var before := if f in byFile then byFile[f] else [];
    var after := if f == "" then byFile else byFile[f := before + [s]];
    var all := hits + [h];
    forall g ensures HitIn(all, norm, g) <==> HitIn(hits, norm, g) || g == f {
      assert forall x :: x in all <==> x in hits || x == h;
    }
    forall g, line | g in after
      ensures Covers(after[g], g, line) <==> HitCovers(all, norm, g, line)
    {
      HitCoversOneMore(hits, norm, h, g, line);
      if g == f {
        CoversOneMore(before, s, g, line);
        if f !in byFile { NothingCovered(hits, norm, f, line); }
      }
    }
  }

  /** A hit covers its lines from 1 on, and at least the one it starts in. */
  lemma HitLines(h: Hit, norm: Norm, file: string, line: int)
    ensures HitCovers([h], norm, file, line)
            <==> norm(h.file) == file && 1 <= line && h.first <= line
                 && (line <= h.last || line == h.first || line == 1)
  {
    assert h in [h];
  }

  lemma NothingCovered(hits: seq<Hit>, norm: Norm, file: string, line: int)
    requires !HitIn(hits, norm, file)
    ensures !HitCovers(hits, norm, file, line) && !Covers([], file, line)
  {
  }

  lemma HitCoversOneMore(hits: seq<Hit>, norm: Norm, h: Hit, file: string, line: int)
    ensures HitCovers(hits + [h], norm, file, line) <==>
            || HitCovers(hits, norm, file, line)
            || (norm(h.file) == file && Clamped(h, norm).first <= line <= Clamped(h, norm).last)
  {
    hide Clamped;
    assert forall x :: x in hits + [h] <==> x in hits || x == h;
  }

  method GroupByFile(hits: seq<Hit>, norm: Norm) returns (byFile: map<string, seq<Span>>)
    ensures Grouped(byFile, hits, norm)
  {
    hide Grouped;
    byFile := map[];
    assert Grouped(byFile, [], norm) by { NothingGrouped(norm); }
    for i := 0 to |hits|
      invariant Grouped(byFile, hits[..i], norm)
    {
      var h := hits[i];
      GroupStep(byFile, hits[..i], norm, h);
      assert hits[..i + 1] == hits[..i] + [h];
      var f := norm(h.file);
      if f == "" {
        continue;
      }
      var s, e := h.first, h.last;
      if s < 1 {
        s := 1;
      }
      if e < s {
        e := s;
      }
      byFile := byFile[f := (if f in byFile then byFile[f] else []) + [Span(f, s, e, "")]];
    }
    assert hits[..|hits|] == hits;
  }

  lemma NothingGrouped(norm: Norm)
    ensures Grouped(map[], [], norm)
  {
  }

  /** One file's spans: canonical, of that file alone, and covering what its intervals cover. */
  ghost predicate Merges(merged: seq<Span>, intervals: seq<Span>, file: string) {
    && merged != [] && Canonical(merged)
    && (forall s :: s in merged ==> s.file == file)
    && (forall line :: Covers(merged, file, line) <==> Covers(intervals, file, line))
  }

  ghost predicate IntervalsOf(intervals: seq<Span>, file: string) {
    intervals != [] && forall s :: s in intervals ==> s.file == file && 1 <= s.first <= s.last
  }

  /** One file's intervals, sorted and merged. */
  method MergeFile(intervals: seq<Span>, file: string) returns (merged: seq<Span>)
    requires IntervalsOf(intervals, file)
    ensures Merges(merged, intervals, file)
  {
    hide Covers, Canonical;
    var sorted := SortSpans(intervals);
    merged := MergeSorted(sorted);
    forall s | s in merged ensures s.file == file {
      var k :| 0 <= k < |merged| && merged[k] == s;
      var x :| x in sorted && (x.file, x.first, x.content) == (merged[k].file, merged[k].first, merged[k].content);
    }
    forall line ensures Covers(merged, file, line) <==> Covers(intervals, file, line) {
      SameSpansCover(sorted, intervals, file, line);
    }
  }

  ghost predicate MergesAll(spans: map<string, seq<Span>>, byFile: map<string, seq<Span>>, files: set<string>) {
    spans.Keys == files <= byFile.Keys && forall f :: f in files ==> Merges(spans[f], byFile[f], f)
  }

  lemma MergesOneMore(spans: map<string, seq<Span>>, byFile: map<string, seq<Span>>, files: set<string>, f: string,
                      merged: seq<Span>)
    requires MergesAll(spans, byFile, files) && f in byFile && Merges(merged, byFile[f], f)
    ensures MergesAll(spans[f := merged], byFile, files + {f})
  {
    hide Merges;
  }

  lemma NothingMerged(byFile: map<string, seq<Span>>)
    ensures MergesAll(map[], byFile, {})
  {
  }

  lemma GroupedIntervals(byFile: map<string, seq<Span>>, hits: seq<Hit>, norm: Norm)
    requires Grouped(byFile, hits, norm)
    ensures forall f :: f in byFile ==> IntervalsOf(byFile[f], f)
  {
    hide Covers, HitCovers, HitIn;
  }

  lemma MergedLines(spans: map<string, seq<Span>>, byFile: map<string, seq<Span>>, hits: seq<Hit>, norm: Norm)
    requires MergesAll(spans, byFile, byFile.Keys) && Grouped(byFile, hits, norm)
    ensures forall f :: f in spans <==> f in byFile
    ensures forall f :: f in byFile <==> f != "" && HitIn(hits, norm, f)
    ensures forall f :: f in spans ==>
              spans[f] != [] && Canonical(spans[f]) && forall s :: s in spans[f] ==> s.file == f
    ensures forall f, line :: f in spans ==> (Covers(spans[f], f, line) <==> HitCovers(hits, norm, f, line))
  {
    hide Covers, HitCovers, HitIn, Canonical;
  }

  /** The loop over the files, in whatever order the map yields them. */
  method MergeFiles(byFile: map<string, seq<Span>>) returns (predFiles: seq<string>, predSpans: map<string, seq<Span>>)
    requires forall f :: f in byFile ==> IntervalsOf(byFile[f], f)
    ensures NoRepeats(predFiles) && forall f :: f in predFiles <==> f in byFile
    ensures MergesAll(predSpans, byFile, byFile.Keys)
  {
    hide Merges, MergesAll, IntervalsOf;
    predFiles, predSpans := [], map[];
    NothingMerged(byFile);
    var todo := byFile.Keys;
    assert byFile.Keys - todo == {};
    while todo != {}
      invariant todo <= byFile.Keys
      invariant NoRepeats(predFiles) && forall f :: f in predFiles <==> f in byFile && f !in todo
      invariant MergesAll(predSpans, byFile, byFile.Keys - todo)
      decreases |todo|
    {
      var f :| f in todo;
      var merged := MergeFile(byFile[f], f);
      MergesOneMore(predSpans, byFile, byFile.Keys - todo, f, merged);
      assert byFile.Keys - (todo - {f}) == byFile.Keys - todo + {f};
      todo := todo - {f};
      predSpans := predSpans[f := merged];
      predFiles := predFiles + [f];
    }
    assert byFile.Keys - {} == byFile.Keys;
  }

  /**
   BuildTrajRecord's files and spans: the files the hits name, sorted, and for each
   the canonical form of exactly the clamped lines of its hits.
   */
  method BuildTrajRecord(hits: seq<Hit>, norm: Norm) returns (predFiles: seq<string>, predSpans: map<string, seq<Span>>)
    ensures StrictlySorted(predFiles)
    ensures forall f :: f in predFiles <==> f != "" && HitIn(hits, norm, f)
    ensures forall f :: f in predSpans <==> f in predFiles
    ensures forall f :: f in predSpans ==>
              predSpans[f] != [] && Canonical(predSpans[f]) && forall s :: s in predSpans[f] ==> s.file == f
    ensures forall f, line :: f in predSpans ==> (Covers(predSpans[f], f, line) <==> HitCovers(hits, norm, f, line))
  {
    predFiles, predSpans := [], map[];
    if |hits| == 0 {
      return;
    }
    hide *;
    var byFile := GroupByFile(hits, norm);
    GroupedIntervals(byFile, hits, norm);
    predFiles, predSpans := MergeFiles(byFile);
    MergedLines(predSpans, byFile, hits, norm);
    predFiles := SortStrings(predFiles);
  }

  lemma SameSpansCover(a: seq<Span>, b: seq<Span>, file: string, line: int)
    requires forall s :: s in a <==> s in b
    ensures Covers(a, file, line) <==> Covers(b, file, line)
  {
  }
}
