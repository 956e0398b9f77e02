/**
 The on-disk snapshot of engine/engine.go: flushes publish a corpus and then run
 the OnFlush callback, which either marks the snapshot dirty (a Refresh is in
 flight) or clears the mark and rewrites the snapshot; Close writes a dirty one.
 Corpora are numbered in the order they are published.
 */
module SnapshotProtocol {
  datatype Phase =
    | Entered                     // Refresh has bumped the counter, nothing published
    | Published                   // corpus published, callback not yet decided
    | Marking                     // callback saw a Refresh in flight
    | Clearing                    // callback saw none
    | Reading                     // mark cleared
    | Writing(corpus: nat)        // published corpus read, not yet on disk
    | Returned
    | Exited                      // Refresh has dropped the counter again

  datatype Flush = Flush(refresh: bool, phase: Phase)

  datatype Closing = Open | CloseReading | CloseWriting(corpus: nat) | Closed

  /**
   `serial`: flushes outside Refresh run their callbacks one at a time. The debouncer
   does; a background warm-up beside a watcher does not, since it runs its callback
   from its own goroutine. `alone`: no Refresh overlaps Close. Closing the index has waited
   for the watcher's flushes in any case.
   */
  datatype World = World(
    serial: bool,
    alone: bool,
    corpus: nat,        // the published corpus
    disk: nat,          // the corpus in the snapshot file
    dirty: bool,
    refreshing: nat,
    flushes: seq<Flush>,
    closing: Closing)

  datatype Step =
    | EnterRefresh | PublishRefresh(flush: nat) | NothingChanged(flush: nat) | ExitRefresh(flush: nat)
    | PublishWatch
    | Decide(flush: nat) | Mark(flush: nat) | Clear(flush: nat) | Read(flush: nat) | Write(flush: nat)
    | CloseSwap | CloseRead | CloseWrite

  function Init(serial: bool, alone: bool, corpus: nat): World {
    World(serial, alone, corpus, corpus, false, 0, [], Open)
  }

  predicate InCallback(p: Phase) {
    p.Marking? || p.Clearing? || p.Reading? || p.Writing?
  }

  predicate PartWay(f: Flush) {
    f.phase.Published? || InCallback(f.phase)
  }

  predicate Idle(w: World) {
    forall i :: 0 <= i < |w.flushes| ==> !PartWay(w.flushes[i])
  }

  /** Flush `i` may go on: Close has not begun, or it is a Refresh that overlaps it. */
  predicate Live(w: World, i: nat) {
    i < |w.flushes| && (w.closing.Open? || (!w.alone && w.flushes[i].refresh))
  }

  predicate At(w: World, i: nat, p: Phase) {
    Live(w, i) && w.flushes[i].phase == p
  }

  predicate WatcherIdle(w: World) {
    forall i :: 0 <= i < |w.flushes| && !w.flushes[i].refresh ==> !PartWay(w.flushes[i])
  }

  predicate Enabled(w: World, s: Step) {
    match s
    case EnterRefresh => w.closing.Open? || !w.alone
    case PublishRefresh(i) => At(w, i, Entered)
    case NothingChanged(i) => At(w, i, Entered)
    case ExitRefresh(i) => At(w, i, Returned) && w.flushes[i].refresh && w.refreshing > 0
    case PublishWatch => w.closing.Open?
    case Decide(i) =>
      && At(w, i, Published)
      && (w.serial && !w.flushes[i].refresh ==>
            forall j :: 0 <= j < |w.flushes| && !w.flushes[j].refresh ==> !InCallback(w.flushes[j].phase))
    case Mark(i) => At(w, i, Marking)
    case Clear(i) => At(w, i, Clearing)
    case Read(i) => At(w, i, Reading)
    case Write(i) => Live(w, i) && w.flushes[i].phase.Writing?
    case CloseSwap => w.closing.Open? && WatcherIdle(w) && (w.alone ==> Idle(w))
    case CloseRead => w.closing.CloseReading?
    case CloseWrite => w.closing.CloseWriting?
  }

  function Move(w: World, i: nat, p: Phase): World
    requires i < |w.flushes|
  {
    w.(flushes := w.flushes[i := w.flushes[i].(phase := p)])
  }

  function Apply(w: World, s: Step): World
    requires Enabled(w, s)
  {
    match s
    case EnterRefresh => w.(refreshing := w.refreshing + 1, flushes := w.flushes + [Flush(true, Entered)])
    case PublishRefresh(i) => Move(w, i, Published).(corpus := w.corpus + 1)
    case NothingChanged(i) => Move(w, i, Returned)
    case ExitRefresh(i) => Move(w, i, Exited).(refreshing := w.refreshing - 1)
    case PublishWatch => w.(corpus := w.corpus + 1, flushes := w.flushes + [Flush(false, Published)])
    case Decide(i) => Move(w, i, if w.refreshing > 0 then Marking else Clearing)
    case Mark(i) => Move(w, i, Returned).(dirty := true)
    case Clear(i) => Move(w, i, Reading).(dirty := false)
    case Read(i) => Move(w, i, Writing(w.corpus))
    case Write(i) => Move(w, i, Returned).(disk := w.flushes[i].phase.corpus)
    case CloseSwap => w.(closing := if w.dirty then CloseReading else Closed, dirty := false)
    case CloseRead => w.(closing := CloseWriting(w.corpus))
    case CloseWrite => w.(closing := Closed, disk := w.closing.corpus)
  }

  ghost predicate Legal(w: World, run: seq<Step>)
    decreases |run|
  {
    run == [] || (Enabled(w, run[0]) && Legal(Apply(w, run[0]), run[1..]))
  }

  ghost function After(w: World, run: seq<Step>): World
    requires Legal(w, run)
    decreases |run|
  {
    if run == [] then w else After(Apply(w, run[0]), run[1..])
  }

  // ----- The Refresh counter -----

  function Refreshers(fs: seq<Flush>): nat {
    if fs == [] then 0
    else (if fs[0].refresh && !fs[0].phase.Exited? then 1 else 0) + Refreshers(fs[1..])
  }

  lemma {:induction false} RefreshersMove(fs: seq<Flush>, i: nat, p: Phase)
    requires i < |fs| && !fs[i].phase.Exited?
    ensures Refreshers(fs[i := fs[i].(phase := p)]) == Refreshers(fs) - if fs[i].refresh && p.Exited? then 1 else 0
    ensures fs[i].refresh ==> Refreshers(fs) > 0
  {
    if i == 0 {
      assert fs[i := fs[i].(phase := p)][1..] == fs[1..];
    } else {
      RefreshersMove(fs[1..], i - 1, p);
      assert fs[i := fs[i].(phase := p)][1..] == fs[1..][i - 1 := fs[i].(phase := p)];
    }
  }

  lemma {:induction false} RefreshersAppend(fs: seq<Flush>, f: Flush)
    requires !f.phase.Exited?
    ensures Refreshers(fs + [f]) == Refreshers(fs) + if f.refresh then 1 else 0
  {
    if fs != [] {
      RefreshersAppend(fs[1..], f);
      assert (fs + [f])[1..] == fs[1..] + [f];
    }
  }

  ghost predicate Counted(w: World) {
    && w.refreshing == Refreshers(w.flushes)
    && (forall i :: 0 <= i < |w.flushes| && w.flushes[i].phase.Entered? ==> w.flushes[i].refresh)
  }

  lemma MoveCounted(w: World, i: nat, p: Phase)
    requires Counted(w) && i < |w.flushes| && !w.flushes[i].phase.Exited? && !p.Entered?
    ensures var fs := Move(w, i, p).flushes;
      && (forall j :: 0 <= j < |fs| && fs[j].phase.Entered? ==> fs[j].refresh)
      && Refreshers(fs) == w.refreshing - (if w.flushes[i].refresh && p.Exited? then 1 else 0)
  {
    RefreshersMove(w.flushes, i, p);
    hide Refreshers;
  }

  lemma StepCounted(w: World, s: Step)
    requires Counted(w) && Enabled(w, s)
    ensures Counted(Apply(w, s))
  {
    hide Refreshers;
    if s.EnterRefresh? {
      RefreshersAppend(w.flushes, Flush(true, Entered));
    } else if s.PublishWatch? {
      RefreshersAppend(w.flushes, Flush(false, Published));
    } else if !s.CloseSwap? && !s.CloseRead? && !s.CloseWrite? {
      MoveCounted(w, s.flush, Apply(w, s).flushes[s.flush].phase);
    }
  }

  // ----- What the snapshot owes is never forgotten -----

  /** Some flush has still to record the corpus it published. */
  ghost predicate Owed(w: World) {
    exists i :: 0 <= i < |w.flushes| && (w.flushes[i].phase.Published? || w.flushes[i].phase.Marking?)
  }

  /** A flush that is about to write, and what it will write if it has read already. */
  ghost predicate Persisting(p: Phase) {
    p.Clearing? || p.Reading? || p.Writing?
  }

  /** What a flush in this phase will leave in the snapshot is `corpus`, unless more is published. */
  predicate Rewrites(p: Phase, corpus: nat) {
    p.Clearing? || p.Reading? || p == Writing(corpus)
  }

  ghost predicate Covered(w: World) {
    || w.disk == w.corpus || w.dirty || Owed(w)
    || (exists i :: 0 <= i < |w.flushes| && Rewrites(w.flushes[i].phase, w.corpus))
  }

  ghost predicate Safe(w: World) {
    && Counted(w)
    && (forall i, j :: 0 <= i < j < |w.flushes| ==> !(Persisting(w.flushes[i].phase) && Persisting(w.flushes[j].phase)))
    && (forall i :: 0 <= i < |w.flushes| && Persisting(w.flushes[i].phase) ==> !w.flushes[i].refresh)
    && (forall i :: 0 <= i < |w.flushes| && w.flushes[i].phase.Writing? && w.flushes[i].phase.corpus != w.corpus ==>
          w.dirty || Owed(w))
    && match w.closing
       case Open => Covered(w)
       case CloseReading => Idle(w)
       case CloseWriting(c) => Idle(w) && c == w.corpus
       case Closed => Idle(w) && w.disk == w.corpus
  }

  lemma DecideSafe(w: World, i: nat)
    requires w.serial && w.alone && Safe(w) && Enabled(w, Decide(i))
    ensures Safe(Apply(w, Decide(i)))
  {
    hide Refreshers;
    var w' := Apply(w, Decide(i));
    StepCounted(w, Decide(i));
    RefreshersMove(w.flushes, i, w'.flushes[i].phase);
    if w.refreshing > 0 {
      assert w'.flushes[i].phase.Marking?;
      assert Owed(w');
    } else {
      assert !w.flushes[i].refresh;
      assert w'.flushes[i].phase.Clearing?;
    }
  }

  /** Mark and Write leave a flush that has nothing more to do; another that owed something still does. */
  lemma OthersStillOwe(w: World, s: Step)
    requires Enabled(w, s) && (s.Mark? || s.Write?) && Owed(w)
    ensures Apply(w, s).dirty || Owed(Apply(w, s))
  {
    var w' := Apply(w, s);
    var i :| 0 <= i < |w.flushes| && (w.flushes[i].phase.Published? || w.flushes[i].phase.Marking?);
    assert i != s.flush ==> w'.flushes[i] == w.flushes[i];
  }

  lemma MarkWriteSafe(w: World, s: Step)
    requires w.serial && w.alone && Safe(w) && Enabled(w, s) && (s.Mark? || s.Write?)
    ensures Safe(Apply(w, s))
  {
    hide Refreshers;
    StepCounted(w, s);
    if Owed(w) {
      hide Owed;
      OthersStillOwe(w, s);
    }
  }

  lemma ClearReadSafe(w: World, s: Step)
    requires w.serial && w.alone && Safe(w) && Enabled(w, s) && (s.Clear? || s.Read?)
    ensures Safe(Apply(w, s))
  {
    hide Refreshers;
    StepCounted(w, s);
    var w' := Apply(w, s);
    assert Rewrites(w'.flushes[s.flush].phase, w'.corpus);
  }

  lemma PublishSafe(w: World, s: Step)
    requires w.serial && w.alone && Safe(w) && Enabled(w, s) && (s.PublishRefresh? || s.PublishWatch?)
    ensures Safe(Apply(w, s))
  {
    hide Refreshers;
    var w' := Apply(w, s);
    StepCounted(w, s);
    assert w'.flushes[if s.PublishRefresh? then s.flush else |w.flushes|].phase.Published?;
  }

  /** The steps of a Refresh that publish nothing leave what is owed as it was. */
  lemma QuietStep(w: World, s: Step)
    requires Enabled(w, s) && (s.EnterRefresh? || s.NothingChanged? || s.ExitRefresh?)
    ensures Owed(w) ==> Owed(Apply(w, s))
    ensures Covered(w) ==> Covered(Apply(w, s))
  {
    var w' := Apply(w, s);
    if Owed(w) {
      var i :| 0 <= i < |w.flushes| && (w.flushes[i].phase.Published? || w.flushes[i].phase.Marking?);
      assert w'.flushes[i] == w.flushes[i];
    }
    if i :| 0 <= i < |w.flushes| && Rewrites(w.flushes[i].phase, w.corpus) {
      assert w'.flushes[i] == w.flushes[i];
    }
  }

  lemma QuietSafe(w: World, s: Step)
    requires w.serial && w.alone && Safe(w) && Enabled(w, s)
    requires s.EnterRefresh? || s.NothingChanged? || s.ExitRefresh?
    ensures Safe(Apply(w, s))
  {
    hide Refreshers, Owed, Covered, Counted;
    StepCounted(w, s);
    QuietStep(w, s);
    var w' := Apply(w, s);
    var moved := if s.EnterRefresh? then |w.flushes| else s.flush;
    assert forall i :: 0 <= i < |w.flushes| && i != moved ==> w'.flushes[i] == w.flushes[i];
  }

  lemma StepSafe(w: World, s: Step)
    requires w.serial && w.alone && Safe(w) && Enabled(w, s)
    ensures Safe(Apply(w, s)) && Apply(w, s).serial && Apply(w, s).alone
  {
    match s {
      case Decide(i) => DecideSafe(w, i);
      case Mark(_) => MarkWriteSafe(w, s);
      case Clear(_) => ClearReadSafe(w, s);
      case Read(_) => ClearReadSafe(w, s);
      case Write(_) => MarkWriteSafe(w, s);
      case CloseSwap =>
      case CloseRead =>
      case CloseWrite =>
      case PublishRefresh(_) => PublishSafe(w, s);
      case PublishWatch => PublishSafe(w, s);
      case _ => QuietSafe(w, s);
    }
  }

  lemma {:induction false} RunSafe(w: World, run: seq<Step>)
    requires w.serial && w.alone && Safe(w) && Legal(w, run)
    ensures Safe(After(w, run))
    decreases |run|
  {
    if run != [] {
      StepSafe(w, run[0]);
      RunSafe(Apply(w, run[0]), run[1..]);
    }
  }

  /**
   Whenever no callback is part-way through, the snapshot holds the published corpus
   or is marked dirty; and once Close has finished it holds the published corpus.
   */
  ghost predicate CurrentOrDirty(w: World) {
    && (w.closing.Open? && Idle(w) ==> w.disk == w.corpus || w.dirty)
    && (w.closing.Closed? ==> w.disk == w.corpus)
  }

  /** With any number of Refresh flushes among serial others, and none beside Close. */
  lemma SnapshotCurrentOrDirty(corpus: nat, run: seq<Step>)
    requires Legal(Init(true, true, corpus), run)
    ensures CurrentOrDirty(After(Init(true, true, corpus), run))
  {
    RunSafe(Init(true, true, corpus), run);
  }

  ghost predicate AlwaysCurrentOrDirty(serial: bool, alone: bool, corpus: nat) {
    forall run :: Legal(Init(serial, alone, corpus), run) ==> CurrentOrDirty(After(Init(serial, alone, corpus), run))
  }

  /**
   From a current snapshot the guarantee holds in every run exactly when the
   callbacks outside Refresh are serial and no Refresh overlaps Close.
   */
  lemma CurrentOrDirtyIff(serial: bool, alone: bool, corpus: nat)
    ensures AlwaysCurrentOrDirty(serial, alone, corpus) <==> serial && alone
  {
    hide Legal, After, CurrentOrDirty;
    if serial && alone {
      forall run | Legal(Init(serial, alone, corpus), run)
        ensures CurrentOrDirty(After(Init(serial, alone, corpus), run))
      {
        SnapshotCurrentOrDirty(corpus, run);
      }
    } else if !serial {
      var run := OverlappingCallbacksLoseACorpus(alone, corpus);
      NotCurrent(After(Init(serial, alone, corpus), run));
    } else {
      var run := RefreshBesideCloseLosesACorpus(serial, corpus);
      NotCurrent(After(Init(serial, alone, corpus), run));
    }
  }

  lemma NotCurrent(w: World)
    requires w.closing.Closed? && w.disk != w.corpus
    ensures !CurrentOrDirty(w)
  {
  }

  /** A Refresh has published and decided to mark, and Close finds nothing marked. */
  lemma CloseBeforeMark(w: World) returns (run: seq<Step>)
    requires !w.alone && w.closing.Open? && !w.dirty && w.disk != w.corpus
    requires w.flushes == [Flush(true, Marking)]
    ensures Legal(w, run)
    ensures var v := After(w, run); v.closing.Closed? && Idle(v) && v.disk != v.corpus
  {
    hide Legal, After;
    var w1 := Apply(w, CloseSwap);
    var w2 := Apply(w1, Mark(0));
    run := [];
    NoSteps(w2);
    LegalFrom(w1, w2, Mark(0), run);
    run := [Mark(0)] + run;
    LegalFrom(w, w1, CloseSwap, run);
    run := [CloseSwap] + run;
  }

  /** A Refresh publishes, and Close finds nothing marked before the Refresh marks it. */
  lemma RefreshBesideCloseLosesACorpus(serial: bool, corpus: nat) returns (run: seq<Step>)
    ensures Legal(Init(serial, false, corpus), run)
    ensures var w := After(Init(serial, false, corpus), run);
      w.closing.Closed? && Idle(w) && w.disk != w.corpus
  {
    hide Legal, After, Idle;
    var w0 := Init(serial, false, corpus);
    var w1 := Apply(w0, EnterRefresh);
    var w2 := Apply(w1, PublishRefresh(0));
    var w3 := Apply(w2, Decide(0));
    run := CloseBeforeMark(w3);
    LegalFrom(w2, w3, Decide(0), run);
    run := [Decide(0)] + run;
    LegalFrom(w1, w2, PublishRefresh(0), run);
    run := [PublishRefresh(0)] + run;
    LegalFrom(w0, w1, EnterRefresh, run);
    run := [EnterRefresh] + run;
  }

  lemma NoSteps(w: World)
    ensures Legal(w, []) && After(w, []) == w
  {
  }

  lemma LegalFrom(w: World, w': World, s: Step, rest: seq<Step>)
    requires Enabled(w, s) && w' == Apply(w, s) && Legal(w', rest)
    ensures Legal(w, [s] + rest) && After(w, [s] + rest) == After(w', rest)
  {
    assert ([s] + rest)[1..] == rest;
  }

  /** One flush has read its corpus, a newer one is published. */
  function Overtaken(alone: bool, corpus: nat): World {
    World(false, alone, corpus + 2, corpus, false, 0,
          [Flush(false, Writing(corpus + 1)), Flush(false, Published)], Open)
  }

  /** The newer corpus is in the snapshot already when the older one is written over it. */
  lemma OlderWritesOver(w: World) returns (run: seq<Step>)
    requires w.closing.Open? && !w.dirty && w.corpus > 0
    requires w.flushes == [Flush(false, Writing(w.corpus - 1)), Flush(false, Returned)]
    ensures Legal(w, run)
    ensures var v := After(w, run); v.closing.Closed? && v.disk == w.corpus - 1 && v.corpus == w.corpus
  {
    hide Legal, After;
    var w1 := Apply(w, Write(0));
    var w2 := Apply(w1, CloseSwap);
    run := [];
    NoSteps(w2);
    LegalFrom(w1, w2, CloseSwap, run);
    run := [CloseSwap] + run;
    LegalFrom(w, w1, Write(0), run);
    run := [Write(0)] + run;
  }

  lemma OlderWritesLast(alone: bool, corpus: nat) returns (run: seq<Step>)
    ensures Legal(Overtaken(alone, corpus), run)
    ensures var w := After(Overtaken(alone, corpus), run);
      w.closing.Closed? && w.disk == corpus + 1 && w.corpus == corpus + 2
  {
    hide Legal, After, Idle, WatcherIdle;
    var w1 := Overtaken(alone, corpus);
    var w2 := Apply(w1, Decide(1));
    var w3 := Apply(w2, Clear(1));
    var w4 := Apply(w3, Read(1));
    var w5 := Apply(w4, Write(1));
    run := OlderWritesOver(w5);
    LegalFrom(w4, w5, Write(1), run);
    run := [Write(1)] + run;
    LegalFrom(w3, w4, Read(1), run);
    run := [Read(1)] + run;
    LegalFrom(w2, w3, Clear(1), run);
    run := [Clear(1)] + run;
    LegalFrom(w1, w2, Decide(1), run);
    run := [Decide(1)] + run;
  }

  /** A flush has its corpus in hand when the next one is published. */
  lemma NewerIsPublished(alone: bool, corpus: nat) returns (run: seq<Step>)
    ensures var w := World(false, alone, corpus + 1, corpus, false, 0, [Flush(false, Reading)], Open);
      && Legal(w, run)
      && After(w, run).closing.Closed? && After(w, run).disk != After(w, run).corpus
  {
    hide Legal, After;
    run := OlderWritesLast(alone, corpus);
    var v3 := World(false, alone, corpus + 1, corpus, false, 0, [Flush(false, Reading)], Open);
    var v4 := Apply(v3, Read(0));
    LegalFrom(v4, Overtaken(alone, corpus), PublishWatch, run);
    run := [PublishWatch] + run;
    LegalFrom(v3, v4, Read(0), run);
    run := [Read(0)] + run;
  }

  /** Two overlapping callbacks outside Refresh would lose the newer corpus for good. */
  lemma OverlappingCallbacksLoseACorpus(alone: bool, corpus: nat) returns (run: seq<Step>)
    ensures Legal(Init(false, alone, corpus), run)
    ensures var w := After(Init(false, alone, corpus), run);
      w.closing.Closed? && w.disk != w.corpus
  {
    hide Legal, After;
    run := NewerIsPublished(alone, corpus);
    var v0 := Init(false, alone, corpus);
    var v1 := Apply(v0, PublishWatch);
    var v2 := Apply(v1, Decide(0));
    var v3 := Apply(v2, Clear(0));
    assert v3.flushes == [Flush(false, Reading)];
    LegalFrom(v2, v3, Clear(0), run);
    run := [Clear(0)] + run;
    LegalFrom(v1, v2, Decide(0), run);
    run := [Decide(0)] + run;
    LegalFrom(v0, v1, PublishWatch, run);
    run := [PublishWatch] + run;
  }

  // ----- What one flush and one Close do when nothing else runs -----

  /** A watcher flush publishes, clears the mark and rewrites the snapshot. */
  lemma WatchFlushWrites(w: World) returns (run: seq<Step>)
    requires w.closing.Open? && Idle(w) && w.refreshing == 0
    ensures Legal(w, run)
    ensures var v := After(w, run);
      v == w.(corpus := w.corpus + 1, disk := w.corpus + 1, dirty := false,
              flushes := w.flushes + [Flush(false, Returned)])
  {
    hide Legal, After;
    var i := |w.flushes|;
    var w1 := Apply(w, PublishWatch);
    var w2 := Apply(w1, Decide(i));
    run := ClearAndWrite(w2, i);
    LegalFrom(w1, w2, Decide(i), run);
    run := [Decide(i)] + run;
    LegalFrom(w, w1, PublishWatch, run);
    run := [PublishWatch] + run;
  }

  lemma ClearAndWrite(w: World, i: nat) returns (run: seq<Step>)
    requires w.closing.Open? && i < |w.flushes| && w.flushes[i].phase.Clearing?
    ensures Legal(w, run)
    ensures After(w, run) == Move(w, i, Returned).(disk := w.corpus, dirty := false)
  {
    hide Legal, After, Idle, WatcherIdle;
    var w1 := Apply(w, Clear(i));
    var w2 := Apply(w1, Read(i));
    var w3 := Apply(w2, Write(i));
    assert w3 == Move(w, i, Returned).(disk := w.corpus, dirty := false);
    run := [];
    NoSteps(w3);
    LegalFrom(w2, w3, Write(i), run);
    run := [Write(i)] + run;
    LegalFrom(w1, w2, Read(i), run);
    run := [Read(i)] + run;
    LegalFrom(w, w1, Clear(i), run);
    run := [Clear(i)] + run;
  }

  /** A Refresh publishes and marks the snapshot dirty, and leaves the file alone. */
  lemma RefreshFlushMarks(w: World) returns (run: seq<Step>)
    requires w.closing.Open?
    ensures Legal(w, run)
    ensures var v := After(w, run);
      v == w.(corpus := w.corpus + 1, dirty := true, flushes := w.flushes + [Flush(true, Exited)])
  {
    hide Legal, After, Idle, WatcherIdle;
    var i := |w.flushes|;
    var w1 := Apply(w, EnterRefresh);
    var w2 := Apply(w1, PublishRefresh(i));
    var w3 := Apply(w2, Decide(i));
    run := MarkAndExit(w3, i);
    LegalFrom(w2, w3, Decide(i), run);
    run := [Decide(i)] + run;
    LegalFrom(w1, w2, PublishRefresh(i), run);
    run := [PublishRefresh(i)] + run;
    LegalFrom(w, w1, EnterRefresh, run);
    run := [EnterRefresh] + run;
  }

  lemma MarkAndExit(w: World, i: nat) returns (run: seq<Step>)
    requires w.closing.Open? && i < |w.flushes| && w.flushes[i] == Flush(true, Marking) && w.refreshing > 0
    ensures Legal(w, run)
    ensures After(w, run) == Move(w, i, Exited).(dirty := true, refreshing := w.refreshing - 1)
  {
    hide Legal, After, Idle, WatcherIdle;
    var w1 := Apply(w, Mark(i));
    var w2 := Apply(w1, ExitRefresh(i));
    assert w2 == Move(w, i, Exited).(dirty := true, refreshing := w.refreshing - 1);
    run := [];
    NoSteps(w2);
    LegalFrom(w1, w2, ExitRefresh(i), run);
    run := [ExitRefresh(i)] + run;
    LegalFrom(w, w1, Mark(i), run);
    run := [Mark(i)] + run;
  }

  /** Close writes the published corpus if the snapshot is dirty, and nothing otherwise. */
  lemma CloseWritesIfDirty(w: World) returns (run: seq<Step>)
    requires w.closing.Open? && Idle(w)
    ensures Legal(w, run)
    ensures After(w, run) == w.(closing := Closed, dirty := false, disk := if w.dirty then w.corpus else w.disk)
  {
    hide Legal, After;
    var w1 := Apply(w, CloseSwap);
    run := [];
    if w.dirty {
      var w2 := Apply(w1, CloseRead);
      var w3 := Apply(w2, CloseWrite);
      NoSteps(w3);
      LegalFrom(w2, w3, CloseWrite, run);
      run := [CloseWrite] + run;
      LegalFrom(w1, w2, CloseRead, run);
      run := [CloseRead] + run;
    } else {
      NoSteps(w1);
    }
    LegalFrom(w, w1, CloseSwap, run);
    run := [CloseSwap] + run;
  }
}
