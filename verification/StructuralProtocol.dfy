/**
 The structural build against a changing disk. Files change at any time; a build
 observes them one by one; `apply` and the end of `run` re-read files one by one
 while they hold the lock. A step is one observation, edit or lock transition, and
 a run is any sequence of enabled steps.
 */
module StructuralProtocol {
  import opened Collections
  import opened StructuralSpec

  datatype BuildPhase =
    | Running(obs: Reads, todo: set<Path>)   // todo: what was on the disk when the build started
    | Recorded(at: nat, failed: bool)        // outcome stored, lock released
    | Over(at: nat, failed: bool)            // done closed

  /** `closes` counts how often the build's done channel has been closed. */
  datatype Build = Build(started: nat, phase: BuildPhase, closes: nat)

  datatype Lock =
    | Free
    | Applying(paths: set<Path>, found: Reads)
    | Finishing(idx: Files, found: Reads)

  /** A call of stop: the done channel and the building flag it sampled, and whether it has returned. */
  datatype Stop = Stop(done: nat, building: bool, returned: bool)

  datatype World = World(
    core: Core,
    cooldown: nat,
    now: nat,
    disk: Files,
    lock: Lock,
    builds: seq<Build>,
    stops: seq<Stop>,
    // History:
    unreported: set<Path>,   // edited since the last apply that lists them or resyncs
    published: nat)          // non-nil stores to the published index

  datatype Step =
    | Tick
    | Edit(path: Path, to: Option<Symbols>)
    | Get | Observe(path: Path) | BuildFails | BeginFinish | ReadQueued(path: Path) | EndFinish
    | CloseDone(build: nat)
    | Apply(paths: set<Path>, resync: bool) | ReadChanged(path: Path) | EndApply(changed: bool)
    | EnterStop | LeaveStop(stop: nat)

  function Init(disk: Files, cooldown: nat, now: nat): World {
    World(Core(None, 0, false, 0, None, {}, false), cooldown, now, disk, Free, [], [], {}, 0)
  }

  /** The build in flight, if its builder is still running. */
  predicate InFlight(w: World) {
    w.core.building && w.core.build < |w.builds| && w.builds[w.core.build].phase.Running?
  }

  predicate Enabled(w: World, s: Step) {
    match s
    case Get => w.lock.Free? && MayStart(w.core, w.now, w.cooldown)
    case Observe(p) => InFlight(w) && w.lock.Free? && p !in w.builds[w.core.build].phase.obs
    case BuildFails => InFlight(w) && w.lock.Free?
    case BeginFinish =>
      InFlight(w) && w.lock.Free? && w.builds[w.core.build].phase.todo <= w.builds[w.core.build].phase.obs.Keys
    case ReadQueued(p) => w.lock.Finishing? && p !in w.lock.found
    case EndFinish =>
      InFlight(w) && w.lock.Finishing? && (w.core.pendingReset || w.core.queued <= w.lock.found.Keys)
    case CloseDone(b) => b < |w.builds| && w.builds[b].phase.Recorded?
    case Apply(_, _) => w.lock.Free?
    case ReadChanged(p) => w.lock.Applying? && p !in w.lock.found
    case EndApply(changed) =>
      && w.lock.Applying? && w.core.cur.Some?
      && w.lock.paths <= w.lock.found.Keys
      && (!changed ==> Overlay(w.core.cur.value, w.lock.found) == w.core.cur.value)
    case EnterStop => w.lock.Free?
    case LeaveStop(i) =>
      && i < |w.stops| && !w.stops[i].returned
      && (w.stops[i].building ==> w.stops[i].done < |w.builds| && w.builds[w.stops[i].done].phase.Over?)
    case _ => true
  }

  /** What a build makes of its observations. */
  function ResultOf(obs: Reads): Files { Overlay(map[], obs) }

  function WithBuild(w: World, p: BuildPhase): World
    requires w.core.build < |w.builds|
  {
    w.(builds := w.builds[w.core.build := w.builds[w.core.build].(phase := p)])
  }

  function DoEdit(w: World, p: Path, to: Option<Symbols>): World {
    w.(disk := if to.Some? then w.disk[p := to.value] else w.disk - {p}, unreported := w.unreported + {p})
  }

  function DoGet(w: World): World {
    w.(core := AfterStart(w.core, |w.builds|),
       builds := w.builds + [Build(w.now, Running(map[], w.disk.Keys), 0)])
  }

  function DoObserve(w: World, p: Path): World
    requires Enabled(w, Observe(p))
  {
    var b := w.builds[w.core.build].phase;
    WithBuild(w, Running(b.obs[p := Find(w.disk, p)], b.todo))
  }

  function DoEndFinish(w: World): World
    requires Enabled(w, EndFinish)
  {
    WithBuild(w, Recorded(w.now, false)).(
      core := AfterRun(w.core, w.now, Built(w.lock.idx), w.lock.found),
      lock := Free,
      published := if RunPublishes(w.core, Built(w.lock.idx)) then w.published + 1 else w.published)
  }

  function DoCloseDone(w: World, b: nat): World
    requires Enabled(w, CloseDone(b))
  {
    var p := w.builds[b].phase;
    w.(builds := w.builds[b := w.builds[b].(phase := Over(p.at, p.failed), closes := w.builds[b].closes + 1)])
  }

  function DoApply(w: World, paths: set<Path>, resync: bool): World {
    if Updates(w.core, resync) then w.(lock := Applying(paths, map[]), unreported := w.unreported - paths)
    else w.(core := AfterApply(w.core, paths, resync, map[], false),
            unreported := if resync then {} else w.unreported - paths)
  }

  function DoEndApply(w: World, changed: bool): World
    requires Enabled(w, EndApply(changed))
  {
    w.(core := AfterApply(w.core, w.lock.paths, false, w.lock.found, changed),
       lock := Free,
       published := if changed then w.published + 1 else w.published)
  }

  function After1(w: World, s: Step): World
    requires Enabled(w, s)
  {
    match s
    case Tick => w.(now := w.now + 1)
    case Edit(p, to) => DoEdit(w, p, to)
    case Get => DoGet(w)
    case Observe(p) => DoObserve(w, p)
    case BuildFails => WithBuild(w, Recorded(w.now, true)).(core := AfterRun(w.core, w.now, Failed, map[]))
    case BeginFinish => w.(lock := Finishing(ResultOf(w.builds[w.core.build].phase.obs), map[]))
    case ReadQueued(p) => w.(lock := w.lock.(found := w.lock.found[p := Find(w.disk, p)]))
    case EndFinish => DoEndFinish(w)
    case CloseDone(b) => DoCloseDone(w, b)
    case Apply(paths, resync) => DoApply(w, paths, resync)
    case ReadChanged(p) => w.(lock := w.lock.(found := w.lock.found[p := Find(w.disk, p)]))
    case EndApply(changed) => DoEndApply(w, changed)
    case EnterStop => w.(stops := w.stops + [Stop(w.core.build, w.core.building, false)])
    case LeaveStop(i) => w.(stops := w.stops[i := w.stops[i].(returned := true)])
  }

  ghost predicate Legal(w: World, run: seq<Step>)
    decreases |run|
  {
    run == [] || (Enabled(w, run[0]) && Legal(After1(w, run[0]), run[1..]))
  }

  ghost function After(w: World, run: seq<Step>): World
    requires Legal(w, run)
    decreases |run|
  {
    if run == [] then w else After(After1(w, run[0]), run[1..])
  }

  // ----- One build at a time -----

  ghost predicate Orderly(w: World) {
    && Settled(w.core)
    && (w.core.building ==> InFlight(w) && w.core.build == |w.builds| - 1)
    && (forall b :: 0 <= b < |w.builds| && w.builds[b].phase.Running? ==> w.core.building && w.core.build == b)
    && (forall b :: 0 <= b < |w.builds| ==> w.builds[b].closes == if w.builds[b].phase.Over? then 1 else 0)
    && (w.lock.Applying? ==> !w.core.building && w.core.cur.Some?)
    && (w.lock.Finishing? ==> w.core.building)
    && w.core.gen == w.published
  }

  /** The steps that add a build or move one on. */
  predicate IsBuildStep(s: Step) {
    s.Get? || s.Observe? || s.BuildFails? || s.EndFinish? || s.CloseDone?
  }

  lemma BuildStepOrderly(w: World, s: Step)
    requires Orderly(w) && Enabled(w, s) && IsBuildStep(s)
    ensures Orderly(After1(w, s))
  {
    hide Overlay;
  }

  lemma OtherStepOrderly(w: World, s: Step)
    requires Orderly(w) && Enabled(w, s) && !IsBuildStep(s)
    ensures Orderly(After1(w, s))
  {
    hide Overlay;
  }

  lemma StepOrderly(w: World, s: Step)
    requires Orderly(w) && Enabled(w, s)
    ensures Orderly(After1(w, s))
  {
    hide After1, Enabled, Orderly;
    if IsBuildStep(s) { BuildStepOrderly(w, s); } else { OtherStepOrderly(w, s); }
  }

  lemma {:induction false} RunOrderly(w: World, run: seq<Step>)
    requires Orderly(w) && Legal(w, run)
    ensures Orderly(After(w, run))
    decreases |run|
  {
    if run != [] {
      StepOrderly(w, run[0]);
      RunOrderly(After1(w, run[0]), run[1..]);
    }
  }

  /**
   At most one build runs at a time; a build's done channel is closed at most once,
   only when its outcome has been recorded, and exactly once when the build is over;
   the generation counts the indexes published.
   */
  lemma OneBuildAtATime(disk: Files, cooldown: nat, now: nat, run: seq<Step>, b: nat, b': nat)
    requires Legal(Init(disk, cooldown, now), run)
    requires b < |After(Init(disk, cooldown, now), run).builds| && b' < |After(Init(disk, cooldown, now), run).builds|
    ensures var w := After(Init(disk, cooldown, now), run);
      && (w.builds[b].phase.Running? && w.builds[b'].phase.Running? ==> b == b')
      && w.builds[b].closes <= 1
      && (w.builds[b].closes == 1 <==> w.builds[b].phase.Over?)
      && w.core.gen == w.published
  {
    RunOrderly(Init(disk, cooldown, now), run);
  }

  // ----- The index agrees with the disk -----

  /** What the running build will say of `p` matches the disk, or `p` is queued, or yet to be read. */
  ghost predicate BuildOk(w: World, p: Path)
    requires InFlight(w)
  {
    var b := w.builds[w.core.build].phase;
    || p in w.core.queued
    || (if p in b.obs then b.obs[p] == Find(w.disk, p) else p in b.todo || p !in w.disk)
  }

  ghost predicate Agrees(w: World, p: Path)
    requires Orderly(w)
  {
    match w.lock
    case Free =>
      && (w.core.cur.Some? ==> Find(w.core.cur.value, p) == Find(w.disk, p))
      && (w.core.building && !w.core.pendingReset ==> BuildOk(w, p))
    case Applying(paths, found) =>
      && (p !in paths ==> Find(w.core.cur.value, p) == Find(w.disk, p))
      && ((p in paths && p !in found) || Find(Overlay(w.core.cur.value, found), p) == Find(w.disk, p))
    case Finishing(idx, found) =>
      || w.core.pendingReset
      || (p in w.core.queued && p !in found)
      || Find(if w.core.queued != {} then Overlay(idx, found) else idx, p) == Find(w.disk, p)
  }

  ghost predicate Current(w: World) {
    Orderly(w) && forall p :: p !in w.unreported ==> Agrees(w, p)
  }

  lemma StepAgrees(w: World, s: Step, p: Path)
    requires Current(w) && Enabled(w, s) && Orderly(After1(w, s))
    requires p !in After1(w, s).unreported
    ensures Agrees(After1(w, s), p)
  {
    assert p !in w.unreported ==> Agrees(w, p);
  }

  lemma {:induction false} RunCurrent(w: World, run: seq<Step>)
    requires Current(w) && Legal(w, run)
    ensures Current(After(w, run))
    decreases |run|
  {
    if run != [] {
      var w' := After1(w, run[0]);
      StepOrderly(w, run[0]);
      forall p | p !in w'.unreported ensures Agrees(w', p) {
        StepAgrees(w, run[0], p);
      }
      RunCurrent(w', run[1..]);
    }
  }

  /**
   In every run the published index agrees with the current disk on every path that
   has no unreported edit and is not being reported this moment.
   */
  lemma PublishedAgreesWithDisk(disk: Files, cooldown: nat, now: nat, run: seq<Step>, p: Path)
    requires Legal(Init(disk, cooldown, now), run)
    requires var w := After(Init(disk, cooldown, now), run);
      w.core.cur.Some? && p !in w.unreported && (w.lock.Applying? ==> p !in w.lock.paths)
    ensures var w := After(Init(disk, cooldown, now), run);
      Find(w.core.cur.value, p) == Find(w.disk, p)
  {
    RunCurrent(Init(disk, cooldown, now), run);
    assert Agrees(After(Init(disk, cooldown, now), run), p);
  }

  /** A build that observes `order` on a disk nobody edits meanwhile. */
  function FreshBuild(disk: Files, order: seq<Path>): Files {
    ResultOf(map p | p in order :: Find(disk, p))
  }

  /** When every edit has been reported, the incremental index is what a fresh build would produce. */
  lemma QuiescentIndexIsFresh(disk: Files, cooldown: nat, now: nat, run: seq<Step>, order: seq<Path>)
    requires Legal(Init(disk, cooldown, now), run)
    requires var w := After(Init(disk, cooldown, now), run);
      w.core.cur.Some? && w.unreported == {} && !w.lock.Applying? && forall p :: p in w.disk ==> p in order
    ensures var w := After(Init(disk, cooldown, now), run);
      w.core.cur.value == FreshBuild(w.disk, order) == w.disk
  {
    var w := After(Init(disk, cooldown, now), run);
    forall p ensures Find(w.core.cur.value, p) == Find(w.disk, p) {
      PublishedAgreesWithDisk(disk, cooldown, now, run, p);
    }
    SameFiles(w.core.cur.value, w.disk);
    SameFiles(FreshBuild(w.disk, order), w.disk);
  }

  // ----- Failures cool down -----

  predicate HasFailed(b: Build) {
    !b.phase.Running? && b.phase.failed
  }

  ghost predicate Cooled(w: World) {
    && (forall b :: 0 <= b < |w.builds| && HasFailed(w.builds[b]) ==>
          w.core.failedAt.Some? && w.builds[b].phase.at <= w.core.failedAt.value <= w.now)
    && (w.core.failedAt.Some? ==> w.core.failedAt.value <= w.now)
    && (forall b, b' :: 0 <= b < b' < |w.builds| && HasFailed(w.builds[b]) ==>
          w.builds[b].phase.at + w.cooldown <= w.builds[b'].started)
  }

  lemma BuildStepCooled(w: World, s: Step)
    requires Orderly(w) && Cooled(w) && Enabled(w, s) && IsBuildStep(s)
    ensures Cooled(After1(w, s)) && After1(w, s).cooldown == w.cooldown
  {
    hide Overlay;
  }

  lemma OtherStepCooled(w: World, s: Step)
    requires Orderly(w) && Cooled(w) && Enabled(w, s) && !IsBuildStep(s)
    ensures Cooled(After1(w, s)) && After1(w, s).cooldown == w.cooldown
  {
    hide Overlay;
  }

  lemma StepCooled(w: World, s: Step)
    requires Orderly(w) && Cooled(w) && Enabled(w, s)
    ensures Cooled(After1(w, s)) && After1(w, s).cooldown == w.cooldown
  {
    hide After1, Enabled, Orderly, Cooled;
    if IsBuildStep(s) { BuildStepCooled(w, s); } else { OtherStepCooled(w, s); }
  }

  lemma {:induction false} RunCooled(w: World, run: seq<Step>)
    requires Orderly(w) && Cooled(w) && Legal(w, run)
    ensures Cooled(After(w, run)) && After(w, run).cooldown == w.cooldown
    decreases |run|
  {
    if run != [] {
      StepOrderly(w, run[0]);
      StepCooled(w, run[0]);
      RunCooled(After1(w, run[0]), run[1..]);
    }
  }

  /** No build starts within the cooldown of any build that failed before it. */
  lemma NoBuildInsideCooldown(disk: Files, cooldown: nat, now: nat, run: seq<Step>, b: nat, b': nat)
    requires Legal(Init(disk, cooldown, now), run)
    requires b < b' < |After(Init(disk, cooldown, now), run).builds|
    requires HasFailed(After(Init(disk, cooldown, now), run).builds[b])
    ensures var w := After(Init(disk, cooldown, now), run);
      w.builds[b].phase.at + cooldown <= w.builds[b'].started
  {
    RunCooled(Init(disk, cooldown, now), run);
  }

  // ----- stop waits for the build it found -----

  /** A stop that has returned sampled no build, or one whose done channel is closed. */
  ghost predicate Stopping(w: World) {
    forall i :: 0 <= i < |w.stops| && w.stops[i].returned && w.stops[i].building ==>
      w.stops[i].done < |w.builds| && w.builds[w.stops[i].done].phase.Over?
  }

  ghost predicate SameSample(a: Stop, b: Stop) { a.done == b.done && a.building == b.building }

  lemma StepStopping(w: World, s: Step)
    requires Stopping(w) && Enabled(w, s)
    ensures Stopping(After1(w, s))
    ensures |w.stops| <= |After1(w, s).stops|
    ensures forall i :: 0 <= i < |w.stops| ==> SameSample(After1(w, s).stops[i], w.stops[i])
  {
  }

  lemma {:induction false} RunStopping(w: World, run: seq<Step>)
    requires Stopping(w) && Legal(w, run)
    ensures Stopping(After(w, run))
    ensures |w.stops| <= |After(w, run).stops|
    ensures forall i :: 0 <= i < |w.stops| ==> SameSample(After(w, run).stops[i], w.stops[i])
    decreases |run|
  {
    if run != [] {
      StepStopping(w, run[0]);
      RunStopping(After1(w, run[0]), run[1..]);
    }
  }

  /** The channel under the lock is that of the build that is running, whichever build that is. */
  lemma SampledIsRunning(w: World, b: nat)
    requires Orderly(w) && b < |w.builds| && w.builds[b].phase.Running?
    ensures w.core.building && w.core.build == b
  {
  }

  /**
   When a stop is entered at a reachable world in which some build `b` is running,
   it has not returned in any continuation until `b` itself is over: its outcome
   recorded and its done channel closed, exactly once.
   */
  lemma StopWaitsForItsBuild(disk: Files, cooldown: nat, now: nat, before: seq<Step>, after: seq<Step>, b: nat)
    requires Legal(Init(disk, cooldown, now), before)
    requires var w := After(Init(disk, cooldown, now), before);
      && b < |w.builds| && w.builds[b].phase.Running?
      && Enabled(w, EnterStop) && Legal(After1(w, EnterStop), after)
    ensures var w := After(Init(disk, cooldown, now), before);
      var w' := After(After1(w, EnterStop), after);
      && |w.stops| < |w'.stops|
      && (w'.stops[|w.stops|].returned ==>
            b < |w'.builds| && w'.builds[b].phase.Over? && w'.builds[b].closes == 1)
  {
    var w := After(Init(disk, cooldown, now), before);
    RunOrderly(Init(disk, cooldown, now), before);
    SampledIsRunning(w, b);
    RunStopping(Init(disk, cooldown, now), before);
    StepOrderly(w, EnterStop);
    RunStopping(After1(w, EnterStop), after);
    RunOrderly(After1(w, EnterStop), after);
    var w' := After(After1(w, EnterStop), after);
    assert SameSample(w'.stops[|w.stops|], After1(w, EnterStop).stops[|w.stops|]);
  }

  // ----- What a returned stop says about later calls -----

  lemma {:induction false} NotRunningStays(w: World, run: seq<Step>, b: nat)
    requires Legal(w, run) && b < |w.builds| && !w.builds[b].phase.Running?
    requires Orderly(w)
    ensures b < |After(w, run).builds| && !After(w, run).builds[b].phase.Running?
    decreases |run|
  {
    if run != [] {
      StepOrderly(w, run[0]);
      StepNotRunning(w, run[0], b);
      NotRunningStays(After1(w, run[0]), run[1..], b);
    }
  }

  lemma StepNotRunning(w: World, s: Step, b: nat)
    requires Orderly(w) && Enabled(w, s) && b < |w.builds| && !w.builds[b].phase.Running?
    ensures b < |After1(w, s).builds| && !After1(w, s).builds[b].phase.Running?
  {
  }

  ghost predicate SomeRunning(w: World) {
    exists b :: 0 <= b < |w.builds| && w.builds[b].phase.Running?
  }

  /**
   Once a stop has returned, a build is running exactly when the one in flight was
   started after the stop took its sample. So nothing outlives the stop as long as
   no call starts a build after it.
   */
  lemma RunsOnlyIfStartedLater(disk: Files, cooldown: nat, now: nat, before: seq<Step>, after: seq<Step>)
    requires Legal(Init(disk, cooldown, now), before)
    requires var w := After(Init(disk, cooldown, now), before);
      Enabled(w, EnterStop) && Legal(After1(w, EnterStop), after)
    ensures var w := After(Init(disk, cooldown, now), before);
      var w' := After(After1(w, EnterStop), after);
      && |w.stops| < |w'.stops|
      && (w'.stops[|w.stops|].returned ==>
            (SomeRunning(w') <==> w'.core.building && w'.core.build >= |w.builds|))
      && (w'.stops[|w.stops|].returned && NoGet(after) ==> !SomeRunning(w'))
  {
    hide Enabled, After1;
    var w0 := Init(disk, cooldown, now);
    var w := After(w0, before);
    var w1 := After1(w, EnterStop);
    var w' := After(w1, after);
    RunOrderly(w0, before);
    StepOrderly(w, EnterStop);
    RunOrderly(w1, after);
    RunStopping(w0, before);
    StopStarts(w);
    RunStopping(w1, after);
    if w'.stops[|w.stops|].returned {
      forall b: nat | b < |w.builds| ensures b < |w'.builds| && !w'.builds[b].phase.Running? {
        if w.builds[b].phase.Running? {
          StopWaitsForItsBuild(disk, cooldown, now, before, after, b);
        } else {
          NotRunningStays(w1, after, b);
        }
      }
      if NoGet(after) { NothingStarted(w1, after); }
    }
  }

  lemma StopStarts(w: World)
    requires Enabled(w, EnterStop) && Stopping(w)
    ensures var w' := After1(w, EnterStop); |w'.stops| == |w.stops| + 1 && w'.builds == w.builds && Stopping(w')
  {
  }

  ghost predicate NoGet(run: seq<Step>) {
    forall i :: 0 <= i < |run| ==> !run[i].Get?
  }

  lemma {:induction false} NothingStarted(w: World, run: seq<Step>)
    requires Legal(w, run) && NoGet(run)
    ensures |After(w, run).builds| == |w.builds|
    decreases |run|
  {
    if run != [] {
      StepStartsNothing(w, run[0]);
      NothingStarted(After1(w, run[0]), run[1..]);
    }
  }

  lemma StepStartsNothing(w: World, s: Step)
    requires Enabled(w, s) && !s.Get?
    ensures |After1(w, s).builds| == |w.builds|
  {
  }

  /** A holder that asks for the index after a stop has returned starts a build. */
  lemma StoppedMachineCanBuild(disk: Files, cooldown: nat, now: nat)
    ensures Legal(Init(disk, cooldown, now), [EnterStop, LeaveStop(0), Get])
    ensures var w := After(Init(disk, cooldown, now), [EnterStop, LeaveStop(0), Get]);
      w.stops[0].returned && SomeRunning(w)
  {
    var w0 := Init(disk, cooldown, now);
    var w1 := After1(w0, EnterStop);
    var w2 := After1(w1, LeaveStop(0));
    var w3 := After1(w2, Get);
    var run := [EnterStop, LeaveStop(0), Get];
    assert run[1..] == [LeaveStop(0), Get] && run[1..][1..] == [Get] && run[1..][1..][1..] == [];
    assert Legal(w3, []) && After(w3, []) == w3;
    assert w3.builds[0].phase.Running?;
  }

  // ----- Without updates -----

  ghost predicate NoApply(run: seq<Step>) {
    forall i :: 0 <= i < |run| ==> !run[i].Apply?
  }

  /** Nothing is queued, no reset is owed, and at most one index has been published. */
  ghost predicate Plain(c: Core) {
    c.queued == {} && !c.pendingReset && c.gen == if c.cur.Some? then 1 else 0
  }

  lemma {:induction false} RunPlain(w: World, run: seq<Step>)
    requires Legal(w, run) && NoApply(run) && Settled(w.core) && Plain(w.core) && !w.lock.Applying?
    ensures Settled(After(w, run).core) && Plain(After(w, run).core) && !After(w, run).lock.Applying?
    decreases |run|
  {
    if run != [] {
      StepPlain(w, run[0]);
      RunPlain(After1(w, run[0]), run[1..]);
    }
  }

  lemma StepPlain(w: World, s: Step)
    requires Enabled(w, s) && !s.Apply? && Settled(w.core) && Plain(w.core) && !w.lock.Applying?
    ensures Settled(After1(w, s).core) && Plain(After1(w, s).core) && !After1(w, s).lock.Applying?
  {
  }

  /** A machine that is never updated stays in the states of a RepoBundle's build: what is published is for good. */
  lemma WithoutApplyPublishesOnce(disk: Files, cooldown: nat, now: nat, before: seq<Step>, after: seq<Step>)
    requires NoApply(before) && NoApply(after)
    requires Legal(Init(disk, cooldown, now), before) && Legal(After(Init(disk, cooldown, now), before), after)
    ensures var w := After(Init(disk, cooldown, now), before);
      && Plain(w.core)
      && (w.core.cur.Some? ==> After(w, after).core.cur == w.core.cur)
  {
    var w := After(Init(disk, cooldown, now), before);
    RunPlain(Init(disk, cooldown, now), before);
    if w.core.cur.Some? { PublishedStays(w, after); }
  }

  lemma {:induction false} PublishedStays(w: World, run: seq<Step>)
    requires Legal(w, run) && NoApply(run) && Settled(w.core) && Plain(w.core) && !w.lock.Applying?
    requires w.core.cur.Some?
    ensures After(w, run).core.cur == w.core.cur
    decreases |run|
  {
    if run != [] {
      StepPlain(w, run[0]);
      PublishedStays(After1(w, run[0]), run[1..]);
    }
  }
}
