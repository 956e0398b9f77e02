/**
 When a structural build starts, and when its index is there: the clock, the running
 build and the reports of a run decide, and nothing else does.
 */
module StructuralProgress {
  import opened Collections
  import opened StructuralSpec
  import opened StructuralProtocol

  // ----- Who may start a build, and who is pending -----

  /** The recorded failure is that of a build of this run. */
  ghost predicate FailureIsABuilds(w: World) {
    w.core.failedAt.Some? ==>
      exists b :: 0 <= b < |w.builds| && HasFailed(w.builds[b]) && w.builds[b].phase.at == w.core.failedAt.value
  }

  /** The builds that have failed, but for the one a step fails, stay as they were. */
  lemma FailureStays(w: World, s: Step)
    requires FailureIsABuilds(w) && Orderly(w) && Enabled(w, s)
    ensures FailureIsABuilds(After1(w, s))
  {
    hide Overlay;
    var w' := After1(w, s);
    if s.BuildFails? {
      assert HasFailed(w'.builds[w.core.build]);
    } else if w.core.failedAt.Some? {
      var b :| 0 <= b < |w.builds| && HasFailed(w.builds[b]) && w.builds[b].phase.at == w.core.failedAt.value;
      assert HasFailed(w'.builds[b]) && w'.builds[b].phase.at == w.core.failedAt.value;
    }
  }

  lemma {:induction false} RunFailure(w: World, run: seq<Step>)
    requires FailureIsABuilds(w) && Orderly(w) && Legal(w, run)
    ensures FailureIsABuilds(After(w, run))
    decreases |run|
  {
    hide After1, Enabled, FailureIsABuilds, Orderly;
    if run != [] {
      FailureStays(w, run[0]);
      StepOrderly(w, run[0]);
      RunFailure(After1(w, run[0]), run[1..]);
    }
  }

  /** Every build that failed did so at least the cooldown ago. */
  ghost predicate CooledDown(w: World, cooldown: nat) {
    forall b :: 0 <= b < |w.builds| && HasFailed(w.builds[b]) ==> w.builds[b].phase.at + cooldown <= w.now
  }

  lemma Reached(disk: Files, cooldown: nat, now: nat, run: seq<Step>)
    requires Legal(Init(disk, cooldown, now), run)
    ensures var w := After(Init(disk, cooldown, now), run);
      Orderly(w) && Cooled(w) && FailureIsABuilds(w) && w.cooldown == cooldown
  {
    RunOrderly(Init(disk, cooldown, now), run);
    RunCooled(Init(disk, cooldown, now), run);
    RunFailure(Init(disk, cooldown, now), run);
  }

  /**
   In every reachable world with the lock free, a call for the index starts a build
   exactly when there is no index, no build is running, and every build that failed did
   so at least the cooldown ago.
   */
  lemma GetStartsIff(disk: Files, cooldown: nat, now: nat, run: seq<Step>)
    requires Legal(Init(disk, cooldown, now), run) && After(Init(disk, cooldown, now), run).lock.Free?
    ensures var w := After(Init(disk, cooldown, now), run);
      Enabled(w, Get) <==> w.core.cur.None? && !SomeRunning(w) && CooledDown(w, cooldown)
  {
    Reached(disk, cooldown, now, run);
  }

  /** And it is pending when there is no index, but a build runs or a call now would start one. */
  lemma PendingIff(disk: Files, cooldown: nat, now: nat, run: seq<Step>)
    requires Legal(Init(disk, cooldown, now), run)
    ensures var w := After(Init(disk, cooldown, now), run);
      PendingNow(w.core, w.now, cooldown) <==> SomeRunning(w) || (w.core.cur.None? && CooledDown(w, cooldown))
  {
    Reached(disk, cooldown, now, run);
  }

  // ----- When there is an index -----

  /** What the steps of a run say of the index: whether there is one, a build runs, and its result is to be dropped. */
  datatype Told = Told(index: bool, building: bool, dropped: bool)

  function Tell(t: Told, s: Step): Told {
    match s
    case Get => Told(t.index, true, false)
    case BuildFails => Told(t.index, false, false)
    case EndFinish => Told(!t.dropped, false, false)
    case Apply(_, true) => if t.building then t.(dropped := true) else t.(index := false)
    case _ => t
  }

  function Telling(t: Told, run: seq<Step>): Told
    decreases |run|
  {
    if run == [] then t else Telling(Tell(t, run[0]), run[1..])
  }

  ghost predicate Agreed(w: World, t: Told) {
    w.core.cur.Some? == t.index && w.core.building == t.building && w.core.pendingReset == t.dropped
  }

  lemma StepAgreed(w: World, s: Step, t: Told)
    requires Orderly(w) && Agreed(w, t) && Enabled(w, s)
    ensures Agreed(After1(w, s), Tell(t, s))
  {
    hide Overlay;
  }

  lemma {:induction false} RunAgreed(w: World, run: seq<Step>, t: Told)
    requires Orderly(w) && Agreed(w, t) && Legal(w, run)
    ensures Agreed(After(w, run), Telling(t, run))
    decreases |run|
  {
    hide After1, Enabled, Orderly, Agreed, Tell;
    if run != [] {
      StepAgreed(w, run[0], t);
      StepOrderly(w, run[0]);
      RunAgreed(After1(w, run[0]), run[1..], Tell(t, run[0]));
    }
  }

  /**
   There is an index exactly when a build has succeeded without a resync since it
   started, and none since it ended: nothing else publishes one or takes it away.
   */
  lemma IndexIsThere(disk: Files, cooldown: nat, now: nat, run: seq<Step>)
    requires Legal(Init(disk, cooldown, now), run)
    ensures After(Init(disk, cooldown, now), run).core.cur.Some? <==> Telling(Told(false, false, false), run).index
  {
    RunAgreed(Init(disk, cooldown, now), run, Told(false, false, false));
  }

  /** A build that runs can go on: it observes a file it has yet to read, or it is ready to be recorded. */
  lemma BuildGoesOn(disk: Files, cooldown: nat, now: nat, run: seq<Step>)
    requires Legal(Init(disk, cooldown, now), run)
    requires var w := After(Init(disk, cooldown, now), run); SomeRunning(w) && w.lock.Free?
    ensures var w := After(Init(disk, cooldown, now), run);
      Enabled(w, BeginFinish) || exists p :: Enabled(w, Observe(p))
  {
    Reached(disk, cooldown, now, run);
    var w := After(Init(disk, cooldown, now), run);
    var b := w.builds[w.core.build].phase;
    if !(b.todo <= b.obs.Keys) {
      var p :| p in b.todo && p !in b.obs;
      assert Enabled(w, Observe(p));
    }
  }
}
