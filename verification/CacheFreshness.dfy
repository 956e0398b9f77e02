/**
 Staleness is ruled out by generations: a build reads its generation before it
 reads the mode, and only bundles of the current generation are cached. So once
 auto-fetch has stored the new mode and purged, the old mode never comes back.
 */
module CacheFreshness {
  import opened CacheSpec
  import opened CacheProtocol

  /** A bundle's origin matches its turn's, and nothing of the current generation predates the last Purge. */
  ghost predicate OriginOk(w: World, k: Key, startGen: nat, b: Bundle) {
    && b < |w.bundles|
    && w.bundles[b].key == k
    && w.bundles[b].startGen == startGen
    && VersionOk(w, startGen, w.bundles[b].version)
  }

  ghost predicate VersionOk(w: World, startGen: nat, version: nat) {
    && startGen <= w.core.gen
    && version < |w.modes|
    && (startGen == w.core.gen ==> w.covered <= version)
  }

  ghost predicate TurnFresh(w: World, t: Turn) {
    match t.phase
    case Marked(g) => g <= w.core.gen
    case Configured(g, v) => VersionOk(w, g, v)
    case Loaded(g, v, _) => VersionOk(w, g, v)
    case Holding(g, b) => OriginOk(w, t.key, g, b)
    case _ => true
  }

  ghost predicate Fresh(w: World) {
    && w.covered < |w.modes|
    && (forall t :: 0 <= t < |w.turns| ==> TurnFresh(w, w.turns[t]))
    && (forall e :: e in w.core.ll ==> OriginOk(w, e.key, w.core.gen, e.bundle))
  }

  /** Nothing in `Fresh` depends on more than this of the world. */
  ghost predicate Extends(w: World, w': World) {
    && w'.core.gen == w.core.gen
    && w'.covered == w.covered
    && |w.modes| <= |w'.modes|
    && |w.bundles| <= |w'.bundles|
    && forall b :: 0 <= b < |w.bundles| ==> w'.bundles[b].(chunks := []) == w.bundles[b].(chunks := [])
  }

  lemma ExtendsFresh(w: World, w': World, t: Turn)
    requires TurnFresh(w, t) && Extends(w, w')
    ensures TurnFresh(w', t)
  {
  }

  /** The turn that moves is as fresh after its step. */
  lemma OwnStepFresh(w: World, s: Step)
    requires Enabled(w, s) && IsTurnStep(s) && !s.TurnCommit? && TurnFresh(w, w.turns[s.turn])
    requires w.covered < |w.modes|
    ensures s.turn < |Apply(w, s).turns| && TurnFresh(Apply(w, s), Apply(w, s).turns[s.turn])
  {
  }

  lemma TurnStepFresh(w: World, s: Step)
    requires Valid(w.core) && Fresh(w) && Enabled(w, s) && IsTurnStep(s) && !s.TurnCommit?
    ensures Fresh(Apply(w, s))
  {
    hide Apply, Enabled, TurnFresh;
    var w' := Apply(w, s);
    TurnStepFrame(w, s);
    TurnStepRest(w, s);
    GrownExtends(w, w');
    OwnStepFresh(w, s);
    forall t | 0 <= t < |w'.turns| ensures TurnFresh(w', w'.turns[t]) {
      if t != s.turn { ExtendsFresh(w, w', w.turns[t]); }
    }
  }

  lemma GrownExtends(w: World, w': World)
    requires w'.core.gen == w.core.gen && w'.covered == w.covered && w'.modes == w.modes && Grows(w.bundles, w'.bundles)
    ensures Extends(w, w')
  {
    forall b | 0 <= b < |w.bundles| ensures w'.bundles[b] == w.bundles[b] { GrowsAt(w.bundles, w'.bundles, b); }
  }

  lemma CommitFresh(w: World, t: nat)
    requires Valid(w.core) && Fresh(w) && Enabled(w, TurnCommit(t))
    ensures Fresh(DoTurnCommit(w, t))
  {
    hide AfterCommit, ToReap;
    var w' := DoTurnCommit(w, t);
    CommitEntries(w.core, w.turns[t].key, w.turns[t].phase.bundle, w.turns[t].phase.startGen);
    assert Extends(w, w');
    forall i | 0 <= i < |w'.turns| ensures TurnFresh(w', w'.turns[i]) {
      assert TurnFresh(w, w.turns[i]);
    }
    assert TurnFresh(w, w.turns[t]);
  }

  /** A commit caches nothing but the new entry, and that only under the generation its build began in. */
  lemma CommitEntries(c: Core, k: Key, b: Bundle, g: nat)
    requires Valid(c)
    ensures var c' := AfterCommit(c, k, b, g);
      && c'.gen == c.gen
      && forall e :: e in c'.ll ==> e in c.ll || (e == Entry(k, b) && g == c.gen)
  {
  }

  /** A step that extends the world, caches nothing new and adds only turns yet to start. */
  lemma ExtensionFresh(w: World, w': World)
    requires Fresh(w) && Extends(w, w') && |w.turns| <= |w'.turns|
    requires forall e :: e in w'.core.ll ==> e in w.core.ll
    requires forall t :: 0 <= t < |w.turns| ==> w'.turns[t] == w.turns[t]
    requires forall t :: |w.turns| <= t < |w'.turns| ==> w'.turns[t].phase.Starting?
    ensures Fresh(w')
  {
    forall t | 0 <= t < |w'.turns| ensures TurnFresh(w', w'.turns[t]) {
      if t < |w.turns| { assert TurnFresh(w, w.turns[t]); }
    }
  }

  lemma PurgeFresh(w: World)
    requires Fresh(w) && Valid(w.core)
    ensures Fresh(DoPurge(w))
  {
    var w' := DoPurge(w);
    forall t | 0 <= t < |w'.turns| ensures TurnFresh(w', w'.turns[t]) {
      assert TurnFresh(w, w.turns[t]);
    }
  }

  lemma StepFresh(w: World, s: Step)
    requires Valid(w.core) && Fresh(w) && Enabled(w, s)
    ensures Fresh(Apply(w, s))
  {
    if s.TurnCommit? {
      CommitFresh(w, s.turn);
    } else if IsTurnStep(s) {
      TurnStepFresh(w, s);
    } else if s.Purge? {
      PurgeFresh(w);
    } else {
      ExtensionFresh(w, Apply(w, s));
    }
  }

  lemma {:induction false} RunFresh(w: World, run: seq<Step>)
    requires Valid(w.core) && Fresh(w) && Legal(w, run)
    ensures Valid(After(w, run).core) && Fresh(After(w, run))
    decreases |run|
  {
    if run != [] {
      StepValid(w, run[0]);
      StepFresh(w, run[0]);
      RunFresh(Apply(w, run[0]), run[1..]);
    }
  }

  /** Every cached bundle was built for its own key, under the generation that is current now. */
  lemma CachedGenerationIsCurrent(max: nat, mode: Mode, k: Key, run: seq<Step>, e: Entry)
    requires Legal(Init(max, mode, k), run)
    requires e in After(Init(max, mode, k), run).core.ll
    ensures var w := After(Init(max, mode, k), run);
      e.bundle < |w.bundles| && w.bundles[e.bundle].key == e.key && w.bundles[e.bundle].startGen == w.core.gen
  {
    RunFresh(Init(max, mode, k), run);
  }

  // ----- The background mode upgrade -----

  ghost predicate NoSetMode(run: seq<Step>) {
    forall i :: 0 <= i < |run| ==> !run[i].SetMode?
  }

  lemma {:induction false} ModesKept(w: World, run: seq<Step>)
    requires Legal(w, run) && NoSetMode(run)
    ensures After(w, run).modes == w.modes
    decreases |run|
  {
    if run != [] { ModesKept(Apply(w, run[0]), run[1..]); }
  }

  /** Purges only move `covered` forward to the mode that is live then. */
  lemma {:induction false} CoveredKept(w: World, run: seq<Step>)
    requires Legal(w, run) && NoSetMode(run) && |w.modes| > 0
    requires w.core.closed || w.covered == |w.modes| - 1
    ensures After(w, run).core.closed || After(w, run).covered == |w.modes| - 1
    decreases |run|
  {
    if run != [] { CoveredKept(Apply(w, run[0]), run[1..]); }
  }

  /**
   autoFetchModel: the new mode is stored, then Purge's critical section runs.
   From there on, whatever was in flight and however the rest interleaves, every
   cached bundle was built with the new mode.
   */
  lemma NoOldModeAfterUpgrade(max: nat, mode: Mode, k: Key, newMode: Mode,
                              before: seq<Step>, between: seq<Step>, after: seq<Step>, e: Entry)
    requires NoSetMode(between) && NoSetMode(after)
    requires Legal(Init(max, mode, k), before + [SetMode(newMode)] + between + [Purge] + after)
    requires e in After(Init(max, mode, k), before + [SetMode(newMode)] + between + [Purge] + after).core.ll
    ensures var w := After(Init(max, mode, k), before + [SetMode(newMode)] + between + [Purge] + after);
      && e.bundle < |w.bundles| && w.bundles[e.bundle].version < |w.modes|
      && w.modes[w.bundles[e.bundle].version] == newMode
  {
    hide Apply, Enabled, Fresh, Legal, After;
    var w0 := Init(max, mode, k);
    var stored := before + [SetMode(newMode)];
    RunSplit(w0, stored + between + [Purge], after);
    RunSplit(w0, stored + between, [Purge]);
    RunSplit(w0, stored, between);
    RunSplit(w0, before, [SetMode(newMode)]);
    ModeStored(After(w0, before), newMode);
    var w := After(w0, stored);
    Upgraded(w, between, after);
    InitModes(max, mode, k);
    RunFresh(w0, stored + between + [Purge] + after);
    NewModeOnly(After(w0, stored + between + [Purge] + after), |w.modes| - 1, e);
  }

  lemma ModeStored(w: World, newMode: Mode)
    requires Legal(w, [SetMode(newMode)])
    ensures var w' := After(w, [SetMode(newMode)]); w'.modes == w.modes + [newMode]
  {
    LastStep(w, SetMode(newMode));
  }

  /** From the Purge on the mode that is live then is the only one an uncovered build can have. */
  lemma Upgraded(w: World, between: seq<Step>, after: seq<Step>)
    requires NoSetMode(between) && NoSetMode(after) && |w.modes| > 0
    requires Legal(w, between) && Legal(After(w, between), [Purge])
    requires Legal(After(After(w, between), [Purge]), after)
    ensures var w' := After(After(After(w, between), [Purge]), after);
      w'.modes == w.modes && (w'.core.closed || w'.covered == |w.modes| - 1)
  {
    hide Enabled, Legal, After;
    ModesKept(w, between);
    LastStep(After(w, between), Purge);
    ModesKept(After(After(w, between), [Purge]), after);
    CoveredKept(After(After(w, between), [Purge]), after);
  }

  lemma InitModes(max: nat, mode: Mode, k: Key)
    ensures Valid(Init(max, mode, k).core) && Fresh(Init(max, mode, k))
  {
  }

  lemma NewModeOnly(w: World, version: nat, e: Entry)
    requires Valid(w.core) && Fresh(w) && e in w.core.ll && version == |w.modes| - 1
    requires w.core.closed || w.covered == version
    ensures e.bundle < |w.bundles| && w.bundles[e.bundle].version == version
  {
    assert OriginOk(w, e.key, w.core.gen, e.bundle);
  }
}
