/**
 The cache under concurrency: GetBundle calls, singleflight turns running the
 builder, Purge, Close, the teardown both leave to be done outside the lock, the
 live build mode, and the DB-chunk refresher. A step is one critical section or
 one unlocked action; a run is any sequence of enabled steps.
 */
module CacheProtocol {
  import opened CacheSpec

  type Mode = string
  /** A DB chunk set; empty means nothing published. */
  type Chunks = seq<string>

  datatype Result = Ok(bundle: Bundle) | ErrClosed | ErrPurgedDuringBuild | ErrBuild

  /** Where a singleflight turn stands in the function getBundleOnce gives it. */
  datatype Phase =
    | Starting                                                    // mapped, nothing run
    | Marked(startGen: nat)                                       // generation read, key marked
    | Configured(startGen: nat, version: nat)                     // build mode read
    | Loaded(startGen: nat, version: nat, chunks: Chunks)         // DB chunks read
    | Holding(startGen: nat, bundle: Bundle)                      // Build returned a bundle
    | Unwinding(pending: seq<Entry>, result: Result)              // lock released, reaping
    | Returning(result: Result)                                   // in-flight mark deleted
    | Finished(result: Result)                                    // waiters woken

  datatype Turn = Turn(key: Key, phase: Phase)

  datatype CallPhase =
    | Entered | Missed | Waiting(turn: nat)
    | Done(result: Result, endGen: nat)

  /** A GetBundle call; `startGen` and `endGen` record the generation at its two ends. */
  datatype Call = Call(key: Key, attempt: nat, startGen: nat, phase: CallPhase)

  /** What a bundle was built from and what DB chunks it carries now. */
  datatype Info = Info(key: Key, startGen: nat, version: nat, chunks: Chunks)

  /** The refresher's callback: idle, or waiting for its cache.Get. */
  datatype OnExtras = Idle | Getting(call: nat)

  datatype World = World(
    core: Core,
    sf: map<Key, nat>,
    turns: seq<Turn>,
    calls: seq<Call>,
    bundles: seq<Info>,
    reapers: seq<seq<Entry>>,   // what each Purge and Close has detached and not yet reaped
    reaped: seq<Entry>,
    modes: seq<Mode>,           // every mode buildState has held, the live one last
    extras: Chunks,
    onExtras: OnExtras,
    defaultKey: Key,
    // History:
    covered: nat)               // the mode version at the last Purge

  datatype Step =
    | CallStart(key: Key) | CallLookup(call: nat) | CallDo(call: nat) | CallWake(call: nat)
    | TurnMark(turn: nat) | TurnConfigure(turn: nat) | TurnLoad(turn: nat)
    | TurnBuilt(turn: nat) | TurnFailed(turn: nat) | TurnCommit(turn: nat)
    | TurnReap(turn: nat) | TurnUnmark(turn: nat) | TurnFinish(turn: nat)
    | Purge | Close | Reap(reaper: nat)
    | SetMode(mode: Mode)
    | StoreExtras(chunks: Chunks) | ApplyExtras

  predicate IsTurnStep(s: Step) {
    s.TurnMark? || s.TurnConfigure? || s.TurnLoad? || s.TurnBuilt? || s.TurnFailed? || s.TurnCommit?
    || s.TurnReap? || s.TurnUnmark? || s.TurnFinish?
  }

  predicate IsCallStep(s: Step) {
    s.CallStart? || s.CallLookup? || s.CallDo? || s.CallWake?
  }

  function Init(max: nat, mode: Mode, defaultKey: Key): World {
    World(Core(if max == 0 then DEFAULT_CACHE_SIZE else max, [], map[], 0, false, {}),
          map[], [], [], [], [], [], [mode], [], Idle, defaultKey, 0)
  }

  // ----- When a step can be taken -----

  predicate Enabled(w: World, s: Step) {
    match s
    case CallLookup(c) => c < |w.calls| && w.calls[c].phase.Entered?
    case CallDo(c) => c < |w.calls| && w.calls[c].phase.Missed?
    case CallWake(c) =>
      && c < |w.calls| && w.calls[c].phase.Waiting?
      && var t := w.calls[c].phase.turn; t < |w.turns| && w.turns[t].phase.Finished?
    case TurnMark(t) => t < |w.turns| && w.turns[t].phase.Starting?
    case TurnConfigure(t) => t < |w.turns| && w.turns[t].phase.Marked? && |w.modes| > 0
    case TurnLoad(t) => t < |w.turns| && w.turns[t].phase.Configured?
    case TurnBuilt(t) => t < |w.turns| && w.turns[t].phase.Loaded?
    case TurnFailed(t) =>
      t < |w.turns| && (w.turns[t].phase.Marked? || w.turns[t].phase.Configured? || w.turns[t].phase.Loaded?)
    case TurnCommit(t) => t < |w.turns| && w.turns[t].phase.Holding? && 1 <= w.core.max
    case TurnReap(t) => t < |w.turns| && w.turns[t].phase.Unwinding? && w.turns[t].phase.pending != []
    case TurnUnmark(t) => t < |w.turns| && w.turns[t].phase.Unwinding? && w.turns[t].phase.pending == []
    case TurnFinish(t) => t < |w.turns| && w.turns[t].phase.Returning?
    case Reap(r) => r < |w.reapers| && w.reapers[r] != []
    case StoreExtras(_) => w.onExtras.Idle?
    case ApplyExtras =>
      && w.onExtras.Getting?
      && w.onExtras.call < |w.calls|
      && var p := w.calls[w.onExtras.call].phase;
         p.Done? && (p.result.Ok? ==> p.result.bundle < |w.bundles|)
    case _ => true
  }

  // ----- What a step does -----

  function WithCall(w: World, c: nat, p: CallPhase): World
    requires c < |w.calls|
  {
    w.(calls := w.calls[c := w.calls[c].(phase := p)])
  }

  function WithTurn(w: World, t: nat, p: Phase): World
    requires t < |w.turns|
  {
    w.(turns := w.turns[t := w.turns[t].(phase := p)])
  }

  function DoCallStart(w: World, key: Key): World {
    w.(calls := w.calls + [Call(key, 0, w.core.gen, Entered)])
  }

  function DoCallLookup(w: World, c: nat): World
    requires Enabled(w, CallLookup(c))
  {
    var k := w.calls[c].key;
    match Looked(w.core, k)
    case CacheClosed => WithCall(w, c, Done(ErrClosed, w.core.gen))
    case Hit(b) => WithCall(w, c, Done(Ok(b), w.core.gen)).(core := AfterLookup(w.core, k))
    case Miss => WithCall(w, c, Missed)
  }

  function DoCallDo(w: World, c: nat): World
    requires Enabled(w, CallDo(c))
  {
    var k := w.calls[c].key;
    if k in w.sf then WithCall(w, c, Waiting(w.sf[k]))
    else WithCall(w, c, Waiting(|w.turns|)).(
        sf := w.sf[k := |w.turns|],
        turns := w.turns + [Turn(k, Starting)])
  }

  function DoCallWake(w: World, c: nat): World
    requires Enabled(w, CallWake(c))
  {
    var call := w.calls[c];
    var r := w.turns[call.phase.turn].phase.result;
    if r.ErrPurgedDuringBuild? && call.attempt < 1
    then w.(calls := w.calls[c := call.(attempt := call.attempt + 1, phase := Entered)])
    else WithCall(w, c, Done(r, w.core.gen))
  }

  function DoTurnMark(w: World, t: nat): World
    requires Enabled(w, TurnMark(t))
  {
    WithTurn(w, t, Marked(w.core.gen)).(core := AfterMark(w.core, w.turns[t].key))
  }

  function DoTurnConfigure(w: World, t: nat): World
    requires Enabled(w, TurnConfigure(t))
  {
    WithTurn(w, t, Configured(w.turns[t].phase.startGen, |w.modes| - 1))
  }

  function DoTurnLoad(w: World, t: nat): World
    requires Enabled(w, TurnLoad(t))
  {
    var p := w.turns[t].phase;
    WithTurn(w, t, Loaded(p.startGen, p.version, if w.turns[t].key == w.defaultKey then w.extras else []))
  }

  function DoTurnBuilt(w: World, t: nat): World
    requires Enabled(w, TurnBuilt(t))
  {
    var p := w.turns[t].phase;
    WithTurn(w, t, Holding(p.startGen, |w.bundles|)).(
      bundles := w.bundles + [Info(w.turns[t].key, p.startGen, p.version, p.chunks)])
  }

  function DoTurnFailed(w: World, t: nat): World
    requires Enabled(w, TurnFailed(t))
  {
    WithTurn(w, t, Unwinding([], ErrBuild))
  }

  function ResultOf(v: Verdict, b: Bundle): Result {
    match v
    case RefusedClosed => ErrClosed
    case RefusedPurged => ErrPurgedDuringBuild
    case LostRace(winner) => Ok(winner)
    case Inserted => Ok(b)
  }

  function DoTurnCommit(w: World, t: nat): World
    requires Enabled(w, TurnCommit(t))
  {
    var k, g, b := w.turns[t].key, w.turns[t].phase.startGen, w.turns[t].phase.bundle;
    var v := Judged(w.core, k, g);
    WithTurn(w, t, Unwinding(ToReap(w.core, k, b, g), ResultOf(v, b))).(
      core := AfterCommit(w.core, k, b, g))
  }

  function DoTurnReap(w: World, t: nat): World
    requires Enabled(w, TurnReap(t))
  {
    var p := w.turns[t].phase;
    WithTurn(w, t, Unwinding(p.pending[1..], p.result)).(reaped := w.reaped + [p.pending[0]])
  }

  function DoTurnUnmark(w: World, t: nat): World
    requires Enabled(w, TurnUnmark(t))
  {
    WithTurn(w, t, Returning(w.turns[t].phase.result)).(core := AfterUnmark(w.core, w.turns[t].key))
  }

  function DoTurnFinish(w: World, t: nat): World
    requires Enabled(w, TurnFinish(t))
  {
    var k := w.turns[t].key;
    WithTurn(w, t, Finished(w.turns[t].phase.result)).(
      sf := if k in w.sf && w.sf[k] == t then w.sf - {k} else w.sf)
  }

  function DoPurge(w: World): World {
    if w.core.closed then w
    else w.(core := AfterPurge(w.core), sf := w.sf - w.core.inflight, reapers := w.reapers + [w.core.ll],
            covered := if |w.modes| > 0 then |w.modes| - 1 else 0)
  }

  function DoClose(w: World): World {
    w.(core := AfterClose(w.core), reapers := w.reapers + [w.core.ll])
  }

  function DoReap(w: World, r: nat): World
    requires Enabled(w, Reap(r))
  {
    w.(reapers := w.reapers[r := w.reapers[r][1..]], reaped := w.reaped + [w.reapers[r][0]])
  }

  function DoStoreExtras(w: World, chunks: Chunks): World {
    w.(extras := chunks, onExtras := Getting(|w.calls|),
       calls := w.calls + [Call(w.defaultKey, 0, w.core.gen, Entered)])
  }

  function DoApplyExtras(w: World): World
    requires Enabled(w, ApplyExtras)
  {
    var r := w.calls[w.onExtras.call].phase.result;
    var w' := w.(onExtras := Idle);
    if r.Ok? then w'.(bundles := w.bundles[r.bundle := w.bundles[r.bundle].(chunks := w.extras)]) else w'
  }

  function Apply(w: World, s: Step): World
    requires Enabled(w, s)
  {
    match s
    case CallStart(k) => DoCallStart(w, k)
    case CallLookup(c) => DoCallLookup(w, c)
    case CallDo(c) => DoCallDo(w, c)
    case CallWake(c) => DoCallWake(w, c)
    case TurnMark(t) => DoTurnMark(w, t)
    case TurnConfigure(t) => DoTurnConfigure(w, t)
    case TurnLoad(t) => DoTurnLoad(w, t)
    case TurnBuilt(t) => DoTurnBuilt(w, t)
    case TurnFailed(t) => DoTurnFailed(w, t)
    case TurnCommit(t) => DoTurnCommit(w, t)
    case TurnReap(t) => DoTurnReap(w, t)
    case TurnUnmark(t) => DoTurnUnmark(w, t)
    case TurnFinish(t) => DoTurnFinish(w, t)
    case Purge => DoPurge(w)
    case Close => DoClose(w)
    case Reap(r) => DoReap(w, r)
    case SetMode(m) => w.(modes := w.modes + [m])
    case StoreExtras(cs) => DoStoreExtras(w, cs)
    case ApplyExtras => DoApplyExtras(w)
  }

  // ----- Runs -----

  ghost predicate Legal(w: World, run: seq<Step>)
    decreases |run|
  {
    run == [] || (Enabled(w, run[0]) && Legal(Apply(w, run[0]), run[1..]))
  }

  ghost function After(w: World, run: seq<Step>): World
    requires Legal(w, run)
    decreases |run|
  {
    if run == [] then w else After(Apply(w, run[0]), run[1..])
  }

  ghost predicate NoPurge(run: seq<Step>) {
    forall i :: 0 <= i < |run| ==> !run[i].Purge?
  }

  lemma {:induction false} RunConcat(w: World, a: seq<Step>, b: seq<Step>)
    requires Legal(w, a) && Legal(After(w, a), b)
    ensures Legal(w, a + b) && After(w, a + b) == After(After(w, a), b)
    decreases |a|
  {
    hide Apply, Enabled;
    if a == [] {
      assert a + b == b;
    } else {
      RunConcat(Apply(w, a[0]), a[1..], b);
      assert (a + b)[1..] == a[1..] + b;
    }
  }

  lemma {:induction false} RunSplit(w: World, a: seq<Step>, b: seq<Step>)
    requires Legal(w, a + b)
    ensures Legal(w, a) && Legal(After(w, a), b) && After(w, a + b) == After(After(w, a), b)
    decreases |a|
  {
    hide Apply, Enabled;
    if a == [] {
      assert a + b == b;
    } else {
      assert (a + b)[1..] == a[1..] + b;
      RunSplit(Apply(w, a[0]), a[1..], b);
    }
  }

  lemma LastStep(w: World, s: Step)
    requires Legal(w, [s])
    ensures Enabled(w, s) && After(w, [s]) == Apply(w, s)
  {
    assert [s][1..] == [];
    assert Legal(Apply(w, s), [][..]);
  }

  lemma OneStep(w: World, s: Step)
    requires Enabled(w, s)
    ensures Legal(w, [s]) && After(w, [s]) == Apply(w, s)
  {
    hide Apply, Enabled;
    assert [s][1..] == [];
    RunsNothing(Apply(w, s));
  }

  // ----- Runs written out -----

  ghost predicate Runs(w: World, run: seq<Step>, w': World) {
    Legal(w, run) && After(w, run) == w'
  }

  lemma RunsNothing(w: World)
    ensures Runs(w, [], w)
  {
  }

  lemma RunsThen(w: World, a: seq<Step>, w': World, b: seq<Step>, w'': World)
    requires Runs(w, a, w') && Runs(w', b, w'')
    ensures Runs(w, a + b, w'')
  {
    RunConcat(w, a, b);
  }

  lemma RunsStep(w: World, a: seq<Step>, w': World, s: Step)
    requires Runs(w, a, w') && Enabled(w', s)
    ensures Runs(w, a + [s], Apply(w', s))
  {
    hide Apply, Enabled;
    assert [s][1..] == [];
    RunsNothing(Apply(w', s));
    RunConcat(w, a, [s]);
  }

  // ----- What every reachable world satisfies -----

  /** Calls and turns refer to each other consistently. */
  ghost predicate Linked(w: World) {
    && (forall k :: k in w.sf ==>
          w.sf[k] < |w.turns| && w.turns[w.sf[k]].key == k && !w.turns[w.sf[k]].phase.Finished?)
    && (forall c :: 0 <= c < |w.calls| && w.calls[c].phase.Waiting? ==>
          w.calls[c].phase.turn < |w.turns| && w.turns[w.calls[c].phase.turn].key == w.calls[c].key)
    && (forall t :: 0 <= t < |w.turns| && w.turns[t].phase.Holding? ==> w.turns[t].phase.bundle < |w.bundles|)
  }

  ghost predicate WellFormed(w: World) {
    Valid(w.core) && |w.modes| > 0 && Linked(w)
  }

  lemma StepValid(w: World, s: Step)
    requires Valid(w.core) && Enabled(w, s)
    ensures Valid(Apply(w, s).core)
  {
    match s {
      case CallLookup(c) => LookupKeeps(w.core, w.calls[c].key, 0);
      case TurnCommit(t) =>
        CommitValid(w.core, w.turns[t].key, w.turns[t].phase.bundle, w.turns[t].phase.startGen);
      case _ =>
    }
  }

  lemma CallLinked(w: World, c: nat, p: CallPhase)
    requires Linked(w) && c < |w.calls|
    requires p.Waiting? ==> p.turn < |w.turns| && w.turns[p.turn].key == w.calls[c].key
    ensures Linked(WithCall(w, c, p))
  {
  }

  lemma TurnLinked(w: World, t: nat, p: Phase)
    requires Linked(w) && t < |w.turns| && !p.Finished?
    requires p.Holding? ==> p.bundle < |w.bundles|
    ensures Linked(WithTurn(w, t, p))
  {
  }

  lemma TurnStepLinked(w: World, s: Step)
    requires Linked(w) && Enabled(w, s) && IsTurnStep(s) && !s.TurnBuilt? && !s.TurnFinish?
    ensures Linked(Apply(w, s))
  {
    TurnLinked(w, s.turn, Apply(w, s).turns[s.turn].phase);
  }

  lemma BuiltLinked(w: World, t: nat)
    requires Linked(w) && Enabled(w, TurnBuilt(t))
    ensures Linked(DoTurnBuilt(w, t))
  {
  }

  lemma FinishLinked(w: World, t: nat)
    requires Linked(w) && Enabled(w, TurnFinish(t))
    ensures Linked(DoTurnFinish(w, t))
  {
  }

  /** What no step of a turn touches, and when it ends. */
  lemma TurnStepFrame(w: World, s: Step)
    requires Enabled(w, s) && IsTurnStep(s)
    ensures var w', t := Apply(w, s), s.turn;
      && t < |w.turns| == |w'.turns| && !w.turns[t].phase.Finished?
      && w'.turns == w.turns[t := w'.turns[t]] && w'.turns[t].key == w.turns[t].key
      && (w'.turns[t].phase.Finished? <==> s.TurnFinish?)
      && w'.sf == (if s.TurnFinish? && w.turns[t].key in w.sf && w.sf[w.turns[t].key] == t
                   then w.sf - {w.turns[t].key} else w.sf)
      && w'.calls == w.calls && w'.core.gen == w.core.gen && w'.core.closed == w.core.closed
      && w'.modes == w.modes && w'.extras == w.extras && w'.onExtras == w.onExtras && w'.defaultKey == w.defaultKey
  {
  }

  lemma LookupLinked(w: World, c: nat)
    requires Linked(w) && Enabled(w, CallLookup(c))
    ensures Linked(DoCallLookup(w, c))
  {
    CallLinked(w, c, DoCallLookup(w, c).calls[c].phase);
  }

  lemma DoLinked(w: World, c: nat)
    requires Linked(w) && Enabled(w, CallDo(c))
    ensures Linked(DoCallDo(w, c))
  {
  }

  lemma CallStepLinked(w: World, s: Step)
    requires Linked(w) && Enabled(w, s) && (s.CallStart? || s.CallWake?)
    ensures Linked(Apply(w, s))
  {
  }

  lemma OtherLinked(w: World, s: Step)
    requires Linked(w) && Enabled(w, s) && !IsCallStep(s) && !IsTurnStep(s)
    ensures Linked(Apply(w, s))
  {
  }

  /** Nor does a step other than a commit touch the list or a bundle that exists. */
  lemma TurnStepRest(w: World, s: Step)
    requires Enabled(w, s) && IsTurnStep(s) && !s.TurnCommit?
    ensures var w' := Apply(w, s);
      && w'.core.ll == w.core.ll && w'.core.items == w.core.items && w'.reapers == w.reapers
      && w'.covered == w.covered && Grows(w.bundles, w'.bundles)
  {
  }

  ghost predicate Grows<T>(a: seq<T>, b: seq<T>) {
    |a| <= |b| && b[..|a|] == a
  }

  lemma GrowsAt<T>(a: seq<T>, b: seq<T>, i: nat)
    requires Grows(a, b) && i < |a|
    ensures b[i] == a[i]
  {
    assert b[..|a|][i] == b[i];
  }

  /** What no step of a call touches: it may reorder the list, and add a turn yet to start. */
  lemma CallStepFrame(w: World, s: Step)
    requires Valid(w.core) && Enabled(w, s) && IsCallStep(s)
    ensures var w' := Apply(w, s);
      && Grows(w.turns, w'.turns) && (forall t :: |w.turns| <= t < |w'.turns| ==> w'.turns[t].phase.Starting?)
      && |w.calls| <= |w'.calls|
      && (forall c :: 0 <= c < |w.calls| && (s.CallStart? || c != s.call) ==> w'.calls[c] == w.calls[c])
      && (forall c :: 0 <= c < |w.calls| ==> w'.calls[c].key == w.calls[c].key)
    ensures var w' := Apply(w, s);
      && w'.bundles == w.bundles && w'.modes == w.modes && w'.extras == w.extras && w'.onExtras == w.onExtras
      && w'.defaultKey == w.defaultKey && w'.covered == w.covered && w'.reapers == w.reapers
      && w'.core == w.core.(ll := w'.core.ll) && (forall e :: e in w'.core.ll <==> e in w.core.ll)
  {
    if s.CallLookup? { LookupFrame(w, s.call); }
  }

  lemma LookupFrame(w: World, c: nat)
    requires Valid(w.core) && Enabled(w, CallLookup(c))
    ensures var w' := DoCallLookup(w, c);
      && w' == w.(core := w'.core, calls := w'.calls)
      && w'.calls == w.calls[c := w'.calls[c]] && w'.calls[c].key == w.calls[c].key
      && w'.core == w.core.(ll := w'.core.ll) && (forall e :: e in w'.core.ll <==> e in w.core.ll)
  {
  }

  lemma StepLinked(w: World, s: Step)
    requires Linked(w) && Enabled(w, s)
    ensures Linked(Apply(w, s))
  {
    hide Linked;
    if s.TurnBuilt? {
      BuiltLinked(w, s.turn);
    } else if s.TurnFinish? {
      FinishLinked(w, s.turn);
    } else if IsTurnStep(s) {
      TurnStepLinked(w, s);
    } else if s.CallLookup? {
      LookupLinked(w, s.call);
    } else if s.CallDo? {
      DoLinked(w, s.call);
    } else if IsCallStep(s) {
      CallStepLinked(w, s);
    } else {
      OtherLinked(w, s);
    }
  }

  lemma StepWellFormed(w: World, s: Step)
    requires WellFormed(w) && Enabled(w, s)
    ensures WellFormed(Apply(w, s))
  {
    StepValid(w, s);
    StepLinked(w, s);
  }
}
