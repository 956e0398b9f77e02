/**
 GetBundle's bounded retry: no call makes a third attempt, and only a call that a
 Purge overlaps can report that its build was purged, although a first attempt
 may join a turn begun under an old generation (the in-flight mark is deleted by
 key, so a Purge can miss a turn it should forget).
 */
module CacheRetry {
  import opened CacheSpec
  import opened CacheProtocol

  /** Nothing has purged this turn since generation `g`: it does not, and cannot yet, end purged. */
  ghost predicate Young(t: Turn, g: nat) {
    match t.phase
    case Starting => true
    case Marked(s) => g <= s
    case Configured(s, _) => g <= s
    case Loaded(s, _, _) => g <= s
    case Holding(s, _) => g <= s
    case Unwinding(_, r) => !r.ErrPurgedDuringBuild?
    case Returning(r) => !r.ErrPurgedDuringBuild?
    case Finished(r) => !r.ErrPurgedDuringBuild?
  }

  /** Whatever turn the key is mapped to is young. */
  ghost predicate MappedYoung(w: World, k: Key, g: nat) {
    k in w.sf ==> w.sf[k] < |w.turns| && Young(w.turns[w.sf[k]], g)
  }

  /** The promise to a call since whose start no Purge has run. */
  ghost predicate Undisturbed(w: World, c: Call) {
    match c.phase
    case Entered => c.attempt == 1 ==> MappedYoung(w, c.key, c.startGen)
    case Missed => c.attempt == 1 ==> MappedYoung(w, c.key, c.startGen)
    case Waiting(t) =>
      && t < |w.turns|
      && if c.attempt == 1 then Young(w.turns[t], c.startGen)
         else (c.key in w.sf && w.sf[c.key] == t) || (w.turns[t].phase.Finished? && MappedYoung(w, c.key, c.startGen))
    case Done(_, _) => true
  }

  ghost predicate CallOk(w: World, c: Call) {
    && c.startGen <= w.core.gen
    && c.attempt <= 1
    && (c.phase.Done? && c.phase.result.ErrPurgedDuringBuild? ==> c.startGen < c.phase.endGen)
    && (c.startGen == w.core.gen ==> Undisturbed(w, c))
  }

  ghost predicate TurnOk(w: World, t: Turn) {
    match t.phase
    case Marked(s) => s <= w.core.gen
    case Configured(s, _) => s <= w.core.gen
    case Loaded(s, _, _) => s <= w.core.gen
    case Holding(s, _) => s <= w.core.gen
    case _ => true
  }

  ghost predicate Retrying(w: World) {
    && Linked(w)
    && (forall c :: 0 <= c < |w.calls| ==> CallOk(w, w.calls[c]))
    && (forall t :: 0 <= t < |w.turns| ==> TurnOk(w, w.turns[t]))
  }

  lemma TurnStaysYoung(w: World, s: Step)
    requires Enabled(w, s) && IsTurnStep(s) && TurnOk(w, w.turns[s.turn])
    ensures s.turn < |Apply(w, s).turns| && TurnOk(Apply(w, s), Apply(w, s).turns[s.turn])
    ensures Young(w.turns[s.turn], w.core.gen) ==> Young(Apply(w, s).turns[s.turn], w.core.gen)
  {
  }

  lemma TurnStepRetrying(w: World, s: Step)
    requires Valid(w.core) && Retrying(w) && Enabled(w, s) && IsTurnStep(s)
    ensures Retrying(Apply(w, s))
  {
    hide Apply, Enabled, Linked, TurnOk, CallOk;
    StepLinked(w, s);
    TurnStepFrame(w, s);
    var w' := Apply(w, s);
    forall t | 0 <= t < |w'.turns| ensures TurnOk(w', w'.turns[t]) {
      TurnStaysOk(w, s, t);
    }
    forall c | 0 <= c < |w'.calls| ensures CallOk(w', w'.calls[c]) {
      CallUnmoved(w, s, c);
    }
  }

  lemma TurnStaysOk(w: World, s: Step, t: nat)
    requires Retrying(w) && Enabled(w, s) && IsTurnStep(s) && t < |w.turns|
    ensures t < |Apply(w, s).turns| && TurnOk(Apply(w, s), Apply(w, s).turns[t])
  {
    hide Apply, Enabled, Young, Linked;
    TurnStepFrame(w, s);
    assert TurnOk(w, w.turns[s.turn]);
    TurnStaysYoung(w, s);
    assert TurnOk(w, w.turns[t]);
  }

  /** A step of a turn moves no call, and keeps what calls were promised of their turns. */
  lemma CallUnmoved(w: World, s: Step, c: nat)
    requires Retrying(w) && Enabled(w, s) && IsTurnStep(s) && c < |w.calls|
    ensures c < |Apply(w, s).calls| && CallOk(Apply(w, s), Apply(w, s).calls[c])
  {
    hide Apply, Enabled, Young, TurnOk;
    TurnStepFrame(w, s);
    TurnStaysYoung(w, s);
    assert CallOk(w, w.calls[c]);
  }

  lemma LookupRetrying(w: World, c: nat)
    requires Retrying(w) && Enabled(w, CallLookup(c))
    ensures Retrying(DoCallLookup(w, c))
  {
    hide Young, Linked;
    var w' := DoCallLookup(w, c);
    LookupLinked(w, c);
    assert CallOk(w, w.calls[c]);
    forall i | 0 <= i < |w'.calls| ensures CallOk(w', w'.calls[i]) {
      assert CallOk(w, w.calls[i]);
    }
    forall t | 0 <= t < |w'.turns| ensures TurnOk(w', w'.turns[t]) {
      assert TurnOk(w, w.turns[t]);
    }
  }

  lemma DoRetrying(w: World, c: nat)
    requires Retrying(w) && Enabled(w, CallDo(c))
    ensures Retrying(DoCallDo(w, c))
  {
    var w' := DoCallDo(w, c);
    StepLinked(w, CallDo(c));
    assert CallOk(w, w.calls[c]);
    forall i | 0 <= i < |w'.calls| ensures CallOk(w', w'.calls[i]) {
      assert CallOk(w, w.calls[i]);
    }
    forall t | 0 <= t < |w'.turns| ensures TurnOk(w', w'.turns[t]) {
      if t < |w.turns| { assert TurnOk(w, w.turns[t]); }
    }
  }

  lemma WakeRetrying(w: World, c: nat)
    requires Retrying(w) && Enabled(w, CallWake(c))
    ensures Retrying(DoCallWake(w, c))
  {
    var w' := DoCallWake(w, c);
    assert CallOk(w, w.calls[c]);
    forall i | 0 <= i < |w'.calls| ensures CallOk(w', w'.calls[i]) {
      assert CallOk(w, w.calls[i]);
    }
    forall t | 0 <= t < |w'.turns| ensures TurnOk(w', w'.turns[t]) {
      assert TurnOk(w, w.turns[t]);
    }
  }

  lemma OtherRetrying(w: World, s: Step)
    requires Retrying(w) && Enabled(w, s) && !IsTurnStep(s) && !s.CallLookup? && !s.CallDo? && !s.CallWake?
    ensures Retrying(Apply(w, s))
  {
    StepLinked(w, s);
    var w' := Apply(w, s);
    forall i | 0 <= i < |w'.calls| ensures CallOk(w', w'.calls[i]) {
      if i < |w.calls| { assert CallOk(w, w.calls[i]); }
    }
    forall t | 0 <= t < |w'.turns| ensures TurnOk(w', w'.turns[t]) {
      assert TurnOk(w, w.turns[t]);
    }
  }

  lemma StepRetrying(w: World, s: Step)
    requires Valid(w.core) && Retrying(w) && Enabled(w, s)
    ensures Retrying(Apply(w, s))
  {
    if IsTurnStep(s) {
      TurnStepRetrying(w, s);
    } else if s.CallLookup? {
      LookupRetrying(w, s.call);
    } else if s.CallDo? {
      DoRetrying(w, s.call);
    } else if s.CallWake? {
      WakeRetrying(w, s.call);
    } else {
      OtherRetrying(w, s);
    }
  }

  lemma {:induction false} RunRetrying(w: World, run: seq<Step>)
    requires Valid(w.core) && Retrying(w) && Legal(w, run)
    ensures Valid(After(w, run).core) && Retrying(After(w, run))
    decreases |run|
  {
    if run != [] {
      StepValid(w, run[0]);
      StepRetrying(w, run[0]);
      RunRetrying(Apply(w, run[0]), run[1..]);
    }
  }

  ghost predicate EndsOk(w: World) {
    forall c :: 0 <= c < |w.calls| ==>
      && w.calls[c].startGen <= w.core.gen
      && (w.calls[c].phase.Done? ==> w.calls[c].startGen <= w.calls[c].phase.endGen <= w.core.gen)
  }

  lemma StepEnds(w: World, s: Step)
    requires EndsOk(w) && Enabled(w, s)
    ensures EndsOk(Apply(w, s))
  {
    hide EndsOk;
    if IsTurnStep(s) {
      TurnStepEnds(w, s);
    } else if IsCallStep(s) {
      CallStepEnds(w, s);
    } else {
      OtherStepEnds(w, s);
    }
  }

  /** A call that ends notes the generation; all others stay as they were. */
  lemma CallStepEnds(w: World, s: Step)
    requires EndsOk(w) && Enabled(w, s) && IsCallStep(s)
    ensures EndsOk(Apply(w, s))
  {
    hide Looked, AfterLookup;
    if s.CallLookup? { LookupEnds(w, s.call); }
  }

  lemma LookupEnds(w: World, c: nat)
    requires EndsOk(w) && Enabled(w, CallLookup(c))
    ensures EndsOk(DoCallLookup(w, c))
  {
    hide MoveToFront;
  }

  lemma OtherStepEnds(w: World, s: Step)
    requires EndsOk(w) && Enabled(w, s) && !IsTurnStep(s) && !IsCallStep(s)
    ensures EndsOk(Apply(w, s))
  {
  }

  lemma TurnStepEnds(w: World, s: Step)
    requires EndsOk(w) && Enabled(w, s) && IsTurnStep(s)
    ensures EndsOk(Apply(w, s))
  {
    hide Apply;
    TurnStepFrame(w, s);
  }

  lemma {:induction false} RunEnds(w: World, run: seq<Step>)
    requires EndsOk(w) && Legal(w, run)
    ensures EndsOk(After(w, run))
    decreases |run|
  {
    if run != [] {
      StepEnds(w, run[0]);
      RunEnds(Apply(w, run[0]), run[1..]);
    }
  }

  /** No call makes a third attempt, and one that reports a purged build saw the generation move. */
  lemma AtMostTwoAttempts(max: nat, mode: Mode, k: Key, run: seq<Step>, c: nat)
    requires Legal(Init(max, mode, k), run)
    requires c < |After(Init(max, mode, k), run).calls|
    ensures var call := After(Init(max, mode, k), run).calls[c];
      && call.attempt + 1 <= 2
      && (call.phase.Done? && call.phase.result.ErrPurgedDuringBuild? ==> call.startGen < call.phase.endGen)
  {
    RunRetrying(Init(max, mode, k), run);
    var w := After(Init(max, mode, k), run);
    assert CallOk(w, w.calls[c]);
  }

  lemma {:induction false} GenerationKept(w: World, run: seq<Step>, c: nat)
    requires Legal(w, run) && NoPurge(run) && c < |w.calls|
    ensures After(w, run).core.gen == w.core.gen
    ensures c < |After(w, run).calls| && After(w, run).calls[c].startGen == w.calls[c].startGen
    decreases |run|
  {
    if run != [] { GenerationKept(Apply(w, run[0]), run[1..], c); }
  }

  /**
   A GetBundle call during which no Purge runs never returns errPurgedDuringBuild,
   whatever Purges ran before it and whatever turns they left in flight.
   */
  lemma PurgedOnlyUnderPurge(max: nat, mode: Mode, k: Key, before: seq<Step>, key: Key, during: seq<Step>)
    requires NoPurge(during)
    requires Legal(Init(max, mode, k), before)
    requires Legal(Init(max, mode, k), before + [CallStart(key)] + during)
    ensures var c := |After(Init(max, mode, k), before).calls|;
      var w := After(Init(max, mode, k), before + [CallStart(key)] + during);
      && c < |w.calls|
      && (w.calls[c].phase.Done? ==> !w.calls[c].phase.result.ErrPurgedDuringBuild?)
  {
    var w0 := Init(max, mode, k);
    RunSplit(w0, before + [CallStart(key)], during);
    RunSplit(w0, before, [CallStart(key)]);
    var c := |After(w0, before).calls|;
    LastStep(After(w0, before), CallStart(key));
    GenerationKept(After(w0, before + [CallStart(key)]), during, c);
    RunEnds(w0, before + [CallStart(key)] + during);
    AtMostTwoAttempts(max, mode, k, before + [CallStart(key)] + during, c);
  }
}
