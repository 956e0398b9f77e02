/**
 What the result of a finished GetBundle call means, read off the run that led to
 it: which step ended the call, which build it waited for, and how that build ended.
 */
module CacheResults {
  import opened CacheSpec
  import opened CacheProtocol
  import CacheFreshness
  import CacheRetry

  // ----- Steps of a run, with the worlds they were taken in -----

  /** The run from `w0` took step `s` in world `v`. */
  ghost predicate Took(w0: World, run: seq<Step>, v: World, s: Step)
    requires Legal(w0, run)
    decreases |run|
  {
    run != [] && ((v == w0 && s == run[0]) || Took(Apply(w0, run[0]), run[1..], v, s))
  }

  /** The run and one more step. */
  lemma {:induction false} TookMore(w0: World, run: seq<Step>, last: Step)
    requires Legal(w0, run) && Enabled(After(w0, run), last)
    ensures Legal(w0, run + [last]) && After(w0, run + [last]) == Apply(After(w0, run), last)
    ensures forall v, s :: Took(w0, run + [last], v, s)
                           <==> Took(w0, run, v, s) || (v == After(w0, run) && s == last)
    decreases |run|
  {
    hide Apply, Enabled;
    if run == [] {
      assert [] + [last] == [last] && [last][1..] == [];
      NothingMore(Apply(w0, last));
    } else {
      TookMore(Apply(w0, run[0]), run[1..], last);
      assert (run + [last])[1..] == run[1..] + [last] && (run + [last])[0] == run[0];
    }
  }

  lemma NothingMore(w: World)
    ensures Legal(w, []) && After(w, []) == w && forall v, s :: !Took(w, [], v, s)
  {
  }

  // ----- What one step can mean for a result -----

  predicate HasResult(p: Phase) { p.Unwinding? || p.Returning? || p.Finished? }

  /**
   A build that returned a bundle in world `v` is refused by a closed cache, or if a
   Purge has run since it read its generation; otherwise what is cached for its key
   wins over it, and failing that its own bundle is the result.
   */
  ghost predicate CommitMeans(v: World, t: nat, r: Result) {
    && t < |v.turns| && v.turns[t].phase.Holding?
    && if v.core.closed then r == ErrClosed
       else if v.core.gen != v.turns[t].phase.startGen then r == ErrPurgedDuringBuild
       else if v.turns[t].key in v.core.items then r == Ok(v.core.items[v.turns[t].key].bundle)
       else r == Ok(v.turns[t].phase.bundle)
  }

  /** A call that ends in its own lookup: the cache is closed, or has its key. */
  ghost predicate LookupMeans(v: World, c: nat, r: Result) {
    && c < |v.calls|
    && if v.core.closed then r == ErrClosed
       else v.calls[c].key in v.core.items && r == Ok(v.core.items[v.calls[c].key].bundle)
  }

  /** A call that is woken by the turn it waited for; a purged build ends no first attempt. */
  ghost predicate WakeMeans(v: World, c: nat, r: Result) {
    && c < |v.calls| && v.calls[c].phase.Waiting? && v.calls[c].phase.turn < |v.turns|
    && v.turns[v.calls[c].phase.turn].phase == Finished(r)
    && (r.ErrPurgedDuringBuild? ==> v.calls[c].attempt >= 1)
  }

  /** Other steps than those of turns leave the turns as they are, but for new ones. */
  lemma OthersKeepTurns(w: World, s: Step)
    requires Enabled(w, s) && !IsTurnStep(s)
    ensures var ts := Apply(w, s).turns;
      && |w.turns| <= |ts| && (forall t :: 0 <= t < |w.turns| ==> ts[t] == w.turns[t])
      && (forall t :: |w.turns| <= t < |ts| ==> ts[t].phase.Starting?)
  {
    hide Looked, AfterLookup;
  }

  lemma OwnResult(w: World, s: Step)
    requires Enabled(w, s) && IsTurnStep(s)
    ensures s.turn < |w.turns| && s.turn < |Apply(w, s).turns|
    ensures var p, p' := w.turns[s.turn].phase, Apply(w, s).turns[s.turn].phase;
      && (HasResult(p) ==> !s.TurnFailed? && !s.TurnCommit? && HasResult(p') && p'.result == p.result)
      && (s.TurnFailed? ==> HasResult(p') && p'.result == ErrBuild)
      && (s.TurnCommit? ==> HasResult(p') && CommitMeans(w, s.turn, p'.result))
      && (HasResult(p') ==> HasResult(p) || s.TurnFailed? || s.TurnCommit?)
  {
    hide AfterCommit, ToReap;
  }

  lemma ResultStep(w: World, s: Step, t: nat)
    requires Enabled(w, s) && t < |Apply(w, s).turns| && HasResult(Apply(w, s).turns[t].phase)
    ensures var r := Apply(w, s).turns[t].phase.result;
      || (t < |w.turns| && HasResult(w.turns[t].phase) && w.turns[t].phase.result == r)
      || (s == TurnFailed(t) && r == ErrBuild)
      || (s == TurnCommit(t) && CommitMeans(w, t, r))
  {
    hide Apply, Enabled, CommitMeans;
    if IsTurnStep(s) {
      TurnStepFrame(w, s);
      OwnResult(w, s);
    } else {
      OthersKeepTurns(w, s);
    }
  }

  /** A result stays, and the step that gives it settles what it is. */
  lemma ResultStays(w: World, s: Step, t: nat)
    requires Enabled(w, s) && t < |w.turns|
    requires HasResult(w.turns[t].phase) || s == TurnFailed(t) || s == TurnCommit(t)
    ensures t < |Apply(w, s).turns| && HasResult(Apply(w, s).turns[t].phase)
    ensures var r := Apply(w, s).turns[t].phase.result;
      && (HasResult(w.turns[t].phase) ==> s != TurnFailed(t) && s != TurnCommit(t) && r == w.turns[t].phase.result)
      && (s == TurnFailed(t) ==> r == ErrBuild)
      && (s == TurnCommit(t) ==> CommitMeans(w, t, r))
  {
    hide Apply, Enabled, CommitMeans;
    if IsTurnStep(s) {
      TurnStepFrame(w, s);
      OwnResult(w, s);
    } else {
      OthersKeepTurns(w, s);
    }
  }

  lemma CallEnds(w: World, s: Step, c: nat)
    requires Enabled(w, s) && c < |Apply(w, s).calls| && Apply(w, s).calls[c].phase.Done?
    ensures var r := Apply(w, s).calls[c].phase.result;
      || (c < |w.calls| && w.calls[c] == Apply(w, s).calls[c])
      || (s == CallLookup(c) && LookupMeans(w, c, r))
      || (s == CallWake(c) && WakeMeans(w, c, r))
  {
    if IsTurnStep(s) {
      hide Apply, Enabled;
      TurnStepFrame(w, s);
    } else {
      OtherCallEnds(w, s, c);
    }
  }

  lemma OtherCallEnds(w: World, s: Step, c: nat)
    requires Enabled(w, s) && !IsTurnStep(s) && c < |Apply(w, s).calls| && Apply(w, s).calls[c].phase.Done?
    ensures var r := Apply(w, s).calls[c].phase.result;
      || (c < |w.calls| && w.calls[c] == Apply(w, s).calls[c])
      || (s == CallLookup(c) && LookupMeans(w, c, r))
      || (s == CallWake(c) && WakeMeans(w, c, r))
  {
    hide AfterLookup;
  }

  // ----- Every result has its cause -----

  ghost predicate TurnCause(w0: World, run: seq<Step>, t: nat, r: Result)
    requires Legal(w0, run)
  {
    || (r == ErrBuild && exists v :: Took(w0, run, v, TurnFailed(t)))
    || (exists v :: Took(w0, run, v, TurnCommit(t)) && CommitMeans(v, t, r))
  }

  ghost predicate CallCause(w0: World, run: seq<Step>, c: nat, r: Result)
    requires Legal(w0, run)
  {
    || (exists v :: Took(w0, run, v, CallLookup(c)) && LookupMeans(v, c, r))
    || (exists v :: Took(w0, run, v, CallWake(c)) && WakeMeans(v, c, r)
                    && TurnCause(w0, run, v.calls[c].phase.turn, r))
  }

  ghost predicate TurnsExplained(w0: World, run: seq<Step>)
    requires Legal(w0, run)
  {
    var w := After(w0, run);
    && (forall t: nat :: t < |w.turns| && HasResult(w.turns[t].phase) ==>
          TurnCause(w0, run, t, w.turns[t].phase.result))
    && (forall v, t: nat :: Took(w0, run, v, TurnCommit(t)) ==>
          t < |w.turns| && HasResult(w.turns[t].phase) && CommitMeans(v, t, w.turns[t].phase.result))
    && (forall v, t: nat :: Took(w0, run, v, TurnFailed(t)) ==>
          t < |w.turns| && HasResult(w.turns[t].phase) && w.turns[t].phase.result == ErrBuild)
  }

  ghost predicate CallsExplained(w0: World, run: seq<Step>)
    requires Legal(w0, run)
  {
    var w := After(w0, run);
    forall c: nat :: c < |w.calls| && w.calls[c].phase.Done? ==> CallCause(w0, run, c, w.calls[c].phase.result)
  }

  lemma TurnCauseStays(w0: World, run: seq<Step>, last: Step, t: nat, r: Result)
    requires Legal(w0, run) && Enabled(After(w0, run), last) && TurnCause(w0, run, t, r)
    ensures Legal(w0, run + [last]) && TurnCause(w0, run + [last], t, r)
  {
    hide Apply, Enabled, CommitMeans, Took;
    TookMore(w0, run, last);
  }

  lemma CallCauseStays(w0: World, run: seq<Step>, last: Step, c: nat, r: Result)
    requires Legal(w0, run) && Enabled(After(w0, run), last) && CallCause(w0, run, c, r)
    ensures Legal(w0, run + [last]) && CallCause(w0, run + [last], c, r)
  {
    hide Apply, Enabled, LookupMeans, Took, TurnCause;
    TookMore(w0, run, last);
    if v :| Took(w0, run, v, CallWake(c)) && WakeMeans(v, c, r) && TurnCause(w0, run, v.calls[c].phase.turn, r) {
      TurnCauseStays(w0, run, last, v.calls[c].phase.turn, r);
    }
  }

  lemma TurnsStayExplained(w0: World, run: seq<Step>, last: Step)
    requires Legal(w0, run) && Enabled(After(w0, run), last) && TurnsExplained(w0, run)
    ensures Legal(w0, run + [last]) && TurnsExplained(w0, run + [last])
  {
    hide Apply, Enabled, CommitMeans, Took, TurnCause;
    var w := After(w0, run);
    var w' := Apply(w, last);
    TookMore(w0, run, last);
    forall t: nat | t < |w'.turns| && HasResult(w'.turns[t].phase)
      ensures TurnCause(w0, run + [last], t, w'.turns[t].phase.result)
    {
      TurnResultCaused(w0, run, last, t);
    }
    forall v, t: nat | Took(w0, run + [last], v, TurnCommit(t)) || Took(w0, run + [last], v, TurnFailed(t))
      ensures t < |w'.turns| && HasResult(w'.turns[t].phase)
      ensures Took(w0, run + [last], v, TurnCommit(t)) ==> CommitMeans(v, t, w'.turns[t].phase.result)
      ensures Took(w0, run + [last], v, TurnFailed(t)) ==> w'.turns[t].phase.result == ErrBuild
    {
      if last == TurnCommit(t) || last == TurnFailed(t) { OwnTurn(w, last, t); }
      ResultStays(w, last, t);
    }
  }

  lemma OwnTurn(w: World, s: Step, t: nat)
    requires Enabled(w, s) && (s == TurnCommit(t) || s == TurnFailed(t))
    ensures t < |w.turns|
  {
  }

  lemma TurnResultCaused(w0: World, run: seq<Step>, last: Step, t: nat)
    requires Legal(w0, run) && Enabled(After(w0, run), last) && TurnsExplained(w0, run)
    requires var w' := Apply(After(w0, run), last); t < |w'.turns| && HasResult(w'.turns[t].phase)
    ensures Legal(w0, run + [last])
    ensures TurnCause(w0, run + [last], t, Apply(After(w0, run), last).turns[t].phase.result)
  {
    hide Apply, Enabled, CommitMeans, Took, TurnCause;
    var w := After(w0, run);
    var r := Apply(w, last).turns[t].phase.result;
    TookMore(w0, run, last);
    ResultStep(w, last, t);
    if t < |w.turns| && HasResult(w.turns[t].phase) && w.turns[t].phase.result == r {
      TurnCauseStays(w0, run, last, t, r);
    } else {
      LastIsCause(w0, run + [last], w, last, t, r);
    }
  }

  lemma LastIsCause(w0: World, run: seq<Step>, v: World, s: Step, t: nat, r: Result)
    requires Legal(w0, run) && Took(w0, run, v, s)
    requires (s == TurnFailed(t) && r == ErrBuild) || (s == TurnCommit(t) && CommitMeans(v, t, r))
    ensures TurnCause(w0, run, t, r)
  {
    hide Took, CommitMeans;
  }

  lemma CallsStayExplained(w0: World, run: seq<Step>, last: Step)
    requires Legal(w0, run) && Enabled(After(w0, run), last)
    requires TurnsExplained(w0, run) && CallsExplained(w0, run)
    ensures Legal(w0, run + [last]) && CallsExplained(w0, run + [last])
  {
    hide Apply, Enabled, LookupMeans, Took, TurnCause, CommitMeans;
    var w := After(w0, run);
    var w' := Apply(w, last);
    TookMore(w0, run, last);
    forall c: nat | c < |w'.calls| && w'.calls[c].phase.Done?
      ensures CallCause(w0, run + [last], c, w'.calls[c].phase.result)
    {
      var r := w'.calls[c].phase.result;
      CallEnds(w, last, c);
      if c < |w.calls| && w.calls[c] == w'.calls[c] {
        CallCauseStays(w0, run, last, c, r);
      } else if last == CallWake(c) {
        TurnCauseStays(w0, run, last, w.calls[c].phase.turn, r);
        assert Took(w0, run + [last], w, CallWake(c)) && WakeMeans(w, c, r);
      } else {
        assert Took(w0, run + [last], w, CallLookup(c)) && LookupMeans(w, c, r);
      }
    }
  }

  ghost predicate NobodyYet(w: World) { w.turns == [] && w.calls == [] }

  lemma {:induction false} RunExplained(w0: World, run: seq<Step>)
    requires NobodyYet(w0) && Legal(w0, run)
    ensures TurnsExplained(w0, run) && CallsExplained(w0, run)
    decreases |run|
  {
    if run == [] {
      NothingMore(w0);
    } else {
      hide Apply, Enabled, TurnsExplained, CallsExplained;
      var init, last := run[..|run| - 1], run[|run| - 1];
      assert run == init + [last];
      RunSplit(w0, init, [last]);
      LastStep(After(w0, init), last);
      RunExplained(w0, init);
      TurnsStayExplained(w0, init, last);
      CallsStayExplained(w0, init, last);
    }
  }

  // ----- What a result says of the world -----

  /** A refusal means the cache is closed; a bundle is one that was built for the key. */
  ghost predicate HonestResult(w: World, k: Key, r: Result) {
    && (r.ErrClosed? ==> w.core.closed)
    && (r.Ok? ==> r.bundle < |w.bundles| && w.bundles[r.bundle].key == k)
  }

  ghost predicate Honest(w: World) {
    && (forall t: nat :: t < |w.turns| && HasResult(w.turns[t].phase) ==>
          HonestResult(w, w.turns[t].key, w.turns[t].phase.result))
    && (forall c: nat :: c < |w.calls| && w.calls[c].phase.Done? ==>
          && HonestResult(w, w.calls[c].key, w.calls[c].phase.result)
          && (w.calls[c].phase.result.ErrPurgedDuringBuild? ==> w.calls[c].attempt >= 1))
  }

  /** Keys never change, and a closed cache stays closed. */
  lemma StepKeeps(w: World, s: Step)
    requires Enabled(w, s)
    ensures var w' := Apply(w, s);
      && |w.turns| <= |w'.turns| && (forall t :: 0 <= t < |w.turns| ==> w'.turns[t].key == w.turns[t].key)
      && |w.calls| <= |w'.calls| && (forall c :: 0 <= c < |w.calls| ==> w'.calls[c].key == w.calls[c].key)
      && |w.bundles| <= |w'.bundles| && (forall b :: 0 <= b < |w.bundles| ==> w'.bundles[b].key == w.bundles[b].key)
      && (w.core.closed ==> w'.core.closed)
  {
    if IsTurnStep(s) {
      TurnStepKeeps(w, s);
    } else {
      OthersKeepTurns(w, s);
      OtherStepKeeps(w, s);
    }
  }

  lemma TurnStepKeeps(w: World, s: Step)
    requires Enabled(w, s) && IsTurnStep(s)
    ensures var w' := Apply(w, s);
      && |w.turns| <= |w'.turns| && (forall t :: 0 <= t < |w.turns| ==> w'.turns[t].key == w.turns[t].key)
      && w'.calls == w.calls && Grows(w.bundles, w'.bundles) && w'.core.closed == w.core.closed
  {
    TurnStepFrame(w, s);
    if !s.TurnCommit? {
      TurnStepRest(w, s);
      hide Apply, Enabled;
    } else {
      hide AfterCommit, ToReap;
    }
  }

  lemma OtherStepKeeps(w: World, s: Step)
    requires Enabled(w, s) && !IsTurnStep(s)
    ensures var w' := Apply(w, s);
      && |w.calls| <= |w'.calls| && (forall c :: 0 <= c < |w.calls| ==> w'.calls[c].key == w.calls[c].key)
      && |w.bundles| <= |w'.bundles| && (forall b :: 0 <= b < |w.bundles| ==> w'.bundles[b].key == w.bundles[b].key)
      && (w.core.closed ==> w'.core.closed)
  {
    hide Looked;
  }

  lemma WakeAttempt(w: World, s: Step, c: nat)
    requires Enabled(w, s) && c < |w.calls|
    ensures c < |Apply(w, s).calls| && Apply(w, s).calls[c].attempt >= w.calls[c].attempt
  {
    if IsTurnStep(s) {
      hide Apply, Enabled;
      TurnStepFrame(w, s);
    } else {
      hide Looked, AfterLookup;
    }
  }

  lemma HonestStays(w: World, s: Step, k: Key, r: Result)
    requires Enabled(w, s) && HonestResult(w, k, r)
    ensures HonestResult(Apply(w, s), k, r)
  {
    hide Apply, Enabled;
    StepKeeps(w, s);
  }

  /** Cached bundles, and those a turn holds, were built for their keys. */
  lemma CommitHonest(w: World, t: nat, r: Result)
    requires Valid(w.core) && CacheFreshness.Fresh(w) && CommitMeans(w, t, r)
    ensures HonestResult(w, w.turns[t].key, r)
  {
    assert CacheFreshness.TurnFresh(w, w.turns[t]);
  }

  lemma LookupHonest(w: World, c: nat, r: Result)
    requires Valid(w.core) && CacheFreshness.Fresh(w) && LookupMeans(w, c, r)
    ensures HonestResult(w, w.calls[c].key, r)
  {
  }

  lemma StepHonest(w: World, s: Step)
    requires WellFormed(w) && CacheFreshness.Fresh(w) && Honest(w) && Enabled(w, s)
    ensures Honest(Apply(w, s))
  {
    hide Apply, Enabled, CacheFreshness.Fresh, Valid, HonestResult, CommitMeans, LookupMeans;
    var w' := Apply(w, s);
    forall t: nat | t < |w'.turns| && HasResult(w'.turns[t].phase)
      ensures HonestResult(w', w'.turns[t].key, w'.turns[t].phase.result)
    {
      TurnHonest(w, s, t);
    }
    forall c: nat | c < |w'.calls| && w'.calls[c].phase.Done?
      ensures HonestResult(w', w'.calls[c].key, w'.calls[c].phase.result)
      ensures w'.calls[c].phase.result.ErrPurgedDuringBuild? ==> w'.calls[c].attempt >= 1
    {
      CallHonest(w, s, c);
    }
  }

  lemma TurnHonest(w: World, s: Step, t: nat)
    requires WellFormed(w) && CacheFreshness.Fresh(w) && Honest(w) && Enabled(w, s)
    requires t < |Apply(w, s).turns| && HasResult(Apply(w, s).turns[t].phase)
    ensures var turn := Apply(w, s).turns[t]; HonestResult(Apply(w, s), turn.key, turn.phase.result)
  {
    hide Apply, Enabled, CacheFreshness.Fresh, Valid, HonestResult, Linked;
    var r := Apply(w, s).turns[t].phase.result;
    StepKeeps(w, s);
    ResultStep(w, s, t);
    if s == TurnFailed(t) && r == ErrBuild {
      OwnTurn(w, s, t);
      FailureHonest(w, w.turns[t].key);
    } else if s == TurnCommit(t) && CommitMeans(w, t, r) {
      CommitHonest(w, t, r);
    }
    HonestStays(w, s, w.turns[t].key, r);
  }

  lemma FailureHonest(w: World, k: Key)
    ensures HonestResult(w, k, ErrBuild)
  {
  }

  lemma CallHonest(w: World, s: Step, c: nat)
    requires WellFormed(w) && CacheFreshness.Fresh(w) && Honest(w) && Enabled(w, s)
    requires c < |Apply(w, s).calls| && Apply(w, s).calls[c].phase.Done?
    ensures var call := Apply(w, s).calls[c];
      && HonestResult(Apply(w, s), call.key, call.phase.result)
      && (call.phase.result.ErrPurgedDuringBuild? ==> call.attempt >= 1)
  {
    hide Apply, Enabled, CacheFreshness.Fresh, Valid, HonestResult;
    var r := Apply(w, s).calls[c].phase.result;
    StepKeeps(w, s);
    CallEnds(w, s, c);
    if s == CallLookup(c) && LookupMeans(w, c, r) {
      LookupHonest(w, c, r);
    }
    HonestStays(w, s, w.calls[c].key, r);
    WakeAttempt(w, s, c);
  }

  lemma {:induction false} RunHonest(w: World, run: seq<Step>)
    requires WellFormed(w) && CacheFreshness.Fresh(w) && Honest(w) && Legal(w, run)
    ensures Honest(After(w, run)) && WellFormed(After(w, run))
    decreases |run|
  {
    hide Apply, Enabled, WellFormed, CacheFreshness.Fresh, Honest;
    if run != [] {
      StepWellFormed(w, run[0]);
      IsValid(w);
      CacheFreshness.StepFresh(w, run[0]);
      StepHonest(w, run[0]);
      RunHonest(Apply(w, run[0]), run[1..]);
    }
  }

  lemma IsValid(w: World)
    requires WellFormed(w)
    ensures Valid(w.core)
  {
  }

  lemma RunHonestFromInit(max: nat, mode: Mode, k: Key, run: seq<Step>)
    requires Legal(Init(max, mode, k), run)
    ensures Honest(After(Init(max, mode, k), run)) && WellFormed(After(Init(max, mode, k), run))
  {
    RunHonest(Init(max, mode, k), run);
  }

  // ----- The theorems -----

  /** Some turn the call waited for, when it was woken for good, had failed to build. */
  ghost predicate BuilderFailed(w0: World, run: seq<Step>, c: nat)
    requires Legal(w0, run)
  {
    exists v, u, t: nat :: Took(w0, run, v, CallWake(c)) && c < |v.calls| && v.calls[c].phase == Waiting(t)
                      && Took(w0, run, u, TurnFailed(t))
  }

  /** The same of a turn whose bundle came back after a Purge, on an open cache. */
  ghost predicate BuildPurged(w0: World, run: seq<Step>, c: nat)
    requires Legal(w0, run)
  {
    exists v, u, t: nat :: Took(w0, run, v, CallWake(c)) && c < |v.calls| && v.calls[c].phase == Waiting(t)
                      && Took(w0, run, u, TurnCommit(t)) && t < |u.turns| && u.turns[t].phase.Holding?
                      && !u.core.closed && u.core.gen != u.turns[t].phase.startGen
  }

  lemma WakeCause(w0: World, run: seq<Step>, c: nat, r: Result)
    requires Legal(w0, run) && CallCause(w0, run, c, r)
    ensures r.ErrBuild? ==> BuilderFailed(w0, run, c)
    ensures r.ErrPurgedDuringBuild? ==> BuildPurged(w0, run, c)
  {
    hide Took;
    if r.ErrBuild? || r.ErrPurgedDuringBuild? {
      var v :| Took(w0, run, v, CallWake(c)) && WakeMeans(v, c, r)
               && TurnCause(w0, run, v.calls[c].phase.turn, r);
      var t := v.calls[c].phase.turn;
      if r.ErrBuild? {
        var u :| Took(w0, run, u, TurnFailed(t));
      } else {
        var u :| Took(w0, run, u, TurnCommit(t)) && CommitMeans(u, t, r);
        assert !u.core.closed && u.core.gen != u.turns[t].phase.startGen;
      }
    }
  }

  /**
   In every reachable world: a call that was refused finds the cache closed; one that
   reports a failed build waited for a turn whose build failed; one that reports a
   purged build has made its second attempt, and waited for a turn that a Purge
   overtook; and one that returns a bundle returns one built for its key.
   */
  lemma ResultsMean(max: nat, mode: Mode, k: Key, run: seq<Step>, c: nat)
    requires Legal(Init(max, mode, k), run)
    requires var w := After(Init(max, mode, k), run); c < |w.calls| && w.calls[c].phase.Done?
    ensures var w0, w := Init(max, mode, k), After(Init(max, mode, k), run);
      match w.calls[c].phase.result
      case ErrClosed => w.core.closed
      case ErrBuild => BuilderFailed(w0, run, c)
      case ErrPurgedDuringBuild => w.calls[c].attempt == 1 && BuildPurged(w0, run, c)
      case Ok(b) => b < |w.bundles| && w.bundles[b].key == w.calls[c].key
  {
    hide BuilderFailed, BuildPurged, CallCause;
    var w0 := Init(max, mode, k);
    RunExplained(w0, run);
    RunHonestFromInit(max, mode, k, run);
    CacheRetry.AtMostTwoAttempts(max, mode, k, run, c);
    WakeCause(w0, run, c, After(w0, run).calls[c].phase.result);
  }

  /** A call that no Purge overlaps, on a cache still open, ends in a bundle of its key or in a failed build. */
  lemma UndisturbedCallEnds(max: nat, mode: Mode, k: Key, before: seq<Step>, key: Key, during: seq<Step>)
    requires NoPurge(during) && Legal(Init(max, mode, k), before)
    requires Legal(Init(max, mode, k), before + [CallStart(key)] + during)
    requires !After(Init(max, mode, k), before + [CallStart(key)] + during).core.closed
    ensures var c := |After(Init(max, mode, k), before).calls|;
      var run := before + [CallStart(key)] + during;
      var w := After(Init(max, mode, k), run);
      && c < |w.calls| && w.calls[c].key == key
      && (w.calls[c].phase.Done? ==>
            match w.calls[c].phase.result
            case Ok(b) => b < |w.bundles| && w.bundles[b].key == key
            case ErrBuild => BuilderFailed(Init(max, mode, k), run, c)
            case _ => false)
  {
    hide BuilderFailed, BuildPurged, Apply, Enabled;
    var w0, run := Init(max, mode, k), before + [CallStart(key)] + during;
    var c := |After(w0, before).calls|;
    CacheRetry.PurgedOnlyUnderPurge(max, mode, k, before, key, during);
    RunSplit(w0, before + [CallStart(key)], during);
    RunSplit(w0, before, [CallStart(key)]);
    LastStep(After(w0, before), CallStart(key));
    Started(After(w0, before), key);
    RunKeepsKey(After(w0, before + [CallStart(key)]), during, c);
    if After(w0, run).calls[c].phase.Done? { ResultsMean(max, mode, k, run, c); }
  }

  lemma Started(w: World, key: Key)
    ensures var w' := Apply(w, CallStart(key)); |w'.calls| == |w.calls| + 1 && w'.calls[|w.calls|].key == key
  {
  }

  lemma {:induction false} RunKeepsKey(w: World, run: seq<Step>, c: nat)
    requires Legal(w, run) && c < |w.calls|
    ensures c < |After(w, run).calls| && After(w, run).calls[c].key == w.calls[c].key
    decreases |run|
  {
    hide Apply, Enabled;
    if run != [] {
      StepKeeps(w, run[0]);
      RunKeepsKey(Apply(w, run[0]), run[1..], c);
    }
  }

  /**
   A first attempt is not the end of a call when a Purge overtook the build it waited
   for: woken, the call goes round again, and nothing else changes.
   */
  lemma PurgedBuildIsRetried(max: nat, mode: Mode, k: Key, run: seq<Step>, u: World, c: nat, t: nat)
    requires Legal(Init(max, mode, k), run) && Took(Init(max, mode, k), run, u, TurnCommit(t))
    requires t < |u.turns| && u.turns[t].phase.Holding?
    requires !u.core.closed && u.core.gen != u.turns[t].phase.startGen
    requires var w := After(Init(max, mode, k), run);
      Enabled(w, CallWake(c)) && w.calls[c].phase == Waiting(t) && w.calls[c].attempt == 0
    ensures var w := After(Init(max, mode, k), run);
      && Legal(w, [CallWake(c)])
      && After(w, [CallWake(c)]) == w.(calls := w.calls[c := w.calls[c].(attempt := 1, phase := Entered)])
  {
    var w0, w := Init(max, mode, k), After(Init(max, mode, k), run);
    RunExplained(w0, run);
    hide Took;
    OneStep(w, CallWake(c));
    assert CommitMeans(u, t, w.turns[t].phase.result);
  }

  // ----- Nothing is stuck -----

  /** Every turn that has not finished can take its next step. */
  lemma TurnGoesOn(w: World, t: nat)
    requires WellFormed(w) && t < |w.turns| && !w.turns[t].phase.Finished?
    ensures exists s :: IsTurnStep(s) && s.turn == t && Enabled(w, s)
  {
    match w.turns[t].phase
    case Starting => assert Enabled(w, TurnMark(t));
    case Marked(_) => assert Enabled(w, TurnConfigure(t));
    case Configured(_, _) => assert Enabled(w, TurnLoad(t));
    case Loaded(_, _, _) => assert Enabled(w, TurnBuilt(t));
    case Holding(_, _) => assert Enabled(w, TurnCommit(t));
    case Unwinding(p, _) => assert if p == [] then Enabled(w, TurnUnmark(t)) else Enabled(w, TurnReap(t));
    case Returning(_) => assert Enabled(w, TurnFinish(t));
  }

  /** Every call that has not ended can take its next step, or waits for a turn that can. */
  lemma CallGoesOn(max: nat, mode: Mode, k: Key, run: seq<Step>, c: nat)
    requires Legal(Init(max, mode, k), run)
    requires var w := After(Init(max, mode, k), run); c < |w.calls| && !w.calls[c].phase.Done?
    ensures var w := After(Init(max, mode, k), run);
      exists s :: Enabled(w, s) && ((IsCallStep(s) && !s.CallStart? && s.call == c)
                                    || (IsTurnStep(s) && w.calls[c].phase == Waiting(s.turn)))
  {
    RunHonestFromInit(max, mode, k, run);
    var w := After(Init(max, mode, k), run);
    match w.calls[c].phase
    case Entered => assert Enabled(w, CallLookup(c));
    case Missed => assert Enabled(w, CallDo(c));
    case Waiting(t) =>
      if w.turns[t].phase.Finished? { assert Enabled(w, CallWake(c)); } else { TurnGoesOn(w, t); }
  }
}
