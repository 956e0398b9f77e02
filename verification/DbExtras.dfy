/**
 DB chunks and the pinned default repo (cmd/ken-mcp/main.go). The refresher
 publishes a chunk set, resolves the default repo through the cache and applies
 the set to what it got; the builder re-applies the published set to a rebuild.
 Whether the cached default repo then carries the latest set, in every
 interleaving, depends on one thing: that no build which has already read an
 older set is still on its way into the cache.
 */
module DbExtras {
  import opened CacheSpec
  import opened CacheProtocol
  import CacheFreshness

  /** What onExtras promises: any cached bundle of the default repo carries the published chunks. */
  ghost predicate Healed(w: World) {
    forall e :: e in w.core.ll && e.key == w.defaultKey ==>
      e.bundle < |w.bundles| && w.bundles[e.bundle].chunks == w.extras
  }

  /** Turn `t` builds the default repo, has read chunks other than `chunks`, and has yet to commit. */
  ghost predicate StaleBuild(w: World, t: nat, chunks: Chunks) {
    && t < |w.turns|
    && w.turns[t].key == w.defaultKey
    && (w.turns[t].phase.Loaded? || (w.turns[t].phase.Holding? && w.turns[t].phase.bundle < |w.bundles|))
    && (if w.turns[t].phase.Loaded? then w.turns[t].phase.chunks
        else w.bundles[w.turns[t].phase.bundle].chunks) != chunks
  }

  ghost predicate NoneStale(w: World, chunks: Chunks) {
    forall t :: !StaleBuild(w, t, chunks)
  }

  // ----- Without a stale build the promise holds -----

  /** While the refresher's Get is under way only what it is about to resolve may be out of date. */
  ghost predicate Healing(w: World) {
    && NoneStale(w, w.extras)
    && (w.onExtras.Idle? ==> Healed(w))
    && (w.onExtras.Getting? ==>
          && w.onExtras.call < |w.calls|
          && var c := w.calls[w.onExtras.call];
          && c.key == w.defaultKey
          && (c.phase.Entered? || Healed(w) || OnlyStale(w, c.phase)))
  }

  /** The default repo's cached bundle is the one the call has returned. */
  ghost predicate OnlyStale(w: World, p: CallPhase) {
    && p.Done? && p.result.Ok?
    && forall e :: e in w.core.ll && e.key == w.defaultKey ==>
         e.bundle < |w.bundles| && (e.bundle == p.result.bundle || w.bundles[e.bundle].chunks == w.extras)
  }

  ghost predicate Good(w: World) {
    WellFormed(w) && CacheFreshness.Fresh(w)
  }

  lemma StepGood(w: World, s: Step)
    requires Good(w) && Enabled(w, s)
    ensures Good(Apply(w, s))
  {
    StepWellFormed(w, s);
    CacheFreshness.StepFresh(w, s);
  }

  lemma {:induction false} RunGood(w: World, run: seq<Step>)
    requires Good(w) && Legal(w, run)
    ensures Good(After(w, run))
    decreases |run|
  {
    if run != [] {
      StepGood(w, run[0]);
      RunGood(Apply(w, run[0]), run[1..]);
    }
  }

  /** Where turns and bundles only grow, no stale build appears. */
  lemma StaleComesFrom(w: World, w': World)
    requires Linked(w) && Grows(w.turns, w'.turns) && Grows(w.bundles, w'.bundles)
    requires forall t :: |w.turns| <= t < |w'.turns| ==> w'.turns[t].phase.Starting?
    requires w'.extras == w.extras && w'.defaultKey == w.defaultKey
    ensures forall t: nat :: StaleBuild(w', t, w'.extras) ==> StaleBuild(w, t, w.extras)
  {
    forall t: nat | StaleBuild(w', t, w'.extras) ensures StaleBuild(w, t, w.extras) {
      if t < |w.turns| {
        GrowsAt(w.turns, w'.turns, t);
        if w.turns[t].phase.Holding? { GrowsAt(w.bundles, w'.bundles, w.turns[t].phase.bundle); }
      }
    }
  }

  /** Where one turn moves on and is not stale, none is. */
  lemma NoneStaleKept(w: World, w': World, t: nat)
    requires forall u: nat :: u != t ==> !StaleBuild(w, u, w.extras)
    requires !StaleBuild(w', t, w'.extras) && w'.extras == w.extras && w'.defaultKey == w.defaultKey
    requires |w'.turns| == |w.turns| && forall u :: 0 <= u < |w.turns| && u != t ==> w'.turns[u] == w.turns[u]
    requires Grows(w.bundles, w'.bundles) && Linked(w)
    ensures NoneStale(w', w'.extras)
  {
    forall u: nat ensures !StaleBuild(w', u, w'.extras) {
      if u != t && u < |w.turns| {
        assert !StaleBuild(w, u, w.extras);
        if w.turns[u].phase.Holding? { GrowsAt(w.bundles, w'.bundles, w.turns[u].phase.bundle); }
      }
    }
  }

  /** What is cached carries the same chunks as before. */
  lemma HealedKept(w: World, w': World)
    requires Healed(w) && Grows(w.bundles, w'.bundles) && w'.extras == w.extras && w'.defaultKey == w.defaultKey
    requires forall e :: e in w'.core.ll ==> e in w.core.ll
    ensures Healed(w')
  {
    forall e | e in w'.core.ll && e.key == w'.defaultKey
      ensures e.bundle < |w'.bundles| && w'.bundles[e.bundle].chunks == w'.extras
    {
      GrowsAt(w.bundles, w'.bundles, e.bundle);
    }
  }

  lemma OnlyStaleKept(w: World, w': World, p: CallPhase)
    requires OnlyStale(w, p) && Grows(w.bundles, w'.bundles) && w'.extras == w.extras && w'.defaultKey == w.defaultKey
    requires forall e :: e in w'.core.ll ==> e in w.core.ll
    ensures OnlyStale(w', p)
  {
    forall e | e in w'.core.ll && e.key == w'.defaultKey
      ensures e.bundle < |w'.bundles| && (e.bundle == p.result.bundle || w'.bundles[e.bundle].chunks == w'.extras)
    {
      GrowsAt(w.bundles, w'.bundles, e.bundle);
    }
  }

  /** A turn that is not stale is not stale after its next step: it loads the chunks of the day. */
  lemma OwnStepNotStale(w: World, s: Step)
    requires Enabled(w, s) && IsTurnStep(s) && !StaleBuild(w, s.turn, w.extras)
    ensures !StaleBuild(Apply(w, s), s.turn, w.extras)
  {
  }

  lemma TurnStepHealing(w: World, s: Step)
    requires Good(w) && Healing(w) && Enabled(w, s) && IsTurnStep(s) && !s.TurnCommit?
    ensures Healing(Apply(w, s))
  {
    hide Apply, Enabled, StaleBuild, Healed, OnlyStale, CacheFreshness.Fresh;
    var w' := Apply(w, s);
    TurnStepFrame(w, s);
    TurnStepRest(w, s);
    assert !StaleBuild(w, s.turn, w.extras);
    OwnStepNotStale(w, s);
    NoneStaleKept(w, w', s.turn);
    if Healed(w) { HealedKept(w, w'); }
    if w.onExtras.Getting? && OnlyStale(w, w.calls[w.onExtras.call].phase) {
      OnlyStaleKept(w, w', w.calls[w.onExtras.call].phase);
    }
  }

  lemma CommitHealing(w: World, t: nat)
    requires Good(w) && Healing(w) && Enabled(w, TurnCommit(t))
    ensures Healing(DoTurnCommit(w, t))
  {
    var w' := DoTurnCommit(w, t);
    assert !StaleBuild(w, t, w.extras);
    forall i: nat ensures !StaleBuild(w', i, w'.extras) {
      assert !StaleBuild(w, i, w.extras);
    }
    var k, b, g := w.turns[t].key, w.turns[t].phase.bundle, w.turns[t].phase.startGen;
    assert forall e :: e in w'.core.ll ==> e in w.core.ll || e == Entry(k, b);
  }

  lemma NoneStaleAfterCall(w: World, s: Step)
    requires Good(w) && NoneStale(w, w.extras) && Enabled(w, s) && IsCallStep(s)
    ensures NoneStale(Apply(w, s), w.extras) && Apply(w, s).extras == w.extras
  {
    hide Apply, Enabled, StaleBuild, CacheFreshness.Fresh;
    CallStepFrame(w, s);
    StaleComesFrom(w, Apply(w, s));
  }

  /** The refresher's call looks the default repo up: closed, missed, or whatever is cached is what it gets. */
  lemma OwnLookup(w: World, c: nat)
    requires Good(w) && Enabled(w, CallLookup(c)) && w.calls[c].key == w.defaultKey
    ensures var w' := DoCallLookup(w, c); Healed(w') || OnlyStale(w', w'.calls[c].phase)
  {
    var w' := DoCallLookup(w, c);
    if Looked(w.core, w.defaultKey).Hit? {
      forall e | e in w'.core.ll && e.key == w.defaultKey
        ensures e.bundle < |w.bundles| && e == w.core.items[w.defaultKey]
      {
        assert CacheFreshness.OriginOk(w, e.key, w.core.gen, e.bundle);
      }
    }
  }

  lemma CallStepHealing(w: World, s: Step)
    requires Good(w) && Healing(w) && Enabled(w, s) && IsCallStep(s)
    requires w.onExtras.Getting? ==> s.CallStart? || s.call != w.onExtras.call
    ensures Healing(Apply(w, s))
  {
    hide Apply, Enabled, StaleBuild, Healed, OnlyStale, CacheFreshness.Fresh;
    var w' := Apply(w, s);
    CallStepFrame(w, s);
    NoneStaleAfterCall(w, s);
    if Healed(w) { HealedKept(w, w'); }
    if w.onExtras.Getting? && OnlyStale(w, w.calls[w.onExtras.call].phase) {
      OnlyStaleKept(w, w', w.calls[w.onExtras.call].phase);
    }
  }

  lemma OwnCallHealing(w: World, s: Step)
    requires Good(w) && Healing(w) && Enabled(w, s) && (s.CallLookup? || s.CallDo? || s.CallWake?)
    requires w.onExtras == Getting(s.call)
    ensures Healing(Apply(w, s))
  {
    hide Apply, StaleBuild, Healed, OnlyStale, CacheFreshness.Fresh;
    var w' := Apply(w, s);
    CallStepFrame(w, s);
    NoneStaleAfterCall(w, s);
    if s.CallLookup? {
      OwnLookup(w, s.call);
      LookupIs(w, s.call);
    } else {
      NotDone(w, s);
      HealedKept(w, w');
    }
  }

  lemma LookupIs(w: World, c: nat)
    requires Enabled(w, CallLookup(c))
    ensures Apply(w, CallLookup(c)) == DoCallLookup(w, c)
  {
  }

  /** A call that is past its lookup and not done leaves nothing stale in the cache. */
  lemma NotDone(w: World, s: Step)
    requires Healing(w) && Enabled(w, s) && (s.CallDo? || s.CallWake?) && w.onExtras == Getting(s.call)
    ensures Healed(w)
  {
    hide StaleBuild, Healed;
  }

  lemma ApplyHealing(w: World)
    requires Good(w) && Healing(w) && Enabled(w, ApplyExtras)
    ensures Healing(DoApplyExtras(w))
  {
    var w' := DoApplyExtras(w);
    forall t: nat ensures !StaleBuild(w', t, w'.extras) {
      assert !StaleBuild(w, t, w.extras);
    }
  }

  lemma OtherHealing(w: World, s: Step)
    requires Good(w) && Healing(w) && Enabled(w, s)
    requires !IsTurnStep(s) && !IsCallStep(s) && !s.ApplyExtras? && !s.StoreExtras?
    ensures Healing(Apply(w, s))
  {
    hide StaleBuild, Healed, OnlyStale, CacheFreshness.Fresh;
    var w' := Apply(w, s);
    StaleComesFrom(w, w');
    if Healed(w) { HealedKept(w, w'); }
    if w.onExtras.Getting? && OnlyStale(w, w.calls[w.onExtras.call].phase) {
      OnlyStaleKept(w, w', w.calls[w.onExtras.call].phase);
    }
  }

  lemma StepHealing(w: World, s: Step)
    requires Good(w) && Healing(w) && Enabled(w, s) && !s.StoreExtras?
    ensures Healing(Apply(w, s))
  {
    if s.TurnCommit? {
      CommitHealing(w, s.turn);
    } else if IsTurnStep(s) {
      TurnStepHealing(w, s);
    } else if IsCallStep(s) {
      if w.onExtras.Getting? && !s.CallStart? && s.call == w.onExtras.call {
        OwnCallHealing(w, s);
      } else {
        CallStepHealing(w, s);
      }
    } else if s.ApplyExtras? {
      ApplyHealing(w);
    } else {
      OtherHealing(w, s);
    }
  }

  lemma {:induction false} RunHealing(w: World, run: seq<Step>)
    requires Good(w) && Healing(w) && Legal(w, run) && NoStore(run)
    ensures Healing(After(w, run))
    decreases |run|
  {
    if run != [] {
      var s := run[0];
      StepHealing(w, s);
      StepGood(w, s);
      RunHealing(Apply(w, s), run[1..]);
    }
  }

  ghost predicate NoStore(run: seq<Step>) {
    forall i :: 0 <= i < |run| ==> !run[i].StoreExtras?
  }

  /**
   If no build of the default repo that has read another chunk set is on its way
   into the cache when onExtras(chunks) is called, then from its return until the
   next call any cached bundle of the default repo carries `chunks`: across
   evictions, lost insert races, failed builds, purges and rebuilds.
   */
  lemma HealsWithoutStaleBuild(w: World, chunks: Chunks, after: seq<Step>)
    requires Good(w) && Enabled(w, StoreExtras(chunks))
    requires NoneStale(w, chunks)
    requires NoStore(after) && Legal(Apply(w, StoreExtras(chunks)), after)
    requires After(Apply(w, StoreExtras(chunks)), after).onExtras.Idle?
    ensures var w' := After(Apply(w, StoreExtras(chunks)), after); Healed(w') && w'.extras == chunks
  {
    var w1 := Apply(w, StoreExtras(chunks));
    forall t: nat ensures !StaleBuild(w1, t, w1.extras) {
      assert !StaleBuild(w, t, chunks);
    }
    StepGood(w, StoreExtras(chunks));
    RunHealing(w1, after);
    ExtrasStay(w1, after);
  }

  /** Without another call of onExtras the published chunks stay. */
  lemma {:induction false} ExtrasStay(w: World, run: seq<Step>)
    requires Legal(w, run) && NoStore(run)
    ensures After(w, run).extras == w.extras
    decreases |run|
  {
    if run != [] { ExtrasStay(Apply(w, run[0]), run[1..]); }
  }
}
