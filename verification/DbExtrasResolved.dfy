/**
 The refresher's guarantee when its own cache.Get succeeds: a stale build in flight
 then does harm exactly when the default repo is cached as the chunks arrive.
 */
module DbExtrasResolved {
  import opened CacheSpec
  import opened CacheProtocol
  import opened DbExtras
  import opened DbExtrasExact
  import CacheConservation
  import CacheFreshness

  ghost predicate Resolved(w: World, c: nat) {
    c < |w.calls| && w.calls[c].phase.Done? && w.calls[c].phase.result.Ok?
  }

  ghost predicate Unresolved(w: World, c: nat) {
    c < |w.calls| && w.calls[c].phase.Done? && !w.calls[c].phase.result.Ok?
  }

  /** What onExtras(chunks) promises when the Get it makes returns the default repo. */
  ghost predicate KeepsPromiseIfResolved(w: World, chunks: Chunks)
    requires Enabled(w, StoreExtras(chunks))
  {
    forall after ::
      NoStore(after) && NoPurge(after) && Legal(Apply(w, StoreExtras(chunks)), after)
      && After(Apply(w, StoreExtras(chunks)), after).onExtras.Idle?
      && Resolved(After(Apply(w, StoreExtras(chunks)), after), |w.calls|)
      ==> Healed(After(Apply(w, StoreExtras(chunks)), after))
  }

  lemma DoneStays(w: World, s: Step, c: nat)
    requires Enabled(w, s) && c < |w.calls| && w.calls[c].phase.Done?
    ensures c < |Apply(w, s).calls| && Apply(w, s).calls[c] == w.calls[c]
  {
  }

  // ----- Before the stale build has committed -----

  /** The refresher's call resolves the default repo and has no other turn to wait for than `t`. */
  ghost predicate Asking(w: World, c: nat) {
    && w.onExtras == Getting(c) && c < |w.calls| && w.calls[c].key == w.defaultKey
  }

  /** The stale build `t` is still to commit and the default repo is not cached. */
  ghost predicate Ahead(w: World, c: nat, t: nat) {
    && Asking(w, c)
    && t < |w.turns| && w.turns[t].key == w.defaultKey
    && (w.turns[t].phase.Loaded? || w.turns[t].phase.Holding?)
    && (forall u :: u != t ==> !StaleBuild(w, u, w.extras))
    && (forall e :: e in w.core.ll ==> e.key != w.defaultKey)
    && (w.calls[c].phase.Entered? || w.calls[c].phase.Missed? || w.calls[c].phase == Waiting(t))
  }

  ghost predicate ResultIs(t: Turn, b: Bundle) {
    (t.phase.Unwinding? || t.phase.Returning? || t.phase.Finished?) && t.phase.result.Ok? ==> t.phase.result.bundle == b
  }

  /** The stale build's bundle `b` is cached, and whatever the refresher's call can return is `b`. */
  ghost predicate Landed(w: World, c: nat, b: Bundle) {
    && Asking(w, c)
    && NoneStale(w, w.extras)
    && Entry(w.defaultKey, b) in w.core.ll && b < |w.bundles|
    && (forall u :: 0 <= u < |w.turns| && w.turns[u].key == w.defaultKey && !w.turns[u].phase.Finished? ==>
          ResultIs(w.turns[u], b))
    && match w.calls[c].phase
       case Waiting(u) => u < |w.turns| && w.turns[u].key == w.defaultKey && ResultIs(w.turns[u], b)
       case Done(r, _) => r.Ok? && r.bundle == b
       case _ => true
  }

  /** The states the run goes through: stale build ahead, landed, or nothing left to go wrong. */
  ghost predicate Resolving(w: World, c: nat, t: nat) {
    Ahead(w, c, t) || (exists b :: Landed(w, c, b)) || Healing(w) || Unresolved(w, c)
  }

  ghost predicate Quietly(s: Step) { !s.StoreExtras? && !s.Purge? }

  /** Another turn of the default repo cannot be unfinished beside `t`. */
  lemma OnlyTurn(w: World, t: nat, u: nat)
    requires Mapped(w) && t < |w.turns| && u < |w.turns| && w.turns[t].key == w.turns[u].key
    requires !w.turns[t].phase.Finished? && !w.turns[u].phase.Finished?
    ensures t == u
  {
  }

  lemma AheadCommits(w: World, c: nat, t: nat)
    requires Good(w) && Mapped(w) && Ahead(w, c, t) && Enabled(w, TurnCommit(t))
    ensures Resolving(DoTurnCommit(w, t), c, t)
  {
    var w' := DoTurnCommit(w, t);
    var b := w.turns[t].phase.bundle;
    NoneStaleKept(w, w', t);
    if w.core.closed {
      assert Healing(w');
    } else {
      assert CacheFreshness.TurnFresh(w, w.turns[t]);
      assert w.defaultKey !in w.core.items;
      assert w'.core.ll[0] == Entry(w.defaultKey, b);
      assert Landed(w', c, b);
    }
  }

  lemma AheadBuilds(w: World, c: nat, t: nat, s: Step)
    requires Good(w) && Ahead(w, c, t) && Enabled(w, s) && IsTurnStep(s) && s.turn == t && !s.TurnCommit?
    ensures Resolving(Apply(w, s), c, t)
  {
    var w' := Apply(w, s);
    if s.TurnFailed? {
      NoneStaleKept(w, w', t);
      assert Healing(w');
    } else {
      assert s.TurnBuilt?;
      forall u | u != t ensures !StaleBuild(w', u, w'.extras) {
        assert !StaleBuild(w, u, w.extras);
      }
      assert Ahead(w', c, t);
    }
  }

  /** Where turns and bundles only grow, `t` stays the only stale build. */
  lemma StillOnly(w: World, w': World, t: nat)
    requires forall u: nat :: u != t ==> !StaleBuild(w, u, w.extras)
    requires forall u: nat :: StaleBuild(w', u, w'.extras) ==> StaleBuild(w, u, w.extras)
    ensures forall u: nat :: u != t ==> !StaleBuild(w', u, w'.extras)
  {
  }

  /** Another turn's step: the stale build stays the only one. */
  lemma OthersNotStale(w: World, t: nat, s: Step)
    requires Linked(w) && Enabled(w, s) && IsTurnStep(s) && s.turn != t && !s.TurnCommit?
    requires forall u: nat :: u != t ==> !StaleBuild(w, u, w.extras)
    ensures forall u: nat :: u != t ==> !StaleBuild(Apply(w, s), u, w.extras)
  {
    hide Apply, Enabled;
    var w' := Apply(w, s);
    TurnStepFrame(w, s);
    TurnStepRest(w, s);
    OwnStepNotStale(w, s);
    forall u: nat | u != t ensures !StaleBuild(w', u, w.extras) {
      assert !StaleBuild(w, u, w.extras);
      if u != s.turn && u < |w.turns| && w.turns[u].phase.Holding? {
        GrowsAt(w.bundles, w'.bundles, w.turns[u].phase.bundle);
      }
    }
  }

  lemma AheadOtherTurn(w: World, c: nat, t: nat, s: Step)
    requires Good(w) && Ahead(w, c, t) && Enabled(w, s) && IsTurnStep(s) && s.turn != t && !s.TurnCommit?
    ensures Ahead(Apply(w, s), c, t)
  {
    hide Apply, Enabled, StaleBuild, CacheFreshness.Fresh;
    TurnStepFrame(w, s);
    TurnStepRest(w, s);
    OthersNotStale(w, t, s);
  }

  lemma AheadOtherCommit(w: World, c: nat, t: nat, u: nat)
    requires Good(w) && Mapped(w) && Ahead(w, c, t) && Enabled(w, TurnCommit(u)) && u != t
    ensures Ahead(DoTurnCommit(w, u), c, t)
  {
    var w' := DoTurnCommit(w, u);
    forall i | i != t ensures !StaleBuild(w', i, w'.extras) {
      assert !StaleBuild(w, i, w.extras);
    }
    var e' := Entry(w.turns[u].key, w.turns[u].phase.bundle);
    assert forall e :: e in w'.core.ll ==> e in w.core.ll || e == e';
  }

  lemma AheadCallStale(w: World, t: nat, s: Step)
    requires Good(w) && Enabled(w, s) && IsCallStep(s)
    requires forall u: nat :: u != t ==> !StaleBuild(w, u, w.extras)
    ensures forall u: nat :: u != t ==> !StaleBuild(Apply(w, s), u, Apply(w, s).extras)
  {
    hide Apply, Enabled, StaleBuild, CacheFreshness.Fresh;
    CallStepFrame(w, s);
    StaleComesFrom(w, Apply(w, s));
    StillOnly(w, Apply(w, s), t);
  }

  /** Where the refresher's own call can get to while the stale build is ahead. */
  lemma AheadOwnCall(w: World, c: nat, t: nat, s: Step)
    requires Valid(w.core) && Mapped(w) && Ahead(w, c, t) && Enabled(w, s)
    requires (s.CallLookup? || s.CallDo? || s.CallWake?) && s.call == c
    ensures var w' := Apply(w, s);
      w'.calls[c].phase.Missed? || w'.calls[c].phase == Waiting(t) || Unresolved(w', c)
  {
    hide StaleBuild;
  }

  lemma AheadCall(w: World, c: nat, t: nat, s: Step)
    requires Good(w) && Mapped(w) && Ahead(w, c, t) && Enabled(w, s) && IsCallStep(s)
    ensures Ahead(Apply(w, s), c, t) || Unresolved(Apply(w, s), c)
  {
    hide Apply, Enabled, StaleBuild, CacheFreshness.Fresh;
    var w' := Apply(w, s);
    CallStepFrame(w, s);
    AheadCallStale(w, t, s);
    GrowsAt(w.turns, w'.turns, t);
    if !s.CallStart? && s.call == c { AheadOwnCall(w, c, t, s); }
  }

  lemma AheadOther(w: World, c: nat, t: nat, s: Step)
    requires Good(w) && Ahead(w, c, t) && Enabled(w, s) && Quietly(s) && !IsTurnStep(s) && !IsCallStep(s)
    ensures Ahead(Apply(w, s), c, t)
  {
    hide StaleBuild, CacheFreshness.Fresh;
    var w' := Apply(w, s);
    StaleComesFrom(w, w');
    StillOnly(w, w', t);
  }

  // ----- After it has -----

  lemma OnlyEntry(w: World, b: Bundle)
    requires Valid(w.core) && Entry(w.defaultKey, b) in w.core.ll
    ensures forall e :: e in w.core.ll && e.key == w.defaultKey ==> e.bundle == b
    ensures w.defaultKey in w.core.items && w.core.items[w.defaultKey] == Entry(w.defaultKey, b)
  {
  }

  /** A commit while the default repo is cached moves it to the front, keeps it, or evicts it. */
  lemma CommitBeside(w: World, u: nat, b: Bundle)
    requires Valid(w.core) && Entry(w.defaultKey, b) in w.core.ll && Enabled(w, TurnCommit(u))
    ensures var w' := DoTurnCommit(w, u);
      || Entry(w.defaultKey, b) in w'.core.ll
      || forall e :: e in w'.core.ll ==> e.key != w.defaultKey
    ensures w.turns[u].key == w.defaultKey ==> ResultIs(DoTurnCommit(w, u).turns[u], b)
  {
    var w' := DoTurnCommit(w, u);
    OnlyEntry(w, b);
    var e' := Entry(w.turns[u].key, w.turns[u].phase.bundle);
    assert forall e :: e in w'.core.ll ==> e in w.core.ll || (e == e' && e.key != w.defaultKey);
  }

  lemma LandedCommit(w: World, c: nat, b: Bundle, u: nat)
    requires Good(w) && Landed(w, c, b) && Enabled(w, TurnCommit(u))
    ensures Landed(DoTurnCommit(w, u), c, b) || Healing(DoTurnCommit(w, u))
  {
    hide AfterCommit, ToReap, Judged, CacheFreshness.Fresh;
    var w' := DoTurnCommit(w, u);
    CommitBeside(w, u, b);
    forall i: nat ensures !StaleBuild(w', i, w'.extras) { assert !StaleBuild(w, i, w.extras); }
  }

  /** A turn that is neither stale nor has another result is neither after its next step. */
  lemma LandedOwn(w: World, b: Bundle, s: Step)
    requires Enabled(w, s) && IsTurnStep(s) && !s.TurnCommit?
    requires !StaleBuild(w, s.turn, w.extras) && (w.turns[s.turn].key == w.defaultKey ==> ResultIs(w.turns[s.turn], b))
    ensures !StaleBuild(Apply(w, s), s.turn, w.extras)
    ensures w.turns[s.turn].key == w.defaultKey ==> ResultIs(Apply(w, s).turns[s.turn], b)
  {
  }

  lemma LandedTurn(w: World, c: nat, b: Bundle, s: Step)
    requires Good(w) && Landed(w, c, b) && Enabled(w, s) && IsTurnStep(s) && !s.TurnCommit?
    ensures Landed(Apply(w, s), c, b)
  {
    hide Apply, Enabled, StaleBuild, ResultIs, CacheFreshness.Fresh;
    var w' := Apply(w, s);
    TurnStepFrame(w, s);
    TurnStepRest(w, s);
    assert !StaleBuild(w, s.turn, w.extras);
    LandedOwn(w, b, s);
    NoneStaleKept(w, w', s.turn);
  }

  /** The refresher's own call can only come to the landed bundle. */
  lemma LandedOwnCall(w: World, c: nat, b: Bundle, s: Step)
    requires Valid(w.core) && Linked(w) && Landed(w, c, b) && Enabled(w, s)
    requires (s.CallLookup? || s.CallDo? || s.CallWake?) && s.call == c
    ensures var w' := Apply(w, s);
      match w'.calls[c].phase
      case Waiting(u) => u < |w'.turns| && w'.turns[u].key == w.defaultKey && ResultIs(w'.turns[u], b)
      case Done(r, _) => !r.Ok? || r.bundle == b
      case _ => true
  {
    hide StaleBuild;
    OnlyEntry(w, b);
  }

  lemma LandedCall(w: World, c: nat, b: Bundle, s: Step)
    requires Good(w) && Landed(w, c, b) && Enabled(w, s) && IsCallStep(s)
    ensures Landed(Apply(w, s), c, b) || Unresolved(Apply(w, s), c)
  {
    hide Apply, Enabled, StaleBuild, CacheFreshness.Fresh;
    var w' := Apply(w, s);
    CallStepFrame(w, s);
    NoneStaleAfterCall(w, s);
    forall u | 0 <= u < |w.turns| ensures w'.turns[u] == w.turns[u] { GrowsAt(w.turns, w'.turns, u); }
    if !s.CallStart? && s.call == c { LandedOwnCall(w, c, b, s); }
  }

  lemma LandedApplies(w: World, c: nat, b: Bundle)
    requires Good(w) && Landed(w, c, b) && Enabled(w, ApplyExtras)
    ensures Healing(DoApplyExtras(w))
  {
    var w' := DoApplyExtras(w);
    OnlyEntry(w, b);
    forall i: nat ensures !StaleBuild(w', i, w'.extras) { assert !StaleBuild(w, i, w.extras); }
  }

  lemma LandedOther(w: World, c: nat, b: Bundle, s: Step)
    requires Good(w) && Landed(w, c, b) && Enabled(w, s) && Quietly(s)
    requires !IsTurnStep(s) && !IsCallStep(s) && !s.ApplyExtras?
    ensures Landed(Apply(w, s), c, b) || Healing(Apply(w, s))
  {
    hide StaleBuild, CacheFreshness.Fresh;
    StaleComesFrom(w, Apply(w, s));
  }

  // ----- Runs -----

  lemma StepResolving(w: World, c: nat, t: nat, s: Step)
    requires Good(w) && Mapped(w) && Resolving(w, c, t) && Enabled(w, s) && Quietly(s)
    ensures Resolving(Apply(w, s), c, t)
  {
    hide Apply, Enabled, Ahead, Landed, Healing, Good, Mapped;
    if Unresolved(w, c) {
      DoneStays(w, s, c);
    } else if Healing(w) {
      StepHealing(w, s);
    } else if Ahead(w, c, t) {
      AheadStep(w, c, t, s);
    } else {
      var b :| Landed(w, c, b);
      LandedStep(w, c, b, s);
    }
  }

  lemma AheadStep(w: World, c: nat, t: nat, s: Step)
    requires Good(w) && Mapped(w) && Ahead(w, c, t) && Enabled(w, s) && Quietly(s)
    ensures Resolving(Apply(w, s), c, t)
  {
    hide Resolving, Good, Mapped, Ahead, Unresolved;
    if s.TurnCommit? && s.turn == t {
      AheadCommits(w, c, t);
    } else if IsTurnStep(s) && s.turn == t {
      AheadBuilds(w, c, t, s);
    } else if s.TurnCommit? {
      AheadOtherCommit(w, c, t, s.turn);
      AheadResolves(Apply(w, s), c, t);
    } else if IsTurnStep(s) {
      AheadOtherTurn(w, c, t, s);
      AheadResolves(Apply(w, s), c, t);
    } else if IsCallStep(s) {
      AheadCall(w, c, t, s);
      AheadResolves(Apply(w, s), c, t);
    } else {
      AheadOther(w, c, t, s);
      AheadResolves(Apply(w, s), c, t);
    }
  }

  lemma AheadResolves(w: World, c: nat, t: nat)
    requires Ahead(w, c, t) || Unresolved(w, c)
    ensures Resolving(w, c, t)
  {
  }

  lemma LandedStep(w: World, c: nat, b: Bundle, s: Step)
    requires Good(w) && Landed(w, c, b) && Enabled(w, s) && Quietly(s)
    ensures Landed(Apply(w, s), c, b) || Healing(Apply(w, s)) || Unresolved(Apply(w, s), c)
  {
    hide Good, Landed, Healing, Unresolved;
    if s.TurnCommit? {
      LandedCommit(w, c, b, s.turn);
    } else if IsTurnStep(s) {
      LandedTurn(w, c, b, s);
    } else if IsCallStep(s) {
      LandedCall(w, c, b, s);
    } else if s.ApplyExtras? {
      LandedApplies(w, c, b);
    } else {
      LandedOther(w, c, b, s);
    }
  }

  lemma {:induction false} RunResolving(w: World, c: nat, t: nat, run: seq<Step>)
    requires Good(w) && Mapped(w) && Resolving(w, c, t)
    requires Legal(w, run) && NoStore(run) && NoPurge(run)
    ensures Resolving(After(w, run), c, t)
    decreases |run|
  {
    hide Apply, Enabled, Resolving, Mapped;
    if run != [] {
      StepResolving(w, c, t, run[0]);
      StepGood(w, run[0]);
      StepMapped(w, run[0]);
      RunResolving(Apply(w, run[0]), c, t, run[1..]);
    }
  }

  lemma MissingIsHarmless(w: World, t: nat, chunks: Chunks)
    requires Good(w) && Mapped(w) && Enabled(w, StoreExtras(chunks))
    requires StaleBuild(w, t, chunks) && w.defaultKey !in w.core.items
    ensures KeepsPromiseIfResolved(w, chunks)
  {
    var w1, c := Apply(w, StoreExtras(chunks)), |w.calls|;
    StepGood(w, StoreExtras(chunks));
    StepMapped(w, StoreExtras(chunks));
    forall u: nat | u != t ensures !StaleBuild(w1, u, w1.extras) {
      if StaleBuild(w1, u, w1.extras) { OnlyTurn(w, t, u); }
    }
    assert Ahead(w1, c, t);
    forall after | NoStore(after) && NoPurge(after) && Legal(w1, after)
                   && After(w1, after).onExtras.Idle? && Resolved(After(w1, after), c)
      ensures Healed(After(w1, after))
    {
      RunResolving(w1, c, t, after);
    }
  }

  /**
   The sharper guarantee, exactly: after any Purge-free run and with the cache open,
   whenever onExtras' own Get succeeds the cached default repo carries the chunks
   from its return on, if and only if the default repo is not cached when onExtras
   is called or no stale build of it is in flight.
   */
  lemma SelfHealsWhenResolvedIff(max: nat, mode: Mode, k: Key, before: seq<Step>, chunks: Chunks)
    requires Legal(Init(max, mode, k), before) && NoPurge(before)
    requires Enabled(After(Init(max, mode, k), before), StoreExtras(chunks))
    requires !After(Init(max, mode, k), before).core.closed
    ensures var w := After(Init(max, mode, k), before);
      KeepsPromiseIfResolved(w, chunks) <==> w.defaultKey !in w.core.items || NoneStale(w, chunks)
  {
    var w0 := Init(max, mode, k);
    var w := After(w0, before);
    RunGood(w0, before);
    RunMapped(w0, before);
    if NoneStale(w, chunks) {
      forall after | NoStore(after) && NoPurge(after) && Legal(Apply(w, StoreExtras(chunks)), after)
                     && After(Apply(w, StoreExtras(chunks)), after).onExtras.Idle?
        ensures Healed(After(Apply(w, StoreExtras(chunks)), after))
      {
        HealsWithoutStaleBuild(w, chunks, after);
      }
    } else {
      var t :| StaleBuild(w, t, chunks);
      if w.defaultKey !in w.core.items {
        MissingIsHarmless(w, t, chunks);
      } else {
        forall b: Bundle ensures CacheConservation.Conserved(w, b) {
          CacheConservation.BundlesConserved(max, mode, k, before, b);
        }
        CachedBreaks(w, t, chunks);
      }
    }
  }

  lemma CachedBreaks(w: World, t: nat, chunks: Chunks)
    requires Good(w) && Mapped(w) && !w.core.closed && Enabled(w, StoreExtras(chunks))
    requires forall b: Bundle :: CacheConservation.Conserved(w, b)
    requires StaleBuild(w, t, chunks) && w.defaultKey in w.core.items
    ensures !KeepsPromiseIfResolved(w, chunks)
  {
    var w1 := Apply(w, StoreExtras(chunks));
    StepGood(w, StoreExtras(chunks));
    assert StaleBuild(w1, t, w1.extras);
    forall b: Bundle ensures CacheConservation.Conserved(w1, b) {
      assert CacheConservation.Conserved(w, b);
    }
    var w2 := BreaksWhenCached(w1, |w.calls|, t);
    var after :| NoStore(after) && NoPurge(after) && Legal(w1, after) && After(w1, after) == w2;
  }
}
