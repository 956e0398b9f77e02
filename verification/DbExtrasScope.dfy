/**
 DB chunks are the default repo's alone (cmd/ken-mcp/main.go): whatever is evicted,
 rebuilt, joined or applied late, no bundle of another repo ever carries any.
 */
module DbExtrasScope {
  import opened CacheSpec
  import opened CacheProtocol
  import CacheFreshness
  import CacheResults

  ghost predicate Scoped(w: World) {
    && (forall b: nat :: b < |w.bundles| && w.bundles[b].key != w.defaultKey ==> w.bundles[b].chunks == [])
    && (forall t: nat :: t < |w.turns| && w.turns[t].phase.Loaded? && w.turns[t].key != w.defaultKey ==>
          w.turns[t].phase.chunks == [])
    && (w.onExtras.Getting? ==> w.onExtras.call < |w.calls| && w.calls[w.onExtras.call].key == w.defaultKey)
  }

  lemma TurnStepScoped(w: World, s: Step)
    requires Scoped(w) && Enabled(w, s) && IsTurnStep(s)
    ensures Scoped(Apply(w, s))
  {
    hide Apply, Enabled;
    TurnStepFrame(w, s);
    OwnStepScoped(w, s);
  }

  /** Chunks are read for the default repo alone, and a bundle gets what its turn has read. */
  lemma OwnStepScoped(w: World, s: Step)
    requires Scoped(w) && Enabled(w, s) && IsTurnStep(s)
    ensures var w' := Apply(w, s);
      && s.turn < |w'.turns|
      && (w'.turns[s.turn].phase.Loaded? && w'.turns[s.turn].key != w.defaultKey ==>
            w'.turns[s.turn].phase.chunks == [])
      && (forall b: nat :: b < |w'.bundles| && w'.bundles[b].key != w.defaultKey ==> w'.bundles[b].chunks == [])
  {
    hide AfterCommit, ToReap;
  }

  lemma CallStepScoped(w: World, s: Step)
    requires Scoped(w) && Enabled(w, s) && IsCallStep(s)
    ensures Scoped(Apply(w, s))
  {
    hide AfterLookup;
  }

  /** The refresher's Get asked for the default repo, so what it returns was built for it. */
  lemma ApplyScoped(w: World)
    requires Scoped(w) && CacheResults.Honest(w) && Enabled(w, ApplyExtras)
    ensures Scoped(Apply(w, ApplyExtras))
  {
  }

  lemma StepScoped(w: World, s: Step)
    requires Scoped(w) && CacheResults.Honest(w) && Enabled(w, s)
    ensures Scoped(Apply(w, s))
  {
    if IsTurnStep(s) {
      TurnStepScoped(w, s);
    } else if IsCallStep(s) {
      CallStepScoped(w, s);
    } else if s.ApplyExtras? {
      ApplyScoped(w);
    }
  }

  lemma {:induction false} RunScoped(w: World, run: seq<Step>)
    requires Scoped(w) && Legal(w, run)
    requires WellFormed(w) && CacheFreshness.Fresh(w) && CacheResults.Honest(w)
    ensures Scoped(After(w, run))
    decreases |run|
  {
    hide Apply, Enabled, Scoped, WellFormed, CacheFreshness.Fresh, CacheResults.Honest;
    if run != [] {
      StepScoped(w, run[0]);
      StepWellFormed(w, run[0]);
      CacheResults.IsValid(w);
      CacheFreshness.StepFresh(w, run[0]);
      CacheResults.StepHonest(w, run[0]);
      RunScoped(Apply(w, run[0]), run[1..]);
    }
  }

  /** In every reachable world only bundles of the default repo carry chunks. */
  lemma OnlyDefaultCarriesChunks(max: nat, mode: Mode, k: Key, run: seq<Step>, b: Bundle)
    requires Legal(Init(max, mode, k), run) && b < |After(Init(max, mode, k), run).bundles|
    ensures var w := After(Init(max, mode, k), run); w.bundles[b].key != k ==> w.bundles[b].chunks == []
  {
    RunScoped(Init(max, mode, k), run);
    DefaultStays(Init(max, mode, k), run);
  }

  lemma {:induction false} DefaultStays(w: World, run: seq<Step>)
    requires Legal(w, run)
    ensures After(w, run).defaultKey == w.defaultKey
    decreases |run|
  {
    if run != [] { DefaultStays(Apply(w, run[0]), run[1..]); }
  }
}
