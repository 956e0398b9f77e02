/**
 The other direction: a build that has read older chunks and is still to commit
 when onExtras is called can always end up as the cached default repo after
 onExtras has returned. So the absence of such a build is exactly what the
 refresher needs.
 */
module DbExtrasExact {
  import opened CacheSpec
  import opened CacheProtocol
  import opened DbExtras
  import CacheFreshness
  import CacheConservation

  // ----- Continuations with no Purge and no further onExtras call -----

  ghost predicate Reaches(w: World, w': World) {
    exists run :: NoStore(run) && NoPurge(run) && Legal(w, run) && After(w, run) == w'
  }

  lemma ReachesSelf(w: World)
    ensures Reaches(w, w)
  {
    assert Legal(w, []) && NoStore([]) && NoPurge([]);
    assert After(w, []) == w;
  }

  lemma ReachesStep(w: World, w': World, s: Step)
    requires Reaches(w, w') && Enabled(w', s) && !s.StoreExtras? && !s.Purge?
    ensures Reaches(w, Apply(w', s))
  {
    var run :| NoStore(run) && NoPurge(run) && Legal(w, run) && After(w, run) == w';
    assert Legal(w', [s]) && After(w', [s]) == Apply(w', s) by {
      assert [s][1..] == [];
      assert Legal(Apply(w', s), []);
    }
    RunConcat(w, run, [s]);
    assert NoStore(run + [s]) && NoPurge(run + [s]);
  }

  lemma ReachesTrans(w: World, w': World, w'': World)
    requires Reaches(w, w') && Reaches(w', w'')
    ensures Reaches(w, w'')
  {
    var a :| NoStore(a) && NoPurge(a) && Legal(w, a) && After(w, a) == w';
    var b :| NoStore(b) && NoPurge(b) && Legal(w', b) && After(w', b) == w'';
    RunConcat(w, a, b);
    assert NoStore(a + b) && NoPurge(a + b);
  }

  /** One more step, with what every step keeps. */
  lemma Take(w: World, w': World, s: Step) returns (w'': World)
    requires Reaches(w, w') && Good(w') && Enabled(w', s) && !s.StoreExtras? && !s.Purge?
    ensures Reaches(w, w'') && Good(w'') && w'' == Apply(w', s)
  {
    ReachesStep(w, w', s);
    StepGood(w', s);
    w'' := Apply(w', s);
  }

  // ----- Without a Purge an unfinished turn stays mapped -----

  ghost predicate Mapped(w: World) {
    && w.core.gen == 0
    && forall t :: 0 <= t < |w.turns| && !w.turns[t].phase.Finished? ==>
         w.turns[t].key in w.sf && w.sf[w.turns[t].key] == t
  }

  lemma {:induction false} RunMapped(w: World, run: seq<Step>)
    requires WellFormed(w) && Mapped(w) && Legal(w, run) && NoPurge(run)
    ensures Mapped(After(w, run))
    decreases |run|
  {
    if run != [] {
      StepWellFormed(w, run[0]);
      StepMapped(w, run[0]);
      RunMapped(Apply(w, run[0]), run[1..]);
    }
  }

  lemma StepMapped(w: World, s: Step)
    requires WellFormed(w) && Mapped(w) && Enabled(w, s) && !s.Purge?
    ensures Mapped(Apply(w, s))
  {
    if IsTurnStep(s) {
      TurnStepMapped(w, s);
    }
  }

  lemma TurnStepMapped(w: World, s: Step)
    requires WellFormed(w) && Mapped(w) && Enabled(w, s) && IsTurnStep(s)
    ensures Mapped(Apply(w, s))
  {
    hide Apply, Enabled;
    TurnStepFrame(w, s);
  }

  // ----- Pushing the default repo out of the cache -----

  lemma {:induction false} UnusedKey(ks: set<Key>) returns (k: Key)
    ensures k !in ks
    ensures forall x :: x in ks ==> |x| < |k|
    decreases |ks|
  {
    if ks == {} {
      k := "a";
    } else {
      var x :| x in ks;
      k := UnusedKey(ks - {x});
      if |k| <= |x| { k := x + "a"; }
    }
  }

  /** What a detour through other keys leaves as it was. */
  ghost predicate Keeps(w: World, w': World) {
    && w'.core.max == w.core.max && w'.core.gen == w.core.gen && w'.core.closed == w.core.closed
    && w'.extras == w.extras && w'.onExtras == w.onExtras && w'.defaultKey == w.defaultKey
    && |w.turns| <= |w'.turns| && w'.turns[..|w.turns|] == w.turns
    && |w.bundles| <= |w'.bundles| && w'.bundles[..|w.bundles|] == w.bundles
    && |w.calls| <= |w'.calls| && w'.calls[..|w.calls|] == w.calls
  }

  lemma StartFresh(w: World, k: Key) returns (w': World)
    requires Good(w) && !w.core.closed && k !in w.core.items && k !in w.sf
    ensures Reaches(w, w') && Good(w') && Keeps(w, w')
    ensures w'.core.ll == w.core.ll && w'.core.items == w.core.items
    ensures w'.turns == w.turns + [Turn(k, Starting)] && w'.bundles == w.bundles
  {
    ReachesSelf(w);
    var c := |w.calls|;
    w' := Take(w, w, CallStart(k));
    w' := Take(w, w', CallLookup(c));
    w' := Take(w, w', CallDo(c));
  }

  lemma ConfigureFresh(w: World, t: nat) returns (w': World, version: nat)
    requires Good(w) && t < |w.turns| && w.turns[t].phase.Starting?
    ensures Reaches(w, w') && Good(w')
    ensures w'.core == AfterMark(w.core, w.turns[t].key)
    ensures w'.turns == w.turns[t := Turn(w.turns[t].key, Configured(w.core.gen, version))]
    ensures w'.bundles == w.bundles && w'.extras == w.extras && w'.onExtras == w.onExtras
    ensures w'.defaultKey == w.defaultKey && w'.calls == w.calls
  {
    ReachesSelf(w);
    w' := Take(w, w, TurnMark(t));
    w' := Take(w, w', TurnConfigure(t));
    version := w'.turns[t].phase.version;
  }

  lemma LoadFresh(w: World, t: nat) returns (w': World)
    requires Good(w) && t < |w.turns| && w.turns[t].phase.Configured?
    ensures Reaches(w, w') && Good(w') && w'.core == w.core
    ensures w'.turns == w.turns[t := Turn(w.turns[t].key, Holding(w.turns[t].phase.startGen, |w.bundles|))]
    ensures |w'.bundles| == |w.bundles| + 1 && w'.bundles[..|w.bundles|] == w.bundles
    ensures w'.extras == w.extras && w'.onExtras == w.onExtras && w'.defaultKey == w.defaultKey && w'.calls == w.calls
  {
    ReachesSelf(w);
    w' := Take(w, w, TurnLoad(t));
    w' := Take(w, w', TurnBuilt(t));
  }

  lemma BuildFresh(w: World, t: nat) returns (w': World)
    requires Good(w) && t < |w.turns| && w.turns[t].phase.Starting?
    ensures Reaches(w, w') && Good(w')
    ensures w'.core == AfterMark(w.core, w.turns[t].key)
    ensures w'.turns == w.turns[t := Turn(w.turns[t].key, Holding(w.core.gen, |w.bundles|))]
    ensures |w'.bundles| == |w.bundles| + 1 && w'.bundles[..|w.bundles|] == w.bundles
    ensures w'.extras == w.extras && w'.onExtras == w.onExtras && w'.defaultKey == w.defaultKey && w'.calls == w.calls
  {
    hide Apply, Enabled, Good, Reaches;
    var w1, version := ConfigureFresh(w, t);
    w' := LoadFresh(w1, t);
    ReachesTrans(w, w1, w');
  }

  lemma CommitFresh(w: World, t: nat) returns (w': World)
    requires Good(w) && !w.core.closed && t < |w.turns|
    requires w.turns[t].phase.Holding? && w.turns[t].phase.startGen == w.core.gen && w.turns[t].key !in w.core.items
    ensures Reaches(w, w') && Good(w')
    ensures w'.core.ll == [Entry(w.turns[t].key, w.turns[t].phase.bundle)] + Kept(w.core.ll, w.core.max)
    ensures w'.core.max == w.core.max && w'.core.gen == w.core.gen && w'.core.closed == w.core.closed
    ensures |w'.turns| == |w.turns| && w'.turns[..t] == w.turns[..t] && w'.bundles == w.bundles && w'.calls == w.calls
    ensures w'.extras == w.extras && w'.onExtras == w.onExtras && w'.defaultKey == w.defaultKey
  {
    ReachesSelf(w);
    w' := Take(w, w, TurnCommit(t));
  }

  /** One complete Get of a key nobody has asked for. */
  lemma InsertFresh(w: World) returns (w': World, k: Key)
    requires Good(w) && !w.core.closed
    ensures Reaches(w, w') && Good(w') && Keeps(w, w')
    ensures k != w.defaultKey && k !in w.core.items
    ensures w'.core.ll == [Entry(k, |w.bundles|)] + Kept(w.core.ll, w.core.max)
  {
    k := UnusedKey(w.core.items.Keys + w.sf.Keys + {w.defaultKey});
    var t := |w.turns|;
    var w1 := StartFresh(w, k);
    var w2 := BuildFresh(w1, t);
    w' := CommitFresh(w2, t);
    ReachesTrans(w, w1, w2);
    ReachesTrans(w, w2, w');
    FreshKeeps(w, w1, w2, w');
  }

  lemma FreshKeeps(w: World, w1: World, w2: World, w': World)
    requires Keeps(w, w1) && |w1.turns| == |w.turns| + 1
    requires w2.core.max == w1.core.max && w2.core.gen == w1.core.gen && w2.core.closed == w1.core.closed
    requires |w2.turns| == |w1.turns| && w2.turns[..|w.turns|] == w1.turns[..|w.turns|]
    requires |w1.bundles| <= |w2.bundles| && w2.bundles[..|w1.bundles|] == w1.bundles && w2.calls == w1.calls
    requires w2.extras == w1.extras && w2.onExtras == w1.onExtras && w2.defaultKey == w1.defaultKey
    requires w'.core.max == w2.core.max && w'.core.gen == w2.core.gen && w'.core.closed == w2.core.closed
    requires |w'.turns| == |w2.turns| && w'.turns[..|w.turns|] == w2.turns[..|w.turns|]
    requires w'.bundles == w2.bundles && w'.calls == w2.calls
    requires w'.extras == w2.extras && w'.onExtras == w2.onExtras && w'.defaultKey == w2.defaultKey
    ensures Keeps(w, w')
  {
    assert w2.bundles[..|w.bundles|] == w2.bundles[..|w1.bundles|][..|w.bundles|];
  }

  ghost function Position(ll: seq<Entry>, k: Key): (i: nat)
    ensures i <= |ll|
    ensures i < |ll| ==> ll[i].key == k
    ensures forall j :: 0 <= j < i ==> ll[j].key != k
    ensures k in Keys(ll) ==> i < |ll|
  {
    if ll == [] || ll[0].key == k then 0 else 1 + Position(ll[1..], k)
  }

  lemma {:induction false} EvictDefault(w: World) returns (w': World)
    requires Good(w) && !w.core.closed
    ensures Reaches(w, w') && Good(w') && Keeps(w, w') && w.defaultKey !in w'.core.items
    decreases w.core.max - Position(w.core.ll, w.defaultKey)
  {
    if w.defaultKey !in w.core.items {
      ReachesSelf(w);
      w' := w;
    } else {
      assert w.defaultKey in Keys(w.core.ll);
      var w1, k := InsertFresh(w);
      if w.defaultKey in w1.core.items {
        assert w.defaultKey in Keys(w1.core.ll);
        PositionMoves(w.core.ll, w.core.max, Entry(k, |w.bundles|), w.defaultKey);
        w' := EvictDefault(w1);
        ReachesTrans(w, w1, w');
        KeepsTrans(w, w1, w');
      } else {
        w' := w1;
      }
    }
  }

  /** A key found among the first entries is found there in the whole list. */
  lemma PositionKept(ll: seq<Entry>, n: nat, k: Key)
    requires n <= |ll| && Position(ll[..n], k) < n
    ensures Position(ll[..n], k) == Position(ll, k)
  {
    hide Position;
    var start, p := ll[..n], Position(ll[..n], k);
    assert start[p].key == k && start[p] == ll[p];
  }

  lemma PositionNext(e: Entry, rest: seq<Entry>, k: Key)
    requires e.key != k
    ensures Position([e] + rest, k) == 1 + Position(rest, k)
  {
    assert ([e] + rest)[1..] == rest;
  }

  lemma PositionMoves(ll: seq<Entry>, max: nat, e: Entry, k: Key)
    requires 1 <= max && |ll| <= max && e.key != k && k in Keys([e] + Kept(ll, max))
    ensures Position([e] + Kept(ll, max), k) == 1 + Position(ll, k)
  {
    hide Position;
    PositionNext(e, Kept(ll, max), k);
    assert k in Keys(Kept(ll, max));
    if |ll| >= max { PositionKept(ll, max - 1, k); }
  }

  lemma KeepsTrans(w: World, w': World, w'': World)
    requires Keeps(w, w') && Keeps(w', w'')
    ensures Keeps(w, w'')
  {
    assert w''.turns[..|w.turns|] == w''.turns[..|w'.turns|][..|w.turns|];
    assert w''.bundles[..|w.bundles|] == w''.bundles[..|w'.bundles|][..|w.bundles|];
    assert w''.calls[..|w.calls|] == w''.calls[..|w'.calls|][..|w.calls|];
  }

  // ----- The stale build lands -----

  /** With the default repo out of the cache, the stale build commits and takes its place. */
  lemma StaleLands(w: World, t: nat) returns (w': World)
    requires Good(w) && !w.core.closed && w.core.gen == 0 && w.defaultKey !in w.core.items
    requires StaleBuild(w, t, w.extras)
    ensures Reaches(w, w') && Good(w') && !w'.core.closed && !Healed(w')
    ensures w'.extras == w.extras && w'.onExtras == w.onExtras && w'.defaultKey == w.defaultKey
    ensures w'.calls == w.calls && w'.sf == w.sf && |w'.turns| == |w.turns|
    ensures w'.turns[t].key == w.defaultKey && w'.turns[t].phase.Unwinding?
    ensures w'.core.gen == 0
  {
    ReachesSelf(w);
    w' := w;
    assert CacheFreshness.TurnFresh(w, w.turns[t]);
    if w.turns[t].phase.Loaded? {
      w' := Take(w, w, TurnBuilt(t));
    }
    var b := w'.turns[t].phase.bundle;
    assert w'.bundles[b].chunks != w.extras;
    w' := Take(w, w', TurnCommit(t));
    assert Entry(w.defaultKey, b) in w'.core.ll;
  }

  /** The landed turn reaps what it owes, unmarks and finishes. */
  lemma {:induction false} Unwind(w: World, t: nat) returns (w': World)
    requires Good(w) && t < |w.turns| && w.turns[t].phase.Unwinding? && !w.core.closed && !Healed(w)
    ensures Reaches(w, w') && Good(w') && !w'.core.closed && !Healed(w')
    ensures w'.extras == w.extras && w'.onExtras == w.onExtras && w'.defaultKey == w.defaultKey && w'.calls == w.calls
    ensures w'.core.gen == w.core.gen && w'.core.items == w.core.items
    ensures w'.sf == if w.turns[t].key in w.sf && w.sf[w.turns[t].key] == t then w.sf - {w.turns[t].key} else w.sf
    decreases |w.turns[t].phase.pending|
  {
    if w.turns[t].phase.pending == [] {
      w' := FinishUnwound(w, t);
    } else {
      ReachesSelf(w);
      var w1 := Take(w, w, TurnReap(t));
      hide Apply, Enabled;
      w' := Unwind(w1, t);
      ReachesTrans(w, w1, w');
    }
  }

  lemma FinishUnwound(w: World, t: nat) returns (w': World)
    requires Good(w) && t < |w.turns| && w.turns[t].phase.Unwinding? && w.turns[t].phase.pending == []
    requires !w.core.closed && !Healed(w)
    ensures Reaches(w, w') && Good(w') && !w'.core.closed && !Healed(w')
    ensures w'.extras == w.extras && w'.onExtras == w.onExtras && w'.defaultKey == w.defaultKey && w'.calls == w.calls
    ensures w'.core.gen == w.core.gen && w'.core.items == w.core.items
    ensures w'.sf == if w.turns[t].key in w.sf && w.sf[w.turns[t].key] == t then w.sf - {w.turns[t].key} else w.sf
  {
    ReachesSelf(w);
    w' := Take(w, w, TurnUnmark(t));
    w' := Take(w, w', TurnFinish(t));
  }

  lemma OwnTurnStarts(w: World, c: nat) returns (w': World)
    requires Good(w) && c < |w.calls| && w.calls[c].phase.Missed? && w.calls[c].key !in w.sf
    ensures Reaches(w, w') && Good(w') && w'.calls == w.calls[c := w.calls[c].(phase := Waiting(|w.turns|))]
    ensures w'.core.ll == w.core.ll && w'.bundles == w.bundles && w'.extras == w.extras
    ensures w'.onExtras == w.onExtras && w'.defaultKey == w.defaultKey
    ensures |w'.turns| == |w.turns| + 1 && w'.turns[|w.turns|].phase.Marked?
  {
    ReachesSelf(w);
    w' := Take(w, w, CallDo(c));
    w' := Take(w, w', TurnMark(|w.turns|));
  }

  lemma OwnTurnFails(w: World, t: nat) returns (w': World)
    requires Good(w) && t < |w.turns| && w.turns[t].phase.Marked?
    ensures Reaches(w, w') && Good(w') && w'.calls == w.calls && |w'.turns| == |w.turns|
    ensures w'.core.ll == w.core.ll && w'.bundles == w.bundles && w'.extras == w.extras
    ensures w'.onExtras == w.onExtras && w'.defaultKey == w.defaultKey
    ensures w'.turns[t].phase == Finished(ErrBuild)
  {
    ReachesSelf(w);
    w' := Take(w, w, TurnFailed(t));
    w' := Take(w, w', TurnUnmark(t));
    w' := Take(w, w', TurnFinish(t));
  }

  /** The refresher's own rebuild fails, so onExtras returns without having applied anything. */
  lemma RefresherFails(w: World, c: nat) returns (w': World)
    requires Good(w) && !Healed(w)
    requires w.onExtras == Getting(c) && c < |w.calls| && w.calls[c].key == w.defaultKey && w.calls[c].phase.Missed?
    requires w.defaultKey !in w.sf
    ensures Reaches(w, w') && w'.onExtras.Idle? && !Healed(w')
  {
    hide Apply, Enabled, Reaches, Good;
    var w1 := OwnTurnStarts(w, c);
    var w2 := OwnTurnFails(w1, |w.turns|);
    ReachesTrans(w, w1, w2);
    var w3 := ReturnsEmpty(w2, c);
    ReachesTrans(w, w2, w3);
    w' := w3;
  }

  lemma ReturnsEmpty(w: World, c: nat) returns (w': World)
    requires Good(w) && !Healed(w) && w.onExtras == Getting(c) && c < |w.calls| && w.calls[c].phase.Waiting?
    requires var t := w.calls[c].phase.turn; t < |w.turns| && w.turns[t].phase == Finished(ErrBuild)
    ensures Reaches(w, w') && w'.onExtras.Idle? && !Healed(w')
  {
    hide Healed, CacheFreshness.Fresh;
    ReachesSelf(w);
    w' := Take(w, w, CallWake(c));
    w' := Take(w, w', ApplyExtras);
    assert !Healed(w') by { SameCacheHealed(w', w); }
  }

  lemma SameCacheHealed(w: World, w': World)
    requires w'.core.ll == w.core.ll && w'.bundles == w.bundles
    requires w'.extras == w.extras && w'.defaultKey == w.defaultKey
    ensures Healed(w) <==> Healed(w')
  {
  }

  lemma {:induction false} HolderCounts(ts: seq<Turn>, t: nat, b: Bundle)
    requires t < |ts| && ts[t].phase.Holding? && ts[t].phase.bundle == b
    ensures CacheConservation.InTurns(ts, true, b) >= 1
  {
    if t > 0 { HolderCounts(ts[1..], t - 1, b); }
  }

  lemma {:induction false} EntryCounts(ll: seq<Entry>, e: Entry)
    requires e in ll
    ensures Count(ll, e.bundle) >= 1
  {
    if ll[0] != e { EntryCounts(ll[1..], e); }
  }

  lemma HeldIsNotCached(w: World, t: nat, e: Entry)
    requires t < |w.turns| && w.turns[t].phase.Holding? && e in w.core.ll
    requires CacheConservation.Conserved(w, e.bundle)
    ensures w.turns[t].phase.bundle != e.bundle
  {
    if w.turns[t].phase.bundle == e.bundle {
      HolderCounts(w.turns, t, e.bundle);
      EntryCounts(w.core.ll, e);
    }
  }

  /** The default repo is cached: onExtras hits it and returns, and the stale build is none the wiser. */
  lemma HitAndReturn(w: World, c: nat, t: nat) returns (w': World)
    requires Good(w) && !w.core.closed && StaleBuild(w, t, w.extras)
    requires forall b: Bundle :: CacheConservation.Conserved(w, b)
    requires w.onExtras == Getting(c) && c < |w.calls| && w.calls[c].key == w.defaultKey && w.calls[c].phase.Entered?
    requires w.defaultKey in w.core.items
    ensures Reaches(w, w') && Good(w') && w'.onExtras.Idle? && StaleBuild(w', t, w'.extras)
    ensures w'.core.gen == w.core.gen && !w'.core.closed
    ensures |w'.calls| == |w.calls| && w'.calls[c].phase.Done? && w'.calls[c].phase.result.Ok?
  {
    ReachesSelf(w);
    var hit := w.core.items[w.defaultKey];
    assert CacheFreshness.OriginOk(w, hit.key, w.core.gen, hit.bundle);
    assert CacheConservation.Conserved(w, hit.bundle);
    if w.turns[t].phase.Holding? { HeldIsNotCached(w, t, hit); }
    var w1 := Take(w, w, CallLookup(c));
    HitStep(w, c);
    hide Good, CacheConservation.Conserved, Reaches;
    w' := ReturnWithHit(w, w1, c, t, hit.bundle);
  }

  lemma HitStep(w: World, c: nat)
    requires Good(w) && !w.core.closed && Enabled(w, CallLookup(c)) && w.calls[c].key in w.core.items
    ensures var w' := Apply(w, CallLookup(c));
      && w' == w.(core := w'.core, calls := w'.calls)
      && w'.core.gen == w.core.gen && w'.core.closed == w.core.closed && |w'.calls| == |w.calls|
      && w'.calls[c].phase.Done? && w'.calls[c].phase.result == Ok(w.core.items[w.calls[c].key].bundle)
  {
  }

  /** The call has its bundle, which is not the one the stale build holds: applying the chunks spares the latter. */
  lemma ReturnWithHit(w: World, w1: World, c: nat, t: nat, hit: Bundle) returns (w': World)
    requires Reaches(w, w1) && Good(w1) && StaleBuild(w1, t, w1.extras)
    requires w1.onExtras == Getting(c) && c < |w1.calls|
    requires w1.calls[c].phase.Done? && w1.calls[c].phase.result == Ok(hit) && hit < |w1.bundles|
    requires w1.turns[t].phase.Holding? ==> w1.turns[t].phase.bundle != hit
    ensures Reaches(w, w') && Good(w') && w'.onExtras.Idle? && StaleBuild(w', t, w'.extras)
    ensures w'.core == w1.core && w'.calls == w1.calls
  {
    w' := Take(w, w1, ApplyExtras);
  }

  /** Then the default repo is evicted, and the stale build takes its place. */
  lemma BreaksWhenCached(w: World, c: nat, t: nat) returns (w': World)
    requires Good(w) && w.core.gen == 0 && !w.core.closed && StaleBuild(w, t, w.extras)
    requires forall b: Bundle :: CacheConservation.Conserved(w, b)
    requires w.onExtras == Getting(c) && c < |w.calls| && w.calls[c].key == w.defaultKey && w.calls[c].phase.Entered?
    requires w.defaultKey in w.core.items
    ensures Reaches(w, w') && w'.onExtras.Idle? && !Healed(w')
    ensures c < |w'.calls| && w'.calls[c].phase.Done? && w'.calls[c].phase.result.Ok?
  {
    hide Apply, Enabled, Reaches, Good, StaleBuild, Healed, CacheConservation.Conserved;
    var w1 := HitAndReturn(w, c, t);
    var w2 := EvictDefault(w1);
    ReachesTrans(w, w1, w2);
    assert w2.calls[c] == w2.calls[..|w1.calls|][c];
    StaleKept(w1, w2, t);
    w' := StaleLands(w2, t);
    ReachesTrans(w, w2, w');
  }

  lemma StaleKept(w: World, w': World, t: nat)
    requires StaleBuild(w, t, w.extras) && Keeps(w, w')
    ensures StaleBuild(w', t, w'.extras)
  {
    assert w'.turns[t] == w'.turns[..|w.turns|][t];
    if w.turns[t].phase.Holding? {
      var b := w.turns[t].phase.bundle;
      assert w'.bundles[b] == w'.bundles[..|w.bundles|][b];
    }
  }

  /** It is not cached: onExtras misses, the stale build lands, and onExtras' own rebuild then fails. */
  lemma BreaksWhenMissing(w: World, c: nat, t: nat) returns (w': World)
    requires Good(w) && Mapped(w) && !w.core.closed && StaleBuild(w, t, w.extras)
    requires w.onExtras == Getting(c) && c < |w.calls| && w.calls[c].key == w.defaultKey
    requires w.calls[c].phase.Entered? && w.calls[c].attempt == 0
    requires w.defaultKey !in w.core.items
    ensures Reaches(w, w') && w'.onExtras.Idle? && !Healed(w')
  {
    ReachesSelf(w);
    var w1 := Take(w, w, CallLookup(c));
    var w2 := StaleLands(w1, t);
    ReachesTrans(w, w1, w2);
    var w3 := Unwind(w2, t);
    ReachesTrans(w, w2, w3);
    w' := RefresherFails(w3, c);
    ReachesTrans(w, w3, w');
  }

  /** What onExtras(chunks) promises from its return until the next call, over every interleaving without a Purge. */
  ghost predicate KeepsPromise(w: World, chunks: Chunks)
    requires Enabled(w, StoreExtras(chunks))
  {
    forall after ::
      NoStore(after) && NoPurge(after) && Legal(Apply(w, StoreExtras(chunks)), after)
      && After(Apply(w, StoreExtras(chunks)), after).onExtras.Idle?
      ==> Healed(After(Apply(w, StoreExtras(chunks)), after))
  }

  lemma StaleBuildBreaks(w: World, t: nat, chunks: Chunks)
    requires Good(w) && Mapped(w) && !w.core.closed && Enabled(w, StoreExtras(chunks))
    requires forall b: Bundle :: CacheConservation.Conserved(w, b)
    requires StaleBuild(w, t, chunks)
    ensures !KeepsPromise(w, chunks)
  {
    var w1 := Apply(w, StoreExtras(chunks));
    StepGood(w, StoreExtras(chunks));
    assert StaleBuild(w1, t, w1.extras);
    forall b: Bundle ensures CacheConservation.Conserved(w1, b) {
      assert CacheConservation.Conserved(w, b);
    }
    var w2;
    if w1.defaultKey in w1.core.items {
      w2 := BreaksWhenCached(w1, |w.calls|, t);
    } else {
      w2 := BreaksWhenMissing(w1, |w.calls|, t);
    }
    var after :| NoStore(after) && NoPurge(after) && Legal(w1, after) && After(w1, after) == w2;
  }

  /**
   The refresher's guarantee, exactly: after any Purge-free run and with the cache
   open, onExtras(chunks) keeps its promise in every continuation if and only if,
   when it is called, no build of the default repo that has read other chunks is
   still to commit.
   */
  lemma SelfHealsIffNoStaleBuild(max: nat, mode: Mode, k: Key, before: seq<Step>, chunks: Chunks)
    requires Legal(Init(max, mode, k), before) && NoPurge(before)
    requires Enabled(After(Init(max, mode, k), before), StoreExtras(chunks))
    requires !After(Init(max, mode, k), before).core.closed
    ensures var w := After(Init(max, mode, k), before);
      KeepsPromise(w, chunks) <==> NoneStale(w, chunks)
  {
    var w0 := Init(max, mode, k);
    var w := After(w0, before);
    RunGood(w0, before);
    RunMapped(w0, before);
    if NoneStale(w, chunks) {
      forall after | NoStore(after) && NoPurge(after) && Legal(Apply(w, StoreExtras(chunks)), after)
                     && After(Apply(w, StoreExtras(chunks)), after).onExtras.Idle?
        ensures Healed(After(Apply(w, StoreExtras(chunks)), after))
      {
        HealsWithoutStaleBuild(w, chunks, after);
      }
    } else {
      var t :| StaleBuild(w, t, chunks);
      forall b: Bundle ensures CacheConservation.Conserved(w, b) {
        CacheConservation.BundlesConserved(max, mode, k, before, b);
      }
      StaleBuildBreaks(w, t, chunks);
    }
  }
}
