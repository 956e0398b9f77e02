/**
 A run of the kind the program makes in which the refresher's guarantee fails: no
 build fails, nothing is purged, and the refresher's own Get succeeds.
 */
module DbExtrasWitness {
  import opened CacheSpec
  import opened CacheProtocol
  import opened DbExtras
  import opened DbExtrasExact
  import opened DbExtrasResolved

  // ----- Pieces of runs -----

  /** A new Get of an uncached key that nobody builds, up to its own turn. */
  function Miss(k: Key, c: nat): seq<Step> {
    [CallStart(k)] + [CallLookup(c)] + [CallDo(c)]
  }

  /** A turn from its start to its commit. */
  function Build(t: nat): seq<Step> {
    [TurnMark(t)] + [TurnConfigure(t)] + [TurnLoad(t)] + [TurnBuilt(t)] + [TurnCommit(t)]
  }

  function Missed(w: World, k: Key): World {
    w.(calls := w.calls + [Call(k, 0, w.core.gen, Waiting(|w.turns|))],
       sf := w.sf[k := |w.turns|],
       turns := w.turns + [Turn(k, Starting)])
  }

  lemma MissRuns(w: World, k: Key)
    requires !w.core.closed && k !in w.core.items && k !in w.sf
    ensures Runs(w, Miss(k, |w.calls|), Missed(w, k))
  {
    hide Runs;
    var c := |w.calls|;
    RunsNothing(w);
    var w1 := Apply(w, CallStart(k));
    RunsStep(w, [], w, CallStart(k));
    var w2 := Apply(w1, CallLookup(c));
    assert [] + [CallStart(k)] == [CallStart(k)];
    RunsStep(w, [CallStart(k)], w1, CallLookup(c));
    RunsStep(w, [CallStart(k)] + [CallLookup(c)], w2, CallDo(c));
    assert Apply(w2, CallDo(c)) == Missed(w, k);
  }

  /** With room for one entry, the turn's bundle is the only one cached when it has committed. */
  function Committed(w: World, t: nat): World
    requires t < |w.turns| && |w.modes| > 0
  {
    var k, b := w.turns[t].key, |w.bundles|;
    w.(core := w.core.(ll := [Entry(k, b)], items := map[k := Entry(k, b)], inflight := w.core.inflight + {k}),
       turns := w.turns[t := Turn(k, Unwinding(w.core.ll, Ok(b)))],
       bundles := w.bundles + [Info(k, w.core.gen, |w.modes| - 1, if k == w.defaultKey then w.extras else [])])
  }

  /** A cache with room for one entry. */
  ghost predicate Small(c: Core) {
    && c.max == 1 && !c.closed && |c.ll| <= 1
    && c.items == (if c.ll == [] then map[] else map[c.ll[0].key := c.ll[0]])
  }

  lemma BuildRuns(w: World, t: nat)
    requires Small(w.core) && |w.modes| > 0
    requires t < |w.turns| && w.turns[t].phase.Starting? && w.turns[t].key !in w.core.items
    ensures Runs(w, Build(t), Committed(w, t))
  {
    hide Runs, AfterCommit, ToReap, Judged;
    var w1 := ReadyRuns(w, t);
    RunsStep(w, [TurnMark(t)] + [TurnConfigure(t)] + [TurnLoad(t)], w1, TurnBuilt(t));
    var w2 := Apply(w1, TurnBuilt(t));
    RunsStep(w, [TurnMark(t)] + [TurnConfigure(t)] + [TurnLoad(t)] + [TurnBuilt(t)], w2, TurnCommit(t));
    CommitSmall(w2.core, w.turns[t].key, |w.bundles|);
    assert Apply(w2, TurnCommit(t)) == Committed(w, t);
  }

  /** A turn up to the point where it has read everything it builds from. */
  lemma ReadyRuns(w: World, t: nat) returns (w': World)
    requires |w.modes| > 0 && t < |w.turns| && w.turns[t].phase.Starting?
    ensures Runs(w, [TurnMark(t)] + [TurnConfigure(t)] + [TurnLoad(t)], w')
    ensures var k := w.turns[t].key;
      w' == w.(core := AfterMark(w.core, k),
               turns := w.turns[t := Turn(k, Loaded(w.core.gen, |w.modes| - 1,
                                                    if k == w.defaultKey then w.extras else []))])
  {
    hide Runs;
    RunsNothing(w);
    var w1 := Apply(w, TurnMark(t));
    RunsStep(w, [], w, TurnMark(t));
    var w2 := Apply(w1, TurnConfigure(t));
    assert [] + [TurnMark(t)] == [TurnMark(t)];
    RunsStep(w, [TurnMark(t)], w1, TurnConfigure(t));
    RunsStep(w, [TurnMark(t)] + [TurnConfigure(t)], w2, TurnLoad(t));
    w' := Apply(w2, TurnLoad(t));
  }

  lemma CommitSmall(c: Core, k: Key, b: Bundle)
    requires Small(c) && k !in c.items
    ensures Judged(c, k, c.gen) == Inserted && ToReap(c, k, b, c.gen) == c.ll
    ensures AfterCommit(c, k, b, c.gen) == c.(ll := [Entry(k, b)], items := map[k := Entry(k, b)])
  {
    assert Kept(c.ll, 1) == [];
    if c.ll != [] {
      assert c.ll[..0] == [];
      assert Evicted(c.ll[..0], 1) == [];
      assert Evicted(c.ll, 1) == c.ll;
    }
    assert c.items - Keys(c.ll) == map[];
  }

  // ----- The run -----

  /** A turn that owes no teardown ends, and its caller wakes. */
  function Return(t: nat, c: nat): seq<Step> {
    [TurnUnmark(t)] + [TurnFinish(t)] + [CallWake(c)]
  }

  lemma ReturnRuns(w: World, t: nat, c: nat, b: Bundle) returns (w': World)
    requires t < |w.turns| && w.turns[t].phase == Unwinding([], Ok(b))
    requires c < |w.calls| && w.calls[c].phase == Waiting(t) && w.turns[t].key in w.sf && w.sf[w.turns[t].key] == t
    ensures Runs(w, Return(t, c), w')
    ensures w'.core == w.core.(inflight := w.core.inflight - {w.turns[t].key}) && w'.sf == w.sf - {w.turns[t].key}
    ensures |w'.turns| == |w.turns| && w'.calls == w.calls[c := w.calls[c].(phase := Done(Ok(b), w.core.gen))]
    ensures w'.bundles == w.bundles && w'.modes == w.modes
    ensures w'.extras == w.extras && w'.onExtras == w.onExtras && w'.defaultKey == w.defaultKey
  {
    hide Runs;
    RunsNothing(w);
    RunsStep(w, [], w, TurnUnmark(t));
    assert [] + [TurnUnmark(t)] == [TurnUnmark(t)];
    var w1 := Apply(w, TurnUnmark(t));
    RunsStep(w, [TurnUnmark(t)], w1, TurnFinish(t));
    var w2 := Apply(w1, TurnFinish(t));
    RunsStep(w, [TurnUnmark(t)] + [TurnFinish(t)], w2, CallWake(c));
    w' := Apply(w2, CallWake(c));
  }

  /** The pre-warm of the default repo, complete. */
  function PreWarm(k: Key): seq<Step> {
    Miss(k, 0) + Build(0) + Return(0, 0)
  }

  lemma PreWarmRuns(mode: Mode, k: Key) returns (w: World)
    ensures Runs(Init(1, mode, k), PreWarm(k), w)
    ensures Small(w.core) && w.core.ll == [Entry(k, 0)] && w.core.gen == 0 && w.sf == map[]
    ensures |w.turns| == 1 && w.calls == [Call(k, 0, 0, Done(Ok(0), 0))] && |w.bundles| == 1
    ensures w.modes == [mode] && w.extras == [] && w.onExtras.Idle? && w.defaultKey == k
  {
    hide Runs, Miss, Build, Return;
    var w0 := Init(1, mode, k);
    MissRuns(w0, k);
    var w1 := Missed(w0, k);
    BuildRuns(w1, 0);
    var w2 := Committed(w1, 0);
    RunsThen(w0, Miss(k, 0), w1, Build(0), w2);
    w := ReturnRuns(w2, 0, 0, 0);
    RunsThen(w0, Miss(k, 0) + Build(0), w2, Return(0, 0), w);
  }

  /** Two Gets of an uncached key miss, and the first starts its turn. */
  function TwoGets(k: Key, c: nat): seq<Step> {
    [CallStart(k)] + [CallStart(k)] + [CallLookup(c)] + [CallLookup(c + 1)] + [CallDo(c)]
  }

  lemma TwoGetsRun(w: World, k: Key) returns (w': World)
    requires !w.core.closed && k !in w.core.items && k !in w.sf
    ensures Runs(w, TwoGets(k, |w.calls|), w')
    ensures w'.core == w.core && w'.sf == w.sf[k := |w.turns|] && w'.turns == w.turns + [Turn(k, Starting)]
    ensures |w'.calls| == |w.calls| + 2 && Grows(w.calls, w'.calls)
    ensures w'.calls[|w.calls| + 1] == Call(k, 0, w.core.gen, CallPhase.Missed)
    ensures w'.bundles == w.bundles && w'.modes == w.modes
    ensures w'.extras == w.extras && w'.onExtras == w.onExtras && w'.defaultKey == w.defaultKey
  {
    hide Runs;
    var c := |w.calls|;
    RunsNothing(w);
    RunsStep(w, [], w, CallStart(k));
    assert [] + [CallStart(k)] == [CallStart(k)];
    var w1 := Apply(w, CallStart(k));
    RunsStep(w, [CallStart(k)], w1, CallStart(k));
    var w2 := Apply(w1, CallStart(k));
    RunsStep(w, [CallStart(k)] + [CallStart(k)], w2, CallLookup(c));
    var w3 := Apply(w2, CallLookup(c));
    RunsStep(w, [CallStart(k)] + [CallStart(k)] + [CallLookup(c)], w3, CallLookup(c + 1));
    var w4 := Apply(w3, CallLookup(c + 1));
    RunsStep(w, [CallStart(k)] + [CallStart(k)] + [CallLookup(c)] + [CallLookup(c + 1)], w4, CallDo(c));
    w' := Apply(w4, CallDo(c));
  }

  /** Another repo pushes the default one out; then two Gets of it miss. */
  function TwoMisses(k: Key, other: Key): seq<Step> {
    Miss(other, 1) + Build(1) + TwoGets(k, 2)
  }

  lemma TwoMissesRun(w: World, k: Key, other: Key) returns (w': World)
    requires Small(w.core) && w.core.ll == [Entry(k, 0)] && w.core.gen == 0 && w.sf == map[] && k != other
    requires |w.turns| == 1 && |w.calls| == 1 && |w.bundles| == 1 && |w.modes| == 1
    ensures Runs(w, TwoMisses(k, other), w')
    ensures Small(w'.core) && w'.core.ll == [Entry(other, 1)] && w'.core.gen == 0 && w'.sf == map[other := 1, k := 2]
    ensures |w'.turns| == 3 && w'.turns[2] == Turn(k, Starting) && |w'.bundles| == 2
    ensures |w'.calls| == 4 && w'.calls[0] == w.calls[0] && w'.calls[3] == Call(k, 0, 0, CallPhase.Missed)
    ensures w'.modes == w.modes && w'.extras == w.extras && w'.onExtras == w.onExtras && w'.defaultKey == w.defaultKey
  {
    hide Runs, Miss, Build, TwoGets;
    MissRuns(w, other);
    var w1 := Missed(w, other);
    BuildRuns(w1, 1);
    var w2 := Committed(w1, 1);
    RunsThen(w, Miss(other, 1), w1, Build(1), w2);
    w' := TwoGetsRun(w2, k);
    RunsThen(w, Miss(other, 1) + Build(1), w2, TwoGets(k, 2), w');
    GrowsAt(w2.calls, w'.calls, 0);
  }

  /** The turn that evicted one entry reaps it and finishes. */
  function Settle(t: nat): seq<Step> {
    [TurnReap(t)] + [TurnUnmark(t)] + [TurnFinish(t)]
  }

  lemma SettleRuns(w: World, t: nat, b: Bundle) returns (w': World)
    requires t < |w.turns| && w.turns[t].phase.Unwinding? && |w.turns[t].phase.pending| == 1
    requires w.turns[t].phase.result == Ok(b) && w.turns[t].key in w.sf && w.sf[w.turns[t].key] == t
    ensures Runs(w, Settle(t), w')
    ensures w'.core == w.core.(inflight := w.core.inflight - {w.turns[t].key}) && w'.sf == w.sf - {w.turns[t].key}
    ensures |w'.turns| == |w.turns| && w'.calls == w.calls && w'.bundles == w.bundles && w'.modes == w.modes
    ensures w'.extras == w.extras && w'.onExtras == w.onExtras && w'.defaultKey == w.defaultKey
  {
    hide Runs;
    RunsNothing(w);
    RunsStep(w, [], w, TurnReap(t));
    assert [] + [TurnReap(t)] == [TurnReap(t)];
    var w1 := Apply(w, TurnReap(t));
    RunsStep(w, [TurnReap(t)], w1, TurnUnmark(t));
    var w2 := Apply(w1, TurnUnmark(t));
    RunsStep(w, [TurnReap(t)] + [TurnUnmark(t)], w2, TurnFinish(t));
    w' := Apply(w2, TurnFinish(t));
  }

  /** A Get that has missed starts its own turn, which reads the chunks of the day. */
  function Load(c: nat, t: nat): seq<Step> {
    [CallDo(c)] + [TurnMark(t)] + [TurnConfigure(t)] + [TurnLoad(t)]
  }

  lemma LoadRuns(w: World, c: nat) returns (w': World)
    requires c < |w.calls| && w.calls[c].phase.Missed? && w.calls[c].key !in w.sf && |w.modes| > 0
    requires w.calls[c].key == w.defaultKey
    ensures var t, k := |w.turns|, w.defaultKey;
      && Runs(w, Load(c, t), w')
      && w'.core == w.core.(inflight := w.core.inflight + {k}) && w'.sf == w.sf[k := t]
      && w'.turns == w.turns + [Turn(k, Loaded(w.core.gen, |w.modes| - 1, w.extras))]
      && w'.calls == w.calls[c := w.calls[c].(phase := Waiting(t))]
      && w'.bundles == w.bundles && w'.modes == w.modes
      && w'.extras == w.extras && w'.onExtras == w.onExtras && w'.defaultKey == k
  {
    hide Runs;
    var t := |w.turns|;
    RunsNothing(w);
    RunsStep(w, [], w, CallDo(c));
    assert [] + [CallDo(c)] == [CallDo(c)];
    var w1 := Apply(w, CallDo(c));
    RunsStep(w, [CallDo(c)], w1, TurnMark(t));
    var w2 := Apply(w1, TurnMark(t));
    RunsStep(w, [CallDo(c)] + [TurnMark(t)], w2, TurnConfigure(t));
    var w3 := Apply(w2, TurnConfigure(t));
    RunsStep(w, [CallDo(c)] + [TurnMark(t)] + [TurnConfigure(t)], w3, TurnLoad(t));
    w' := Apply(w3, TurnLoad(t));
  }

  /** The first Get's turn caches the default repo; the second's own turn then reads the old chunks. */
  function SecondBuild(): seq<Step> {
    Build(2) + Settle(2) + Load(3, 3)
  }

  lemma SecondBuildRuns(w: World, k: Key, other: Key) returns (w': World)
    requires Small(w.core) && w.core.ll == [Entry(other, 1)] && w.core.gen == 0
    requires w.sf == map[other := 1, k := 2] && k != other
    requires |w.turns| == 3 && w.turns[2] == Turn(k, Starting) && |w.bundles| == 2 && |w.modes| == 1
    requires |w.calls| == 4 && w.calls[3] == Call(k, 0, 0, CallPhase.Missed)
    requires w.extras == [] && w.defaultKey == k
    ensures Runs(w, SecondBuild(), w')
    ensures Small(w'.core) && w'.core.ll == [Entry(k, 2)] && w'.core.gen == 0 && w'.sf == map[other := 1, k := 3]
    ensures |w'.turns| == 4 && w'.turns[3] == Turn(k, Loaded(0, 0, [])) && |w'.bundles| == 3
    ensures |w'.calls| == 4 && w'.calls[0] == w.calls[0]
    ensures w'.modes == w.modes && w'.extras == [] && w'.onExtras == w.onExtras && w'.defaultKey == k
  {
    hide Runs, Build, Settle, Load;
    BuildRuns(w, 2);
    var w1 := Committed(w, 2);
    var w2 := SettleRuns(w1, 2, 2);
    RunsThen(w, Build(2), w1, Settle(2), w2);
    assert w2.sf == map[other := 1];
    w' := LoadRuns(w2, 3);
    RunsThen(w, Build(2) + Settle(2), w2, Load(3, 3), w');
  }

  /** onExtras hits the default repo and returns. */
  function HitAndApply(c: nat): seq<Step> {
    [CallLookup(c)] + [ApplyExtras]
  }

  lemma HitAndApplyRuns(w: World, k: Key, b: Bundle, c: nat) returns (w': World)
    requires Small(w.core) && w.core.ll == [Entry(k, b)] && b < |w.bundles|
    requires w.onExtras == Getting(c) && c < |w.calls| && w.calls[c].key == k && w.calls[c].phase.Entered?
    ensures Runs(w, HitAndApply(c), w')
    ensures w'.core == w.core && w'.sf == w.sf && w'.turns == w.turns && w'.modes == w.modes
    ensures w'.calls == w.calls[c := w.calls[c].(phase := Done(Ok(b), w.core.gen))]
    ensures w'.onExtras.Idle? && w'.extras == w.extras && w'.defaultKey == w.defaultKey
    ensures |w'.bundles| == |w.bundles|
  {
    hide Runs;
    RunsNothing(w);
    RunsStep(w, [], w, CallLookup(c));
    assert [] + [CallLookup(c)] == [CallLookup(c)];
    assert MoveToFront(w.core.ll, Entry(k, b)) == w.core.ll by { assert Without(w.core.ll[1..], k) == []; }
    var w1 := Apply(w, CallLookup(c));
    RunsStep(w, [CallLookup(c)], w1, ApplyExtras);
    w' := Apply(w1, ApplyExtras);
  }

  /** Then a third repo pushes the default one out, and the second build lands. */
  function StaleLanding(third: Key): seq<Step> {
    HitAndApply(4) + Miss(third, 5) + Build(4) + [TurnBuilt(3)] + [TurnCommit(3)]
  }

  lemma Lands(w: World, k: Key, t: nat, run: seq<Step>, w0: World) returns (w': World)
    requires Small(w.core) && k !in w.core.items && w.core.gen == 0 && w.defaultKey == k && w.extras != []
    requires t < |w.turns| && w.turns[t] == Turn(k, Loaded(0, 0, [])) && Runs(w0, run, w)
    ensures Runs(w0, run + [TurnBuilt(t)] + [TurnCommit(t)], w')
    ensures w'.onExtras == w.onExtras && w'.extras == w.extras && w'.calls == w.calls && !Healed(w')
  {
    hide Runs;
    RunsStep(w0, run, w, TurnBuilt(t));
    var w1 := Apply(w, TurnBuilt(t));
    RunsStep(w0, run + [TurnBuilt(t)], w1, TurnCommit(t));
    CommitSmall(w1.core, k, |w.bundles|);
    w' := Apply(w1, TurnCommit(t));
    assert Entry(k, |w.bundles|) in w'.core.ll && w'.bundles[|w.bundles|].chunks == [];
  }

  lemma StaleLandingRuns(w: World, k: Key, other: Key, third: Key, chunks: Chunks) returns (w': World)
    requires Small(w.core) && w.core.ll == [Entry(k, 2)] && w.core.gen == 0 && w.sf == map[other := 1, k := 3]
    requires third != k && third != other && chunks != []
    requires |w.turns| == 4 && w.turns[3] == Turn(k, Loaded(0, 0, [])) && |w.bundles| == 3 && |w.modes| == 1
    requires w.onExtras == Getting(4) && |w.calls| == 5 && w.calls[4] == Call(k, 0, 0, Entered)
    requires w.extras == chunks && w.defaultKey == k
    ensures Runs(w, StaleLanding(third), w')
    ensures w'.onExtras.Idle? && Resolved(w', 4) && w'.extras == chunks && !Healed(w')
  {
    hide Runs, Miss, Build, HitAndApply, Healed;
    var w1 := HitAndApplyRuns(w, k, 2, 4);
    MissRuns(w1, third);
    var w2 := Missed(w1, third);
    RunsThen(w, HitAndApply(4), w1, Miss(third, 5), w2);
    BuildRuns(w2, 4);
    var w3 := Committed(w2, 4);
    RunsThen(w, HitAndApply(4) + Miss(third, 5), w2, Build(4), w3);
    w' := Lands(w3, k, 3, HitAndApply(4) + Miss(third, 5) + Build(4), w);
  }

  /** A run in which no build fails and the cache is neither purged nor closed. */
  ghost predicate Smooth(run: seq<Step>) {
    forall s :: s in run ==> !s.TurnFailed? && !s.Purge? && !s.Close?
  }

  lemma SmoothConcat(a: seq<Step>, b: seq<Step>)
    requires Smooth(a) && Smooth(b)
    ensures Smooth(a + b)
  {
  }

  lemma MissBuildSmooth(k: Key, c: nat, t: nat)
    ensures Smooth(Miss(k, c)) && Smooth(Build(t)) && Smooth(Miss(k, c) + Build(t))
  {
    SmoothConcat(Miss(k, c), Build(t));
  }

  lemma PiecesAreSmooth(k: Key, other: Key, third: Key)
    ensures Smooth(PreWarm(k)) && Smooth(TwoMisses(k, other)) && Smooth(SecondBuild()) && Smooth(StaleLanding(third))
  {
    hide Smooth, Miss, Build;
    ShortPiecesSmooth(k);
    MissBuildSmooth(k, 0, 0);
    SmoothConcat(Miss(k, 0) + Build(0), Return(0, 0));
    MissBuildSmooth(other, 1, 1);
    SmoothConcat(Miss(other, 1) + Build(1), TwoGets(k, 2));
    MissBuildSmooth(k, 0, 2);
    SmoothConcat(Build(2), Settle(2));
    SmoothConcat(Build(2) + Settle(2), Load(3, 3));
    MissBuildSmooth(third, 5, 4);
    SmoothConcat(HitAndApply(4), Miss(third, 5));
    SmoothConcat(HitAndApply(4) + Miss(third, 5), Build(4));
    OneMoreSmooth(HitAndApply(4) + Miss(third, 5) + Build(4), TurnBuilt(3));
    OneMoreSmooth(HitAndApply(4) + Miss(third, 5) + Build(4) + [TurnBuilt(3)], TurnCommit(3));
  }

  lemma OneMoreSmooth(run: seq<Step>, s: Step)
    requires Smooth(run) && !s.TurnFailed? && !s.Purge? && !s.Close?
    ensures Smooth(run + [s])
  {
  }

  lemma ShortPiecesSmooth(k: Key)
    ensures Smooth(Settle(2)) && Smooth(Load(3, 3)) && Smooth(HitAndApply(4))
    ensures Smooth(Return(0, 0)) && Smooth(TwoGets(k, 2))
  {
  }

  lemma BeforeRuns(mode: Mode, k: Key, other: Key) returns (w: World)
    requires k != other
    ensures Runs(Init(1, mode, k), PreWarm(k) + TwoMisses(k, other) + SecondBuild(), w)
    ensures Small(w.core) && w.core.ll == [Entry(k, 2)] && w.core.gen == 0 && w.sf == map[other := 1, k := 3]
    ensures |w.turns| == 4 && w.turns[3] == Turn(k, Loaded(0, 0, [])) && |w.bundles| == 3 && |w.modes| == 1
    ensures |w.calls| == 4 && w.calls[0].phase == Done(Ok(0), 0) && w.onExtras.Idle? && w.defaultKey == k
  {
    hide Runs, PreWarm, TwoMisses, SecondBuild, Init;
    var w1 := PreWarmRuns(mode, k);
    var w2 := TwoMissesRun(w1, k, other);
    RunsThen(Init(1, mode, k), PreWarm(k), w1, TwoMisses(k, other), w2);
    w := SecondBuildRuns(w2, k, other);
    RunsThen(Init(1, mode, k), PreWarm(k) + TwoMisses(k, other), w2, SecondBuild(), w);
  }

  /**
   The guarantee does fail: in a cache of one entry, with the pre-warm of the default
   repo complete, no build failing and nothing purged, onExtras finds the default
   repo cached and returns, and the cached default repo ends up without its chunks.
   */
  lemma SelfHealCanFail(mode: Mode, k: Key, other: Key, third: Key, chunks: Chunks) returns (w: World, w': World)
    requires k != other && k != third && other != third && chunks != []
    ensures Runs(Init(1, mode, k), PreWarm(k) + TwoMisses(k, other) + SecondBuild(), w)
    ensures |w.calls| == 4 && w.calls[0].phase == Done(Ok(0), 0)
    ensures Enabled(w, StoreExtras(chunks)) && Runs(Apply(w, StoreExtras(chunks)), StaleLanding(third), w')
    ensures w'.onExtras.Idle? && Resolved(w', |w.calls|) && w'.extras == chunks && !Healed(w')
    ensures Smooth(PreWarm(k)) && Smooth(TwoMisses(k, other)) && Smooth(SecondBuild()) && Smooth(StaleLanding(third))
  {
    hide Runs, PreWarm, TwoMisses, SecondBuild, StaleLanding, Init, Smooth;
    w := BeforeRuns(mode, k, other);
    w' := StaleLandingRuns(Apply(w, StoreExtras(chunks)), k, other, third, chunks);
    PiecesAreSmooth(k, other, third);
  }
}
