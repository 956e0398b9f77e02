/**
 Which turns a Get can join after a Purge. Purge forgets the turns of the keys that
 are marked in flight, and the mark is removed by key: an older turn that ends can
 take away a newer turn's mark.
 */
module CachePurge {
  import opened CacheSpec
  import opened CacheProtocol

  /** Turn `t` had begun before the Purge: what it builds is of the generation before. */
  ghost predicate Begun(w: World, t: nat) {
    t < |w.turns| && !w.turns[t].phase.Starting?
  }

  /** No Get started after `w` waits for a turn that had begun by then. */
  ghost predicate JoinsNone(w: World, w': World) {
    forall c :: |w.calls| <= c < |w'.calls| && w'.calls[c].phase.Waiting? ==> !Begun(w, w'.calls[c].phase.turn)
  }

  /** Nor can one: no such turn is mapped. */
  ghost predicate MapsNone(w: World, w': World) {
    && |w.turns| <= |w'.turns|
    && |w.calls| <= |w'.calls|
    && forall k :: k in w'.sf ==> !Begun(w, w'.sf[k])
  }

  lemma StepMapsNone(w: World, w': World, s: Step)
    requires MapsNone(w, w') && JoinsNone(w, w') && Enabled(w', s)
    ensures MapsNone(w, Apply(w', s)) && JoinsNone(w, Apply(w', s))
  {
    if IsTurnStep(s) {
      TurnMapsNone(w, w', s);
    } else if IsCallStep(s) {
      CallMapsNone(w, w', s);
    }
  }

  lemma TurnMapsNone(w: World, w': World, s: Step)
    requires MapsNone(w, w') && JoinsNone(w, w') && Enabled(w', s) && IsTurnStep(s)
    ensures MapsNone(w, Apply(w', s)) && JoinsNone(w, Apply(w', s))
  {
    hide Apply, Enabled;
    TurnStepFrame(w', s);
  }

  lemma CallMapsNone(w: World, w': World, s: Step)
    requires MapsNone(w, w') && JoinsNone(w, w') && Enabled(w', s) && IsCallStep(s)
    ensures MapsNone(w, Apply(w', s)) && JoinsNone(w, Apply(w', s))
  {
  }

  lemma {:induction false} RunMapsNone(w: World, w': World, run: seq<Step>)
    requires MapsNone(w, w') && JoinsNone(w, w') && Legal(w', run)
    ensures JoinsNone(w, After(w', run))
    decreases |run|
  {
    hide Apply, Enabled, MapsNone, JoinsNone;
    if run != [] {
      StepMapsNone(w, w', run[0]);
      RunMapsNone(w, Apply(w', run[0]), run[1..]);
    }
  }

  /** Every mapped turn that has begun still has its mark. */
  ghost predicate MarksStand(w: World) {
    forall k :: k in w.sf && Begun(w, w.sf[k]) ==> k in w.core.inflight
  }

  /** A Get of a key whose turn Purge did not forget joins that turn. */
  lemma UnmarkedTurnIsJoined(w: World, k: Key) returns (run: seq<Step>)
    requires !w.core.closed && k in w.sf && k !in w.core.inflight
    ensures Legal(DoPurge(w), run)
    ensures var w' := After(DoPurge(w), run);
      |w'.calls| == |w.calls| + 1 && w'.calls[|w.calls|].phase == Waiting(w.sf[k])
  {
    hide Legal, After;
    var w0, c := DoPurge(w), |w.calls|;
    var w1 := Apply(w0, CallStart(k));
    var w2 := Apply(w1, CallLookup(c));
    RunsNothing(w0);
    RunsStep(w0, [], w0, CallStart(k));
    run := [] + [CallStart(k)];
    RunsStep(w0, run, w1, CallLookup(c));
    run := run + [CallLookup(c)];
    RunsStep(w0, run, w2, CallDo(c));
    run := run + [CallDo(c)];
  }

  /**
   No Get started after Purge's section ever joins a turn that had begun before it,
   in any continuation, exactly when every such turn still has its mark as the
   section runs.
   */
  lemma PurgeForgetsIffMarksStand(w: World)
    requires WellFormed(w) && !w.core.closed
    ensures (forall run :: Legal(DoPurge(w), run) ==> JoinsNone(w, After(DoPurge(w), run))) <==> MarksStand(w)
  {
    hide Legal, After;
    if MarksStand(w) {
      assert MapsNone(w, DoPurge(w)) && JoinsNone(w, DoPurge(w));
      forall run | Legal(DoPurge(w), run) ensures JoinsNone(w, After(DoPurge(w), run)) {
        RunMapsNone(w, DoPurge(w), run);
      }
    } else {
      var k :| k in w.sf && Begun(w, w.sf[k]) && k !in w.core.inflight;
      var run := UnmarkedTurnIsJoined(w, k);
      var w' := After(DoPurge(w), run);
      assert w'.calls[|w.calls|].phase.Waiting?;
      assert !JoinsNone(w, w');
    }
  }

  // ----- A mark can be gone -----

  /** One Get of an unused key, up to its turn's mark. */
  function Marking(k: Key, c: nat, t: nat): seq<Step> {
    [] + [CallStart(k)] + [CallLookup(c)] + [CallDo(c)] + [TurnMark(t)]
  }

  lemma MarkingRuns(w: World, k: Key) returns (w': World)
    requires !w.core.closed && k !in w.core.items && k !in w.sf
    ensures Runs(w, Marking(k, |w.calls|, |w.turns|), w')
    ensures w'.core == w.core.(inflight := w.core.inflight + {k}) && w'.sf == w.sf[k := |w.turns|]
    ensures w'.turns == w.turns + [Turn(k, Marked(w.core.gen))] && |w'.calls| == |w.calls| + 1
  {
    hide Runs;
    var c, t := |w.calls|, |w.turns|;
    RunsNothing(w);
    RunsStep(w, [], w, CallStart(k));
    var w1 := Apply(w, CallStart(k));
    RunsStep(w, [] + [CallStart(k)], w1, CallLookup(c));
    var w2 := Apply(w1, CallLookup(c));
    RunsStep(w, [] + [CallStart(k)] + [CallLookup(c)], w2, CallDo(c));
    var w3 := Apply(w2, CallDo(c));
    RunsStep(w, [] + [CallStart(k)] + [CallLookup(c)] + [CallDo(c)], w3, TurnMark(t));
    w' := Apply(w3, TurnMark(t));
  }

  /** The first turn outlives a Purge; a second one begins; the first fails and removes the mark of both. */
  function ErasingRun(k: Key): seq<Step> {
    Marking(k, 0, 0) + [Purge] + Marking(k, 1, 1) + [TurnFailed(0)] + [TurnUnmark(0)]
  }

  /** A reachable world in which a turn under way has lost its mark, so that a Purge leaves it to be joined. */
  lemma MarksCanFall(max: nat, mode: Mode, k: Key) returns (w: World)
    ensures Runs(Init(max, mode, k), ErasingRun(k), w)
    ensures !w.core.closed && !MarksStand(w)
  {
    hide Runs, Marking;
    var w0 := Init(max, mode, k);
    var w1 := MarkingRuns(w0, k);
    RunsStep(w0, Marking(k, 0, 0), w1, Purge);
    var w2 := DoPurge(w1);
    var w3 := MarkingRuns(w2, k);
    RunsThen(w0, Marking(k, 0, 0) + [Purge], w2, Marking(k, 1, 1), w3);
    var run := Marking(k, 0, 0) + [Purge] + Marking(k, 1, 1);
    RunsStep(w0, run, w3, TurnFailed(0));
    var w4 := Apply(w3, TurnFailed(0));
    RunsStep(w0, run + [TurnFailed(0)], w4, TurnUnmark(0));
    w := Apply(w4, TurnUnmark(0));
    assert k in w.sf && Begun(w, w.sf[k]) && k !in w.core.inflight;
  }
}
