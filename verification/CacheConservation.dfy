/**
 Ownership of bundles is linear: in every reachable world a built bundle is in
 exactly one place, and once the cache is closed and quiet each has been torn
 down exactly once.
 */
module CacheConservation {
  import opened CacheSpec
  import opened CacheProtocol

  /** What a turn in phase `p` accounts for: the bundle it holds, or the entries it has yet to reap. */
  function Weight(p: Phase, held: bool, b: Bundle): nat {
    if held then (if p.Holding? && p.bundle == b then 1 else 0)
    else if p.Unwinding? then Count(p.pending, b) else 0
  }

  function InTurns(ts: seq<Turn>, held: bool, b: Bundle): nat {
    if ts == [] then 0 else Weight(ts[0].phase, held, b) + InTurns(ts[1..], held, b)
  }

  function InReapers(rs: seq<seq<Entry>>, b: Bundle): nat {
    if rs == [] then 0 else Count(rs[0], b) + InReapers(rs[1..], b)
  }

  // The four places a bundle can be.
  function Held(w: World, b: Bundle): nat { InTurns(w.turns, true, b) }

  function Cached(w: World, b: Bundle): nat { Count(w.core.ll, b) }

  function Detached(w: World, b: Bundle): nat { InTurns(w.turns, false, b) + InReapers(w.reapers, b) }

  function Reaped(w: World, b: Bundle): nat { Count(w.reaped, b) }

  /** Bundle `b` is in exactly one place if it has been built, and in none otherwise. */
  ghost predicate Conserved(w: World, b: Bundle) {
    Held(w, b) + Cached(w, b) + Detached(w, b) + Reaped(w, b) == if b < |w.bundles| then 1 else 0
  }

  lemma {:induction false} InTurnsUpdate(ts: seq<Turn>, i: nat, t: Turn, held: bool, b: Bundle)
    requires i < |ts|
    ensures InTurns(ts[i := t], held, b) + Weight(ts[i].phase, held, b)
         == InTurns(ts, held, b) + Weight(t.phase, held, b)
  {
    if i == 0 {
      assert ts[i := t][1..] == ts[1..];
    } else {
      InTurnsUpdate(ts[1..], i - 1, t, held, b);
      assert ts[i := t][1..] == ts[1..][i - 1 := t];
    }
  }

  lemma {:induction false} InTurnsAppend(ts: seq<Turn>, t: Turn, held: bool, b: Bundle)
    ensures InTurns(ts + [t], held, b) == InTurns(ts, held, b) + Weight(t.phase, held, b)
  {
    if ts != [] {
      InTurnsAppend(ts[1..], t, held, b);
      assert (ts + [t])[1..] == ts[1..] + [t];
    }
  }

  lemma {:induction false} InReapersUpdate(rs: seq<seq<Entry>>, i: nat, r: seq<Entry>, b: Bundle)
    requires i < |rs|
    ensures InReapers(rs[i := r], b) + Count(rs[i], b) == InReapers(rs, b) + Count(r, b)
  {
    if i == 0 {
      assert rs[i := r][1..] == rs[1..];
    } else {
      InReapersUpdate(rs[1..], i - 1, r, b);
      assert rs[i := r][1..] == rs[1..][i - 1 := r];
    }
  }

  lemma {:induction false} InReapersAppend(rs: seq<seq<Entry>>, r: seq<Entry>, b: Bundle)
    ensures InReapers(rs + [r], b) == InReapers(rs, b) + Count(r, b)
  {
    if rs != [] {
      InReapersAppend(rs[1..], r, b);
      assert (rs + [r])[1..] == rs[1..] + [r];
    }
  }

  lemma TurnMoves(w: World, t: nat, p: Phase, b: Bundle)
    requires t < |w.turns|
    ensures Held(WithTurn(w, t, p), b) + Weight(w.turns[t].phase, true, b) == Held(w, b) + Weight(p, true, b)
    ensures Detached(WithTurn(w, t, p), b) + Weight(w.turns[t].phase, false, b) == Detached(w, b) + Weight(p, false, b)
  {
    var turn := w.turns[t].(phase := p);
    InTurnsUpdate(w.turns, t, turn, true, b);
    InTurnsUpdate(w.turns, t, turn, false, b);
  }

  /** A commit: what it caches and what its turn must reap are the list and the bundle it held. */
  lemma CommitStepConserves(w: World, t: nat, b: Bundle)
    requires Valid(w.core) && Conserved(w, b) && Enabled(w, TurnCommit(t))
    ensures Conserved(DoTurnCommit(w, t), b)
  {
    hide InTurns, InReapers, Count, AfterCommit, ToReap;
    var turn := w.turns[t];
    var p := DoTurnCommit(w, t).turns[t].phase;
    TurnMoves(w, t, p, b);
    CommitConserves(w.core, turn.key, turn.phase.bundle, turn.phase.startGen, b);
  }

  lemma ReapStepConserves(w: World, t: nat, b: Bundle)
    requires Conserved(w, b) && Enabled(w, TurnReap(t))
    ensures Conserved(DoTurnReap(w, t), b)
  {
    hide InTurns, InReapers;
    var pending := w.turns[t].phase.pending;
    TurnMoves(w, t, DoTurnReap(w, t).turns[t].phase, b);
    CountConcat(w.reaped, [pending[0]], b);
  }

  /** Any other step of a turn: only a build adds to what the turn accounts for. */
  lemma TurnStepConserves(w: World, s: Step, b: Bundle)
    requires Conserved(w, b) && Enabled(w, s) && IsTurnStep(s) && !s.TurnCommit? && !s.TurnReap?
    ensures Conserved(Apply(w, s), b)
  {
    hide Apply, Enabled, InTurns, InReapers, Count;
    var w', t := Apply(w, s), s.turn;
    TurnStepFrame(w, s);
    TurnStepRest(w, s);
    TurnMoves(w, t, w'.turns[t].phase, b);
    WeightMoves(w, s, b);
  }

  lemma WeightMoves(w: World, s: Step, b: Bundle)
    requires Enabled(w, s) && IsTurnStep(s) && !s.TurnCommit? && !s.TurnReap?
    ensures var w', t := Apply(w, s), s.turn;
      && t < |w'.turns| && w'.turns == w.turns[t := w.turns[t].(phase := w'.turns[t].phase)] && w'.reaped == w.reaped
      && Weight(w'.turns[t].phase, false, b) == Weight(w.turns[t].phase, false, b)
      && Weight(w'.turns[t].phase, true, b) + (if b < |w.bundles| then 1 else 0)
         == Weight(w.turns[t].phase, true, b) + (if b < |w'.bundles| then 1 else 0)
  {
    var empty: seq<Entry> := [];
    assert Count(empty, b) == 0;
  }

  lemma LookupConserves(w: World, c: nat, b: Bundle)
    requires Valid(w.core) && Conserved(w, b) && Enabled(w, CallLookup(c))
    ensures Conserved(DoCallLookup(w, c), b)
  {
    hide InTurns, InReapers, Count;
    LookupKeeps(w.core, w.calls[c].key, b);
  }

  lemma DoConserves(w: World, c: nat, b: Bundle)
    requires Conserved(w, b) && Enabled(w, CallDo(c))
    ensures Conserved(DoCallDo(w, c), b)
  {
    InTurnsAppend(w.turns, Turn(w.calls[c].key, Starting), true, b);
    InTurnsAppend(w.turns, Turn(w.calls[c].key, Starting), false, b);
  }

  lemma StepConserves(w: World, s: Step, b: Bundle)
    requires Valid(w.core) && Conserved(w, b) && Enabled(w, s)
    ensures Conserved(Apply(w, s), b)
  {
    hide InTurns, InReapers, Count;
    if s.TurnCommit? {
      CommitStepConserves(w, s.turn, b);
    } else if s.TurnReap? {
      ReapStepConserves(w, s.turn, b);
    } else if IsTurnStep(s) {
      TurnStepConserves(w, s, b);
    } else if s.CallLookup? {
      LookupConserves(w, s.call, b);
    } else if s.CallDo? {
      DoConserves(w, s.call, b);
    } else if s.Purge? || s.Close? {
      DetachConserves(w, s, b);
    } else if s.Reap? {
      ReapConserves(w, s.reaper, b);
    }
  }

  lemma DetachConserves(w: World, s: Step, b: Bundle)
    requires Conserved(w, b) && (s.Purge? || s.Close?)
    ensures Conserved(Apply(w, s), b)
  {
    hide InTurns, InReapers;
    InReapersAppend(w.reapers, w.core.ll, b);
  }

  lemma ReapConserves(w: World, r: nat, b: Bundle)
    requires Conserved(w, b) && Enabled(w, Reap(r))
    ensures Conserved(DoReap(w, r), b)
  {
    hide InTurns, InReapers;
    InReapersUpdate(w.reapers, r, w.reapers[r][1..], b);
    CountConcat(w.reaped, [w.reapers[r][0]], b);
  }

  lemma {:induction false} RunConserves(w: World, run: seq<Step>, b: Bundle)
    requires Valid(w.core) && Conserved(w, b) && Legal(w, run)
    ensures Valid(After(w, run).core) && Conserved(After(w, run), b)
    decreases |run|
  {
    if run != [] {
      StepValid(w, run[0]);
      StepConserves(w, run[0], b);
      RunConserves(Apply(w, run[0]), run[1..], b);
    }
  }

  /**
   In every reachable world every bundle the builder has returned is held by the
   turn that built it, or cached, or detached and waiting to be reaped, or reaped:
   in one of these places and counted there once.
   */
  lemma BundlesConserved(max: nat, mode: Mode, k: Key, run: seq<Step>, b: Bundle)
    requires Legal(Init(max, mode, k), run)
    ensures Conserved(After(Init(max, mode, k), run), b)
  {
    RunConserves(Init(max, mode, k), run, b);
  }

  lemma {:induction false} ClosedStays(w: World, run: seq<Step>)
    requires Valid(w.core) && w.core.closed && Legal(w, run)
    ensures After(w, run).core.closed && After(w, run).core.ll == []
    decreases |run|
  {
    if run != [] {
      StepValid(w, run[0]);
      ClosedStays(Apply(w, run[0]), run[1..]);
    }
  }

  /** No turn is running and no detached entry waits. */
  ghost predicate Quiet(w: World) {
    && (forall t :: 0 <= t < |w.turns| ==> w.turns[t].phase.Finished?)
    && (forall r :: 0 <= r < |w.reapers| ==> w.reapers[r] == [])
  }

  lemma {:induction false} QuietTurns(ts: seq<Turn>, held: bool, b: Bundle)
    requires forall t :: 0 <= t < |ts| ==> ts[t].phase.Finished?
    ensures InTurns(ts, held, b) == 0
  {
    if ts != [] { QuietTurns(ts[1..], held, b); }
  }

  lemma {:induction false} QuietReapers(rs: seq<seq<Entry>>, b: Bundle)
    requires forall r :: 0 <= r < |rs| ==> rs[r] == []
    ensures InReapers(rs, b) == 0
  {
    if rs != [] { QuietReapers(rs[1..], b); }
  }

  /**
   After a Close anywhere in the run, once every turn has finished and every
   detached entry has been dealt with, the cache is empty and every bundle ever
   built has been reaped exactly once.
   */
  lemma ClosedAndQuietReapsAll(max: nat, mode: Mode, k: Key, before: seq<Step>, after: seq<Step>, b: Bundle)
    requires Legal(Init(max, mode, k), before + [Close] + after)
    requires Quiet(After(Init(max, mode, k), before + [Close] + after))
    ensures var w := After(Init(max, mode, k), before + [Close] + after);
      w.core.ll == [] && Reaped(w, b) == if b < |w.bundles| then 1 else 0
  {
    var w0 := Init(max, mode, k);
    RunSplit(w0, before + [Close], after);
    RunSplit(w0, before, [Close]);
    RunConserves(w0, before + [Close], b);
    var w1 := After(w0, before + [Close]);
    LastStep(After(w0, before), Close);
    ClosedStays(w1, after);
    RunConserves(w1, after, b);
    var w := After(w1, after);
    QuietTurns(w.turns, true, b);
    QuietTurns(w.turns, false, b);
    QuietReapers(w.reapers, b);
  }
}
