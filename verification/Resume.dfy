/**
 The resumable runner itself (bench/contextbench/resume.go), working on the results
 file in place. Its run is the one of ResumeSpec; what it returns is the selection.
 */
module Resume {
  import opened ResumeSpec
  import opened ResumeTheorems

  /** The results file: loaded, rewritten through a temporary file, appended to. */
  class ResultsFile {
    var records: File

    constructor (initial: File)
      ensures records == initial
    {
      records := initial;
    }

    method Load() returns (r: File)
      ensures r == records
    {
      r := records;
    }

    method Rewrite(rs: File)
      modifies this
      ensures records == rs
    {
      records := rs;
    }

    /** One task's records, written and synced together. */
    method Append(rs: File)
      modifies this
      ensures records == old(records) + rs
    {
      records := records + rs;
    }
  }

  datatype Report = FileError | Interrupted | Reported(selection: File, failed: seq<string>)

  /** What can go wrong with the file itself, besides a failed append: that is a stop. */
  datatype Trouble = NoTrouble | LoadFails | RewriteFails | OpenFails | ReloadFails

  /** What is in the file when a run is over. A rewrite replaces the file or leaves it as it was. */
  ghost function Left(file: File, run: Run, trouble: Trouble): File {
    var kept := Kept(file, file, Effective(run.cfg));
    match trouble
    case LoadFails => file
    case RewriteFails => if |kept| != |file| then file else Finished(file, run).file
    case OpenFails => kept
    case _ => Finished(file, run).file
  }

  ghost function Told(file: File, run: Run, trouble: Trouble): Report {
    var kept, end := Kept(file, file, Effective(run.cfg)), Finished(file, run);
    if trouble.LoadFails? || trouble.OpenFails? || (trouble.RewriteFails? && |kept| != |file|) then FileError
    else if end.stopped then Interrupted
    else if trouble.ReloadFails? then FileError
    else Reported(Selected(end.file, run.tasks), end.failed)
  }

  /** A run that ends in trouble leaves the file as no run, a run of no tasks, or a whole run would. */
  lemma TroubleIsARun(file: File, run: Run, trouble: Trouble)
    ensures var none := run.(tasks := []);
      || Left(file, run, trouble) == file
      || Left(file, run, trouble) == Finished(file, none).file
      || Left(file, run, trouble) == Finished(file, run).file
  {
  }

  // ----- completeTasks -----

  method HasEvery(have: set<Key>, id: string, cfg: Config) returns (ok: bool)
    ensures ok <==> forall a, b :: a in cfg.arms && b in cfg.budgets ==> (id, a, b) in have
  {
    ok := true;
    for i := 0 to |cfg.arms|
      invariant ok <==> forall a, b :: a in cfg.arms[..i] && b in cfg.budgets ==> (id, a, b) in have
    {
      var arm := cfg.arms[i];
      ghost var before := ok;
      for j := 0 to |cfg.budgets|
        invariant ok <==> before && forall b :: b in cfg.budgets[..j] ==> (id, arm, b) in have
      {
        var b := cfg.budgets[j];
        assert cfg.budgets[..j + 1] == cfg.budgets[..j] + [b];
        if (id, arm, b) !in have {
          ok := false;
        }
      }
      assert cfg.budgets[..|cfg.budgets|] == cfg.budgets;
      assert cfg.arms[..i + 1] == cfg.arms[..i] + [arm];
    }
    assert cfg.arms[..|cfg.arms|] == cfg.arms;
  }

  method CompleteTasks(prev: File, cfg: Config) returns (done: map<string, bool>)
    ensures forall id :: id in done <==> HasId(prev, id)
    ensures forall id :: id in done ==> (done[id] <==> Complete(prev, id, cfg))
  {
    var have: set<Key>, ids: set<string> := {}, {};
    for i := 0 to |prev|
      invariant have == set r | r in prev[..i] :: KeyOf(r)
      invariant ids == set r | r in prev[..i] :: r.id
    {
      assert prev[..i + 1] == prev[..i] + [prev[i]];
      have := have + {KeyOf(prev[i])};
      ids := ids + {prev[i].id};
    }
    assert prev[..|prev|] == prev;
    assert forall id, a, b :: (id, a, b) in have <==> HasKey(prev, id, a, b);
    done := map[];
    var todo := ids;
    while todo != {}
      invariant todo <= ids
      invariant forall id :: id in done <==> id in ids && id !in todo
      invariant forall id :: id in done ==> (done[id] <==> Complete(prev, id, cfg))
      decreases |todo|
    {
      var id :| id in todo;
      todo := todo - {id};
      var ok := HasEvery(have, id, cfg);
      done := done[id := ok];
    }
  }

  // ----- RunResumable -----

  /** The Go map read with its zero value. */
  predicate IsDone(done: map<string, bool>, id: string) { id in done && done[id] }

  ghost predicate Mirrors(done: map<string, bool>, ids: iset<string>) {
    forall id :: IsDone(done, id) <==> id in ids
  }

  lemma MirrorsAdd(done: map<string, bool>, ids: iset<string>, id: string)
    requires Mirrors(done, ids)
    ensures Mirrors(done[id := true], ids + iset{id})
  {
  }

  method DropPartial(prev: File, done: map<string, bool>, ghost cfg: Config) returns (kept: File)
    requires forall id :: IsDone(done, id) <==> Done(prev, id, cfg)
    ensures kept == Kept(prev, prev, cfg) && |kept| <= |prev|
    ensures |kept| == |prev| ==> kept == prev
  {
    hide Done;
    kept := [];
    for i := 0 to |prev|
      invariant kept == Kept(prev[..i], prev, cfg) && |kept| <= i
      invariant |kept| == i ==> kept == prev[..i]
    {
      assert prev[..i + 1][..i] == prev[..i];
      if IsDone(done, prev[i].id) {
        kept := kept + [prev[i]];
      }
    }
    assert prev[..|prev|] == prev;
  }

  /**
   RunResumable, on whatever the outcomes of the tasks are and whatever goes wrong
   with the file. The file goes through exactly the states of `Finished`, and a run
   that is not interrupted reports the requested tasks' records in task order with the
   tasks that failed.
   */
  method RunResumable(out: ResultsFile, run: Run, trouble: Trouble) returns (report: Report)
    modifies out
    ensures out.records == Left(old(out.records), run, trouble)
    ensures report == Told(old(out.records), run, trouble)
  {
    hide Done, Records, Selected, Kept, Complete, HasId, After;
    ghost var start := out.records;
    var cfg := Effective(run.cfg);
    if trouble.LoadFails? {
      return FileError;
    }
    var prev := out.Load();
    var done := CompleteTasks(prev, cfg);
    assert forall id :: IsDone(done, id) <==> Done(prev, id, cfg) by { DoneMeans(prev, done, cfg); }
    var kept := DropPartial(prev, done, cfg);
    if |kept| != |prev| {
      if trouble.RewriteFails? {
        return FileError;
      }
      out.Rewrite(kept);
    }
    if trouble.OpenFails? {
      return FileError;
    }
    var failed: seq<string> := [];
    var i := 0;
    NothingYet(start, run);
    while i < |run.tasks|
      invariant 0 <= i <= |run.tasks|
      invariant var p := After(start, run, i);
        out.records == p.file && failed == p.failed && !p.stopped && Mirrors(done, p.done)
    {
      var task := run.tasks[i];
      AfterStep(start, run, i);
      if !IsDone(done, task) {
        match run.outcomes(i)
        case Stopped =>
          StoppedForGood(start, run, i + 1, |run.tasks|);
          return Interrupted;
        case Unsynced(rest) =>
          out.Append(Records(task, cfg, rest));
          StoppedForGood(start, run, i + 1, |run.tasks|);
          return Interrupted;
        case Failed =>
          failed := failed + [task];
        case Scored(rest) =>
          out.Append(Records(task, cfg, rest));
          MirrorsAdd(done, After(start, run, i).done, task);
          done := done[task := true];
      }
      i := i + 1;
    }
    if trouble.ReloadFails? {
      return FileError;
    }
    var all := out.Load();
    var sel := Select(all, run.tasks);
    return Reported(sel, failed);
  }

  lemma DoneMeans(prev: File, done: map<string, bool>, cfg: Config)
    requires forall id :: id in done <==> HasId(prev, id)
    requires forall id :: id in done ==> (done[id] <==> Complete(prev, id, cfg))
    ensures forall id :: IsDone(done, id) <==> Done(prev, id, cfg)
  {
    hide Complete, HasId;
  }

  lemma NothingYet(file: File, run: Run)
    ensures After(file, run, 0) == Opened(file, Effective(run.cfg))
  {
  }

  lemma AfterStep(file: File, run: Run, n: nat)
    requires n < |run.tasks|
    ensures After(file, run, n + 1)
         == Advance(After(file, run, n), run.tasks[n], Effective(run.cfg), run.outcomes(n))
  {
  }

  lemma {:induction false} StoppedForGood(file: File, run: Run, n: nat, m: nat)
    requires n <= m <= |run.tasks| && After(file, run, n).stopped
    ensures After(file, run, m) == After(file, run, n)
  {
    if n < m { StoppedForGood(file, run, n, m - 1); }
  }

  // ----- The selection -----

  method Positions(tasks: seq<string>) returns (pos: map<string, nat>)
    ensures forall id :: id in pos <==> id in tasks
    ensures forall id :: id in tasks ==> pos[id] == LastIndex(tasks, id)
  {
    pos := map[];
    for i := 0 to |tasks|
      invariant forall id :: id in pos <==> id in tasks[..i]
      invariant forall id :: id in pos ==>
          pos[id] < i && tasks[pos[id]] == id && forall j :: pos[id] < j < i ==> tasks[j] != id
    {
      assert tasks[..i + 1] == tasks[..i] + [tasks[i]];
      pos := pos[tasks[i] := i];
    }
    assert tasks[..|tasks|] == tasks;
  }

  /** The selection's first group: of a task listed again later, nothing yet. */
  function FirstGroup(file: File, tasks: seq<string>): File
    requires tasks != []
  {
    if tasks[0] in tasks[1..] then [] else OfTask(file, tasks[0])
  }

  /** How many of the selected records belong to tasks up to `id`'s position. */
  function Boundary(file: File, tasks: seq<string>, id: string): (n: nat)
    requires id in tasks
    ensures n <= |Selected(file, tasks)|
  {
    |FirstGroup(file, tasks)| + if id in tasks[1..] then Boundary(file, tasks[1..], id) else 0
  }

  lemma SplitAfter(head: File, rest: File, m: nat)
    requires m <= |rest|
    ensures (head + rest)[..|head| + m] == head + rest[..m] && (head + rest)[|head| + m..] == rest[m..]
  {
  }

  lemma FirstGroupGrows(file: File, tasks: seq<string>, r: Record)
    requires r.id in tasks
    ensures FirstGroup(file + [r], tasks) == FirstGroup(file, tasks) + if r.id in tasks[1..] then [] else [r]
  {
    hide OfTask;
    OfTaskConcat(file, [r], tasks[0]);
    OfTaskOne(r, tasks[0]);
  }

  /** A record more in the file is one more in the selection, at the boundary. */
  lemma {:induction false} SelectOneMore(file: File, tasks: seq<string>, r: Record)
    requires r.id in tasks
    ensures var s, n := Selected(file, tasks), Boundary(file, tasks, r.id);
      Selected(file + [r], tasks) == s[..n] + [r] + s[n..]
  {
    hide OfTask, FirstGroup, Selected;
    var head, rest := FirstGroup(file, tasks), Selected(file, tasks[1..]);
    SelectedSplits(file, tasks);
    SelectedSplits(file + [r], tasks);
    FirstGroupGrows(file, tasks, r);
    if r.id in tasks[1..] {
      var m := Boundary(file, tasks[1..], r.id);
      SelectOneMore(file, tasks[1..], r);
      SplitAfter(head, rest, m);
      assert head + (rest[..m] + [r] + rest[m..]) == (head + rest[..m]) + [r] + rest[m..];
    } else {
      SelectOther(file, tasks[1..], r);
      SplitAfter(head, rest, 0);
      assert rest[..0] == [] && head + [] == head;
    }
  }

  lemma SelectedSplits(file: File, tasks: seq<string>)
    requires tasks != []
    ensures Selected(file, tasks) == FirstGroup(file, tasks) + Selected(file, tasks[1..])
  {
  }

  /** A selected record belongs to the first task, listed once, or is selected for the others. */
  lemma SelectedAt(file: File, tasks: seq<string>, i: nat)
    requires tasks != [] && i < |Selected(file, tasks)|
    ensures var s, rest, n := Selected(file, tasks), Selected(file, tasks[1..]), |FirstGroup(file, tasks)|;
      if i < n then s[i].id == tasks[0] && tasks[0] !in tasks[1..]
      else i - n < |rest| && s[i] == rest[i - n] && s[i].id in tasks[1..]
  {
    hide OfTask, Selected;
    SelectedSplits(file, tasks);
    var rest, head := Selected(file, tasks[1..]), FirstGroup(file, tasks);
    OfTaskHolds(file, tasks[0]);
    SelectedHolds(file, tasks[1..]);
    if i < |head| {
      assert (head + rest)[i] == head[i] && head[i] in head;
    } else {
      assert (head + rest)[i] == rest[i - |head|] && rest[i - |head|] in rest;
    }
  }

  lemma LastIndexStep(tasks: seq<string>, id: string)
    requires id in tasks
    ensures LastIndex(tasks, id) == if id in tasks[1..] then 1 + LastIndex(tasks[1..], id) else 0
  {
  }

  /** The boundary is where the selection passes `id`'s position. */
  lemma {:induction false} BoundaryOrders(file: File, tasks: seq<string>, id: string, i: nat)
    requires id in tasks && i < |Selected(file, tasks)|
    ensures Selected(file, tasks)[i].id in tasks
    ensures LastIndex(tasks, Selected(file, tasks)[i].id) <= LastIndex(tasks, id) <==> i < Boundary(file, tasks, id)
  {
    hide FirstGroup, Selected, LastIndex;
    SelectedAt(file, tasks, i);
    var n, r := |FirstGroup(file, tasks)|, Selected(file, tasks)[i];
    LastIndexStep(tasks, id);
    LastIndexStep(tasks, r.id);
    if i >= n && id in tasks[1..] { BoundaryOrders(file, tasks[1..], id, i - n); }
  }

  lemma {:induction false} SelectOther(file: File, tasks: seq<string>, r: Record)
    requires r.id !in tasks
    ensures Selected(file + [r], tasks) == Selected(file, tasks)
  {
    if tasks != [] {
      SelectOther(file, tasks[1..], r);
      OfTaskConcat(file, [r], tasks[0]);
      OfTaskOne(r, tasks[0]);
    }
  }

  /** The stable sort by task position. */
  method SortByPosition(sel: File, pos: map<string, nat>, ghost tasks: seq<string>) returns (out: File)
    requires forall id :: id in tasks ==> id in pos && pos[id] == LastIndex(tasks, id)
    requires forall r :: r in sel ==> r.id in tasks
    ensures out == Selected(sel, tasks)
  {
    hide Selected, LastIndex;
    out := [];
    NothingSelected(tasks);
    for i := 0 to |sel|
      invariant out == Selected(sel[..i], tasks)
    {
      var r := sel[i];
      assert r in sel;
      SelectOneMore(sel[..i], tasks, r);
      ghost var n := Boundary(sel[..i], tasks, r.id);
      var p := |out|;
      forall k | 0 <= k < |out| ensures out[k].id in tasks { BoundaryOrders(sel[..i], tasks, r.id, k); }
      while p > 0 && pos[out[p - 1].id] > pos[r.id]
        invariant n <= p <= |out|
      {
        BoundaryOrders(sel[..i], tasks, r.id, p - 1);
        p := p - 1;
      }
      if p > 0 { BoundaryOrders(sel[..i], tasks, r.id, p - 1); }
      assert p == n;
      out := out[..p] + [r] + out[p..];
      assert sel[..i + 1] == sel[..i] + [r];
    }
    assert sel[..|sel|] == sel;
  }

  lemma {:induction false} NothingSelected(tasks: seq<string>)
    ensures Selected([], tasks) == []
  {
    if tasks != [] { NothingSelected(tasks[1..]); }
  }

  method Select(all: File, tasks: seq<string>) returns (out: File)
    ensures out == Selected(all, tasks)
  {
    hide Selected, LastIndex;
    var pos := Positions(tasks);
    var sel: File := [];
    NothingSelected(tasks);
    for i := 0 to |all|
      invariant forall r :: r in sel ==> r.id in tasks
      invariant Selected(sel, tasks) == Selected(all[..i], tasks)
      invariant forall id :: id in tasks ==> OfTask(sel, id) == OfTask(all[..i], id)
    {
      assert all[..i + 1] == all[..i] + [all[i]];
      forall id | id in tasks ensures OfTask(all[..i + 1], id) == OfTask(all[..i], id) + OfTask([all[i]], id) {
        OfTaskConcat(all[..i], [all[i]], id);
      }
      if all[i].id in pos {
        forall id | id in tasks ensures OfTask(sel + [all[i]], id) == OfTask(sel, id) + OfTask([all[i]], id) {
          OfTaskConcat(sel, [all[i]], id);
        }
        sel := sel + [all[i]];
      } else {
        forall id | id in tasks ensures OfTask([all[i]], id) == [] { OfTaskOne(all[i], id); }
      }
      SameGroups(sel, all[..i + 1], tasks);
    }
    assert all[..|all|] == all;
    out := SortByPosition(sel, pos, tasks);
  }

  lemma {:induction false} SameGroups(a: File, b: File, tasks: seq<string>)
    requires forall id :: id in tasks ==> OfTask(a, id) == OfTask(b, id)
    ensures Selected(a, tasks) == Selected(b, tasks)
  {
    if tasks != [] { SameGroups(a, b, tasks[1..]); }
  }
}
