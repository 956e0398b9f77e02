/** What resumable runs promise (bench/contextbench/resume.go). */
module ResumeTheorems {
  import opened Collections
  import opened ResumeSpec

  // ----- No two records for one (task, arm, budget) -----

  ghost predicate Unique(file: File) {
    forall i, j :: 0 <= i < j < |file| ==> KeyOf(file[i]) != KeyOf(file[j])
  }

  /** No arm and no budget given twice, or no arm at all. Nothing in the code checks it. */
  ghost predicate DistinctConfig(cfg: Config) {
    cfg.arms == [] || (NoRepeats(cfg.arms) && NoRepeats(Effective(cfg).budgets))
  }

  lemma {:induction false} ForArmIs(arm: string, budgets: seq<int>)
    ensures |ForArm(arm, budgets)| == |budgets|
    ensures forall i :: 0 <= i < |budgets| ==> ForArm(arm, budgets)[i] == (arm, budgets[i])
  {
    if budgets != [] { ForArmIs(arm, budgets[1..]); }
  }

  /** Records come arm by arm, in the order the arms are given. */
  lemma {:induction false} PairsArmByArm(a: seq<string>, b: seq<string>, budgets: seq<int>)
    ensures Pairs(a + b, budgets) == Pairs(a, budgets) + Pairs(b, budgets)
  {
    if a == [] {
      assert a + b == b;
    } else {
      assert (a + b)[1..] == a[1..] + b;
      PairsArmByArm(a[1..], b, budgets);
    }
  }

  /** And for each arm budget by budget. */
  lemma PairsBudgetByBudget(arm: string, budgets: seq<int>)
    ensures |Pairs([arm], budgets)| == |budgets|
    ensures forall i :: 0 <= i < |budgets| ==> Pairs([arm], budgets)[i] == (arm, budgets[i])
  {
    ForArmIs(arm, budgets);
    assert [arm][1..] == [] && Pairs([], budgets) == [];
  }

  /** A configuration without budgets runs with 2048, 8192 and 16384. */
  lemma DefaultBudgets(arms: seq<string>, budgets: seq<int>)
    ensures Effective(Config(arms, budgets)) == Config(arms, if budgets == [] then [2048, 8192, 16384] else budgets)
  {
  }

  lemma {:induction false} PairsHold(arms: seq<string>, budgets: seq<int>)
    ensures forall p :: p in Pairs(arms, budgets) <==> p.0 in arms && p.1 in budgets
  {
    if arms != [] {
      PairsHold(arms[1..], budgets);
      ForArmIs(arms[0], budgets);
      var first := ForArm(arms[0], budgets);
      forall p ensures p in first <==> p.0 == arms[0] && p.1 in budgets {
        if p.0 == arms[0] && p.1 in budgets {
          var i :| 0 <= i < |budgets| && budgets[i] == p.1;
          assert first[i] == p;
        }
      }
      assert forall a :: a in arms <==> a == arms[0] || a in arms[1..];
    }
  }

  lemma ConcatNoRepeats<T>(a: seq<T>, b: seq<T>)
    ensures NoRepeats(a + b) <==> NoRepeats(a) && NoRepeats(b) && forall x :: x in a ==> x !in b
  {
    var c := a + b;
    if NoRepeats(c) {
      forall i, j | 0 <= i < j < |a| ensures a[i] != a[j] { assert c[i] != c[j]; }
      forall i, j | 0 <= i < j < |b| ensures b[i] != b[j] { assert c[|a| + i] != c[|a| + j]; }
      forall x | x in a ensures x !in b {
        var i :| 0 <= i < |a| && a[i] == x;
        forall j | 0 <= j < |b| ensures b[j] != x { assert c[i] != c[|a| + j]; }
      }
    }
    if NoRepeats(a) && NoRepeats(b) && forall x :: x in a ==> x !in b {
      forall i, j | 0 <= i < j < |c| ensures c[i] != c[j] {
        if i < |a| { assert a[i] in a; }
        if i >= |a| { assert b[i - |a|] != b[j - |a|]; }
      }
    }
  }

  lemma ForArmNoRepeats(arm: string, budgets: seq<int>)
    ensures NoRepeats(ForArm(arm, budgets)) <==> NoRepeats(budgets)
  {
    ForArmIs(arm, budgets);
    var f := ForArm(arm, budgets);
    if NoRepeats(f) {
      forall i, j | 0 <= i < j < |budgets| ensures budgets[i] != budgets[j] { assert f[i] != f[j]; }
    }
  }

  /** An arm's pairs are apart from those of the arms after it exactly when it is not listed again. */
  lemma PairsApart(arms: seq<string>, budgets: seq<int>)
    requires arms != [] && budgets != []
    ensures (forall x :: x in ForArm(arms[0], budgets) ==> x !in Pairs(arms[1..], budgets)) <==> arms[0] !in arms[1..]
  {
    var first := ForArm(arms[0], budgets);
    ForArmIs(arms[0], budgets);
    PairsHold(arms[1..], budgets);
    hide ForArm, Pairs;
    forall x | x in first ensures x.0 == arms[0] && x.1 in budgets {
      var i :| 0 <= i < |first| && first[i] == x;
    }
    assert budgets[0] in budgets && first[0] in first;
  }

  /** The (arm, budget) pairs are distinct exactly when arms and budgets are. */
  lemma {:induction false} PairsNoRepeats(arms: seq<string>, budgets: seq<int>)
    requires budgets != []
    ensures NoRepeats(Pairs(arms, budgets)) <==> arms == [] || (NoRepeats(arms) && NoRepeats(budgets))
  {
    if arms != [] {
      var first, rest := ForArm(arms[0], budgets), Pairs(arms[1..], budgets);
      assert Pairs(arms, budgets) == first + rest;
      assert NoRepeats([arms[0]]);
      assert NoRepeats(Pairs([], budgets));
      hide Pairs, ForArm, NoRepeats;
      PairsNoRepeats(arms[1..], budgets);
      ForArmNoRepeats(arms[0], budgets);
      PairsApart(arms, budgets);
      ConcatNoRepeats(first, rest);
      assert arms == [arms[0]] + arms[1..];
      ConcatNoRepeats([arms[0]], arms[1..]);
    }
  }

  lemma UniqueConcat(a: File, b: File)
    requires Unique(a) && forall r, r' :: r in a && r' in b ==> KeyOf(r) != KeyOf(r')
    ensures Unique(a + b) <==> Unique(b)
  {
    var c := a + b;
    if Unique(c) {
      forall i, j | 0 <= i < j < |b| ensures KeyOf(b[i]) != KeyOf(b[j]) {
        assert c[|a| + i] == b[i] && c[|a| + j] == b[j];
      }
    }
    if Unique(b) {
      forall i, j | 0 <= i < j < |c| ensures KeyOf(c[i]) != KeyOf(c[j]) {
        if i < |a| <= j { assert c[i] in a && c[j] in b; }
        if i >= |a| { assert c[i] == b[i - |a|] && c[j] == b[j - |a|]; }
      }
    }
  }

  lemma RecordsUnique(id: string, cfg: Config, rest: nat -> string)
    requires cfg.budgets != []
    ensures Unique(Records(id, cfg, rest)) <==> cfg.arms == [] || (NoRepeats(cfg.arms) && NoRepeats(cfg.budgets))
  {
    var r, ps := Records(id, cfg, rest), Pairs(cfg.arms, cfg.budgets);
    PairsNoRepeats(cfg.arms, cfg.budgets);
    if Unique(r) {
      forall i, j | 0 <= i < j < |ps| ensures ps[i] != ps[j] { assert KeyOf(r[i]) != KeyOf(r[j]); }
    }
  }

  lemma {:induction false} KeptRecords(file: File, all: File, cfg: Config)
    ensures forall r :: r in Kept(file, all, cfg) <==> r in file && Done(all, r.id, cfg)
  {
    hide Done;
    if file != [] {
      var init, last := file[..|file| - 1], file[|file| - 1];
      KeptRecords(init, all, cfg);
      assert file == init + [last];
    }
  }

  lemma LastIsNew(init: File, last: Record)
    requires Unique(init + [last])
    ensures Unique(init) && forall r :: r in init ==> KeyOf(r) != KeyOf(last)
  {
    var file := init + [last];
    forall r | r in init ensures KeyOf(r) != KeyOf(last) {
      var i :| 0 <= i < |init| && init[i] == r;
      assert file[i] == r && file[|init|] == last;
    }
    forall i, j | 0 <= i < j < |init| ensures KeyOf(init[i]) != KeyOf(init[j]) {
      assert file[i] == init[i] && file[j] == init[j];
    }
  }

  lemma KeptStep(init: File, last: Record, all: File, cfg: Config)
    ensures Kept(init + [last], all, cfg) == Kept(init, all, cfg) + if Done(all, last.id, cfg) then [last] else []
  {
    hide Done;
    assert (init + [last])[..|init|] == init;
  }

  lemma OneIsUnique(r: Record)
    ensures Unique([r])
  {
  }

  lemma {:induction false} KeptUnique(file: File, all: File, cfg: Config)
    requires Unique(file)
    ensures Unique(Kept(file, all, cfg))
  {
    if file != [] {
      hide Done, Unique, Kept;
      var init, last := file[..|file| - 1], file[|file| - 1];
      assert file == init + [last];
      LastIsNew(init, last);
      KeptUnique(init, all, cfg);
      KeptRecords(init, all, cfg);
      KeptStep(init, last, all, cfg);
      OneIsUnique(last);
      UniqueConcat(Kept(init, all, cfg), [last]);
      assert Kept(init, all, cfg) + [] == Kept(init, all, cfg);
    }
  }

  lemma KeptHolds(file: File, all: File, cfg: Config)
    ensures forall r :: r in Kept(file, all, cfg) <==> r in file && Done(all, r.id, cfg)
    ensures Unique(file) ==> Unique(Kept(file, all, cfg))
  {
    hide Done, Unique, Kept;
    KeptRecords(file, all, cfg);
    if Unique(file) { KeptUnique(file, all, cfg); }
  }

  /** What holds between tasks: the file is made of done tasks, each of them complete. */
  ghost predicate Tidy(p: Progress, cfg: Config) {
    && (forall r :: r in p.file ==> r.id in p.done)
    && (forall id :: id in p.done ==> Complete(p.file, id, cfg))
  }

  lemma CompleteGrows(a: File, b: File, id: string, cfg: Config)
    requires Complete(a, id, cfg) && forall r :: r in a && r.id == id ==> r in b
    ensures Complete(b, id, cfg)
  {
    forall arm, budget | arm in cfg.arms && budget in cfg.budgets ensures HasKey(b, id, arm, budget) {
      var r :| r in a && KeyOf(r) == (id, arm, budget);
    }
  }

  lemma RecordsComplete(id: string, cfg: Config, rest: nat -> string)
    ensures Complete(Records(id, cfg, rest), id, cfg)
  {
    var r, ps := Records(id, cfg, rest), Pairs(cfg.arms, cfg.budgets);
    PairsHold(cfg.arms, cfg.budgets);
    forall a, b | a in cfg.arms && b in cfg.budgets ensures HasKey(r, id, a, b) {
      assert (a, b) in ps;
      var i :| 0 <= i < |ps| && ps[i] == (a, b);
      assert r[i] in r && KeyOf(r[i]) == (id, a, b);
    }
  }

  lemma OpenedTidy(file: File, cfg: Config)
    ensures Tidy(Opened(file, cfg), cfg)
  {
    hide Complete;
    KeptHolds(file, file, cfg);
    var p := Opened(file, cfg);
    forall id | id in p.done ensures Complete(p.file, id, cfg) {
      CompleteGrows(file, p.file, id, cfg);
    }
  }

  lemma AdvanceTidy(p: Progress, id: string, cfg: Config, o: Outcome)
    requires Tidy(p, cfg)
    ensures Tidy(Advance(p, id, cfg, o), cfg)
    ensures p.file <= Advance(p, id, cfg, o).file && p.done <= Advance(p, id, cfg, o).done
  {
    hide Complete;
    var q := Advance(p, id, cfg, o);
    if !p.stopped && id !in p.done && Appends(o) {
      var added := Records(id, cfg, o.rest);
      RecordsComplete(id, cfg, o.rest);
      forall t | t in q.done ensures Complete(q.file, t, cfg) {
        CompleteGrows(if t == id then added else p.file, q.file, t, cfg);
      }
    }
  }

  lemma {:induction false} AlwaysTidy(file: File, run: Run, n: nat)
    requires n <= |run.tasks|
    ensures Tidy(After(file, run, n), Effective(run.cfg))
  {
    hide Tidy;
    if n == 0 {
      OpenedTidy(file, Effective(run.cfg));
    } else {
      AlwaysTidy(file, run, n - 1);
      AdvanceTidy(After(file, run, n - 1), run.tasks[n - 1], Effective(run.cfg), run.outcomes(n - 1));
    }
  }

  /** Whether the run appended anything in its first `n` tasks. */
  ghost predicate Appended(file: File, run: Run, n: nat)
    requires n <= |run.tasks|
  {
    After(file, run, n).file != Kept(file, file, Effective(run.cfg))
  }

  lemma {:induction false} UniqueUpTo(file: File, run: Run, n: nat)
    requires n <= |run.tasks| && Unique(file)
    ensures Unique(After(file, run, n).file) <==> !Appended(file, run, n) || DistinctConfig(run.cfg)
    ensures Kept(file, file, Effective(run.cfg)) <= After(file, run, n).file
  {
    hide Unique, NoRepeats, Kept;
    var cfg := Effective(run.cfg);
    KeptHolds(file, file, cfg);
    if n > 0 {
      UniqueUpTo(file, run, n - 1);
      AlwaysTidy(file, run, n - 1);
      var p, id, o := After(file, run, n - 1), run.tasks[n - 1], run.outcomes(n - 1);
      if !p.stopped && id !in p.done && Appends(o) {
        var added := Records(id, cfg, o.rest);
        RecordsUnique(id, cfg, o.rest);
        UniqueStep(p.file, added, id);
      }
    }
  }

  lemma UniqueStep(a: File, b: File, id: string)
    requires (forall r :: r in a ==> r.id != id) && (forall r :: r in b ==> r.id == id)
    ensures Unique(a + b) <==> Unique(a) && Unique(b)
  {
    if Unique(a) {
      UniqueConcat(a, b);
    } else {
      var i, j :| 0 <= i < j < |a| && KeyOf(a[i]) == KeyOf(a[j]);
      assert (a + b)[i] == a[i] && (a + b)[j] == a[j];
    }
  }

  /** What a run on such a file may leave for its results to be still keyed: no repeats, or nothing to append. */
  ghost predicate KeepsUnique(file: File, cfg: Config, tasks: seq<string>) {
    forall o :: Unique(Finished(file, Run(cfg, tasks, o)).file)
  }

  /** No requested task is left to run. */
  ghost predicate AllDone(file: File, cfg: Config, tasks: seq<string>) {
    forall t :: t in tasks ==> Done(file, t, Effective(cfg))
  }

  lemma {:induction false} NothingToRun(file: File, run: Run, n: nat)
    requires n <= |run.tasks| && AllDone(file, run.cfg, run.tasks)
    ensures After(file, run, n) == Opened(file, Effective(run.cfg))
  {
    hide Done;
    if n > 0 { NothingToRun(file, run, n - 1); }
  }

  /** Before a task's first scored turn it is done only if it was from the start. */
  lemma {:induction false} DoneOnlyByScoring(file: File, run: Run, n: nat, t: string)
    requires n <= |run.tasks| && t !in run.tasks[..n] && !Done(file, t, Effective(run.cfg))
    ensures t !in After(file, run, n).done
  {
    hide Done;
    if n > 0 {
      assert run.tasks[..n] == run.tasks[..n - 1] + [run.tasks[n - 1]];
      DoneOnlyByScoring(file, run, n - 1, t);
    }
  }

  function ScoreAll(): nat -> Outcome { i => Scored(j => "") }

  lemma {:induction false} ScoringNeverStops(file: File, run: Run, n: nat)
    requires n <= |run.tasks| && forall i: nat :: !Ends(run.outcomes(i))
    ensures !After(file, run, n).stopped
  {
    if n > 0 { ScoringNeverStops(file, run, n - 1); }
  }

  lemma {:induction false} FilesGrow(file: File, run: Run, n: nat, m: nat)
    requires n <= m <= |run.tasks|
    ensures After(file, run, n).file <= After(file, run, m).file
    ensures forall t :: t in After(file, run, n).done ==> t in After(file, run, m).done
    ensures forall t :: t in After(file, run, n).failed ==> t in After(file, run, m).failed
  {
    hide Kept, Records;
    if n < m { FilesGrow(file, run, n, m - 1); }
  }

  lemma FirstListing(tasks: seq<string>, t: string) returns (i: nat)
    requires t in tasks
    ensures i < |tasks| && tasks[i] == t && t !in tasks[..i] && forall k :: 0 <= k < i ==> tasks[k] != t
  {
    i := 0;
    while tasks[i] != t
      invariant i < |tasks| && t !in tasks[..i] && t in tasks[i..] && forall k :: 0 <= k < i ==> tasks[k] != t
      decreases |tasks| - i
    {
      assert tasks[..i + 1] == tasks[..i] + [tasks[i]];
      assert tasks[i..] == [tasks[i]] + tasks[i + 1..];
      i := i + 1;
    }
  }

  /** Scoring a task that is not done appends its records, one for every pair. */
  lemma ScoringAppends(file: File, cfg: Config, tasks: seq<string>, t: string)
    requires t in tasks && !Done(file, t, Effective(cfg)) && cfg.arms != []
    ensures var run := Run(cfg, tasks, ScoreAll()); Appended(file, run, |tasks|)
  {
    hide Done, Kept;
    var run := Run(cfg, tasks, ScoreAll());
    var i := FirstListing(tasks, t);
    DoneOnlyByScoring(file, run, i, t);
    ScoringNeverStops(file, run, i);
    FilesGrow(file, run, 0, i);
    FilesGrow(file, run, i + 1, |tasks|);
    ForArmIs(cfg.arms[0], Effective(cfg).budgets);
    assert |Records(t, Effective(cfg), run.outcomes(i).rest)| > 0;
  }

  /**
   A run on a file without two records for one (task, arm, budget) is sure to leave
   such a file, however its tasks turn out, exactly when no arm and no budget is
   given twice or every requested task is complete already.
   */
  lemma UniqueAfterRun(file: File, cfg: Config, tasks: seq<string>)
    requires Unique(file)
    ensures KeepsUnique(file, cfg, tasks) <==> DistinctConfig(cfg) || AllDone(file, cfg, tasks)
  {
    hide Unique, DistinctConfig, Done, After;
    if DistinctConfig(cfg) || AllDone(file, cfg, tasks) {
      forall o ensures Unique(Finished(file, Run(cfg, tasks, o)).file) {
        var run := Run(cfg, tasks, o);
        UniqueUpTo(file, run, |tasks|);
        if AllDone(file, cfg, tasks) { NothingToRun(file, run, |tasks|); }
      }
    } else {
      var t :| t in tasks && !Done(file, t, Effective(cfg));
      var run := Run(cfg, tasks, ScoreAll());
      SomeArms(cfg);
      ScoringAppends(file, cfg, tasks, t);
      UniqueUpTo(file, run, |tasks|);
    }
  }

  lemma SomeArms(cfg: Config)
    requires !DistinctConfig(cfg)
    ensures cfg.arms != []
  {
  }

  /** With `-budgets 2048,2048` one scored task already breaks it. */
  lemma RepeatedBudget()
    ensures Unique([]) && !Unique(Finished([], Run(Config(["B"], [2048, 2048]), ["a"], i => Scored(j => ""))).file)
  {
    var run := Run(Config(["B"], [2048, 2048]), ["a"], i => Scored(j => ""));
    var p := After([], run, 0);
    assert p.file == [] && "a" !in p.done by { assert !HasId([], "a"); }
    var added := Records("a", run.cfg, j => "");
    ForArmIs("B", [2048, 2048]);
    assert |added| == 2 && KeyOf(added[0]) == KeyOf(added[1]);
    assert After([], run, 1).file == [] + Records("a", run.cfg, run.outcomes(0).rest);
    var f := Finished([], run).file;
    assert |f| == 2 && KeyOf(f[0]) == KeyOf(f[1]);
  }

  lemma UniqueAfter(file: File, run: Run)
    requires Unique(file) && DistinctConfig(run.cfg)
    ensures Unique(Finished(file, run).file)
  {
    hide Unique, DistinctConfig, After;
    UniqueUpTo(file, run, |run.tasks|);
  }

  /** Never two records for one key, however many runs fail, stop, or change their configuration. */
  lemma {:induction false} NeverTwoRecords(file: File, runs: seq<Run>)
    requires Unique(file) && forall run :: run in runs ==> DistinctConfig(run.cfg)
    ensures Unique(AfterRuns(file, runs))
  {
    hide Unique, DistinctConfig, Finished;
    if runs != [] {
      NeverTwoRecords(file, runs[..|runs| - 1]);
      UniqueAfter(AfterRuns(file, runs[..|runs| - 1]), runs[|runs| - 1]);
    }
  }

  // ----- Complete tasks only grow -----

  /** Every task a run leaves any record of is complete for the run's configuration. */
  lemma OnlyCompleteTasksRemain(file: File, run: Run, id: string)
    ensures HasId(Finished(file, run).file, id) ==> Complete(Finished(file, run).file, id, Effective(run.cfg))
  {
    AlwaysTidy(file, run, |run.tasks|);
  }

  lemma {:induction false} KeptOfTask(file: File, all: File, cfg: Config, id: string)
    requires Done(all, id, cfg)
    ensures OfTask(Kept(file, all, cfg), id) == OfTask(file, id)
  {
    hide Done;
    if file != [] {
      var init, last := file[..|file| - 1], file[|file| - 1];
      KeptOfTask(init, all, cfg, id);
      if Done(all, last.id, cfg) {
        OfTaskConcat(Kept(init, all, cfg), [last], id);
        OfTaskOne(last, id);
      } else {
        assert Kept(file, all, cfg) == Kept(init, all, cfg);
      }
    }
  }

  lemma OfTaskOne(r: Record, id: string)
    ensures OfTask([r], id) == if r.id == id then [r] else []
  {
    assert [r][..0] == [] && OfTask([], id) == [];
  }

  lemma {:induction false} OfTaskNone(file: File, id: string)
    requires forall r :: r in file ==> r.id != id
    ensures OfTask(file, id) == []
  {
    if file != [] { OfTaskNone(file[..|file| - 1], id); }
  }

  lemma OthersUntouched(file: File, id: string, other: string, cfg: Config, rest: nat -> string)
    requires id != other
    ensures OfTask(file + Records(other, cfg, rest), id) == OfTask(file, id)
  {
    OfTaskConcat(file, Records(other, cfg, rest), id);
    OfTaskNone(Records(other, cfg, rest), id);
  }

  /** A task complete before a run keeps exactly its records, and stays done. */
  lemma {:induction false} DoneStaysUpTo(file: File, run: Run, n: nat, id: string)
    requires n <= |run.tasks| && Done(file, id, Effective(run.cfg))
    ensures id in After(file, run, n).done
    ensures OfTask(After(file, run, n).file, id) == OfTask(file, id)
  {
    hide Done, Complete, OfTask;
    var cfg := Effective(run.cfg);
    if n == 0 {
      KeptOfTask(file, file, cfg, id);
    } else {
      DoneStaysUpTo(file, run, n - 1, id);
      var p, t, o := After(file, run, n - 1), run.tasks[n - 1], run.outcomes(n - 1);
      if !p.stopped && t !in p.done && Appends(o) {
        OthersUntouched(p.file, id, t, cfg, o.rest);
      }
    }
  }

  lemma DoneStays(file: File, run: Run, id: string)
    requires Done(file, id, Effective(run.cfg))
    ensures Done(Finished(file, run).file, id, Effective(run.cfg))
    ensures OfTask(Finished(file, run).file, id) == OfTask(file, id)
  {
    hide Complete, After;
    DoneStaysUpTo(file, run, |run.tasks|, id);
    AlwaysTidy(file, run, |run.tasks|);
    OfTaskHolds(file, id);
    var after := Finished(file, run).file;
    OfTaskHolds(after, id);
    var r :| r in file && r.id == id;
    assert r in OfTask(after, id);
  }

  /** Runs with one configuration only add complete tasks, and never touch the records of one. */
  lemma {:induction false} CompleteTasksOnlyGrow(file: File, runs: seq<Run>, cfg: Config, id: string)
    requires Done(file, id, Effective(cfg)) && forall run :: run in runs ==> run.cfg == cfg
    ensures Done(AfterRuns(file, runs), id, Effective(cfg))
    ensures OfTask(AfterRuns(file, runs), id) == OfTask(file, id)
  {
    hide Done, Finished, OfTask;
    if runs != [] {
      CompleteTasksOnlyGrow(file, runs[..|runs| - 1], cfg, id);
      DoneStays(AfterRuns(file, runs[..|runs| - 1]), runs[|runs| - 1], id);
    }
  }

  // ----- A run without failures leaves every requested task complete -----

  lemma {:induction false} SettledUpTo(file: File, run: Run, n: nat, i: nat)
    requires i < n <= |run.tasks| && !After(file, run, n).stopped
    ensures var p := After(file, run, n); run.tasks[i] in p.done || run.tasks[i] in p.failed
    ensures forall t :: t in After(file, run, n - 1).done ==> t in After(file, run, n).done
    ensures forall t :: t in After(file, run, n - 1).failed ==> t in After(file, run, n).failed
  {
    if i < n - 1 { SettledUpTo(file, run, n - 1, i); }
  }

  /** A run that reaches its end and reports no failure leaves every requested task complete. */
  lemma NoFailureCompletesAll(file: File, run: Run, i: nat)
    requires i < |run.tasks| && !Finished(file, run).stopped && Finished(file, run).failed == []
    ensures Complete(Finished(file, run).file, run.tasks[i], Effective(run.cfg))
  {
    hide Complete;
    SettledUpTo(file, run, |run.tasks|, i);
    AlwaysTidy(file, run, |run.tasks|);
  }

  /** What is incomplete after a run that reached its end has been reported as failed. */
  lemma IncompleteIsReported(file: File, run: Run, i: nat)
    requires i < |run.tasks| && !Finished(file, run).stopped
    requires !Complete(Finished(file, run).file, run.tasks[i], Effective(run.cfg))
    ensures run.tasks[i] in Finished(file, run).failed
  {
    hide Complete;
    SettledUpTo(file, run, |run.tasks|, i);
    AlwaysTidy(file, run, |run.tasks|);
  }

  /** However the tasks turn out, short of a stop, the ones reported as failed are exactly the incomplete ones. */
  ghost predicate ReportsExactly(file: File, cfg: Config, tasks: seq<string>) {
    forall o, t :: t in tasks && !Finished(file, Run(cfg, tasks, o)).stopped ==>
      (t in Finished(file, Run(cfg, tasks, o)).failed
       <==> !Complete(Finished(file, Run(cfg, tasks, o)).file, t, Effective(cfg)))
  }

  /** No task that is still to run is listed twice. */
  ghost predicate PendingOnce(file: File, cfg: Config, tasks: seq<string>) {
    forall i, j :: 0 <= i < j < |tasks| && tasks[i] == tasks[j] ==> Done(file, tasks[i], Effective(cfg))
  }

  lemma {:induction false} FailedIsPending(file: File, run: Run, n: nat, t: string)
    requires n <= |run.tasks| && t in After(file, run, n).failed
    ensures !Done(file, t, Effective(run.cfg)) && t in run.tasks[..n]
  {
    hide Done;
    if n > 0 {
      assert run.tasks[..n] == run.tasks[..n - 1] + [run.tasks[n - 1]];
      if t in After(file, run, n - 1).failed {
        FailedIsPending(file, run, n - 1, t);
      } else if Done(file, t, Effective(run.cfg)) {
        FilesGrow(file, run, 0, n - 1);
      }
    }
  }

  /** A task listed once that has failed stays missing. */
  lemma {:induction false} FailedIsMissing(file: File, run: Run, n: nat, t: string)
    requires n <= |run.tasks| && PendingOnce(file, run.cfg, run.tasks) && t in After(file, run, n).failed
    ensures t !in After(file, run, n).done
  {
    hide Done;
    FailedIsPending(file, run, n, t);
    if n > 0 {
      var last := run.tasks[n - 1];
      if t in After(file, run, n - 1).failed {
        FailedIsMissing(file, run, n - 1, t);
        FailedIsPending(file, run, n - 1, t);
        var i :| 0 <= i < n - 1 && run.tasks[i] == t;
        assert last != t;
      }
    }
  }

  lemma MissingIsIncomplete(p: Progress, t: string, cfg: Config)
    requires Tidy(p, cfg) && t !in p.done && cfg.arms != [] && cfg.budgets != []
    ensures !Complete(p.file, t, cfg)
  {
    assert cfg.arms[0] in cfg.arms && cfg.budgets[0] in cfg.budgets;
    assert !HasKey(p.file, t, cfg.arms[0], cfg.budgets[0]);
  }

  /** Fail at position `i`, score everywhere else. */
  function FailAt(i: nat): nat -> Outcome { k => if k == i then Failed else Scored(j => "") }

  lemma FailingReports(file: File, cfg: Config, tasks: seq<string>, i: nat)
    requires i < |tasks| && tasks[i] !in tasks[..i] && !Done(file, tasks[i], Effective(cfg))
    ensures var run := Run(cfg, tasks, FailAt(i));
      !Finished(file, run).stopped && tasks[i] in Finished(file, run).failed
  {
    hide Done;
    var run := Run(cfg, tasks, FailAt(i));
    DoneOnlyByScoring(file, run, i, tasks[i]);
    ScoringNeverStops(file, run, i);
    ScoringNeverStops(file, run, |tasks|);
    FilesGrow(file, run, i + 1, |tasks|);
  }

  /** A pending task listed again is scored the second time, and complete, and reported as failed. */
  lemma RepeatedTaskMisreports(file: File, cfg: Config, tasks: seq<string>, i: nat, j: nat)
    requires i < j < |tasks| && tasks[i] == tasks[j] && !Done(file, tasks[i], Effective(cfg))
    ensures !ReportsExactly(file, cfg, tasks)
  {
    hide Done, Complete;
    var t := tasks[i];
    var f := FirstListing(tasks, t);
    var run := Run(cfg, tasks, FailAt(f));
    FailingReports(file, cfg, tasks, f);
    ScoringNeverStops(file, run, j);
    assert t in After(file, run, j + 1).done;
    FilesGrow(file, run, j + 1, |tasks|);
    AlwaysTidy(file, run, |tasks|);
    assert t in Finished(file, run).failed && Complete(Finished(file, run).file, t, Effective(cfg));
  }

  /** Without arms every task is complete, and failing one is still reported. */
  lemma NoArmsMisreports(file: File, cfg: Config, tasks: seq<string>, t: string)
    requires t in tasks && !Done(file, t, Effective(cfg)) && cfg.arms == []
    ensures !ReportsExactly(file, cfg, tasks)
  {
    var f := FirstListing(tasks, t);
    FailingReports(file, cfg, tasks, f);
    var run := Run(cfg, tasks, FailAt(f));
    assert Complete(Finished(file, run).file, t, Effective(cfg));
  }

  /**
   A re-run retries exactly the incomplete tasks, however the run turns out, exactly
   when no task still to run is listed twice, and there is an arm or nothing to run.
   */
  lemma FailedExactlyIncomplete(file: File, cfg: Config, tasks: seq<string>)
    ensures ReportsExactly(file, cfg, tasks)
            <==> PendingOnce(file, cfg, tasks) && (cfg.arms != [] || AllDone(file, cfg, tasks))
  {
    hide Done, Complete, Finished;
    if PendingOnce(file, cfg, tasks) && (cfg.arms != [] || AllDone(file, cfg, tasks)) {
      forall o, t | t in tasks && !Finished(file, Run(cfg, tasks, o)).stopped
        ensures t in Finished(file, Run(cfg, tasks, o)).failed
                <==> !Complete(Finished(file, Run(cfg, tasks, o)).file, t, Effective(cfg))
      {
        ReportedIffIncomplete(file, Run(cfg, tasks, o), t);
      }
    } else if !PendingOnce(file, cfg, tasks) {
      var i, j :| 0 <= i < j < |tasks| && tasks[i] == tasks[j] && !Done(file, tasks[i], Effective(cfg));
      RepeatedTaskMisreports(file, cfg, tasks, i, j);
    } else {
      var t :| t in tasks && !Done(file, t, Effective(cfg));
      NoArmsMisreports(file, cfg, tasks, t);
    }
  }

  lemma ReportedIffIncomplete(file: File, run: Run, t: string)
    requires PendingOnce(file, run.cfg, run.tasks) && (run.cfg.arms != [] || AllDone(file, run.cfg, run.tasks))
    requires t in run.tasks && !Finished(file, run).stopped
    ensures t in Finished(file, run).failed <==> !Complete(Finished(file, run).file, t, Effective(run.cfg))
  {
    hide Done, Complete, PendingOnce;
    var p := Finished(file, run);
    var i :| 0 <= i < |run.tasks| && run.tasks[i] == t;
    AlwaysTidy(file, run, |run.tasks|);
    if t in p.failed {
      FailedIsPending(file, run, |run.tasks|, t);
      FailedIsMissing(file, run, |run.tasks|, t);
      MissingIsIncomplete(p, t, Effective(run.cfg));
    } else if !Complete(p.file, t, Effective(run.cfg)) {
      IncompleteIsReported(file, run, i);
    }
  }

  /** A task listed twice that fails and is then scored: complete, and reported as failed. */
  lemma TwiceListedTask()
    ensures var run := Run(Config(["B"], [2048]), ["a", "a"], FailAt(0));
      && !Finished([], run).stopped && "a" in Finished([], run).failed
      && Complete(Finished([], run).file, "a", run.cfg)
  {
    hide Complete, Records;
    var run := Run(Config(["B"], [2048]), ["a", "a"], FailAt(0));
    assert !HasId([], "a");
    assert After([], run, 0).done == iset id | Done([], id, run.cfg);
    assert After([], run, 1).failed == ["a"] && "a" !in After([], run, 1).done;
    AlwaysTidy([], run, 2);
    assert "a" in After([], run, 2).done;
  }

  // ----- The selection -----

  lemma {:induction false} SelectedHolds(file: File, tasks: seq<string>)
    ensures forall r :: r in Selected(file, tasks) <==> r in file && r.id in tasks
  {
    if tasks != [] {
      SelectedHolds(file, tasks[1..]);
      OfTaskHolds(file, tasks[0]);
      assert forall t :: t in tasks <==> t == tasks[0] || t in tasks[1..];
    }
  }

  /** Records in the order of the last listings of their tasks. */
  ghost predicate InTaskOrder(file: File, tasks: seq<string>) {
    && (forall i :: 0 <= i < |file| ==> file[i].id in tasks)
    && (forall i, j :: 0 <= i < j < |file| ==> LastIndex(tasks, file[i].id) <= LastIndex(tasks, file[j].id))
  }

  lemma InTaskOrderStep(head: File, rest: File, tasks: seq<string>)
    requires tasks != [] && InTaskOrder(rest, tasks[1..])
    requires forall i :: 0 <= i < |head| ==> head[i].id == tasks[0] && tasks[0] !in tasks[1..]
    ensures InTaskOrder(head + rest, tasks)
  {
    var s := head + rest;
    forall i | 0 <= i < |s|
      ensures s[i].id in tasks
      ensures LastIndex(tasks, s[i].id)
           == if i < |head| then 0 else LastIndex(tasks[1..], rest[i - |head|].id) + 1
    {
      assert i >= |head| ==> s[i] == rest[i - |head|] && s[i].id in tasks[1..];
    }
    forall i, j | 0 <= i < j < |s| ensures LastIndex(tasks, s[i].id) <= LastIndex(tasks, s[j].id) {
      assert i >= |head| ==> s[i] == rest[i - |head|] && s[j] == rest[j - |head|];
    }
  }

  /** The selection follows task order. */
  lemma {:induction false} SelectedInTaskOrder(file: File, tasks: seq<string>)
    ensures InTaskOrder(Selected(file, tasks), tasks)
  {
    hide InTaskOrder, OfTask;
    if tasks == [] {
      NothingInOrder(tasks);
    } else {
      SelectedInTaskOrder(file, tasks[1..]);
      OfTaskHolds(file, tasks[0]);
      var head := if tasks[0] in tasks[1..] then [] else OfTask(file, tasks[0]);
      forall i | 0 <= i < |head| ensures head[i].id == tasks[0] { assert head[i] in head; }
      InTaskOrderStep(head, Selected(file, tasks[1..]), tasks);
    }
  }

  lemma NothingInOrder(tasks: seq<string>)
    ensures InTaskOrder([], tasks)
  {
  }

  lemma {:induction false} OfTaskTwice(file: File, id: string, id': string)
    ensures OfTask(OfTask(file, id), id') == if id == id' then OfTask(file, id) else []
  {
    if file != [] {
      var init, last := file[..|file| - 1], file[|file| - 1];
      OfTaskTwice(init, id, id');
      if last.id == id {
        OfTaskConcat(OfTask(init, id), [last], id');
        OfTaskOne(last, id');
      } else {
        assert OfTask(file, id) == OfTask(init, id);
      }
    }
  }

  /** Each requested task's records are all there, in file order, once. */
  lemma {:induction false} SelectedKeepsEachTask(file: File, tasks: seq<string>, id: string)
    ensures OfTask(Selected(file, tasks), id) == if id in tasks then OfTask(file, id) else []
  {
    if tasks != [] {
      SelectedKeepsEachTask(file, tasks[1..], id);
      var head := if tasks[0] in tasks[1..] then [] else OfTask(file, tasks[0]);
      OfTaskConcat(head, Selected(file, tasks[1..]), id);
      OfTaskTwice(file, tasks[0], id);
      assert id in tasks <==> id == tasks[0] || id in tasks[1..];
    }
  }
}
