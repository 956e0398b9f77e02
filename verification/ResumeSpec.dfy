/**
 The results file of a resumable benchmark run (bench/contextbench/resume.go): what
 one run makes of it, task by task, and what any sequence of runs keeps.
 */
module ResumeSpec {
  import opened Collections

  /** One line of the file; `rest` is everything but its key. */
  datatype Record = Record(id: string, arm: string, budget: int, rest: string)

  type File = seq<Record>

  datatype Config = Config(arms: seq<string>, budgets: seq<int>)

  const DEFAULT_BUDGETS: seq<int> := [2048, 8192, 16384]

  /** An empty list of budgets stands for the default one. */
  function Effective(cfg: Config): (r: Config)
    ensures r.budgets != []
  {
    if cfg.budgets == [] then cfg.(budgets := DEFAULT_BUDGETS) else cfg
  }

  type Key = (string, string, int)

  function KeyOf(r: Record): Key { (r.id, r.arm, r.budget) }

  // ----- Complete tasks -----

  predicate HasId(file: File, id: string) { exists r :: r in file && r.id == id }

  predicate HasKey(file: File, id: string, arm: string, budget: int) {
    exists r :: r in file && KeyOf(r) == (id, arm, budget)
  }

  /** A record for every arm and budget. */
  ghost predicate Complete(file: File, id: string, cfg: Config) {
    forall a, b :: a in cfg.arms && b in cfg.budgets ==> HasKey(file, id, a, b)
  }

  ghost predicate Done(file: File, id: string, cfg: Config) {
    HasId(file, id) && Complete(file, id, cfg)
  }

  // ----- What one task appends -----

  function ForArm(arm: string, budgets: seq<int>): seq<(string, int)> {
    if budgets == [] then [] else [(arm, budgets[0])] + ForArm(arm, budgets[1..])
  }

  /** Arm by arm, budget by budget. */
  function Pairs(arms: seq<string>, budgets: seq<int>): seq<(string, int)> {
    if arms == [] then [] else ForArm(arms[0], budgets) + Pairs(arms[1..], budgets)
  }

  function Records(id: string, cfg: Config, rest: nat -> string): (r: File)
    ensures |r| == |Pairs(cfg.arms, cfg.budgets)|
    ensures forall i :: 0 <= i < |r| ==> r[i].id == id && (r[i].arm, r[i].budget) == Pairs(cfg.arms, cfg.budgets)[i]
  {
    var ps := Pairs(cfg.arms, cfg.budgets);
    seq(|ps|, i requires 0 <= i < |ps| => Record(id, ps[i].0, ps[i].1, rest(i)))
  }

  /** How running one task turns out; a stop is a cancelled context, a crash, or a failed write, before the append. */
  datatype Outcome =
    | Scored(rest: nat -> string)
    | Unsynced(rest: nat -> string)   // appended, but the sync after it failed: the run ends there
    | Failed
    | Stopped

  predicate Ends(o: Outcome) { o.Unsynced? || o.Stopped? }

  predicate Appends(o: Outcome) { o.Scored? || o.Unsynced? }

  // ----- One run -----

  datatype Run = Run(cfg: Config, tasks: seq<string>, outcomes: nat -> Outcome)

  ghost function Kept(file: File, all: File, cfg: Config): File {
    if file == [] then []
    else Kept(file[..|file| - 1], all, cfg) + if Done(all, file[|file| - 1].id, cfg) then [file[|file| - 1]] else []
  }

  datatype Progress = Progress(file: File, done: iset<string>, failed: seq<string>, stopped: bool)

  /** Before the first task: records of incomplete tasks are gone, requested or not. */
  ghost function Opened(file: File, cfg: Config): Progress {
    Progress(Kept(file, file, cfg), iset id | Done(file, id, cfg), [], false)
  }

  ghost function Advance(p: Progress, id: string, cfg: Config, o: Outcome): Progress {
    if p.stopped || id in p.done then p
    else match o
      case Scored(rest) => p.(file := p.file + Records(id, cfg, rest), done := p.done + iset{id})
      case Failed => p.(failed := p.failed + [id])
      case Unsynced(rest) =>
        p.(file := p.file + Records(id, cfg, rest), done := p.done + iset{id}, stopped := true)
      case Stopped => p.(stopped := true)
  }

  ghost function After(file: File, run: Run, n: nat): Progress
    requires n <= |run.tasks|
  {
    var cfg := Effective(run.cfg);
    if n == 0 then Opened(file, cfg)
    else Advance(After(file, run, n - 1), run.tasks[n - 1], cfg, run.outcomes(n - 1))
  }

  ghost function Finished(file: File, run: Run): Progress { After(file, run, |run.tasks|) }

  // ----- Any sequence of runs -----

  ghost function AfterRuns(file: File, runs: seq<Run>): File {
    if runs == [] then file else Finished(AfterRuns(file, runs[..|runs| - 1]), runs[|runs| - 1]).file
  }

  // ----- The records of one task -----

  function OfTask(file: File, id: string): File {
    if file == [] then []
    else OfTask(file[..|file| - 1], id) + if file[|file| - 1].id == id then [file[|file| - 1]] else []
  }

  lemma {:induction false} OfTaskConcat(a: File, b: File, id: string)
    ensures OfTask(a + b, id) == OfTask(a, id) + OfTask(b, id)
  {
    if b == [] {
      assert a + b == a;
    } else {
      hide OfTask;
      OfTaskConcat(a, b[..|b| - 1], id);
      OfTaskConcatOne(a, b[..|b| - 1], b[|b| - 1], id);
      assert b == b[..|b| - 1] + [b[|b| - 1]];
    }
  }

  lemma OfTaskConcatOne(a: File, init: File, last: Record, id: string)
    requires OfTask(a + init, id) == OfTask(a, id) + OfTask(init, id)
    ensures OfTask(a + (init + [last]), id) == OfTask(a, id) + OfTask(init + [last], id)
  {
    hide OfTask;
    OfTaskStep(init, last, id);
    OfTaskStep(a + init, last, id);
    ConcatAssociative(a, init, [last]);
    ConcatAssociative(OfTask(a, id), OfTask(init, id), if last.id == id then [last] else []);
  }

  lemma OfTaskStep(init: File, last: Record, id: string)
    ensures OfTask(init + [last], id) == OfTask(init, id) + if last.id == id then [last] else []
  {
    assert (init + [last])[..|init|] == init;
  }

  lemma {:induction false} OfTaskHolds(file: File, id: string)
    ensures forall r :: r in OfTask(file, id) <==> r in file && r.id == id
  {
    if file != [] {
      OfTaskHolds(file[..|file| - 1], id);
      assert file == file[..|file| - 1] + [file[|file| - 1]];
    }
  }

  // ----- The selection a run returns -----

  /**
   The records of the requested tasks, grouped in task order, each group in file
   order. A task listed twice counts at its last position.
   */
  function Selected(file: File, tasks: seq<string>): File {
    if tasks == [] then []
    else (if tasks[0] in tasks[1..] then [] else OfTask(file, tasks[0])) + Selected(file, tasks[1..])
  }

  /** The last position at which a task is listed. */
  function LastIndex(tasks: seq<string>, id: string): (n: nat)
    requires id in tasks
    ensures n < |tasks| && tasks[n] == id && forall j :: n < j < |tasks| ==> tasks[j] != id
  {
    if id in tasks[1..] then 1 + LastIndex(tasks[1..], id) else 0
  }
}
