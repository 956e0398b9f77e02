/**
 engine.Workspace's flush hook, Refresh and Close, one caller at a time. How they
 interleave is the subject of `SnapshotProtocol`.
 */
module EngineWorkspace {
  import opened Collections

  /** What Refresh did: gave up, rejected a path, had nothing to do, or reconciled these paths. */
  datatype Refreshed =
    | Cancelled | OutsideRoot(path: string) | NoPaths
    | Reconciled(present: seq<string>, gone: seq<string>)

  class Workspace {
    const snapshotEnabled: bool
    var refreshing: nat
    var snapshotDirty: bool
    /** The number of corpora published, so the number of the current one. */
    var corpus: nat
    /** The number of the corpus in the snapshot file. */
    var disk: nat
    /** Whether the index, and with it the watcher, is open. */
    var open: bool

    constructor (snapshotEnabled: bool)
      ensures this.snapshotEnabled == snapshotEnabled
      ensures refreshing == 0 && !snapshotDirty && corpus == disk == 1 && open
    {
      this.snapshotEnabled := snapshotEnabled;
      refreshing, snapshotDirty, corpus, disk, open := 0, false, 1, 1, true;
    }

    ghost predicate CurrentOrDirty()
      reads this
    {
      snapshotEnabled ==> disk == corpus || snapshotDirty
    }

    /** The OnFlush hook Open installs. */
    method OnFlush()
      modifies this`snapshotDirty, this`disk
      ensures CurrentOrDirty()
      ensures refreshing > 0 || !snapshotEnabled ==> disk == old(disk)
      ensures snapshotEnabled ==> snapshotDirty == (refreshing > 0)
      ensures !snapshotEnabled ==> snapshotDirty == old(snapshotDirty)
    {
      if snapshotEnabled {
        if refreshing > 0 {
          snapshotDirty := true;
        } else {
          snapshotDirty := false;
          disk := corpus;
        }
      }
    }

    /** A flush: publish and run the hook, unless the batch changed nothing. */
    method Flush(changed: bool)
      requires CurrentOrDirty()
      modifies this`corpus, this`snapshotDirty, this`disk
      ensures CurrentOrDirty()
      ensures corpus == old(corpus) + if changed then 1 else 0
      ensures refreshing > 0 ==> disk == old(disk)
    {
      if changed {
        corpus := corpus + 1;
        OnFlush();
      }
    }

    /**
     Refresh: give up on a cancelled context; clean and dedupe the paths in the order
     given, split them by what is on the disk now, and flush once. `clean` is cleanRel,
     `onDisk` what Lstat finds, `changes` whether the flush changes the corpus.
     */
    method Refresh(cancelled: bool, changed: seq<string>, deleted: seq<string>, clean: string -> Option<string>,
                   onDisk: set<string>, changes: bool) returns (r: Refreshed)
      requires CurrentOrDirty()
      modifies this
      ensures CurrentOrDirty() && refreshing == old(refreshing) && disk == old(disk) && open == old(open)
      ensures r == Outcome(cancelled, changed + deleted, clean, onDisk)
      ensures corpus == old(corpus) + if r.Reconciled? && changes then 1 else 0
      ensures !r.Reconciled? ==> snapshotDirty == old(snapshotDirty)
    {
      hide FirstBad, Cleaned;
      if cancelled {
        return Cancelled;
      }
      var all := changed + deleted;
      var paths: seq<string> := [];
      CleanNone(clean);
      for i := 0 to |all|
        invariant FirstBad(all[..i], clean).None?
        invariant paths == Cleaned(all[..i], clean)
        modifies {}
      {
        var rel := clean(all[i]);
        CleanStep(all, i, clean);
        if rel.None? {
          BadStays(all, i + 1, clean);
          return OutsideRoot(all[i]);
        }
        if rel.value !in paths {
          paths := paths + [rel.value];
        }
      }
      assert all[..|all|] == all;
      SomeCleaned(all, clean);
      if paths == [] {
        return NoPaths;
      }
      var present, gone := SplitByDisk(paths, onDisk);
      refreshing := refreshing + 1;
      Flush(changes);
      refreshing := refreshing - 1;
      return Reconciled(present, gone);
    }

    /** Close, once the structural build in flight is over: closes the index, then writes a dirty snapshot. */
    method Close()
      requires CurrentOrDirty()
      modifies this`snapshotDirty, this`disk, this`open
      ensures !open
      ensures snapshotEnabled ==> disk == corpus && !snapshotDirty
      ensures !snapshotEnabled ==> disk == old(disk) && snapshotDirty == old(snapshotDirty)
    {
      open := false;
      if snapshotEnabled && snapshotDirty {
        snapshotDirty := false;
        disk := corpus;
      }
    }
  }

  // ----- What Refresh does to its paths -----

  /** The first path that is absolute or escapes the root. */
  function FirstBad(paths: seq<string>, clean: string -> Option<string>): Option<string> {
    if paths == [] then None
    else if FirstBad(paths[..|paths| - 1], clean).Some? then FirstBad(paths[..|paths| - 1], clean)
    else if clean(paths[|paths| - 1]).None? then Some(paths[|paths| - 1]) else None
  }

  /** The cleaned paths, each at its first occurrence. */
  function Cleaned(paths: seq<string>, clean: string -> Option<string>): seq<string> {
    if paths == [] then []
    else
      var init, rel := Cleaned(paths[..|paths| - 1], clean), clean(paths[|paths| - 1]);
      if rel.Some? && rel.value !in init then init + [rel.value] else init
  }

  function Where(paths: seq<string>, onDisk: set<string>, there: bool): seq<string> {
    if paths == [] then []
    else
      var last := paths[|paths| - 1];
      Where(paths[..|paths| - 1], onDisk, there) + if (last in onDisk) == there then [last] else []
  }

  function Outcome(cancelled: bool, paths: seq<string>, clean: string -> Option<string>, onDisk: set<string>)
    : Refreshed
  {
    if cancelled then Cancelled
    else if FirstBad(paths, clean).Some? then OutsideRoot(FirstBad(paths, clean).value)
    else if paths == [] then NoPaths
    else Reconciled(Where(Cleaned(paths, clean), onDisk, true), Where(Cleaned(paths, clean), onDisk, false))
  }

  lemma CleanNone(clean: string -> Option<string>)
    ensures FirstBad([], clean).None? && Cleaned([], clean) == []
  {
  }

  lemma CleanStep(paths: seq<string>, i: nat, clean: string -> Option<string>)
    requires i < |paths| && FirstBad(paths[..i], clean).None?
    ensures FirstBad(paths[..i + 1], clean) == if clean(paths[i]).None? then Some(paths[i]) else None
    ensures var before, rel := Cleaned(paths[..i], clean), clean(paths[i]);
      Cleaned(paths[..i + 1], clean) == if rel.Some? && rel.value !in before then before + [rel.value] else before
  {
    assert paths[..i + 1][..i] == paths[..i];
  }

  lemma {:induction false} BadStays(paths: seq<string>, n: nat, clean: string -> Option<string>)
    requires n <= |paths| && FirstBad(paths[..n], clean).Some?
    ensures FirstBad(paths, clean) == FirstBad(paths[..n], clean)
    decreases |paths|
  {
    if n == |paths| {
      assert paths[..n] == paths;
    } else {
      assert paths[..|paths| - 1][..n] == paths[..n];
      BadStays(paths[..|paths| - 1], n, clean);
    }
  }

  /** The path reported is the first that is not clean. */
  lemma {:induction false} BadIsFirst(paths: seq<string>, clean: string -> Option<string>) returns (i: nat)
    requires FirstBad(paths, clean).Some?
    ensures i < |paths| && FirstBad(paths, clean) == Some(paths[i]) && clean(paths[i]).None?
    ensures forall j :: 0 <= j < i ==> clean(paths[j]).Some?
  {
    var n := |paths| - 1;
    if FirstBad(paths[..n], clean).Some? {
      i := BadIsFirst(paths[..n], clean);
    } else {
      i := n;
      AllClean(paths[..n], clean);
    }
  }

  lemma {:induction false} AllClean(paths: seq<string>, clean: string -> Option<string>)
    requires FirstBad(paths, clean).None?
    ensures forall j :: 0 <= j < |paths| ==> clean(paths[j]).Some?
  {
    if paths != [] { AllClean(paths[..|paths| - 1], clean); }
  }

  /** Paths keep the order of their first mention: more of them only adds at the end. */
  lemma {:induction false} CleanedGrows(a: seq<string>, b: seq<string>, clean: string -> Option<string>)
    ensures Cleaned(a, clean) <= Cleaned(a + b, clean)
  {
    if b == [] {
      assert a + b == a;
    } else {
      assert (a + b)[..|a + b| - 1] == a + b[..|b| - 1];
      CleanedGrows(a, b[..|b| - 1], clean);
    }
  }

  /** Both sides of the split keep the order they are given in. */
  lemma {:induction false} WhereAdds(a: seq<string>, b: seq<string>, onDisk: set<string>, there: bool)
    ensures Where(a + b, onDisk, there) == Where(a, onDisk, there) + Where(b, onDisk, there)
  {
    if b == [] {
      assert a + b == a;
    } else {
      assert (a + b)[..|a + b| - 1] == a + b[..|b| - 1];
      WhereAdds(a, b[..|b| - 1], onDisk, there);
    }
  }

  lemma {:induction false} CleanedHolds(paths: seq<string>, clean: string -> Option<string>)
    ensures NoRepeats(Cleaned(paths, clean))
    ensures forall q :: q in Cleaned(paths, clean) <==> exists p :: p in paths && clean(p) == Some(q)
  {
    if paths != [] {
      var init, last := paths[..|paths| - 1], paths[|paths| - 1];
      CleanedHolds(init, clean);
      assert paths == init + [last];
      assert forall p :: p in paths <==> p in init || p == last;
    }
  }

  lemma {:induction false} WhereHolds(paths: seq<string>, onDisk: set<string>, there: bool)
    requires NoRepeats(paths)
    ensures NoRepeats(Where(paths, onDisk, there))
    ensures forall q :: q in Where(paths, onDisk, there) <==> q in paths && (q in onDisk) == there
  {
    if paths != [] {
      var init, last := paths[..|paths| - 1], paths[|paths| - 1];
      WhereHolds(init, onDisk, there);
      assert paths == init + [last];
      assert forall p :: p in paths <==> p in init || p == last;
      assert last !in init;
    }
  }

  /**
   Whichever list a path is given in, the disk decides: what Refresh reconciles as
   present and as gone is each cleaned path once, on the side where the disk has it.
   */
  lemma DiskDecides(paths: seq<string>, clean: string -> Option<string>, onDisk: set<string>)
    requires Outcome(false, paths, clean, onDisk).Reconciled?
    ensures var r := Outcome(false, paths, clean, onDisk);
      && NoRepeats(r.present) && NoRepeats(r.gone) && (forall q :: q in r.present ==> q !in r.gone)
      && (forall q :: q in r.present <==> q in onDisk && exists p :: p in paths && clean(p) == Some(q))
      && (forall q :: q in r.gone <==> q !in onDisk && exists p :: p in paths && clean(p) == Some(q))
  {
    CleanedHolds(paths, clean);
    WhereHolds(Cleaned(paths, clean), onDisk, true);
    WhereHolds(Cleaned(paths, clean), onDisk, false);
  }

  /** Refresh rejects its paths exactly when one of them is absolute or escapes the root. */
  lemma {:induction false} BadIff(paths: seq<string>, clean: string -> Option<string>)
    ensures FirstBad(paths, clean).Some? <==> exists p :: p in paths && clean(p).None?
    ensures FirstBad(paths, clean).Some? ==>
              FirstBad(paths, clean).value in paths && clean(FirstBad(paths, clean).value).None?
  {
    if paths != [] {
      var init, last := paths[..|paths| - 1], paths[|paths| - 1];
      BadIff(init, clean);
      assert paths == init + [last];
      assert forall p :: p in paths <==> p in init || p == last;
    }
  }

  lemma {:induction false} SomeCleaned(paths: seq<string>, clean: string -> Option<string>)
    requires FirstBad(paths, clean).None?
    ensures Cleaned(paths, clean) == [] <==> paths == []
  {
    if paths != [] { SomeCleaned(paths[..|paths| - 1], clean); }
  }

  /** The loop over the cleaned paths. */
  method SplitByDisk(paths: seq<string>, onDisk: set<string>) returns (present: seq<string>, gone: seq<string>)
    ensures present == Where(paths, onDisk, true) && gone == Where(paths, onDisk, false)
  {
    present, gone := [], [];
    for i := 0 to |paths|
      invariant present == Where(paths[..i], onDisk, true) && gone == Where(paths[..i], onDisk, false)
    {
      assert paths[..i + 1][..i] == paths[..i];
      if paths[i] in onDisk {
        present := present + [paths[i]];
      } else {
        gone := gone + [paths[i]];
      }
    }
    assert paths[..|paths|] == paths;
  }
}
