/**
 structuralState as the object it is: each method is one critical section, proved
 against `StructuralSpec`. The disk is the argument of the methods that read it.
 */
module StructuralMachine {
  import opened Collections
  import opened StructuralSpec

  function ReadAll(disk: Files, paths: set<Path>): Reads {
    map p | p in paths :: Find(disk, p)
  }

  function ToSet(paths: seq<Path>): set<Path> {
    set p | p in paths
  }

  class StructuralState {
    const cooldown: nat
    var cur: Option<Files>
    var gen: nat
    var building: bool
    var build: nat
    var failedAt: Option<nat>
    var queued: set<Path>
    var pendingReset: bool

    ghost function View(): Core
      reads this
    {
      Core(cur, gen, building, build, failedAt, queued, pendingReset)
    }

    constructor (cooldown: nat)
      ensures this.cooldown == cooldown
      ensures View() == Core(None, 0, false, 0, None, {}, false)
    {
      this.cooldown := cooldown;
      cur, gen, building, build, failedAt, queued, pendingReset := None, 0, false, 0, None, {}, false;
    }

    /** Index.Update: re-reads the listed paths one by one and keeps the rest. */
    static method Update(idx: Files, paths: seq<Path>, disk: Files) returns (nidx: Files, changed: bool)
      ensures nidx == Overlay(idx, ReadAll(disk, ToSet(paths)))
      ensures !changed ==> nidx == idx
    {
      nidx, changed := idx, false;
      for i := 0 to |paths|
        invariant forall p :: Find(nidx, p) == if p in paths[..i] then Find(disk, p) else Find(idx, p)
        invariant !changed ==> nidx == idx
      {
        var p := paths[i];
        if p in disk {
          nidx := nidx[p := disk[p]];
          changed := true;
        } else if p in nidx {
          nidx := nidx - {p};
          changed := true;
        }
      }
      assert paths[..|paths|] == paths;
      SameFiles(nidx, Overlay(idx, ReadAll(disk, ToSet(paths))));
    }

    /** The locked part of `get`: hand out the index, or start a build unless one failed recently. */
    method Get(now: nat, nextBuild: nat) returns (idx: Option<Files>, started: bool)
      modifies this`building, this`build
      ensures idx == cur
      ensures started == MayStart(old(View()), now, cooldown)
      ensures View() == if started then AfterStart(old(View()), nextBuild) else old(View())
    {
      idx, started := cur, false;
      if cur.Some? {
        return;
      }
      if !building {
        if failedAt.Some? && now < failedAt.value + cooldown {
          return;
        }
        building, build, started := true, nextBuild, true;
      }
    }

    /** The locked part of `run`, once the builder has returned. */
    method Run(now: nat, outcome: Outcome, disk: Files)
      modifies this
      ensures View() == AfterRun(old(View()), now, outcome, ReadAll(disk, old(queued)))
    {
      match outcome {
        case Failed => failedAt := Some(now);
        case Built(built) =>
          if !pendingReset {
            var idx := built;
            if queued != {} {
              var paths := [];
              var rest := queued;
              while rest != {}
                invariant rest <= queued && ToSet(paths) == queued - rest
                decreases rest
              {
                var p :| p in rest;
                assert ToSet(paths + [p]) == ToSet(paths) + {p};
                paths := paths + [p];
                rest := rest - {p};
              }
              assert ToSet(paths) == queued;
              var changed;
              idx, changed := Update(idx, paths, disk);
            }
            cur := Some(idx);
            gen := gen + 1;
          }
      }
      queued, pendingReset, building := {}, false, false;
    }

    method Apply(paths: seq<Path>, resync: bool, disk: Files) returns (changed: bool)
      modifies this
      ensures View() == AfterApply(old(View()), ToSet(paths), resync, ReadAll(disk, ToSet(paths)), changed)
      ensures Updates(old(View()), resync) && !changed ==>
                old(cur).value == Overlay(old(cur).value, ReadAll(disk, ToSet(paths)))
    {
      changed := false;
      if building {
        if resync {
          pendingReset := true;
          return;
        }
        for i := 0 to |paths|
          invariant View() == old(View()).(queued := old(queued) + ToSet(paths[..i]))
        {
          queued := queued + {paths[i]};
        }
        assert paths[..|paths|] == paths;
        return;
      }
      if cur.None? {
        return;
      }
      if resync {
        cur := None;
        return;
      }
      var nidx;
      nidx, changed := Update(cur.value, paths, disk);
      if changed {
        cur := Some(nidx);
        gen := gen + 1;
      }
    }

    method Pending(now: nat) returns (b: bool)
      ensures b == PendingNow(View(), now, cooldown)
    {
      if cur.Some? {
        return false;
      }
      if building {
        return true;
      }
      return failedAt.None? || now >= failedAt.value + cooldown;
    }
  }
}
