/**
 The structural build of a RepoBundle (mcp/bundle.go): the machine of
 engine/structural.go with nothing queued and no reset owed. Each critical section
 is proved to be that machine's; StructuralProtocol proves that runs of the machine
 without `apply` stay within the states a RepoBundle has (`Plain`).
 */
module BundleBuild {
  import opened Collections
  import opened StructuralSpec

  /** A builder that finds no supported files succeeds without an index. */
  datatype BuildResult = Error | Success(idx: Option<Files>)

  class RepoBundle {
    const cooldown: nat
    const hasBuilder: bool
    var built: bool
    var idx: Option<Files>
    var building: bool
    /** The channel of the latest build. */
    var done: nat
    var failedAt: Option<nat>

    /** The machine's state; an index that is not there answers like an empty one. */
    ghost function View(): Core
      reads this
    {
      Core(if built then Some(Contents(idx)) else None, if built then 1 else 0, building, done, failedAt, {}, false)
    }

    ghost predicate Valid()
      reads this
    {
      Settled(View()) && (!built ==> idx.None?) && (!hasBuilder ==> !built && !building)
    }

    constructor (cooldown: nat, hasBuilder: bool)
      ensures Valid() && this.cooldown == cooldown && this.hasBuilder == hasBuilder
      ensures View() == Core(None, 0, false, 0, None, {}, false)
    {
      this.cooldown, this.hasBuilder := cooldown, hasBuilder;
      built, idx, building, done, failedAt := false, None, false, 0, None;
    }

    /** StructuralIndex up to its wait: the cached index, or a build started unless one failed recently. */
    method StructuralIndex(now: nat, nextDone: nat) returns (r: Option<Files>, started: bool)
      requires Valid()
      modifies this`building, this`done
      ensures Valid()
      ensures r == idx
      ensures started == (hasBuilder && MayStart(old(View()), now, cooldown))
      ensures View() == if started then AfterStart(old(View()), nextDone) else old(View())
    {
      r, started := None, false;
      if !hasBuilder {
        return;
      }
      if built {
        return idx, false;
      }
      if !building {
        if failedAt.Some? && now < failedAt.value + cooldown {
          return;
        }
        building, done, started := true, nextDone, true;
      }
    }

    /** runStructuralBuild once its builder has returned. A success is for good: no later build can start. */
    method RunStructuralBuild(now: nat, result: BuildResult)
      requires Valid() && building
      modifies this`built, this`idx, this`building, this`failedAt
      ensures Valid() && !building
      ensures View() == AfterRun(old(View()), now, AsOutcome(result), map[])
      ensures built == result.Success?
    {
      match result {
        case Error => failedAt := Some(now);
        case Success(x) =>
          idx := x;
          built := true;
      }
      building := false;
    }

    /** The locked part of stopStructuralBuild: the channel to wait for, if a build is in flight. */
    method StopStructuralBuild() returns (waitsFor: Option<nat>)
      requires Valid()
      ensures waitsFor == if View().building then Some(View().build) else None
    {
      waitsFor := if building then Some(done) else None;
    }

    method StructuralPending(now: nat) returns (b: bool)
      requires Valid()
      ensures b == (hasBuilder && PendingNow(View(), now, cooldown))
    {
      if !hasBuilder || built {
        return false;
      }
      if building {
        return true;
      }
      return failedAt.None? || now >= failedAt.value + cooldown;
    }

    method StructuralIfBuilt() returns (r: Option<Files>)
      requires Valid()
      ensures View().cur.None? ==> r.None?
      ensures View().cur.Some? ==> Contents(r) == View().cur.value
    {
      r := None;
      if built {
        r := idx;
      }
    }
  }

  function Contents(idx: Option<Files>): Files {
    if idx.Some? then idx.value else map[]
  }

  function AsOutcome(result: BuildResult): Outcome {
    match result
    case Error => Failed
    case Success(idx) => Built(Contents(idx))
  }
}
