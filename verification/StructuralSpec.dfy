/**
 The lazy structural index of engine/structural.go: what each critical section of
 structuralState does to the fields its mutex guards, as functions on values.
 */
module StructuralSpec {
  import opened Collections

  type Path = string

  /** What extracting one file yields. */
  type Symbols = string

  /**
   The files an index holds, and also the disk as the indexer sees it: a path is
   absent when there is no such file, or none the walk admits and can extract.
   */
  type Files = map<Path, Symbols>

  /** What reading each path found; None where nothing was to be indexed. */
  type Reads = map<Path, Option<Symbols>>

  function Find(files: Files, p: Path): Option<Symbols> {
    if p in files then Some(files[p]) else None
  }

  /** Index.Update: the paths that were read are replaced or dropped, every other one kept. */
  function Overlay(idx: Files, found: Reads): (r: Files)
    ensures forall p :: Find(r, p) == if p in found then found[p] else Find(idx, p)
  {
    map p | p in idx.Keys + found.Keys && (if p in found then found[p].Some? else p in idx)
      :: if p in found then found[p].value else idx[p]
  }

  datatype Core = Core(
    cur: Option<Files>,        // the published index
    gen: nat,
    building: bool,
    build: nat,                // the build whose done channel is current
    failedAt: Option<nat>,
    queued: set<Path>,
    pendingReset: bool)

  datatype Outcome = Failed | Built(idx: Files)

  predicate CoolingDown(c: Core, now: nat, cooldown: nat) {
    c.failedAt.Some? && now < c.failedAt.value + cooldown
  }

  predicate MayStart(c: Core, now: nat, cooldown: nat) {
    c.cur.None? && !c.building && !CoolingDown(c, now, cooldown)
  }

  function AfterStart(c: Core, build: nat): Core {
    c.(building := true, build := build)
  }

  /** The section of `run`; `found` is what the update for the queued paths found. */
  function AfterRun(c: Core, now: nat, outcome: Outcome, found: Reads): Core {
    var c' := c.(queued := {}, pendingReset := false, building := false);
    if outcome.Failed? then c'.(failedAt := Some(now))
    else if c.pendingReset then c'
    else c'.(cur := Some(if c.queued != {} then Overlay(outcome.idx, found) else outcome.idx), gen := c.gen + 1)
  }

  /** Whether that section publishes an index. */
  predicate RunPublishes(c: Core, outcome: Outcome) {
    outcome.Built? && !c.pendingReset
  }

  /** The section of `apply`; `found` and `changed` are what the update found and reported. */
  function AfterApply(c: Core, paths: set<Path>, resync: bool, found: Reads, changed: bool): Core {
    if c.building then
      if resync then c.(pendingReset := true) else c.(queued := c.queued + paths)
    else if c.cur.None? then c
    else if resync then c.(cur := None)
    else if changed then c.(cur := Some(Overlay(c.cur.value, found)), gen := c.gen + 1)
    else c
  }

  /** Whether `apply` goes on to update the published index. */
  predicate Updates(c: Core, resync: bool) {
    !c.building && c.cur.Some? && !resync
  }

  predicate PendingNow(c: Core, now: nat, cooldown: nat) {
    c.cur.None? && (c.building || !CoolingDown(c, now, cooldown))
  }

  /** Between builds nothing is queued and no reset is owed. */
  predicate Settled(c: Core) {
    && (!c.building ==> c.queued == {} && !c.pendingReset)
    && (c.building ==> c.cur.None?)
  }

  lemma SameFiles(a: Files, b: Files)
    requires forall p :: Find(a, p) == Find(b, p)
    ensures a == b
  {
    assert forall p :: p in a <==> Find(a, p).Some?;
    assert forall p :: p in b <==> Find(b, p).Some?;
    assert a.Keys == b.Keys;
    forall p | p in a ensures a[p] == b[p] {
      assert Find(a, p) == Find(b, p);
    }
  }
}
