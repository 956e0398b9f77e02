/**
 What each critical section of the repo cache (mcp/cache.go) does to the data the
 cache mutex guards, as functions on values. Class `Cache` is proved against them
 and the interleaving model `CacheProtocol` is built from them.
 */
module CacheSpec {
  /** A normalized source: a canonical URL or an absolute path. */
  type Key = string

  /** Identity of a successfully built RepoBundle. */
  type Bundle = nat

  datatype Entry = Entry(key: Key, bundle: Bundle)

  /** The fields guarded by the cache mutex; `ll` runs from most to least recently used. */
  datatype Core = Core(
    max: nat,
    ll: seq<Entry>,
    items: map<Key, Entry>,
    gen: nat,
    closed: bool,
    inflight: set<Key>)

  const DEFAULT_CACHE_SIZE := 16

  ghost predicate Distinct(ll: seq<Entry>) {
    forall i, j :: 0 <= i < j < |ll| ==> ll[i].key != ll[j].key
  }

  /** Map and list hold the same entries under distinct keys, at most `max` of them. */
  ghost predicate Valid(c: Core) {
    && 1 <= c.max
    && |c.ll| <= c.max
    && Distinct(c.ll)
    && (forall e :: e in c.ll ==> e.key in c.items && c.items[e.key] == e)
    && (forall k :: k in c.items ==> c.items[k].key == k && c.items[k] in c.ll)
    && (c.closed ==> c.ll == [])
  }

  /** The list without the element of key `k`. */
  function Without(ll: seq<Entry>, k: Key): (r: seq<Entry>)
    ensures forall e :: e in r <==> e in ll && e.key != k
    ensures |r| <= |ll|
  {
    if ll == [] then []
    else if ll[0].key == k then Without(ll[1..], k)
    else [ll[0]] + Without(ll[1..], k)
  }

  function MoveToFront(ll: seq<Entry>, e: Entry): seq<Entry> {
    [e] + Without(ll, e.key)
  }

  /** What is left of the list once its tail has been removed while it is full. */
  function Kept(ll: seq<Entry>, max: nat): seq<Entry>
    requires 1 <= max
  {
    if |ll| >= max then ll[..max - 1] else ll
  }

  /** The removed tails, last element of the list first. */
  function Evicted(ll: seq<Entry>, max: nat): seq<Entry>
    requires 1 <= max
  {
    if |ll| >= max then [ll[|ll| - 1]] + Evicted(ll[..|ll| - 1], max) else []
  }

  /** How often bundle `b` occurs in a list of entries. */
  function Count(ll: seq<Entry>, b: Bundle): nat {
    if ll == [] then 0 else (if ll[0].bundle == b then 1 else 0) + Count(ll[1..], b)
  }

  // ----- The critical sections -----

  datatype LookupResult = CacheClosed | Miss | Hit(bundle: Bundle)

  /** The first section of getBundleOnce: refuse, hit, or miss. */
  function Looked(c: Core, k: Key): LookupResult {
    if c.closed then CacheClosed
    else if k in c.items then Hit(c.items[k].bundle)
    else Miss
  }

  function AfterLookup(c: Core, k: Key): Core {
    if !c.closed && k in c.items then c.(ll := MoveToFront(c.ll, c.items[k])) else c
  }

  datatype Verdict = RefusedClosed | RefusedPurged | LostRace(winner: Bundle) | Inserted

  /** The section after the build: what becomes of a bundle built under `startGen`. */
  function Judged(c: Core, k: Key, startGen: nat): Verdict {
    if c.closed then RefusedClosed
    else if c.gen != startGen then RefusedPurged
    else if k in c.items then LostRace(c.items[k].bundle)
    else Inserted
  }

  function AfterCommit(c: Core, k: Key, b: Bundle, startGen: nat): Core
    requires 1 <= c.max
  {
    match Judged(c, k, startGen)
    case LostRace(_) => c.(ll := MoveToFront(c.ll, c.items[k]))
    case Inserted =>
      var kept := Kept(c.ll, c.max);
      c.(ll := [Entry(k, b)] + kept,
         items := (c.items - Keys(Evicted(c.ll, c.max)))[k := Entry(k, b)])
    case _ => c
  }

  /** What the committing turn must reap once it has released the lock. */
  function ToReap(c: Core, k: Key, b: Bundle, startGen: nat): seq<Entry>
    requires 1 <= c.max
  {
    if Judged(c, k, startGen).Inserted? then Evicted(c.ll, c.max) else [Entry(k, b)]
  }

  function Keys(ll: seq<Entry>): set<Key> {
    set e | e in ll :: e.key
  }

  function AfterMark(c: Core, k: Key): Core { c.(inflight := c.inflight + {k}) }

  function AfterUnmark(c: Core, k: Key): Core { c.(inflight := c.inflight - {k}) }

  function AfterPurge(c: Core): Core {
    if c.closed then c else c.(gen := c.gen + 1, ll := [], items := map[])
  }

  function AfterClose(c: Core): Core { c.(closed := true, ll := [], items := map[]) }

  // ----- Facts about the list operations -----

  lemma HeadApart(ll: seq<Entry>)
    requires Distinct(ll) && ll != []
    ensures Distinct(ll[1..]) && forall e :: e in ll[1..] ==> e.key != ll[0].key
  {
    forall e | e in ll[1..] ensures e.key != ll[0].key {
      var i :| 0 <= i < |ll[1..]| && ll[1..][i] == e;
      assert ll[i + 1] == e;
    }
  }

  lemma PrependDistinct(e: Entry, rest: seq<Entry>)
    requires Distinct(rest) && forall x :: x in rest ==> x.key != e.key
    ensures Distinct([e] + rest)
  {
    forall i, j | 0 <= i < j < |[e] + rest| ensures ([e] + rest)[i].key != ([e] + rest)[j].key {
      assert ([e] + rest)[j] == rest[j - 1] && rest[j - 1] in rest;
    }
  }

  lemma {:induction false} WithoutDistinct(ll: seq<Entry>, k: Key)
    requires Distinct(ll)
    ensures Distinct(Without(ll, k))
    ensures |Without(ll, k)| == if exists e :: e in ll && e.key == k then |ll| - 1 else |ll|
  {
    hide Distinct;
    if ll != [] {
      HeadApart(ll);
      WithoutDistinct(ll[1..], k);
      assert ll == [ll[0]] + ll[1..];
      if ll[0].key == k {
        assert ll[0] in ll;
      } else {
        PrependDistinct(ll[0], Without(ll[1..], k));
      }
    }
  }

  lemma {:induction false} CountConcat(a: seq<Entry>, a': seq<Entry>, b: Bundle)
    ensures Count(a + a', b) == Count(a, b) + Count(a', b)
  {
    if a == [] {
      assert a + a' == a';
    } else {
      CountConcat(a[1..], a', b);
      assert (a + a')[1..] == a[1..] + a';
    }
  }

  lemma {:induction false} MoveToFrontCount(ll: seq<Entry>, e: Entry, b: Bundle)
    requires Distinct(ll) && e in ll
    ensures Count(MoveToFront(ll, e), b) == Count(ll, b)
  {
    if ll[0] == e {
      WithoutAbsent(ll[1..], e.key);
      assert MoveToFront(ll, e) == ll;
    } else {
      assert e in ll[1..];
      MoveToFrontCount(ll[1..], e, b);
      var rest := Without(ll[1..], e.key);
      assert Without(ll, e.key) == [ll[0]] + rest;
      assert MoveToFront(ll, e)[1..] == [ll[0]] + rest;
      assert MoveToFront(ll[1..], e)[1..] == rest;
    }
  }

  lemma {:induction false} WithoutAbsent(ll: seq<Entry>, k: Key)
    requires forall i :: 0 <= i < |ll| ==> ll[i].key != k
    ensures Without(ll, k) == ll
  {
    if ll != [] {
      WithoutAbsent(ll[1..], k);
    }
  }

  /** The tail of a full list is evicted first, and makes no difference to what is kept. */
  lemma EvictionStep(ll: seq<Entry>, max: nat)
    requires 1 <= max <= |ll|
    ensures var init, last := ll[..|ll| - 1], ll[|ll| - 1];
      && ll == init + [last]
      && Kept(ll, max) == Kept(init, max) <= init
      && Evicted(ll, max) == [last] + Evicted(init, max)
  {
  }

  lemma {:induction false} EvictionCounts(ll: seq<Entry>, max: nat, b: Bundle)
    requires 1 <= max
    ensures Count(Kept(ll, max), b) + Count(Evicted(ll, max), b) == Count(ll, b)
  {
    if |ll| >= max {
      var init, last := ll[..|ll| - 1], ll[|ll| - 1];
      hide Count, Kept, Evicted;
      EvictionStep(ll, max);
      EvictionCounts(init, max, b);
      CountConcat(init, [last], b);
      CountConcat([last], Evicted(init, max), b);
    }
  }

  lemma {:induction false} EvictionHolds(ll: seq<Entry>, max: nat)
    requires 1 <= max
    ensures forall e :: e in ll <==> e in Kept(ll, max) || e in Evicted(ll, max)
  {
    if |ll| >= max {
      var init, last := ll[..|ll| - 1], ll[|ll| - 1];
      hide Kept, Evicted;
      EvictionStep(ll, max);
      EvictionHolds(init, max);
    }
  }

  lemma LastApart(init: seq<Entry>, last: Entry)
    requires Distinct(init + [last])
    ensures Distinct(init) && forall e :: e in init ==> e.key != last.key
  {
    var ll := init + [last];
    assert ll[..|init|] == init;
    forall e | e in init ensures e.key != last.key {
      var i :| 0 <= i < |init| && init[i] == e;
      assert ll[i] == e && ll[|init|] == last;
    }
    forall i, j | 0 <= i < j < |init| ensures init[i].key != init[j].key {
      assert ll[i] == init[i] && ll[j] == init[j];
    }
  }

  lemma {:induction false} EvictionApart(ll: seq<Entry>, max: nat)
    requires 1 <= max && Distinct(ll)
    ensures forall e, e' :: e in Kept(ll, max) && e' in Evicted(ll, max) ==> e.key != e'.key
  {
    if |ll| >= max {
      var init, last := ll[..|ll| - 1], ll[|ll| - 1];
      hide Kept, Evicted, Distinct;
      EvictionStep(ll, max);
      LastApart(init, last);
      EvictionApart(init, max);
    }
  }

  /** Eviction splits the list: what is kept and what is removed add up to it. */
  lemma EvictionSplits(ll: seq<Entry>, max: nat, b: Bundle)
    requires 1 <= max
    ensures Count(Kept(ll, max), b) + Count(Evicted(ll, max), b) == Count(ll, b)
    ensures forall e :: e in ll <==> e in Kept(ll, max) || e in Evicted(ll, max)
    ensures Distinct(ll) ==> forall e, e' :: e in Kept(ll, max) && e' in Evicted(ll, max) ==> e.key != e'.key
  {
    hide Count, Kept, Evicted, Distinct;
    EvictionCounts(ll, max, b);
    EvictionHolds(ll, max);
    if Distinct(ll) { EvictionApart(ll, max); }
  }

  // ----- Every critical section keeps the cache valid and loses no bundle -----

  lemma LookupKeeps(c: Core, k: Key, b: Bundle)
    requires Valid(c)
    ensures Valid(AfterLookup(c, k))
    ensures Count(AfterLookup(c, k).ll, b) == Count(c.ll, b)
  {
    if !c.closed && k in c.items {
      WithoutDistinct(c.ll, k);
      MoveToFrontCount(c.ll, c.items[k], b);
    }
  }

  /** What is kept stays mapped, and the map holds nothing else, once the evicted keys are gone. */
  lemma KeptMapped(c: Core)
    requires Valid(c)
    ensures var kept, items := Kept(c.ll, c.max), c.items - Keys(Evicted(c.ll, c.max));
      && Distinct(kept) && |kept| < c.max && (forall e :: e in kept ==> e in c.ll)
      && (forall e :: e in kept ==> e.key in items && items[e.key] == e)
      && (forall x :: x in items ==> items[x].key == x && items[x] in kept)
  {
    hide Evicted;
    var kept, items := Kept(c.ll, c.max), c.items - Keys(Evicted(c.ll, c.max));
    EvictionHolds(c.ll, c.max);
    EvictionApart(c.ll, c.max);
    forall x | x in items ensures items[x].key == x && items[x] in kept {
      assert items[x] in c.ll && items[x] !in Evicted(c.ll, c.max);
    }
  }

  lemma InsertedValid(c: Core, k: Key, b: Bundle, startGen: nat)
    requires Valid(c) && Judged(c, k, startGen).Inserted?
    ensures Valid(AfterCommit(c, k, b, startGen))
  {
    hide Kept, Evicted, Distinct;
    KeptMapped(c);
    var kept, c' := Kept(c.ll, c.max), AfterCommit(c, k, b, startGen);
    assert forall e :: e in kept ==> e.key != k;
    PrependDistinct(Entry(k, b), kept);
    assert c'.ll == [Entry(k, b)] + kept;
  }

  lemma CommitValid(c: Core, k: Key, b: Bundle, startGen: nat)
    requires Valid(c)
    ensures Valid(AfterCommit(c, k, b, startGen))
  {
    match Judged(c, k, startGen) {
      case LostRace(_) => LookupKeeps(c, k, b);
      case Inserted => InsertedValid(c, k, b, startGen);
      case _ =>
    }
  }

  lemma CommitConserves(c: Core, k: Key, b: Bundle, startGen: nat, b': Bundle)
    requires Valid(c)
    ensures Count(AfterCommit(c, k, b, startGen).ll, b') + Count(ToReap(c, k, b, startGen), b')
         == Count(c.ll, b') + if b' == b then 1 else 0
  {
    match Judged(c, k, startGen) {
      case LostRace(_) => MoveToFrontCount(c.ll, c.items[k], b');
      case Inserted =>
        EvictionSplits(c.ll, c.max, b');
        assert AfterCommit(c, k, b, startGen).ll[1..] == Kept(c.ll, c.max);
      case _ =>
    }
  }
}
