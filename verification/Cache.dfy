/**
 The repo cache of mcp/cache.go as the object it is. Every method that takes the
 mutex is proved against the function of `CacheSpec` that says what its critical
 section does; entries are reaped only while the mutex is free.
 */
module RepoCache {
  import opened CacheSpec

  /** golang.org/x/sync/singleflight: the turn in flight for each key. */
  class Group {
    var m: map<Key, nat>

    constructor ()
      ensures m == map[]
    {
      m := map[];
    }

    /** Do: join the key's turn, or start `newTurn` as its turn. */
    method JoinOrStart(key: Key, newTurn: nat) returns (turn: nat, started: bool)
      modifies this
      ensures started == (key !in old(m))
      ensures turn == if started then newTurn else old(m)[key]
      ensures m == old(m)[key := turn]
    {
      if key in m {
        turn, started := m[key], false;
      } else {
        m := m[key := newTurn];
        turn, started := newTurn, true;
      }
    }

    method Forget(key: Key)
      modifies this
      ensures m == old(m) - {key}
    {
      m := m - {key};
    }

    /** A turn that ends unmaps itself, never a newer turn of the same key. */
    method Finish(key: Key, turn: nat)
      modifies this
      ensures m == if key in old(m) && old(m)[key] == turn then old(m) - {key} else old(m)
    {
      if key in m && m[key] == turn {
        m := m - {key};
      }
    }
  }

  class Cache {
    const max: nat
    var ll: seq<Entry>
    var items: map<Key, Entry>
    var gen: nat
    var closed: bool
    var inflight: set<Key>
    const sf: Group
    /** Whether the mutex is held. */
    var mu: bool
    /** The entries torn down so far: watcher drained, structural build stopped, clone removed. */
    var reaped: seq<Entry>

    ghost function View(): Core
      reads this
    {
      Core(max, ll, items, gen, closed, inflight)
    }

    ghost predicate Ready()
      reads this
    {
      !mu && Valid(View())
    }

    constructor (bound: int)
      ensures Ready() && fresh(sf)
      ensures View() == Core(if bound <= 0 then DEFAULT_CACHE_SIZE else bound, [], map[], 0, false, {})
      ensures reaped == [] && sf.m == map[]
    {
      max := if bound <= 0 then DEFAULT_CACHE_SIZE else bound;
      ll, items, gen, closed, inflight := [], map[], 0, false, {};
      mu, reaped := false, [];
      sf := new Group();
    }

    /** reapEntry blocks, so it must not run under the mutex. */
    method ReapEntry(e: Entry)
      requires !mu
      modifies this`reaped
      ensures reaped == old(reaped) + [e]
    {
      reaped := reaped + [e];
    }

    method ReapAll(ents: seq<Entry>)
      requires !mu
      modifies this`reaped
      ensures reaped == old(reaped) + ents
    {
      for i := 0 to |ents|
        invariant reaped == old(reaped) + ents[..i]
      {
        ReapEntry(ents[i]);
      }
    }

    /** Empties map and list, returning every entry front to back for the caller to reap. */
    method DetachAll() returns (ents: seq<Entry>)
      requires mu
      modifies this`ll, this`items
      ensures ents == old(ll) && ll == [] && items == map[]
    {
      ents := [];
      for i := 0 to |ll|
        invariant ents == ll[..i]
      {
        ents := ents + [ll[i]];
      }
      items, ll := map[], [];
    }

    method Lookup(key: Key) returns (r: LookupResult)
      requires Ready()
      modifies this`ll, this`mu
      ensures Ready()
      ensures View() == AfterLookup(old(View()), key)
      ensures r == Looked(old(View()), key)
    {
      hide Valid, MoveToFront;
      LookupKeeps(View(), key, 0);
      mu := true;
      if closed {
        mu := false;
        return CacheClosed;
      }
      if key in items {
        var e := items[key];
        ll := MoveToFront(ll, e);
        mu := false;
        return Hit(e.bundle);
      }
      mu := false;
      return Miss;
    }

    /** The turn's first section: the generation it builds under, and the in-flight mark. */
    method BeginBuild(key: Key) returns (startGen: nat)
      requires Ready()
      modifies this`inflight, this`mu
      ensures Ready()
      ensures View() == AfterMark(old(View()), key)
      ensures startGen == gen
    {
      mu := true;
      startGen := gen;
      inflight := inflight + {key};
      mu := false;
    }

    /** The deferred delete: by key, whichever turn marked it. */
    method EndBuild(key: Key)
      requires Ready()
      modifies this`inflight, this`mu
      ensures Ready()
      ensures View() == AfterUnmark(old(View()), key)
    {
      mu := true;
      inflight := inflight - {key};
      mu := false;
    }

    /** The eviction loop: detach list tails while the map is full, for reaping later. */
    method EvictTails() returns (evicted: seq<Entry>)
      requires mu && Valid(View())
      modifies this`ll, this`items
      ensures evicted == Evicted(old(ll), max)
      ensures ll == Kept(old(ll), max)
      ensures items == old(items) - Keys(evicted)
    {
      hide Evicting, Evicted, Kept, Valid;
      evicted := [];
      EvictingStart(View());
      while |items| >= max
        invariant Evicting(old(ll), old(items), max, ll, items, evicted)
        decreases |ll|
      {
        EvictingStep(old(ll), old(items), max, ll, items, evicted);
        var ev := ll[|ll| - 1];
        ll := ll[..|ll| - 1];
        items := items - {ev.key};
        evicted := evicted + [ev];
      }
      EvictingDone(old(ll), old(items), max, ll, items, evicted);
    }

    /** The section after a successful build, and the reaping that follows it. */
    method CommitBuild(key: Key, bundle: Bundle, startGen: nat) returns (v: Verdict)
      requires Ready()
      modifies this`ll, this`items, this`mu, this`reaped
      ensures Ready()
      ensures v == Judged(old(View()), key, startGen)
      ensures View() == AfterCommit(old(View()), key, bundle, startGen)
      ensures reaped == old(reaped) + ToReap(old(View()), key, bundle, startGen)
    {
      CommitValid(View(), key, bundle, startGen);
      mu := true;
      if closed {
        mu := false;
        ReapEntry(Entry(key, bundle));
        return RefusedClosed;
      }
      if gen != startGen {
        mu := false;
        ReapEntry(Entry(key, bundle));
        return RefusedPurged;
      }
      if key in items {
        var e := items[key];
        ll := MoveToFront(ll, e);
        mu := false;
        ReapEntry(Entry(key, bundle));
        return LostRace(e.bundle);
      }
      var evicted := EvictTails();
      var ent := Entry(key, bundle);
      ll := [ent] + ll;
      items := items[key := ent];
      mu := false;
      ReapAll(evicted);
      return Inserted;
    }

    method Purge()
      requires Ready()
      modifies this`ll, this`items, this`gen, this`mu, this`reaped, sf
      ensures Ready()
      ensures View() == AfterPurge(old(View()))
      ensures sf.m == if old(closed) then old(sf.m) else old(sf.m) - old(inflight)
      ensures reaped == old(reaped) + if old(closed) then [] else old(ll)
    {
      mu := true;
      if closed {
        mu := false;
        return;
      }
      gen := gen + 1;
      var ents := DetachAll();
      var todo := inflight;
      while todo != {}
        invariant todo <= inflight
        invariant sf.m == old(sf.m) - (inflight - todo)
        decreases todo
        modifies sf
      {
        var k :| k in todo;
        sf.Forget(k);
        todo := todo - {k};
      }
      mu := false;
      ReapAll(ents);
    }

    method Close()
      requires Ready()
      modifies this`ll, this`items, this`closed, this`mu, this`reaped
      ensures Ready()
      ensures View() == AfterClose(old(View()))
      ensures reaped == old(reaped) + old(ll)
    {
      mu := true;
      closed := true;
      var ents := DetachAll();
      mu := false;
      ReapAll(ents);
    }

    method Len() returns (n: nat)
      requires Ready()
      ensures n == |ll|
    {
      ItemsMatchList(View());
      n := |items|;
    }
  }

  /** The map holds the list's entries and nothing else. */
  ghost predicate ListAgrees(ll: seq<Entry>, items: map<Key, Entry>) {
    && (forall e :: e in ll ==> e.key in items && items[e.key] == e)
    && (forall k :: k in items ==> items[k].key == k && items[k] in ll)
  }

  lemma {:induction false} KeyCount(ll: seq<Entry>)
    requires Distinct(ll)
    ensures |Keys(ll)| == |ll|
  {
    if ll != [] {
      hide Distinct;
      HeadApart(ll);
      KeyCount(ll[1..]);
      assert ll == [ll[0]] + ll[1..];
      assert ll[0].key !in Keys(ll[1..]);
      assert Keys(ll) == {ll[0].key} + Keys(ll[1..]);
    }
  }

  /** The map's size, which the eviction loop reads, is the list's length. */
  lemma ItemsMatchList(c: Core)
    requires Valid(c)
    ensures |c.items| == |c.ll|
  {
    KeyCount(c.ll);
    assert c.items.Keys == Keys(c.ll);
  }

  lemma RemovingTail(ll: seq<Entry>, items: map<Key, Entry>)
    requires 1 <= |ll| == |items| && Distinct(ll) && ListAgrees(ll, items)
    ensures var init, k := ll[..|ll| - 1], ll[|ll| - 1].key;
      Distinct(init) && ListAgrees(init, items - {k}) && |items - {k}| == |init|
  {
    hide Distinct, ListAgrees;
    var init, last := ll[..|ll| - 1], ll[|ll| - 1];
    LastMapped(ll, items);
    RemovingOne(items, last.key);
    InitHolds(ll);
    assert init + [last] == ll;
    LastApart(init, last);
    AgreeWithoutTail(ll, init, last, items);
  }

  lemma LastMapped(ll: seq<Entry>, items: map<Key, Entry>)
    requires ll != [] && ListAgrees(ll, items)
    ensures ll[|ll| - 1].key in items
  {
    assert ll[|ll| - 1] in ll;
  }

  lemma InitHolds(ll: seq<Entry>)
    requires ll != []
    ensures forall e :: e in ll <==> e in ll[..|ll| - 1] || e == ll[|ll| - 1]
  {
    assert ll == ll[..|ll| - 1] + [ll[|ll| - 1]];
  }

  lemma AgreeWithoutTail(ll: seq<Entry>, init: seq<Entry>, last: Entry, items: map<Key, Entry>)
    requires ListAgrees(ll, items) && forall e :: e in ll <==> e in init || e == last
    requires forall e :: e in init ==> e.key != last.key
    ensures ListAgrees(init, items - {last.key})
  {
  }

  lemma RemovingOne(items: map<Key, Entry>, k: Key)
    requires k in items
    ensures |items - {k}| == |items| - 1
  {
    var rest := items - {k};
    assert items.Keys == rest.Keys + {k};
    assert |items| == |items.Keys| && |rest| == |rest.Keys|;
  }

  /** The eviction loop's invariant: from list and map (ll0, items0), some tails are gone. */
  ghost predicate Evicting(ll0: seq<Entry>, items0: map<Key, Entry>, max: nat,
                           ll: seq<Entry>, items: map<Key, Entry>, evicted: seq<Entry>)
  {
    && 1 <= max
    && Distinct(ll) && ListAgrees(ll, items) && |items| == |ll|
    && evicted + Evicted(ll, max) == Evicted(ll0, max)
    && Kept(ll, max) == Kept(ll0, max)
    && items == items0 - Keys(evicted)
  }

  lemma TailMoves(ll: seq<Entry>, max: nat, evicted: seq<Entry>)
    requires 1 <= max <= |ll|
    ensures var init, ev := ll[..|ll| - 1], ll[|ll| - 1];
      && Kept(init, max) == Kept(ll, max)
      && evicted + [ev] + Evicted(init, max) == evicted + Evicted(ll, max)
  {
    assert ll[..|ll| - 1][..max - 1] == ll[..max - 1];
  }

  lemma KeysAppend(items: map<Key, Entry>, evicted: seq<Entry>, ev: Entry)
    ensures items - Keys(evicted) - {ev.key} == items - Keys(evicted + [ev])
  {
    assert Keys(evicted + [ev]) == Keys(evicted) + {ev.key};
  }

  lemma EvictingStart(c: Core)
    requires Valid(c)
    ensures Evicting(c.ll, c.items, c.max, c.ll, c.items, [])
  {
    ItemsMatchList(c);
  }

  lemma EvictingStep(ll0: seq<Entry>, items0: map<Key, Entry>, max: nat,
                     ll: seq<Entry>, items: map<Key, Entry>, evicted: seq<Entry>)
    requires Evicting(ll0, items0, max, ll, items, evicted) && |items| >= max
    ensures ll != []
    ensures var init, ev := ll[..|ll| - 1], ll[|ll| - 1];
      Evicting(ll0, items0, max, init, items - {ev.key}, evicted + [ev])
  {
    RemovingTail(ll, items);
    KeysAppend(items0, evicted, ll[|ll| - 1]);
    TailMoves(ll, max, evicted);
  }

  lemma EvictingDone(ll0: seq<Entry>, items0: map<Key, Entry>, max: nat,
                     ll: seq<Entry>, items: map<Key, Entry>, evicted: seq<Entry>)
    requires Evicting(ll0, items0, max, ll, items, evicted) && |items| < max
    ensures evicted == Evicted(ll0, max) && ll == Kept(ll0, max) && items == items0 - Keys(evicted)
  {
  }
}
