/**
 The list is a least-recently-used cache: at all times it holds exactly the `max`
 most recently touched distinct keys since it was last emptied, in recency order.
 */
module CacheRecency {
  import opened CacheSpec
  import opened CacheProtocol
  import opened Collections

  /** Position of the last touch of `k`, or -1. */
  function LastTouch(h: seq<Key>, k: Key): (r: int)
    ensures r >= 0 <==> k in h
    ensures r >= 0 ==> r < |h| && h[r] == k && forall i :: r < i < |h| ==> h[i] != k
  {
    if h == [] then -1
    else if h[|h| - 1] == k then |h| - 1
    else
      assert h == h[..|h| - 1] + [h[|h| - 1]];
      LastTouch(h[..|h| - 1], k)
  }

  ghost predicate ByRecency(ll: seq<Entry>, h: seq<Key>) {
    forall i, j :: 0 <= i < j < |ll| ==> LastTouch(h, ll[i].key) > LastTouch(h, ll[j].key)
  }

  /** `ll` lists the `max` most recently touched distinct keys of `h`, all of them if there are fewer. */
  ghost predicate IsLru(ll: seq<Entry>, h: seq<Key>, max: nat) {
    && |ll| <= max
    && (forall e :: e in ll ==> e.key in h)
    && ByRecency(ll, h)
    && (forall k :: k in h && k !in Keys(ll) ==>
          |ll| == max && forall e :: e in ll ==> LastTouch(h, k) < LastTouch(h, e.key))
  }

  lemma TouchMovesOnly(h: seq<Key>, k: Key, other: Key)
    ensures LastTouch(h + [k], k) == |h|
    ensures other != k ==> LastTouch(h + [k], other) == LastTouch(h, other)
  {
    assert (h + [k])[..|h|] == h;
  }

  lemma HeadIsLatest(ll: seq<Entry>, h: seq<Key>, e: Entry)
    requires ByRecency(ll, h) && ll != [] && e in ll[1..]
    ensures LastTouch(h, ll[0].key) > LastTouch(h, e.key)
  {
    hide LastTouch;
    var i :| 0 <= i < |ll[1..]| && ll[1..][i] == e;
    assert ll[i + 1] == e;
  }

  lemma PrependByRecency(rest: seq<Entry>, h: seq<Key>, e: Entry)
    requires ByRecency(rest, h) && forall x :: x in rest ==> LastTouch(h, e.key) > LastTouch(h, x.key)
    ensures ByRecency([e] + rest, h)
  {
    hide LastTouch;
    var ll := [e] + rest;
    forall i, j | 0 <= i < j < |ll| ensures LastTouch(h, ll[i].key) > LastTouch(h, ll[j].key) {
      assert ll[j] == rest[j - 1] && rest[j - 1] in rest;
      assert i > 0 ==> ll[i] == rest[i - 1];
    }
  }

  lemma TailByRecency(ll: seq<Entry>, h: seq<Key>)
    requires ByRecency(ll, h) && ll != []
    ensures ByRecency(ll[1..], h)
  {
    hide LastTouch;
  }

  lemma {:induction false} WithoutByRecency(ll: seq<Entry>, h: seq<Key>, k: Key)
    requires ByRecency(ll, h)
    ensures ByRecency(Without(ll, k), h)
  {
    hide LastTouch, ByRecency;
    if ll != [] {
      TailByRecency(ll, h);
      WithoutByRecency(ll[1..], h, k);
      if ll[0].key != k {
        forall x | x in Without(ll[1..], k) ensures LastTouch(h, ll[0].key) > LastTouch(h, x.key) {
          HeadIsLatest(ll, h, x);
        }
        PrependByRecency(Without(ll[1..], k), h, ll[0]);
      }
    } else {
      NothingByRecency(h);
    }
  }

  lemma NothingByRecency(h: seq<Key>)
    ensures ByRecency([], h)
  {
  }

  /** Pushing `e` to the front of other keys' entries, on a touch of its key, keeps the order. */
  lemma PushByRecency(rest: seq<Entry>, e: Entry, h: seq<Key>)
    requires ByRecency(rest, h) && forall x :: x in rest ==> x.key != e.key
    ensures ByRecency([e] + rest, h + [e.key])
  {
    hide LastTouch;
    TouchMovesOnly(h, e.key, e.key);
    forall x | x in rest
      ensures LastTouch(h + [e.key], x.key) == LastTouch(h, x.key)
      ensures LastTouch(h + [e.key], e.key) > LastTouch(h, x.key)
    {
      TouchMovesOnly(h, e.key, x.key);
    }
    SameTouches(rest, h, h + [e.key]);
    PrependByRecency(rest, h + [e.key], e);
  }

  lemma SameTouches(ll: seq<Entry>, h: seq<Key>, h': seq<Key>)
    requires ByRecency(ll, h) && forall x :: x in ll ==> LastTouch(h', x.key) == LastTouch(h, x.key)
    ensures ByRecency(ll, h')
  {
    hide LastTouch;
    forall i, j | 0 <= i < j < |ll| ensures LastTouch(h', ll[i].key) > LastTouch(h', ll[j].key) {
      assert ll[i] in ll && ll[j] in ll;
    }
  }

  /** Whatever is touched now is younger than any other key. */
  lemma TouchedIsYoungest(h: seq<Key>, k: Key, other: Key)
    requires other != k
    ensures LastTouch(h + [k], other) < LastTouch(h + [k], k)
  {
    TouchMovesOnly(h, k, other);
    TouchMovesOnly(h, k, k);
  }

  lemma HitIsLru(c: Core, h: seq<Key>, k: Key)
    requires Valid(c) && IsLru(c.ll, h, c.max) && k in c.items
    ensures IsLru(MoveToFront(c.ll, c.items[k]), h + [k], c.max)
  {
    hide LastTouch, ByRecency, Without;
    var e := c.items[k];
    var rest := Without(c.ll, k);
    WithoutByRecency(c.ll, h, k);
    WithoutDistinct(c.ll, k);
    PushByRecency(rest, e, h);
    var ll := [e] + rest;
    forall k', x | k' in h + [k] && k' !in Keys(ll) && x in ll
      ensures |ll| == c.max && LastTouch(h + [k], k') < LastTouch(h + [k], x.key)
    {
      NotListed(c.ll, k, k', e);
      if x.key == k {
        TouchedIsYoungest(h, k, k');
      } else {
        TouchMovesOnly(h, k, k');
        TouchMovesOnly(h, k, x.key);
      }
    }
    assert e in ll;
  }

  lemma NotListed(ll: seq<Entry>, k: Key, k': Key, e: Entry)
    requires e in ll && e.key == k && k' !in Keys([e] + Without(ll, k))
    ensures k' != k && k' !in Keys(ll)
  {
    assert e in [e] + Without(ll, k);
  }

  lemma KeptByRecency(ll: seq<Entry>, h: seq<Key>, max: nat)
    requires ByRecency(ll, h) && 1 <= max
    ensures ByRecency(Kept(ll, max), h) && forall x :: x in Kept(ll, max) ==> x in ll
  {
    hide LastTouch;
  }

  /** What eviction drops is older than what it keeps. */
  lemma DroppedIsOldest(ll: seq<Entry>, h: seq<Key>, max: nat, k: Key, x: Entry)
    requires ByRecency(ll, h) && 1 <= max && |ll| <= max
    requires k in Keys(ll) && k !in Keys(Kept(ll, max)) && x in Kept(ll, max)
    ensures |ll| == max && LastTouch(h, k) < LastTouch(h, x.key)
  {
    hide LastTouch;
    DroppedIsTail(ll, max, k);
    var i :| 0 <= i < |Kept(ll, max)| && Kept(ll, max)[i] == x;
    assert ll[i] == x;
  }

  lemma InsertIsLru(c: Core, h: seq<Key>, e: Entry)
    requires Valid(c) && IsLru(c.ll, h, c.max) && e.key !in c.items
    ensures IsLru([e] + Kept(c.ll, c.max), h + [e.key], c.max)
  {
    hide LastTouch, ByRecency, Distinct, Kept;
    var kept := Kept(c.ll, c.max);
    KeptByRecency(c.ll, h, c.max);
    KeptRoom(c.ll, c.max);
    PushByRecency(kept, e, h);
    var ll := [e] + kept;
    forall k', x | k' in h + [e.key] && k' !in Keys(ll) && x in ll
      ensures |ll| == c.max && LastTouch(h + [e.key], k') < LastTouch(h + [e.key], x.key)
    {
      NotPushed(kept, e, k');
      if x == e {
        TouchedIsYoungest(h, e.key, k');
      } else {
        TouchMovesOnly(h, e.key, k');
        TouchMovesOnly(h, e.key, x.key);
        if k' in Keys(c.ll) { DroppedIsOldest(c.ll, h, c.max, k', x); }
      }
      if k' in Keys(c.ll) { DroppedIsTail(c.ll, c.max, k'); }
    }
    assert e in ll;
  }

  lemma KeptRoom(ll: seq<Entry>, max: nat)
    requires 1 <= max && |ll| <= max
    ensures |Kept(ll, max)| == if |ll| == max then max - 1 else |ll|
  {
  }

  lemma NotPushed(kept: seq<Entry>, e: Entry, k: Key)
    requires k !in Keys([e] + kept)
    ensures k != e.key && k !in Keys(kept)
  {
    assert e in [e] + kept;
    assert forall x :: x in kept ==> x in [e] + kept;
  }

  /** In a list of at most `max` entries eviction drops at most the last one. */
  lemma DroppedIsTail(ll: seq<Entry>, max: nat, k: Key)
    requires 1 <= max && |ll| <= max && k in Keys(ll) && k !in Keys(Kept(ll, max))
    ensures |ll| == max && ll[max - 1].key == k
  {
    var e :| e in ll && e.key == k;
    var i :| 0 <= i < |ll| && ll[i] == e;
    assert forall j :: 0 <= j < |Kept(ll, max)| ==> Kept(ll, max)[j] in Kept(ll, max);
  }

  // ----- The touches of a run -----

  /**
   The key a step touches, read off the world it is taken in: a lookup that finds its
   key on an open cache, and a build that returns to the generation it began under,
   whether it is inserted or finds another entry in its place.
   */
  ghost function Touched(w: World, s: Step): seq<Key>
    requires Enabled(w, s)
  {
    match s
    case CallLookup(c) =>
      if !w.core.closed && w.calls[c].key in w.core.items then [w.calls[c].key] else []
    case TurnCommit(t) =>
      if !w.core.closed && w.turns[t].phase.startGen == w.core.gen then [w.turns[t].key] else []
    case _ => []
  }

  /** Close empties the cache, and so does Purge unless it is closed already. */
  ghost predicate Empties(w: World, s: Step) {
    s.Close? || (s.Purge? && !w.core.closed)
  }

  /** What a run from `w` has touched since it last emptied the cache, after `h` before it. */
  ghost function Touches(w: World, run: seq<Step>, h: seq<Key>): seq<Key>
    requires Legal(w, run)
    decreases |run|
  {
    if run == [] then h
    else Touches(Apply(w, run[0]), run[1..], if Empties(w, run[0]) then [] else h + Touched(w, run[0]))
  }

  ghost predicate Recency(w: World, h: seq<Key>) {
    Valid(w.core) && IsLru(w.core.ll, h, w.core.max)
  }

  lemma LookupRecency(w: World, c: nat, h: seq<Key>)
    requires Recency(w, h) && Enabled(w, CallLookup(c))
    ensures Recency(DoCallLookup(w, c), h + Touched(w, CallLookup(c)))
  {
    hide IsLru;
    StepValid(w, CallLookup(c));
    var k := w.calls[c].key;
    if !w.core.closed && k in w.core.items { HitIsLru(w.core, h, k); }
    assert h + [] == h;
  }

  lemma CommitRecency(w: World, t: nat, h: seq<Key>)
    requires Recency(w, h) && Enabled(w, TurnCommit(t))
    ensures Recency(DoTurnCommit(w, t), h + Touched(w, TurnCommit(t)))
  {
    hide IsLru;
    StepValid(w, TurnCommit(t));
    var k, b := w.turns[t].key, w.turns[t].phase.bundle;
    if !w.core.closed && w.turns[t].phase.startGen == w.core.gen {
      if k in w.core.items { HitIsLru(w.core, h, k); } else { InsertIsLru(w.core, h, Entry(k, b)); }
    }
    assert h + [] == h;
  }

  lemma StepRecency(w: World, s: Step, h: seq<Key>)
    requires Recency(w, h) && Enabled(w, s)
    ensures Recency(Apply(w, s), if Empties(w, s) then [] else h + Touched(w, s))
  {
    hide IsLru;
    assert h + [] == h;
    if s.CallLookup? {
      LookupRecency(w, s.call, h);
    } else if s.TurnCommit? {
      CommitRecency(w, s.turn, h);
    } else {
      StepValid(w, s);
      if Empties(w, s) { NothingIsLru(w.core.max); }
    }
  }

  lemma NothingIsLru(max: nat)
    ensures IsLru([], [], max)
  {
  }

  lemma {:induction false} RunRecency(w: World, run: seq<Step>, h: seq<Key>)
    requires Recency(w, h) && Legal(w, run)
    ensures Recency(After(w, run), Touches(w, run, h))
    decreases |run|
  {
    hide Recency, Touched, Apply, Enabled;
    if run != [] {
      StepRecency(w, run[0], h);
      RunRecency(Apply(w, run[0]), run[1..], if Empties(w, run[0]) then [] else h + Touched(w, run[0]));
    }
  }

  /**
   After any interleaving, map and list hold the same distinct keys, at most `max`
   of them, and the list is the `max` most recently touched keys since the cache was
   last emptied, most recent first.
   */
  lemma ListIsLru(max: nat, mode: Mode, k: Key, run: seq<Step>)
    requires Legal(Init(max, mode, k), run)
    ensures var w := After(Init(max, mode, k), run);
      && w.core.items.Keys == Keys(w.core.ll) && Distinct(w.core.ll)
      && w.core.max == (if max == 0 then 16 else max)
      && IsLru(w.core.ll, Touches(Init(max, mode, k), run, []), w.core.max)
  {
    NothingIsLru(Init(max, mode, k).core.max);
    RunRecency(Init(max, mode, k), run, []);
    RunMax(Init(max, mode, k), run);
  }

  lemma {:induction false} RunMax(w: World, run: seq<Step>)
    requires Legal(w, run)
    ensures After(w, run).core.max == w.core.max
    decreases |run|
  {
    if run != [] { RunMax(Apply(w, run[0]), run[1..]); }
  }

  // ----- One hit -----

  lemma {:induction false} WithoutOne(before: seq<Entry>, e: Entry, after: seq<Entry>)
    requires forall i :: 0 <= i < |before| ==> before[i].key != e.key
    requires forall i :: 0 <= i < |after| ==> after[i].key != e.key
    ensures Without(before + ([e] + after), e.key) == before + after
  {
    if before == [] {
      WithoutAbsent(after, e.key);
      assert before + ([e] + after) == [e] + after && ([e] + after)[1..] == after && before + after == after;
    } else {
      var h, rest := before[0], before[1..];
      assert before == [h] + rest;
      hide Without;
      WithoutOne(rest, e, after);
      WithoutOther(h, rest + ([e] + after), e.key);
      ConcatAssociative([h], rest, [e] + after);
      ConcatAssociative([h], rest, after);
    }
  }

  lemma WithoutOther(h: Entry, rest: seq<Entry>, k: Key)
    requires h.key != k
    ensures Without([h] + rest, k) == [h] + Without(rest, k)
  {
    assert ([h] + rest)[1..] == rest;
  }

  lemma CutAt(ll: seq<Entry>, i: nat)
    requires i < |ll|
    ensures ll == ll[..i] + ([ll[i]] + ll[i + 1..])
  {
  }

  lemma KeysApart(ll: seq<Entry>, i: nat)
    requires Distinct(ll) && i < |ll|
    ensures var before := ll[..i]; forall j :: 0 <= j < |before| ==> before[j].key != ll[i].key
    ensures var after := ll[i + 1..]; forall j :: 0 <= j < |after| ==> after[j].key != ll[i].key
  {
  }

  lemma WithoutAt(ll: seq<Entry>, i: nat)
    requires Distinct(ll) && i < |ll|
    ensures Without(ll, ll[i].key) == ll[..i] + ll[i + 1..]
  {
    hide *;
    KeysApart(ll, i);
    CutAt(ll, i);
    WithoutOne(ll[..i], ll[i], ll[i + 1..]);
  }

  lemma LookupMoves(w: World, c: nat) returns (i: nat)
    requires Valid(w.core) && Enabled(w, CallLookup(c)) && !w.core.closed && w.calls[c].key in w.core.items
    ensures i < |w.core.ll| && w.core.ll[i].key == w.calls[c].key
    ensures var w' := Apply(w, CallLookup(c));
      && w'.core.ll == [w.core.ll[i]] + w.core.ll[..i] + w.core.ll[i + 1..]
      && w'.calls == w.calls[c := w.calls[c].(phase := Done(Ok(w.core.ll[i].bundle), w.core.gen))]
  {
    hide Distinct, Without;
    var e := w.core.items[w.calls[c].key];
    assert e in w.core.ll;
    i :| 0 <= i < |w.core.ll| && w.core.ll[i] == e;
    WithoutAt(w.core.ll, i);
  }

  /**
   In every reachable world a lookup that finds its key on an open cache returns the
   bundle cached for it, moves its entry to the front, and leaves all others in order.
   */
  lemma HitMovesToFront(max: nat, mode: Mode, k: Key, run: seq<Step>, c: nat) returns (i: nat)
    requires Legal(Init(max, mode, k), run)
    requires var w := After(Init(max, mode, k), run);
      Enabled(w, CallLookup(c)) && !w.core.closed && w.calls[c].key in w.core.items
    ensures var w := After(Init(max, mode, k), run);
      var ll, ll' := w.core.ll, After(w, [CallLookup(c)]).core.ll;
      && Legal(w, [CallLookup(c)])
      && i < |ll| && ll[i].key == w.calls[c].key
      && ll' == [ll[i]] + ll[..i] + ll[i + 1..]
      && After(w, [CallLookup(c)]).calls == w.calls[c := w.calls[c].(phase := Done(Ok(ll[i].bundle), w.core.gen))]
  {
    hide Apply, Enabled;
    var w := After(Init(max, mode, k), run);
    NothingIsLru(Init(max, mode, k).core.max);
    RunRecency(Init(max, mode, k), run, []);
    OneStep(w, CallLookup(c));
    i := LookupMoves(w, c);
  }
}
