/** The order in which Go compares strings: lexicographic, code by code. */
module StringOrder {
  predicate Less(a: string, b: string) {
    b != [] && (a == [] || a[0] < b[0] || (a[0] == b[0] && Less(a[1..], b[1..])))
  }

  lemma {:induction false} LessTotal(a: string, b: string)
    ensures a == b || Less(a, b) || Less(b, a)
  {
    if a != [] && b != [] && a[0] == b[0] {
      LessTotal(a[1..], b[1..]);
      assert a == [a[0]] + a[1..] && b == [b[0]] + b[1..];
    }
  }

  lemma {:induction false} LessIrreflexive(a: string)
    ensures !Less(a, a)
  {
    if a != [] { LessIrreflexive(a[1..]); }
  }

  lemma {:induction false} LessTransitive(a: string, b: string, c: string)
    requires Less(a, b) && Less(b, c)
    ensures Less(a, c)
  {
    if a != [] && a[0] == b[0] && b[0] == c[0] { LessTransitive(a[1..], b[1..], c[1..]); }
  }

  /** The first place where two strings differ decides, and a string comes before what it begins. */
  lemma {:induction false} LessAtDifference(a: string, b: string, n: nat)
    requires n <= |a| && n < |b| && a[..n] == b[..n] && (n == |a| || a[n] < b[n])
    ensures Less(a, b)
  {
    if n > 0 {
      assert a[0] == a[..n][0] && b[0] == b[..n][0];
      assert a[1..][..n - 1] == a[..n][1..] && b[1..][..n - 1] == b[..n][1..];
      LessAtDifference(a[1..], b[1..], n - 1);
    }
  }

  predicate AtMost(a: string, b: string) { a == b || Less(a, b) }

  lemma AtMostTransitive(a: string, b: string, c: string)
    requires AtMost(a, b) && AtMost(b, c)
    ensures AtMost(a, c)
  {
    if a != b && b != c { LessTransitive(a, b, c); }
  }

  lemma AtMostAntisymmetric(a: string, b: string)
    requires AtMost(a, b) && AtMost(b, a)
    ensures a == b
  {
    if a != b {
      LessTransitive(a, b, a);
      LessIrreflexive(a);
    }
  }

  ghost predicate StrictlySorted(strings: seq<string>) {
    forall i, j :: 0 <= i < j < |strings| ==> Less(strings[i], strings[j])
  }

  method SortStrings(strings: seq<string>) returns (out: seq<string>)
    requires forall i, j :: 0 <= i < j < |strings| ==> strings[i] != strings[j]
    ensures StrictlySorted(out) && forall f :: f in out <==> f in strings
  {
    out := [];
    for i := 0 to |strings|
      invariant StrictlySorted(out) && forall f :: f in out <==> f in strings[..i]
    {
      var f := strings[i];
      assert f !in strings[..i];
      var p: nat := |out|;
      while p > 0 && Less(f, out[p - 1])
        invariant p <= |out|
        invariant p < |out| ==> Less(f, out[p])
      {
        p := p - 1;
      }
      if p > 0 { LessTotal(f, out[p - 1]); assert out[p - 1] in out; }
      StringInserted(out, p, f);
      out := out[..p] + [f] + out[p..];
      assert strings[..i + 1] == strings[..i] + [f];
    }
    assert strings[..|strings|] == strings;
  }

  lemma StringInserted(out: seq<string>, p: nat, f: string)
    requires StrictlySorted(out) && p <= |out|
    requires p > 0 ==> Less(out[p - 1], f)
    requires p < |out| ==> Less(f, out[p])
    ensures StrictlySorted(out[..p] + [f] + out[p..])
    ensures forall x :: x in out[..p] + [f] + out[p..] <==> x in out || x == f
  {
    hide Less, StrictlySorted;
    var r := out[..p] + [f] + out[p..];
    PlacedBetween(out, p, f);
    forall i, j | 0 <= i < j < |r| ensures Less(r[i], r[j]) {
      PairInserted(out, p, f, i, j);
    }
    SortedByPairs(r);
    assert out == out[..p] + out[p..];
  }

  lemma SortedByPairs(s: seq<string>)
    requires forall i, j :: 0 <= i < j < |s| ==> Less(s[i], s[j])
    ensures StrictlySorted(s)
  {
  }

  lemma PairInserted(out: seq<string>, p: nat, f: string, i: nat, j: nat)
    requires StrictlySorted(out) && p <= |out| && i < j <= |out|
    requires forall k :: 0 <= k < p ==> Less(out[k], f)
    requires forall k :: p <= k < |out| ==> Less(f, out[k])
    ensures var r := out[..p] + [f] + out[p..]; Less(r[i], r[j])
  {
    hide Less;
  }

  lemma PlacedBetween(out: seq<string>, p: nat, f: string)
    requires StrictlySorted(out) && p <= |out|
    requires p > 0 ==> Less(out[p - 1], f)
    requires p < |out| ==> Less(f, out[p])
    ensures forall k :: 0 <= k < p ==> Less(out[k], f)
    ensures forall k :: p <= k < |out| ==> Less(f, out[k])
  {
    hide Less;
    forall k | 0 <= k < p ensures Less(out[k], f) {
      if k < p - 1 { LessTransitive(out[k], out[p - 1], f); }
    }
    forall k | p <= k < |out| ensures Less(f, out[k]) {
      if k > p { LessTransitive(f, out[p], out[k]); }
    }
  }

  /** A strictly sorted list is determined by its members. */
  lemma {:induction false} SortedUnique(a: seq<string>, b: seq<string>)
    requires StrictlySorted(a) && StrictlySorted(b) && forall x :: x in a <==> x in b
    ensures a == b
  {
    hide Less;
    if a == [] {
      if b != [] { SameLeast(b, a); }
    } else {
      SameLeast(a, b);
      forall x ensures x in a[1..] <==> x in b[1..] {
        TailMembers(a, x);
        TailMembers(b, x);
      }
      SortedUnique(a[1..], b[1..]);
    }
  }

  lemma SameLeast(a: seq<string>, b: seq<string>)
    requires StrictlySorted(a) && StrictlySorted(b) && a != [] && forall x :: x in a <==> x in b
    ensures b != [] && a[0] == b[0]
  {
    hide Less;
    assert a[0] in a && a[0] in b && b[0] in b;
    var i :| 0 <= i < |b| && b[i] == a[0];
    var j :| 0 <= j < |a| && a[j] == b[0];
    if i > 0 && j > 0 {
      LessTransitive(a[0], a[j], a[0]);
      LessIrreflexive(a[0]);
    }
  }

  lemma TailMembers(a: seq<string>, x: string)
    requires StrictlySorted(a) && a != []
    ensures x in a[1..] <==> x in a && x != a[0]
  {
    hide Less;
    assert a == [a[0]] + a[1..];
    LessIrreflexive(a[0]);
    if x in a[1..] {
      var i :| 0 <= i < |a[1..]| && a[1..][i] == x;
      assert a[i + 1] == x && Less(a[0], a[i + 1]);
    }
  }
}
