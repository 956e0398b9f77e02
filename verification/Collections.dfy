/** What several components say about values and lists. */
module Collections {
  datatype Option<+T> = None | Some(value: T)

  ghost predicate NoRepeats<T>(s: seq<T>) {
    forall i, j :: 0 <= i < j < |s| ==> s[i] != s[j]
  }

  lemma ConcatAssociative<T>(a: seq<T>, b: seq<T>, c: seq<T>)
    ensures a + (b + c) == (a + b) + c
  {
  }

  lemma InsertHolds<T>(s: seq<T>, p: nat, t: T)
    requires p <= |s|
    ensures forall x :: x in s[..p] + [t] + s[p..] <==> x in s || x == t
  {
    assert s == s[..p] + s[p..];
  }
}
