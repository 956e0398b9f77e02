/**
 The runes of a Go string: ranging over bytes decodes UTF-8, and every byte that
 does not begin a valid encoding yields the replacement rune on its own.
 */
module Runes {
  import opened Collections

  type byte = b: int | 0 <= b < 256

  type Rune = nat

  const RUNE_ERROR: Rune := 0xFFFD

  predicate Within(b: byte, lo: int, hi: int) { lo <= b <= hi }

  predicate Continuation(b: byte) { Within(b, 0x80, 0xBF) }

  /** The bytes a valid second byte may be, after leading byte `b0`. */
  predicate Second(b0: byte, b1: byte) {
    match b0
    case 0xE0 => Within(b1, 0xA0, 0xBF)
    case 0xED => Within(b1, 0x80, 0x9F)
    case 0xF0 => Within(b1, 0x90, 0xBF)
    case 0xF4 => Within(b1, 0x80, 0x8F)
    case _ => Continuation(b1)
  }

  /** The length the leading byte announces; 0 for a byte that leads nothing. */
  function Announced(b0: byte): nat {
    if b0 < 0x80 then 1
    else if Within(b0, 0xC2, 0xDF) then 2
    else if Within(b0, 0xE0, 0xEF) then 3
    else if Within(b0, 0xF0, 0xF4) then 4
    else 0
  }

  predicate ValidPrefix(s: seq<byte>, n: nat) {
    && 1 <= n <= |s|
    && Announced(s[0]) == n
    && (n >= 2 ==> Second(s[0], s[1]))
    && (n >= 3 ==> Continuation(s[2]))
    && (n == 4 ==> Continuation(s[3]))
  }

  /** How many bytes the first rune takes. */
  function Size(s: seq<byte>): (n: nat)
    requires s != []
    ensures 1 <= n <= |s|
    ensures forall i :: 1 <= i < n ==> s[i] >= 0x80
  {
    if ValidPrefix(s, Announced(s[0])) then Announced(s[0]) else 1
  }

  function First(s: seq<byte>): Rune
    requires s != []
  {
    var n := Announced(s[0]);
    if !ValidPrefix(s, n) then RUNE_ERROR
    else if n == 1 then s[0]
    else if n == 2 then AppendBits(s[0] - 0xC0, s[1])
    else if n == 3 then AppendBits(AppendBits(s[0] - 0xE0, s[1]), s[2])
    else AppendBits(AppendBits(AppendBits(s[0] - 0xF0, s[1]), s[2]), s[3])
  }

  /** Appends the six payload bits of a continuation byte. */
  function AppendBits(high: nat, b: byte): nat
    requires Continuation(b)
  {
    high * 0x40 + (b - 0x80)
  }

  function Decode(s: seq<byte>): seq<Rune> {
    if s == [] then [] else [First(s)] + Decode(s[Size(s)..])
  }

  predicate EndsInAscii(s: seq<byte>) {
    s != [] ==> s[|s| - 1] < 0x80
  }

  lemma FirstStaysInside(a: seq<byte>, b: seq<byte>)
    requires a != [] && EndsInAscii(a)
    ensures Size(a + b) == Size(a) && First(a + b) == First(a)
  {
    var n, s := Announced(a[0]), a + b;
    assert s[0] == a[0];
    if |a| >= 2 { assert s[1] == a[1]; }
    if |a| >= 3 { assert s[2] == a[2]; }
    if |a| >= 4 { assert s[3] == a[3]; }
    if n > |a| {
      assert !ValidPrefix(s, n);
    }
  }

  /** No rune straddles a boundary that follows an ASCII byte. */
  lemma {:induction false} DecodeConcat(a: seq<byte>, b: seq<byte>)
    requires EndsInAscii(a)
    ensures Decode(a + b) == Decode(a) + Decode(b)
  {
    if a == [] {
      assert a + b == b;
    } else {
      hide Decode, Size, First;
      FirstStaysInside(a, b);
      var n := Size(a);
      CutInside(a, b, n);
      DecodeConcat(a[n..], b);
      DecodeStep(a);
      DecodeStep(a + b);
      ConcatAssociative([First(a)], Decode(a[n..]), Decode(b));
    }
  }

  lemma CutInside(a: seq<byte>, b: seq<byte>, n: nat)
    requires n <= |a|
    ensures (a + b)[n..] == a[n..] + b
    ensures EndsInAscii(a) ==> EndsInAscii(a[n..])
  {
  }

  lemma DecodeStep(s: seq<byte>)
    requires s != []
    ensures Decode(s) == [First(s)] + Decode(s[Size(s)..])
  {
  }

  /** An ASCII byte is a rune by itself, wherever it stands at the end. */
  lemma {:induction false} DecodeLast(a: seq<byte>)
    requires a != [] && EndsInAscii(a)
    ensures Decode(a) != [] && Decode(a)[|Decode(a)| - 1] == a[|a| - 1]
  {
    var n := Size(a);
    if n == |a| {
      assert a[n..] == [];
    } else {
      DecodeLast(a[n..]);
    }
  }

  // ----- Decoding undoes encoding (section 3 of RFC 3629) -----

  /** The code points that can be encoded: all but the surrogates. */
  predicate Scalar(r: int) { 0 <= r < 0xD800 || 0xE000 <= r < 0x11_0000 }

  function Low(x: nat): byte { 0x80 + x % 0x40 }

  function Encode(r: Rune): seq<byte>
    requires Scalar(r)
  {
    if r < 0x80 then [r]
    else if r < 0x800 then [0xC0 + r / 0x40, Low(r)]
    else if r < 0x1_0000 then [0xE0 + r / 0x1000, Low(r / 0x40), Low(r)]
    else [0xF0 + r / 0x4_0000, Low(r / 0x1000), Low(r / 0x40), Low(r)]
  }

  lemma SplitBits(r: nat)
    ensures r == r / 0x40 * 0x40 + r % 0x40
    ensures r / 0x40 / 0x40 == r / 0x1000 && r / 0x40 / 0x40 / 0x40 == r / 0x4_0000
  {
  }

  lemma FirstOfTwo(r: Rune, s: seq<byte>)
    requires 0x80 <= r < 0x800
    ensures var e := Encode(r) + s; Size(e) == 2 && First(e) == r
  {
    var e := Encode(r) + s;
    assert e[0] == 0xC0 + r / 0x40 && e[1] == Low(r);
  }

  lemma FirstOfThree(r: Rune, s: seq<byte>)
    requires 0x800 <= r < 0x1_0000 && Scalar(r)
    ensures var e := Encode(r) + s; Size(e) == 3 && First(e) == r
  {
    var e := Encode(r) + s;
    SplitBits(r);
    SplitBits(r / 0x40);
    assert e[0] == 0xE0 + r / 0x1000 && e[1] == Low(r / 0x40) && e[2] == Low(r);
  }

  lemma FirstOfFour(r: Rune, s: seq<byte>)
    requires 0x1_0000 <= r && Scalar(r)
    ensures var e := Encode(r) + s; Size(e) == 4 && First(e) == r
  {
    var e := Encode(r) + s;
    SplitBits(r);
    SplitBits(r / 0x40);
    SplitBits(r / 0x1000);
    assert e[0] == 0xF0 + r / 0x4_0000 && e[1] == Low(r / 0x1000) && e[2] == Low(r / 0x40) && e[3] == Low(r);
  }

  lemma FirstOfEncoded(r: Rune, s: seq<byte>)
    requires Scalar(r)
    ensures var e := Encode(r) + s; Size(e) == |Encode(r)| && First(e) == r
  {
    if r < 0x80 {
      assert (Encode(r) + s)[0] == r;
    } else if r < 0x800 {
      FirstOfTwo(r, s);
    } else if r < 0x1_0000 {
      FirstOfThree(r, s);
    } else {
      FirstOfFour(r, s);
    }
  }

  function EncodeAll(rs: seq<Rune>): seq<byte>
    requires forall i :: 0 <= i < |rs| ==> Scalar(rs[i])
  {
    if rs == [] then [] else Encode(rs[0]) + EncodeAll(rs[1..])
  }

  /** Well-formed text decodes to the code points it encodes. */
  lemma {:induction false} DecodeEncoded(rs: seq<Rune>)
    requires forall i :: 0 <= i < |rs| ==> Scalar(rs[i])
    ensures Decode(EncodeAll(rs)) == rs
  {
    if rs != [] {
      hide Encode, Decode, Size, First;
      var s, rest := EncodeAll(rs), EncodeAll(rs[1..]);
      FirstOfEncoded(rs[0], rest);
      DecodeEncoded(rs[1..]);
      DecodeStep(s);
      assert s[|Encode(rs[0])|..] == rest;
    }
  }

  lemma JoinBits(high: nat, low: nat)
    requires low < 0x40
    ensures (high * 0x40 + low) / 0x40 == high && (high * 0x40 + low) % 0x40 == low
  {
  }

  lemma TwoIsEncoded(s: seq<byte>)
    requires ValidPrefix(s, 2)
    ensures Scalar(First(s)) && Encode(First(s)) == s[..2]
  {
    JoinBits(s[0] - 0xC0, s[1] - 0x80);
  }

  lemma ThreeIsEncoded(s: seq<byte>)
    requires ValidPrefix(s, 3)
    ensures Scalar(First(s)) && Encode(First(s)) == s[..3]
  {
    var r, x := First(s), AppendBits(s[0] - 0xE0, s[1]);
    assert r == AppendBits(x, s[2]);
    JoinBits(s[0] - 0xE0, s[1] - 0x80);
    JoinBits(x, s[2] - 0x80);
    SplitBits(r);
  }

  lemma FourParts(a: nat, b: nat, c: nat, d: nat)
    requires b < 0x40 && c < 0x40 && d < 0x40
    ensures var r := ((a * 0x40 + b) * 0x40 + c) * 0x40 + d;
      r / 0x4_0000 == a && r / 0x1000 % 0x40 == b && r / 0x40 % 0x40 == c && r % 0x40 == d
  {
    var x := a * 0x40 + b;
    var y := x * 0x40 + c;
    JoinBits(a, b);
    JoinBits(x, c);
    JoinBits(y, d);
    SplitBits(y * 0x40 + d);
  }

  lemma FirstIsJoined(s: seq<byte>, a: nat, b: nat, c: nat, d: nat)
    requires ValidPrefix(s, 4)
    requires a == s[0] - 0xF0 && b == s[1] - 0x80 && c == s[2] - 0x80 && d == s[3] - 0x80
    ensures First(s) == ((a * 0x40 + b) * 0x40 + c) * 0x40 + d && 0x1_0000 <= First(s) < 0x11_0000
    ensures b < 0x40 && c < 0x40 && d < 0x40
  {
  }

  lemma FourIsEncoded(s: seq<byte>)
    requires ValidPrefix(s, 4)
    ensures Scalar(First(s)) && Encode(First(s)) == s[..4]
  {
    hide First, ValidPrefix;
    var a, b, c, d := Payload(s);
    FirstIsJoined(s, a, b, c, d);
    FourParts(a, b, c, d);
    assert s[..4] == [s[0], s[1], s[2], s[3]];
  }

  lemma Payload(s: seq<byte>) returns (a: nat, b: nat, c: nat, d: nat)
    requires ValidPrefix(s, 4)
    ensures |s| >= 4 && s[0] == 0xF0 + a && s[1] == 0x80 + b && s[2] == 0x80 + c && s[3] == 0x80 + d
  {
    a, b, c, d := s[0] - 0xF0, s[1] - 0x80, s[2] - 0x80, s[3] - 0x80;
  }

  /** What is decoded as more than the replacement rune is the encoding of it. */
  lemma ValidIsEncoded(s: seq<byte>, n: nat)
    requires s != [] && ValidPrefix(s, n)
    ensures Scalar(First(s)) && Encode(First(s)) == s[..n]
  {
    if n == 2 {
      TwoIsEncoded(s);
    } else if n == 3 {
      ThreeIsEncoded(s);
    } else if n == 4 {
      FourIsEncoded(s);
    } else {
      assert s[..1] == [s[0]];
    }
  }

  ghost predicate Begins(s: seq<byte>, r: int) { Scalar(r) && Encode(r) <= s }

  /** A byte with which no encoding begins is the replacement rune by itself. */
  lemma MalformedByte(s: seq<byte>)
    requires s != [] && forall r :: !Begins(s, r)
    ensures Size(s) == 1 && First(s) == 0xFFFD
  {
    var n := Announced(s[0]);
    if ValidPrefix(s, n) {
      ValidBegins(s, n);
    }
  }

  lemma ValidBegins(s: seq<byte>, n: nat)
    requires s != [] && ValidPrefix(s, n)
    ensures exists r :: Begins(s, r)
  {
    ValidIsEncoded(s, n);
    assert Begins(s, First(s));
  }
}
