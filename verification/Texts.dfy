/** UTF-16 text as ECMAScript holds it, decimal numerals, and the UTF-8 encoding
    of section 3 of RFC 3629 with lone surrogates replaced by U+FFFD. */
module Texts {

  /** A 16-bit code unit; Dafny's `char` has no surrogates, so text is a sequence of these. */
  type Unit = x: int | 0 <= x < 0x10000
  type Byte = x: int | 0 <= x < 256
  type Text = seq<Unit>
  type Bytes = seq<Byte>

  datatype Option<+T> = None | Some(value: T)

  /** The text of an ASCII literal. */
  function Ascii(s: string): (t: Text)
    ensures |t| == |s| && forall i | 0 <= i < |s| && s[i] < 128 as char :: t[i] == s[i] as int
  {
    seq(|s|, i requires 0 <= i < |s| => if s[i] < 128 as char then s[i] as int else 0xFFFD)
  }

  lemma Assoc<T>(a: seq<T>, b: seq<T>, c: seq<T>)
    ensures (a + b) + c == a + (b + c)
  {
  }

  /** A text that begins with `u`: its first unit, and what follows. */
  lemma Prefixed(u: Unit, body: Text, rest: Text)
    ensures var t := ([u] + body) + rest;
            t != [] && t[0] == u && t[1..] == body + rest && t == [u] + (body + rest)
  {
  }

  // ----- decimal numerals -----

  predicate IsDigit(u: int) {
    48 <= u <= 57
  }

  predicate AllDigits(t: seq<int>) {
    forall i | 0 <= i < |t| :: IsDigit(t[i])
  }

  function Dec(n: nat): (t: Text)
    ensures |t| > 0 && AllDigits(t)
  {
    if n < 10 then [48 + n] else Dec(n / 10) + [48 + n % 10]
  }

  function DecValue(t: seq<int>): int {
    if t == [] then 0 else 10 * DecValue(t[..|t| - 1]) + t[|t| - 1] - 48
  }

  lemma {:induction false} DecValueOfDec(n: nat)
    ensures DecValue(Dec(n)) == n
  {
    if n >= 10 {
      DecValueOfDec(n / 10);
      assert Dec(n)[..|Dec(n)| - 1] == Dec(n / 10);
    }
  }

  /** Length of the longest prefix of digits. */
  function DigitCount(t: seq<int>): (k: nat)
    ensures k <= |t|
  {
    if t != [] && IsDigit(t[0]) then 1 + DigitCount(t[1..]) else 0
  }

  lemma {:induction false} DigitCountAppend(d: seq<int>, rest: seq<int>)
    requires AllDigits(d)
    requires rest == [] || !IsDigit(rest[0])
    ensures DigitCount(d + rest) == |d|
  {
    if d == [] {
      assert d + rest == rest;
    } else {
      assert (d + rest)[1..] == d[1..] + rest;
      DigitCountAppend(d[1..], rest);
    }
  }

  // ----- UTF-16 structure -----

  predicate IsHigh(u: int) { 0xD800 <= u < 0xDC00 }

  predicate IsLow(u: int) { 0xDC00 <= u < 0xE000 }

  predicate StartsPair(t: Text) {
    |t| >= 2 && IsHigh(t[0]) && IsLow(t[1])
  }

  function PairPoint(high: int, low: int): int {
    0x10000 + (high - 0xD800) * 0x400 + (low - 0xDC00)
  }

  /** The code point that the first one or two units stand for. */
  function HeadPoint(t: Text): (p: nat)
    requires t != []
    ensures p <= 0x10FFFF && !(0xD800 <= p < 0xE000)
  {
    if StartsPair(t) then PairPoint(t[0], t[1])
    else if IsHigh(t[0]) || IsLow(t[0]) then 0xFFFD
    else t[0]
  }

  function HeadLength(t: Text): (k: nat)
    requires t != []
    ensures 1 <= k <= 2 && k <= |t|
  {
    if StartsPair(t) then 2 else 1
  }

  function Units(p: nat): (t: Text)
    requires p <= 0x10FFFF
    ensures 1 <= |t| <= 2
  {
    if p < 0x10000 then [p] else [0xD800 + (p - 0x10000) / 0x400, 0xDC00 + (p - 0x10000) % 0x400]
  }

  /** `String.prototype.toWellFormed`: what survives of a text once it is encoded. */
  function WellFormed(t: Text): (r: Text) {
    if t == [] then [] else Units(HeadPoint(t)) + WellFormed(t[HeadLength(t)..])
  }

  lemma UnitsOfHead(t: Text)
    requires t != []
    ensures |Units(HeadPoint(t))| == HeadLength(t)
    ensures StartsPair(t) ==> Units(HeadPoint(t)) == t[..2]
    ensures StartsPair(Units(HeadPoint(t))) <==> StartsPair(t)
    ensures !StartsPair(t) ==> !IsHigh(Units(HeadPoint(t))[0]) && !IsLow(Units(HeadPoint(t))[0])
  {
    if StartsPair(t) {
      var v := HeadPoint(t) - 0x10000;
      assert v / 0x400 == t[0] - 0xD800 && v % 0x400 == t[1] - 0xDC00;
    }
  }

  lemma {:induction false} WellFormedLength(t: Text)
    ensures |WellFormed(t)| == |t|
  {
    if t != [] {
      UnitsOfHead(t);
      WellFormedLength(t[HeadLength(t)..]);
    }
  }

  /** A text with no lone surrogate is unchanged; in particular an ASCII one. */
  lemma {:induction false} WellFormedOfPlain(t: Text)
    requires forall i | 0 <= i < |t| :: t[i] < 0xD800
    ensures WellFormed(t) == t
  {
    if t != [] {
      WellFormedOfPlain(t[1..]);
      assert t == [t[0]] + t[1..];
    }
  }

  // ----- UTF-8 -----

  function EncodePoint(p: nat): (b: Bytes)
    requires p <= 0x10FFFF
    ensures 1 <= |b| <= 4
  {
    if p < 0x80 then [p]
    else if p < 0x800 then [0xC0 + p / 64, 0x80 + p % 64]
    else if p < 0x10000 then [0xE0 + p / 4096, 0x80 + p / 64 % 64, 0x80 + p % 64]
    else [0xF0 + p / 262144, 0x80 + p / 4096 % 64, 0x80 + p / 64 % 64, 0x80 + p % 64]
  }

  function Utf8(t: Text): Bytes {
    if t == [] then [] else EncodePoint(HeadPoint(t)) + Utf8(t[HeadLength(t)..])
  }

  predicate IsContinuation(x: int) {
    0x80 <= x < 0xC0
  }

  function Join2(x: int, y: int): int { (x - 0xC0) * 64 + (y - 0x80) }

  function Join3(x: int, y: int, z: int): int { (x - 0xE0) * 4096 + (y - 0x80) * 64 + (z - 0x80) }

  function Join4(x: int, y: int, z: int, w: int): int {
    (x - 0xF0) * 262144 + (y - 0x80) * 4096 + (z - 0x80) * 64 + (w - 0x80)
  }

  /** Reads one code point; the second component is how many bytes it took. */
  function DecodePoint(b: Bytes): (r: Option<(nat, nat)>)
    ensures r.Some? ==> r.value.0 <= 0x10FFFF && 1 <= r.value.1 <= |b|
  {
    if b == [] then None
    else if b[0] < 0x80 then Some((b[0], 1))
    else if 0xC0 <= b[0] < 0xE0 && |b| >= 2 && IsContinuation(b[1]) then
      Some((Join2(b[0], b[1]), 2))
    else if 0xE0 <= b[0] < 0xF0 && |b| >= 3 && IsContinuation(b[1]) && IsContinuation(b[2]) then
      Some((Join3(b[0], b[1], b[2]), 3))
    else if 0xF0 <= b[0] && |b| >= 4 && IsContinuation(b[1]) && IsContinuation(b[2]) && IsContinuation(b[3])
            && Join4(b[0], b[1], b[2], b[3]) <= 0x10FFFF then
      Some((Join4(b[0], b[1], b[2], b[3]), 4))
    else None
  }

  lemma Split3(p: nat)
    requires p < 0x10000
    ensures Join3(0xE0 + p / 4096, 0x80 + p / 64 % 64, 0x80 + p % 64) == p
    ensures p / 4096 < 16
  {
    assert p / 4096 == p / 64 / 64;
  }

  lemma Split4(p: nat)
    requires p <= 0x10FFFF
    ensures Join4(0xF0 + p / 262144, 0x80 + p / 4096 % 64, 0x80 + p / 64 % 64, 0x80 + p % 64) == p
    ensures p / 262144 <= 4
  {
    assert p / 4096 == p / 64 / 64 && p / 262144 == p / 4096 / 64;
  }

  lemma DecodeEncode(p: nat, rest: Bytes)
    requires p <= 0x10FFFF
    ensures DecodePoint(EncodePoint(p) + rest) == Some((p, |EncodePoint(p)|))
  {
    var e := EncodePoint(p);
    var b := e + rest;
    assert forall i | 0 <= i < |e| :: b[i] == e[i];
    if 0x800 <= p < 0x10000 {
      Split3(p);
    } else if p >= 0x10000 {
      Split4(p);
    }
  }

  /** Reads exactly `n` code units of text, and returns the bytes that follow them. */
  function TakeUnits(b: Bytes, n: nat): (r: Option<(Text, Bytes)>)
    decreases n
  {
    if n == 0 then Some(([], b)) else
      match DecodePoint(b)
      case None => None
      case Some(d) =>
        var u := Units(d.0);
        if |u| > n then None else
          match TakeUnits(b[d.1..], n - |u|)
          case None => None
          case Some(q) => Some((u + q.0, q.1))
  }

  /** The prefix counts UTF-16 units and the data is UTF-8; reading it back is still exact. */
  lemma {:induction false} TakeUnitsOfUtf8(t: Text, rest: Bytes)
    ensures TakeUnits(Utf8(t) + rest, |t|) == Some((WellFormed(t), rest))
  {
    if t == [] {
      assert Utf8(t) + rest == rest;
    } else {
      var p, k := HeadPoint(t), HeadLength(t);
      var tail := t[k..];
      assert Utf8(t) + rest == EncodePoint(p) + (Utf8(tail) + rest);
      DecodeEncode(p, Utf8(tail) + rest);
      assert (Utf8(t) + rest)[|EncodePoint(p)|..] == Utf8(tail) + rest;
      UnitsOfHead(t);
      TakeUnitsOfUtf8(tail, rest);
    }
  }

  /** Decodes a whole byte string; unreadable bytes become U+FFFD. */
  function Decode(b: Bytes): Text
    decreases |b|
  {
    if b == [] then [] else
      match DecodePoint(b)
      case None => [0xFFFD] + Decode(b[1..])
      case Some(d) => Units(d.0) + Decode(b[d.1..])
  }

  lemma {:induction false} DecodeOfUtf8(t: Text)
    ensures Decode(Utf8(t)) == WellFormed(t)
  {
    if t != [] {
      var p, tail := HeadPoint(t), t[HeadLength(t)..];
      DecodeEncode(p, Utf8(tail));
      assert Utf8(t)[|EncodePoint(p)|..] == Utf8(tail);
      DecodeOfUtf8(tail);
    }
  }

  lemma {:induction false} Utf8OfWellFormed(t: Text)
    ensures Utf8(WellFormed(t)) == Utf8(t)
  {
    if t != [] {
      var k := HeadLength(t);
      UnitsOfHead(t);
      Utf8OfWellFormed(t[k..]);
      var w, u := WellFormed(t), Units(HeadPoint(t));
      assert w[..k] == u && w[k..] == WellFormed(t[k..]);
      assert HeadPoint(w) == HeadPoint(t) && HeadLength(w) == k by {
        if !StartsPair(t) { assert w[0] == u[0]; }
      }
    }
  }

  /** UTF-8 forgets exactly the difference between a lone surrogate and U+FFFD. */
  lemma Utf8Exact(a: Text, b: Text)
    ensures Utf8(a) == Utf8(b) <==> WellFormed(a) == WellFormed(b)
  {
    DecodeOfUtf8(a);
    DecodeOfUtf8(b);
    Utf8OfWellFormed(a);
    Utf8OfWellFormed(b);
  }

  /** Encoding distributes over a join that does not fall inside a surrogate pair. */
  lemma {:induction false} Utf8Concat(a: Text, b: Text)
    requires b == [] || !IsLow(b[0])
    ensures Utf8(a + b) == Utf8(a) + Utf8(b)
  {
    if a == [] {
      assert a + b == b;
    } else {
      HeadOfConcat(a, b);
      Utf8Concat(a[HeadLength(a)..], b);
    }
  }

  lemma {:induction false} WellFormedConcat(a: Text, b: Text)
    requires b == [] || !IsLow(b[0])
    ensures WellFormed(a + b) == WellFormed(a) + WellFormed(b)
  {
    if a == [] {
      assert a + b == b;
    } else {
      HeadOfConcat(a, b);
      WellFormedConcat(a[HeadLength(a)..], b);
    }
  }

  lemma HeadOfConcat(a: Text, b: Text)
    requires a != []
    requires b == [] || !IsLow(b[0])
    ensures HeadLength(a + b) == HeadLength(a) && HeadPoint(a + b) == HeadPoint(a)
    ensures (a + b)[HeadLength(a)..] == a[HeadLength(a)..] + b
  {
    assert StartsPair(a + b) <==> StartsPair(a);
  }

  lemma {:induction false} Utf8OfAscii(t: Text)
    requires forall i | 0 <= i < |t| :: t[i] < 128
    ensures Utf8(t) == t
  {
    if t != [] {
      Utf8OfAscii(t[1..]);
      assert t == [t[0]] + t[1..];
    }
  }
}
