/** UTF-8 text, as section 3 of RFC 3629 lays it out, and the same text in UTF-16, as sections 2.1 and
    2.2 of RFC 2781 do. */
module Utf {
  type Byte = b: int | 0 <= b < 256

  /** A Unicode scalar value: a code point that is not a surrogate. */
  type Scalar = c: int | 0 <= c < 0x110000 && !(0xD800 <= c < 0xE000)

  const NEWLINE: Byte := 10
  const REPLACEMENT: Scalar := 0xFFFD

  function Len8(c: Scalar): nat {
    if c < 0x80 then 1 else if c < 0x800 then 2 else if c < 0x10000 then 3 else 4
  }

  function Len16(c: Scalar): nat {
    if c < 0x10000 then 1 else 2
  }

  function Encode1(c: Scalar): (bs: seq<Byte>)
    ensures |bs| == Len8(c)
  {
    if c < 0x80 then [c]
    else if c < 0x800 then [0xC0 + c / 64, 0x80 + c % 64]
    else if c < 0x10000 then [0xE0 + c / 4096, 0x80 + c / 64 % 64, 0x80 + c % 64]
    else [0xF0 + c / 262144, 0x80 + c / 4096 % 64, 0x80 + c / 64 % 64, 0x80 + c % 64]
  }

  function Encode(cs: seq<Scalar>): seq<Byte> {
    if cs == [] then [] else Encode1(cs[0]) + Encode(cs[1..])
  }

  predicate IsContinuation(b: Byte) {
    0x80 <= b < 0xC0
  }

  /** The test behind `str::is_char_boundary`. */
  predicate IsBoundary(bs: seq<Byte>, i: nat) {
    i == 0 || i == |bs| || (i < |bs| && !IsContinuation(bs[i]))
  }

  /** How many bytes a character takes, by its first byte. */
  function LeadLen(b: Byte): (n: nat)
    ensures n > 0
  {
    if b < 0xC0 then 1 else if b < 0xE0 then 2 else if b < 0xF0 then 3 else 4
  }

  /** The character at the front of `bs`. */
  function Decode1(bs: seq<Byte>): Scalar
    requires bs != [] && LeadLen(bs[0]) <= |bs|
  {
    var c: int := if bs[0] < 0xC0 then bs[0] as int
             else if bs[0] < 0xE0 then (bs[0] as int - 0xC0) * 64 + (bs[1] as int - 0x80)
             else if bs[0] < 0xF0 then (bs[0] as int - 0xE0) * 4096 + (bs[1] as int - 0x80) * 64 + (bs[2] as int - 0x80)
             else (bs[0] as int - 0xF0) * 262144 + (bs[1] as int - 0x80) * 4096
                  + (bs[2] as int - 0x80) * 64 + (bs[3] as int - 0x80);
    if 0 <= c < 0xD800 || 0xE000 <= c < 0x110000 then c else REPLACEMENT
  }

  /** The characters of a slice of UTF-8 text. */
  function Chars(bs: seq<Byte>): seq<Scalar> {
    if bs == [] then []
    else if LeadLen(bs[0]) > |bs| then [REPLACEMENT]
    else [Decode1(bs)] + Chars(bs[LeadLen(bs[0])..])
  }

  /** The base-64 digits of a number below 2^21 give it back. */
  lemma Digits(c: nat)
    requires c < 0x110000
    ensures c == c / 64 * 64 + c % 64
    ensures c == c / 4096 * 4096 + c / 64 % 64 * 64 + c % 64
    ensures c == c / 262144 * 262144 + c / 4096 % 64 * 4096 + c / 64 % 64 * 64 + c % 64
    ensures c < 0x800 ==> c / 64 < 32
    ensures c < 0x10000 ==> c / 4096 < 16
    ensures c / 262144 < 5
  {
    assert c / 64 == c / 4096 * 64 + c / 64 % 64;
    assert c / 4096 == c / 262144 * 64 + c / 4096 % 64;
  }

  lemma Decode1Inverts(c: Scalar, rest: seq<Byte>)
    ensures var bs := Encode1(c) + rest; LeadLen(bs[0]) == Len8(c) && Decode1(bs) == c && bs[Len8(c)..] == rest
  {
    Digits(c);
    var e, bs := Encode1(c), Encode1(c) + rest;
    assert bs[0] == e[0];
    assert |e| >= 2 ==> bs[1] == e[1];
    assert |e| >= 3 ==> bs[2] == e[2];
    assert |e| >= 4 ==> bs[3] == e[3];
  }

  /** Decoding undoes encoding. */
  lemma {:induction false} CharsInvertsEncode(cs: seq<Scalar>)
    ensures Chars(Encode(cs)) == cs
  {
    if cs != [] {
      Decode1Inverts(cs[0], Encode(cs[1..]));
      CharsInvertsEncode(cs[1..]);
    }
  }

  lemma {:induction false} EncodeAppend(a: seq<Scalar>, b: seq<Scalar>)
    ensures Encode(a + b) == Encode(a) + Encode(b)
  {
    if a == [] {
      assert a + b == b;
    } else {
      assert (a + b)[1..] == a[1..] + b;
      EncodeAppend(a[1..], b);
    }
  }

  /** The byte offset of the `k`-th character. */
  function Off(cs: seq<Scalar>, k: nat): nat
    requires k <= |cs|
  {
    |Encode(cs[..k])|
  }

  /** The bytes of the text around its `k`-th character. */
  lemma SplitAt(cs: seq<Scalar>, k: nat)
    requires k < |cs|
    ensures Encode(cs) == Encode(cs[..k]) + (Encode1(cs[k]) + Encode(cs[k + 1..]))
    ensures Off(cs, k + 1) == Off(cs, k) + Len8(cs[k])
  {
    hide Encode1, Encode;
    Split(cs, k);
    EncodeAppend(cs[..k], cs[k..]);
    EncodeCons(cs[k..]);
    EncodeAppend(cs[..k], [cs[k]]);
    EncodeCons([cs[k]]);
    EncodeNil();
  }

  lemma Split(cs: seq<Scalar>, k: nat)
    requires k < |cs|
    ensures cs == cs[..k] + cs[k..] && cs[k..][1..] == cs[k + 1..] && cs[..k + 1] == cs[..k] + [cs[k]]
    ensures cs[k..][0] == cs[k] && [cs[k]][1..] == []
  {
  }

  lemma EncodeCons(cs: seq<Scalar>)
    requires cs != []
    ensures Encode(cs) == Encode1(cs[0]) + Encode(cs[1..])
  {
  }

  lemma EncodeNil()
    ensures Encode([]) == []
  {
  }

  // ---------------------------------------------------------------------------------------
  // UTF-16.
  // ---------------------------------------------------------------------------------------

  type CodeUnit = u: int | 0 <= u < 0x10000

  predicate IsHighSurrogate(u: CodeUnit) {
    0xD800 <= u < 0xDC00
  }

  predicate IsLowSurrogate(u: CodeUnit) {
    0xDC00 <= u < 0xE000
  }

  /** A character as one code unit, or as a high and a low surrogate that share its twenty bits. */
  function Units1(c: Scalar): seq<CodeUnit> {
    if c < 0x10000 then [c] else [0xD800 + (c - 0x10000) / 1024, 0xDC00 + (c - 0x10000) % 1024]
  }

  function Utf16(cs: seq<Scalar>): seq<CodeUnit> {
    if cs == [] then [] else Utf16(cs[..|cs| - 1]) + Units1(cs[|cs| - 1])
  }

  predicate EndsInPair(us: seq<CodeUnit>) {
    |us| >= 2 && IsHighSurrogate(us[|us| - 2]) && IsLowSurrogate(us[|us| - 1])
  }

  /** What code units spell, surrogates taken in pairs; a lone one is replaced. */
  function Utf16Chars(us: seq<CodeUnit>): seq<Scalar> {
    if us == [] then []
    else if EndsInPair(us) then
      Utf16Chars(us[..|us| - 2]) + [0x10000 + (us[|us| - 2] - 0xD800) * 1024 + (us[|us| - 1] - 0xDC00)]
    else
      var u: int := us[|us| - 1];
      Utf16Chars(us[..|us| - 1]) + [if 0xD800 <= u < 0xE000 then REPLACEMENT else u]
  }

  /** The code's count of a character's units, and what they are. */
  lemma UnitsOfChar(c: Scalar)
    ensures |Units1(c)| == Len16(c)
    ensures if c < 0x10000 then Units1(c) == [c] && !(0xD800 <= c < 0xE000)
            else IsHighSurrogate(Units1(c)[0]) && IsLowSurrogate(Units1(c)[1])
  {
  }

  lemma LastOfUtf16(us: seq<CodeUnit>, c: Scalar)
    ensures Utf16Chars(us + Units1(c)) == Utf16Chars(us) + [c]
  {
    UnitsOfChar(c);
    var all, u := us + Units1(c), Units1(c);
    assert all[..|us|] == us && all[|all| - 1] == u[|u| - 1];
    if c >= 0x10000 {
      assert all[|all| - 2] == u[0];
      var d: nat := c - 0x10000;
      assert d == d / 1024 * 1024 + d % 1024;
    }
  }

  /** Decoding the UTF-16 of a text gives it back, so no two texts share theirs. */
  lemma {:induction false} Utf16CharsInverts(cs: seq<Scalar>)
    ensures Utf16Chars(Utf16(cs)) == cs
  {
    hide Utf16Chars, Units1;
    if cs == [] {
      NoUnits();
    } else {
      Utf16CharsInverts(cs[..|cs| - 1]);
      LastOfUtf16(Utf16(cs[..|cs| - 1]), cs[|cs| - 1]);
    }
  }

  lemma NoUnits()
    ensures Utf16Chars([]) == [] == Utf16([])
  {
  }

  /** A slice between two character boundaries holds the characters between them. */
  lemma SliceChars(cs: seq<Scalar>, i: nat, j: nat)
    requires i <= j <= |cs|
    ensures Off(cs, i) <= Off(cs, j) <= |Encode(cs)|
    ensures Chars(Encode(cs)[Off(cs, i)..Off(cs, j)]) == cs[i..j]
  {
    assert cs == cs[..j] + cs[j..] && cs[..j] == cs[..i] + cs[i..j];
    EncodeAppend(cs[..j], cs[j..]);
    EncodeAppend(cs[..i], cs[i..j]);
    assert Encode(cs)[Off(cs, i)..Off(cs, j)] == Encode(cs[i..j]);
    CharsInvertsEncode(cs[i..j]);
  }

  lemma {:induction false} OffIsMonotone(cs: seq<Scalar>, i: nat, j: nat)
    requires i <= j <= |cs|
    ensures Off(cs, i) + (j - i) <= Off(cs, j) <= |Encode(cs)|
    decreases j - i
  {
    if i == j {
      SliceChars(cs, i, j);
    } else {
      SplitAt(cs, j - 1);
      OffIsMonotone(cs, i, j - 1);
      SliceChars(cs, j, j);
    }
  }

  lemma OffEnds(cs: seq<Scalar>)
    ensures Off(cs, 0) == 0 && Off(cs, |cs|) == |Encode(cs)|
  {
    assert cs[..|cs|] == cs;
  }

  /** The character that the byte at `i` belongs to. */
  function CharAt(cs: seq<Scalar>, i: nat): (k: nat)
    requires i < |Encode(cs)|
    ensures k < |cs| && Off(cs, k) <= i < Off(cs, k + 1)
  {
    CharFrom(cs, 0, i)
  }

  function CharFrom(cs: seq<Scalar>, k: nat, i: nat): (r: nat)
    requires k <= |cs| && Off(cs, k) <= i < |Encode(cs)|
    ensures r < |cs| && Off(cs, r) <= i < Off(cs, r + 1)
    decreases |cs| - k
  {
    OffEnds(cs);
    if i < Off(cs, k + 1) then k else CharFrom(cs, k + 1, i)
  }

  /** The boundary at or before `i`, as a number of characters. */
  function FloorChar(cs: seq<Scalar>, i: nat): (k: nat)
    ensures k <= |cs| && Off(cs, k) <= i
    ensures k < |cs| ==> i < Off(cs, k + 1)
  {
    OffEnds(cs);
    if i < |Encode(cs)| then CharAt(cs, i) else |cs|
  }

  /** The `k`-th character's bytes: its first is not a continuation, the others are; and a newline
      byte is a newline. */
  lemma BytesOfChar(cs: seq<Scalar>, k: nat)
    requires k < |cs|
    ensures Off(cs, k) < Off(cs, k + 1) <= |Encode(cs)|
    ensures !IsContinuation(Encode(cs)[Off(cs, k)])
    ensures Encode(cs)[Off(cs, k)] < 0x80 <==> Len8(cs[k]) == 1
    ensures forall i :: Off(cs, k) < i < Off(cs, k + 1) ==> IsContinuation(Encode(cs)[i])
    ensures forall i :: Off(cs, k) <= i < Off(cs, k + 1) ==> (Encode(cs)[i] == NEWLINE <==> cs[k] == NEWLINE)
  {
    SplitAt(cs, k);
    var bs, o, e := Encode(cs), Off(cs, k), Encode1(cs[k]);
    forall i | o <= i < o + |e| ensures bs[i] == e[i - o] {
    }
  }

  /** The boundaries of the text are the offsets of its characters and its end. */
  lemma BoundaryMeansOffset(cs: seq<Scalar>, i: nat)
    requires i <= |Encode(cs)|
    ensures IsBoundary(Encode(cs), i) <==> Off(cs, FloorChar(cs, i)) == i
  {
    OffEnds(cs);
    var k := FloorChar(cs, i);
    if k < |cs| { BytesOfChar(cs, k); }
  }
}
