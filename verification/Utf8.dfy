/**
 Well-formed UTF-8: the byte grammar of section 4 of RFC 3629, which is what the parser checks a
 string field against, and its partner, the encoding of section 3.
 */
module Utf8 {
  import opened Bytes

  // A code point outside the surrogate range.
  type Scalar = n: nat | n < 0xD800 || 0xE000 <= n < 0x11_0000

  predicate Tail(b: Byte) {
    0x80 <= b <= 0xBF
  }

  // The length of the character at the front, zero when there is none.
  function Width(b: seq<Byte>): (k: nat)
    ensures k <= 4 && k <= |b|
  {
    if |b| >= 1 && b[0] <= 0x7F then 1
    else if |b| >= 2 && 0xC2 <= b[0] <= 0xDF && Tail(b[1]) then 2
    else if |b| >= 3 && 0xE0 <= b[0] <= 0xEF && Second3(b[0], b[1]) && Tail(b[2]) then 3
    else if |b| >= 4 && 0xF0 <= b[0] <= 0xF4 && Second4(b[0], b[1]) && Tail(b[2]) && Tail(b[3]) then 4
    else 0
  }

  predicate Second3(lead: Byte, b: Byte) {
    if lead == 0xE0 then 0xA0 <= b <= 0xBF
    else if lead == 0xED then 0x80 <= b <= 0x9F
    else Tail(b)
  }

  predicate Second4(lead: Byte, b: Byte) {
    if lead == 0xF0 then 0x90 <= b <= 0xBF
    else if lead == 0xF4 then 0x80 <= b <= 0x8F
    else Tail(b)
  }

  predicate Valid(b: seq<Byte>) {
    b == [] || (Width(b) > 0 && Valid(b[Width(b)..]))
  }

  // Six bits to a continuation byte, most significant first.
  function EncodeScalar(c: Scalar): (b: seq<Byte>)
    ensures 1 <= |b| <= 4
  {
    if c < 0x80 then [c]
    else if c < 0x800 then [0xC0 + c / 64] + [0x80 + c % 64]
    else if c < 0x1_0000 then [0xE0 + c / 64 / 64] + [0x80 + c / 64 % 64] + [0x80 + c % 64]
    else [0xF0 + c / 64 / 64 / 64] + [0x80 + c / 64 / 64 % 64] + [0x80 + c / 64 % 64] + [0x80 + c % 64]
  }

  function EncodeScalars(cs: seq<Scalar>): seq<Byte> {
    if cs == [] then [] else EncodeScalar(cs[0]) + EncodeScalars(cs[1..])
  }

  function Extend(n: nat, b: Byte): nat
    requires Tail(b)
  {
    64 * n + (b - 0x80)
  }

  // The code point at the front of a string whose front character has a width.
  function ScalarAt(b: seq<Byte>): (c: Scalar)
    requires Width(b) > 0
  {
    match Width(b)
    case 1 => b[0]
    case 2 => Extend(b[0] - 0xC0, b[1])
    case 3 => Extend(Extend(b[0] - 0xE0, b[1]), b[2])
    case _ => Extend(Extend(Extend(b[0] - 0xF0, b[1]), b[2]), b[3])
  }

  function Scalars(b: seq<Byte>): seq<Scalar>
    requires Valid(b)
  {
    if b == [] then [] else [ScalarAt(b)] + Scalars(b[Width(b)..])
  }

  lemma WidthEncode(c: Scalar, t: seq<Byte>)
    ensures Width(EncodeScalar(c) + t) == |EncodeScalar(c)|
  {
  }

  lemma ExtendParts(n: nat, b: Byte)
    requires Tail(b)
    ensures Extend(n, b) / 64 == n && 0x80 + Extend(n, b) % 64 == b
  {
  }

  lemma EncodeScalarAt(b: seq<Byte>)
    requires Width(b) > 0
    ensures EncodeScalar(ScalarAt(b)) == b[..Width(b)]
  {
    match Width(b)
    case 1 =>
    case 2 => ExtendParts(b[0] - 0xC0, b[1]);
    case 3 =>
      var n := Extend(b[0] - 0xE0, b[1]);
      ExtendParts(b[0] - 0xE0, b[1]);
      ExtendParts(n, b[2]);
    case _ =>
      var n := Extend(b[0] - 0xF0, b[1]);
      ExtendParts(b[0] - 0xF0, b[1]);
      ExtendParts(n, b[2]);
      ExtendParts(Extend(n, b[2]), b[3]);
  }

  /** Every sequence of code points encodes to a valid string. */
  lemma {:induction false} EncodedIsValid(cs: seq<Scalar>)
    ensures Valid(EncodeScalars(cs))
  {
    if cs != [] {
      var e, rest := EncodeScalar(cs[0]), EncodeScalars(cs[1..]);
      WidthEncode(cs[0], rest);
      assert (e + rest)[|e|..] == rest;
      EncodedIsValid(cs[1..]);
    }
  }

  lemma EncodeCons(c: Scalar, cs: seq<Scalar>)
    ensures EncodeScalars([c] + cs) == EncodeScalar(c) + EncodeScalars(cs)
  {
    assert ([c] + cs)[1..] == cs;
  }

  /** Every valid string is the encoding of the code points read off it. */
  lemma {:induction false} ValidIsEncoded(b: seq<Byte>)
    requires Valid(b)
    ensures EncodeScalars(Scalars(b)) == b
  {
    if b != [] {
      EncodeScalarAt(b);
      EncodeCons(ScalarAt(b), Scalars(b[Width(b)..]));
      ValidIsEncoded(b[Width(b)..]);
    }
  }

  /** The grammar accepts exactly the encodings of sequences of code points. */
  lemma ValidIff(b: seq<Byte>)
    ensures Valid(b) <==> exists cs: seq<Scalar> :: EncodeScalars(cs) == b
  {
    if Valid(b) { ValidIsEncoded(b); }
    if cs: seq<Scalar> :| EncodeScalars(cs) == b { EncodedIsValid(cs); }
  }

  // ---------------------------------------------------------------- the bounds, written out

  /** One byte is valid below 128; two are a character exactly when a lead from C2 to DF meets a tail. */
  lemma ShortStrings(x: Byte, y: Byte)
    ensures Valid([x]) <==> x < 0x80
    ensures Valid([x, y]) <==> (x < 0x80 && y < 0x80) || (0xC2 <= x <= 0xDF && 0x80 <= y <= 0xBF)
  {
    assert [x][1..] == [] && [x, y][1..] == [y] && [x, y][2..] == [] && [y][1..] == [];
    assert Valid([y]) <==> y < 0x80;
  }

  /** A three-byte character is any from U+0800 to U+FFFF outside the surrogates, a four-byte character any
      from U+10000 to U+10FFFF, each with the bits of its bytes in order. */
  lemma LongCharacters(x: Byte, y: Byte, z: Byte, w: Byte)
    ensures Width([x, y, z]) == 3 <==>
              && 0xE0 <= x <= 0xEF && 0x80 <= y <= 0xBF && 0x80 <= z <= 0xBF
              && var c := (x - 0xE0) * 4096 + (y - 0x80) * 64 + (z - 0x80);
                 0x800 <= c && !(0xD800 <= c <= 0xDFFF)
    ensures Width([x, y, z, w]) == 4 <==>
              && 0xF0 <= x <= 0xF7 && 0x80 <= y <= 0xBF && 0x80 <= z <= 0xBF && 0x80 <= w <= 0xBF
              && var c := (x - 0xF0) * 262144 + (y - 0x80) * 4096 + (z - 0x80) * 64 + (w - 0x80);
                 0x10000 <= c <= 0x10FFFF
  {
  }

  /** Text in ASCII is valid as it stands. */
  lemma {:induction false} AsciiIsValid(b: seq<Byte>)
    requires forall i :: 0 <= i < |b| ==> b[i] < 0x80
    ensures Valid(b)
  {
    if b != [] { AsciiIsValid(b[1..]); }
  }

  /** Characters of one, two, three and four bytes from the examples of section 7 of RFC 3629. */
  lemma Examples()
    ensures EncodeScalar(0x41) == [0x41] && EncodeScalar(0x391) == [0xCE, 0x91]
    ensures EncodeScalar(0x2262) == [0xE2, 0x89, 0xA2] && EncodeScalar(0x233B4) == [0xF0, 0xA3, 0x8E, 0xB4]
  {
  }
}
