/**
 Base64 after section 4 of RFC 4648. Decoding accepts canonical texts only, those an encoder can have
 produced.
 */
module Base64 {
  import opened Options
  import opened Bytes

  type Sextet = n: nat | n < 64

  function Symbol(n: Sextet): char {
    if n < 26 then 'A' + n as char
    else if n < 52 then 'a' + (n - 26) as char
    else if n < 62 then '0' + (n - 52) as char
    else if n == 62 then '+'
    else '/'
  }

  // -1 for anything outside the alphabet, padding included.
  function Value(c: char): (v: int)
    ensures -1 <= v < 64
  {
    if 'A' <= c <= 'Z' then (c - 'A') as int
    else if 'a' <= c <= 'z' then (c - 'a') as int + 26
    else if '0' <= c <= '9' then (c - '0') as int + 52
    else if c == '+' then 62
    else if c == '/' then 63
    else -1
  }

  lemma SymbolValue(n: Sextet)
    ensures Value(Symbol(n)) == n && Symbol(n) != '='
  {
  }

  lemma ValueSymbol(c: char)
    requires Value(c) >= 0
    ensures Symbol(Value(c)) == c
  {
  }

  // ---------------------------------------------------------------- one group of four symbols

  // The first k bytes of a group, the missing ones zero.
  function Quad(x: Byte, y: Byte, z: Byte, k: nat): (s: string)
    requires 1 <= k <= 3
    ensures |s| == 4
  {
    [Symbol(x / 4), Symbol(x % 4 * 16 + y / 16),
     if k == 1 then '=' else Symbol(y % 16 * 4 + z / 64),
     if k < 3 then '=' else Symbol(z % 64)]
  }

  // How many bytes a group holds, zero for none; and the bytes.
  function Count(s: string): (k: nat)
    requires |s| == 4
    ensures k <= 3
  {
    if Value(s[0]) < 0 || Value(s[1]) < 0 then 0
    else if s[3] != '=' then if Value(s[2]) < 0 || Value(s[3]) < 0 then 0 else 3
    else if s[2] != '=' then if Value(s[2]) < 0 || Value(s[2]) % 4 != 0 then 0 else 2
    else if Value(s[1]) % 16 != 0 then 0 else 1
  }

  function Unpadded(s: string): (b: seq<Byte>)
    requires |s| == 4 && Count(s) > 0
    ensures |b| == Count(s)
  {
    var v0, v1 := Value(s[0]), Value(s[1]);
    if Count(s) == 1 then [v0 * 4 + v1 / 16]
    else if Count(s) == 2 then [v0 * 4 + v1 / 16, v1 % 16 * 16 + Value(s[2]) / 4]
    else [v0 * 4 + v1 / 16, v1 % 16 * 16 + Value(s[2]) / 4, Value(s[2]) % 4 * 64 + Value(s[3])]
  }

  function Padded(b: seq<Byte>): string
    requires 1 <= |b| <= 3
  {
    Quad(b[0], if |b| > 1 then b[1] else 0, if |b| > 2 then b[2] else 0, |b|)
  }

  // Three bytes cut into four sextets and regrouped.
  lemma Ungroup(x: Byte, y: Byte, z: Byte)
    ensures
      var (v0, v1, v2, v3) := (x / 4, x % 4 * 16 + y / 16, y % 16 * 4 + z / 64, z % 64);
      && v0 < 64 && v1 < 64 && v2 < 64
      && v0 * 4 + v1 / 16 == x && v1 % 16 * 16 + v2 / 4 == y && v2 % 4 * 64 + v3 == z
  {
  }

  lemma QuadValues(x: Byte, y: Byte, z: Byte, k: nat)
    requires 1 <= k <= 3
    ensures
      var s := Quad(x, y, z, k);
      && Value(s[0]) == x / 4 && Value(s[1]) == x % 4 * 16 + y / 16
      && (if k == 1 then s[2] == '=' else s[2] != '=' && Value(s[2]) == y % 16 * 4 + z / 64)
      && (if k < 3 then s[3] == '=' else s[3] != '=' && Value(s[3]) == z % 64)
  {
    Ungroup(x, y, z);
    SymbolValue(x / 4);
    SymbolValue(x % 4 * 16 + y / 16);
    SymbolValue(y % 16 * 4 + z / 64);
    SymbolValue(z % 64);
  }

  lemma QuadBytes(b: seq<Byte>)
    requires 1 <= |b| <= 3
    ensures Count(Padded(b)) == |b| && Unpadded(Padded(b)) == b
  {
    if |b| == 3 { QuadBytesFull(b[0], b[1], b[2]); } else { QuadBytesPadded(b); }
  }

  lemma QuadBytesFull(x: Byte, y: Byte, z: Byte)
    ensures Count(Padded([x, y, z])) == 3 && Unpadded(Padded([x, y, z])) == [x, y, z]
  {
    Ungroup(x, y, z);
    QuadValues(x, y, z, 3);
  }

  lemma QuadBytesPadded(b: seq<Byte>)
    requires 1 <= |b| <= 2
    ensures Count(Padded(b)) == |b| && Unpadded(Padded(b)) == b
  {
    var y: Byte := if |b| > 1 then b[1] else 0;
    Ungroup(b[0], y, 0);
    QuadValues(b[0], y, 0, |b|);
  }

  // Four sextets regrouped into three bytes and back.
  lemma Regroup(v0: Sextet, v1: Sextet, v2: Sextet, v3: Sextet)
    ensures
      var (x, y, z) := (v0 * 4 + v1 / 16, v1 % 16 * 16 + v2 / 4, v2 % 4 * 64 + v3);
      && x < 0x100 && y < 0x100 && z < 0x100
      && x / 4 == v0 && x % 4 * 16 + y / 16 == v1 && y % 16 * 4 + z / 64 == v2 && z % 64 == v3
  {
  }

  lemma QuadOfSextets(v0: Sextet, v1: Sextet, v2: Sextet, v3: Sextet, x: Byte, y: Byte, z: Byte)
    requires x == v0 * 4 + v1 / 16 && y == v1 % 16 * 16 + v2 / 4 && z == v2 % 4 * 64 + v3
    ensures Quad(x, y, z, 3) == [Symbol(v0), Symbol(v1), Symbol(v2), Symbol(v3)]
  {
    Regroup(v0, v1, v2, v3);
  }

  lemma BytesQuadFull(s: string)
    requires |s| == 4 && Count(s) == 3
    ensures Padded(Unpadded(s)) == s
  {
    var b := Unpadded(s);
    QuadOfSextets(Value(s[0]), Value(s[1]), Value(s[2]), Value(s[3]), b[0], b[1], b[2]);
    ValueSymbol(s[0]);
    ValueSymbol(s[1]);
    ValueSymbol(s[2]);
    ValueSymbol(s[3]);
  }

  lemma BytesQuadPadded(s: string)
    requires |s| == 4 && 1 <= Count(s) <= 2
    ensures Padded(Unpadded(s)) == s
  {
    Regroup(Value(s[0]), Value(s[1]), if Count(s) == 2 then Value(s[2]) else 0, 0);
    ValueSymbol(s[0]);
    ValueSymbol(s[1]);
    if Count(s) == 2 { ValueSymbol(s[2]); }
  }

  lemma BytesQuad(s: string)
    requires |s| == 4 && Count(s) > 0
    ensures Padded(Unpadded(s)) == s
  {
    if Count(s) == 3 { BytesQuadFull(s); } else { BytesQuadPadded(s); }
  }

  // ---------------------------------------------------------------- whole texts

  function Encode(b: seq<Byte>): string {
    if b == [] then "" else if |b| <= 3 then Padded(b) else Padded(b[..3]) + Encode(b[3..])
  }

  // Padding may only end a text.
  function Decode(s: string): Option<seq<Byte>> {
    if s == "" then Some([])
    else if |s| < 4 || Count(s[..4]) == 0 then None
    else if |s| == 4 then Some(Unpadded(s))
    else if Count(s[..4]) < 3 then None
    else
      match Decode(s[4..])
      case None => None
      case Some(b) => Some(Unpadded(s[..4]) + b)
  }

  /** Every byte string, embedded zeros included, comes back from its text. */
  lemma {:induction false} DecodeEncode(b: seq<Byte>)
    ensures Decode(Encode(b)) == Some(b)
  {
    if 0 < |b| <= 3 {
      QuadBytes(b);
      assert Encode(b)[..4] == Encode(b);
    } else if |b| > 3 {
      var s, rest := Padded(b[..3]), Encode(b[3..]);
      QuadBytes(b[..3]);
      DecodeEncode(b[3..]);
      EncodeNonempty(b[3..]);
      assert (s + rest)[..4] == s && (s + rest)[4..] == rest;
      assert b[..3] + b[3..] == b;
    }
  }

  lemma EncodeNonempty(b: seq<Byte>)
    requires b != []
    ensures |Encode(b)| >= 4
  {
  }

  /** A canonical text is the one its bytes encode to. */
  lemma {:induction false} EncodeDecode(s: string)
    requires Decode(s).Some?
    ensures Encode(Decode(s).value) == s
  {
    if s != "" {
      var q := s[..4];
      BytesQuad(q);
      if |s| == 4 {
        assert q == s;
      } else {
        EncodeDecode(s[4..]);
        var b := Decode(s[4..]).value;
        assert (Unpadded(q) + b)[..3] == Unpadded(q) && (Unpadded(q) + b)[3..] == b;
        assert b != [];
      }
    }
  }

  /** The texts the decoder accepts. */
  predicate Canonical(s: string) {
    Decode(s).Some?
  }

  /** They are exactly the texts of byte strings. */
  lemma CanonicalIff(s: string)
    ensures Canonical(s) <==> exists b: seq<Byte> :: Encode(b) == s
  {
    if Canonical(s) { EncodeDecode(s); }
    if b: seq<Byte> :| Encode(b) == s { DecodeEncode(b); }
  }

  // ---------------------------------------------------------------- the notation, written out

  const UPPER := "ABCDEFGHIJKLMNOPQRSTUVWXYZ"
  const LOWER := "abcdefghijklmnopqrstuvwxyz"
  const FIGURES := "0123456789"
  const ALPHABET := UPPER + (LOWER + (FIGURES + "+/"))

  /** The symbols are those of the alphabet, in its order, and no other character is one. */
  lemma AlphabetIs(n: Sextet, c: char)
    ensures |ALPHABET| == 64 && Symbol(n) == ALPHABET[n]
    ensures Value(c) >= 0 <==> c in ALPHABET
    ensures Value(c) >= 0 ==> ALPHABET[Value(c)] == c
  {
    if Value(c) >= 0 {
      ValueSymbol(c);
      AlphabetSymbol(Value(c));
    }
    if c in ALPHABET {
      var k :| 0 <= k < |ALPHABET| && ALPHABET[k] == c;
      AlphabetSymbol(k);
      SymbolValue(k);
    }
    AlphabetSymbol(n);
  }

  lemma LetterIs(n: nat)
    requires n < 26
    ensures UPPER[n] == 'A' + n as char && LOWER[n] == 'a' + n as char
  {
    assert forall k :: 0 <= k < 26 ==> UPPER[k] == 'A' + k as char;
    assert forall k :: 0 <= k < 26 ==> LOWER[k] == 'a' + k as char;
  }

  lemma FigureIs(n: nat)
    requires n < 12
    ensures (FIGURES + "+/")[n] == if n < 10 then '0' + n as char else if n == 10 then '+' else '/'
  {
    assert forall k :: 0 <= k < 10 ==> FIGURES[k] == '0' + k as char;
  }

  lemma AlphabetSymbol(n: Sextet)
    ensures Symbol(n) == ALPHABET[n]
  {
    if n < 26 {
      LetterIs(n);
      assert ALPHABET[n] == UPPER[n];
    } else if n < 52 {
      LetterIs(n - 26);
      assert ALPHABET[n] == LOWER[n - 26];
    } else {
      FigureIs(n - 52);
      assert ALPHABET[n] == (FIGURES + "+/")[n - 52];
    }
  }

  /** Four symbols are the 24 bits of three bytes, most significant first; one byte leaves two symbols and
      two signs of padding, two bytes leave three symbols and one. */
  lemma GroupBits(x: Byte, y: Byte, z: Byte)
    ensures
      var s := Encode([x, y, z]);
      && |s| == 4
      && ((Value(s[0]) * 64 + Value(s[1])) * 64 + Value(s[2])) * 64 + Value(s[3]) == (x * 256 + y) * 256 + z
    ensures
      var s := Encode([x, y]);
      && |s| == 4 && s[3] == '='
      && (Value(s[0]) * 64 + Value(s[1])) * 64 + Value(s[2]) == (x * 256 + y) * 4
    ensures
      var s := Encode([x]);
      && |s| == 4 && s[2] == s[3] == '='
      && Value(s[0]) * 64 + Value(s[1]) == x * 16
  {
    QuadValues(x, y, z, 3);
    QuadValues(x, y, 0, 2);
    QuadValues(x, 0, 0, 1);
    Ungroup(x, y, z);
    Ungroup(x, y, 0);
    Ungroup(x, 0, 0);
  }

  /** Longer texts are those of the groups of three bytes one after the other. */
  lemma EncodeGroup(g: seq<Byte>, b: seq<Byte>)
    requires |g| == 3
    ensures Encode(g + b) == Encode(g) + Encode(b)
  {
    if b == [] {
      assert g + b == g;
    } else {
      assert (g + b)[..3] == g && (g + b)[3..] == b;
    }
  }
}
