/**
 The Protocol Buffers wire format, after the sections "Base 128 Varints", "Message Structure",
 "Length-Delimited Records" and "Groups" of the Protocol Buffers Encoding specification:
 encoders for fields of any type and the reader that skips a field into the unknown set.
 */
module Wire {
  import opened Bytes

  const TWO32 := 0x1_0000_0000
  const TWO64 := 0x1_0000_0000_0000_0000

  // The largest size a string may claim is one less than this.
  const MAX_SIZE := 0x8000_0000

  datatype Read<+T> = Bad | Got(value: T, rest: seq<Byte>)

  // ---------------------------------------------------------------- varints

  function Varint(n: nat): (b: seq<Byte>)
    ensures b != []
  {
    if n < 128 then [n] else [n % 128 + 128] + Varint(n / 128)
  }

  // Least significant group first, at most `budget` bytes.
  function ReadGroups(b: seq<Byte>, budget: nat): (r: Read<nat>)
    ensures r.Got? ==> |r.rest| < |b|
  {
    if b == [] || budget == 0 then Bad
    else if b[0] < 128 then Got(b[0], b[1..])
    else
      match ReadGroups(b[1..], budget - 1)
      case Bad => Bad
      case Got(n, rest) => Got(b[0] - 128 + 128 * n, rest)
  }

  // At most ten bytes; bits above the 64th are dropped.
  function ReadVarint64(b: seq<Byte>): (r: Read<nat>)
    ensures r.Got? ==> r.value < TWO64 && |r.rest| < |b|
  {
    match ReadGroups(b, 10)
    case Bad => Bad
    case Got(n, rest) => Got(n % TWO64, rest)
  }

  function ReadVarint32(b: seq<Byte>): (r: Read<nat>)
    ensures r.Got? ==> r.value < TWO32 && |r.rest| < |b|
  {
    match ReadGroups(b, 10)
    case Bad => Bad
    case Got(n, rest) => Got(n % TWO32, rest)
  }

  function Power128(k: nat): nat {
    if k == 0 then 1 else 128 * Power128(k - 1)
  }

  lemma {:induction false} ReadGroupsVarint(n: nat, budget: nat, t: seq<Byte>)
    requires budget > 0 && n < Power128(budget)
    ensures ReadGroups(Varint(n) + t, budget) == Got(n, t)
  {
    var b := Varint(n) + t;
    if n < 128 {
      assert b[1..] == t;
    } else {
      assert budget > 1;
      assert n / 128 < Power128(budget - 1);
      ReadGroupsVarint(n / 128, budget - 1, t);
      assert b[1..] == Varint(n / 128) + t;
    }
  }

  lemma Power128Ten()
    ensures TWO64 <= Power128(10)
  {
    assert Power128(5) == 0x8_0000_0000 by {
      assert Power128(2) == 128 * 128;
      assert Power128(4) == 128 * 128 * 128 * 128;
    }
    assert Power128(7) == 128 * 128 * Power128(5);
    assert Power128(9) == 128 * 128 * Power128(7);
  }

  lemma GroupsRoundTrip(n: nat, t: seq<Byte>)
    requires n < TWO64
    ensures ReadGroups(Varint(n) + t, 10) == Got(n, t)
  {
    Power128Ten();
    ReadGroupsVarint(n, 10, t);
  }

  /** A 64-bit number written as a varint reads back, whatever follows. */
  lemma Varint64RoundTrip(n: nat, t: seq<Byte>)
    requires n < TWO64
    ensures ReadVarint64(Varint(n) + t) == Got(n, t)
    ensures n < TWO32 ==> ReadVarint32(Varint(n) + t) == Got(n, t)
  {
    GroupsRoundTrip(n, t);
    SmallMod(n, TWO64);
    if n < TWO32 { SmallMod(n, TWO32); }
  }

  lemma SmallMod(n: nat, m: nat)
    requires n < m
    ensures n % m == n
  {
  }

  function VarintSize(n: nat): nat {
    if n < 128 then 1 else 1 + VarintSize(n / 128)
  }

  lemma {:induction false} VarintSizeIs(n: nat)
    ensures VarintSize(n) == |Varint(n)|
  {
    if n >= 128 { VarintSizeIs(n / 128); }
  }

  // ---------------------------------------------------------------- fixed-width numbers

  // k bytes, least significant first.
  function Fixed(n: nat, k: nat): (b: seq<Byte>)
    ensures |b| == k
  {
    if k == 0 then [] else [n % 0x100] + Fixed(n / 0x100, k - 1)
  }

  function FromFixed(b: seq<Byte>): nat {
    if b == [] then 0 else b[0] + 0x100 * FromFixed(b[1..])
  }

  function Power256(k: nat): nat {
    if k == 0 then 1 else 0x100 * Power256(k - 1)
  }

  lemma {:induction false} FixedRoundTrip(n: nat, k: nat)
    requires n < Power256(k)
    ensures FromFixed(Fixed(n, k)) == n
  {
    if k > 0 {
      FixedRoundTrip(n / 0x100, k - 1);
      assert Fixed(n, k)[1..] == Fixed(n / 0x100, k - 1);
    }
  }

  lemma {:induction false} FromFixedBound(b: seq<Byte>)
    ensures FromFixed(b) < Power256(|b|)
  {
    if b != [] { FromFixedBound(b[1..]); }
  }

  lemma Power256Values()
    ensures Power256(4) == TWO32 && Power256(8) == TWO64
  {
    assert Power256(2) == 0x1_0000;
    assert Power256(4) == TWO32;
    assert Power256(6) == 0x1_0000 * Power256(4);
  }

  function ReadFixed(b: seq<Byte>, k: nat): (r: Read<nat>)
    ensures r.Got? ==> |r.rest| <= |b|
  {
    if |b| < k then Bad else Got(FromFixed(b[..k]), b[k..])
  }

  lemma ReadFixedRoundTrip(n: nat, k: nat, t: seq<Byte>)
    requires n < Power256(k)
    ensures ReadFixed(Fixed(n, k) + t, k) == Got(n, t)
  {
    FixedRoundTrip(n, k);
    assert (Fixed(n, k) + t)[..k] == Fixed(n, k) && (Fixed(n, k) + t)[k..] == t;
  }

  // ---------------------------------------------------------------- strings

  function Sized(s: seq<Byte>): seq<Byte> {
    Varint(|s|) + s
  }

  // A size with its top bit set is negative to the reader.
  function ReadString(b: seq<Byte>): (r: Read<seq<Byte>>)
    ensures r.Got? ==> |r.value| < MAX_SIZE && |r.rest| < |b|
  {
    match ReadVarint32(b)
    case Bad => Bad
    case Got(n, rest) => if n >= MAX_SIZE || n > |rest| then Bad else Got(rest[..n], rest[n..])
  }

  lemma StringRoundTrip(s: seq<Byte>, t: seq<Byte>)
    requires |s| < MAX_SIZE
    ensures ReadString(Sized(s) + t) == Got(s, t)
  {
    assert Sized(s) + t == Varint(|s|) + (s + t);
    Varint64RoundTrip(|s|, s + t);
    assert (s + t)[..|s|] == s && (s + t)[|s|..] == t;
  }

  // ---------------------------------------------------------------- tags

  // Zero at the end of the input, on a malformed varint, and for a literal zero tag.
  function ReadTag(b: seq<Byte>): (r: (nat, seq<Byte>))
    ensures r.0 < TWO32 && |r.1| <= |b|
    ensures r.0 != 0 ==> |r.1| < |b|
  {
    match ReadVarint32(b)
    case Bad => (0, b)
    case Got(tag, rest) => (tag, rest)
  }

  lemma TagRoundTrip(tag: nat, t: seq<Byte>)
    requires tag < TWO32
    ensures ReadTag(Varint(tag) + t) == (tag, t)
  {
    Varint64RoundTrip(tag, t);
  }

  // ---------------------------------------------------------------- unknown fields

  datatype Field =
    | VarintField(num: nat, value: nat)
    | Fixed64Field(num: nat, value: nat)
    | BytesField(num: nat, data: seq<Byte>)
    | GroupField(num: nat, fields: seq<Field>)
    | Fixed32Field(num: nat, value: nat)

  function WireType(f: Field): nat {
    match f
    case VarintField(_, _) => 0
    case Fixed64Field(_, _) => 1
    case BytesField(_, _) => 2
    case GroupField(_, _) => 3
    case Fixed32Field(_, _) => 5
  }

  const END_GROUP := 4

  function Tag(f: Field): nat {
    8 * f.num + WireType(f)
  }

  // What can come off the wire, and so must be writable: numbers in range, groups nested at most
  // `depth` deep.
  predicate WellFormed(f: Field, depth: nat)
    decreases f
  {
    && 1 <= f.num < 0x2000_0000
    && match f
       case VarintField(_, v) => v < TWO64
       case Fixed64Field(_, v) => v < TWO64
       case BytesField(_, s) => |s| < MAX_SIZE
       case GroupField(_, fs) => depth > 0 && AllWellFormed(fs, depth - 1)
       case Fixed32Field(_, v) => v < TWO32
  }

  predicate AllWellFormed(fs: seq<Field>, depth: nat)
    decreases fs
  {
    fs == [] || (WellFormed(fs[0], depth) && AllWellFormed(fs[1..], depth))
  }

  function Payload(f: Field): seq<Byte>
    decreases f, 0
  {
    match f
    case VarintField(_, v) => Varint(v)
    case Fixed64Field(_, v) => Fixed(v, 8)
    case BytesField(_, s) => Sized(s)
    case GroupField(num, fs) => Encode(fs) + Varint(8 * num + END_GROUP)
    case Fixed32Field(_, v) => Fixed(v, 4)
  }

  function EncodeField(f: Field): seq<Byte>
    decreases f, 1
  {
    Varint(Tag(f)) + Payload(f)
  }

  function Encode(fs: seq<Field>): seq<Byte>
    decreases fs, 0
  {
    if fs == [] then [] else EncodeField(fs[0]) + Encode(fs[1..])
  }

  // The fields of a group and the tag that ended it, zero at the end of the input.
  datatype Ended = Ended(fields: seq<Field>, tag: nat)

  function SkipField(tag: nat, b: seq<Byte>, depth: nat): (r: Read<Field>)
    ensures r.Got? ==> |r.rest| <= |b|
    decreases |b|, 1
  {
    var num := tag / 8;
    if num == 0 then Bad
    else
      match tag % 8
      case 0 =>
        (match ReadVarint64(b)
         case Bad => Bad
         case Got(v, rest) => Got(VarintField(num, v), rest))
      case 1 =>
        (match ReadFixed(b, 8)
         case Bad => Bad
         case Got(v, rest) => Got(Fixed64Field(num, v), rest))
      case 2 =>
        (match ReadString(b)
         case Bad => Bad
         case Got(s, rest) => Got(BytesField(num, s), rest))
      case 3 =>
        if depth == 0 then Bad
        else
          (match SkipGroup(b, depth - 1)
           case Bad => Bad
           case Got(g, rest) => if g.tag != 8 * num + END_GROUP then Bad else Got(GroupField(num, g.fields), rest))
      case 5 =>
        (match ReadFixed(b, 4)
         case Bad => Bad
         case Got(v, rest) => Got(Fixed32Field(num, v), rest))
      case _ => Bad
  }

  function SkipGroup(b: seq<Byte>, depth: nat): (r: Read<Ended>)
    ensures r.Got? ==> |r.rest| <= |b|
    decreases |b|, 0
  {
    var (tag, rest) := ReadTag(b);
    if tag == 0 || tag % 8 == END_GROUP then Got(Ended([], tag), rest)
    else
      match SkipField(tag, rest, depth)
      case Bad => Bad
      case Got(f, rest') =>
        match SkipGroup(rest', depth)
        case Bad => Bad
        case Got(g, rest'') => Got(g.(fields := [f] + g.fields), rest'')
  }

  lemma TagParts(num: nat, wireType: nat)
    requires 1 <= num < 0x2000_0000 && wireType < 8
    ensures 0 < 8 * num + wireType < TWO32
    ensures (8 * num + wireType) / 8 == num && (8 * num + wireType) % 8 == wireType
  {
  }

  lemma SkipBytesRoundTrip(num: nat, s: seq<Byte>, depth: nat, t: seq<Byte>)
    requires 1 <= num < 0x2000_0000 && |s| < MAX_SIZE
    ensures SkipField(8 * num + 2, Sized(s) + t, depth) == Got(BytesField(num, s), t)
  {
    TagParts(num, 2);
    StringRoundTrip(s, t);
  }

  lemma SkipVarintRoundTrip(num: nat, v: nat, depth: nat, t: seq<Byte>)
    requires 1 <= num < 0x2000_0000 && v < TWO64
    ensures SkipField(8 * num, Varint(v) + t, depth) == Got(VarintField(num, v), t)
  {
    TagParts(num, 0);
    Varint64RoundTrip(v, t);
  }

  lemma SkipFixedRoundTrip(num: nat, v: nat, depth: nat, t: seq<Byte>)
    requires 1 <= num < 0x2000_0000
    ensures v < TWO64 ==> SkipField(8 * num + 1, Fixed(v, 8) + t, depth) == Got(Fixed64Field(num, v), t)
    ensures v < TWO32 ==> SkipField(8 * num + 5, Fixed(v, 4) + t, depth) == Got(Fixed32Field(num, v), t)
  {
    Power256Values();
    if v < TWO64 {
      TagParts(num, 1);
      ReadFixedRoundTrip(v, 8, t);
    }
    if v < TWO32 {
      TagParts(num, 5);
      ReadFixedRoundTrip(v, 4, t);
    }
  }

  lemma SkipGroupFieldIs(num: nat, fs: seq<Field>, depth: nat, t: seq<Byte>, b: seq<Byte>)
    requires 1 <= num < 0x2000_0000 && depth > 0
    requires SkipGroup(b, depth - 1) == Got(Ended(fs, 8 * num + END_GROUP), t)
    ensures SkipField(8 * num + 3, b, depth) == Got(GroupField(num, fs), t)
  {
    TagParts(num, 3);
  }

  lemma GroupPayload(num: nat, fs: seq<Field>, t: seq<Byte>)
    ensures Payload(GroupField(num, fs)) + t == Encode(fs) + (Varint(8 * num + END_GROUP) + t)
  {
  }

  lemma SkipGroupFieldRoundTrip(num: nat, fs: seq<Field>, depth: nat, t: seq<Byte>)
    requires 1 <= num < 0x2000_0000 && depth > 0 && AllWellFormed(fs, depth - 1)
    ensures SkipField(8 * num + 3, Payload(GroupField(num, fs)) + t, depth) == Got(GroupField(num, fs), t)
    decreases fs, 1
  {
    SkipGroupRoundTrip(fs, num, depth - 1, t);
    GroupPayload(num, fs, t);
    SkipGroupFieldIs(num, fs, depth, t, Payload(GroupField(num, fs)) + t);
  }

  /** A well-formed field skips back to itself, whatever follows. */
  lemma {:induction false} SkipFieldRoundTrip(f: Field, depth: nat, t: seq<Byte>)
    requires WellFormed(f, depth)
    ensures 0 < Tag(f) < TWO32 && SkipField(Tag(f), Payload(f) + t, depth) == Got(f, t)
    decreases f, 0
  {
    TagParts(f.num, WireType(f));
    match f
    case VarintField(num, v) => SkipVarintRoundTrip(num, v, depth, t);
    case Fixed64Field(num, v) => SkipFixedRoundTrip(num, v, depth, t);
    case BytesField(num, s) => SkipBytesRoundTrip(num, s, depth, t);
    case GroupField(num, fs) => SkipGroupFieldRoundTrip(num, fs, depth, t);
    case Fixed32Field(num, v) => SkipFixedRoundTrip(num, v, depth, t);
  }

  // One field more at the front of a group, and one tag more read before it.
  lemma SkipGroupStep(tag: nat, b: seq<Byte>, f: Field, rest: seq<Byte>, g: Ended, t: seq<Byte>, depth: nat)
    requires 0 < tag < TWO32 && tag % 8 != END_GROUP
    requires SkipField(tag, b, depth) == Got(f, rest)
    requires SkipGroup(rest, depth) == Got(g, t)
    ensures SkipGroup(Varint(tag) + b, depth) == Got(Ended([f] + g.fields, g.tag), t)
  {
    TagRoundTrip(tag, b);
  }

  lemma SkipGroupEnd(end: nat, t: seq<Byte>, depth: nat)
    requires end < TWO32 && end % 8 == END_GROUP
    ensures SkipGroup(Varint(end) + t, depth) == Got(Ended([], end), t)
  {
    TagRoundTrip(end, t);
  }

  lemma EncodeStep(fs: seq<Field>, tail: seq<Byte>)
    requires fs != []
    ensures Encode(fs) + tail == Varint(Tag(fs[0])) + (Payload(fs[0]) + (Encode(fs[1..]) + tail))
  {
  }

  lemma {:induction false} SkipGroupRoundTrip(fs: seq<Field>, num: nat, depth: nat, t: seq<Byte>)
    requires AllWellFormed(fs, depth) && 1 <= num < 0x2000_0000
    ensures
      var end := 8 * num + END_GROUP;
      SkipGroup(Encode(fs) + (Varint(end) + t), depth) == Got(Ended(fs, end), t)
    decreases fs, 0
  {
    var end := 8 * num + END_GROUP;
    TagParts(num, END_GROUP);
    var tail := Varint(end) + t;
    if fs == [] {
      assert Encode(fs) + tail == tail;
      SkipGroupEnd(end, t, depth);
    } else {
      var f, rest := fs[0], Encode(fs[1..]) + tail;
      TagParts(f.num, WireType(f));
      SkipFieldRoundTrip(f, depth, rest);
      SkipGroupRoundTrip(fs[1..], num, depth, t);
      SkipGroupMore(fs, tail, end, t, depth);
    }
  }

  lemma SkipGroupMore(fs: seq<Field>, tail: seq<Byte>, end: nat, t: seq<Byte>, depth: nat)
    requires fs != [] && 0 < Tag(fs[0]) < TWO32 && Tag(fs[0]) % 8 != END_GROUP
    requires
      var rest := Encode(fs[1..]) + tail;
      && SkipField(Tag(fs[0]), Payload(fs[0]) + rest, depth) == Got(fs[0], rest)
      && SkipGroup(rest, depth) == Got(Ended(fs[1..], end), t)
    ensures SkipGroup(Encode(fs) + tail, depth) == Got(Ended(fs, end), t)
  {
    var f, rest := fs[0], Encode(fs[1..]) + tail;
    SkipGroupStep(Tag(f), Payload(f) + rest, f, rest, Ended(fs[1..], end), t, depth);
    EncodeStep(fs, tail);
    assert [f] + fs[1..] == fs;
  }

  /** Whatever skipping produces is well-formed. */
  lemma {:induction false} SkipFieldWellFormed(tag: nat, b: seq<Byte>, depth: nat)
    requires tag < TWO32 && SkipField(tag, b, depth).Got?
    ensures WellFormed(SkipField(tag, b, depth).value, depth)
    ensures Tag(SkipField(tag, b, depth).value) == tag
    decreases |b|, 1
  {
    Power256Values();
    match tag % 8
    case 1 => FromFixedBound(b[..8]);
    case 3 => SkipGroupWellFormed(b, depth - 1);
    case 5 => FromFixedBound(b[..4]);
    case _ =>
  }

  lemma {:induction false} SkipGroupWellFormed(b: seq<Byte>, depth: nat)
    requires SkipGroup(b, depth).Got?
    ensures AllWellFormed(SkipGroup(b, depth).value.fields, depth)
    decreases |b|, 0
  {
    var (tag, rest) := ReadTag(b);
    if tag != 0 && tag % 8 != END_GROUP {
      SkipFieldWellFormed(tag, rest, depth);
      var f := SkipField(tag, rest, depth);
      SkipGroupWellFormed(f.rest, depth);
      var g := SkipGroup(f.rest, depth).value.fields;
      assert ([f.value] + g)[1..] == g;
    }
  }

  lemma {:induction false} AllWellFormedConcat(a: seq<Field>, b: seq<Field>, depth: nat)
    ensures AllWellFormed(a + b, depth) <==> AllWellFormed(a, depth) && AllWellFormed(b, depth)
  {
    if a == [] {
      assert a + b == b;
    } else {
      assert (a + b)[1..] == a[1..] + b;
      AllWellFormedConcat(a[1..], b, depth);
    }
  }

  // ---------------------------------------------------------------- sizes

  function PayloadSize(f: Field): nat
    decreases f, 0
  {
    match f
    case VarintField(_, v) => VarintSize(v)
    case Fixed64Field(_, _) => 8
    case BytesField(_, s) => VarintSize(|s|) + |s|
    case GroupField(num, fs) => FieldsSize(fs) + VarintSize(8 * num + END_GROUP)
    case Fixed32Field(_, _) => 4
  }

  function FieldsSize(fs: seq<Field>): nat
    decreases fs, 0
  {
    if fs == [] then 0 else VarintSize(Tag(fs[0])) + PayloadSize(fs[0]) + FieldsSize(fs[1..])
  }

  lemma {:induction false} PayloadSizeIs(f: Field)
    ensures PayloadSize(f) == |Payload(f)|
    decreases f, 0
  {
    match f
    case VarintField(_, v) => VarintSizeIs(v);
    case BytesField(_, s) => VarintSizeIs(|s|);
    case GroupField(num, fs) =>
      FieldsSizeIs(fs);
      VarintSizeIs(8 * num + END_GROUP);
    case _ =>
  }

  lemma {:induction false} FieldsSizeIs(fs: seq<Field>)
    ensures FieldsSize(fs) == |Encode(fs)|
    decreases fs, 0
  {
    if fs != [] {
      VarintSizeIs(Tag(fs[0]));
      PayloadSizeIs(fs[0]);
      FieldsSizeIs(fs[1..]);
    }
  }
}
