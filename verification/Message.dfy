/**
 The generated request and reply messages. Both have two string fields, numbered 1 and 2, and an
 unknown field set, and their generated code differs only in the name of the first field: `first` is
 the action of a request and the result of a reply, `second` is the body of either.
 */
module Message {
  import opened Bytes
  import opened Wire
  import Utf8

  datatype Msg = Msg(first: seq<Byte>, second: seq<Byte>, unknown: seq<Field>)

  const CLEARED := Msg([], [], [])

  const FIRST_TAG := 10
  const SECOND_TAG := 18

  // ---------------------------------------------------------------- merging and copying

  // Unknown fields are appended; an empty string does not override.
  function MergeFrom(m: Msg, other: Msg): Msg {
    Msg(if other.first != [] then other.first else m.first,
        if other.second != [] then other.second else m.second,
        m.unknown + other.unknown)
  }

  // ---------------------------------------------------------------- parsing

  datatype Outcome = Failed | Done(msg: Msg, rest: seq<Byte>)

  /**
   Parsing into an existing message. `depth` is what is left of the reader's recursion budget. A zero
   tag, which is also what the end of the input and a malformed tag read as, ends the message.
   */
  function Parse(m: Msg, b: seq<Byte>, depth: nat): Outcome
    decreases |b|
  {
    var (tag, rest) := ReadTag(b);
    if tag == 0 then Done(m, rest)
    else if tag == FIRST_TAG then
      match ReadString(rest)
      case Bad => Failed
      case Got(s, rest') => if Utf8.Valid(s) then Parse(m.(first := s), rest', depth) else Failed
    else if tag == SECOND_TAG then
      match ReadString(rest)
      case Bad => Failed
      case Got(s, rest') => if Utf8.Valid(s) then Parse(m.(second := s), rest', depth) else Failed
    else
      match SkipField(tag, rest, depth)
      case Bad => Failed
      case Got(f, rest') => Parse(m.(unknown := m.unknown + [f]), rest', depth)
  }

  // ---------------------------------------------------------------- serializing

  function EncodeString(tag: Byte, s: seq<Byte>): seq<Byte> {
    if s == [] then [] else [tag] + Sized(s)
  }

  // `preserve` is the process-wide flag that keeps unknown fields.
  function Serialize(m: Msg, preserve: bool): seq<Byte> {
    EncodeString(FIRST_TAG, m.first) + EncodeString(SECOND_TAG, m.second)
    + (if preserve then Encode(m.unknown) else [])
  }

  function StringSize(s: seq<Byte>): nat {
    if s == [] then 0 else 1 + VarintSize(|s|) + |s|
  }

  function ByteSize(m: Msg, preserve: bool): nat {
    (if preserve then FieldsSize(m.unknown) else 0) + StringSize(m.first) + StringSize(m.second)
  }

  /** The computed size is the number of bytes written, with and without unknown fields. */
  lemma ByteSizeIs(m: Msg, preserve: bool)
    ensures ByteSize(m, preserve) == |Serialize(m, preserve)|
  {
    VarintSizeIs(|m.first|);
    VarintSizeIs(|m.second|);
    FieldsSizeIs(m.unknown);
  }

  // ---------------------------------------------------------------- messages as field sequences

  predicate Known(f: Field, num: nat) {
    f.BytesField? && f.num == num
  }

  // What one field on the wire does to the message.
  function Take(m: Msg, f: Field): Msg {
    if Known(f, 1) then m.(first := f.data)
    else if Known(f, 2) then m.(second := f.data)
    else m.(unknown := m.unknown + [f])
  }

  function Fold(m: Msg, fs: seq<Field>): Msg
    decreases |fs|
  {
    if fs == [] then m else Fold(Take(m, fs[0]), fs[1..])
  }

  predicate Acceptable(f: Field) {
    Known(f, 1) || Known(f, 2) ==> Utf8.Valid(f.data)
  }

  predicate AllAcceptable(fs: seq<Field>) {
    fs == [] || (Acceptable(fs[0]) && AllAcceptable(fs[1..]))
  }

  lemma ParseFirst(m: Msg, s: seq<Byte>, t: seq<Byte>, depth: nat)
    requires |s| < MAX_SIZE
    ensures
      Parse(m, [FIRST_TAG] + (Sized(s) + t), depth)
      == if Utf8.Valid(s) then Parse(m.(first := s), t, depth) else Failed
  {
    assert Varint(FIRST_TAG) == [FIRST_TAG];
    TagRoundTrip(FIRST_TAG, Sized(s) + t);
    StringRoundTrip(s, t);
  }

  lemma ParseSecond(m: Msg, s: seq<Byte>, t: seq<Byte>, depth: nat)
    requires |s| < MAX_SIZE
    ensures
      Parse(m, [SECOND_TAG] + (Sized(s) + t), depth)
      == if Utf8.Valid(s) then Parse(m.(second := s), t, depth) else Failed
  {
    assert Varint(SECOND_TAG) == [SECOND_TAG];
    TagRoundTrip(SECOND_TAG, Sized(s) + t);
    StringRoundTrip(s, t);
  }

  lemma ParseUnknown(m: Msg, tag: nat, b: seq<Byte>, f: Field, t: seq<Byte>, depth: nat)
    requires 0 < tag < TWO32 && tag != FIRST_TAG && tag != SECOND_TAG
    requires SkipField(tag, b, depth) == Got(f, t)
    ensures Parse(m, Varint(tag) + b, depth) == Parse(m.(unknown := m.unknown + [f]), t, depth)
  {
    TagRoundTrip(tag, b);
  }

  lemma TagIsKnown(f: Field)
    requires 1 <= f.num
    ensures Tag(f) == FIRST_TAG <==> Known(f, 1)
    ensures Tag(f) == SECOND_TAG <==> Known(f, 2)
  {
  }

  /** One field on the wire takes effect, and the rest of the input is parsed from there. */
  lemma ParseField(m: Msg, f: Field, t: seq<Byte>, depth: nat)
    requires WellFormed(f, depth)
    ensures Parse(m, EncodeField(f) + t, depth) == if Acceptable(f) then Parse(Take(m, f), t, depth) else Failed
  {
    TagIsKnown(f);
    assert EncodeField(f) + t == Varint(Tag(f)) + (Payload(f) + t);
    if Known(f, 1) {
      ParseFirst(m, f.data, t, depth);
    } else if Known(f, 2) {
      ParseSecond(m, f.data, t, depth);
    } else {
      SkipFieldRoundTrip(f, depth, t);
      ParseUnknown(m, Tag(f), Payload(f) + t, f, t, depth);
    }
  }

  /** Parsing any encoded fields folds them in, and fails exactly on a known string that is not UTF-8. */
  lemma {:induction false} ParseFields(m: Msg, fs: seq<Field>, t: seq<Byte>, depth: nat)
    requires AllWellFormed(fs, depth)
    ensures
      Parse(m, Encode(fs) + t, depth) == if AllAcceptable(fs) then Parse(Fold(m, fs), t, depth) else Failed
    decreases |fs|
  {
    if fs == [] {
      assert Encode(fs) + t == t;
    } else {
      var rest := Encode(fs[1..]) + t;
      assert Encode(fs) + t == EncodeField(fs[0]) + rest;
      ParseField(m, fs[0], rest, depth);
      ParseFields(Take(m, fs[0]), fs[1..], t, depth);
    }
  }

  // ---------------------------------------------------------------- round trips

  // The fields a message is written as, its strings first.
  function StringField(num: nat, s: seq<Byte>): seq<Field> {
    if s == [] then [] else [BytesField(num, s)]
  }

  function FieldsOf(m: Msg, preserve: bool): seq<Field> {
    StringField(1, m.first) + (StringField(2, m.second) + if preserve then m.unknown else [])
  }

  // A message that fits on the wire: sizes below 2 GB, unknown fields within the recursion budget.
  predicate Writable(m: Msg, depth: nat) {
    |m.first| < MAX_SIZE && |m.second| < MAX_SIZE && AllWellFormed(m.unknown, depth)
  }

  predicate Textual(m: Msg) {
    Utf8.Valid(m.first) && Utf8.Valid(m.second)
  }

  // No known field among the unknown ones; the parser never puts one there.
  predicate NoneKnown(fs: seq<Field>) {
    fs == [] || (!Known(fs[0], 1) && !Known(fs[0], 2) && NoneKnown(fs[1..]))
  }

  lemma EncodeCons(f: Field, fs: seq<Field>)
    ensures Encode([f] + fs) == EncodeField(f) + Encode(fs)
  {
    assert ([f] + fs)[1..] == fs;
  }

  lemma {:induction false} EncodeConcat(a: seq<Field>, b: seq<Field>)
    ensures Encode(a + b) == Encode(a) + Encode(b)
    decreases |a|
  {
    if a == [] {
      assert a + b == b;
    } else {
      EncodeConcat(a[1..], b);
      EncodeCons(a[0], a[1..]);
      EncodeCons(a[0], a[1..] + b);
      assert a + b == [a[0]] + (a[1..] + b) && a == [a[0]] + a[1..];
    }
  }

  lemma StringFieldIs(num: nat, s: seq<Byte>, depth: nat)
    requires 1 <= num <= 2
    ensures Encode(StringField(num, s)) == EncodeString(8 * num + 2, s)
    ensures |s| < MAX_SIZE ==> AllWellFormed(StringField(num, s), depth)
    ensures AllAcceptable(StringField(num, s)) <==> Utf8.Valid(s)
  {
    assert Varint(8 * num + 2) == [8 * num + 2];
    if s != [] {
      assert Encode(StringField(num, s)) == EncodeField(BytesField(num, s)) + Encode([]);
    }
  }

  lemma {:induction false} AllAcceptableConcat(a: seq<Field>, b: seq<Field>)
    ensures AllAcceptable(a + b) <==> AllAcceptable(a) && AllAcceptable(b)
    decreases |a|
  {
    if a == [] {
      assert a + b == b;
    } else {
      AllAcceptableConcat(a[1..], b);
      assert (a + b)[1..] == a[1..] + b;
    }
  }

  lemma {:induction false} NoneKnownAcceptable(fs: seq<Field>)
    requires NoneKnown(fs)
    ensures AllAcceptable(fs)
    decreases |fs|
  {
    if fs != [] { NoneKnownAcceptable(fs[1..]); }
  }

  lemma {:induction false} FoldConcat(m: Msg, a: seq<Field>, b: seq<Field>)
    ensures Fold(m, a + b) == Fold(Fold(m, a), b)
    decreases |a|
  {
    if a == [] {
      assert a + b == b;
    } else {
      FoldConcat(Take(m, a[0]), a[1..], b);
      assert (a + b)[1..] == a[1..] + b;
    }
  }

  lemma {:induction false} FoldUnknown(m: Msg, fs: seq<Field>)
    requires NoneKnown(fs)
    ensures Fold(m, fs) == m.(unknown := m.unknown + fs)
    decreases |fs|
  {
    if fs == [] {
      assert m.unknown + fs == m.unknown;
    } else {
      FoldUnknown(Take(m, fs[0]), fs[1..]);
      assert m.unknown + [fs[0]] + fs[1..] == m.unknown + fs;
    }
  }

  lemma FoldString(m: Msg, num: nat, s: seq<Byte>)
    requires 1 <= num <= 2
    ensures Fold(m, StringField(num, s))
         == if s == [] then m else if num == 1 then m.(first := s) else m.(second := s)
  {
    if s != [] {
      var f := BytesField(num, s);
      assert Fold(m, [f]) == Fold(Take(m, f), []);
    }
  }

  /** Serializing writes the fields of the message in order. */
  lemma SerializeIsEncode(m: Msg, preserve: bool)
    ensures Serialize(m, preserve) == Encode(FieldsOf(m, preserve))
  {
    var a, b := StringField(1, m.first), StringField(2, m.second);
    var u := if preserve then m.unknown else [];
    StringFieldIs(1, m.first, 0);
    StringFieldIs(2, m.second, 0);
    EncodeConcat(a, b + u);
    EncodeConcat(b, u);
  }

  lemma FoldFieldsOf(z: Msg, m: Msg, preserve: bool)
    requires preserve ==> NoneKnown(m.unknown)
    ensures Fold(z, FieldsOf(m, preserve)) == MergeFrom(z, if preserve then m else m.(unknown := []))
  {
    var a, b := StringField(1, m.first), StringField(2, m.second);
    var u := if preserve then m.unknown else [];
    FoldConcat(z, a, b + u);
    FoldConcat(Fold(z, a), b, u);
    FoldString(z, 1, m.first);
    FoldString(Fold(z, a), 2, m.second);
    FoldUnknown(Fold(Fold(z, a), b), u);
  }

  lemma FieldsOfFit(m: Msg, preserve: bool, depth: nat)
    requires Writable(m, depth)
    ensures AllWellFormed(FieldsOf(m, preserve), depth)
    ensures AllAcceptable(FieldsOf(m, preserve)) <==> Textual(m) && (preserve ==> AllAcceptable(m.unknown))
  {
    var a, b := StringField(1, m.first), StringField(2, m.second);
    var u := if preserve then m.unknown else [];
    StringFieldIs(1, m.first, depth);
    StringFieldIs(2, m.second, depth);
    AllWellFormedConcat(a, b + u, depth);
    AllWellFormedConcat(b, u, depth);
    AllAcceptableConcat(a, b + u);
    AllAcceptableConcat(b, u);
  }

  /**
   Parsing a serialized message into any other folds in its fields, whatever follows, and fails exactly
   on a known string that is not UTF-8. With no known field among the unknown ones that is a merge.
   */
  lemma ParseSerialized(z: Msg, m: Msg, preserve: bool, t: seq<Byte>, depth: nat)
    requires Writable(m, depth)
    ensures
      var fs := FieldsOf(m, preserve);
      Parse(z, Serialize(m, preserve) + t, depth) == if AllAcceptable(fs) then Parse(Fold(z, fs), t, depth) else Failed
    ensures (preserve ==> NoneKnown(m.unknown)) ==>
              Parse(z, Serialize(m, preserve) + t, depth)
              == if Textual(m) then Parse(MergeFrom(z, if preserve then m else m.(unknown := [])), t, depth) else Failed
  {
    SerializeIsEncode(m, preserve);
    FieldsOfFit(m, preserve, depth);
    ParseFields(z, FieldsOf(m, preserve), t, depth);
    if preserve ==> NoneKnown(m.unknown) {
      if preserve { NoneKnownAcceptable(m.unknown); }
      FoldFieldsOf(z, m, preserve);
    }
  }

  lemma ParseEmpty(m: Msg, depth: nat)
    ensures Parse(m, [], depth) == Done(m, [])
  {
  }

  lemma MergeIntoCleared(m: Msg)
    ensures MergeFrom(CLEARED, m) == m
  {
    assert [] + m.unknown == m.unknown;
  }

  lemma {:induction false} FoldCounts(m: Msg, fs: seq<Field>)
    ensures |Fold(m, fs).unknown| <= |m.unknown| + |fs|
    ensures |Fold(m, fs).unknown| == |m.unknown| + |fs| <==> NoneKnown(fs)
    decreases |fs|
  {
    if fs != [] { FoldCounts(Take(m, fs[0]), fs[1..]); }
  }

  lemma FoldLosesKnown(m: Msg)
    requires !NoneKnown(m.unknown)
    ensures Fold(CLEARED, FieldsOf(m, true)) != m
  {
    var a, b := StringField(1, m.first), StringField(2, m.second);
    FoldConcat(CLEARED, a, b + m.unknown);
    FoldConcat(Fold(CLEARED, a), b, m.unknown);
    FoldString(CLEARED, 1, m.first);
    FoldString(Fold(CLEARED, a), 2, m.second);
    FoldCounts(Fold(Fold(CLEARED, a), b), m.unknown);
  }

  /**
   The round trip: with unknown fields preserved a message parses back to itself exactly when its
   strings are UTF-8 and no known field sits among its unknown ones. Known numbers with the wrong wire
   type are as good as any other unknown field.
   */
  lemma RoundTripIff(m: Msg, depth: nat)
    requires Writable(m, depth)
    ensures
      Parse(CLEARED, Serialize(m, true), depth) == Done(m, []) <==> Textual(m) && NoneKnown(m.unknown)
  {
    var b := Serialize(m, true);
    assert b + [] == b;
    if NoneKnown(m.unknown) {
      ParseSerialized(CLEARED, m, true, [], depth);
      MergeIntoCleared(m);
      ParseEmpty(m, depth);
    } else {
      ParseSerialized(CLEARED, m, true, [], depth);
      ParseEmpty(Fold(CLEARED, FieldsOf(m, true)), depth);
      FoldLosesKnown(m);
    }
  }

  /** Without preservation the strings alone come back. */
  lemma RoundTripDropped(m: Msg, depth: nat)
    requires Writable(m, depth)
    ensures
      Parse(CLEARED, Serialize(m, false), depth)
      == if Textual(m) then Done(Msg(m.first, m.second, []), []) else Failed
  {
    var b, m' := Serialize(m, false), m.(unknown := []);
    assert b + [] == b;
    ParseSerialized(CLEARED, m, false, [], depth);
    MergeIntoCleared(m');
    ParseEmpty(m', depth);
  }

  /** Parsing two serialized messages end to end is merging the second into the first. */
  lemma ConcatenationMerges(x: Msg, y: Msg, depth: nat)
    requires Writable(x, depth) && Textual(x) && NoneKnown(x.unknown)
    requires Writable(y, depth) && Textual(y) && NoneKnown(y.unknown)
    ensures Parse(CLEARED, Serialize(x, true) + Serialize(y, true), depth) == Done(MergeFrom(x, y), [])
  {
    var b := Serialize(y, true);
    ParseSerialized(CLEARED, x, true, b, depth);
    MergeIntoCleared(x);
    assert b + [] == b;
    ParseSerialized(x, y, true, [], depth);
    ParseEmpty(MergeFrom(x, y), depth);
  }

  /** Merging is associative and the cleared message is its identity. */
  lemma MergeMonoid(x: Msg, y: Msg, z: Msg)
    ensures MergeFrom(MergeFrom(x, y), z) == MergeFrom(x, MergeFrom(y, z))
    ensures MergeFrom(x, CLEARED) == x == MergeFrom(CLEARED, x)
  {
    assert x.unknown + y.unknown + z.unknown == x.unknown + (y.unknown + z.unknown);
    assert x.unknown + [] == x.unknown == [] + x.unknown;
  }

  // ---------------------------------------------------------------- what any input means

  /** Reading any input as a sequence of fields, with no message in sight. */
  function Fields(b: seq<Byte>, depth: nat): Read<seq<Field>>
    decreases |b|
  {
    var (tag, rest) := ReadTag(b);
    if tag == 0 then Got([], rest)
    else
      match SkipField(tag, rest, depth)
      case Bad => Bad
      case Got(f, rest') =>
        match Fields(rest', depth)
        case Bad => Bad
        case Got(fs, rest'') => Got([f] + fs, rest'')
  }

  lemma SkipKnown(tag: nat, b: seq<Byte>, depth: nat)
    requires tag == FIRST_TAG || tag == SECOND_TAG
    ensures
      SkipField(tag, b, depth)
      == match ReadString(b) case Bad => Bad case Got(s, rest) => Got(BytesField(tag / 8, s), rest)
  {
  }

  lemma SkipUnknown(tag: nat, b: seq<Byte>, depth: nat)
    requires tag < TWO32 && tag != FIRST_TAG && tag != SECOND_TAG
    ensures
      match SkipField(tag, b, depth)
      case Bad => true
      case Got(f, _) => !Known(f, 1) && !Known(f, 2)
  {
    if SkipField(tag, b, depth).Got? {
      SkipFieldWellFormed(tag, b, depth);
      TagIsKnown(SkipField(tag, b, depth).value);
    }
  }

  // One step of the parser in terms of the field skipped.
  lemma ParseStep(m: Msg, b: seq<Byte>, depth: nat)
    requires ReadTag(b).0 != 0
    ensures
      var (tag, rest) := ReadTag(b);
      Parse(m, b, depth)
      == match SkipField(tag, rest, depth)
         case Bad => Failed
         case Got(f, rest') => if Acceptable(f) then Parse(Take(m, f), rest', depth) else Failed
  {
    var (tag, rest) := ReadTag(b);
    if tag == FIRST_TAG || tag == SECOND_TAG {
      SkipKnown(tag, rest, depth);
    } else {
      SkipUnknown(tag, rest, depth);
    }
  }

  /**
   Last one wins: whatever the input, parsing it into a message folds in the fields read off it, in
   order, and fails exactly when a field cannot be read or a known string is not UTF-8.
   */
  lemma {:induction false} ParseIsFold(m: Msg, b: seq<Byte>, depth: nat)
    ensures
      Parse(m, b, depth)
      == match Fields(b, depth)
         case Bad => Failed
         case Got(fs, rest) => if AllAcceptable(fs) then Done(Fold(m, fs), rest) else Failed
    decreases |b|
  {
    var (tag, rest) := ReadTag(b);
    if tag != 0 {
      ParseStep(m, b, depth);
      match SkipField(tag, rest, depth)
      case Bad =>
      case Got(f, rest') =>
        ParseIsFold(Take(m, f), rest', depth);
        match Fields(rest', depth)
        case Bad =>
        case Got(fs, _) => assert ([f] + fs)[1..] == fs;
    }
  }

  // ---------------------------------------------------------------- where a parse stops

  /** The message held when the parser stops, and the tag it stops at. */
  function Stopped(m: Msg, b: seq<Byte>, depth: nat): (Msg, nat)
    decreases |b|
  {
    var (tag, rest) := ReadTag(b);
    if tag == 0 then (m, 0)
    else
      match SkipField(tag, rest, depth)
      case Bad => (m, tag)
      case Got(f, rest') => if Acceptable(f) then Stopped(Take(m, f), rest', depth) else (m, tag)
  }

  // What a refused field leaves of the message held before: only the part it belongs to is disturbed.
  predicate Remains(held: Msg, tag: nat, m: Msg) {
    && (tag != FIRST_TAG ==> m.first == held.first)
    && (tag != SECOND_TAG ==> m.second == held.second)
    && (if tag == FIRST_TAG || tag == SECOND_TAG then m.unknown == held.unknown else held.unknown <= m.unknown)
  }
}
