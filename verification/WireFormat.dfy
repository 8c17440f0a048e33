/**
 The bytes themselves: what the numbers of the Protocol Buffers Encoding specification come out as, and
 exactly which inputs the messages accept, with every number written out.
 */
module WireFormat {
  import opened Bytes
  import opened Wire
  import opened Message
  import opened Codec
  import opened Generated
  import Utf8

  // ---------------------------------------------------------------- varints

  // Seven bits to a byte, least significant first, the top bit of each byte left out.
  function Groups(b: seq<Byte>): nat {
    if b == [] then 0 else b[0] % 128 + 128 * Groups(b[1..])
  }

  // Every byte but the last has its top bit set, and the last one adds something.
  predicate Minimal(b: seq<Byte>) {
    && b != [] && (forall i :: 0 <= i < |b| - 1 ==> b[i] >= 128)
    && b[|b| - 1] < 128 && (|b| > 1 ==> b[|b| - 1] > 0)
  }

  /** A varint is the shortest sequence of seven-bit groups that makes up the number. */
  lemma {:induction false} VarintIs(n: nat)
    ensures Groups(Varint(n)) == n && Minimal(Varint(n))
  {
    if n < 128 {
      assert [n as Byte][1..] == [];
    } else {
      VarintIs(n / 128);
      var b, rest := Varint(n), Varint(n / 128);
      assert b[1..] == rest;
      assert b[0] % 128 == n % 128;
      forall i | 0 <= i < |b| - 1 ensures b[i] >= 128 { if i > 0 { assert b[i] == rest[i - 1]; } }
      assert b[|b| - 1] == rest[|rest| - 1];
    }
  }

  // The first byte without a top bit, among the first `budget`.
  predicate EndsWithin(b: seq<Byte>, budget: nat, k: nat) {
    && k < budget && k < |b| && b[k] < 128
    && forall i :: 0 <= i < k ==> b[i] >= 128
  }

  /** Reading takes the bytes up to the first without its top bit, which must be among the first ten, and
      makes up their number; bits above the 64th, or the 32nd of a tag or a size, are dropped. */
  lemma {:induction false} ReadGroupsIs(b: seq<Byte>, budget: nat, k: nat)
    requires EndsWithin(b, budget, k)
    ensures ReadGroups(b, budget) == Got(Groups(b[..k + 1]), b[k + 1..])
  {
    var c := b[..k + 1];
    if k == 0 {
      assert c[1..] == [];
    } else {
      assert b[0] >= 128;
      forall i | 0 <= i < k - 1 ensures b[1..][i] >= 128 { assert b[1..][i] == b[i + 1]; }
      ReadGroupsIs(b[1..], budget - 1, k - 1);
      assert c[1..] == b[1..][..k] && b[1..][k..] == b[k + 1..];
    }
  }

  lemma {:induction false} ReadGroupsRefuses(b: seq<Byte>, budget: nat)
    requires forall i :: 0 <= i < budget && i < |b| ==> b[i] >= 128
    ensures ReadGroups(b, budget) == Bad
  {
    if b != [] && budget > 0 {
      forall i | 0 <= i < budget - 1 && i < |b[1..]| ensures b[1..][i] >= 128 { assert b[1..][i] == b[i + 1]; }
      ReadGroupsRefuses(b[1..], budget - 1);
    }
  }

  lemma ReadVarintIs(b: seq<Byte>, k: nat)
    requires EndsWithin(b, 10, k)
    ensures ReadVarint64(b) == Got(Groups(b[..k + 1]) % 18446744073709551616, b[k + 1..])
    ensures ReadVarint32(b) == Got(Groups(b[..k + 1]) % 4294967296, b[k + 1..])
  {
    ReadGroupsIs(b, 10, k);
  }

  lemma ReadVarintRefuses(b: seq<Byte>)
    requires forall i :: 0 <= i < 10 && i < |b| ==> b[i] >= 128
    ensures ReadVarint64(b) == Bad == ReadVarint32(b)
  {
    ReadGroupsRefuses(b, 10);
  }

  // ---------------------------------------------------------------- the other wire types

  lemma FixedIs(n: nat)
    ensures Fixed(n, 4) == [n % 256] + [n / 256 % 256] + [n / 256 / 256 % 256] + [n / 256 / 256 / 256 % 256]
    ensures |Fixed(n, 8)| == 8 && Fixed(n, 8)[..4] == Fixed(n, 4)
  {
    assert Fixed(n / 256 / 256 / 256, 1) == [n / 256 / 256 / 256 % 256] + Fixed(n / 256 / 256 / 256 / 256, 0);
    assert Fixed(n / 256 / 256, 2) == [n / 256 / 256 % 256] + Fixed(n / 256 / 256 / 256, 1);
    assert Fixed(n / 256, 3) == [n / 256 % 256] + Fixed(n / 256 / 256, 2);
    FixedPrefix(n, 4, 8);
  }

  lemma {:induction false} FixedPrefix(n: nat, j: nat, k: nat)
    requires j <= k
    ensures Fixed(n, k)[..j] == Fixed(n, j)
  {
    if j > 0 {
      FixedPrefix(n / 256, j - 1, k - 1);
      assert Fixed(n, k) == [n % 256] + Fixed(n / 256, k - 1);
      assert Fixed(n, k)[..j] == [n % 256] + Fixed(n / 256, k - 1)[..j - 1];
    }
  }

  /** Each field starts with its number and its wire type: 0 for a varint, 1 for 64 bits, 2 for a string, 3 and
      4 around a group, 5 for 32 bits. */
  lemma FieldBytes(num: nat, n: nat, s: seq<Byte>, fs: seq<Field>)
    requires 1 <= num < 0x2000_0000
    ensures EncodeField(VarintField(num, n)) == Varint(8 * num) + Varint(n)
    ensures EncodeField(Fixed64Field(num, n)) == Varint(8 * num + 1) + Fixed(n, 8)
    ensures EncodeField(BytesField(num, s)) == Varint(8 * num + 2) + (Varint(|s|) + s)
    ensures EncodeField(GroupField(num, fs)) == Varint(8 * num + 3) + (Encode(fs) + Varint(8 * num + 4))
    ensures EncodeField(Fixed32Field(num, n)) == Varint(8 * num + 5) + Fixed(n, 4)
  {
  }

  /** A zero tag ends the message; no field starts with a wire type above 5, with the end of a group, or with
      the number zero. */
  lemma TagsRefused(m: Msg, tag: nat, t: seq<Byte>, depth: nat)
    requires tag < 4294967296
    ensures tag == 0 ==> Parse(m, Varint(tag) + t, depth) == Done(m, t)
    ensures tag != 0 && (tag / 8 == 0 || tag % 8 in {4, 6, 7}) ==> Parse(m, Varint(tag) + t, depth) == Failed
  {
    TagRoundTrip(tag, t);
  }

  /** A group needs one more level of the recursion budget than what it holds. */
  lemma GroupNeedsDepth(num: nat, b: seq<Byte>, depth: nat)
    requires 1 <= num < 0x2000_0000
    ensures SkipField(8 * num + 3, b, 0) == Bad
    ensures SkipField(8 * num + 3, Varint(8 * num + 4) + b, depth + 1) == Got(GroupField(num, []), b)
  {
    TagParts(num, 3);
    TagParts(num, 4);
    SkipGroupEnd(8 * num + 4, b, depth);
  }

  // ---------------------------------------------------------------- which strings are accepted

  /** A string field is taken in when it is UTF-8 and shorter than 2147483648 bytes, and refused otherwise,
      as long as its size fits in 32 bits. */
  lemma AcceptsString(m: Msg, s: seq<Byte>, t: seq<Byte>, depth: nat)
    requires |s| < 4294967296
    ensures Parse(m, [10] + (Varint(|s|) + s + t), depth)
         == if |s| < 2147483648 && Utf8.Valid(s) then Parse(m.(first := s), t, depth) else Failed
    ensures Parse(m, [18] + (Varint(|s|) + s + t), depth)
         == if |s| < 2147483648 && Utf8.Valid(s) then Parse(m.(second := s), t, depth) else Failed
  {
    assert Varint(|s|) + s + t == Sized(s) + t;
    if |s| < 2147483648 {
      ParseFirst(m, s, t, depth);
      ParseSecond(m, s, t, depth);
    } else {
      assert Varint(|s|) + s + t == Varint(|s|) + (s + t);
      Varint64RoundTrip(|s|, s + t);
      RefusesLong(m, 10, Varint(|s|) + s + t, depth);
      RefusesLong(m, 18, Varint(|s|) + s + t, depth);
    }
  }

  lemma RefusesLong(m: Msg, tag: Byte, b: seq<Byte>, depth: nat)
    requires (tag == 10 || tag == 18) && ReadString(b) == Bad
    ensures Parse(m, [tag] + b, depth) == Failed
  {
    assert Varint(tag) == [tag];
    TagRoundTrip(tag, b);
  }

  /** What a message is written as: its strings under 10 and 18, unless empty, and then its unknown fields. */
  lemma SerializedBytes(m: Msg)
    ensures
      var first := if m.first == [] then [] else [10] + (Varint(|m.first|) + m.first);
      var second := if m.second == [] then [] else [18] + (Varint(|m.second|) + m.second);
      && Serialize(m, true) == first + second + Encode(m.unknown)
      && Serialize(m, false) == first + second
  {
    assert Serialize(m, false) == EncodeString(10, m.first) + EncodeString(18, m.second) + [];
  }

  /** A message object fed one string field takes it exactly when it is UTF-8 and below 2147483648 bytes. */
  method ReceiveString(s: seq<Byte>, second: bool, recursionLimit: nat) returns (ok: bool, m: XrpcMessage)
    requires |s| < 4294967296
    ensures ok <==> |s| < 2147483648 && Utf8.Valid(s)
    ensures ok ==> m.State() == if second then Msg([], s, []) else Msg(s, [], [])
  {
    var output := new CodedOutput();
    output.WriteRaw([if second then 18 else 10]);
    output.WriteVarint(|s|);
    output.WriteRaw(s);
    var bytes := output.written;
    assert bytes == [if second then 18 else 10] + (Varint(|s|) + s + []);
    AcceptsString(CLEARED, s, [], recursionLimit);
    ParseEmpty(if second then Msg([], s, []) else Msg(s, [], []), recursionLimit);
    var input := new CodedInput(bytes, recursionLimit);
    m := new XrpcMessage();
    ok := m.MergePartialFromCodedStream(input);
  }
}
