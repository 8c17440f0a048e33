/**
 The generated message class over its streams: the parse loop consumes an input stream, one serializer
 appends to an output stream, the other fills an array, and the size is accumulated. Each is proved
 against the functions of module Message.
 */
module Codec {
  import opened Bytes
  import opened Wire
  import opened Message

  // ---------------------------------------------------------------- streams

  class CodedInput {
    var rest: seq<Byte>
    const depth: nat

    constructor (bytes: seq<Byte>, recursionLimit: nat)
      ensures rest == bytes && depth == recursionLimit
    {
      rest := bytes;
      depth := recursionLimit;
    }

    // The tag, and whether it lies in 1..cutoff.
    method ReadTagWithCutoff(cutoff: nat) returns (tag: nat, within: bool)
      modifies this
      ensures (tag, rest) == ReadTag(old(rest))
      ensures within <==> 1 <= tag <= cutoff
    {
      var r := ReadTag(rest);
      tag, rest := r.0, r.1;
      within := 1 <= tag <= cutoff;
    }

    method ReadBytes() returns (ok: bool, s: seq<Byte>)
      modifies this
      ensures ok <==> ReadString(old(rest)).Got?
      ensures ok ==> ReadString(old(rest)) == Got(s, rest)
    {
      match ReadString(rest)
      case Bad => ok, s := false, [];
      case Got(v, r) => ok, s, rest := true, v, r;
    }

    method Skip(tag: nat) returns (ok: bool, fields: seq<Field>)
      modifies this
      ensures ok <==> SkipField(tag, old(rest), depth).Got?
      ensures ok ==> fields == [SkipField(tag, old(rest), depth).value]
      ensures ok ==> rest == SkipField(tag, old(rest), depth).rest
    {
      match SkipField(tag, rest, depth)
      case Bad => ok, fields := false, [];
      case Got(f, r) => ok, fields, rest := true, [f], r;
    }
  }

  lemma VarintNext(done: seq<Byte>, n: nat)
    requires n >= 128
    ensures done + Varint(n) == done + [n % 128 + 128] + Varint(n / 128)
  {
    assert Varint(n) == [n % 128 + 128] + Varint(n / 128);
  }

  class CodedOutput {
    var written: seq<Byte>

    constructor ()
      ensures written == []
    {
      written := [];
    }

    method WriteRaw(s: seq<Byte>)
      modifies this
      ensures written == old(written) + s
    {
      written := written + s;
    }

    method WriteVarint(value: nat)
      modifies this
      ensures written == old(written) + Varint(value)
    {
      var n := value;
      while n >= 128
        invariant written + Varint(n) == old(written) + Varint(value)
      {
        VarintNext(written, n);
        written := written + [n % 128 + 128];
        n := n / 128;
      }
      written := written + [n];
    }

    method WriteSized(s: seq<Byte>)
      modifies this
      ensures written == old(written) + Sized(s)
    {
      WriteVarint(|s|);
      WriteRaw(s);
    }

    // Tag, size and contents of a string field.
    method WriteString(num: nat, s: seq<Byte>)
      requires 1 <= num <= 2 && s != []
      modifies this
      ensures written == old(written) + EncodeString(8 * num + 2, s)
    {
      assert Varint(8 * num + 2) == [8 * num + 2];
      WriteVarint(8 * num + 2);
      WriteSized(s);
    }

    method WriteGroup(num: nat, fs: seq<Field>)
      modifies this
      ensures written == old(written) + (Encode(fs) + Varint(8 * num + END_GROUP))
      decreases fs, 2
    {
      WriteFields(fs);
      WriteVarint(8 * num + END_GROUP);
    }

    method WritePayload(f: Field)
      modifies this
      ensures written == old(written) + Payload(f)
      decreases f, 0
    {
      match f
      case VarintField(_, v) => WriteVarint(v);
      case Fixed64Field(_, v) => WriteRaw(Fixed(v, 8));
      case BytesField(_, s) => WriteSized(s);
      case GroupField(num, fs) => WriteGroup(num, fs);
      case Fixed32Field(_, v) => WriteRaw(Fixed(v, 4));
    }

    method WriteFields(fs: seq<Field>)
      modifies this
      ensures written == old(written) + Encode(fs)
      decreases fs, 1
    {
      for i := 0 to |fs|
        invariant written + Encode(fs[i..]) == old(written) + Encode(fs)
      {
        WriteField(fs, i);
      }
    }

    method WriteField(fs: seq<Field>, i: nat)
      requires i < |fs|
      modifies this
      ensures written + Encode(fs[i + 1..]) == old(written) + Encode(fs[i..])
      decreases fs, 0
    {
      ghost var before, tail := written, Encode(fs[i + 1..]);
      WriteVarint(Tag(fs[i]));
      WritePayload(fs[i]);
      assert fs[i..][0] == fs[i] && fs[i..][1..] == fs[i + 1..];
      assert before + Varint(Tag(fs[i])) + Payload(fs[i]) + tail
          == before + (Varint(Tag(fs[i])) + Payload(fs[i]) + tail);
    }
  }

  // ---------------------------------------------------------------- writing into an array

  function Splice(s: seq<Byte>, at: nat, b: seq<Byte>): (r: seq<Byte>)
    requires at + |b| <= |s|
    ensures |r| == |s|
  {
    s[..at] + b + s[at + |b|..]
  }

  lemma SpliceConcat(s: seq<Byte>, at: nat, x: seq<Byte>, y: seq<Byte>)
    requires at + |x| + |y| <= |s|
    ensures Splice(Splice(s, at, x), at + |x|, y) == Splice(s, at, x + y)
  {
  }

  lemma SpliceNext(s: seq<Byte>, at: nat, done: seq<Byte>, b: Byte)
    requires at + |done| < |s|
    ensures Splice(s, at, done)[at + |done| := b] == Splice(s, at, done + [b])
  {
  }

  method RawToArray(s: seq<Byte>, a: array<Byte>, at: nat) returns (end: nat)
    requires at + |s| <= a.Length
    modifies a
    ensures end == at + |s| && a[..] == Splice(old(a[..]), at, s)
  {
    for i := 0 to |s|
      invariant a[..] == Splice(old(a[..]), at, s[..i])
    {
      assert s[..i + 1] == s[..i] + [s[i]];
      SpliceNext(old(a[..]), at, s[..i], s[i]);
      a[at + i] := s[i];
    }
    assert s[..|s|] == s;
    end := at + |s|;
  }

  method VarintToArray(value: nat, a: array<Byte>, at: nat) returns (end: nat)
    requires at + |Varint(value)| <= a.Length
    modifies a
    ensures end == at + |Varint(value)| && a[..] == Splice(old(a[..]), at, Varint(value))
  {
    var n := value;
    end := at;
    ghost var done: seq<Byte> := [];
    while n >= 128
      invariant done + Varint(n) == Varint(value)
      invariant end == at + |done| && a[..] == Splice(old(a[..]), at, done)
    {
      VarintNext(done, n);
      SpliceNext(old(a[..]), at, done, n % 128 + 128);
      a[end] := n % 128 + 128;
      done := done + [n % 128 + 128];
      n := n / 128;
      end := end + 1;
    }
    SpliceNext(old(a[..]), at, done, n);
    a[end] := n;
    end := end + 1;
  }

  method SizedToArray(s: seq<Byte>, a: array<Byte>, at: nat) returns (end: nat)
    requires at + |Sized(s)| <= a.Length
    modifies a
    ensures end == at + |Sized(s)| && a[..] == Splice(old(a[..]), at, Sized(s))
  {
    end := VarintToArray(|s|, a, at);
    SpliceConcat(old(a[..]), at, Varint(|s|), s);
    end := RawToArray(s, a, end);
  }

  method StringToArray(num: nat, s: seq<Byte>, a: array<Byte>, at: nat) returns (end: nat)
    requires 1 <= num <= 2 && s != []
    requires at + |EncodeString(8 * num + 2, s)| <= a.Length
    modifies a
    ensures end == at + |EncodeString(8 * num + 2, s)|
    ensures a[..] == Splice(old(a[..]), at, EncodeString(8 * num + 2, s))
  {
    assert Varint(8 * num + 2) == [8 * num + 2];
    end := VarintToArray(8 * num + 2, a, at);
    SpliceConcat(old(a[..]), at, Varint(8 * num + 2), Sized(s));
    end := SizedToArray(s, a, end);
  }

  method GroupToArray(num: nat, fs: seq<Field>, a: array<Byte>, at: nat) returns (end: nat)
    requires at + |Encode(fs) + Varint(8 * num + END_GROUP)| <= a.Length
    modifies a
    ensures end == at + |Encode(fs) + Varint(8 * num + END_GROUP)|
    ensures a[..] == Splice(old(a[..]), at, Encode(fs) + Varint(8 * num + END_GROUP))
    decreases fs, 2
  {
    end := FieldsToArray(fs, a, at);
    SpliceConcat(old(a[..]), at, Encode(fs), Varint(8 * num + END_GROUP));
    end := VarintToArray(8 * num + END_GROUP, a, end);
  }

  method PayloadToArray(f: Field, a: array<Byte>, at: nat) returns (end: nat)
    requires at + |Payload(f)| <= a.Length
    modifies a
    ensures end == at + |Payload(f)| && a[..] == Splice(old(a[..]), at, Payload(f))
    decreases f, 0
  {
    match f
    case VarintField(_, v) => end := VarintToArray(v, a, at);
    case Fixed64Field(_, v) => end := RawToArray(Fixed(v, 8), a, at);
    case BytesField(_, s) => end := SizedToArray(s, a, at);
    case GroupField(num, fs) => end := GroupToArray(num, fs, a, at);
    case Fixed32Field(_, v) => end := RawToArray(Fixed(v, 4), a, at);
  }

  method FieldToArray(f: Field, a: array<Byte>, at: nat) returns (end: nat)
    requires at + |EncodeField(f)| <= a.Length
    modifies a
    ensures end == at + |EncodeField(f)| && a[..] == Splice(old(a[..]), at, EncodeField(f))
    decreases f, 1
  {
    ghost var x, y := Varint(Tag(f)), Payload(f);
    assert EncodeField(f) == x + y;
    SpliceConcat(a[..], at, x, y);
    end := VarintToArray(Tag(f), a, at);
    end := PayloadToArray(f, a, end);
  }

  method FieldsToArray(fs: seq<Field>, a: array<Byte>, at: nat) returns (end: nat)
    requires at + |Encode(fs)| <= a.Length
    modifies a
    ensures end == at + |Encode(fs)| && a[..] == Splice(old(a[..]), at, Encode(fs))
    decreases fs, 1
  {
    end := at;
    for i := 0 to |fs|
      invariant end == at + |Encode(fs[..i])|
      invariant at + |Encode(fs[..i])| <= a.Length && a[..] == Splice(old(a[..]), at, Encode(fs[..i]))
    {
      EncodeSplit(fs, i + 1);
      EncodeOneMore(fs, i);
      end := FieldToArray(fs[i], a, end);
      SpliceConcat(old(a[..]), at, Encode(fs[..i]), EncodeField(fs[i]));
    }
    assert fs[..|fs|] == fs;
  }

  lemma EncodeOneMore(fs: seq<Field>, i: nat)
    requires i < |fs|
    ensures Encode(fs[..i + 1]) == Encode(fs[..i]) + EncodeField(fs[i])
  {
    assert fs[..i + 1] == fs[..i] + [fs[i]] && [fs[i]] + [] == [fs[i]];
    EncodeConcat(fs[..i], [fs[i]]);
    EncodeCons(fs[i], []);
  }

  lemma EncodeSplit(fs: seq<Field>, i: nat)
    requires i <= |fs|
    ensures Encode(fs[..i]) + Encode(fs[i..]) == Encode(fs)
  {
    assert fs == fs[..i] + fs[i..];
    EncodeConcat(fs[..i], fs[i..]);
  }
}
