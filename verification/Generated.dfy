/**
 The generated message object itself. Its parse loop, two serializers, size computation and merge,
 copy and clear update fields in place; each is proved against a function of module Message.
 */
module Generated {
  import opened Bytes
  import opened Wire
  import opened Message
  import opened Codec
  import Utf8

  // The low 32 bits as a signed number.
  function ToCachedSize(size: nat): (c: int)
    ensures -0x8000_0000 <= c < 0x8000_0000 && (size - c) % TWO32 == 0
  {
    var low := size % TWO32;
    if low < 0x8000_0000 then low else low - TWO32
  }

  predicate Refused(m: Msg, b: seq<Byte>, depth: nat, left: Msg) {
    var (held, tag) := Stopped(m, b, depth);
    Remains(held, tag, left)
  }

  class XrpcMessage {
    var first: seq<Byte>
    var second: seq<Byte>
    var unknown: seq<Field>
    var cachedSize: int

    ghost function State(): Msg
      reads this
    {
      Msg(first, second, unknown)
    }

    constructor ()
      ensures State() == CLEARED
    {
      first, second, unknown, cachedSize := [], [], [], 0;
    }

    method Clear()
      modifies this
      ensures State() == CLEARED
    {
      first := [];
      second := [];
      unknown := [];
    }

    /**
     The parse loop. On success the message and the stream are as `Parse` says; on failure the message
     keeps what was read before the refused field, but for the part that field belongs to.
     */
    method MergePartialFromCodedStream(input: CodedInput) returns (ok: bool)
      modifies this, input
      ensures ok <==> Parse(old(State()), old(input.rest), input.depth).Done?
      ensures ok ==> Parse(old(State()), old(input.rest), input.depth) == Done(State(), input.rest)
      ensures !ok ==>
                Refused(old(State()), old(input.rest), input.depth, State())
    {
      var more := true;
      ok := true;
      while more
        invariant more ==> ok && Parse(State(), input.rest, input.depth)
                              == Parse(old(State()), old(input.rest), input.depth)
        invariant more ==> Stopped(State(), input.rest, input.depth)
                           == Stopped(old(State()), old(input.rest), input.depth)
        invariant !ok ==> Refused(old(State()), old(input.rest), input.depth, State())
        invariant !more ==> (ok <==> Parse(old(State()), old(input.rest), input.depth).Done?)
        invariant !more && ok ==> Parse(old(State()), old(input.rest), input.depth) == Done(State(), input.rest)
        decreases more, |input.rest|
      {
        ghost var m, b := State(), input.rest;
        more, ok := MergeField(input);
        if !ok || more { ParseStep(m, b, input.depth); }
      }
    }

    // One turn of the loop: a field is taken in, the message ends, or the input is refused.
    method MergeField(input: CodedInput) returns (more: bool, ok: bool)
      modifies this, input
      ensures ReadTag(old(input.rest)).0 == 0 <==> ok && !more
      ensures ok && !more ==> State() == old(State()) && input.rest == ReadTag(old(input.rest)).1
      ensures !ok ==> Remains(old(State()), ReadTag(old(input.rest)).0, State())
      ensures
        var (tag, b) := ReadTag(old(input.rest));
        tag != 0 ==>
          match SkipField(tag, b, input.depth)
          case Bad => !ok && !more
          case Got(f, rest) =>
            if Acceptable(f) then ok && more && State() == Take(old(State()), f) && input.rest == rest
            else !ok && !more
    {
      var tag, within := input.ReadTagWithCutoff(127);
      if within && tag / 8 == 1 && tag % 256 == FIRST_TAG {
        SkipKnown(tag, input.rest, input.depth);
        var valid, s := ReadText(input);
        first := s;
        return valid, valid;
      } else if within && tag / 8 == 2 && tag % 256 == SECOND_TAG {
        SkipKnown(tag, input.rest, input.depth);
        var valid, s := ReadText(input);
        second := s;
        return valid, valid;
      } else if tag == 0 {
        return false, true;
      } else {
        SkipUnknown(tag, input.rest, input.depth);
        var read, f := input.Skip(tag);
        unknown := unknown + f;
        return read, read;
      }
    }

    // A string of the stream, checked to be UTF-8.
    method ReadText(input: CodedInput) returns (valid: bool, s: seq<Byte>)
      modifies input
      ensures valid <==> ReadString(old(input.rest)).Got? && Utf8.Valid(ReadString(old(input.rest)).value)
      ensures valid ==> ReadString(old(input.rest)) == Got(s, input.rest)
    {
      valid, s := input.ReadBytes();
      valid := valid && Utf8.Valid(s);
    }

    method SerializeWithCachedSizes(output: CodedOutput, preserve: bool)
      modifies output
      ensures output.written == old(output.written) + Serialize(State(), preserve)
    {
      ghost var x, y := EncodeString(FIRST_TAG, first), EncodeString(SECOND_TAG, second);
      WriteStringField(1, first, output);
      WriteStringField(2, second, output);
      assert output.written == old(output.written) + (x + y);
      if |unknown| > 0 && preserve {
        output.WriteFields(unknown);
      }
    }

    // An empty string is not written.
    method WriteStringField(num: nat, s: seq<Byte>, output: CodedOutput)
      requires 1 <= num <= 2
      modifies output
      ensures output.written == old(output.written) + EncodeString(8 * num + 2, s)
    {
      if |s| > 0 {
        output.WriteString(num, s);
      }
    }

    method SerializeToArray(a: array<Byte>, target: nat, preserve: bool) returns (end: nat)
      requires target + |Serialize(State(), preserve)| <= a.Length
      modifies a
      ensures end == target + |Serialize(State(), preserve)|
      ensures a[..] == Splice(old(a[..]), target, Serialize(State(), preserve))
    {
      end := StringsToArray(a, target);
      SpliceConcat(old(a[..]), target, Strings(), if preserve then Encode(unknown) else []);
      end := UnknownToArray(preserve, a, end);
    }

    ghost function Strings(): seq<Byte>
      reads this
    {
      EncodeString(FIRST_TAG, first) + EncodeString(SECOND_TAG, second)
    }

    method StringsToArray(a: array<Byte>, at: nat) returns (end: nat)
      requires at + |Strings()| <= a.Length
      modifies a
      ensures end == at + |Strings()| && a[..] == Splice(old(a[..]), at, Strings())
    {
      end := StringFieldToArray(1, first, a, at);
      SpliceConcat(old(a[..]), at, EncodeString(FIRST_TAG, first), EncodeString(SECOND_TAG, second));
      end := StringFieldToArray(2, second, a, end);
    }

    method StringFieldToArray(num: nat, s: seq<Byte>, a: array<Byte>, at: nat) returns (end: nat)
      requires 1 <= num <= 2 && at + |EncodeString(8 * num + 2, s)| <= a.Length
      modifies a
      ensures end == at + |EncodeString(8 * num + 2, s)|
      ensures a[..] == Splice(old(a[..]), at, EncodeString(8 * num + 2, s))
    {
      end := at;
      if |s| > 0 {
        end := StringToArray(num, s, a, end);
      }
    }

    method UnknownToArray(preserve: bool, a: array<Byte>, at: nat) returns (end: nat)
      requires at + |if preserve then Encode(unknown) else []| <= a.Length
      modifies a
      ensures
        var z := if preserve then Encode(unknown) else [];
        end == at + |z| && a[..] == Splice(old(a[..]), at, z)
    {
      end := at;
      if |unknown| > 0 && preserve {
        end := FieldsToArray(unknown, a, end);
      }
    }

    /** The size is that of the bytes either serializer writes; its low 32 bits are cached, signed. */
    method ByteSizeLong(preserve: bool) returns (total: nat)
      modifies `cachedSize
      ensures total == |Serialize(State(), preserve)|
      ensures cachedSize == ToCachedSize(total)
    {
      total := 0;
      if |unknown| > 0 && preserve {
        total := total + FieldsSize(unknown);
      }
      if |first| > 0 {
        total := total + StringSize(first);
      }
      if |second| > 0 {
        total := total + StringSize(second);
      }
      ByteSizeIs(State(), preserve);
      cachedSize := ToCachedSize(total);
    }

    method MergeFrom(from: XrpcMessage)
      requires from != this
      modifies this
      ensures State() == Message.MergeFrom(old(State()), from.State())
    {
      unknown := unknown + from.unknown;
      if |from.first| > 0 {
        first := from.first;
      }
      if |from.second| > 0 {
        second := from.second;
      }
    }

    // Copying from itself leaves the message alone.
    method CopyFrom(from: XrpcMessage)
      modifies this
      ensures State() == old(from.State())
    {
      if from == this { return; }
      Clear();
      MergeFrom(from);
      MergeIntoCleared(from.State());
    }
  }

  /** Both serializers of a message write the same bytes, as many as the size computed beforehand. */
  method WriteBothWays(m: XrpcMessage, preserve: bool) returns (stream: seq<Byte>, block: seq<Byte>)
    modifies m`cachedSize
    ensures stream == block == Serialize(m.State(), preserve)
  {
    var output := new CodedOutput();
    m.SerializeWithCachedSizes(output, preserve);
    stream := output.written;
    var size := m.ByteSizeLong(preserve);
    var a := new Byte[size](_ => 0);
    var end := m.SerializeToArray(a, 0, preserve);
    block := a[..end];
  }

  /** What one object writes, another reads back: the round trip through the objects themselves. */
  method SendAndReceive(m: XrpcMessage, recursionLimit: nat) returns (ok: bool, received: XrpcMessage)
    requires Writable(m.State(), recursionLimit)
    modifies m`cachedSize
    ensures ok && received.State() == m.State() <==> Textual(m.State()) && NoneKnown(m.unknown)
  {
    var bytes, _ := WriteBothWays(m, true);
    RoundTripIff(m.State(), recursionLimit);
    var input := new CodedInput(bytes, recursionLimit);
    received := new XrpcMessage();
    ok := received.MergePartialFromCodedStream(input);
    if ok { SentEntirely(m.State(), recursionLimit); }
  }

  lemma SentEntirely(m: Msg, depth: nat)
    requires Writable(m, depth) && Parse(CLEARED, Serialize(m, true), depth).Done?
    ensures Parse(CLEARED, Serialize(m, true), depth).rest == []
  {
    SerializeIsEncode(m, true);
    FieldsOfFit(m, true, depth);
    var fs := FieldsOf(m, true);
    assert Encode(fs) + [] == Encode(fs);
    ParseFields(CLEARED, fs, [], depth);
    ParseEmpty(Fold(CLEARED, fs), depth);
  }
}
