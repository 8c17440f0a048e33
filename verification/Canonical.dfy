/**
 What parsing forgets and what it keeps: the meaning of an arbitrary input, serialization as a
 canonical form, and inputs laid end to end.
 */
module Canonical {
  import opened Bytes
  import opened Wire
  import opened Message

  // ---------------------------------------------------------------- the meaning of a field sequence

  // The last string numbered `num`, or the given one when there is none.
  function Last(fs: seq<Field>, num: nat, s: seq<Byte>): seq<Byte>
    decreases |fs|
  {
    if fs == [] then s else Last(fs[1..], num, if Known(fs[0], num) then fs[0].data else s)
  }

  function Unknowns(fs: seq<Field>): seq<Field> {
    if fs == [] then []
    else if Known(fs[0], 1) || Known(fs[0], 2) then Unknowns(fs[1..])
    else [fs[0]] + Unknowns(fs[1..])
  }

  /** A message holds the last string of each known number and every other field in order. */
  lemma {:induction false} FoldMeans(m: Msg, fs: seq<Field>)
    ensures Fold(m, fs) == Msg(Last(fs, 1, m.first), Last(fs, 2, m.second), m.unknown + Unknowns(fs))
    decreases |fs|
  {
    if fs == [] {
      assert m.unknown + [] == m.unknown;
    } else {
      FoldMeans(Take(m, fs[0]), fs[1..]);
      assert m.unknown + [fs[0]] + Unknowns(fs[1..]) == m.unknown + ([fs[0]] + Unknowns(fs[1..]));
    }
  }

  /**
   Two inputs parse to the same message exactly when they agree on the last string of each known
   number and on the other fields in order. Where the known fields stand among the others, and how the
   numbers are spelled in bytes, makes no difference.
   */
  lemma SameMessageIff(b: seq<Byte>, b': seq<Byte>, depth: nat)
    requires Parse(CLEARED, b, depth).Done? && Parse(CLEARED, b', depth).Done?
    ensures Fields(b, depth).Got? && Fields(b', depth).Got?
    ensures
      var fs, fs' := Fields(b, depth).value, Fields(b', depth).value;
      Parse(CLEARED, b, depth).msg == Parse(CLEARED, b', depth).msg
      <==> && Last(fs, 1, []) == Last(fs', 1, []) && Last(fs, 2, []) == Last(fs', 2, [])
           && Unknowns(fs) == Unknowns(fs')
  {
    ParseIsFold(CLEARED, b, depth);
    ParseIsFold(CLEARED, b', depth);
    FoldMeans(CLEARED, Fields(b, depth).value);
    FoldMeans(CLEARED, Fields(b', depth).value);
    assert forall fs: seq<Field> :: [] + fs == fs;
  }

  // ---------------------------------------------------------------- canonical form

  predicate Canonical(m: Msg, depth: nat) {
    Writable(m, depth) && Textual(m) && NoneKnown(m.unknown)
  }

  lemma {:induction false} NoneKnownConcat(a: seq<Field>, b: seq<Field>)
    ensures NoneKnown(a + b) <==> NoneKnown(a) && NoneKnown(b)
    decreases |a|
  {
    if a == [] {
      assert a + b == b;
    } else {
      NoneKnownConcat(a[1..], b);
      assert (a + b)[1..] == a[1..] + b;
    }
  }

  lemma TakeCanonical(m: Msg, f: Field, depth: nat)
    requires Canonical(m, depth) && WellFormed(f, depth) && Acceptable(f)
    ensures Canonical(Take(m, f), depth)
  {
    if !Known(f, 1) && !Known(f, 2) {
      NoneKnownConcat(m.unknown, [f]);
      AllWellFormedConcat(m.unknown, [f], depth);
    }
  }

  /** Every step of the parser keeps the message canonical. */
  lemma {:induction false} ParseCanonical(m: Msg, b: seq<Byte>, depth: nat)
    requires Canonical(m, depth) && Parse(m, b, depth).Done?
    ensures Canonical(Parse(m, b, depth).msg, depth)
    decreases |b|
  {
    var (tag, rest) := ReadTag(b);
    if tag != 0 {
      ParseStep(m, b, depth);
      SkipFieldWellFormed(tag, rest, depth);
      var f := SkipField(tag, rest, depth);
      TakeCanonical(m, f.value, depth);
      ParseCanonical(Take(m, f.value), f.rest, depth);
    }
  }

  lemma ClearedCanonical(depth: nat)
    ensures Canonical(CLEARED, depth)
  {
  }

  /**
   Serializing what was parsed is a canonical form: it parses back to the same message, so a second
   pass changes nothing, for every input the parser accepts.
   */
  lemma SecondPassIsIdentity(b: seq<Byte>, depth: nat)
    requires Parse(CLEARED, b, depth).Done?
    ensures
      var canonical := Serialize(Parse(CLEARED, b, depth).msg, true);
      && Parse(CLEARED, canonical, depth) == Done(Parse(CLEARED, b, depth).msg, [])
      && Serialize(Parse(CLEARED, canonical, depth).msg, true) == canonical
  {
    ClearedCanonical(depth);
    ParseCanonical(CLEARED, b, depth);
    RoundTripIff(Parse(CLEARED, b, depth).msg, depth);
  }

  /** Canonical messages are told apart by their bytes. */
  lemma SerializeInjective(x: Msg, y: Msg, depth: nat)
    requires Canonical(x, depth) && Canonical(y, depth)
    requires Serialize(x, true) == Serialize(y, true)
    ensures x == y
  {
    RoundTripIff(x, depth);
    RoundTripIff(y, depth);
  }

  predicate NoneNumbered(fs: seq<Field>, num: nat) {
    fs == [] || (!Known(fs[0], num) && NoneNumbered(fs[1..], num))
  }

  // A known field takes effect before or after fields of other numbers alike.
  lemma {:induction false} FoldPast(m: Msg, x: Field, num: nat, fs: seq<Field>)
    requires Known(x, num) && 1 <= num <= 2 && NoneNumbered(fs, num)
    ensures Fold(Take(m, x), fs) == Take(Fold(m, fs), x)
    decreases |fs|
  {
    if fs != [] {
      assert Take(Take(m, x), fs[0]) == Take(Take(m, fs[0]), x);
      FoldPast(Take(m, fs[0]), x, num, fs[1..]);
    }
  }

  lemma FoldAround(m: Msg, p: seq<Field>, x: Field, q: seq<Field>, y: Field, r: seq<Field>)
    ensures Fold(m, p + ([x] + (q + ([y] + r)))) == Fold(Take(Fold(Take(Fold(m, p), x), q), y), r)
  {
    FoldConcat(m, p, [x] + (q + ([y] + r)));
    var m1 := Fold(m, p);
    assert ([x] + (q + ([y] + r)))[1..] == q + ([y] + r);
    FoldConcat(Take(m1, x), q, [y] + r);
    assert ([y] + r)[1..] == r;
  }

  lemma AcceptableAround(p: seq<Field>, x: Field, q: seq<Field>, y: Field, r: seq<Field>, depth: nat)
    ensures
      var fs := p + ([x] + (q + ([y] + r)));
      && (AllAcceptable(fs) <==>
            AllAcceptable(p) && Acceptable(x) && AllAcceptable(q) && Acceptable(y) && AllAcceptable(r))
      && (AllWellFormed(fs, depth) <==>
            && AllWellFormed(p, depth) && WellFormed(x, depth) && AllWellFormed(q, depth) && WellFormed(y, depth)
            && AllWellFormed(r, depth))
  {
    AllAcceptableConcat(p, [x] + (q + ([y] + r)));
    AllAcceptableConcat(q, [y] + r);
    AllWellFormedConcat(p, [x] + (q + ([y] + r)), depth);
    AllWellFormedConcat(q, [y] + r, depth);
    assert ([x] + (q + ([y] + r)))[1..] == q + ([y] + r) && ([y] + r)[1..] == r;
  }

  /** Two known fields of different numbers may change places wherever they stand, with unknown fields
      between them and any fields around them, and whatever the message parsed into. */
  lemma KnownFieldsCommute(m: Msg, p: seq<Field>, x: Field, q: seq<Field>, y: Field, r: seq<Field>, depth: nat)
    requires Known(x, 1) && Known(y, 2) && NoneNumbered(q, 1) && NoneNumbered(q, 2)
    requires AllWellFormed(p + ([x] + (q + ([y] + r))), depth)
    ensures
      Parse(m, Encode(p + ([x] + (q + ([y] + r)))), depth) == Parse(m, Encode(p + ([y] + (q + ([x] + r)))), depth)
  {
    AcceptableAround(p, x, q, y, r, depth);
    AcceptableAround(p, y, q, x, r, depth);
    FoldsCommute(m, p, x, q, y, r);
    ParseWhole(m, p + ([x] + (q + ([y] + r))), depth);
    ParseWhole(m, p + ([y] + (q + ([x] + r))), depth);
  }

  lemma FoldsCommute(m: Msg, p: seq<Field>, x: Field, q: seq<Field>, y: Field, r: seq<Field>)
    requires Known(x, 1) && Known(y, 2) && NoneNumbered(q, 1) && NoneNumbered(q, 2)
    ensures Fold(m, p + ([x] + (q + ([y] + r)))) == Fold(m, p + ([y] + (q + ([x] + r))))
  {
    FoldAround(m, p, x, q, y, r);
    FoldAround(m, p, y, q, x, r);
    FoldPast(Fold(m, p), x, 1, q);
    FoldPast(Fold(m, p), y, 2, q);
  }

  lemma ParseWhole(m: Msg, fs: seq<Field>, depth: nat)
    requires AllWellFormed(fs, depth)
    ensures Parse(m, Encode(fs), depth) == if AllAcceptable(fs) then Done(Fold(m, fs), []) else Failed
  {
    assert Encode(fs) + [] == Encode(fs);
    ParseFields(m, fs, [], depth);
    ParseEmpty(Fold(m, fs), depth);
  }

  // ---------------------------------------------------------------- inputs end to end

  lemma {:induction false} ReadGroupsExtends(b: seq<Byte>, budget: nat, t: seq<Byte>)
    requires ReadGroups(b, budget).Got?
    ensures ReadGroups(b + t, budget) == Got(ReadGroups(b, budget).value, ReadGroups(b, budget).rest + t)
  {
    assert (b + t)[1..] == b[1..] + t;
    if b[0] >= 128 { ReadGroupsExtends(b[1..], budget - 1, t); }
  }

  lemma ReadFixedExtends(b: seq<Byte>, k: nat, t: seq<Byte>)
    requires ReadFixed(b, k).Got?
    ensures ReadFixed(b + t, k) == Got(ReadFixed(b, k).value, ReadFixed(b, k).rest + t)
  {
    assert (b + t)[..k] == b[..k] && (b + t)[k..] == b[k..] + t;
  }

  lemma ReadStringExtends(b: seq<Byte>, t: seq<Byte>)
    requires ReadString(b).Got?
    ensures ReadString(b + t) == Got(ReadString(b).value, ReadString(b).rest + t)
  {
    ReadGroupsExtends(b, 10, t);
    var Got(n, rest) := ReadVarint32(b);
    assert (rest + t)[..n] == rest[..n] && (rest + t)[n..] == rest[n..] + t;
  }

  lemma ReadTagExtends(b: seq<Byte>, t: seq<Byte>)
    requires ReadTag(b).0 != 0
    ensures ReadTag(b + t) == (ReadTag(b).0, ReadTag(b).1 + t)
  {
    ReadGroupsExtends(b, 10, t);
  }

  lemma {:induction false} SkipFieldExtends(tag: nat, b: seq<Byte>, depth: nat, t: seq<Byte>)
    requires SkipField(tag, b, depth).Got?
    ensures SkipField(tag, b + t, depth) == Got(SkipField(tag, b, depth).value, SkipField(tag, b, depth).rest + t)
    decreases |b|, 1
  {
    match tag % 8
    case 0 => ReadGroupsExtends(b, 10, t);
    case 1 => ReadFixedExtends(b, 8, t);
    case 2 => ReadStringExtends(b, t);
    case 3 => SkipGroupExtends(b, depth - 1, t);
    case _ => ReadFixedExtends(b, 4, t);
  }

  lemma {:induction false} SkipGroupExtends(b: seq<Byte>, depth: nat, t: seq<Byte>)
    requires SkipGroup(b, depth).Got? && SkipGroup(b, depth).value.tag != 0
    ensures SkipGroup(b + t, depth) == Got(SkipGroup(b, depth).value, SkipGroup(b, depth).rest + t)
    decreases |b|, 0
  {
    var (tag, rest) := ReadTag(b);
    ReadTagExtends(b, t);
    if tag % 8 != END_GROUP {
      SkipFieldExtends(tag, rest, depth, t);
      SkipGroupExtends(SkipField(tag, rest, depth).rest, depth, t);
    }
  }

  /** The input is all fields: it ends where a field ends, not at a zero or malformed tag. */
  predicate Whole(b: seq<Byte>, depth: nat)
    decreases |b|
  {
    b == []
    || var (tag, rest) := ReadTag(b);
       && tag != 0
       && SkipField(tag, rest, depth).Got?
       && Whole(SkipField(tag, rest, depth).rest, depth)
  }

  /** Input after a whole input is parsed as if the first had been parsed alone. */
  lemma {:induction false} ParseResumes(m: Msg, b: seq<Byte>, t: seq<Byte>, depth: nat)
    requires Whole(b, depth)
    ensures
      Parse(m, b + t, depth)
      == match Parse(m, b, depth) case Failed => Failed case Done(m', _) => Parse(m', t, depth)
    decreases |b|
  {
    if b == [] {
      assert b + t == t;
    } else {
      var (tag, rest) := ReadTag(b);
      var f := SkipField(tag, rest, depth);
      ReadTagExtends(b, t);
      SkipFieldExtends(tag, rest, depth, t);
      ParseStep(m, b, depth);
      ParseStep(m, b + t, depth);
      if Acceptable(f.value) { ParseResumes(Take(m, f.value), f.rest, t, depth); }
    }
  }

  // The last string numbered `num` is there and empty.
  predicate Blanks(fs: seq<Field>, num: nat) {
    Last(fs, num, [0]) == []
  }

  lemma {:induction false} LastDefault(fs: seq<Field>, num: nat, s: seq<Byte>, s': seq<Byte>)
    ensures Last(fs, num, s) == Last(fs, num, s') || (Last(fs, num, s) == s && Last(fs, num, s') == s')
    decreases |fs|
  {
    if fs != [] && !Known(fs[0], num) { LastDefault(fs[1..], num, s, s'); }
  }

  lemma FoldIntoIffMerge(m: Msg, fs: seq<Field>)
    ensures
      Fold(m, fs) == MergeFrom(m, Fold(CLEARED, fs))
      <==> (Blanks(fs, 1) ==> m.first == []) && (Blanks(fs, 2) ==> m.second == [])
  {
    FoldMeans(m, fs);
    FoldMeans(CLEARED, fs);
    assert [] + Unknowns(fs) == Unknowns(fs);
    LastDefault(fs, 1, m.first, []);
    LastDefault(fs, 1, [0], []);
    LastDefault(fs, 1, [0], m.first);
    LastDefault(fs, 2, m.second, []);
    LastDefault(fs, 2, [0], []);
    LastDefault(fs, 2, [0], m.second);
  }

  /**
   Parsing into a message and merging in the parsed message agree exactly when no known string is
   blanked: on the wire an explicit empty string overrides, in a merge it does not.
   */
  lemma ParseIntoIffMerge(m: Msg, b: seq<Byte>, depth: nat)
    requires Parse(CLEARED, b, depth).Done?
    ensures Parse(m, b, depth).Done? && Fields(b, depth).Got?
    ensures
      var fs := Fields(b, depth).value;
      Parse(m, b, depth).msg == MergeFrom(m, Parse(CLEARED, b, depth).msg)
      <==> (Blanks(fs, 1) ==> m.first == []) && (Blanks(fs, 2) ==> m.second == [])
  {
    ParseIsFold(CLEARED, b, depth);
    ParseIsFold(m, b, depth);
    FoldIntoIffMerge(m, Fields(b, depth).value);
  }
}
