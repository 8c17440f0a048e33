/**
 Digests and signatures as the texts that requests and listings carry, and the way from a listed text
 to the transaction built from it.

 The Base64 decoder and the meaning of 32 bytes as a digest lie outside the repository; `Library` stands
 for them, and each theorem says what it needs of it.
 */
module Texts {
  import opened Options
  import opened Bytes
  import opened Ledger
  import opened Admission
  import opened Queries
  import Base64

  const DIGEST_SIZE := 32

  // `decode` is the decoder; `past` is what 32 bytes hold that start in a shorter buffer.
  datatype Library = Library(decode: string -> seq<Byte>, past: seq<Byte> -> seq<Byte>,
                             bytesOf: Digest -> seq<Byte>, digestOf: seq<Byte> -> Digest)

  /** The decoder follows section 4 of RFC 4648 on canonical texts, whatever it makes of others. */
  ghost predicate Decodes(lib: Library) {
    forall text :: Base64.Canonical(text) ==> Some(lib.decode(text)) == Base64.Decode(text)
  }

  // The 32 bytes of this digest stand for no other; so the finitely many digests in use all are.
  predicate Legible(d: Digest, lib: Library) {
    |lib.bytesOf(d)| == 32 && lib.digestOf(lib.bytesOf(d)) == d
  }

  // The 32 bytes at the start of a buffer.
  function First32(b: seq<Byte>, lib: Library): seq<Byte> {
    if |b| >= DIGEST_SIZE then b[..DIGEST_SIZE] else lib.past(b)
  }

  // What `c_str` shows of a string: the part before the first zero character.
  function UpToNul(s: string): string {
    if s == "" || s[0] == 0 as char then "" else [s[0]] + UpToNul(s[1..])
  }

  // ---------------------------------------------------------------- the conversions

  function HashToJson(hash: seq<Byte>): string {
    Base64.Encode(hash)
  }

  function JsonToHash(text: string, lib: Library): seq<Byte> {
    First32(lib.decode(UpToNul(text)), lib)
  }

  function SignatureToJson(signature: seq<Byte>): string {
    Base64.Encode(signature)
  }

  function JsonToSignature(text: string, lib: Library): seq<Byte> {
    lib.decode(text)
  }

  predicate NoNul(s: string) {
    forall i :: 0 <= i < |s| ==> s[i] != 0 as char
  }

  lemma {:induction false} UpToNulIs(s: string)
    requires NoNul(s)
    ensures UpToNul(s) == s
  {
    if s != "" { UpToNulIs(s[1..]); }
  }

  lemma {:induction false} EncodeHasNoNul(b: seq<Byte>)
    ensures NoNul(Base64.Encode(b))
  {
    if |b| > 3 { EncodeHasNoNul(b[3..]); }
  }

  /** The text of every 32-byte hash converts back to it. */
  lemma HashEcho(hash: seq<Byte>, lib: Library)
    requires Decodes(lib) && |hash| == 32
    ensures JsonToHash(HashToJson(hash), lib) == hash
  {
    EncodeHasNoNul(hash);
    UpToNulIs(Base64.Encode(hash));
    Base64.DecodeEncode(hash);
    assert hash[..DIGEST_SIZE] == hash;
  }

  /** Signatures of any bytes survive the trip, and among canonical texts each has one. */
  lemma SignatureEcho(signature: seq<Byte>, text: string, lib: Library)
    requires Decodes(lib)
    ensures JsonToSignature(SignatureToJson(signature), lib) == signature
    ensures Base64.Canonical(text) ==>
              (JsonToSignature(text, lib) == signature <==> text == SignatureToJson(signature))
  {
    Base64.DecodeEncode(signature);
    if Base64.Canonical(text) { Base64.EncodeDecode(text); }
  }

  // ---------------------------------------------------------------- addresses

  const GENESIS := "T-Um45LZ8HZYUpm5jdWi6bh99mdNjEHkz6w"
  const USER_A := "T-cEcYfbpbmGvwQbHL349G8khFMcqLmpxig"
  const USER_B := "T-c1ayVXVmMPajuCTj1ahgWLPyU4m9XUBGk"

  // The three addresses compiled into the server, and any other text.
  function AddressOf(text: string): Address {
    if text == GENESIS then Genesis
    else if text == USER_A then UserA
    else if text == USER_B then UserB
    else Named(text)
  }

  function AddressText(a: Address): string {
    match a
    case Genesis => GENESIS
    case UserA => USER_A
    case UserB => USER_B
    case Named(text) => text
  }

  /** Addresses are told apart by their texts, and the server signs for exactly three of them. */
  lemma BuiltInIff(text: string)
    ensures AddressText(AddressOf(text)) == text
    ensures NoHash(AddressOf(text)) <==> text in {GENESIS, USER_A, USER_B}
    ensures AddressOf(GENESIS) == Genesis && AddressOf(USER_A) == UserA && AddressOf(USER_B) == UserB
  {
    assert GENESIS[2] == 'U' && USER_A[2] == 'c' && USER_B[2] == 'c' && USER_A[3] == 'E' && USER_B[3] == '1';
  }

  // ---------------------------------------------------------------- requests and listings

  /** A request as it arrives: three members of `root` are still texts, and these are the texts. */
  datatype Request = Request(root: Root, lastDigest: string, txDigest: string, signature: string)

  // The handler decodes without the detour through `c_str`.
  function ReadDigest(text: string, lib: Library): Digest {
    lib.digestOf(First32(lib.decode(text), lib))
  }

  function Decoded(request: Request, lib: Library): Root {
    request.root.(lastDigest := ReadDigest(request.lastDigest, lib), txDigest := ReadDigest(request.txDigest, lib),
                  signature := JsonToSignature(request.signature, lib))
  }

  // A digest in a response is printed as the text of its bytes.
  function Printed(j: Json, lib: Library): string
    requires j.Dig?
  {
    HashToJson(lib.bytesOf(j.d))
  }

  /** A printed digest reads back as that digest. */
  lemma DigestEcho(d: Digest, lib: Library)
    requires Decodes(lib) && Legible(d, lib)
    ensures ReadDigest(Printed(Dig(d), lib), lib) == d
    ensures JsonToHash(Printed(Dig(d), lib), lib) == lib.bytesOf(d)
  {
    HashEcho(lib.bytesOf(d), lib);
    Base64.DecodeEncode(lib.bytesOf(d));
    assert lib.bytesOf(d)[..DIGEST_SIZE] == lib.bytesOf(d);
  }

  /** A transfer_in that echoes the text of a pending entry, and for a client-signed account the text of a
      listed digest as its link, is built for that entry and linked to that digest, whatever the store
      does; and if it settles it takes in an entry with that very digest. */
  lemma EchoReachesTransaction(entry: Tx, last: Digest, request: Request, now: int, lib: Library,
                               view: nat -> Store, verify: Tx -> bool)
    requires Decodes(lib) && Legible(entry.digest, lib) && Legible(last, lib)
    requires request.root.action == TransferIn
    requires request.txDigest == Printed(PendingRow(entry)[Block], lib)
    requires request.lastDigest == Printed(Dig(last), lib)
    ensures
      var root := Decoded(request, lib);
      var g := Complete(Begin(root, now), view, 0, verify);
      g.outcome == Ok ==>
        && g.tx.body == InBody(root.account, ToUint64(root.timestamp), entry.digest)
        && (!ServerSigned(root) ==> g.tx.prev == last && g.tx.signature == Supplied(root.signature))
        && forall s :: CanSettle(s, g.tx) ==>
             var blocks := s.ReceiveBlocks(root.account);
             blocks[Find(blocks, entry.digest)].digest == entry.digest
  {
    DigestEcho(entry.digest, lib);
    DigestEcho(last, lib);
    CompleteOk(Begin(Decoded(request, lib), now), view, 0, verify);
  }
}
