/**
 The part of the chain an RPC node can see: transactions, their digests, the account
 store it reads, and the rules by which consensus settles a proposal.

 The settle rules are environment assumptions: the store and consensus code is not part
 of this model. Nothing here checks a balance; that is left to the RPC handler.
 */
module Ledger {
  import opened Bytes
  import opened Options

  // Addresses. The first three are compiled into the server together with their keys.
  datatype Address = Genesis | UserA | UserB | Named(text: string)

  datatype Kind = CreateAccount | TransferAssetOut | TransferAssetIn | DataProperty

  datatype Params = Text(text: string) | Ref(digest: Digest)

  // Everything the hash covers except the link to the sender's previous transaction.
  datatype Body = Body(kind: Kind, sender: Address, receiver: Address, key: string, params: Params, timestamp: int)

  // Digests are symbolic: two digests are equal exactly when they hash the same content.
  datatype Digest = Zero | Hash(body: Body, prev: Digest)

  datatype Signature = Unsigned | SignedBy(who: Address, digest: Digest) | Supplied(bytes: seq<Byte>)

  datatype Tx = Tx(body: Body, prev: Digest, nonce: int, workProof: int, digest: Digest, signature: Signature,
                   edgeTime: int, originSender: Address, originAmount: string)

  const NATIVE_ASSET := "$$"

  // The member a handler starts with, before any builder has filled it in.
  const BLANK_TX :=
    Tx(Body(CreateAccount, Named(""), Named(""), "", Text(""), 0), Zero, 0, 0, Zero, Unsigned, 0, Named(""), "")

  predicate WellHashed(tx: Tx) {
    tx.digest == Hash(tx.body, tx.prev)
  }

  // Length of the chain of predecessors of a digest.
  function Depth(d: Digest): nat {
    match d
    case Zero => 0
    case Hash(_, prev) => 1 + Depth(prev)
  }

  /** Decimal text to a signed 64-bit number as `std::stoll` reads it; None stands for the
      exception it throws. Trailing text after the digits is ignored. */
  function Stoll(s: string): Option<int> {
    var t := SkipSpace(s);
    var signed := t != "" && (t[0] == '-' || t[0] == '+');
    var u := if signed then t[1..] else t;
    if u == "" || !IsDigit(u[0]) then None
    else
      var n := if signed && t[0] == '-' then -ReadDigits(u, 0) else ReadDigits(u, 0);
      if -0x8000_0000_0000_0000 <= n < 0x8000_0000_0000_0000 then Some(n) else None
  }

  predicate IsDigit(c: char) {
    '0' <= c <= '9'
  }

  function SkipSpace(s: string): string {
    if s != "" && (s[0] == ' ' || 9 <= s[0] as int <= 13) then SkipSpace(s[1..]) else s
  }

  function ReadDigits(s: string, acc: int): int {
    if s == "" || !IsDigit(s[0]) then acc
    else ReadDigits(s[1..], 10 * acc + (s[0] as int - '0' as int))
  }

  lemma ReadDigit(s: string, acc: int)
    requires s != "" && IsDigit(s[0])
    ensures ReadDigits(s, acc) == ReadDigits(s[1..], 10 * acc + (s[0] as int - '0' as int))
  {
  }

  lemma ZeroParses()
    ensures Stoll("0") == Some(0)
  {
    ReadDigit("0", 0);
  }

  function Amount(p: Params): Option<int> {
    match p
    case Text(t) => Stoll(t)
    case Ref(_) => None
  }

  // ---------------------------------------------------------------- the store

  datatype Account = Account(head: Digest, balances: map<string, int>, properties: map<string, string>)

  // Both lists are newest first, as the queries print them.
  datatype Store = Store(accounts: map<Address, Account>,
                         receive: map<Address, seq<Tx>>,
                         settled: map<Address, seq<Tx>>)
  {
    function ReceiveBlocks(a: Address): seq<Tx> {
      if a in receive then receive[a] else []
    }

    function SettleBlocks(a: Address): seq<Tx> {
      if a in settled then settled[a] else []
    }

    function LastHash(a: Address): Option<Digest> {
      if a in accounts then Some(accounts[a].head) else None
    }

    // Zero where the account has no such asset, or does not exist.
    function Balance(a: Address, key: string): int {
      if a in accounts && key in accounts[a].balances then accounts[a].balances[key] else 0
    }

    function Property(a: Address, key: string): Option<string> {
      if a in accounts && key in accounts[a].properties then Some(accounts[a].properties[key]) else None
    }
  }

  predicate HasTransferIn(blocks: seq<Tx>) {
    exists i :: 0 <= i < |blocks| && blocks[i].body.kind == TransferAssetIn
  }

  // The destination has received something, pending or already taken in.
  predicate Received(s: Store, a: Address) {
    s.ReceiveBlocks(a) != [] || HasTransferIn(s.SettleBlocks(a))
  }

  // ---------------------------------------------------------------- settlement (assumed)

  function Find(blocks: seq<Tx>, d: Digest): (k: nat)
    ensures k <= |blocks|
    ensures k < |blocks| ==> blocks[k].digest == d
    ensures forall i :: 0 <= i < k ==> blocks[i].digest != d
  {
    if blocks == [] || blocks[0].digest == d then 0 else 1 + Find(blocks[1..], d)
  }

  predicate CanSettle(s: Store, tx: Tx) {
    && WellHashed(tx)
    && match tx.body.kind
       case CreateAccount =>
         tx.body.sender !in s.accounts && tx.prev == Zero && Amount(tx.body.params).Some?
       case TransferAssetOut =>
         s.LastHash(tx.body.sender) == Some(tx.prev) && Amount(tx.body.params).Some?
       case TransferAssetIn =>
         s.LastHash(tx.body.sender) == Some(tx.prev) && tx.body.params.Ref? &&
         var blocks := s.ReceiveBlocks(tx.body.sender);
         var k := Find(blocks, tx.body.params.digest);
         k < |blocks| && Amount(blocks[k].body.params).Some?
       case DataProperty =>
         s.LastHash(tx.body.sender) == Some(tx.prev) && tx.body.params.Text?
  }

  // The sender's account afterwards.
  function NewAccount(s: Store, tx: Tx): Account
    requires CanSettle(s, tx)
  {
    var a := tx.body.sender;
    match tx.body.kind
    case CreateAccount =>
      Account(tx.digest, map[tx.body.key := Amount(tx.body.params).value], map[])
    case TransferAssetOut =>
      var left := s.Balance(a, tx.body.key) - Amount(tx.body.params).value;
      s.accounts[a].(head := tx.digest, balances := s.accounts[a].balances[tx.body.key := left])
    case TransferAssetIn =>
      var blocks := s.ReceiveBlocks(a);
      var entry := blocks[Find(blocks, tx.body.params.digest)];
      var sum := s.Balance(a, entry.body.key) + Amount(entry.body.params).value;
      s.accounts[a].(head := tx.digest, balances := s.accounts[a].balances[entry.body.key := sum])
    case DataProperty =>
      s.accounts[a].(head := tx.digest, properties := s.accounts[a].properties[tx.body.key := tx.body.params.text])
  }

  // The receive lists afterwards: a transfer out files an entry, a transfer in uses one up.
  function NewReceive(s: Store, tx: Tx): map<Address, seq<Tx>>
    requires CanSettle(s, tx)
  {
    match tx.body.kind
    case TransferAssetOut =>
      s.receive[tx.body.receiver := [tx] + s.ReceiveBlocks(tx.body.receiver)]
    case TransferAssetIn =>
      var blocks := s.ReceiveBlocks(tx.body.sender);
      var k := Find(blocks, tx.body.params.digest);
      s.receive[tx.body.sender := blocks[..k] + blocks[k + 1..]]
    case _ => s.receive
  }

  function Settle(s: Store, tx: Tx): Store
    requires CanSettle(s, tx)
  {
    Store(s.accounts[tx.body.sender := NewAccount(s, tx)],
          NewReceive(s, tx),
          s.settled[tx.body.sender := [tx] + s.SettleBlocks(tx.body.sender)])
  }

  /** Settling moves only the sender's head, and moves it to a strictly longer chain. */
  lemma SettleHeads(s: Store, tx: Tx, a: Address)
    requires CanSettle(s, tx)
    ensures a != tx.body.sender ==> Settle(s, tx).LastHash(a) == s.LastHash(a)
    ensures Settle(s, tx).LastHash(tx.body.sender) == Some(tx.digest)
    ensures Depth(tx.digest) == Depth(tx.prev) + 1
    ensures forall key :: a != tx.body.sender ==> Settle(s, tx).Balance(a, key) == s.Balance(a, key)
  {
  }

  /** Receipts never disappear: an entry leaves the receive list only by becoming a transfer-in
      in the settle list, in the same step. */
  lemma SettleReceived(s: Store, tx: Tx, a: Address)
    requires CanSettle(s, tx)
    ensures Received(s, a) ==> Received(Settle(s, tx), a)
    ensures tx.body.kind == TransferAssetOut && tx.body.receiver == a ==> Received(Settle(s, tx), a)
    ensures HasTransferIn(s.SettleBlocks(a)) ==> HasTransferIn(Settle(s, tx).SettleBlocks(a))
  {
    SettleLists(s, tx, a);
    if HasTransferIn(s.SettleBlocks(a)) { TransferInKept(tx, s.SettleBlocks(a)); }
    if tx.body.kind == TransferAssetIn && a == tx.body.sender {
      assert Settle(s, tx).SettleBlocks(a)[0] == tx;
    }
  }

  lemma SettleLists(s: Store, tx: Tx, a: Address)
    requires CanSettle(s, tx)
    ensures Settle(s, tx).SettleBlocks(a) ==
            if a == tx.body.sender then [tx] + s.SettleBlocks(a) else s.SettleBlocks(a)
    ensures !(tx.body.kind == TransferAssetIn && a == tx.body.sender) ==>
              |s.ReceiveBlocks(a)| <= |Settle(s, tx).ReceiveBlocks(a)|
    ensures tx.body.kind == TransferAssetOut && tx.body.receiver == a ==> Settle(s, tx).ReceiveBlocks(a) != []
  {
  }

  lemma TransferInKept(tx: Tx, blocks: seq<Tx>)
    requires HasTransferIn(blocks)
    ensures HasTransferIn([tx] + blocks)
  {
    var i :| 0 <= i < |blocks| && blocks[i].body.kind == TransferAssetIn;
    assert ([tx] + blocks)[i + 1] == blocks[i];
  }

  // ---------------------------------------------------------------- runs of settlements

  // The store after these transactions have settled one by one, if they can.
  function SettleAll(s: Store, txs: seq<Tx>): Option<Store>
    decreases |txs|
  {
    if txs == [] then Some(s)
    else if !CanSettle(s, txs[0]) then None
    else SettleAll(Settle(s, txs[0]), txs[1..])
  }

  lemma {:induction false} SettleAllKeeps(s: Store, txs: seq<Tx>, a: Address)
    requires SettleAll(s, txs).Some?
    ensures Received(s, a) ==> Received(SettleAll(s, txs).value, a)
    ensures HasTransferIn(s.SettleBlocks(a)) ==> HasTransferIn(SettleAll(s, txs).value.SettleBlocks(a))
    decreases |txs|
  {
    if txs != [] {
      SettleReceived(s, txs[0], a);
      SettleAllKeeps(Settle(s, txs[0]), txs[1..], a);
    }
  }

  lemma SettleAllFirst(s: Store, tx: Tx, rest: seq<Tx>)
    requires CanSettle(s, tx)
    ensures SettleAll(s, [tx] + rest) == SettleAll(Settle(s, tx), rest)
  {
    assert ([tx] + rest)[1..] == rest;
  }
}
