/**
 The give flag of account_info when settlements fall between its two reads: it reads the settle list
 from one store and the receive list from a later one.
 */
module GiveFlag {
  import opened Ledger
  import opened Queries

  // The flag says whether a give request would pass its receipt checks when account_info has made its reads.
  predicate FlagRight(first: Store, second: Store, a: Address) {
    InfoGive(first, second, a) <==> !Received(second, a)
  }

  /** Whatever settles between the two reads, the flag is wrong exactly when the account took its first
      transfer in meanwhile and was left with nothing pending. */
  lemma FlagWrongIff(s: Store, txs: seq<Tx>, a: Address)
    requires SettleAll(s, txs).Some?
    ensures
      var s' := SettleAll(s, txs).value;
      !FlagRight(s, s', a) <==>
        !HasTransferIn(s.SettleBlocks(a)) && HasTransferIn(s'.SettleBlocks(a)) && s'.ReceiveBlocks(a) == []
  {
    SettleAllKeeps(s, txs, a);
  }

  predicate TakesIn(tx: Tx, a: Address) {
    tx.body.kind == TransferAssetIn && tx.body.sender == a
  }

  lemma {:induction false} NothingTakenIn(s: Store, txs: seq<Tx>, a: Address)
    requires SettleAll(s, txs).Some? && forall i :: 0 <= i < |txs| ==> !TakesIn(txs[i], a)
    ensures HasTransferIn(SettleAll(s, txs).value.SettleBlocks(a)) ==> HasTransferIn(s.SettleBlocks(a))
    decreases |txs|
  {
    if txs != [] {
      var tx, s1 := txs[0], Settle(s, txs[0]);
      NothingTakenIn(s1, txs[1..], a);
      SettleLists(s, tx, a);
      if HasTransferIn(s1.SettleBlocks(a)) && a == tx.body.sender { NotTheFirst(tx, s.SettleBlocks(a)); }
    }
  }

  lemma NotTheFirst(tx: Tx, blocks: seq<Tx>)
    requires HasTransferIn([tx] + blocks) && tx.body.kind != TransferAssetIn
    ensures HasTransferIn(blocks)
  {
    var i :| 0 <= i < |[tx] + blocks| && ([tx] + blocks)[i].body.kind == TransferAssetIn;
    assert blocks[i - 1] == ([tx] + blocks)[i];
  }

  /** The flag is right when no transfer in of the account settles between the two reads. */
  lemma FlagRightUnlessTakenIn(s: Store, txs: seq<Tx>, a: Address)
    requires SettleAll(s, txs).Some? && forall i :: 0 <= i < |txs| ==> !TakesIn(txs[i], a)
    ensures FlagRight(s, SettleAll(s, txs).value, a)
  {
    NothingTakenIn(s, txs, a);
    FlagWrongIff(s, txs, a);
  }

  // ---------------------------------------------------------------- when no run can spoil the flag

  predicate Parsable(blocks: seq<Tx>) {
    forall i :: 0 <= i < |blocks| ==> Amount(blocks[i].body.params).Some?
  }

  ghost predicate AlwaysRight(s: Store, a: Address) {
    forall txs :: SettleAll(s, txs).Some? ==> FlagRight(s, SettleAll(s, txs).value, a)
  }

  function Linked(body: Body, prev: Digest): Tx {
    BLANK_TX.(body := body, prev := prev, digest := Hash(body, prev))
  }

  // The account takes in the entry at the head of its receive list.
  function TakeIn(s: Store, a: Address): Tx
    requires a in s.accounts && s.ReceiveBlocks(a) != []
  {
    Linked(Body(TransferAssetIn, a, a, "", Ref(s.ReceiveBlocks(a)[0].digest), 0), s.accounts[a].head)
  }

  lemma TakeInSettles(s: Store, a: Address)
    requires a in s.accounts && s.ReceiveBlocks(a) != [] && Parsable(s.ReceiveBlocks(a))
    ensures CanSettle(s, TakeIn(s, a))
    ensures
      var s' := Settle(s, TakeIn(s, a));
      a in s'.accounts && s'.ReceiveBlocks(a) == s.ReceiveBlocks(a)[1..] && HasTransferIn(s'.SettleBlocks(a))
  {
    var s' := Settle(s, TakeIn(s, a));
    assert s'.SettleBlocks(a)[0] == TakeIn(s, a);
  }

  lemma {:induction false} TakeAllIn(s: Store, a: Address) returns (txs: seq<Tx>)
    requires a in s.accounts && Parsable(s.ReceiveBlocks(a))
    requires s.ReceiveBlocks(a) == [] ==> HasTransferIn(s.SettleBlocks(a))
    ensures SettleAll(s, txs).Some?
    ensures SettleAll(s, txs).value.ReceiveBlocks(a) == []
    ensures HasTransferIn(SettleAll(s, txs).value.SettleBlocks(a))
    decreases |s.ReceiveBlocks(a)|
  {
    if s.ReceiveBlocks(a) == [] {
      txs := [];
    } else {
      TakeInSettles(s, a);
      var rest := TakeAllIn(Settle(s, TakeIn(s, a)), a);
      txs := [TakeIn(s, a)] + rest;
      SettleAllFirst(s, TakeIn(s, a), rest);
    }
  }

  // An address nobody has.
  lemma {:induction false} FreshAddress(taken: set<Address>) returns (text: string)
    ensures forall b :: b in taken && b.Named? ==> |b.text| < |text|
  {
    if taken == {} {
      text := "";
    } else {
      var b :| b in taken;
      var longer := FreshAddress(taken - {b});
      text := if b.Named? && |longer| <= |b.text| then b.text + "+" else longer;
      forall c | c in taken && c.Named? ensures |c.text| < |text| {
        assert c == b || c in taken - {b};
      }
    }
  }

  function Opening(b: Address): Tx {
    Linked(Body(CreateAccount, b, b, NATIVE_ASSET, Text("0"), 0), Zero)
  }

  function Gift(b: Address, a: Address): Tx {
    Linked(Body(TransferAssetOut, b, a, NATIVE_ASSET, Text("0"), 0), Opening(b).digest)
  }

  // A newcomer opens an account and sends something.
  lemma GiftSettles(s: Store, a: Address, b: Address)
    requires a in s.accounts && b !in s.accounts && s.ReceiveBlocks(a) == []
    ensures CanSettle(s, Opening(b)) && CanSettle(Settle(s, Opening(b)), Gift(b, a))
    ensures
      var s' := Settle(Settle(s, Opening(b)), Gift(b, a));
      a in s'.accounts && s'.ReceiveBlocks(a) == [Gift(b, a)] && Parsable(s'.ReceiveBlocks(a))
  {
    ZeroParses();
  }

  // A run that leaves the account with a first transfer in and nothing pending.
  lemma Spoil(s: Store, a: Address) returns (txs: seq<Tx>)
    requires a in s.accounts && Parsable(s.ReceiveBlocks(a))
    ensures SettleAll(s, txs).Some?
    ensures SettleAll(s, txs).value.ReceiveBlocks(a) == []
    ensures HasTransferIn(SettleAll(s, txs).value.SettleBlocks(a))
  {
    if s.ReceiveBlocks(a) != [] {
      txs := TakeAllIn(s, a);
    } else {
      var text := FreshAddress(s.accounts.Keys);
      var b := Named(text);
      GiftSettles(s, a, b);
      var s1 := Settle(s, Opening(b));
      var rest := TakeAllIn(Settle(s1, Gift(b, a)), a);
      txs := [Opening(b)] + ([Gift(b, a)] + rest);
      SettleAllFirst(s, Opening(b), [Gift(b, a)] + rest);
      SettleAllFirst(s1, Gift(b, a), rest);
    }
  }

  /** For an existing account whose pending amounts parse, the flag is right whatever settles between the
      two reads exactly when a transfer in had settled before the first. */
  lemma AlwaysRightIff(s: Store, a: Address)
    requires a in s.accounts && Parsable(s.ReceiveBlocks(a))
    ensures AlwaysRight(s, a) <==> HasTransferIn(s.SettleBlocks(a))
  {
    if HasTransferIn(s.SettleBlocks(a)) {
      forall txs | SettleAll(s, txs).Some? ensures FlagRight(s, SettleAll(s, txs).value, a) {
        FlagWrongIff(s, txs, a);
      }
    } else {
      var txs := Spoil(s, a);
      FlagWrongIff(s, txs, a);
    }
  }
}
