/**
 What the history shows of a transfer_in: the counterparty and the amount are the request's own words,
 written into the transaction after it was hashed and signed, and checked against nothing.
 */
module Claims {
  import opened Options
  import opened Ledger
  import opened Admission
  import opened Queries
  import opened Runs
  import opened Served

  // The same request telling another story.
  function Telling(root: Root, who: Address, amount: string): Root {
    root.(sender := who, amount := amount)
  }

  /** Whatever counterparty and amount a transfer_in names, its hash, link and signature are the same, it
      settles in the same stores with the same effect on accounts and receive lists, and its row shows what
      was named. */
  lemma ClaimsUnchecked(root: Root, who: Address, amount: string, now: int, last: Digest, s: Store,
                        tags: Address -> string, code: Kind -> int)
    requires root.action == TransferIn
    ensures
      var tx, told := Draft(root, now, last), Draft(Telling(root, who, amount), now, last);
      && told == tx.(originSender := who, originAmount := amount)
      && (CanSettle(s, told) <==> CanSettle(s, tx))
      && (CanSettle(s, tx) ==>
            Settle(s, told).accounts == Settle(s, tx).accounts && Settle(s, told).receive == Settle(s, tx).receive)
    ensures
      var row := HistoryRow(Draft(Telling(root, who, amount), now, last), tags, code);
      && Source in row && AmountField in row && row[Source] == Addr(who) && row[AmountField] == Str(amount)
  {
    StorySettles(Draft(root, now, last), who, amount, s);
    RowOfClaim(Draft(Telling(root, who, amount), now, last), tags, code);
  }

  lemma StorySettles(tx: Tx, who: Address, amount: string, s: Store)
    ensures
      var told := tx.(originSender := who, originAmount := amount);
      && (CanSettle(s, told) <==> CanSettle(s, tx))
      && (CanSettle(s, tx) ==>
            tx.body.kind != TransferAssetOut ==>
              Settle(s, told).accounts == Settle(s, tx).accounts && Settle(s, told).receive == Settle(s, tx).receive)
  {
  }

  // The row names the sender and the amount of the entry that was taken in.
  predicate Truthful(row: Row, entry: Tx) {
    && Source in row && row[Source] == Addr(entry.body.sender)
    && AmountField in row && row[AmountField].Str? && entry.body.params == Text(row[AmountField].s)
  }

  function Entry(s: Store, a: Address, d: Digest): Tx
    requires IsPending(s, a, d)
  {
    s.ReceiveBlocks(a)[Find(s.ReceiveBlocks(a), d)]
  }

  lemma NewestTransfer(tx: Tx, blocks: seq<Tx>)
    requires IsTransfer(tx)
    ensures Transfers([tx] + blocks) == [tx] + Transfers(blocks)
  {
    TransfersConcat([tx], blocks);
    assert [tx][..0] == [] && Transfers([tx]) == [tx];
  }

  // The first row of the first page.
  function FirstRow(s: Store, a: Address, perPage: int, tags: Address -> string, code: Kind -> int): Option<Row> {
    var rows := ReusedRows(map[], Page(Transfers(s.SettleBlocks(a)), 0, perPage), tags, code);
    if rows == [] then None else Some(rows[0])
  }

  lemma FirstRowIs(s: Store, a: Address, perPage: int, tags: Address -> string, code: Kind -> int)
    requires perPage >= 1 && LiteralsFit(code) && Transfers(s.SettleBlocks(a)) != []
    ensures FirstRow(s, a, perPage, tags, code) == Some(HistoryRow(Transfers(s.SettleBlocks(a))[0], tags, code))
  {
    var transfers := Transfers(s.SettleBlocks(a));
    var page := Page(transfers, 0, perPage);
    assert page[0] == transfers[0];
    ReusedRowsFit(map[], page, tags, code);
  }

  /** A settled transfer heads its sender's history. */
  lemma NewestRow(s: Store, tx: Tx, perPage: int, tags: Address -> string, code: Kind -> int)
    requires CanSettle(s, tx) && IsTransfer(tx) && perPage >= 1 && LiteralsFit(code)
    ensures FirstRow(Settle(s, tx), tx.body.sender, perPage, tags, code) == Some(HistoryRow(tx, tags, code))
  {
    SettleLists(s, tx, tx.body.sender);
    NewestTransfer(tx, s.SettleBlocks(tx.body.sender));
    FirstRowIs(Settle(s, tx), tx.body.sender, perPage, tags, code);
  }

  // The row shows what the request gave, which is the truth about the entry exactly when it was copied.
  predicate ShowsClaim(row: Option<Row>, root: Root, entry: Tx) {
    && row.Some? && Source in row.value && AmountField in row.value
    && row.value[Source] == Addr(root.sender) && row.value[AmountField] == Str(root.amount)
    && (Truthful(row.value, entry) <==> root.sender == entry.body.sender && Text(root.amount) == entry.body.params)
  }

  lemma SettledClaim(s: Store, root: Root, now: int, last: Digest, perPage: int, tags: Address -> string,
                     code: Kind -> int, entry: Tx)
    requires root.action == TransferIn && CanSettle(s, Draft(root, now, last)) && perPage >= 1 && LiteralsFit(code)
    ensures ShowsClaim(FirstRow(Settle(s, Draft(root, now, last)), root.account, perPage, tags, code), root, entry)
  {
    var tx := Draft(root, now, last);
    NewestRow(s, tx, perPage, tags, code);
    RowOfClaim(tx, tags, code);
  }

  lemma RowOfClaim(tx: Tx, tags: Address -> string, code: Kind -> int)
    requires tx.body.kind == TransferAssetIn
    ensures
      var row := HistoryRow(tx, tags, code);
      && Source in row && AmountField in row
      && row[Source] == Addr(tx.originSender) && row[AmountField] == Str(tx.originAmount)
  {
  }

  /** A served transfer_in that settles heads its account's history. The row shows the sender and amount the
      request gave; it names those of the entry taken in exactly when the request copied them. */
  lemma ListedTruthIff(w: World, id: nat, root: Root, now: int, perPage: int, tags: Address -> string,
                       code: Kind -> int, verify: Tx -> bool)
    requires Enabled(w, Serve(id, root, now)) && root.action == TransferIn && Admissible(root, now, w.store, verify)
    requires SettlesAtOnce(root, w.store) && perPage >= 1 && LiteralsFit(code)
    ensures
      var r := Exec(w, [Serve(id, root, now), Commit(Broadcast(w.store, root, now, verify))], verify);
      && r.Some?
      && ShowsClaim(FirstRow(r.value.store, root.account, perPage, tags, code), root,
                    Entry(w.store, root.account, root.txDigest))
  {
    var p, last := Broadcast(w.store, root, now, verify), Admission.LastDigest(root, w.store).value;
    BroadcastIs(w.store, root, now, verify);
    ServeAndSettle(w, id, root, now, [], verify);
    assert [Serve(id, root, now), Commit(p)] + [] == [Serve(id, root, now), Commit(p)];
    SettledClaim(w.store, root, now, last, perPage, tags, code, Entry(w.store, root.account, root.txDigest));
  }
}
