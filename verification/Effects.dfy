/**
 What a served request does in the end: the store its settlement leaves, and the listings that show it,
 each in terms of the request's own members.
 */
module Effects {
  import opened Options
  import opened Ledger
  import opened Admission
  import opened Queries
  import opened Runs
  import opened Served
  import opened Claims
  import opened Handler

  // ---------------------------------------------------------------- what settlement leaves

  // A JSON integer in an unsigned 64-bit member.
  predicate Wrapped(n: int, t: int) {
    0 <= t < 18446744073709551616 && (n - t) % 18446744073709551616 == 0
  }

  /** Timestamps are kept modulo 2 to the 64. */
  lemma TimestampWraps(n: int)
    ensures Wrapped(n, ToUint64(n))
  {
  }

  // Nothing but the balance, or the property, of one place has changed.
  ghost predicate Elsewhere(s: Store, s': Store, a: Address, key: string) {
    forall b, k :: b != a || k != key ==> s'.Balance(b, k) == s.Balance(b, k)
  }

  ghost predicate PropertiesKept(s: Store, s': Store, a: Address, key: string) {
    forall b, k :: b != a || k != key ==> s'.Property(b, k) == s.Property(b, k)
  }

  ghost predicate SameProperties(s: Store, s': Store) {
    forall b, k :: s'.Property(b, k) == s.Property(b, k)
  }

  ghost predicate SameBalances(s: Store, s': Store) {
    forall b, k :: s'.Balance(b, k) == s.Balance(b, k)
  }

  ghost predicate SameReceipts(s: Store, s': Store, but: Address) {
    forall b :: b != but ==> s'.ReceiveBlocks(b) == s.ReceiveBlocks(b)
  }

  /** A set_property writes the value under the key, and nothing else but the head. */
  ghost predicate WritesProperty(root: Root, s: Store, s': Store) {
    && s'.Property(root.account, root.key) == Some(root.value)
    && PropertiesKept(s, s', root.account, root.key) && SameBalances(s, s') && s'.receive == s.receive
  }

  /** An account_create opens the account with the amount, zero if none is given, and nothing else. */
  ghost predicate OpensAccount(root: Root, s: Store, s': Store) {
    && s'.accounts.Keys == s.accounts.Keys + {root.account}
    && (root.amount == "" || Stoll(root.amount).Some?)
    && s'.accounts[root.account].balances == map["$$" := if root.amount == "" then 0 else Stoll(root.amount).value]
    && s'.accounts[root.account].properties == map[]
    && (forall b :: b in s.accounts ==> s'.accounts[b] == s.accounts[b]) && s'.receive == s.receive
  }

  // One payment: it is taken from the payer and filed for the payee, with everything that was asked for.
  ghost predicate Pays(payer: Address, payee: Address, key: string, amount: string, timestamp: int, s: Store, s': Store)
  {
    && Stoll(amount).Some?
    && s'.Balance(payer, key) == s.Balance(payer, key) - Stoll(amount).value
    && Elsewhere(s, s', payer, key) && SameProperties(s, s') && SameReceipts(s, s', payee)
    && |s'.ReceiveBlocks(payee)| == |s.ReceiveBlocks(payee)| + 1
    && s'.ReceiveBlocks(payee)[1..] == s.ReceiveBlocks(payee)
    && var entry := s'.ReceiveBlocks(payee)[0];
       && entry.body.kind == TransferAssetOut && entry.body.sender == payer && entry.body.receiver == payee
       && entry.body.key == key && entry.body.params == Text(amount) && Wrapped(timestamp, entry.body.timestamp)
       && s'.LastHash(payer) == Some(entry.digest)
  }

  /** A transfer_in adds the first pending entry of the digest it names, and uses it up. */
  ghost predicate TakesEntry(root: Root, s: Store, s': Store) {
    var before := s.ReceiveBlocks(root.account);
    var k := Find(before, root.txDigest);
    && k < |before| && before[k].digest == root.txDigest && Amount(before[k].body.params).Some?
    && s'.Balance(root.account, before[k].body.key)
       == s.Balance(root.account, before[k].body.key) + Amount(before[k].body.params).value
    && Elsewhere(s, s', root.account, before[k].body.key)
    && s'.ReceiveBlocks(root.account) == before[..k] + before[k + 1..]
    && SameProperties(s, s') && SameReceipts(s, s', root.account)
  }

  ghost predicate Leaves(root: Root, s: Store, s': Store)
    requires IsTransaction(root.action)
  {
    match root.action
    case SetProperty => WritesProperty(root, s, s')
    case AccountCreate => OpensAccount(root, s, s')
    case TransferOut => Pays(root.source, root.destination, root.key, root.amount, root.timestamp, s, s')
    case Give => Pays(Genesis, root.destination, "$$", "100000", root.timestamp, s, s')
    case TransferIn => TakesEntry(root, s, s')
  }

  lemma PropertyLeaves(root: Root, now: int, last: Digest, s: Store)
    requires root.action == SetProperty && CanSettle(s, Draft(root, now, last))
    ensures WritesProperty(root, s, Settle(s, Draft(root, now, last)))
  {
  }

  lemma CreateLeaves(root: Root, now: int, s: Store)
    requires root.action == AccountCreate && CanSettle(s, Draft(root, now, Zero))
    ensures OpensAccount(root, s, Settle(s, Draft(root, now, Zero)))
  {
    ZeroParses();
  }

  lemma PaymentLeaves(root: Root, now: int, last: Digest, s: Store)
    requires (root.action == TransferOut || root.action == Give) && CanSettle(s, Draft(root, now, last))
    ensures Leaves(root, s, Settle(s, Draft(root, now, last)))
  {
    TimestampWraps(root.timestamp);
  }

  lemma TakingLeaves(root: Root, now: int, last: Digest, s: Store)
    requires root.action == TransferIn && CanSettle(s, Draft(root, now, last))
    ensures TakesEntry(root, s, Settle(s, Draft(root, now, last)))
  {
  }

  /** A request served and settled leaves exactly what it asked for. */
  lemma ServedLeaves(w: World, id: nat, root: Root, now: int, verify: Tx -> bool)
    requires Enabled(w, Serve(id, root, now)) && Admissible(root, now, w.store, verify)
    requires SettlesAtOnce(root, w.store)
    ensures
      var r := Exec(w, [Serve(id, root, now), Commit(Broadcast(w.store, root, now, verify))], verify);
      r.Some? && Leaves(root, w.store, r.value.store)
  {
    var p := Broadcast(w.store, root, now, verify);
    BroadcastIs(w.store, root, now, verify);
    ServeAndSettle(w, id, root, now, [], verify);
    assert [Serve(id, root, now), Commit(p)] + [] == [Serve(id, root, now), Commit(p)];
    DraftLeaves(root, now, Admission.LastDigest(root, w.store).value, w.store);
  }

  lemma DraftLeaves(root: Root, now: int, last: Digest, s: Store)
    requires IsTransaction(root.action) && CanSettle(s, Draft(root, now, last))
    ensures Leaves(root, s, Settle(s, Draft(root, now, last)))
  {
    if root.action == SetProperty {
      PropertyLeaves(root, now, last, s);
    } else if root.action == AccountCreate {
      CreateLeaves(root, now, s);
    } else if root.action == TransferIn {
      TakingLeaves(root, now, last, s);
    } else {
      PaymentLeaves(root, now, last, s);
    }
  }

  // ---------------------------------------------------------------- what the listings show

  /** Every row of a page names the asset: "$$" where the transaction's key is empty, else the key. */
  lemma PageNamesAssets(txs: seq<Tx>, count: int, perPage: int, tags: Address -> string, code: Kind -> int, k: nat)
    requires LiteralsFit(code) && (forall tx :: tx in txs ==> IsTransfer(tx)) && k < |Page(txs, count, perPage)|
    ensures
      var page := Page(txs, count, perPage);
      var row := ReusedRows(map[], page, tags, code)[k];
      PropertyKey in row && row[PropertyKey] == if page[k].body.key == "" then Str("$$") else Str(page[k].body.key)
  {
    var page := Page(txs, count, perPage);
    assert forall tx :: tx in page ==> tx in txs;
    ReusedRowsFit(map[], page, tags, code);
  }

  // The row of a transfer, member for member.
  function TransferRow(kind: int, source: Address, destination: Address, key: string, amount: Json, digest: Digest,
                       last: Digest, time: int, tags: Address -> string): Row
  {
    map[TransactionType := Num(kind), Source := Addr(source), SourceTag := Str(tags(source)),
        Destination := Addr(destination), DestinationTag := Str(tags(destination)),
        PropertyKey := Str(if key == "" then "$$" else key), AmountField := amount,
        TxDigest := Dig(digest), Field.LastDigest := Dig(last), RpcTime := Num(time)]
  }

  // Whose history a transfer heads.
  function Payer(root: Root): Address {
    match root.action
    case Give => Genesis
    case TransferOut => root.source
    case _ => root.account
  }

  // What the first row of the sender's history says of the request.
  function ShownRow(root: Root, now: int, s: Store, s': Store, tags: Address -> string, code: Kind -> int): Row
    requires root.action in {TransferOut, TransferIn, Give}
    requires Payer(root) in s.accounts && Payer(root) in s'.accounts
  {
    var before, after := s.accounts[Payer(root)].head, s'.accounts[Payer(root)].head;
    match root.action
    case TransferOut =>
      TransferRow(code(TransferAssetOut), root.source, root.destination, root.key, Par(Text(root.amount)),
                  after, before, now, tags)
    case TransferIn =>
      TransferRow(code(TransferAssetIn), root.sender, root.account, "", Str(root.amount), after, before, now, tags)
    case Give =>
      TransferRow(code(TransferAssetOut), Genesis, root.destination, "$$", Par(Text("100000")), after, before, now,
                  tags)
  }

  lemma RowShows(root: Root, now: int, s: Store, tags: Address -> string, code: Kind -> int)
    requires root.action in {TransferOut, TransferIn, Give} && s.LastHash(Payer(root)).Some?
    requires CanSettle(s, Draft(root, now, s.LastHash(Payer(root)).value))
    ensures
      var tx := Draft(root, now, s.LastHash(Payer(root)).value);
      HistoryRow(tx, tags, code) == ShownRow(root, now, s, Settle(s, tx), tags, code)
  {
  }

  // Settled at once: the transaction is linked to the head of the account whose history it joins.
  lemma LinkedToHead(root: Root, now: int, s: Store, verify: Tx -> bool)
    requires root.action in {TransferOut, TransferIn, Give} && Admissible(root, now, s, verify)
    requires SettlesAtOnce(root, s)
    ensures s.LastHash(Payer(root)).Some?
    ensures Broadcast(s, root, now, verify).tx == Draft(root, now, s.LastHash(Payer(root)).value)
  {
    BroadcastIs(s, root, now, verify);
  }

  /** A served transfer that settles heads its account's history, the row showing exactly what was asked for,
      the new head as its digest and the old one as its link. */
  lemma ServedShows(w: World, id: nat, root: Root, now: int, perPage: int, tags: Address -> string,
                    code: Kind -> int, verify: Tx -> bool)
    requires Enabled(w, Serve(id, root, now)) && root.action in {TransferOut, TransferIn, Give}
    requires Admissible(root, now, w.store, verify) && SettlesAtOnce(root, w.store)
    requires perPage >= 1 && LiteralsFit(code)
    ensures
      var r := Exec(w, [Serve(id, root, now), Commit(Broadcast(w.store, root, now, verify))], verify);
      && r.Some? && Payer(root) in w.store.accounts && Payer(root) in r.value.store.accounts
      && FirstRow(r.value.store, Payer(root), perPage, tags, code)
         == Some(ShownRow(root, now, w.store, r.value.store, tags, code))
  {
    var p := Broadcast(w.store, root, now, verify);
    ServeAndSettle(w, id, root, now, [], verify);
    assert [Serve(id, root, now), Commit(p)] + [] == [Serve(id, root, now), Commit(p)];
    LinkedToHead(root, now, w.store, verify);
    assert p.tx.body.sender == Payer(root);
    NewestRow(w.store, p.tx, perPage, tags, code);
    RowShows(root, now, w.store, tags, code);
  }

  /** Account creations and property writes leave the history as it was. */
  lemma OthersNotListed(s: Store, tx: Tx, a: Address)
    requires CanSettle(s, tx) && tx.body.kind in {Kind.CreateAccount, Kind.DataProperty}
    ensures Transfers(Settle(s, tx).SettleBlocks(a)) == Transfers(s.SettleBlocks(a))
  {
    SettleLists(s, tx, a);
    if a == tx.body.sender {
      TransfersConcat([tx], s.SettleBlocks(a));
      assert [tx][..0] == [] && Transfers([tx]) == [];
    }
  }

  /** A property written under "@name" is the tag that listings then show for the account. */
  lemma NameIsTag(root: Root, now: int, last: Digest, s: Store, a: Address)
    requires root.action == SetProperty && root.key == "@name" && CanSettle(s, Draft(root, now, last))
    ensures Tag(Settle(s, Draft(root, now, last)), a) == if a == root.account then root.value else Tag(s, a)
  {
    PropertyLeaves(root, now, last, s);
    if a != root.account {
      assert Settle(s, Draft(root, now, last)).Property(a, "@name") == s.Property(a, "@name");
    }
  }

  /** What a payment leaves pending is listed first, with its sender, asset, amount and digest. */
  lemma PendingShows(root: Root, now: int, s: Store, verify: Tx -> bool)
    requires root.action in {TransferOut, Give} && Admissible(root, now, s, verify) && root.count >= 1
    ensures SettlesAtOnce(root, s) && CanSettle(s, Broadcast(s, root, now, verify).tx)
    ensures
      var s' := Settle(s, Broadcast(s, root, now, verify).tx);
      var rows := PendingRows(Window(s'.ReceiveBlocks(root.destination), 0, root.count));
      && Payer(root) in s'.accounts && |rows| >= 1
      && rows[0] == map[Field.Sender := Addr(Payer(root)),
                        PropertyKey := Str(if root.action == Give then "$$" else root.key),
                        AmountField := Par(Text(if root.action == Give then "100000" else root.amount)),
                        Block := Dig(s'.accounts[Payer(root)].head)]
  {
    AdmittedSettlesAtOnceIff(root, now, s, verify);
    LinkedToHead(root, now, s, verify);
    var tx := Broadcast(s, root, now, verify).tx;
    PaymentLeaves(root, now, s.LastHash(Payer(root)).value, s);
    assert Settle(s, tx).ReceiveBlocks(root.destination)[0] == tx;
  }

  // The receiver, asset and amount of each request.
  function Asked(root: Root): (Address, string, Params)
    requires IsTransaction(root.action)
  {
    match root.action
    case Give => (root.destination, "$$", Text("100000"))
    case TransferOut => (root.destination, root.key, Text(root.amount))
    case TransferIn => (root.account, "", Ref(root.txDigest))
    case SetProperty => (root.account, root.key, Text(root.value))
    case AccountCreate => (root.account, "$$", Text(if root.amount == "" then "0" else root.amount))
  }

  /** A broadcast transaction is listed among those seen with what its request asked for. */
  lemma OnlineShows(root: Root, now: int, last: Digest)
    requires IsTransaction(root.action)
    ensures
      var tx := Draft(root, now, last);
      && tx.digest == Hash(tx.body, last) && Wrapped(root.timestamp, tx.body.timestamp)
      && tx.nonce == 0 && tx.workProof == 0
      && OnlineRow(tx) == map[Field.Sender := Addr(Payer(root)), Receiver := Addr(Asked(root).0),
                              PropertyKey := Str(Asked(root).1), AmountField := Par(Asked(root).2),
                              Timestamp := Num(tx.body.timestamp), Field.LastDigest := Dig(last),
                              TxDigest := Dig(tx.digest), RpcTime := Num(now)]
  {
  }

  /** A client that reads its account's balance and last hash and at once asks to pay no more than that, linked
      to that hash and signed, is admitted. */
  lemma InfoThenPay(s: Store, a: Address, sequence: int, createTime: int, root: Root, now: int, verify: Tx -> bool)
    requires a in s.accounts && "$$" in s.accounts[a].balances
    requires root.action == TransferOut && root.source == a && root.destination != a && root.key == "$$"
    requires Stoll(root.amount).Some? && (!NoHash(a) ==> verify(Draft(root, now, root.lastDigest)))
    requires NoHash(a) ==> verify(Draft(root, now, s.accounts[a].head))
    requires
      var info := SnapshotRow(a, s, sequence, createTime);
      && BalanceField in info && info[BalanceField].Num? && Stoll(root.amount).value <= info[BalanceField].n
      && LastHashField in info && info[LastHashField] == Dig(root.lastDigest)
    ensures Admissible(root, now, s, verify)
  {
  }

  /** The snapshot of account_info, member for member. */
  lemma InfoSays(s: Store, a: Address, sequence: int, createTime: int)
    requires a in s.accounts
    ensures
      var account := s.accounts[a];
      SnapshotRow(a, s, sequence, createTime)
      == map[ResultField := Num(1),
             BalanceField := Num(if "$$" in account.balances then account.balances["$$"] else 0),
             SequenceField := Num(sequence), LastHashField := Dig(account.head), CreateTimeField := Num(createTime),
             PropertyValueField :=
               Str(if "@name" in account.properties then account.properties["@name"] else "")]
  {
  }
}
