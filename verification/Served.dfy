/**
 What becomes of a request that is answered well: when its proposal can settle, and what balances its
 settlement leaves.
 */
module Served {
  import opened Options
  import opened Ledger
  import opened Admission
  import opened Runs

  // What a request served on one store broadcasts.
  function Broadcast(s: Store, root: Root, now: int, verify: Tx -> bool): Proposal
    requires IsTransaction(root.action)
  {
    var g := Complete(Begin(root, now), Still(s), 0, verify).(pc := Send, outcome := Pending);
    Proposal(g.tx, Some(g))
  }

  lemma {:induction false} CompleteTx(f: Frame, view: nat -> Store, k: nat, verify: Tx -> bool)
    requires IsTransaction(f.root.action) && f.pc != Start
    ensures Complete(f, view, k, verify).tx == f.tx
    decreases Remaining(f.pc)
  {
    if f.pc != Done {
      AdvanceTerminates(f, view(k), verify);
      CompleteTx(Advance(f, view(k), verify), view, k + 1, verify);
    }
  }

  lemma BroadcastIs(s: Store, root: Root, now: int, verify: Tx -> bool)
    requires IsTransaction(root.action) && Admissible(root, now, s, verify)
    ensures LastDigest(root, s).Some?
    ensures Broadcast(s, root, now, verify).tx == Draft(root, now, LastDigest(root, s).value)
    ensures Broadcast(s, root, now, verify).origin.value.root == root
  {
    var f := Begin(root, now);
    CompleteTx(Advance(f, s, verify), Still(s), 1, verify);
    CompleteOk(f, Still(s), 0, verify);
  }

  // ---------------------------------------------------------------- when it settles

  predicate IsPending(s: Store, a: Address, d: Digest) {
    var blocks := s.ReceiveBlocks(a);
    var k := Find(blocks, d);
    k < |blocks| && Amount(blocks[k].body.params).Some?
  }

  predicate Parses(amount: string) {
    amount == "" || Stoll(amount).Some?
  }

  // What settlement asks of the store, the transaction being linked to `last`.
  predicate Settleable(root: Root, last: Digest, s: Store)
    requires IsTransaction(root.action)
  {
    match root.action
    case AccountCreate => root.account !in s.accounts && Parses(root.amount)
    case TransferIn => s.LastHash(root.account) == Some(last) && IsPending(s, root.account, root.txDigest)
    case _ => s.LastHash(Sender(root)) == Some(last)
  }

  lemma DraftSettlesIff(root: Root, now: int, last: Digest, s: Store)
    requires IsTransaction(root.action) && (root.action == AccountCreate ==> last == Zero)
    requires root.action == TransferOut ==> Stoll(root.amount).Some?
    ensures CanSettle(s, Draft(root, now, last)) <==> Settleable(root, last, s)
  {
    GiveAmount();
    ZeroParses();
    assert Draft(root, now, last).body == RequestBody(root);
  }

  /** A request admitted on one store settles in any other, later or not, exactly when its link is the
      sender's head there, or for an account_create the account is still missing and the amount parses,
      and for a transfer_in the entry is pending and its amount parses. */
  lemma AdmittedSettlesIff(root: Root, now: int, s: Store, s': Store, verify: Tx -> bool)
    requires IsTransaction(root.action) && Admissible(root, now, s, verify)
    ensures LastDigest(root, s).Some?
    ensures CanSettle(s', Broadcast(s, root, now, verify).tx) <==> Settleable(root, LastDigest(root, s).value, s')
  {
    BroadcastIs(s, root, now, verify);
    DraftSettlesIff(root, now, LastDigest(root, s).value, s');
  }

  // Whether a request answered with Result 1 on this store can settle in it at once.
  predicate SettlesAtOnce(root: Root, s: Store)
    requires IsTransaction(root.action)
  {
    var linked := s.LastHash(Sender(root)).Some? && LastDigest(root, s) == s.LastHash(Sender(root));
    match root.action
    case AccountCreate => Parses(root.amount)
    case SetProperty => linked
    case TransferIn => linked && IsPending(s, root.account, root.txDigest)
    case _ => true
  }

  /** In the store that admitted it a give or a transfer_out always settles, an account_create exactly when
      its amount is empty or parses, a set_property exactly when its link is the head, and a transfer_in
      exactly when moreover its entry is pending and parses. */
  lemma AdmittedSettlesAtOnceIff(root: Root, now: int, s: Store, verify: Tx -> bool)
    requires IsTransaction(root.action) && Admissible(root, now, s, verify)
    ensures CanSettle(s, Broadcast(s, root, now, verify).tx) <==> SettlesAtOnce(root, s)
  {
    AdmittedSettlesIff(root, now, s, s, verify);
  }

  /** Served and settled in one go. */
  lemma ServeAndSettle(w: World, id: nat, root: Root, now: int, rest: seq<Step>, verify: Tx -> bool)
    requires Enabled(w, Serve(id, root, now)) && Admissible(root, now, w.store, verify)
    requires SettlesAtOnce(root, w.store)
    ensures CanSettle(w.store, Broadcast(w.store, root, now, verify).tx)
    ensures
      var p := Broadcast(w.store, root, now, verify);
      Exec(w, [Serve(id, root, now), Commit(p)] + rest, verify) == Exec(After(w, id, p), rest, verify)
  {
    var p := Broadcast(w.store, root, now, verify);
    AdmittedSettlesAtOnceIff(root, now, w.store, verify);
    AdmittedIff(root, now, w.store, verify);
    CompleteOk(Begin(root, now), Still(w.store), 0, verify);
    var w1 := Apply(w, Serve(id, root, now), verify);
    assert [Serve(id, root, now), Commit(p)] + rest == [Serve(id, root, now)] + ([Commit(p)] + rest);
    RunOf(w, Serve(id, root, now), [Commit(p)] + rest, verify);
    RunOf(w1, Commit(p), rest, verify);
  }

  // The world once request `id` has been served and its proposal p has settled.
  function After(w: World, id: nat, p: Proposal): World
    requires CanSettle(w.store, p.tx) && p.origin.Some?
  {
    World(Settle(w.store, p.tx), w.pool + {p}, w.frames[id := p.origin.value.End(Ok)],
          w.log + [Settlement(p, w.store)])
  }

  // ---------------------------------------------------------------- who can end below zero

  /** A give is served and settled whatever the genesis account holds: it ends below zero exactly when
      it held less than the amount given. */
  lemma GiveOverdrawsIff(w: World, id: nat, root: Root, now: int, verify: Tx -> bool)
    requires Enabled(w, Serve(id, root, now)) && root.action == Give && Admissible(root, now, w.store, verify)
    ensures
      var p := Broadcast(w.store, root, now, verify);
      var r := Exec(w, [Serve(id, root, now), Commit(p)], verify);
      && IsGive(p, root.destination) && r.Some?
      && (r.value.store.Balance(Genesis, NATIVE_ASSET) < 0 <==> w.store.Balance(Genesis, NATIVE_ASSET) < 100000)
  {
    var p := Broadcast(w.store, root, now, verify);
    BroadcastIs(w.store, root, now, verify);
    ServeAndSettle(w, id, root, now, [], verify);
    assert [Serve(id, root, now), Commit(p)] + [] == [Serve(id, root, now), Commit(p)];
    GiveAmount();
  }

  lemma TransferOutBalances(s: Store, root: Root, now: int, last: Digest)
    requires root.action == TransferOut && root.source != root.destination && Stoll(root.amount).Some?
    requires s.LastHash(root.source) == Some(last)
    ensures
      var tx, v := Draft(root, now, last), Stoll(root.amount).value;
      && CanSettle(s, tx)
      && Settle(s, tx).Balance(root.source, root.key) == s.Balance(root.source, root.key) - v
      && Settle(s, tx).Balance(root.destination, root.key) == s.Balance(root.destination, root.key)
      && Settle(s, tx).ReceiveBlocks(root.destination) == [tx] + s.ReceiveBlocks(root.destination)
  {
  }

  lemma TransferInBalances(s: Store, root: Root, now: int, last: Digest, entry: Tx)
    requires root.action == TransferIn && s.LastHash(root.account) == Some(last)
    requires s.ReceiveBlocks(root.account) != [] && s.ReceiveBlocks(root.account)[0] == entry
    requires root.txDigest == entry.digest && Amount(entry.body.params).Some?
    ensures
      var tx := Draft(root, now, last);
      && CanSettle(s, tx)
      && Settle(s, tx).Balance(root.account, entry.body.key)
         == s.Balance(root.account, entry.body.key) + Amount(entry.body.params).value
  {
    assert Find(s.ReceiveBlocks(root.account), entry.digest) == 0;
  }

  // The transfer_out is admitted and settles, and then its receiver's transfer_in for it does.
  predicate PaidAndTaken(s: Store, out: Root, now: int, take: Root, now': int, verify: Tx -> bool) {
    && out.action == TransferOut && Admissible(out, now, s, verify)
    && take.action == TransferIn && take.account == out.destination
    && var p := Broadcast(s, out, now, verify);
       && CanSettle(s, p.tx) && take.txDigest == p.tx.digest
       && var s' := Settle(s, p.tx);
          && Admissible(take, now', s', verify)
          && s'.LastHash(take.account).Some? && LastDigest(take, s') == s'.LastHash(take.account)
  }

  lemma PaidAndTakenBalances(s: Store, out: Root, now: int, take: Root, now': int, verify: Tx -> bool)
    requires PaidAndTaken(s, out, now, take, now', verify)
    ensures
      var v, s1 := Stoll(out.amount).value, Settle(s, Broadcast(s, out, now, verify).tx);
      var q := Broadcast(s1, take, now', verify).tx;
      && SettlesAtOnce(take, s1) && CanSettle(s1, q)
      && Settle(s1, q).Balance(out.destination, out.key) == s.Balance(out.destination, out.key) + v
      && Settle(s1, q).Balance(out.source, out.key) == s.Balance(out.source, out.key) - v
  {
    var p := Broadcast(s, out, now, verify);
    BroadcastIs(s, out, now, verify);
    TransferOutBalances(s, out, now, LastDigest(out, s).value);
    var s1 := Settle(s, p.tx);
    BroadcastIs(s1, take, now', verify);
    TransferInBalances(s1, take, now', LastDigest(take, s1).value, p.tx);
    AdmittedSettlesAtOnceIff(take, now', s1, verify);
    SettleHeads(s1, Broadcast(s1, take, now', verify).tx, out.source);
  }

  /** A transfer_out of any amount that parses, negative ones included, adds to its receiver exactly what it
      takes from its sender, once the receiver's transfer_in is served: so a negative one takes the receiver
      below zero exactly when it held less than is taken. */
  lemma TransferMovesExactly(w: World, id: nat, out: Root, now: int, id': nat, take: Root, now': int,
                             verify: Tx -> bool)
    requires id !in w.frames && id' !in w.frames && id' != id
    requires PaidAndTaken(w.store, out, now, take, now', verify)
    ensures
      var v := Stoll(out.amount).value;
      var p := Broadcast(w.store, out, now, verify);
      var q := Broadcast(Settle(w.store, p.tx), take, now', verify);
      var r := Exec(w, [Serve(id, out, now), Commit(p), Serve(id', take, now'), Commit(q)], verify);
      && r.Some?
      && r.value.store.Balance(out.destination, out.key) == w.store.Balance(out.destination, out.key) + v
      && r.value.store.Balance(out.source, out.key) == w.store.Balance(out.source, out.key) - v
      && (r.value.store.Balance(out.destination, out.key) < 0 <==> w.store.Balance(out.destination, out.key) < -v)
  {
    var p := Broadcast(w.store, out, now, verify);
    var q := Broadcast(Settle(w.store, p.tx), take, now', verify);
    BroadcastIs(w.store, out, now, verify);
    PaidAndTakenBalances(w.store, out, now, take, now', verify);
    ServeBoth(w, id, out, now, p, id', take, now', q, verify);
  }

  lemma ServeBoth(w: World, id: nat, a: Root, now: int, p: Proposal, id': nat, b: Root, now': int, q: Proposal,
                  verify: Tx -> bool)
    requires Enabled(w, Serve(id, a, now)) && Admissible(a, now, w.store, verify) && SettlesAtOnce(a, w.store)
    requires p == Broadcast(w.store, a, now, verify) && CanSettle(w.store, p.tx)
    requires id' !in w.frames && id' != id && IsTransaction(b.action)
    requires Admissible(b, now', Settle(w.store, p.tx), verify) && SettlesAtOnce(b, Settle(w.store, p.tx))
    requires q == Broadcast(Settle(w.store, p.tx), b, now', verify) && CanSettle(Settle(w.store, p.tx), q.tx)
    ensures
      var r := Exec(w, [Serve(id, a, now), Commit(p), Serve(id', b, now'), Commit(q)], verify);
      r.Some? && r.value.store == Settle(Settle(w.store, p.tx), q.tx)
  {
    assert [Serve(id, a, now), Commit(p), Serve(id', b, now'), Commit(q)]
        == [Serve(id, a, now), Commit(p)] + ([Serve(id', b, now'), Commit(q)] + []);
    ServeAndSettle(w, id, a, now, [Serve(id', b, now'), Commit(q)] + [], verify);
    ServeLast(After(w, id, p), id', b, now', q, verify);
  }

  lemma ServeLast(w: World, id: nat, root: Root, now: int, p: Proposal, verify: Tx -> bool)
    requires Enabled(w, Serve(id, root, now)) && Admissible(root, now, w.store, verify)
    requires SettlesAtOnce(root, w.store) && p == Broadcast(w.store, root, now, verify)
    ensures CanSettle(w.store, p.tx)
    ensures Exec(w, [Serve(id, root, now), Commit(p)] + [], verify) == Some(After(w, id, p))
  {
    ServeAndSettle(w, id, root, now, [], verify);
  }

  /** Settlement itself checks no balance: a transfer_out of another node takes its sender below zero exactly
      when it held less than its amount. */
  lemma ForeignOverdrawsIff(w: World, tx: Tx, verify: Tx -> bool)
    requires tx.body.kind == TransferAssetOut && CanSettle(w.store, tx)
    ensures
      var r := Exec(w, [Foreign(tx), Commit(Proposal(tx, None))], verify);
      && r.Some?
      && (r.value.store.Balance(tx.body.sender, tx.body.key) < 0 <==>
            w.store.Balance(tx.body.sender, tx.body.key) < Amount(tx.body.params).value)
  {
    assert [Foreign(tx), Commit(Proposal(tx, None))] == [Foreign(tx)] + ([Commit(Proposal(tx, None))] + []);
    RunOf(w, Foreign(tx), [Commit(Proposal(tx, None))] + [], verify);
    RunOf(Apply(w, Foreign(tx), verify), Commit(Proposal(tx, None)), [], verify);
  }
}
