/**
 The race that a client-supplied last digest allows, and the exact condition under which a source
 account is safe from it.
 */
module Race {
  import opened Bytes
  import opened Options
  import opened Ledger
  import opened Admission
  import opened Runs
  import opened Served

  predicate Payable(root: Root) {
    && root.action == TransferOut && root.source != root.destination
    && Stoll(root.amount).Some? && Stoll(root.amount).value > 0
  }

  function Price(root: Root): int
    requires Payable(root)
  {
    Stoll(root.amount).value
  }

  // The source holds what the request pays, but not twice that.
  predicate Affordable(root: Root, s: Store) {
    && Payable(root) && root.source in s.accounts && root.key in s.accounts[root.source].balances
    && Price(root) <= s.Balance(root.source, root.key) < 2 * Price(root)
  }

  // The request, linked to `last` and signed by its sender.
  function Payment(root: Root, last: Digest, signature: seq<Byte>): Root {
    root.(lastDigest := last, signature := signature)
  }

  function PaymentTx(root: Root, last: Digest, signature: seq<Byte>): Tx
    requires Payable(root)
  {
    Draft(Payment(root, last, signature), 0, last)
  }

  // The digest of the first payment, which its sender knows beforehand.
  function FirstDigest(root: Root, head: Digest): Digest
    requires Payable(root)
  {
    Hash(RequestBody(root), head)
  }

  // The request at step pc, having read the balance, if at all, while the sender's head was `head`.
  function Paying(root: Root, head: Digest, last: Digest, signature: seq<Byte>, pc: Pc): Frame
    requires Payable(root)
  {
    Frame(Payment(root, last, signature), 0, pc, PaymentTx(root, last, signature),
          if pc == CheckBalance then None else Some(head), Pending)
  }

  lemma PaymentSteps(root: Root, head: Digest, last: Digest, sig: seq<Byte>, s: Store, verify: Tx -> bool)
    requires Payable(root) && !NoHash(root.source) && verify(PaymentTx(root, last, sig))
    ensures Advance(Begin(Payment(root, last, sig), 0), s, verify) == Paying(root, head, last, sig, CheckBalance)
    ensures Affordable(root, s) && s.LastHash(root.source) == Some(head) ==>
              Advance(Paying(root, head, last, sig, CheckBalance), s, verify)
              == Paying(root, head, last, sig, CheckLastHash)
    ensures s.LastHash(root.source) == Some(last) ==>
              Advance(Paying(root, head, last, sig, CheckLastHash), s, verify) == Paying(root, head, last, sig, Send)
  {
  }

  lemma PaymentSettles(root: Root, last: Digest, sig: seq<Byte>, s: Store)
    requires Payable(root) && s.LastHash(root.source) == Some(last)
    ensures CanSettle(s, PaymentTx(root, last, sig))
    ensures
      var s' := Settle(s, PaymentTx(root, last, sig));
      && s'.LastHash(root.source) == Some(FirstDigest(root, last))
      && s'.Balance(root.source, root.key) == s.Balance(root.source, root.key) - Price(root)
  {
  }

  // A request arrives and makes its first two reads.
  lemma ArriveAndRead(w: World, id: nat, root: Root, f: Frame, g: Frame, rest: seq<Step>, verify: Tx -> bool)
    requires id !in w.frames && IsTransaction(root.action) && f.root == root && g.root == root
    requires Advance(Begin(root, 0), w.store, verify) == f && Advance(f, w.store, verify) == g
    requires f.pc != Send
    ensures Exec(w, [Arrive(id, root, 0), Act(id), Act(id)] + rest, verify) ==
            Exec(w.(frames := w.frames[id := g]), rest, verify)
  {
    var w1 := Apply(w, Arrive(id, root, 0), verify);
    var w2 := Apply(w1, Act(id), verify);
    assert [Arrive(id, root, 0), Act(id), Act(id)] + rest == [Arrive(id, root, 0)] + ([Act(id)] + ([Act(id)] + rest));
    RunOf(w, Arrive(id, root, 0), [Act(id)] + ([Act(id)] + rest), verify);
    RunOf(w1, Act(id), [Act(id)] + rest, verify);
    RunOf(w2, Act(id), rest, verify);
    assert Apply(w2, Act(id), verify).frames == w.frames[id := g];
  }

  // It makes its last read and broadcasts.
  lemma ReadAndSend(w: World, id: nat, f: Frame, rest: seq<Step>, verify: Tx -> bool)
    requires id in w.frames && IsTransaction(f.root.action) && w.frames[id].root == f.root
    requires w.frames[id].pc != Send && f.pc == Send && Advance(w.frames[id], w.store, verify) == f
    ensures Exec(w, [Act(id), Act(id)] + rest, verify) ==
            Exec(w.(frames := w.frames[id := f.End(Ok)], pool := Sent(w.pool, f)), rest, verify)
  {
    var w1 := Apply(w, Act(id), verify);
    assert [Act(id), Act(id)] + rest == [Act(id)] + ([Act(id)] + rest);
    RunOf(w, Act(id), [Act(id)] + rest, verify);
    RunOf(w1, Act(id), rest, verify);
    assert Apply(w1, Act(id), verify).frames == w.frames[id := f.End(Ok)];
  }

  // The first request's proposal settles between the second's balance read and its head read.
  function Race(first: Frame, second: Frame): seq<Step> {
    [Arrive(1, first.root, 0), Act(1), Act(1)] + ([Act(1), Act(1)] +
    ([Arrive(2, second.root, 0), Act(2), Act(2)] + RaceEnd(first, second)))
  }

  function RaceEnd(first: Frame, second: Frame): seq<Step> {
    [Commit(Proposal(first.tx, Some(first)))] +
    ([Act(2), Act(2)] + [Commit(Proposal(second.tx, Some(second)))])
  }

  lemma RacePlay(w: World, s1: Store, a: Frame, b: Frame, first: Frame, c: Frame, d: Frame, second: Frame,
                 verify: Tx -> bool)
    requires 1 !in w.frames && 2 !in w.frames
    requires IsTransaction(first.root.action) && a.root == b.root == first.root
    requires IsTransaction(second.root.action) && c.root == d.root == second.root
    requires a.pc == c.pc == CheckBalance && b.pc == d.pc == CheckLastHash && first.pc == second.pc == Send
    requires Advance(Begin(first.root, 0), w.store, verify) == a && Advance(a, w.store, verify) == b
    requires Advance(b, w.store, verify) == first
    requires Advance(Begin(second.root, 0), w.store, verify) == c && Advance(c, w.store, verify) == d
    requires Advance(d, s1, verify) == second
    requires CanSettle(w.store, first.tx) && s1 == Settle(w.store, first.tx) && CanSettle(s1, second.tx)
    ensures
      var r := Exec(w, Race(first, second), verify);
      r.Some? && r.value.log == w.log + RaceLog(first, w.store, second, s1)
  {
    var t3 := RaceEnd(first, second);
    var t2 := [Arrive(2, second.root, 0), Act(2), Act(2)] + t3;
    PlayFirst(w, first, a, b, t2, verify);
    var w2 := w.(frames := w.frames[1 := b][1 := first.End(Ok)], pool := Sent(w.pool, first));
    ArriveAndRead(w2, 2, second.root, c, d, t3, verify);
    RacePlayEnd(w2.(frames := w2.frames[2 := d]), s1, first, d, second, verify);
  }

  function RaceLog(first: Frame, s: Store, second: Frame, s1: Store): seq<Settlement> {
    [Settlement(Proposal(first.tx, Some(first)), s)] + [Settlement(Proposal(second.tx, Some(second)), s1)]
  }

  // The first request is served from arrival to broadcast.
  lemma PlayFirst(w: World, first: Frame, a: Frame, b: Frame, rest: seq<Step>, verify: Tx -> bool)
    requires IsTransaction(first.root.action) && a.root == b.root == first.root && 1 !in w.frames
    requires a.pc == CheckBalance && b.pc == CheckLastHash && first.pc == Send
    requires Advance(Begin(first.root, 0), w.store, verify) == a && Advance(a, w.store, verify) == b
    requires Advance(b, w.store, verify) == first
    ensures Exec(w, [Arrive(1, first.root, 0), Act(1), Act(1)] + ([Act(1), Act(1)] + rest), verify)
         == Exec(w.(frames := w.frames[1 := b][1 := first.End(Ok)], pool := Sent(w.pool, first)), rest, verify)
  {
    ArriveAndRead(w, 1, first.root, a, b, [Act(1), Act(1)] + rest, verify);
    ReadAndSend(w.(frames := w.frames[1 := b]), 1, first, rest, verify);
  }

  lemma RacePlayEnd(w: World, s1: Store, first: Frame, d: Frame, second: Frame, verify: Tx -> bool)
    requires Proposal(first.tx, Some(first)) in w.pool && CanSettle(w.store, first.tx)
    requires 2 in w.frames && w.frames[2] == d && d.pc == CheckLastHash && second.pc == Send && d.root == second.root
    requires IsTransaction(second.root.action)
    requires s1 == Settle(w.store, first.tx) && Advance(d, s1, verify) == second && CanSettle(s1, second.tx)
    ensures
      var r := Exec(w, RaceEnd(first, second), verify);
      r.Some? && r.value.log == w.log + RaceLog(first, w.store, second, s1)
  {
    var p, q := Proposal(first.tx, Some(first)), Proposal(second.tx, Some(second));
    RunOf(w, Commit(p), [Act(2), Act(2)] + [Commit(q)], verify);
    var w4 := Apply(w, Commit(p), verify);
    ReadAndSend(w4, 2, second, [Commit(q)], verify);
    var w5 := w4.(frames := w4.frames[2 := second.End(Ok)], pool := Sent(w4.pool, second));
    RunOf(w5, Commit(q), [], verify);
  }

  // ---------------------------------------------------------------- the exact condition

  predicate NeverOverdrawn(log: seq<Settlement>, a: Address) {
    forall i :: 0 <= i < |log| && IsOut(log[i].proposal) && log[i].proposal.origin.value.root.source == a ==>
                  Funded(log[i].proposal.tx, log[i].before)
  }

  /** In no run from this ledger does a settled transfer_out of this account find less than its amount. */
  ghost predicate Safe(s: Store, a: Address, verify: Tx -> bool) {
    forall w, steps :: Init(w) && w.store == s && Exec(w, steps, verify).Some? ==>
      NeverOverdrawn(Exec(w, steps, verify).value.log, a)
  }

  lemma ServerReadIsSafe(s: Store, a: Address, verify: Tx -> bool)
    requires NoHash(a)
    ensures Safe(s, a, verify)
  {
    forall w, steps | Init(w) && w.store == s && Exec(w, steps, verify).Some?
      ensures NeverOverdrawn(Exec(w, steps, verify).value.log, a)
    {
      SandwichedNeverOverdraws(w, steps, verify);
    }
  }

  // The two payments as they stand before broadcasting.
  function PayFirst(root: Root, head: Digest, sig: seq<Byte>): Frame
    requires Payable(root)
  {
    Paying(root, head, head, sig, Send)
  }

  function PayAgain(root: Root, head: Digest, sig: seq<Byte>): Frame
    requires Payable(root)
  {
    Paying(root, head, FirstDigest(root, head), sig, Send)
  }

  // The holder of the source's key has signed the payment once for this head, and once for the next.
  predicate CanSign(root: Root, head: Digest, sig1: seq<Byte>, sig2: seq<Byte>, verify: Tx -> bool) {
    && Payable(root)
    && verify(PaymentTx(root, head, sig1)) && verify(PaymentTx(root, FirstDigest(root, head), sig2))
  }

  /** From any world in which the payer can pay once but not twice: when the client supplies the last digest,
      both payments settle, the second from less than its amount. */
  lemma InterleavedClientOverdraws(w: World, root: Root, sig1: seq<Byte>, sig2: seq<Byte>, verify: Tx -> bool)
    requires 1 !in w.frames && 2 !in w.frames && Affordable(root, w.store) && !NoHash(root.source)
    requires CanSign(root, w.store.accounts[root.source].head, sig1, sig2, verify)
    ensures
      var head := w.store.accounts[root.source].head;
      var r := Exec(w, Race(PayFirst(root, head, sig1), PayAgain(root, head, sig2)), verify);
      r.Some? && !NeverOverdrawn(r.value.log, root.source)
  {
    var s0, head := w.store, w.store.accounts[root.source].head;
    var link := FirstDigest(root, head);
    PaymentSteps(root, head, head, sig1, s0, verify);
    PaymentSteps(root, head, link, sig2, s0, verify);
    PaymentSettles(root, head, sig1, s0);
    var s1 := Settle(s0, PaymentTx(root, head, sig1));
    PaymentSteps(root, head, link, sig2, s1, verify);
    PaymentSettles(root, link, sig2, s1);
    RacePlay(w, s1, Paying(root, head, head, sig1, CheckBalance), Paying(root, head, head, sig1, CheckLastHash),
             PayFirst(root, head, sig1), Paying(root, head, link, sig2, CheckBalance),
             Paying(root, head, link, sig2, CheckLastHash), PayAgain(root, head, sig2), verify);
    RacedOverdraws(w.log, root, head, sig1, s0, sig2, s1);
  }

  lemma RacedOverdraws(log: seq<Settlement>, root: Root, head: Digest, sig1: seq<Byte>, s0: Store,
                       sig2: seq<Byte>, s1: Store)
    requires Payable(root) && s1.Balance(root.source, root.key) < Price(root)
    ensures !NeverOverdrawn(log + RaceLog(PayFirst(root, head, sig1), s0, PayAgain(root, head, sig2), s1), root.source)
  {
    var all := log + RaceLog(PayFirst(root, head, sig1), s0, PayAgain(root, head, sig2), s1);
    var e := Settlement(Proposal(PayAgain(root, head, sig2).tx, Some(PayAgain(root, head, sig2))), s1);
    assert all[|log| + 1] == e;
    assert IsOut(e.proposal) && !Funded(e.proposal.tx, e.before);
  }

  /** From every ledger in which it can pay once but not twice, the transfer_outs of an account that can sign
      are safe in every interleaving exactly when the server reads the account's last digest itself: the
      guard no_hash. */
  lemma SafeIff(s: Store, root: Root, sig1: seq<Byte>, sig2: seq<Byte>, verify: Tx -> bool)
    requires Affordable(root, s)
    requires !NoHash(root.source) ==> CanSign(root, s.accounts[root.source].head, sig1, sig2, verify)
    ensures Safe(s, root.source, verify) <==> NoHash(root.source)
  {
    if NoHash(root.source) {
      ServerReadIsSafe(s, root.source, verify);
    } else {
      var w, head := World(s, {}, map[], []), s.accounts[root.source].head;
      InterleavedClientOverdraws(w, root, sig1, sig2, verify);
      var steps := Race(PayFirst(root, head, sig1), PayAgain(root, head, sig2));
      assert Init(w) && Exec(w, steps, verify).Some?;
    }
  }

  // ---------------------------------------------------------------- from the empty ledger

  const NOTHING := Store(map[], map[], map[])

  // The source opens its account with what it will pay.
  predicate Opens(opening: Root, root: Root) {
    && opening.action == AccountCreate && opening.account == root.source && opening.amount == root.amount
    && Payable(root) && root.key == NATIVE_ASSET
  }

  function OpeningDigest(opening: Root): Digest
    requires opening.action == AccountCreate
  {
    Hash(RequestBody(opening), Zero)
  }

  lemma OpenedAffords(opening: Root, root: Root)
    requires Opens(opening, root)
    ensures
      var tx := Draft(opening, 0, Zero);
      && CanSettle(NOTHING, tx) && Affordable(root, Settle(NOTHING, tx))
      && Settle(NOTHING, tx).LastHash(root.source) == Some(OpeningDigest(opening))
  {
  }

  /** Even from the empty ledger, where the account has first to be opened, it is safe in every interleaving
      exactly when the guard no_hash holds of it. */
  lemma SafeFromNothingIff(opening: Root, root: Root, sig1: seq<Byte>, sig2: seq<Byte>, verify: Tx -> bool)
    requires Opens(opening, root)
    requires !NoHash(root.source) ==>
               verify(Draft(opening, 0, Zero)) && CanSign(root, OpeningDigest(opening), sig1, sig2, verify)
    ensures Safe(NOTHING, root.source, verify) <==> NoHash(root.source)
  {
    if NoHash(root.source) {
      ServerReadIsSafe(NOTHING, root.source, verify);
    } else {
      UnsafeFromNothing(opening, root, sig1, sig2, verify);
    }
  }

  lemma UnsafeFromNothing(opening: Root, root: Root, sig1: seq<Byte>, sig2: seq<Byte>, verify: Tx -> bool)
    requires Opens(opening, root) && !NoHash(root.source) && verify(Draft(opening, 0, Zero))
    requires CanSign(root, OpeningDigest(opening), sig1, sig2, verify)
    ensures !Safe(NOTHING, root.source, verify)
  {
    var w, head := World(NOTHING, {}, map[], []), OpeningDigest(opening);
    var p := OpeningProposal(opening, root, verify);
    var race := Race(PayFirst(root, head, sig1), PayAgain(root, head, sig2));
    ServeAndSettle(w, 0, opening, 0, race, verify);
    InterleavedClientOverdraws(After(w, 0, p), root, sig1, sig2, verify);
    assert Init(w) && Exec(w, [Serve(0, opening, 0), Commit(p)] + race, verify).Some?;
  }

  lemma OpeningProposal(opening: Root, root: Root, verify: Tx -> bool) returns (p: Proposal)
    requires Opens(opening, root) && verify(Draft(opening, 0, Zero))
    ensures p == Broadcast(NOTHING, opening, 0, verify) && p.origin.Some? && CanSettle(NOTHING, p.tx)
    ensures Admissible(opening, 0, NOTHING, verify) && SettlesAtOnce(opening, NOTHING)
    ensures Affordable(root, Settle(NOTHING, p.tx))
    ensures Settle(NOTHING, p.tx).LastHash(root.source) == Some(OpeningDigest(opening))
  {
    p := Broadcast(NOTHING, opening, 0, verify);
    OpenedAffords(opening, root);
    BroadcastIs(NOTHING, opening, 0, verify);
  }
}
