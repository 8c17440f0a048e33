/**
 Whole runs of the node: any number of requests in progress, interleaved with each other,
 with settlements, and with proposals that other nodes broadcast.
 Accounts are never deleted.
 */
module Runs {
  import opened Options
  import opened Ledger
  import opened Admission

  // `origin` is the request that broadcast the proposal, just before it did; None for another node.
  datatype Proposal = Proposal(tx: Tx, origin: Option<Frame>)

  // `before` is the store in which the proposal settled.
  datatype Settlement = Settlement(proposal: Proposal, before: Store)

  datatype World = World(store: Store, pool: set<Proposal>, frames: map<nat, Frame>, log: seq<Settlement>)

  datatype Step =
    | Arrive(id: nat, root: Root, now: int)       // a request is accepted
    | Act(id: nat)                                // it makes its next read, or broadcasts
    | Serve(id: nat, root: Root, now: int)        // a whole request with nothing in between
    | Foreign(tx: Tx)                             // another node broadcasts a proposal
    | Commit(proposal: Proposal)                  // consensus settles a proposal

  predicate Enabled(w: World, step: Step) {
    match step
    case Arrive(id, root, _) => id !in w.frames && IsTransaction(root.action)
    case Act(id) => id in w.frames && IsTransaction(w.frames[id].root.action)
    case Serve(id, root, _) => id !in w.frames && IsTransaction(root.action)
    case Foreign(_) => true
    case Commit(p) => p in w.pool && CanSettle(w.store, p.tx)
  }

  function Sent(pool: set<Proposal>, f: Frame): set<Proposal> {
    pool + {Proposal(f.tx, Some(f))}
  }

  function Apply(w: World, step: Step, verify: Tx -> bool): World
    requires Enabled(w, step)
  {
    match step
    case Arrive(id, root, now) => w.(frames := w.frames[id := Begin(root, now)])
    case Act(id) =>
      var f := w.frames[id];
      w.(frames := w.frames[id := Advance(f, w.store, verify)],
         pool := if f.pc == Send then Sent(w.pool, f) else w.pool)
    case Serve(id, root, now) =>
      var g := Complete(Begin(root, now), Still(w.store), 0, verify);
      w.(frames := w.frames[id := g],
         pool := if g.outcome == Ok then Sent(w.pool, g.(pc := Send, outcome := Pending)) else w.pool)
    case Foreign(tx) => w.(pool := w.pool + {Proposal(tx, None)})
    case Commit(p) => w.(store := Settle(w.store, p.tx), log := w.log + [Settlement(p, w.store)])
  }

  function Exec(w: World, steps: seq<Step>, verify: Tx -> bool): Option<World>
    decreases |steps|
  {
    if steps == [] then Some(w)
    else if !Enabled(w, steps[0]) then None
    else Exec(Apply(w, steps[0], verify), steps[1..], verify)
  }

  lemma RunOf(w: World, step: Step, rest: seq<Step>, verify: Tx -> bool)
    requires Enabled(w, step)
    ensures Exec(w, [step] + rest, verify) == Exec(Apply(w, step, verify), rest, verify)
  {
    assert ([step] + rest)[1..] == rest;
  }

  predicate Init(w: World) {
    w.pool == {} && w.frames == map[] && w.log == []
  }

  // ---------------------------------------------------------------- facts that outlive other steps

  predicate IsGive(p: Proposal, dst: Address) {
    p.origin.Some? && p.origin.value.root.action == Give && p.origin.value.root.destination == dst
  }

  predicate Given(log: seq<Settlement>, dst: Address) {
    exists i :: 0 <= i < |log| && IsGive(log[i].proposal, dst)
  }

  // The transaction would still settle, as far as its link is concerned.
  predicate Current(tx: Tx, s: Store) {
    s.LastHash(tx.body.sender) == Some(tx.prev)
  }

  // Its link is not ahead of the sender's head; so once it is no longer current it never is again.
  predicate Anchored(tx: Tx, s: Store) {
    tx.body.sender in s.accounts && Depth(tx.prev) <= Depth(s.accounts[tx.body.sender].head)
  }

  predicate Funded(tx: Tx, s: Store) {
    Amount(tx.body.params).Some? && Amount(tx.body.params).value <= s.Balance(tx.body.sender, tx.body.key)
  }

  predicate Unclaimed(f: Frame, s: Store, log: seq<Settlement>) {
    Current(f.tx, s) ==> !Given(log, f.root.destination)
  }

  // The balance was read while the link was current, or the link was read before the balance.
  predicate Sandwiched(f: Frame) {
    ServerSigned(f.root) || f.balanceHead == Some(f.tx.prev)
  }

  predicate Facts(f: Frame, s: Store, log: seq<Settlement>) {
    && (f.pc !in {Start, Done} && f.root.action != AccountCreate && ServerSigned(f.root) ==> Anchored(f.tx, s))
    && (f.pc == CheckSettled ==> HasTransferIn(s.SettleBlocks(f.root.destination)) || Unclaimed(f, s, log))
    && (f.pc == Send && f.root.action == Give ==> Unclaimed(f, s, log))
    && (f.pc == CheckLastHash && f.root.action == TransferOut ==> BalanceFacts(f, s))
    && (f.pc == Send && f.root.action == TransferOut ==>
          Anchored(f.tx, s) && (Sandwiched(f) && Current(f.tx, s) ==> Funded(f.tx, s)))
  }

  predicate BalanceFacts(f: Frame, s: Store) {
    var a := f.tx.body.sender;
    && f.balanceHead.Some? && a in s.accounts
    && Depth(f.balanceHead.value) <= Depth(s.accounts[a].head)
    && (f.balanceHead == s.LastHash(a) ==> Funded(f.tx, s))
    && (ServerSigned(f.root) && Current(f.tx, s) ==> Funded(f.tx, s))
  }

  predicate ProposalOk(p: Proposal, s: Store, log: seq<Settlement>, verify: Tx -> bool) {
    p.origin.Some? ==>
      var f := p.origin.value;
      p.tx == f.tx && f.pc == Send && FrameOk(f, verify) && Facts(f, s, log)
  }

  // ---------------------------------------------------------------- the two claims

  /** No destination receives two gives, and a give is what it should be. */
  ghost predicate OneGiveEach(log: seq<Settlement>) {
    && (forall i, j, d :: 0 <= i < j < |log| && IsGive(log[i].proposal, d) ==> !IsGive(log[j].proposal, d))
    && (forall i, d :: 0 <= i < |log| && IsGive(log[i].proposal, d) ==>
          var b := log[i].proposal.tx.body;
          && b.kind == TransferAssetOut && b.sender == Genesis && b.receiver == d
          && b.key == NATIVE_ASSET && b.params == Text(GIVE_AMOUNT))
  }

  predicate IsOut(p: Proposal) {
    p.origin.Some? && p.origin.value.root.action == TransferOut
  }

  /** A settled transfer_out whose balance check was sandwiched found the balance it had checked. */
  predicate NoOverdraft(log: seq<Settlement>) {
    forall i :: 0 <= i < |log| && IsOut(log[i].proposal) && Sandwiched(log[i].proposal.origin.value) ==>
                  Funded(log[i].proposal.tx, log[i].before)
  }

  ghost predicate Inv(w: World, verify: Tx -> bool) {
    && (forall id :: id in w.frames ==> FrameOk(w.frames[id], verify) && Facts(w.frames[id], w.store, w.log))
    && (forall p :: p in w.pool ==> ProposalOk(p, w.store, w.log, verify))
    && (forall d :: Given(w.log, d) ==> Received(w.store, d))
    && OneGiveEach(w.log)
    && NoOverdraft(w.log)
  }

  // ---------------------------------------------------------------- preservation

  lemma AdvanceFacts(f: Frame, s: Store, log: seq<Settlement>, verify: Tx -> bool)
    requires FrameOk(f, verify) && Facts(f, s, log)
    requires forall d :: Given(log, d) ==> Received(s, d)
    ensures Facts(Advance(f, s, verify), s, log)
  {
    if f.pc == Start {
      AdvanceStartFacts(f, s, log, verify);
    } else if f.pc == CheckBalance {
      assert AdvanceBalance(f, s).pc == CheckLastHash ==> BalanceFacts(AdvanceBalance(f, s), s);
    }
  }

  lemma AdvanceStartFacts(f: Frame, s: Store, log: seq<Settlement>, verify: Tx -> bool)
    requires FrameOk(f, verify) && f.pc == Start
    ensures Facts(AdvanceStart(f, s, verify), s, log)
  {
    var last := LastDigest(f.root, s);
    if last.Some? && ServerSigned(f.root) && f.root.action != AccountCreate {
      assert Draft(f.root, f.now, last.value).body.sender == Sender(f.root);
    }
  }

  // Settling p moves p's sender past every link anchored before.
  lemma SettleStale(tx: Tx, s: Store, mover: Tx)
    requires CanSettle(s, mover) && Anchored(tx, s)
    ensures Anchored(tx, Settle(s, mover))
    ensures mover.body.sender == tx.body.sender ==> !Current(tx, Settle(s, mover))
    ensures mover.body.sender != tx.body.sender ==>
              (Current(tx, Settle(s, mover)) <==> Current(tx, s)) && (Funded(tx, Settle(s, mover)) <==> Funded(tx, s))
  {
    SettleHeads(s, mover, tx.body.sender);
  }

  lemma GivenAppend(log: seq<Settlement>, e: Settlement, d: Address)
    ensures Given(log + [e], d) <==> Given(log, d) || IsGive(e.proposal, d)
  {
    if Given(log, d) {
      var i :| 0 <= i < |log| && IsGive(log[i].proposal, d);
      assert (log + [e])[i] == log[i];
    }
    if IsGive(e.proposal, d) {
      assert (log + [e])[|log|] == e;
    }
  }

  lemma CommitFacts(f: Frame, s: Store, log: seq<Settlement>, p: Proposal, verify: Tx -> bool)
    requires FrameOk(f, verify) && Facts(f, s, log)
    requires CanSettle(s, p.tx) && ProposalOk(p, s, log, verify)
    ensures Facts(f, Settle(s, p.tx), log + [Settlement(p, s)])
  {
    if f.pc !in {Start, Done} {
      SettleHeads(s, p.tx, f.tx.body.sender);
      SettleReceived(s, p.tx, f.root.destination);
      GivenAppend(log, Settlement(p, s), f.root.destination);
      if Anchored(f.tx, s) { SettleStale(f.tx, s, p.tx); }
    }
  }

  lemma CommitLog(s: Store, log: seq<Settlement>, p: Proposal, verify: Tx -> bool)
    requires CanSettle(s, p.tx) && ProposalOk(p, s, log, verify)
    requires OneGiveEach(log) && NoOverdraft(log)
    ensures OneGiveEach(log + [Settlement(p, s)]) && NoOverdraft(log + [Settlement(p, s)])
  {
    forall i, d | 0 <= i < |log| && IsGive(log[i].proposal, d) ensures !IsGive(p, d) {
      assert Given(log, d);
    }
  }

  lemma CommitKeeps(w: World, p: Proposal, verify: Tx -> bool)
    requires Inv(w, verify) && Enabled(w, Commit(p))
    ensures Inv(Apply(w, Commit(p), verify), verify)
  {
    var w' := Apply(w, Commit(p), verify);
    var e := Settlement(p, w.store);
    CommitLog(w.store, w.log, p, verify);
    forall id | id in w.frames ensures Facts(w.frames[id], w'.store, w'.log) {
      CommitFacts(w.frames[id], w.store, w.log, p, verify);
    }
    forall q | q in w.pool ensures ProposalOk(q, w'.store, w'.log, verify) {
      if q.origin.Some? { CommitFacts(q.origin.value, w.store, w.log, p, verify); }
    }
    forall d | Given(w'.log, d) ensures Received(w'.store, d) {
      GivenAppend(w.log, e, d);
      SettleReceived(w.store, p.tx, d);
    }
  }

  lemma StepKeeps(w: World, step: Step, verify: Tx -> bool)
    requires Inv(w, verify) && Enabled(w, step) && !step.Serve?
    ensures Inv(Apply(w, step, verify), verify)
  {
    match step
    case Commit(p) => CommitKeeps(w, p, verify);
    case Act(id) => ActKeeps(w, id, verify);
    case _ =>
  }

  lemma ActKeeps(w: World, id: nat, verify: Tx -> bool)
    requires Inv(w, verify) && Enabled(w, Act(id))
    ensures Inv(Apply(w, Act(id), verify), verify)
  {
    AdvanceFacts(w.frames[id], w.store, w.log, verify);
    AdvanceOk(w.frames[id], w.store, verify);
  }

  // ---------------------------------------------------------------- atomic service is one interleaving

  function Acts(id: nat, n: nat): seq<Step> {
    if n == 0 then [] else [Act(id)] + Acts(id, n - 1)
  }

  // The world in which request `id` has run to its end, from frame f on, with the store standing still.
  function Finished(w: World, id: nat, g: Frame): World {
    w.(frames := w.frames[id := g],
       pool := if g.outcome == Ok then Sent(w.pool, g.(pc := Send, outcome := Pending)) else w.pool)
  }

  lemma ActsFirst(w: World, id: nat, n: nat, verify: Tx -> bool)
    requires Enabled(w, Act(id))
    ensures Exec(w, Acts(id, n + 1), verify) == Exec(Apply(w, Act(id), verify), Acts(id, n), verify)
  {
    assert Acts(id, n + 1)[1..] == Acts(id, n);
  }

  // One step of a request that does not end it changes that request's frame alone.
  lemma ActUnended(w: World, id: nat, g: Frame, verify: Tx -> bool)
    requires Enabled(w, Act(id)) && w.frames[id].pc != Send
    ensures Apply(w, Act(id), verify) == w.(frames := w.frames[id := Advance(w.frames[id], w.store, verify)])
    ensures Finished(Apply(w, Act(id), verify), id, g) == Finished(w, id, g)
  {
    var f := Advance(w.frames[id], w.store, verify);
    assert w.frames[id := f][id := g] == w.frames[id := g];
  }

  lemma ActEnded(w: World, id: nat, verify: Tx -> bool)
    requires Enabled(w, Act(id)) && FrameOk(w.frames[id], verify) && w.frames[id].pc != Done
    requires Advance(w.frames[id], w.store, verify).pc == Done
    ensures Apply(w, Act(id), verify) == Finished(w, id, Advance(w.frames[id], w.store, verify))
  {
    var f := w.frames[id];
    if f.pc == Send {
      assert Advance(f, w.store, verify).(pc := Send, outcome := Pending) == f;
    }
  }

  lemma FrameStep(f: Frame, s: Store, k: nat, verify: Tx -> bool)
    requires FrameOk(f, verify) && f.pc != Done
    ensures
      var g := Advance(f, s, verify);
      && FrameOk(g, verify) && Remaining(g.pc) < Remaining(f.pc) && (f.pc == Send ==> g.pc == Done)
      && Complete(f, Still(s), k, verify) == if g.pc == Done then g else Complete(g, Still(s), k + 1, verify)
  {
    AdvanceTerminates(f, s, verify);
    AdvanceOk(f, s, verify);
    Unroll(f, Still(s), k, verify);
  }

  lemma {:induction false} ActsComplete(w: World, id: nat, f: Frame, k: nat, verify: Tx -> bool) returns (n: nat)
    requires id in w.frames && w.frames[id] == f && FrameOk(f, verify) && f.pc != Done
    ensures Exec(w, Acts(id, n), verify) == Some(Finished(w, id, Complete(f, Still(w.store), k, verify)))
    decreases Remaining(f.pc)
  {
    var g := Advance(f, w.store, verify);
    FrameStep(f, w.store, k, verify);
    if g.pc == Done {
      n := 1;
      ActLast(w, id, verify);
    } else {
      var w' := w.(frames := w.frames[id := g]);
      var m := ActsComplete(w', id, g, k + 1, verify);
      n := m + 1;
      ActMore(w, id, w', m, Complete(g, Still(w.store), k + 1, verify), verify);
    }
  }

  lemma ActLast(w: World, id: nat, verify: Tx -> bool)
    requires Enabled(w, Act(id)) && FrameOk(w.frames[id], verify) && w.frames[id].pc != Done
    requires Advance(w.frames[id], w.store, verify).pc == Done
    ensures Exec(w, Acts(id, 1), verify) == Some(Finished(w, id, Advance(w.frames[id], w.store, verify)))
  {
    ActEnded(w, id, verify);
    ActsFirst(w, id, 0, verify);
  }

  lemma ActMore(w: World, id: nat, w': World, m: nat, h: Frame, verify: Tx -> bool)
    requires Enabled(w, Act(id)) && w.frames[id].pc != Send
    requires w' == w.(frames := w.frames[id := Advance(w.frames[id], w.store, verify)])
    requires Exec(w', Acts(id, m), verify) == Some(Finished(w', id, h))
    ensures Exec(w, Acts(id, m + 1), verify) == Some(Finished(w, id, h))
  {
    ActUnended(w, id, h, verify);
    ActsFirst(w, id, m, verify);
  }

  /** Serving a request atomically is one of its interleavings: the request arrives and then
      takes all its steps in a row. */
  lemma ServeIsInterleaving(w: World, id: nat, root: Root, now: int, verify: Tx -> bool) returns (n: nat)
    requires Enabled(w, Serve(id, root, now))
    ensures Exec(w, [Arrive(id, root, now)] + Acts(id, n), verify) == Some(Apply(w, Serve(id, root, now), verify))
  {
    var w' := Apply(w, Arrive(id, root, now), verify);
    n := ActsComplete(w', id, Begin(root, now), 0, verify);
    assert ([Arrive(id, root, now)] + Acts(id, n))[1..] == Acts(id, n);
    assert w'.store == w.store;
    var g := Complete(Begin(root, now), Still(w.store), 0, verify);
    assert Finished(w', id, g).frames == w.frames[id := g];
  }

  // ---------------------------------------------------------------- every run

  predicate Plain(steps: seq<Step>) {
    forall i :: 0 <= i < |steps| ==> !steps[i].Serve?
  }

  lemma {:induction false} PlainKeeps(w: World, steps: seq<Step>, verify: Tx -> bool)
    requires Inv(w, verify) && Plain(steps) && Exec(w, steps, verify).Some?
    ensures Inv(Exec(w, steps, verify).value, verify)
    decreases |steps|
  {
    if steps != [] {
      StepKeeps(w, steps[0], verify);
      PlainKeeps(Apply(w, steps[0], verify), steps[1..], verify);
    }
  }

  lemma ServeKeeps(w: World, id: nat, root: Root, now: int, verify: Tx -> bool)
    requires Inv(w, verify) && Enabled(w, Serve(id, root, now))
    ensures Inv(Apply(w, Serve(id, root, now), verify), verify)
  {
    var n := ServeIsInterleaving(w, id, root, now, verify);
    ActsPlain(id, n);
    PlainKeeps(w, [Arrive(id, root, now)] + Acts(id, n), verify);
  }

  lemma ActsPlain(id: nat, n: nat)
    ensures Plain(Acts(id, n))
  {
  }

  lemma {:induction false} RunKeeps(w: World, steps: seq<Step>, verify: Tx -> bool)
    requires Inv(w, verify) && Exec(w, steps, verify).Some?
    ensures Inv(Exec(w, steps, verify).value, verify)
    decreases |steps|
  {
    if steps != [] {
      if steps[0].Serve? {
        ServeKeeps(w, steps[0].id, steps[0].root, steps[0].now, verify);
      } else {
        StepKeeps(w, steps[0], verify);
      }
      RunKeeps(Apply(w, steps[0], verify), steps[1..], verify);
    }
  }

  /** In every interleaving of requests, settlements and foreign proposals, no destination ever
      receives two settled gives, and each is 100000 of the native asset from the genesis account. */
  lemma GiveAtMostOnce(w: World, steps: seq<Step>, verify: Tx -> bool)
    requires Init(w) && Exec(w, steps, verify).Some?
    ensures OneGiveEach(Exec(w, steps, verify).value.log)
  {
    RunKeeps(w, steps, verify);
  }

  /** In every interleaving, a transfer_out for an account whose last digest the server reads, if it
      settles, finds at least its amount; so does a client-signed one whose sender had the same
      head when its balance was read as when its link was checked. */
  lemma SandwichedNeverOverdraws(w: World, steps: seq<Step>, verify: Tx -> bool)
    requires Init(w) && Exec(w, steps, verify).Some?
    ensures
      var log := Exec(w, steps, verify).value.log;
      forall i :: 0 <= i < |log| && IsOut(log[i].proposal) ==>
        var f := log[i].proposal.origin.value;
        ServerSigned(f.root) || f.balanceHead == Some(f.tx.prev) ==> Funded(log[i].proposal.tx, log[i].before)
  {
    RunKeeps(w, steps, verify);
    var log := Exec(w, steps, verify).value.log;
    forall i | 0 <= i < |log| && IsOut(log[i].proposal)
      ensures Sandwiched(log[i].proposal.origin.value) ==> Funded(log[i].proposal.tx, log[i].before)
    {
    }
  }

  // ---------------------------------------------------------------- heads over whole runs

  // Every settled transaction is linked below its sender's head, and later ones above earlier ones.
  predicate Ordered(s: Store, log: seq<Settlement>) {
    && (forall i :: 0 <= i < |log| ==>
          var tx := log[i].proposal.tx;
          && WellHashed(tx) && tx.body.sender in s.accounts
          && Depth(tx.prev) < Depth(s.accounts[tx.body.sender].head))
    && (forall i, j :: 0 <= i < j < |log| && log[i].proposal.tx.body.sender == log[j].proposal.tx.body.sender ==>
          Depth(log[i].proposal.tx.prev) < Depth(log[j].proposal.tx.prev))
  }

  lemma CommitOrdered(s: Store, log: seq<Settlement>, p: Proposal)
    requires Ordered(s, log) && CanSettle(s, p.tx)
    ensures Ordered(Settle(s, p.tx), log + [Settlement(p, s)])
  {
    forall i | 0 <= i < |log|
      ensures
        var tx := log[i].proposal.tx;
        && tx.body.sender in Settle(s, p.tx).accounts
        && Depth(tx.prev) < Depth(Settle(s, p.tx).accounts[tx.body.sender].head)
        && (tx.body.sender == p.tx.body.sender ==> Depth(tx.prev) < Depth(p.tx.prev))
    {
      SettleHeads(s, p.tx, log[i].proposal.tx.body.sender);
    }
  }

  lemma {:induction false} RunOrdered(w: World, steps: seq<Step>, verify: Tx -> bool)
    requires Ordered(w.store, w.log) && Exec(w, steps, verify).Some?
    ensures Ordered(Exec(w, steps, verify).value.store, Exec(w, steps, verify).value.log)
    decreases |steps|
  {
    if steps != [] {
      if steps[0].Commit? { CommitOrdered(w.store, w.log, steps[0].proposal); }
      RunOrdered(Apply(w, steps[0], verify), steps[1..], verify);
    }
  }

  /** In every run the heads of an account never repeat: of two settled transactions of one sender the
      later is linked to a strictly deeper digest than the earlier, and leaves a deeper one. */
  lemma HeadsNeverRepeat(w: World, steps: seq<Step>, verify: Tx -> bool)
    requires Init(w) && Exec(w, steps, verify).Some?
    ensures
      var log := Exec(w, steps, verify).value.log;
      forall i, j :: 0 <= i < j < |log| && log[i].proposal.tx.body.sender == log[j].proposal.tx.body.sender ==>
        var a, b := log[i].proposal.tx, log[j].proposal.tx;
        && a.prev != b.prev && a.digest != b.digest
        && Depth(a.prev) < Depth(b.prev) && Depth(a.digest) < Depth(b.digest)
  {
    RunOrdered(w, steps, verify);
  }
}
