/**
 Runs in which every request is served without interruption.
 */
module AtomicRuns {
  import opened Options
  import opened Ledger
  import opened Admission
  import opened Runs

  predicate Atomic(steps: seq<Step>) {
    forall i :: 0 <= i < |steps| ==> !steps[i].Arrive? && !steps[i].Act?
  }

  predicate ReadTogether(p: Proposal) {
    IsOut(p) ==> p.origin.value.balanceHead == Some(p.origin.value.tx.prev)
  }

  predicate AllTogether(w: World) {
    && (forall p :: p in w.pool ==> ReadTogether(p))
    && (forall i :: 0 <= i < |w.log| ==> ReadTogether(w.log[i].proposal))
  }

  // While the store stands still, the balance and the head are read from the same state.
  predicate SteadyReads(f: Frame, s: Store) {
    f.root.action == TransferOut ==>
      && (f.pc == CheckLastHash ==> f.balanceHead.Some? && f.balanceHead == s.LastHash(f.tx.body.sender))
      && (f.pc == Send || f.outcome == Ok ==> f.balanceHead == Some(f.tx.prev))
  }

  lemma {:induction false} CompleteSteady(f: Frame, s: Store, k: nat, verify: Tx -> bool)
    requires FrameOk(f, verify) && SteadyReads(f, s)
    ensures SteadyReads(Complete(f, Still(s), k, verify), s)
    ensures Complete(f, Still(s), k, verify).root == f.root
    decreases Remaining(f.pc)
  {
    if f.pc != Done {
      AdvanceOk(f, s, verify);
      AdvanceSteady(f, s, verify);
      AdvanceTerminates(f, s, verify);
      CompleteSteady(Advance(f, s, verify), s, k + 1, verify);
    }
  }

  lemma AdvanceSteady(f: Frame, s: Store, verify: Tx -> bool)
    requires FrameOk(f, verify) && SteadyReads(f, s)
    ensures SteadyReads(Advance(f, s, verify), s) && Advance(f, s, verify).root == f.root
  {
  }

  lemma AtomicStepTogether(w: World, step: Step, verify: Tx -> bool)
    requires AllTogether(w) && Enabled(w, step) && !step.Arrive? && !step.Act?
    ensures AllTogether(Apply(w, step, verify))
  {
    if step.Serve? {
      CompleteSteady(Begin(step.root, step.now), w.store, 0, verify);
    }
  }

  lemma {:induction false} AtomicTogether(w: World, steps: seq<Step>, verify: Tx -> bool)
    requires AllTogether(w) && Atomic(steps) && Exec(w, steps, verify).Some?
    ensures AllTogether(Exec(w, steps, verify).value)
    decreases |steps|
  {
    if steps != [] {
      AtomicStepTogether(w, steps[0], verify);
      AtomicTogether(Apply(w, steps[0], verify), steps[1..], verify);
    }
  }

  /** With every request served atomically, no settled transfer_out overdraws its sender, whether
      the client or the server supplied the last digest and however many proposals compete. */
  lemma AtomicNeverOverdraws(w: World, steps: seq<Step>, verify: Tx -> bool)
    requires Init(w) && Atomic(steps) && Exec(w, steps, verify).Some?
    ensures
      var log := Exec(w, steps, verify).value.log;
      forall i :: 0 <= i < |log| && IsOut(log[i].proposal) ==> Funded(log[i].proposal.tx, log[i].before)
  {
    AtomicTogether(w, steps, verify);
    SandwichedNeverOverdraws(w, steps, verify);
    var log := Exec(w, steps, verify).value.log;
    forall i | 0 <= i < |log| && IsOut(log[i].proposal)
      ensures Funded(log[i].proposal.tx, log[i].before)
    {
      assert ReadTogether(log[i].proposal);
    }
  }

  // ---------------------------------------------------------------- balances stay non-negative

  predicate AtLeastZero(p: Params) {
    Amount(p).Some? ==> Amount(p).value >= 0
  }

  predicate Solvent(s: Store) {
    && (forall a, key :: a in s.accounts && a != Genesis && key in s.accounts[a].balances ==>
                           s.accounts[a].balances[key] >= 0)
    && (forall a, i :: a in s.receive && 0 <= i < |s.receive[a]| ==> AtLeastZero(s.receive[a][i].body.params))
  }

  // The request asks for no negative amount.
  predicate Modest(root: Root) {
    root.action in {AccountCreate, TransferOut} ==> AtLeastZero(Text(root.amount))
  }

  predicate ModestSteps(steps: seq<Step>) {
    forall i :: 0 <= i < |steps| ==> !steps[i].Foreign? && (steps[i].Serve? ==> Modest(steps[i].root))
  }

  predicate ModestPool(w: World) {
    forall p :: p in w.pool ==> p.origin.Some? && Modest(p.origin.value.root)
  }

  lemma BodyModest(root: Root)
    requires IsTransaction(root.action) && Modest(root)
    ensures RequestBody(root).kind in {CreateAccount, TransferAssetOut} ==> AtLeastZero(RequestBody(root).params)
  {
    assert Stoll("0") == Some(0);
    GiveAmount();
  }

  lemma SettleSolvent(s: Store, tx: Tx)
    requires Solvent(s) && CanSettle(s, tx)
    requires tx.body.kind in {CreateAccount, TransferAssetOut} ==> AtLeastZero(tx.body.params)
    requires tx.body.kind == TransferAssetOut && tx.body.sender != Genesis ==> Funded(tx, s)
    ensures Solvent(Settle(s, tx))
  {
    var s' := Settle(s, tx);
    forall a, key | a in s'.accounts && a != Genesis && key in s'.accounts[a].balances
      ensures s'.accounts[a].balances[key] >= 0
    {
      if a == tx.body.sender && tx.body.kind == TransferAssetIn {
        EntryAtLeastZero(s, a, Find(s.ReceiveBlocks(a), tx.body.params.digest));
      }
    }
    forall a, i | a in s'.receive && 0 <= i < |s'.receive[a]| ensures AtLeastZero(s'.receive[a][i].body.params) {
      ReceiveSolvent(s, tx, a, i);
    }
  }

  lemma EntryAtLeastZero(s: Store, a: Address, k: nat)
    requires Solvent(s) && k < |s.ReceiveBlocks(a)|
    ensures AtLeastZero(s.ReceiveBlocks(a)[k].body.params)
  {
  }

  lemma ReceiveSolvent(s: Store, tx: Tx, a: Address, i: nat)
    requires Solvent(s) && CanSettle(s, tx)
    requires tx.body.kind == TransferAssetOut ==> AtLeastZero(tx.body.params)
    requires a in NewReceive(s, tx) && i < |NewReceive(s, tx)[a]|
    ensures AtLeastZero(NewReceive(s, tx)[a][i].body.params)
  {
    var blocks := s.ReceiveBlocks(a);
    if tx.body.kind == TransferAssetOut && a == tx.body.receiver {
      if i > 0 { EntryAtLeastZero(s, a, i - 1); }
    } else if tx.body.kind == TransferAssetIn && a == tx.body.sender {
      var k := Find(blocks, tx.body.params.digest);
      EntryAtLeastZero(s, a, if i < k then i else i + 1);
    }
  }

  lemma SolventStep(w: World, step: Step, verify: Tx -> bool)
    requires Inv(w, verify) && AllTogether(w) && ModestPool(w) && Solvent(w.store)
    requires Enabled(w, step) && Atomic([step]) && ModestSteps([step])
    ensures ModestPool(Apply(w, step, verify)) && Solvent(Apply(w, step, verify).store)
  {
    assert [step][0] == step;
    match step
    case Serve(id, root, now) =>
      CompleteSteady(Begin(root, now), w.store, 0, verify);
    case Commit(p) =>
      var f := p.origin.value;
      assert ReadTogether(p);
      BodyModest(f.root);
      SettleSolvent(w.store, p.tx);
  }

  lemma {:induction false} SolventRun(w: World, steps: seq<Step>, verify: Tx -> bool)
    requires Inv(w, verify) && AllTogether(w) && ModestPool(w) && Solvent(w.store)
    requires Atomic(steps) && ModestSteps(steps) && Exec(w, steps, verify).Some?
    ensures Solvent(Exec(w, steps, verify).value.store)
    decreases |steps|
  {
    if steps != [] {
      SolventStep(w, steps[0], verify);
      AtomicStepTogether(w, steps[0], verify);
      RunKeeps(w, [steps[0]], verify);
      SolventRun(Apply(w, steps[0], verify), steps[1..], verify);
    }
  }

  /** When requests are served atomically, ask for no negative amount and are the only source of
      proposals, every account but the genesis account keeps non-negative balances. */
  lemma BalancesStayNonNegative(w: World, steps: seq<Step>, verify: Tx -> bool)
    requires Init(w) && Solvent(w.store)
    requires Atomic(steps) && ModestSteps(steps) && Exec(w, steps, verify).Some?
    ensures
      var s := Exec(w, steps, verify).value.store;
      forall a, key :: a in s.accounts && a != Genesis && key in s.accounts[a].balances ==>
                         s.accounts[a].balances[key] >= 0
  {
    SolventRun(w, steps, verify);
  }
}
