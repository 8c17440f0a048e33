/**
 Which refusal a request gets: for every action and every error code, the exact condition on one store.
 */
module Refusals {
  import opened Options
  import opened Ledger
  import opened Admission

  // The server knows what to link the transaction to, and the transaction it would send passes the check of
  // hash and signature.
  predicate Signs(root: Root, now: int, s: Store, verify: Tx -> bool)
    requires IsTransaction(root.action)
  {
    if root.action == AccountCreate then verify(Draft(root, now, Zero))
    else if root.action == Give then
      Genesis in s.accounts && verify(Draft(root, now, s.accounts[Genesis].head))
    else
      var sender := if root.action == TransferOut then root.source else root.account;
      if NoHash(sender) then sender in s.accounts && verify(Draft(root, now, s.accounts[sender].head))
      else verify(Draft(root, now, root.lastDigest))
  }

  predicate HasTakenIn(blocks: seq<Tx>) {
    exists tx :: tx in blocks && tx.body.kind == TransferAssetIn
  }

  predicate GiveRefuses(err: ErrCode, root: Root, now: int, s: Store, verify: Tx -> bool)
    requires root.action == Give
  {
    match err
    case AccountNotFound =>
      Genesis !in s.accounts || (Signs(root, now, s, verify) && root.destination !in s.accounts)
    case HashSignatureCheckFail => Genesis in s.accounts && !Signs(root, now, s, verify)
    case AlreadyGive =>
      && Signs(root, now, s, verify) && root.destination in s.accounts
      && (s.ReceiveBlocks(root.destination) != [] || HasTakenIn(s.SettleBlocks(root.destination)))
    case _ => false
  }

  predicate TransferOutRefuses(err: ErrCode, root: Root, now: int, s: Store, verify: Tx -> bool)
    requires root.action == TransferOut
  {
    var apart, signs, there := root.source != root.destination, Signs(root, now, s, verify), root.source in s.accounts;
    match err
    case SenderReceiverTheSame => !apart
    case AccountNotFound => apart && !there && (NoHash(root.source) || signs)
    case HashSignatureCheckFail => apart && (NoHash(root.source) ==> there) && !signs
    case NoPropertyKey => apart && signs && there && root.key !in s.accounts[root.source].balances
    case BalanceNotEnough =>
      && apart && signs && there && root.key in s.accounts[root.source].balances
      && Stoll(root.amount).Some? && s.accounts[root.source].balances[root.key] < Stoll(root.amount).value
    case LastHashError =>
      && apart && signs && there && root.key in s.accounts[root.source].balances
      && Stoll(root.amount).Some? && s.accounts[root.source].balances[root.key] >= Stoll(root.amount).value
      && !NoHash(root.source) && s.accounts[root.source].head != root.lastDigest
    case _ => false
  }

  // The amount is no number, so the comparison with the balance throws.
  predicate TransferOutThrows(root: Root, now: int, s: Store, verify: Tx -> bool)
    requires root.action == TransferOut
  {
    && root.source != root.destination && Signs(root, now, s, verify) && root.source in s.accounts
    && root.key in s.accounts[root.source].balances && Stoll(root.amount).None?
  }

  predicate TransferInRefuses(err: ErrCode, root: Root, now: int, s: Store, verify: Tx -> bool)
    requires root.action == TransferIn
  {
    var signs, there := Signs(root, now, s, verify), root.account in s.accounts;
    match err
    case AccountNotFound => NoHash(root.account) && !there
    case HashSignatureCheckFail => (NoHash(root.account) ==> there) && !signs
    case LastHashError => signs && there && !NoHash(root.account) && s.accounts[root.account].head != root.lastDigest
    case _ => false
  }

  predicate SetPropertyRefuses(err: ErrCode, root: Root, now: int, s: Store, verify: Tx -> bool)
    requires root.action == SetProperty
  {
    var signs, there := Signs(root, now, s, verify), root.account in s.accounts;
    match err
    case PropertyKeyNotValid => !KeyAllowed(root.key)
    case AccountNotFound => KeyAllowed(root.key) && NoHash(root.account) && !there
    case HashSignatureCheckFail => KeyAllowed(root.key) && (NoHash(root.account) ==> there) && !signs
    case _ => false
  }

  predicate CreateRefuses(err: ErrCode, root: Root, now: int, s: Store, verify: Tx -> bool)
    requires root.action == AccountCreate
  {
    match err
    case AccountExist => root.account in s.accounts
    case HashSignatureCheckFail => root.account !in s.accounts && !Signs(root, now, s, verify)
    case _ => false
  }

  predicate Refuses(err: ErrCode, root: Root, now: int, s: Store, verify: Tx -> bool)
    requires IsTransaction(root.action)
  {
    match root.action
    case Give => GiveRefuses(err, root, now, s, verify)
    case TransferOut => TransferOutRefuses(err, root, now, s, verify)
    case TransferIn => TransferInRefuses(err, root, now, s, verify)
    case SetProperty => SetPropertyRefuses(err, root, now, s, verify)
    case AccountCreate => CreateRefuses(err, root, now, s, verify)
  }

  // ---------------------------------------------------------------- property keys

  // The first position of a character of `set`, as `find_first_of` gives it.
  function FindFirstOf(s: string, chars: string): (r: Option<nat>)
    ensures r.Some? ==> r.value < |s| && s[r.value] in chars && forall i :: 0 <= i < r.value ==> s[i] !in chars
    ensures r.None? ==> forall i :: 0 <= i < |s| ==> s[i] !in chars
  {
    if s == "" then None
    else if s[0] in chars then Some(0)
    else
      match FindFirstOf(s[1..], chars)
      case None => None
      case Some(i) => Some(i + 1)
  }

  /** A property key starts with an at sign and holds neither a number sign nor a dollar. */
  predicate KeyAllowed(key: string) {
    FindFirstOf(key, "@") == Some(0) && FindFirstOf(key, "#$") == None
  }

  lemma KeyAllowedIff(key: string)
    ensures KeyAllowed(key) <==> ValidPropertyKey(key)
  {
    var r := FindFirstOf(key, "#$");
    if r.Some? { assert key[r.value] == '#' || key[r.value] == '$'; }
    if '#' in key || '$' in key {
      var i :| 0 <= i < |key| && (key[i] == '#' || key[i] == '$');
      assert key[i] in "#$";
    }
    if key != "" && key[0] == '@' { assert key[0] in "@"; }
  }

  // ---------------------------------------------------------------- the outcome on one store

  function OutcomeOn(root: Root, now: int, s: Store, verify: Tx -> bool): Outcome
    requires IsTransaction(root.action)
  {
    Complete(Begin(root, now), Still(s), 0, verify).outcome
  }

  lemma LinkCheck(f: Frame, s: Store, k: nat, verify: Tx -> bool)
    requires IsTransaction(f.root.action) && f.pc == CheckLastHash
    ensures
      var a := f.tx.body.sender;
      Complete(f, Still(s), k, verify).outcome
      == if a in s.accounts && s.accounts[a].head != f.tx.prev then Fail(LastHashError) else Ok
  {
    Unroll(f, Still(s), k, verify);
    var g := Advance(f, s, verify);
    if g.pc == Send { Unroll(g, Still(s), k + 1, verify); }
  }

  lemma FundsCheck(f: Frame, s: Store, k: nat, verify: Tx -> bool)
    requires IsTransaction(f.root.action) && f.pc == CheckBalance
    ensures
      var a, key, amount := f.tx.body.sender, f.tx.body.key, Amount(f.tx.body.params);
      Complete(f, Still(s), k, verify).outcome
      == if a !in s.accounts then Fail(AccountNotFound)
         else if key !in s.accounts[a].balances then Fail(NoPropertyKey)
         else if amount.None? then Threw
         else if s.accounts[a].balances[key] < amount.value then Fail(BalanceNotEnough)
         else if s.accounts[a].head != f.tx.prev then Fail(LastHashError)
         else Ok
  {
    Unroll(f, Still(s), k, verify);
    var g := Advance(f, s, verify);
    if g.pc == CheckLastHash { LinkCheck(g, s, k + 1, verify); }
  }

  lemma HasTakenInIff(blocks: seq<Tx>)
    ensures HasTakenIn(blocks) <==> HasTransferIn(blocks)
  {
    if HasTakenIn(blocks) {
      var tx :| tx in blocks && tx.body.kind == TransferAssetIn;
      var i :| 0 <= i < |blocks| && blocks[i] == tx;
    }
  }

  lemma ReceiptCheck(f: Frame, s: Store, k: nat, verify: Tx -> bool)
    requires IsTransaction(f.root.action) && f.pc == CheckExists
    ensures
      var d := f.root.destination;
      Complete(f, Still(s), k, verify).outcome
      == if d !in s.accounts then Fail(AccountNotFound)
         else if s.ReceiveBlocks(d) != [] || HasTakenIn(s.SettleBlocks(d)) then Fail(AlreadyGive)
         else Ok
  {
    HasTakenInIff(s.SettleBlocks(f.root.destination));
    var g := Advance(f, s, verify);
    var h := Advance(g, s, verify);
    var i := Advance(h, s, verify);
    Unroll(f, Still(s), k, verify);
    if g.pc == CheckReceive {
      Unroll(g, Still(s), k + 1, verify);
      if h.pc == CheckSettled {
        Unroll(h, Still(s), k + 2, verify);
        if i.pc == Send { Unroll(i, Still(s), k + 3, verify); }
      }
    }
  }

  lemma FirstStep(root: Root, now: int, s: Store, verify: Tx -> bool)
    requires IsTransaction(root.action)
    ensures
      var g := Advance(Begin(root, now), s, verify);
      && (g.pc == Done ==> OutcomeOn(root, now, s, verify) == g.outcome)
      && (g.pc != Done ==> OutcomeOn(root, now, s, verify) == Complete(g, Still(s), 1, verify).outcome)
  {
    Unroll(Begin(root, now), Still(s), 0, verify);
  }

  lemma GiveRefused(err: ErrCode, root: Root, now: int, s: Store, verify: Tx -> bool)
    requires root.action == Give
    ensures OutcomeOn(root, now, s, verify) == Fail(err) <==> GiveRefuses(err, root, now, s, verify)
    ensures OutcomeOn(root, now, s, verify) != Threw
  {
    FirstStep(root, now, s, verify);
    var g := Advance(Begin(root, now), s, verify);
    if g.pc != Done { ReceiptCheck(g, s, 1, verify); }
  }

  lemma TransferOutRefused(err: ErrCode, root: Root, now: int, s: Store, verify: Tx -> bool)
    requires root.action == TransferOut
    ensures OutcomeOn(root, now, s, verify) == Fail(err) <==> TransferOutRefuses(err, root, now, s, verify)
    ensures OutcomeOn(root, now, s, verify) == Threw <==> TransferOutThrows(root, now, s, verify)
  {
    FirstStep(root, now, s, verify);
    var g := Advance(Begin(root, now), s, verify);
    if g.pc != Done { FundsCheck(g, s, 1, verify); }
  }

  lemma TransferInRefused(err: ErrCode, root: Root, now: int, s: Store, verify: Tx -> bool)
    requires root.action == TransferIn
    ensures OutcomeOn(root, now, s, verify) == Fail(err) <==> TransferInRefuses(err, root, now, s, verify)
    ensures OutcomeOn(root, now, s, verify) != Threw
  {
    FirstStep(root, now, s, verify);
    var g := Advance(Begin(root, now), s, verify);
    if g.pc != Done { LinkCheck(g, s, 1, verify); }
  }

  lemma SendsOff(f: Frame, s: Store, k: nat, verify: Tx -> bool)
    requires IsTransaction(f.root.action) && f.pc == Send
    ensures Complete(f, Still(s), k, verify).outcome == Ok
  {
    Unroll(f, Still(s), k, verify);
  }

  lemma SetPropertyRefused(err: ErrCode, root: Root, now: int, s: Store, verify: Tx -> bool)
    requires root.action == SetProperty
    ensures OutcomeOn(root, now, s, verify) == Fail(err) <==> SetPropertyRefuses(err, root, now, s, verify)
    ensures OutcomeOn(root, now, s, verify) != Threw
  {
    FirstStep(root, now, s, verify);
    KeyAllowedIff(root.key);
    var g := Advance(Begin(root, now), s, verify);
    if g.pc != Done { SendsOff(g, s, 1, verify); }
  }

  lemma CreateRefused(err: ErrCode, root: Root, now: int, s: Store, verify: Tx -> bool)
    requires root.action == AccountCreate
    ensures OutcomeOn(root, now, s, verify) == Fail(err) <==> CreateRefuses(err, root, now, s, verify)
    ensures OutcomeOn(root, now, s, verify) != Threw
  {
    FirstStep(root, now, s, verify);
    var g := Advance(Begin(root, now), s, verify);
    if g.pc != Done { SendsOff(g, s, 1, verify); }
  }

  /** On one store a request is refused with a code exactly under the condition for that action and code; it
      throws exactly when it is a transfer_out that reaches the comparison with an amount that is no number. */
  lemma RefusedIff(err: ErrCode, root: Root, now: int, s: Store, verify: Tx -> bool)
    requires IsTransaction(root.action)
    ensures OutcomeOn(root, now, s, verify) == Fail(err) <==> Refuses(err, root, now, s, verify)
    ensures OutcomeOn(root, now, s, verify) == Threw <==>
              root.action == TransferOut && TransferOutThrows(root, now, s, verify)
  {
    match root.action
    case Give => GiveRefused(err, root, now, s, verify);
    case TransferOut => TransferOutRefused(err, root, now, s, verify);
    case TransferIn => TransferInRefused(err, root, now, s, verify);
    case SetProperty => SetPropertyRefused(err, root, now, s, verify);
    case AccountCreate => CreateRefused(err, root, now, s, verify);
  }
}
