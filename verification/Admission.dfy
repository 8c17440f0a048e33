/**
 How one transaction request is admitted, as the sequence of store reads the handler makes.

 Each store read and the final broadcast is a step of its own, so that other requests and
 settlements can fall between any two of them; the local work between two reads belongs
 to the earlier one. `Advance` is one such step.
 */
module Admission {
  import opened Bytes
  import opened Options
  import opened Ledger

  datatype Action =
    | AccountBalance | AccountCreate | AccountInfo | TransferOut | TransferIn | AccountHistory
    | AccountPending | LastDigestQuery | TpsQuery | SetProperty | QueryProperty | QueryAllProperty
    | Give | QueryOnlineTx | AccountDelete | AccountSnapDelete | AccountSync | TriggerElect | Unknown

  datatype ErrCode =
    | ActionInvalid | AccountNotFound | HashSignatureCheckFail | BalanceNotEnough | UnknownErr
    | NoPropertyKey | PropertyKeyNotValid | AccountExist | AlreadyGive | LastHashError | SenderReceiverTheSame

  // A decoded request: the members of the JSON object, with digests and the signature decoded from Base64.
  datatype Root = Root(action: Action, account: Address, source: Address, destination: Address,
                       key: string, value: string, amount: string, timestamp: int,
                       lastDigest: Digest, txDigest: Digest, sender: Address, signature: seq<Byte>,
                       count: int, perPage: int)

  predicate IsTransaction(action: Action) {
    action in {AccountCreate, TransferOut, TransferIn, SetProperty, Give}
  }

  // Accounts whose private keys the server holds, so that it reads the last digest and signs for them.
  predicate NoHash(a: Address) {
    a == Genesis || a == UserA || a == UserB
  }

  function Sender(root: Root): Address {
    match root.action
    case Give => Genesis
    case TransferOut => root.source
    case _ => root.account
  }

  predicate ServerSigned(root: Root) {
    root.action == Give || NoHash(Sender(root))
  }

  // The JSON integer is stored in an unsigned 64-bit field.
  function ToUint64(n: int): nat {
    n % 0x1_0000_0000_0000_0000
  }

  predicate ValidPropertyKey(key: string) {
    key != "" && key[0] == '@' && '#' !in key && '$' !in key
  }

  // ---------------------------------------------------------------- the builders

  function Built(tx: Tx, body: Body, last: Digest): Tx {
    tx.(body := body, prev := last, nonce := 0, workProof := 0, digest := Hash(body, last))
  }

  function CreateBody(account: Address, amount: string, timestamp: nat): Body {
    Body(CreateAccount, account, account, NATIVE_ASSET, Text(if amount != "" then amount else "0"), timestamp)
  }

  function OutBody(src: Address, dst: Address, key: string, amount: string, timestamp: nat): Body {
    Body(TransferAssetOut, src, dst, key, Text(amount), timestamp)
  }

  function InBody(account: Address, timestamp: nat, txDigest: Digest): Body {
    Body(TransferAssetIn, account, account, "", Ref(txDigest), timestamp)
  }

  function PropertyBody(root: Root): Body {
    Body(DataProperty, root.account, root.account, root.key, Text(root.value), ToUint64(root.timestamp))
  }

  const GIVE_AMOUNT := "100000"

  lemma GiveAmount()
    ensures Stoll(GIVE_AMOUNT) == Some(100000)
  {
    ReadDigit("100000", 0);
    ReadDigit("00000", 1);
    ReadDigit("0000", 10);
    ReadDigit("000", 100);
    ReadDigit("00", 1000);
    ReadDigit("0", 10000);
  }

  function RequestBody(root: Root): Body
    requires IsTransaction(root.action)
  {
    var at := ToUint64(root.timestamp);
    match root.action
    case AccountCreate => CreateBody(root.account, root.amount, at)
    case TransferOut => OutBody(root.source, root.destination, root.key, root.amount, at)
    case TransferIn => InBody(root.account, at, root.txDigest)
    case SetProperty => PropertyBody(root)
    case Give => OutBody(Genesis, root.destination, NATIVE_ASSET, GIVE_AMOUNT, at)
  }

  function Signed(tx: Tx, nohash: bool, signature: seq<Byte>, now: int): Tx {
    var tx' :=
      if !nohash then tx.(signature := Supplied(signature))
      else if NoHash(tx.body.sender) then
        tx.(digest := Hash(tx.body, tx.prev), signature := SignedBy(tx.body.sender, Hash(tx.body, tx.prev)))
      else tx;
    tx'.(edgeTime := now)
  }

  /** The transaction a request stands for, once the sender's last digest is known. */
  function Draft(root: Root, now: int, last: Digest): (tx: Tx)
    requires IsTransaction(root.action)
    ensures tx.body == RequestBody(root) && tx.prev == last && WellHashed(tx)
    ensures ServerSigned(root) ==> NoHash(tx.body.sender) && tx.signature == SignedBy(tx.body.sender, tx.digest)
    ensures !ServerSigned(root) ==> tx.signature == Supplied(root.signature)
  {
    var tx := Signed(Built(BLANK_TX, RequestBody(root), last), ServerSigned(root), root.signature, now);
    if root.action == TransferIn then tx.(originSender := root.sender, originAmount := root.amount) else tx
  }

  // ---------------------------------------------------------------- one request in progress

  // Named after the step to be taken next.
  datatype Pc = Start | CheckExists | CheckReceive | CheckSettled | CheckBalance | CheckLastHash | Send | Done

  datatype Outcome = Pending | Ok | Fail(err: ErrCode) | Threw

  // `balanceHead` is a history variable: the sender's head when the balance was read. No step tests it.
  datatype Frame = Frame(root: Root, now: int, pc: Pc, tx: Tx, balanceHead: Option<Digest>, outcome: Outcome)
  {
    function At(next: Pc): Frame {
      this.(pc := next)
    }

    function End(result: Outcome): Frame {
      this.(pc := Done, outcome := result)
    }
  }

  function Begin(root: Root, now: int): Frame {
    Frame(root, now, Start, BLANK_TX, None, Pending)
  }

  // The digest the new transaction links to: read from the store or taken from the request.
  function LastDigest(root: Root, s: Store): Option<Digest> {
    if root.action == AccountCreate then Some(Zero)
    else if ServerSigned(root) then s.LastHash(Sender(root))
    else Some(root.lastDigest)
  }

  function AfterVerify(action: Action): Pc {
    match action
    case Give => CheckExists
    case TransferOut => CheckBalance
    case TransferIn => CheckLastHash
    case _ => Send
  }

  function AdvanceStart(f: Frame, s: Store, verify: Tx -> bool): Frame
    requires IsTransaction(f.root.action)
  {
    var root := f.root;
    if root.action == TransferOut && root.source == root.destination then f.End(Fail(SenderReceiverTheSame))
    else if root.action == SetProperty && !ValidPropertyKey(root.key) then f.End(Fail(PropertyKeyNotValid))
    else if root.action == AccountCreate && root.account in s.accounts then f.End(Fail(AccountExist))
    else
      var last := LastDigest(root, s);
      if last.None? then f.End(Fail(AccountNotFound))
      else
        var tx := Draft(root, f.now, last.value);
        if !verify(tx) then f.(tx := tx).End(Fail(HashSignatureCheckFail))
        else f.(tx := tx).At(AfterVerify(root.action))
  }

  function AdvanceBalance(f: Frame, s: Store): Frame {
    var src := f.tx.body.sender;
    if src !in s.accounts then f.End(Fail(AccountNotFound))
    else if f.tx.body.key !in s.accounts[src].balances then f.End(Fail(NoPropertyKey))
    else
      var amount := Amount(f.tx.body.params);
      if amount.None? then f.End(Threw)
      else if s.Balance(src, f.tx.body.key) < amount.value then f.End(Fail(BalanceNotEnough))
      else f.(balanceHead := s.LastHash(src)).At(CheckLastHash)
  }

  function Advance(f: Frame, s: Store, verify: Tx -> bool): Frame
    requires IsTransaction(f.root.action)
  {
    match f.pc
    case Start => AdvanceStart(f, s, verify)
    case CheckExists =>
      if f.root.destination in s.accounts then f.At(CheckReceive) else f.End(Fail(AccountNotFound))
    case CheckReceive =>
      if s.ReceiveBlocks(f.root.destination) == [] then f.At(CheckSettled) else f.End(Fail(AlreadyGive))
    case CheckSettled =>
      if HasTransferIn(s.SettleBlocks(f.root.destination)) then f.End(Fail(AlreadyGive)) else f.At(Send)
    case CheckBalance => AdvanceBalance(f, s)
    case CheckLastHash =>
      var head := s.LastHash(f.tx.body.sender);
      if head.Some? && head.value != f.tx.prev then f.End(Fail(LastHashError)) else f.At(Send)
    case Send => f.End(Ok)
    case Done => f
  }

  function Remaining(pc: Pc): nat {
    match pc
    case Start => 6
    case CheckExists => 5
    case CheckBalance => 5
    case CheckReceive => 4
    case CheckSettled => 3
    case CheckLastHash => 2
    case Send => 1
    case Done => 0
  }

  lemma AdvanceTerminates(f: Frame, s: Store, verify: Tx -> bool)
    requires IsTransaction(f.root.action) && f.pc != Done
    ensures Remaining(Advance(f, s, verify).pc) < Remaining(f.pc)
  {
  }

  // The view of a store in which nothing settles.
  function Still(s: Store): nat -> Store {
    _ => s
  }

  /** A request carried to its end, its k-th step seeing the store `view(k)`. */
  function Complete(f: Frame, view: nat -> Store, k: nat, verify: Tx -> bool): Frame
    requires IsTransaction(f.root.action)
    decreases Remaining(f.pc)
  {
    if f.pc == Done then f
    else
      AdvanceTerminates(f, view(k), verify);
      Complete(Advance(f, view(k), verify), view, k + 1, verify)
  }

  lemma Unroll(f: Frame, view: nat -> Store, k: nat, verify: Tx -> bool)
    requires IsTransaction(f.root.action) && f.pc != Done
    ensures Complete(f, view, k, verify) == Complete(Advance(f, view(k), verify), view, k + 1, verify)
    ensures Advance(f, view(k), verify).pc == Done ==> Complete(f, view, k, verify) == Advance(f, view(k), verify)
  {
  }

  // ---------------------------------------------------------------- what admission guarantees

  /** What is known of a request's transaction while the request is between its reads. */
  predicate FrameOk(f: Frame, verify: Tx -> bool) {
    && IsTransaction(f.root.action)
    && (f.pc == Done <==> f.outcome != Pending)
    && (f.pc !in {Start, Done} || f.outcome == Ok ==>
          && f.tx == Draft(f.root, f.now, f.tx.prev)
          && verify(f.tx)
          && (!ServerSigned(f.root) && f.root.action != AccountCreate ==> f.tx.prev == f.root.lastDigest)
          && (f.root.action == TransferOut ==> f.root.source != f.root.destination)
          && (f.root.action == SetProperty ==> ValidPropertyKey(f.root.key)))
    && (f.pc in {CheckExists, CheckReceive, CheckSettled} ==> f.root.action == Give)
    && (f.pc == CheckBalance ==> f.root.action == TransferOut)
    && (f.pc == CheckLastHash ==> f.root.action in {TransferOut, TransferIn})
  }

  lemma AdvanceOk(f: Frame, s: Store, verify: Tx -> bool)
    requires FrameOk(f, verify)
    ensures FrameOk(Advance(f, s, verify), verify)
  {
    if f.pc == Start { AdvanceStartOk(f, s, verify); }
  }

  lemma AdvanceStartOk(f: Frame, s: Store, verify: Tx -> bool)
    requires FrameOk(f, verify) && f.pc == Start
    ensures FrameOk(AdvanceStart(f, s, verify), verify)
  {
    var last := LastDigest(f.root, s);
    if last.Some? {
      var tx := Draft(f.root, f.now, last.value);
      assert tx == Draft(f.root, f.now, tx.prev);
    }
  }

  lemma EndOk(g: Frame, verify: Tx -> bool)
    requires FrameOk(g, verify)
    ensures g.outcome == Ok ==>
              && verify(g.tx) && WellHashed(g.tx) && g.tx.body == RequestBody(g.root)
              && (ServerSigned(g.root) ==> g.tx.signature == SignedBy(Sender(g.root), g.tx.digest))
  {
  }

  lemma {:induction false} CompleteEnds(f: Frame, view: nat -> Store, k: nat, verify: Tx -> bool)
    requires FrameOk(f, verify)
    ensures
      var g := Complete(f, view, k, verify);
      g.pc == Done && g.root == f.root && FrameOk(g, verify)
    decreases Remaining(f.pc)
  {
    if f.pc != Done {
      AdvanceOk(f, view(k), verify);
      AdvanceTerminates(f, view(k), verify);
      CompleteEnds(Advance(f, view(k), verify), view, k + 1, verify);
    }
  }

  /** The gate, whatever the store does meanwhile: a request that ends well has one verified
      transaction, correctly hashed and linked, and signed by the key of a built-in account
      whenever the server signs for the sender. */
  lemma CompleteOk(f: Frame, view: nat -> Store, k: nat, verify: Tx -> bool)
    requires FrameOk(f, verify)
    ensures
      var g := Complete(f, view, k, verify);
      && g.pc == Done && g.root == f.root && FrameOk(g, verify)
      && (g.outcome == Ok ==>
            && verify(g.tx) && WellHashed(g.tx) && g.tx.body == RequestBody(f.root)
            && (ServerSigned(f.root) ==> g.tx.signature == SignedBy(Sender(f.root), g.tx.digest)))
  {
    CompleteEnds(f, view, k, verify);
    EndOk(Complete(f, view, k, verify), verify);
  }

  /** When a request is admitted, in terms of one unchanging store. */
  predicate Admissible(root: Root, now: int, s: Store, verify: Tx -> bool)
    requires IsTransaction(root.action)
  {
    var head := s.LastHash(Sender(root));
    var last := if ServerSigned(root) && head.Some? then head.value else root.lastDigest;
    && verify(Draft(root, now, if root.action == AccountCreate then Zero else last))
    && match root.action
       case AccountCreate =>
         head.None?
       case TransferOut =>
         && root.source != root.destination
         && head == Some(last)
         && root.key in s.accounts[root.source].balances
         && Stoll(root.amount).Some?
         && Stoll(root.amount).value <= s.Balance(root.source, root.key)
       case TransferIn =>
         if ServerSigned(root) then head.Some? else head in {None, Some(last)}
       case SetProperty =>
         ValidPropertyKey(root.key) && (ServerSigned(root) ==> head.Some?)
       case Give =>
         head.Some? && root.destination in s.accounts && !Received(s, root.destination)
  }

  // The outcome from the last-digest check onwards, and from the other checks onwards.
  predicate Succeeds(f: Frame, s: Store, k: nat, verify: Tx -> bool)
    requires IsTransaction(f.root.action)
  {
    Complete(f, Still(s), k, verify).outcome == Ok
  }

  lemma SucceedsStep(f: Frame, s: Store, k: nat, verify: Tx -> bool)
    requires IsTransaction(f.root.action)
    ensures f.pc == Done ==> (Succeeds(f, s, k, verify) <==> f.outcome == Ok)
    ensures f.pc != Done ==> (Succeeds(f, s, k, verify) <==> Succeeds(Advance(f, s, verify), s, k + 1, verify))
  {
  }

  lemma SendSucceeds(f: Frame, s: Store, k: nat, verify: Tx -> bool)
    requires IsTransaction(f.root.action) && f.pc == Send
    ensures Succeeds(f, s, k, verify)
  {
    SucceedsStep(f, s, k, verify);
    SucceedsStep(Advance(f, s, verify), s, k + 1, verify);
  }

  lemma LastHashSucceeds(f: Frame, s: Store, k: nat, verify: Tx -> bool)
    requires IsTransaction(f.root.action) && f.pc == CheckLastHash
    ensures Succeeds(f, s, k, verify) <==> s.LastHash(f.tx.body.sender) in {None, Some(f.tx.prev)}
  {
    SucceedsStep(f, s, k, verify);
    var g := Advance(f, s, verify);
    if g.pc == Send { SendSucceeds(g, s, k + 1, verify); } else { SucceedsStep(g, s, k + 1, verify); }
  }

  lemma BalanceSucceeds(f: Frame, s: Store, k: nat, verify: Tx -> bool)
    requires IsTransaction(f.root.action) && f.pc == CheckBalance
    ensures
      var src := f.tx.body.sender;
      Succeeds(f, s, k, verify) <==>
        && s.LastHash(src) == Some(f.tx.prev)
        && f.tx.body.key in s.accounts[src].balances
        && Amount(f.tx.body.params).Some?
        && Amount(f.tx.body.params).value <= s.Balance(src, f.tx.body.key)
  {
    SucceedsStep(f, s, k, verify);
    var g := Advance(f, s, verify);
    if g.pc == CheckLastHash { LastHashSucceeds(g, s, k + 1, verify); } else { SucceedsStep(g, s, k + 1, verify); }
  }

  lemma GiveSucceeds(f: Frame, s: Store, k: nat, verify: Tx -> bool)
    requires IsTransaction(f.root.action) && f.pc == CheckExists
    ensures Succeeds(f, s, k, verify) <==>
              f.root.destination in s.accounts && !Received(s, f.root.destination)
  {
    var g := Advance(f, s, verify);
    var h := Advance(g, s, verify);
    var i := Advance(h, s, verify);
    SucceedsStep(f, s, k, verify);
    SucceedsStep(g, s, k + 1, verify);
    SucceedsStep(h, s, k + 2, verify);
    if i.pc == Send { SendSucceeds(i, s, k + 3, verify); } else { SucceedsStep(i, s, k + 3, verify); }
  }

  /** On an unchanging store a request is admitted exactly when the conditions above hold. */
  lemma AdmittedIff(root: Root, now: int, s: Store, verify: Tx -> bool)
    requires IsTransaction(root.action)
    ensures Complete(Begin(root, now), Still(s), 0, verify).outcome == Ok <==> Admissible(root, now, s, verify)
  {
    var f := Begin(root, now);
    var g := Advance(f, s, verify);
    SucceedsStep(f, s, 0, verify);
    assert Succeeds(f, s, 0, verify) <==> Complete(Begin(root, now), Still(s), 0, verify).outcome == Ok;
    match g.pc
    case Done => SucceedsStep(g, s, 1, verify);
    case Send => SendSucceeds(g, s, 1, verify);
    case CheckLastHash => LastHashSucceeds(g, s, 1, verify);
    case CheckBalance => BalanceSucceeds(g, s, 1, verify);
    case CheckExists => GiveSucceeds(g, s, 1, verify);
  }
}
