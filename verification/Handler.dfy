/**
 The request handler itself: one object per request, whose methods fill in its transaction,
 its response and its rows in place. Its k-th interaction with the outside sees the store `view(k)`.
 */
module Handler {
  import opened Options
  import opened Ledger
  import opened Admission
  import opened Queries
  import opened Refusals
  import opened Texts

  // The transaction under construction. `body` holds the members the hash covers.
  class Transaction {
    var body: Body
    var lastDigest: Digest
    var nonce: int
    var workProof: int
    var digest: Digest
    var signature: Signature
    var edgeTime: int
    var originSender: Address
    var originAmount: string

    function Value(): Tx
      reads this
    {
      Tx(body, lastDigest, nonce, workProof, digest, signature, edgeTime, originSender, originAmount)
    }

    constructor ()
      ensures Value() == BLANK_TX
    {
      body, lastDigest, nonce, workProof, digest := BLANK_TX.body, Zero, 0, 0, Zero;
      signature, edgeTime, originSender, originAmount := Unsigned, 0, Named(""), "";
    }

    method MakeAccountCreate(account: Address, amount: string, timestamp: nat)
      modifies this
      ensures Value() == Built(old(Value()), CreateBody(account, amount, timestamp), Zero)
    {
      var params;
      if amount != "" {
        params := Text(amount);
      } else {
        params := Text("0");
      }
      body := Body(CreateAccount, account, account, "$$", params, timestamp);
      lastDigest := Zero;
      nonce := 0;
      workProof := 0;
      digest := Hash(body, lastDigest);
    }

    method MakeTransferOut(src: Address, dst: Address, key: string, amount: string, timestamp: nat, last: Digest)
      modifies this
      ensures Value() == Built(old(Value()), OutBody(src, dst, key, amount, timestamp), last)
    {
      body := Body(TransferAssetOut, src, dst, key, Text(amount), timestamp);
      lastDigest := last;
      nonce := 0;
      workProof := 0;
      digest := Hash(body, lastDigest);
    }

    method MakeTransferIn(account: Address, timestamp: nat, txHash: Digest, last: Digest)
      modifies this
      ensures Value() == Built(old(Value()), InBody(account, timestamp, txHash), last)
    {
      body := Body(TransferAssetIn, account, account, "", Ref(txHash), timestamp);
      lastDigest := last;
      nonce := 0;
      workProof := 0;
      digest := Hash(body, lastDigest);
    }

    method MakeSetProperty(root: Root, last: Digest)
      modifies this
      ensures Value() == Built(old(Value()), PropertyBody(root), last)
    {
      body := Body(DataProperty, root.account, root.account, root.key, Text(root.value), ToUint64(root.timestamp));
      lastDigest := last;
      nonce := 0;
      workProof := 0;
      digest := Hash(body, lastDigest);
    }

    method HashAndSign(who: Address)
      modifies this
      ensures Value() == old(Value()).(digest := Hash(old(body), old(lastDigest)),
                                       signature := SignedBy(who, Hash(old(body), old(lastDigest))))
    {
      digest := Hash(body, lastDigest);
      signature := SignedBy(who, digest);
    }
  }

  lemma AnswerSays(outcome: Outcome, err: ErrCode)
    requires outcome != Outcome.Pending
    ensures Answer(outcome) == map[ResultField := Num(1)] <==> outcome == Ok
    ensures Answer(outcome) == map[ResultField := Num(0), ErrCodeField := Err(err), ReasonField := Err(err)] <==>
              outcome == Fail(err)
    ensures Answer(outcome) == map[] <==> outcome == Threw
  {
    if outcome.Fail? {
      assert Answer(outcome)[ResultField] == Num(0) && Answer(outcome)[ErrCodeField] == Err(outcome.err);
      assert ErrCodeField !in map[ResultField := Num(1)];
    }
    if outcome == Ok { assert Answer(outcome)[ResultField] == Num(1); }
    if outcome == Threw { assert ResultField !in Answer(outcome); }
  }

  // The response object that tells a transaction request how it went.
  function Answer(outcome: Outcome): Row {
    match outcome
    case Ok => map[ResultField := Num(1)]
    case Fail(err) => map[ResultField := Num(0), ErrCodeField := Err(err), ReasonField := Err(err)]
    case _ => map[]
  }

  class RequestHandler {
    const request: Request
    const lib: Library
    const root: Root := Decoded(request, lib)   // what the texts of the request stand for
    const now: int
    const verify: Tx -> bool
    const code: Kind -> int                     // the numbers of the transaction types
    const tx: Transaction
    var response: Row
    var item: Row
    var items: seq<Row>
    var sent: seq<Tx>             // what was broadcast
    var lookups: seq<Address>     // whose account was fetched for its tag

    ghost predicate Fresh()
      reads this, tx
    {
      tx.Value() == BLANK_TX && response == map[] && item == map[] && items == [] && sent == [] && lookups == []
    }

    constructor (request: Request, lib: Library, now: int, verify: Tx -> bool, code: Kind -> int)
      ensures this.request == request && this.lib == lib && root == Decoded(request, lib)
      ensures this.now == now && this.verify == verify && this.code == code
      ensures Fresh() && fresh(tx)
    {
      this.request, this.lib, this.now, this.verify, this.code := request, lib, now, verify, code;
      response, item, items, sent, lookups := map[], map[], [], [], [];
      tx := new Transaction();
    }

    // The request has come to the end g: its answer is given, and its transaction went out if it succeeded.
    ghost predicate Answered(g: Frame)
      reads this, tx
    {
      && response == Answer(g.outcome)
      && sent == (if g.outcome == Ok then [g.tx] else [])
      && (g.outcome == Ok ==> tx.Value() == g.tx)
    }

    ghost predicate Unanswered()
      reads this
    {
      response == map[] && sent == []
    }

    method SetResultOk()
      modifies this`response
      ensures response == old(response)[ResultField := Num(1)]
    {
      response := response[ResultField := Num(1)];
    }

    method SetResultFail(err: ErrCode)
      modifies this`response
      ensures response == old(response)[ResultField := Num(0)][ErrCodeField := Err(err)][ReasonField := Err(err)]
    {
      response := response[ResultField := Num(0)];
      response := response[ErrCodeField := Err(err)];
      response := response[ReasonField := Err(err)];
    }

    // A failure when nothing has been answered yet.
    method Refuse(err: ErrCode)
      requires response == map[]
      modifies this`response
      ensures response == Answer(Fail(err))
    {
      SetResultFail(err);
    }

    method DoTransaction()
      modifies this`sent
      ensures sent == old(sent) + [tx.Value()]
    {
      sent := sent + [tx.Value()];
    }

    method Broadcast()
      requires Unanswered()
      modifies this`sent, this`response
      ensures sent == [tx.Value()] && response == Answer(Ok)
    {
      DoTransaction();
      SetResultOk();
    }

    method TransactionDigestAdd() returns (signed: bool)
      modifies tx
      ensures signed <==> NoHash(old(tx.body.sender))
      ensures signed ==>
                var t := old(tx.Value());
                tx.Value() == t.(digest := Hash(t.body, t.prev),
                                 signature := SignedBy(t.body.sender, Hash(t.body, t.prev)))
      ensures !signed ==> tx.Value() == old(tx.Value())
    {
      if tx.body.sender == Genesis {
        tx.HashAndSign(Genesis);
      } else if tx.body.sender == UserA {
        tx.HashAndSign(UserA);
      } else if tx.body.sender == UserB {
        tx.HashAndSign(UserB);
      } else {
        return false;
      }
      return true;
    }

    method TxDigestSignatureSet(nohash: bool)
      modifies tx
      ensures tx.Value() == Signed(old(tx.Value()), nohash, root.signature, now)
    {
      if nohash {
        var _ := TransactionDigestAdd();
      } else {
        tx.signature := Supplied(JsonToSignature(request.signature, lib));
      }
      tx.edgeTime := now;
    }

    method LastDigestSet(nohash: bool, account: Address, s: Store) returns (found: bool, last: Digest)
      ensures found <==> !nohash || account in s.accounts
      ensures found ==> last == if nohash then s.accounts[account].head else root.lastDigest
    {
      if nohash {
        if account in s.accounts {
          return true, s.accounts[account].head;
        } else {
          return false, Zero;
        }
      }
      return true, ReadDigest(request.lastDigest, lib);
    }

    method CheckInput(s: Store) returns (ok: bool)
      requires response == map[]
      modifies this`response
      ensures ok <==> && (root.action == Action.SetProperty ==> ValidPropertyKey(root.key))
                      && (root.action == AccountCreate ==> root.account !in s.accounts)
      ensures response == if ok then map[]
                          else if root.action == Action.SetProperty then Answer(Fail(PropertyKeyNotValid))
                          else Answer(Fail(AccountExist))
    {
      if root.action == Action.SetProperty {
        if root.key == "" || root.key[0] != '@' || '#' in root.key || '$' in root.key {
          Refuse(PropertyKeyNotValid);
          return false;
        }
      }
      if root.action == AccountCreate {
        if root.account in s.accounts {
          Refuse(AccountExist);
          return false;
        }
      }
      return true;
    }

    // The specification of a whole request.
    ghost function Ending(view: nat -> Store): Frame
      requires IsTransaction(root.action)
    {
      Complete(Begin(root, now), view, 0, verify)
    }

    method CreateAccount(nohash: bool, view: nat -> Store)
      requires Fresh() && root.action == AccountCreate && nohash == ServerSigned(root)
      modifies this, tx
      ensures Answered(Ending(view))
    {
      ghost var f := Begin(root, now);
      ghost var g := Advance(f, view(0), verify);
      Unroll(f, view, 0, verify);
      var ok := CheckInput(view(0));
      if !ok { return; }
      tx.MakeAccountCreate(root.account, root.amount, ToUint64(root.timestamp));
      TxDigestSignatureSet(nohash);
      assert tx.Value() == Draft(root, now, Zero);
      Submit(g, view);
    }

    method SetProperty(nohash: bool, view: nat -> Store)
      requires Fresh() && root.action == Action.SetProperty && nohash == ServerSigned(root)
      modifies this, tx
      ensures Answered(Ending(view))
    {
      ghost var f := Begin(root, now);
      ghost var g := Advance(f, view(0), verify);
      Unroll(f, view, 0, verify);
      var ok := CheckInput(view(0));
      if !ok { return; }
      var found, last := LastDigestSet(nohash, root.account, view(0));
      if !found {
        Refuse(AccountNotFound);
        return;
      }
      tx.MakeSetProperty(root, last);
      TxDigestSignatureSet(nohash);
      assert tx.Value() == Draft(root, now, last);
      Submit(g, view);
    }

    method TransferIn(nohash: bool, view: nat -> Store)
      requires Fresh() && root.action == Action.TransferIn && nohash == ServerSigned(root)
      modifies this, tx
      ensures Answered(Ending(view))
    {
      ghost var f := Begin(root, now);
      ghost var g := Advance(f, view(0), verify);
      Unroll(f, view, 0, verify);
      var found, last := LastDigestSet(nohash, root.account, view(0));
      if !found {
        Refuse(AccountNotFound);
        return;
      }
      var txDigest := ReadDigest(request.txDigest, lib);
      tx.MakeTransferIn(root.account, ToUint64(root.timestamp), txDigest, last);
      TxDigestSignatureSet(nohash);
      tx.originSender := root.sender;
      tx.originAmount := root.amount;
      if !verify(tx.Value()) {
        Refuse(HashSignatureCheckFail);
        return;
      }
      assert tx.Value() == Draft(root, now, last);
      CheckLink(g, view, 1);
    }

    // The end of both transfers: the last hash, seen in the store `view(k)`, and the broadcast.
    method CheckLink(ghost g: Frame, view: nat -> Store, k: nat)
      requires Unanswered() && IsTransaction(root.action)
      requires g.root == root && g.pc == CheckLastHash && g.outcome == Pending && g.tx == tx.Value()
      modifies this`sent, this`response
      ensures Answered(Complete(g, view, k, verify))
      ensures Complete(g, view, k, verify).outcome != Threw
    {
      ghost var h := Advance(g, view(k), verify);
      Unroll(g, view, k, verify);
      var head := view(k).LastHash(tx.body.sender);
      if head.Some? && head.value != tx.lastDigest {
        Refuse(LastHashError);
        return;
      }
      Unroll(h, view, k + 1, verify);
      Broadcast();
    }

    // The end of account_create and set_property: the check of hash and signature, and the broadcast.
    method Submit(ghost g: Frame, view: nat -> Store)
      requires Unanswered() && IsTransaction(root.action) && g.root == root
      requires g == if verify(tx.Value()) then Frame(root, now, Send, tx.Value(), None, Pending)
                    else Frame(root, now, Done, tx.Value(), None, Fail(HashSignatureCheckFail))
      modifies this`sent, this`response
      ensures Answered(Complete(g, view, 1, verify))
    {
      if !verify(tx.Value()) {
        Refuse(HashSignatureCheckFail);
        return;
      }
      Unroll(g, view, 1, verify);
      Broadcast();
    }

    method TransferOut(nohash: bool, view: nat -> Store) returns (threw: bool)
      requires Fresh() && root.action == Action.TransferOut && nohash == ServerSigned(root)
      modifies this, tx
      ensures Answered(Ending(view))
      ensures threw <==> Ending(view).outcome == Threw
    {
      threw := false;
      ghost var f := Begin(root, now);
      ghost var g := Advance(f, view(0), verify);
      Unroll(f, view, 0, verify);
      if root.source == root.destination {
        Refuse(SenderReceiverTheSame);
        return;
      }
      var found, last := LastDigestSet(nohash, root.source, view(0));
      if !found {
        Refuse(AccountNotFound);
        return;
      }
      tx.MakeTransferOut(root.source, root.destination, root.key, root.amount, ToUint64(root.timestamp), last);
      TxDigestSignatureSet(nohash);
      if !verify(tx.Value()) {
        Refuse(HashSignatureCheckFail);
        return;
      }
      assert tx.Value() == Draft(root, now, last);
      threw := CheckFunds(g, view);
    }

    // The rest of transfer_out: the balance, the last hash, the broadcast.
    method CheckFunds(ghost g: Frame, view: nat -> Store) returns (threw: bool)
      requires Unanswered() && root.action == Action.TransferOut
      requires g.root == root && g.pc == CheckBalance && g.outcome == Pending && g.tx == tx.Value()
      requires tx.body.sender == root.source && tx.body.key == root.key && tx.body.params == Text(root.amount)
      modifies this`sent, this`response
      ensures Answered(Complete(g, view, 1, verify))
      ensures threw <==> Complete(g, view, 1, verify).outcome == Threw
    {
      threw := false;
      ghost var h := Advance(g, view(1), verify);
      Unroll(g, view, 1, verify);
      var accounts := view(1).accounts;
      if root.source !in accounts {
        Refuse(AccountNotFound);
        return;
      } else if root.key !in accounts[root.source].balances {
        Refuse(NoPropertyKey);
        return;
      }
      var amount := Stoll(root.amount);
      if amount.None? {
        return true;
      }
      if accounts[root.source].balances[root.key] < amount.value {
        Refuse(BalanceNotEnough);
        return;
      }
      CheckLink(h, view, 2);
    }

    method Give(view: nat -> Store)
      requires Fresh() && root.action == Action.Give
      modifies this, tx
      ensures Answered(Ending(view))
    {
      ghost var f := Begin(root, now);
      ghost var g := Advance(f, view(0), verify);
      Unroll(f, view, 0, verify);
      var found, last := LastDigestSet(true, Genesis, view(0));
      if !found {
        Refuse(AccountNotFound);
        return;
      }
      tx.MakeTransferOut(Genesis, root.destination, "$$", "100000", ToUint64(root.timestamp), last);
      TxDigestSignatureSet(true);
      if !verify(tx.Value()) {
        Refuse(HashSignatureCheckFail);
        return;
      }
      assert tx.Value() == Draft(root, now, last);
      CheckReceipts(g, view);
    }

    // The rest of give: the account, the two lists, the broadcast.
    method CheckReceipts(ghost g: Frame, view: nat -> Store)
      requires Unanswered() && root.action == Action.Give
      requires g.root == root && g.pc == CheckExists && g.outcome == Pending && g.tx == tx.Value()
      modifies this`sent, this`response
      ensures Answered(Complete(g, view, 1, verify))
    {
      var dst := root.destination;
      ghost var h := Advance(g, view(1), verify);
      ghost var i := Advance(h, view(2), verify);
      ghost var j := Advance(i, view(3), verify);
      Unroll(g, view, 1, verify);
      if dst !in view(1).accounts {
        Refuse(AccountNotFound);
        return;
      }
      Unroll(h, view, 2, verify);
      var receiveList := view(2).ReceiveBlocks(dst);
      if |receiveList| > 0 {
        Refuse(AlreadyGive);
        return;
      }
      Unroll(i, view, 3, verify);
      var taken := SearchTransferIn(view(3).SettleBlocks(dst));
      if taken {
        Refuse(AlreadyGive);
        return;
      }
      Unroll(j, view, 4, verify);
      Broadcast();
    }

    // The loop over the settle list.
    method SearchTransferIn(settleList: seq<Tx>) returns (found: bool)
      ensures found <==> HasTransferIn(settleList)
    {
      for n := 0 to |settleList|
        invariant !HasTransferIn(settleList[..n])
      {
        if settleList[n].body.kind == TransferAssetIn {
          return true;
        }
      }
      assert settleList[..|settleList|] == settleList;
      return false;
    }

    /** The dispatch of the five transaction actions, the unknown one included. */
    method HandleTransaction(view: nat -> Store) returns (threw: bool)
      requires Fresh() && (IsTransaction(root.action) || root.action == Unknown)
      modifies this, tx
      ensures IsTransaction(root.action) ==> Answered(Ending(view)) && (threw <==> Ending(view).outcome == Threw)
      ensures root.action == Unknown ==> !threw && sent == [] && response == Answer(Fail(ActionInvalid))
      ensures threw ==> root.action == Action.TransferOut
      ensures !threw ==> |sent| == (if ResultField in response && response[ResultField] == Num(1) then 1 else 0)
      ensures forall t :: t in sent ==> verify(t) && WellHashed(t)
    {
      threw := Dispatch(view);
      if IsTransaction(root.action) {
        CompleteOk(Begin(root, now), view, 0, verify);
        ThrowsOnlyOut(Begin(root, now), view, 0, verify);
      }
    }

    /** On one store: Result 1 exactly when the request is admissible; Result 0 with a code, and the code again
        as the reason, exactly under the condition for that code; no answer exactly when it throws. */
    method HandleOnStore(s: Store) returns (threw: bool)
      requires Fresh() && IsTransaction(root.action)
      modifies this, tx
      ensures response == map[ResultField := Num(1)] <==> Admissible(root, now, s, verify)
      ensures forall err ::
                response == map[ResultField := Num(0), ErrCodeField := Err(err), ReasonField := Err(err)] <==>
                  Refuses(err, root, now, s, verify)
      ensures threw <==> root.action == Action.TransferOut && TransferOutThrows(root, now, s, verify)
      ensures threw <==> response == map[]
      ensures |sent| == if Admissible(root, now, s, verify) then 1 else 0
      ensures forall t :: t in sent ==> verify(t) && t.body == RequestBody(root)
    {
      threw := HandleTransaction(Still(s));
      AdmittedIff(root, now, s, verify);
      CompleteOk(Begin(root, now), Still(s), 0, verify);
      forall err
        ensures response == map[ResultField := Num(0), ErrCodeField := Err(err), ReasonField := Err(err)] <==>
                  Refuses(err, root, now, s, verify)
      {
        RefusedIff(err, root, now, s, verify);
        AnswerSays(OutcomeOn(root, now, s, verify), err);
      }
      RefusedIff(UnknownErr, root, now, s, verify);
      AnswerSays(OutcomeOn(root, now, s, verify), UnknownErr);
    }

    method Dispatch(view: nat -> Store) returns (threw: bool)
      requires Fresh() && (IsTransaction(root.action) || root.action == Unknown)
      modifies this, tx
      ensures IsTransaction(root.action) ==> Answered(Ending(view)) && (threw <==> Ending(view).outcome == Threw)
      ensures root.action == Unknown ==> !threw && sent == [] && response == Answer(Fail(ActionInvalid))
    {
      threw := false;
      var nohash := NoHash(root.account);
      if IsTransaction(root.action) { ThrowsOnlyOut(Begin(root, now), view, 0, verify); }
      if root.action == AccountCreate {
        CreateAccount(nohash, view);
      } else if root.action == Action.TransferOut {
        nohash := NoHash(root.source);
        threw := TransferOut(nohash, view);
      } else if root.action == Action.TransferIn {
        TransferIn(nohash, view);
      } else if root.action == Action.SetProperty {
        SetProperty(nohash, view);
      } else if root.action == Action.Give {
        Give(view);
      } else {
        Refuse(ActionInvalid);
      }
    }

    // ---------------------------------------------------------------- queries

    // The reads happen in the order of the code: the account, the settle list, the receive list. The first
    // also gives the account's sequence number and creation time.
    method AccountInfo(view: nat -> Store, sequence: int, createTime: int)
      requires Fresh() && root.action == Action.AccountInfo
      modifies this
      ensures sent == []
      ensures root.account !in view(0).accounts ==> response == Answer(Fail(AccountNotFound))
      ensures root.account in view(0).accounts ==>
                response == SnapshotRow(root.account, view(0), sequence, createTime)
                            [GiveField := Num(if InfoGive(view(1), view(2), root.account) then 1 else 0)]
    {
      if root.account !in view(0).accounts {
        Refuse(AccountNotFound);
        return;
      }
      FillSnapshot(view(0), sequence, createTime);
      AnnounceGive(view(1).SettleBlocks(root.account), view(2));
    }

    method FillSnapshot(s: Store, sequence: int, createTime: int)
      requires response == map[] && root.account in s.accounts
      modifies this`response
      ensures response == SnapshotRow(root.account, s, sequence, createTime)
    {
      SetResultOk();
      response := response[BalanceField := Num(s.Balance(root.account, "$$"))];
      response := response[SequenceField := Num(sequence)];
      response := response[LastHashField := Dig(s.accounts[root.account].head)];
      response := response[CreateTimeField := Num(createTime)];
      var tag := s.Property(root.account, TAG_NAME);
      response := response[PropertyValueField := Str(if tag.Some? then tag.value else "")];
    }

    // The give flag, withdrawn at the first sign of a receipt.
    method AnnounceGive(settleList: seq<Tx>, later: Store)
      modifies this`response
      ensures
        var give := !HasTransferIn(settleList) && later.ReceiveBlocks(root.account) == [];
        response == old(response)[GiveField := Num(if give then 1 else 0)]
    {
      response := response[GiveField := Num(1)];
      var taken := SearchTransferIn(settleList);
      if taken {
        response := response[GiveField := Num(0)];
        return;
      }
      var receiveList := later.ReceiveBlocks(root.account);
      if |receiveList| > 0 {
        response := response[GiveField := Num(0)];
      }
    }

    // One address's tag, through the memo. The n-th fetch sees the store `view(n)`, the list having come
    // from `view(0)`.
    method LookUp(userTag: map<Address, string>, a: Address, view: nat -> Store)
      returns (tag: string, memo: map<Address, string>)
      requires MemoOk(userTag, lookups, view)
      modifies this`lookups
      ensures MemoOk(memo, lookups, view) && a in memo && tag == memo[a]
      ensures Extends(userTag, memo) && memo.Keys == userTag.Keys + {a}
    {
      if a in userTag {
        return userTag[a], userTag;
      }
      tag := Fetch(a, view);
      memo := userTag[a := tag];
      MemoNext(userTag, old(lookups), a, view);
    }

    method Fetch(a: Address, view: nat -> Store) returns (tag: string)
      modifies this`lookups
      ensures lookups == old(lookups) + [a] && tag == Tag(view(|lookups|), a)
    {
      lookups := lookups + [a];
      var s := view(|lookups|);
      tag := "";
      if a in s.accounts {
        var value := s.Property(a, TAG_NAME);
        if value.Some? {
          tag := value.value;
        }
      }
    }

    method SetPropertyValue(userTag: map<Address, string>, view: nat -> Store) returns (memo: map<Address, string>)
      requires Source in item && item[Source].Addr? && Destination in item && item[Destination].Addr?
      requires MemoOk(userTag, lookups, view)
      modifies this`item, this`response, this`lookups
      ensures item == Tagged(old(item), TagOf(memo))
      ensures MemoOk(memo, lookups, view) && Extends(userTag, memo)
      ensures memo.Keys == userTag.Keys + RowAddresses(old(item))
      ensures response == old(response)[ResultField := Num(1)]
    {
      var tag;
      tag, memo := LookUp(userTag, item[Source].a, view);
      item := item[SourceTag := Str(tag)];
      tag, memo := LookUp(memo, item[Destination].a, view);
      item := item[DestinationTag := Str(tag)];
      SetResultOk();
    }

    method FillTransfer(tx: Tx)
      modifies this`item
      ensures item == Filled(old(item), tx, code)
    {
      item := item[TransactionType := Num(code(tx.body.kind))];
      item := item[Source := Addr(tx.body.sender)];
      item := item[Destination := Addr(tx.body.receiver)];
      item := item[PropertyKey := Str(if tx.body.key == "" then "$$" else tx.body.key)];
      if code(tx.body.kind) == 1 || code(tx.body.kind) == 0 {
        item := item[AmountField := Par(tx.body.params)];
      } else if tx.body.kind == TransferAssetIn {
        item := item[AmountField := Str(tx.originAmount)];
        item := item[Source := Addr(tx.originSender)];
      }
    }

    // One history row, over whatever the last one left.
    method FillRow(tx: Tx, userTag: map<Address, string>, view: nat -> Store) returns (memo: map<Address, string>)
      requires MemoOk(userTag, lookups, view)
      modifies this`item, this`response, this`lookups
      ensures item == NextRow(old(item), tx, TagOf(memo), code)
      ensures MemoOk(memo, lookups, view) && Extends(userTag, memo)
      ensures memo.Keys == userTag.Keys + RowAddresses(item)
      ensures response == old(response)[ResultField := Num(1)]
    {
      FillTransfer(tx);
      ghost var base := item;
      memo := SetPropertyValue(userTag, view);
      StampRow(tx);
      StampedAddresses(base, tx, TagOf(memo));
    }

    method StampRow(tx: Tx)
      modifies this`item
      ensures item == Stamped(old(item), tx)
    {
      item := item[TxDigest := Dig(tx.digest)];
      item := item[LastDigest := Dig(tx.prev)];
      item := item[RpcTime := Num(tx.edgeTime)];
    }

    // One more row after those for `page`.
    method AddRow(tx: Tx, userTag: map<Address, string>, view: nat -> Store, ghost page: seq<Tx>)
      returns (memo: map<Address, string>)
      requires response == Answer(Ok)
      requires items == ReusedRows(map[], page, TagOf(userTag), code) && item == LastRow(items)
      requires MemoOk(userTag, lookups, view) && userTag.Keys == Addresses(items)
      modifies this`item, this`items, this`response, this`lookups
      ensures items == ReusedRows(map[], page + [tx], TagOf(memo), code) && item == LastRow(items)
      ensures MemoOk(memo, lookups, view) && memo.Keys == Addresses(items)
      ensures response == Answer(Ok)
    {
      OkTwice();
      memo := FillRow(tx, userTag, view);
      RowAdded(items, item, page, tx, userTag, memo, code);
      items := items + [item];
    }

    // The loop: the transfers at positions lo to hi become rows, the count covers them all.
    method ListHistory(blocks: seq<Tx>, lo: int, hi: int, view: nat -> Store) returns (num: nat)
      requires items == [] && item == map[] && lookups == [] && response == Answer(Ok)
      modifies this`item, this`items, this`response, this`lookups
      ensures response == Answer(Ok) && num == |Transfers(blocks)|
      ensures items == ReusedRows(map[], Window(Transfers(blocks), lo, hi), TagOf(Fetched(lookups, view)), code)
      ensures Memoised(lookups, Addresses(items))
    {
      num := 0;
      var userTag: map<Address, string> := map[];
      for n := 0 to |blocks|
        invariant response == Answer(Ok)
        invariant num == |Transfers(blocks[..n])|
        invariant items == ReusedRows(map[], Window(Transfers(blocks[..n]), lo, hi), TagOf(userTag), code)
        invariant item == LastRow(items)
        invariant MemoOk(userTag, lookups, view) && userTag.Keys == Addresses(items)
      {
        var tx := blocks[n];
        HistoryNext(blocks, n, lo, hi);
        if tx.body.kind != TransferAssetIn && tx.body.kind != TransferAssetOut {
          continue;
        }
        if num >= lo && num < hi {
          userTag := AddRow(tx, userTag, view, Window(Transfers(blocks[..n]), lo, hi));
        }
        num := num + 1;
      }
      assert blocks[..|blocks|] == blocks;
    }

    // The listing goes into the response.
    method Report(count: nat)
      requires response == Answer(Ok)
      modifies this`response
      ensures response == Listed(items, count)
    {
      response := response[BlocksField := Rows(items)];
      response := response[CountField := Num(count)];
    }

    // The response shows these transfers, each with its addresses' tags as fetched, every address fetched
    // once and no other.
    ghost predicate Shows(page: seq<Tx>, total: nat, view: nat -> Store)
      reads this
    {
      var rows := ReusedRows(map[], page, TagOf(Fetched(lookups, view)), code);
      && response == map[ResultField := Num(1), BlocksField := Rows(rows), CountField := Num(total)]
      && Memoised(lookups, Addresses(rows))
    }

    /** The history page, whatever settles meanwhile: its rows come from the one reused object, and each
        address shown has been fetched once and carries on every row the tag of that fetch. */
    method AccountHistory(view: nat -> Store)
      requires Fresh() && root.action == Action.AccountHistory
      requires InInt32(root.count * root.perPage) && InInt32((root.count + 1) * root.perPage)
      modifies this
      ensures sent == []
      ensures
        var transfers := Transfers(view(0).SettleBlocks(root.account));
        Shows(Page(transfers, root.count, root.perPage), |transfers|, view)
    {
      var lo := root.count * root.perPage;
      var hi := (root.count + 1) * root.perPage;
      ghost var transfers := Transfers(view(0).SettleBlocks(root.account));
      assert Page(transfers, root.count, root.perPage) == Window(transfers, lo, hi);
      ListWindow(view(0).SettleBlocks(root.account), lo, hi, view);
    }

    method ListWindow(blocks: seq<Tx>, lo: int, hi: int, view: nat -> Store)
      requires Fresh()
      modifies this
      ensures sent == []
      ensures Shows(Window(Transfers(blocks), lo, hi), |Transfers(blocks)|, view)
    {
      SetResultOk();
      var num := ListHistory(blocks, lo, hi, view);
      Report(num);
    }

    method AccountPending(s: Store)
      requires Fresh() && root.action == Action.AccountPending
      modifies this
      ensures sent == []
      ensures
        var blocks := s.ReceiveBlocks(root.account);
        var rows := PendingRows(Window(blocks, 0, root.count));
        response == map[ResultField := Num(1), BlocksField := Rows(rows), CountField := Num(|blocks|)]
    {
      var blocks := s.ReceiveBlocks(root.account);
      SetResultOk();
      ListPending(blocks);
      Report(|blocks|);
    }

    // Entries become rows until `count` of them have.
    method ListPending(blocks: seq<Tx>)
      requires items == [] && item == map[]
      modifies this`item, this`items
      ensures items == PendingRows(Window(blocks, 0, root.count))
    {
      var num := 0;
      while num < |blocks|
        invariant 0 <= num <= |blocks| && (num == 0 || num <= root.count)
        invariant items == PendingRows(blocks[..num]) && item.Keys <= PendingFields()
      {
        if num >= root.count { break; }
        FillPending(blocks[num]);
        num := num + 1;
        assert blocks[..num] == blocks[..num - 1] + [blocks[num - 1]];
        items := items + [item];
      }
      assert blocks[..num] == Window(blocks, 0, root.count);
    }

    method FillPending(tx: Tx)
      requires item.Keys <= PendingFields()
      modifies this`item
      ensures item == PendingRow(tx)
    {
      item := item[Sender := Addr(tx.body.sender)];
      item := item[PropertyKey := Str(tx.body.key)];
      item := item[AmountField := Par(tx.body.params)];
      item := item[Block := Dig(tx.digest)];
    }

    method FillOnline(tx: Tx)
      requires item.Keys <= OnlineFields()
      modifies this`item
      ensures item == OnlineRow(tx)
    {
      item := item[Sender := Addr(tx.body.sender)];
      item := item[Receiver := Addr(tx.body.receiver)];
      item := item[PropertyKey := Str(tx.body.key)];
      item := item[AmountField := Par(tx.body.params)];
      item := item[Timestamp := Num(tx.body.timestamp)];
      item := item[LastDigest := Dig(tx.prev)];
      item := item[TxDigest := Dig(tx.digest)];
      item := item[RpcTime := Num(tx.edgeTime)];
    }

    method ListOnline(txs: seq<Tx>, lo: int, hi: int)
      requires items == [] && item == map[]
      modifies this`item, this`items
      ensures items == OnlineRows(Window(txs, lo, hi))
    {
      for num := 0 to |txs|
        invariant items == OnlineRows(Window(txs[..num], lo, hi))
        invariant item.Keys <= OnlineFields()
      {
        OnlineNext(txs, lo, hi, num);
        if num >= lo && num < hi {
          FillOnline(txs[num]);
          items := items + [item];
        }
      }
      assert txs[..|txs|] == txs;
    }

    /** The queue of transactions this node has seen; None where the store cannot tell. */
    method QueryOnlineTx(queue: Option<seq<Tx>>)
      requires Fresh() && root.action == Action.QueryOnlineTx
      requires InInt32(root.count * root.perPage) && InInt32((root.count + 1) * root.perPage)
      modifies this
      ensures sent == []
      ensures queue.None? ==> response == Answer(Fail(UnknownErr))
      ensures queue.Some? ==>
                var rows := OnlineRows(Page(queue.value, root.count, root.perPage));
                response == map[ResultField := Num(1), BlocksField := Rows(rows), CountField := Num(|queue.value|)]
    {
      var lo := root.count * root.perPage;
      var hi := (root.count + 1) * root.perPage;
      if queue.None? {
        Refuse(UnknownErr);
        return;
      }
      ListOnline(queue.value, lo, hi);
      response := response[BlocksField := Rows(items)];
      response := response[CountField := Num(|queue.value|)];
      SetResultOk();
    }
  }

  // The answer of a listing: its rows, and how many there are on all pages.
  function Listed(rows: seq<Row>, count: nat): Row {
    map[ResultField := Num(1), BlocksField := Rows(rows), CountField := Num(count)]
  }

  // What account_info says of the account's snapshot.
  function SnapshotRow(a: Address, s: Store, sequence: int, createTime: int): Row
    requires a in s.accounts
  {
    map[ResultField := Num(1), BalanceField := Num(s.Balance(a, NATIVE_ASSET)), SequenceField := Num(sequence),
        LastHashField := Dig(s.accounts[a].head), CreateTimeField := Num(createTime),
        PropertyValueField := Str(Tag(s, a))]
  }

  // Two C++ ints multiplied without overflow.
  predicate InInt32(n: int) {
    -0x8000_0000 <= n < 0x8000_0000
  }

  // The tags fetched, the n-th from the store `view(n)`.
  function Fetched(lookups: seq<Address>, view: nat -> Store): (memo: map<Address, string>)
    ensures forall a :: a in memo <==> a in lookups
  {
    if lookups == [] then map[]
    else
      var n := |lookups| - 1;
      Fetched(lookups[..n], view)[lookups[n] := Tag(view(n + 1), lookups[n])]
  }

  // The memo holds what was fetched, each address once.
  ghost predicate MemoOk(memo: map<Address, string>, lookups: seq<Address>, view: nat -> Store) {
    memo == Fetched(lookups, view) && Memoised(lookups, memo.Keys)
  }

  // Each of these addresses was fetched exactly once, and no other.
  ghost predicate Memoised(lookups: seq<Address>, memo: set<Address>) {
    NoDuplicates(lookups) && forall a :: a in lookups <==> a in memo
  }

  lemma MemoNext(memo: map<Address, string>, lookups: seq<Address>, a: Address, view: nat -> Store)
    requires MemoOk(memo, lookups, view) && a !in memo
    ensures MemoOk(memo[a := Tag(view(|lookups| + 1), a)], lookups + [a], view)
  {
    assert (lookups + [a])[..|lookups|] == lookups;
  }

  predicate Extends(memo: map<Address, string>, memo': map<Address, string>) {
    forall a :: a in memo ==> a in memo' && memo'[a] == memo[a]
  }

  // Rows stand when the memo grows.
  lemma MemoGrows(page: seq<Tx>, memo: map<Address, string>, memo': map<Address, string>, code: Kind -> int)
    requires Extends(memo, memo') && Addresses(ReusedRows(map[], page, TagOf(memo), code)) == memo.Keys
    ensures ReusedRows(map[], page, TagOf(memo'), code) == ReusedRows(map[], page, TagOf(memo), code)
  {
    ReusedRowsSame(page, TagOf(memo), TagOf(memo'), code);
  }

  lemma OkTwice()
    ensures Answer(Ok)[ResultField := Num(1)] == Answer(Ok)
  {
  }

  lemma RowAdded(rows: seq<Row>, row: Row, page: seq<Tx>, tx: Tx, memo: map<Address, string>,
                 memo': map<Address, string>, code: Kind -> int)
    requires rows == ReusedRows(map[], page, TagOf(memo), code) && Addresses(rows) == memo.Keys
    requires row == NextRow(LastRow(rows), tx, TagOf(memo'), code)
    requires Extends(memo, memo') && memo'.Keys == memo.Keys + RowAddresses(row)
    ensures rows + [row] == ReusedRows(map[], page + [tx], TagOf(memo'), code)
    ensures Addresses(rows + [row]) == memo'.Keys && LastRow(rows + [row]) == row
  {
    MemoGrows(page, memo, memo', code);
    ReusedAppend(page, tx, TagOf(memo'), code);
    AddressesAppend(rows, row);
  }

  lemma StampedAddresses(row: Row, tx: Tx, tags: Address -> string)
    requires Source in row && row[Source].Addr? && Destination in row && row[Destination].Addr?
    ensures RowAddresses(Stamped(Tagged(row, tags), tx)) == RowAddresses(row)
  {
  }

  lemma {:induction false} FetchedSteady(lookups: seq<Address>, s: Store)
    ensures forall a :: a in lookups ==> Fetched(lookups, Still(s))[a] == Tag(s, a)
  {
    if lookups != [] { FetchedSteady(lookups[..|lookups| - 1], s); }
  }

  /** On an unchanging store the memo makes no difference: the page shows one row for each transfer, with
      the tags looked up directly. */
  lemma SteadyHistory(txs: seq<Tx>, lookups: seq<Address>, s: Store, code: Kind -> int)
    requires LiteralsFit(code) && forall tx :: tx in txs ==> IsTransfer(tx)
    requires
      var rows := ReusedRows(map[], txs, TagOf(Fetched(lookups, Still(s))), code);
      forall a :: a in Addresses(rows) ==> a in lookups
    ensures ReusedRows(map[], txs, TagOf(Fetched(lookups, Still(s))), code) == HistoryRows(txs, a => Tag(s, a), code)
  {
    FetchedSteady(lookups, s);
    ReusedRowsSame(txs, TagOf(Fetched(lookups, Still(s))), a => Tag(s, a), code);
    ReusedRowsFit(map[], txs, a => Tag(s, a), code);
  }

  function LastRow(rows: seq<Row>): Row {
    if rows == [] then map[] else rows[|rows| - 1]
  }

  function PendingRows(txs: seq<Tx>): seq<Row> {
    seq(|txs|, i requires 0 <= i < |txs| => PendingRow(txs[i]))
  }

  function PendingFields(): set<Field> {
    {Sender, PropertyKey, AmountField, Block}
  }

  function OnlineFields(): set<Field> {
    {Sender, Receiver, PropertyKey, AmountField, Timestamp, LastDigest, TxDigest, RpcTime}
  }

  function OnlineRows(txs: seq<Tx>): seq<Row> {
    seq(|txs|, i requires 0 <= i < |txs| => OnlineRow(txs[i]))
  }

  lemma OnlineNext(txs: seq<Tx>, lo: int, hi: int, n: nat)
    requires n < |txs|
    ensures OnlineRows(Window(txs[..n + 1], lo, hi)) ==
            OnlineRows(Window(txs[..n], lo, hi)) + if lo <= n < hi then [OnlineRow(txs[n])] else []
  {
    WindowNext(txs, lo, hi, n);
    var page := Window(txs[..n], lo, hi);
    assert OnlineRows(page + [txs[n]]) == OnlineRows(page) + [OnlineRow(txs[n])];
  }

  // What the loop adds for the n-th block: the rows of the page so far and, within the window, one more.
  lemma HistoryNext(blocks: seq<Tx>, n: nat, lo: int, hi: int)
    requires n < |blocks|
    ensures
      var before, after := Transfers(blocks[..n]), Transfers(blocks[..n + 1]);
      && |after| == |before| + (if IsTransfer(blocks[n]) then 1 else 0)
      && Window(after, lo, hi)
         == if IsTransfer(blocks[n]) && lo <= |before| < hi then Window(before, lo, hi) + [blocks[n]]
            else Window(before, lo, hi)
  {
    var before := Transfers(blocks[..n]);
    TransfersNext(blocks, n);
    if IsTransfer(blocks[n]) {
      WindowAppend(before, blocks[n], lo, hi);
    } else {
      assert before + [] == before;
    }
  }

  lemma WindowAppend<T>(xs: seq<T>, x: T, lo: int, hi: int)
    ensures Window(xs + [x], lo, hi) == Window(xs, lo, hi) + if lo <= |xs| < hi then [x] else []
  {
    assert Window(xs, lo, hi) + [] == Window(xs, lo, hi);
    WindowNext(xs + [x], lo, hi, |xs|);
    assert (xs + [x])[..|xs| + 1] == xs + [x] && (xs + [x])[..|xs|] == xs;
  }

  lemma TransfersNext(blocks: seq<Tx>, n: nat)
    requires n < |blocks|
    ensures Transfers(blocks[..n + 1]) ==
            Transfers(blocks[..n]) + if IsTransfer(blocks[n]) then [blocks[n]] else []
  {
    assert blocks[..n + 1][..n] == blocks[..n];
  }

  lemma ReusedAppend(txs: seq<Tx>, tx: Tx, tags: Address -> string, code: Kind -> int)
    ensures
      var rows := ReusedRows(map[], txs, tags, code);
      ReusedRows(map[], txs + [tx], tags, code) == rows + [NextRow(LastRow(rows), tx, tags, code)]
  {
    assert (txs + [tx])[..|txs|] == txs;
  }

  lemma AddressesAppend(rows: seq<Row>, row: Row)
    ensures Addresses(rows + [row]) == Addresses(rows) + RowAddresses(row)
  {
    assert (rows + [row])[..|rows|] == rows;
  }

  lemma AdvanceThrows(f: Frame, s: Store, verify: Tx -> bool)
    requires FrameOk(f, verify) && f.pc != Done
    ensures Advance(f, s, verify).outcome == Threw ==> f.root.action == TransferOut
    ensures Advance(f, s, verify).root == f.root
  {
  }

  // Only transfer_out parses an amount, so only it can throw.
  lemma {:induction false} ThrowsOnlyOut(f: Frame, view: nat -> Store, k: nat, verify: Tx -> bool)
    requires FrameOk(f, verify) && (f.outcome == Threw ==> f.root.action == TransferOut)
    ensures Complete(f, view, k, verify).outcome == Threw ==> f.root.action == TransferOut
    decreases Remaining(f.pc)
  {
    if f.pc != Done {
      AdvanceOk(f, view(k), verify);
      AdvanceThrows(f, view(k), verify);
      AdvanceTerminates(f, view(k), verify);
      ThrowsOnlyOut(Advance(f, view(k), verify), view, k + 1, verify);
    }
  }

  /** A client lists what is pending for its account and asks to take in the i-th entry by the text
      listed for it: what goes out, if anything, names that very entry. */
  method ListAndTakeIn(listing: Request, i: nat, taking: Request, lib: Library, now: int, verify: Tx -> bool,
                       code: Kind -> int, s: Store, view: nat -> Store) returns (sent: seq<Tx>)
    requires Decodes(lib) && listing.root.action == Action.AccountPending && taking.root.action == Action.TransferIn
    requires i < |s.ReceiveBlocks(listing.root.account)| && i < listing.root.count
    requires Legible(s.ReceiveBlocks(listing.root.account)[i].digest, lib)
    ensures |sent| <= 1
    ensures forall t :: t in sent ==>
              t.body == InBody(taking.root.account, ToUint64(taking.root.timestamp),
                               s.ReceiveBlocks(listing.root.account)[i].digest)
  {
    var lister := new RequestHandler(listing, lib, now, verify, code);
    lister.AccountPending(s);
    var rows := lister.response[BlocksField].rows;
    ghost var entry := s.ReceiveBlocks(listing.root.account)[i];
    assert rows[i] == PendingRow(entry);
    var text := Printed(rows[i][Block], lib);
    DigestEcho(entry.digest, lib);
    var taker := new RequestHandler(taking.(txDigest := text), lib, now, verify, code);
    var threw := taker.HandleTransaction(view);
    CompleteOk(Begin(taker.root, now), view, 0, verify);
    sent := taker.sent;
  }
}
