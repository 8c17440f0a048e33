/**
 What the chain holds of an asset in all, in balances and in entries on their way, and how that changes:
 payments move it about, and only the opening of an account adds to it.
 */
module Conservation {
  import opened Ledger
  import opened Runs

  // ---------------------------------------------------------------- sums over finite sets

  ghost function Sum(xs: set<Address>, f: Address -> int): int {
    if xs == {} then 0
    else
      var x :| x in xs;
      f(x) + Sum(xs - {x}, f)
  }

  lemma {:induction false} SumSplit(xs: set<Address>, a: Address, f: Address -> int)
    requires a in xs
    ensures Sum(xs, f) == f(a) + Sum(xs - {a}, f)
    decreases xs
  {
    var x :| x in xs && Sum(xs, f) == f(x) + Sum(xs - {x}, f);
    if x != a {
      SumSplit(xs - {x}, a, f);
      SumSplit(xs - {a}, x, f);
      assert xs - {x} - {a} == xs - {a} - {x};
    }
  }

  lemma {:induction false} SumSame(xs: set<Address>, f: Address -> int, g: Address -> int)
    requires forall x :: x in xs ==> f(x) == g(x)
    ensures Sum(xs, f) == Sum(xs, g)
    decreases xs
  {
    if xs != {} {
      var x :| x in xs && Sum(xs, f) == f(x) + Sum(xs - {x}, f);
      SumSame(xs - {x}, f, g);
      SumSplit(xs, x, g);
    }
  }

  // One value changes, of an old member or a new one that counted nothing.
  lemma SumChanges(xs: set<Address>, ys: set<Address>, a: Address, f: Address -> int, g: Address -> int)
    requires ys == xs + {a} && (forall x :: x in xs && x != a ==> f(x) == g(x)) && (a !in xs ==> f(a) == 0)
    ensures Sum(ys, g) == Sum(xs, f) + g(a) - f(a)
  {
    SumSplit(ys, a, g);
    if a in xs {
      SumSplit(xs, a, f);
      assert ys - {a} == xs - {a};
      SumSame(xs - {a}, f, g);
    } else {
      assert ys - {a} == xs;
      SumSame(xs, f, g);
    }
  }

  // ---------------------------------------------------------------- what there is of an asset

  function Worth(tx: Tx, key: string): int {
    if tx.body.key == key && Amount(tx.body.params).Some? then Amount(tx.body.params).value else 0
  }

  function OnTheWay(blocks: seq<Tx>, key: string): int {
    if blocks == [] then 0 else Worth(blocks[0], key) + OnTheWay(blocks[1..], key)
  }

  lemma {:induction false} OnTheWayConcat(a: seq<Tx>, b: seq<Tx>, key: string)
    ensures OnTheWay(a + b, key) == OnTheWay(a, key) + OnTheWay(b, key)
    decreases |a|
  {
    if a == [] {
      assert a + b == b;
    } else {
      assert (a + b)[1..] == a[1..] + b;
      OnTheWayConcat(a[1..], b, key);
    }
  }

  lemma OnTheWayWithout(blocks: seq<Tx>, k: nat, key: string)
    requires k < |blocks|
    ensures OnTheWay(blocks[..k] + blocks[k + 1..], key) == OnTheWay(blocks, key) - Worth(blocks[k], key)
  {
    assert blocks == blocks[..k] + ([blocks[k]] + blocks[k + 1..]);
    OnTheWayConcat(blocks[..k], [blocks[k]] + blocks[k + 1..], key);
    OnTheWayConcat(blocks[..k], blocks[k + 1..], key);
    assert ([blocks[k]] + blocks[k + 1..])[1..] == blocks[k + 1..];
  }

  function Holding(s: Store, key: string): Address -> int {
    a => s.Balance(a, key)
  }

  function Coming(s: Store, key: string): Address -> int {
    a => OnTheWay(s.ReceiveBlocks(a), key)
  }

  ghost function Total(s: Store, key: string): int {
    Sum(s.accounts.Keys, Holding(s, key)) + Sum(s.receive.Keys, Coming(s, key))
  }

  // What a settlement brings into being.
  function Created(tx: Tx, key: string): int {
    if tx.body.kind == CreateAccount then Worth(tx, key) else 0
  }

  // What a settlement adds to the sender's balance.
  function Gained(s: Store, tx: Tx, key: string): int {
    match tx.body.kind
    case TransferAssetOut => -Worth(tx, key)
    case TransferAssetIn => Taken(s, tx, key)
    case CreateAccount => Worth(tx, key)
    case _ => 0
  }

  // What the entry that a transfer in names is worth.
  function Taken(s: Store, tx: Tx, key: string): int {
    match tx.body.params
    case Text(_) => 0
    case Ref(digest) =>
      var blocks := s.ReceiveBlocks(tx.body.sender);
      var k := Find(blocks, digest);
      if k < |blocks| then Worth(blocks[k], key) else 0
  }

  lemma BalanceGains(s: Store, tx: Tx, key: string)
    requires CanSettle(s, tx)
    ensures Settle(s, tx).Balance(tx.body.sender, key) == s.Balance(tx.body.sender, key) + Gained(s, tx, key)
  {
  }

  lemma HoldingsChange(s: Store, tx: Tx, key: string)
    requires CanSettle(s, tx)
    ensures
      var s' := Settle(s, tx);
      Sum(s'.accounts.Keys, Holding(s', key)) == Sum(s.accounts.Keys, Holding(s, key)) + Gained(s, tx, key)
  {
    var a, s' := tx.body.sender, Settle(s, tx);
    BalanceGains(s, tx, key);
    assert s'.accounts.Keys == s.accounts.Keys + {a};
    SumChanges(s.accounts.Keys, s'.accounts.Keys, a, Holding(s, key), Holding(s', key));
  }

  lemma PaymentArrives(s: Store, tx: Tx, key: string)
    requires CanSettle(s, tx) && tx.body.kind == TransferAssetOut
    ensures
      var s' := Settle(s, tx);
      Sum(s'.receive.Keys, Coming(s', key)) == Sum(s.receive.Keys, Coming(s, key)) + Worth(tx, key)
  {
    var b, s' := tx.body.receiver, Settle(s, tx);
    assert s'.receive.Keys == s.receive.Keys + {b};
    assert s'.ReceiveBlocks(b)[1..] == s.ReceiveBlocks(b);
    SumChanges(s.receive.Keys, s'.receive.Keys, b, Coming(s, key), Coming(s', key));
  }

  lemma EntryLeaves(s: Store, tx: Tx, key: string)
    requires CanSettle(s, tx) && tx.body.kind == TransferAssetIn
    ensures
      var s' := Settle(s, tx);
      Sum(s'.receive.Keys, Coming(s', key)) == Sum(s.receive.Keys, Coming(s, key)) - Taken(s, tx, key)
  {
    var a, s' := tx.body.sender, Settle(s, tx);
    var blocks := s.ReceiveBlocks(a);
    assert s'.receive.Keys == s.receive.Keys + {a};
    var k := Find(blocks, tx.body.params.digest);
    assert s'.ReceiveBlocks(a) == blocks[..k] + blocks[k + 1..];
    OnTheWayWithout(blocks, k, key);
    assert Coming(s', key)(a) == Coming(s, key)(a) - Taken(s, tx, key);
    SumChanges(s.receive.Keys, s'.receive.Keys, a, Coming(s, key), Coming(s', key));
  }

  lemma NothingMoves(s: Store, tx: Tx, key: string)
    requires CanSettle(s, tx) && tx.body.kind !in {TransferAssetOut, TransferAssetIn}
    ensures
      var s' := Settle(s, tx);
      Sum(s'.receive.Keys, Coming(s', key)) == Sum(s.receive.Keys, Coming(s, key))
  {
    SumSame(s.receive.Keys, Coming(s, key), Coming(Settle(s, tx), key));
  }

  /** Settling a payment or a property write moves what there is; only opening an account adds to it. */
  lemma SettleConserves(s: Store, tx: Tx, key: string)
    requires CanSettle(s, tx)
    ensures Total(Settle(s, tx), key) == Total(s, key) + Created(tx, key)
  {
    HoldingsChange(s, tx, key);
    match tx.body.kind
    case TransferAssetOut => PaymentArrives(s, tx, key);
    case TransferAssetIn => EntryLeaves(s, tx, key);
    case _ => NothingMoves(s, tx, key);
  }

  function CreatedIn(log: seq<Settlement>, key: string): int {
    if log == [] then 0 else CreatedIn(log[..|log| - 1], key) + Created(log[|log| - 1].proposal.tx, key)
  }

  lemma {:induction false} RunConserves(w: World, steps: seq<Step>, key: string, verify: Tx -> bool)
    requires Exec(w, steps, verify).Some?
    ensures
      var r := Exec(w, steps, verify).value;
      Total(r.store, key) - CreatedIn(r.log, key) == Total(w.store, key) - CreatedIn(w.log, key)
    decreases |steps|
  {
    if steps != [] {
      if steps[0].Commit? {
        SettleConserves(w.store, steps[0].proposal.tx, key);
        var e := Settlement(steps[0].proposal, w.store);
        assert (w.log + [e])[..|w.log|] == w.log;
      }
      RunConserves(Apply(w, steps[0], verify), steps[1..], key, verify);
    }
  }

  /** In every run, of every asset, what there is at the end is what there was at the start and what the
      accounts opened meanwhile were opened with: no payment creates or loses any, overdrawn or not. */
  lemma AssetsConserved(w: World, steps: seq<Step>, key: string, verify: Tx -> bool)
    requires Init(w) && Exec(w, steps, verify).Some?
    ensures
      var r := Exec(w, steps, verify).value;
      Total(r.store, key) == Total(w.store, key) + CreatedIn(r.log, key)
  {
    RunConserves(w, steps, key, verify);
  }
}
