/**
 Reading a history page by page while transfers settle: each page is a request of its own, and the list,
 newest first, has grown at the front since the one before.
 */
module Paging {
  import opened Options
  import opened Ledger
  import opened Queries

  predicate EndsWith<T(==)>(xs: seq<T>, tail: seq<T>) {
    |tail| <= |xs| && xs[|xs| - |tail|..] == tail
  }

  // Each list ends with the one before.
  predicate Growing<T(==)>(lists: seq<seq<T>>) {
    forall j :: 0 < j < |lists| ==> EndsWith(lists[j], lists[j - 1])
  }

  lemma {:induction false} GrowingFrom<T>(lists: seq<seq<T>>, i: nat, j: nat)
    requires Growing(lists) && i <= j < |lists|
    ensures EndsWith(lists[j], lists[i])
    decreases j - i
  {
    if i < j {
      GrowingFrom(lists, i, j - 1);
      var b, c := lists[j - 1], lists[j];
      assert c[|c| - |lists[i]|..] == c[|c| - |b|..][|b| - |lists[i]|..];
    }
  }

  // How many items have come in before page j is read, and where item i of the first list then stands.
  function Shift<T>(lists: seq<seq<T>>, j: nat): int
    requires j < |lists|
  {
    |lists[j]| - |lists[0]|
  }

  // Item i of the first list is on page j, read from list j.
  predicate Shown<T>(lists: seq<seq<T>>, i: nat, j: nat, perPage: int)
    requires j < |lists|
  {
    j * perPage <= i + Shift(lists, j) < (j + 1) * perPage
  }

  lemma ShownMeans<T>(lists: seq<seq<T>>, i: nat, j: nat, perPage: int)
    requires Growing(lists) && j < |lists| && i < |lists[0]| && perPage >= 1 && Shown(lists, i, j, perPage)
    ensures
      var page, k := Page(lists[j], j, perPage), i + Shift(lists, j) - j * perPage;
      0 <= k < |page| && page[k] == lists[0][i]
  {
    GrowingFrom(lists, 0, j);
    var xs, at := lists[j], i + Shift(lists, j);
    assert xs[at] == xs[|xs| - |lists[0]|..][i];
    WindowAt(xs, j * perPage, (j + 1) * perPage, at);
  }

  lemma WindowAt<T>(xs: seq<T>, lo: int, hi: int, at: nat)
    requires 0 <= lo <= at < hi && at < |xs|
    ensures at - lo < |Window(xs, lo, hi)| && Window(xs, lo, hi)[at - lo] == xs[at]
  {
  }

  lemma ShiftsGrow<T>(lists: seq<seq<T>>, j: nat)
    requires Growing(lists) && 0 < j < |lists|
    ensures Shift(lists, j - 1) <= Shift(lists, j)
  {
  }

  lemma {:induction false} FirstShown<T>(lists: seq<seq<T>>, i: nat, n: nat, perPage: int) returns (j: nat)
    requires Growing(lists) && n < |lists| && perPage >= 1
    requires i + Shift(lists, n) < (n + 1) * perPage
    ensures j <= n && Shown(lists, i, j, perPage)
  {
    if n == 0 {
      j := 0;
    } else if i + Shift(lists, n - 1) < n * perPage {
      j := FirstShown(lists, i, n - 1, perPage);
    } else {
      ShiftsGrow(lists, n);
      j := n;
    }
  }

  /** No item of the first list is missed: by the time the pages cover the last list, each has been shown. */
  lemma NothingMissed<T>(lists: seq<seq<T>>, i: nat, perPage: int) returns (j: nat)
    requires Growing(lists) && lists != [] && i < |lists[0]| && perPage >= 1
    requires |lists[|lists| - 1]| <= |lists| * perPage
    ensures j < |lists| && Shown(lists, i, j, perPage)
  {
    j := FirstShown(lists, i, |lists| - 1, perPage);
  }

  lemma OnSomePage<T>(lists: seq<seq<T>>, i: nat, perPage: int) returns (j: nat, k: nat)
    requires Growing(lists) && lists != [] && i < |lists[0]| && perPage >= 1
    requires |lists[|lists| - 1]| <= |lists| * perPage
    ensures j < |lists| && k < |Page(lists[j], j, perPage)| && Page(lists[j], j, perPage)[k] == lists[0][i]
  {
    j := NothingMissed(lists, i, perPage);
    ShownMeans(lists, i, j, perPage);
    k := i + Shift(lists, j) - j * perPage;
  }

  /** An item q places down one page is shown again on the next exactly when the k items that have come in
      between push it over the page's end and no further than the next page's: p - q <= k < 2p - q. */
  lemma RepeatedIff<T>(lists: seq<seq<T>>, i: nat, j: nat, perPage: int)
    requires Growing(lists) && j + 1 < |lists| && perPage >= 1 && Shown(lists, i, j, perPage)
    ensures
      var q, k := i + Shift(lists, j) - j * perPage, Shift(lists, j + 1) - Shift(lists, j);
      Shown(lists, i, j + 1, perPage) <==> perPage - q <= k < 2 * perPage - q
  {
    NextBounds(j, perPage);
  }

  lemma NextBounds(j: nat, perPage: int)
    ensures (j + 1) * perPage == j * perPage + perPage && (j + 2) * perPage == j * perPage + 2 * perPage
  {
  }

  // ---------------------------------------------------------------- the history of an account

  ghost predicate Later(s: Store, s': Store) {
    exists txs :: SettleAll(s, txs) == Some(s')
  }

  lemma {:induction false} SettledGrows(s: Store, txs: seq<Tx>, a: Address)
    requires SettleAll(s, txs).Some?
    ensures EndsWith(Transfers(SettleAll(s, txs).value.SettleBlocks(a)), Transfers(s.SettleBlocks(a)))
    decreases |txs|
  {
    if txs != [] {
      var s1, s' := Settle(s, txs[0]), SettleAll(s, txs).value;
      SettledGrows(s1, txs[1..], a);
      SettleLists(s, txs[0], a);
      TransfersConcat([txs[0]], s.SettleBlocks(a));
      EndsWithTwice(Transfers(s'.SettleBlocks(a)), Transfers(s1.SettleBlocks(a)), Transfers(s.SettleBlocks(a)));
    }
  }

  lemma EndsWithTwice<T>(xs: seq<T>, ys: seq<T>, zs: seq<T>)
    requires EndsWith(xs, ys) && EndsWith(ys, zs)
    ensures EndsWith(xs, zs)
  {
    assert xs[|xs| - |zs|..] == xs[|xs| - |ys|..][|ys| - |zs|..];
  }

  // The transfers each page request finds, the j-th reading the store `view(j)`.
  function Histories(view: nat -> Store, a: Address, n: nat): (lists: seq<seq<Tx>>)
    ensures |lists| == n
  {
    seq(n, j requires 0 <= j < n => Transfers(view(j).SettleBlocks(a)))
  }

  lemma HistoriesGrow(view: nat -> Store, a: Address, n: nat)
    requires forall j :: 0 < j < n ==> Later(view(j - 1), view(j))
    ensures Growing(Histories(view, a, n))
  {
    var lists := Histories(view, a, n);
    forall j | 0 < j < n ensures EndsWith(lists[j], lists[j - 1]) {
      assert Later(view(j - 1), view(j));
      var txs :| SettleAll(view(j - 1), txs) == Some(view(j));
      SettledGrows(view(j - 1), txs, a);
    }
  }

  // The rows of page j, each request with a row and a memo of its own.
  function PageRows(view: nat -> Store, a: Address, j: nat, perPage: int, tags: nat -> Address -> string,
                    code: Kind -> int): seq<Row>
  {
    ReusedRows(map[], Page(Transfers(view(j).SettleBlocks(a)), j, perPage), tags(j), code)
  }

  /** Whatever settles between the page requests: once the pages cover the list, every transfer the first
      request found has had its row on one of them. */
  lemma HistoryNothingMissed(view: nat -> Store, a: Address, n: nat, i: nat, perPage: int,
                             tags: nat -> Address -> string, code: Kind -> int) returns (j: nat)
    requires forall j :: 0 < j < n ==> Later(view(j - 1), view(j))
    requires n >= 1 && perPage >= 1 && |Transfers(view(n - 1).SettleBlocks(a))| <= n * perPage
    requires i < |Transfers(view(0).SettleBlocks(a))| && LiteralsFit(code)
    ensures j < n
    ensures
      var tx := Transfers(view(0).SettleBlocks(a))[i];
      HistoryRow(tx, tags(j), code) in PageRows(view, a, j, perPage, tags, code)
  {
    var lists := Histories(view, a, n);
    HistoriesGrow(view, a, n);
    var k;
    j, k := OnSomePage(lists, i, perPage);
    RowIn(view(j).SettleBlocks(a), j, perPage, k, tags(j), code);
  }

  lemma RowIn(blocks: seq<Tx>, j: nat, perPage: int, k: nat, tags: Address -> string, code: Kind -> int)
    requires LiteralsFit(code) && k < |Page(Transfers(blocks), j, perPage)|
    ensures
      var page := Page(Transfers(blocks), j, perPage);
      HistoryRow(page[k], tags, code) in ReusedRows(map[], page, tags, code)
  {
    var page := Page(Transfers(blocks), j, perPage);
    ReusedRowsFit(map[], page, tags, code);
    assert HistoryRows(page, tags, code)[k] == HistoryRow(page[k], tags, code);
  }
}
