/**
 What the listing queries answer, as functions of one store: rows, pages and the give flag.
 Numbers and digests that the server renders as text are kept as values.
 */
module Queries {
  import opened Ledger
  import opened Admission

  datatype Field =
    | ResultField | ErrCodeField | ReasonField | BalanceField | SequenceField | LastHashField | CreateTimeField
    | PropertyValueField | GiveField
    | BlocksField | CountField
    | TransactionType | Source | Destination | Sender | Receiver | PropertyKey | AmountField | Block
    | SourceTag | DestinationTag | TxDigest | LastDigest | Timestamp | RpcTime

  datatype Json =
    | Num(n: int) | Str(s: string) | Addr(a: Address) | Dig(d: Digest) | Par(p: Params) | Err(e: ErrCode)
    | Rows(rows: seq<Row>)

  // A JSON object: its members in no particular order.
  type Row = map<Field, Json>

  const TAG_NAME := "@name"

  // ---------------------------------------------------------------- pages

  /** The elements of xs whose position lies in [count * perPage, (count + 1) * perPage). */
  function Page<T>(xs: seq<T>, count: int, perPage: int): seq<T> {
    Window(xs, count * perPage, (count + 1) * perPage)
  }

  function Window<T>(xs: seq<T>, lo: int, hi: int): (ys: seq<T>)
    ensures |ys| <= |xs|
  {
    var from := if lo < 0 then 0 else if lo > |xs| then |xs| else lo;
    var to := if hi > |xs| then |xs| else hi;
    if from <= to then xs[from..to] else []
  }

  lemma WindowNext<T>(xs: seq<T>, lo: int, hi: int, n: nat)
    requires n < |xs|
    ensures Window(xs[..n + 1], lo, hi) ==
            Window(xs[..n], lo, hi) + if lo <= n < hi then [xs[n]] else []
  {
    var from := if lo < 0 then 0 else lo;
    if from <= n {
      assert xs[..n + 1][from..n + 1] == xs[..n][from..n] + [xs[n]];
      if from <= hi <= n {
        assert xs[..n + 1][from..hi] == xs[..n][from..hi];
      }
    }
  }

  function Pages<T>(xs: seq<T>, n: nat, perPage: int): seq<T> {
    if n == 0 then [] else Pages(xs, n - 1, perPage) + Page(xs, n - 1, perPage)
  }

  lemma {:induction false} PagesPrefix<T>(xs: seq<T>, n: nat, perPage: int)
    requires perPage >= 1
    ensures Pages(xs, n, perPage) == xs[..if n * perPage < |xs| then n * perPage else |xs|]
  {
    if n > 0 {
      PagesPrefix(xs, n - 1, perPage);
      assert n * perPage == (n - 1) * perPage + perPage;
      assert 0 <= (n - 1) * perPage;
    }
  }

  /** Reading pages 0, 1, 2, ... until the list is covered gives the whole list, in order, and the
      item at position i is on page i / perPage and on no other. */
  lemma PagesPartition<T>(xs: seq<T>, n: nat, perPage: int)
    requires perPage >= 1 && |xs| <= n * perPage
    ensures Pages(xs, n, perPage) == xs
    ensures forall i, c: int :: 0 <= i < |xs| ==> (c * perPage <= i < (c + 1) * perPage <==> c == i / perPage)
    ensures forall i :: 0 <= i < |xs| ==> 0 <= i / perPage < n
  {
    PagesPrefix(xs, n, perPage);
    forall i, c: int | 0 <= i < |xs|
      ensures c * perPage <= i < (c + 1) * perPage <==> c == i / perPage
    {
      PageOf(i, c, perPage);
    }
    forall i | 0 <= i < |xs| ensures 0 <= i / perPage < n {
      PageInRange(i, n, perPage);
    }
  }

  lemma PageInRange(i: nat, n: nat, perPage: int)
    requires perPage >= 1 && i < n * perPage
    ensures 0 <= i / perPage < n
  {
    PageOf(i, i / perPage, perPage);
    Below(i / perPage, n, perPage);
  }

  lemma PageOf(i: nat, c: int, perPage: int)
    requires perPage >= 1
    ensures c * perPage <= i < (c + 1) * perPage <==> c == i / perPage
  {
    var q := i / perPage;
    assert i == q * perPage + i % perPage;
    if c < q { Scaled(c + 1, q, perPage); }
    if c > q { Scaled(q + 1, c, perPage); }
  }

  lemma Below(a: int, b: int, perPage: int)
    requires perPage >= 1 && a * perPage < b * perPage
    ensures a < b
  {
    if a >= b { Scaled(b, a, perPage); }
  }

  lemma Scaled(a: int, b: int, perPage: int)
    requires perPage >= 1 && a <= b
    ensures a * perPage <= b * perPage
  {
    assert (b - a) * perPage >= 0;
  }

  // ---------------------------------------------------------------- account_history

  predicate IsTransfer(tx: Tx) {
    tx.body.kind == TransferAssetIn || tx.body.kind == TransferAssetOut
  }

  function Transfers(blocks: seq<Tx>): (r: seq<Tx>)
    ensures forall tx :: tx in r <==> tx in blocks && IsTransfer(tx)
  {
    if blocks == [] then []
    else Transfers(blocks[..|blocks| - 1]) + if IsTransfer(blocks[|blocks| - 1]) then [blocks[|blocks| - 1]] else []
  }

  lemma {:induction false} TransfersConcat(a: seq<Tx>, b: seq<Tx>)
    ensures Transfers(a + b) == Transfers(a) + Transfers(b)
  {
    if b == [] {
      assert a + b == a;
    } else {
      assert (a + b)[..|a + b| - 1] == a + b[..|b| - 1];
      TransfersConcat(a, b[..|b| - 1]);
    }
  }

  // The account's name tag, empty where the account or the tag is missing.
  function Tag(s: Store, a: Address): string {
    var tag := s.Property(a, TAG_NAME);
    if tag.Some? then tag.value else ""
  }

  // What a memo of tags says; the addresses it is asked for are in it.
  function TagOf(memo: map<Address, string>): Address -> string {
    a => if a in memo then memo[a] else ""
  }

  function AssetKey(tx: Tx): string {
    if tx.body.key == "" then NATIVE_ASSET else tx.body.key
  }

  // The row as it stands before the tags are looked up, built over whatever the row held before.
  // `code` gives the numbers of the transaction types, two of which the code spells out as 0 and 1.
  function Filled(row: Row, tx: Tx, code: Kind -> int): Row {
    var base := row[TransactionType := Num(code(tx.body.kind))][Source := Addr(tx.body.sender)]
                   [Destination := Addr(tx.body.receiver)][PropertyKey := Str(AssetKey(tx))];
    if code(tx.body.kind) == 1 || code(tx.body.kind) == 0 then base[AmountField := Par(tx.body.params)]
    else if tx.body.kind == TransferAssetIn then
      base[AmountField := Str(tx.originAmount)][Source := Addr(tx.originSender)]
    else base
  }

  function Tagged(row: Row, tags: Address -> string): Row
    requires Source in row && row[Source].Addr? && Destination in row && row[Destination].Addr?
  {
    row[SourceTag := Str(tags(row[Source].a))][DestinationTag := Str(tags(row[Destination].a))]
  }

  function Stamped(row: Row, tx: Tx): Row {
    row[TxDigest := Dig(tx.digest)][LastDigest := Dig(tx.prev)][RpcTime := Num(tx.edgeTime)]
  }

  // One pass of the loop over the reused row.
  function NextRow(row: Row, tx: Tx, tags: Address -> string, code: Kind -> int): Row {
    Stamped(Tagged(Filled(row, tx, code), tags), tx)
  }

  // What a loop over xs leaves behind when each pass starts from the last one's result.
  function Scan<R, T>(row: R, xs: seq<T>, next: (R, T) -> R): (rows: seq<R>)
    ensures |rows| == |xs|
  {
    if xs == [] then []
    else
      var init := Scan(row, xs[..|xs| - 1], next);
      init + [next(if init == [] then row else init[|init| - 1], xs[|xs| - 1])]
  }

  // The rows that reuse produces, starting from `row`.
  function ReusedRows(row: Row, txs: seq<Tx>, tags: Address -> string, code: Kind -> int): (rows: seq<Row>)
    ensures |rows| == |txs|
  {
    Scan(row, txs, (r, tx) => NextRow(r, tx, tags, code))
  }

  /** Where a pass overwrites everything it finds, the loop is a map. */
  lemma {:induction false} ScanIsMap<R, T>(row: R, xs: seq<T>, next: (R, T) -> R, pure: T -> R)
    requires forall i :: 0 <= i < |xs| ==> next(row, xs[i]) == pure(xs[i])
    requires forall i, j :: 0 <= i < |xs| && 0 <= j < |xs| ==> next(pure(xs[i]), xs[j]) == pure(xs[j])
    ensures forall i :: 0 <= i < |xs| ==> Scan(row, xs, next)[i] == pure(xs[i])
  {
    if xs != [] {
      var n := |xs| - 1;
      assert forall i :: 0 <= i < n ==> xs[..n][i] == xs[i];
      ScanIsMap(row, xs[..n], next, pure);
      var init := Scan(row, xs[..n], next);
      forall i | 0 <= i < |xs| ensures Scan(row, xs, next)[i] == pure(xs[i]) {
        if i < n {
          assert init[i] == pure(xs[..n][i]);
        } else if n > 0 {
          assert init[n - 1] == pure(xs[..n][n - 1]) == pure(xs[n - 1]);
        }
      }
    }
  }

  // A transfer_in is shown with the counterparty and the amount that its own request named.
  function HistorySource(tx: Tx): Address {
    if tx.body.kind == TransferAssetIn then tx.originSender else tx.body.sender
  }

  function HistoryAmount(tx: Tx): Json {
    if tx.body.kind == TransferAssetIn then Str(tx.originAmount) else Par(tx.body.params)
  }

  /** The row that describes one transfer, and nothing else. */
  function HistoryRow(tx: Tx, tags: Address -> string, code: Kind -> int): Row {
    map[TransactionType := Num(code(tx.body.kind)),
        Source := Addr(HistorySource(tx)), SourceTag := Str(tags(HistorySource(tx))),
        Destination := Addr(tx.body.receiver), DestinationTag := Str(tags(tx.body.receiver)),
        PropertyKey := Str(AssetKey(tx)), AmountField := HistoryAmount(tx),
        TxDigest := Dig(tx.digest), LastDigest := Dig(tx.prev), RpcTime := Num(tx.edgeTime)]
  }

  function HistoryRows(txs: seq<Tx>, tags: Address -> string, code: Kind -> int): seq<Row> {
    seq(|txs|, i requires 0 <= i < |txs| => HistoryRow(txs[i], tags, code))
  }

  // The numbering the literals 0 and 1 presuppose.
  predicate LiteralsFit(code: Kind -> int) {
    code(TransferAssetOut) in {0, 1} && code(TransferAssetIn) !in {0, 1}
  }

  predicate RowFields(row: Row) {
    row.Keys <= {TransactionType, Source, SourceTag, Destination, DestinationTag, PropertyKey, AmountField,
                 TxDigest, LastDigest, RpcTime}
  }

  lemma NextRowFits(row: Row, tx: Tx, tags: Address -> string, code: Kind -> int)
    requires LiteralsFit(code) && IsTransfer(tx) && RowFields(row)
    ensures NextRow(row, tx, tags, code) == HistoryRow(tx, tags, code)
  {
    var a, b := NextRow(row, tx, tags, code), HistoryRow(tx, tags, code);
    assert a.Keys == b.Keys;
    forall f | f in b ensures a[f] == b[f] {
    }
  }

  lemma HistoryRowFields(tx: Tx, tags: Address -> string, code: Kind -> int)
    ensures RowFields(HistoryRow(tx, tags, code))
  {
  }

  lemma ReusedRowsFit(row: Row, txs: seq<Tx>, tags: Address -> string, code: Kind -> int)
    requires LiteralsFit(code) && RowFields(row) && forall tx :: tx in txs ==> IsTransfer(tx)
    ensures ReusedRows(row, txs, tags, code) == HistoryRows(txs, tags, code)
  {
    var next := (r, tx) => NextRow(r, tx, tags, code);
    var pure := tx => HistoryRow(tx, tags, code);
    forall i | 0 <= i < |txs| ensures next(row, txs[i]) == pure(txs[i]) {
      NextRowFits(row, txs[i], tags, code);
    }
    forall i, j | 0 <= i < |txs| && 0 <= j < |txs| ensures next(pure(txs[i]), txs[j]) == pure(txs[j]) {
      HistoryRowFields(txs[i], tags, code);
      NextRowFits(pure(txs[i]), txs[j], tags, code);
    }
    ScanIsMap(row, txs, next, pure);
  }

  // The rows of pages 0 to n - 1, each listed by a request of its own with a fresh row and memo.
  function ListedPages(pages: nat -> seq<Tx>, n: nat, tags: nat -> Address -> string, code: Kind -> int): seq<Row> {
    if n == 0 then []
    else ListedPages(pages, n - 1, tags, code) + ReusedRows(map[], pages(n - 1), tags(n - 1), code)
  }

  // The first m elements are those of the pure sequence.
  predicate Agrees<R(==)>(rows: seq<R>, m: int, pure: nat -> R) {
    |rows| == m && forall i :: 0 <= i < |rows| ==> rows[i] == pure(i)
  }

  // The elements from m on are those of the pure sequence.
  predicate Continues<R(==)>(more: seq<R>, m: nat, pure: nat -> R) {
    forall k :: 0 <= k < |more| ==> more[k] == pure(m + k)
  }

  lemma AgreesAppend<R>(rows: seq<R>, more: seq<R>, m: nat, n: int, pure: nat -> R)
    requires Agrees(rows, m, pure) && Continues(more, m, pure) && n == m + |more|
    ensures Agrees(rows + more, n, pure)
  {
    var all := rows + more;
    forall i | 0 <= i < |all| ensures all[i] == pure(i) {
      if i >= m { assert more[i - m] == pure(m + (i - m)); }
    }
  }

  // The row of the i-th transfer, with the tags at(i).
  function RowAt(txs: seq<Tx>, at: nat -> Address -> string, code: Kind -> int): nat -> Row {
    (i: nat) => if i < |txs| then HistoryRow(txs[i], at(i), code) else map[]
  }

  // The tags at a position are those of its page.
  function OfPage(tags: nat -> Address -> string, perPage: int): nat -> Address -> string
    requires perPage >= 1
  {
    (i: nat) => tags(PageNumber(i, perPage))
  }

  // The page position i is on.
  function PageNumber(i: nat, perPage: int): (c: nat)
    requires perPage >= 1
  {
    PageNumberAtLeastZero(i, perPage);
    i / perPage
  }

  lemma PageNumberAtLeastZero(i: nat, perPage: int)
    requires perPage >= 1
    ensures 0 <= i / perPage
  {
  }

  function AtMost(m: int, n: int): int {
    if m < n then m else n
  }

  // Page c spans the positions from bound(c) to bound(c + 1), all with the tags of its request.
  ghost predicate Spans(txs: seq<Tx>, pages: nat -> seq<Tx>, c: nat, bound: nat -> int,
                        at: nat -> Address -> string, tags: nat -> Address -> string)
  {
    && 0 <= bound(c) <= bound(c + 1) && pages(c) == Window(txs, bound(c), bound(c + 1))
    && forall i :: bound(c) <= i < bound(c + 1) ==> at(i) == tags(c)
  }

  lemma {:induction false} ListedPagesFit(txs: seq<Tx>, pages: nat -> seq<Tx>, n: nat, bound: nat -> int,
                                          at: nat -> Address -> string, tags: nat -> Address -> string,
                                          code: Kind -> int)
    requires LiteralsFit(code) && forall tx :: tx in txs ==> IsTransfer(tx)
    requires bound(0) == 0 && forall c :: 0 <= c < n ==> Spans(txs, pages, c, bound, at, tags)
    ensures Agrees(ListedPages(pages, n, tags, code), AtMost(bound(n), |txs|), RowAt(txs, at, code))
  {
    if n > 0 {
      ListedPagesFit(txs, pages, n - 1, bound, at, tags, code);
      assert Spans(txs, pages, n - 1, bound, at, tags);
      NextPage(ListedPages(pages, n - 1, tags, code), txs, pages(n - 1), bound(n - 1), bound(n), at, tags(n - 1), code);
    }
  }

  lemma NextPage(rows: seq<Row>, txs: seq<Tx>, page: seq<Tx>, lo: int, hi: int, at: nat -> Address -> string,
                 tags: Address -> string, code: Kind -> int)
    requires LiteralsFit(code) && forall tx :: tx in txs ==> IsTransfer(tx)
    requires 0 <= lo <= hi && page == Window(txs, lo, hi) && forall i :: lo <= i < hi ==> at(i) == tags
    requires Agrees(rows, AtMost(lo, |txs|), RowAt(txs, at, code))
    ensures Agrees(rows + ReusedRows(map[], page, tags, code), AtMost(hi, |txs|), RowAt(txs, at, code))
  {
    RowsOfPage(txs, page, lo, hi, at, tags, code);
    AgreesAppend(rows, ReusedRows(map[], page, tags, code), AtMost(lo, |txs|), AtMost(hi, |txs|),
                 RowAt(txs, at, code));
  }

  lemma RowsOfPage(txs: seq<Tx>, page: seq<Tx>, lo: int, hi: int, at: nat -> Address -> string,
                   tags: Address -> string, code: Kind -> int)
    requires LiteralsFit(code) && forall tx :: tx in txs ==> IsTransfer(tx)
    requires 0 <= lo <= hi && page == Window(txs, lo, hi) && forall i :: lo <= i < hi ==> at(i) == tags
    ensures AtMost(lo, |txs|) + |ReusedRows(map[], page, tags, code)| == AtMost(hi, |txs|)
    ensures Continues(ReusedRows(map[], page, tags, code), AtMost(lo, |txs|), RowAt(txs, at, code))
  {
    ReusedRowsFit(map[], page, tags, code);
    forall k | 0 <= k < |page|
      ensures HistoryRows(page, tags, code)[k] == RowAt(txs, at, code)(AtMost(lo, |txs|) + k)
    {
      assert page[k] == txs[lo + k] && at(lo + k) == tags;
    }
  }

  /** While the list stands still, paging through it until it is covered shows one row for every transfer, in
      order, with the tags that the request for its page found. */
  lemma HistoryPages(txs: seq<Tx>, n: nat, perPage: int, tags: nat -> Address -> string, code: Kind -> int)
    requires perPage >= 1 && |txs| <= n * perPage
    requires LiteralsFit(code) && forall tx :: tx in txs ==> IsTransfer(tx)
    ensures Agrees(ListedPages((c: nat) => Page(txs, c, perPage), n, tags, code), |txs|,
                   RowAt(txs, OfPage(tags, perPage), code))
  {
    var pages, bound := (c: nat) => Page(txs, c, perPage), (c: nat) => Upto(c, perPage);
    forall c | 0 <= c < n ensures Spans(txs, pages, c, bound, OfPage(tags, perPage), tags) {
      PageSpans(txs, c, perPage, tags);
    }
    UptoIs(n, perPage);
    ListedPagesFit(txs, pages, n, bound, OfPage(tags, perPage), tags, code);
  }

  // Where page n begins.
  function Upto(n: nat, perPage: int): int {
    if n == 0 then 0 else Upto(n - 1, perPage) + perPage
  }

  lemma {:induction false} UptoIs(n: nat, perPage: int)
    ensures Upto(n, perPage) == n * perPage
  {
    if n > 0 {
      UptoIs(n - 1, perPage);
      assert n * perPage == (n - 1) * perPage + perPage;
    }
  }

  lemma PageSpans(txs: seq<Tx>, c: nat, perPage: int, tags: nat -> Address -> string)
    requires perPage >= 1
    ensures
      var lo, hi := Upto(c, perPage), Upto(c + 1, perPage);
      && 0 <= lo <= hi && Page(txs, c, perPage) == Window(txs, lo, hi)
      && forall i :: lo <= i < hi ==> OfPage(tags, perPage)(i) == tags(c)
  {
    var lo, hi := Upto(c, perPage), Upto(c + 1, perPage);
    UptoIs(c, perPage);
    UptoIs(c + 1, perPage);
    Scaled(0, c, perPage);
    forall i | lo <= i < hi ensures PageNumber(i, perPage) == c { PageOf(i, c, perPage); }
  }

  ghost predicate NoLeak(code: Kind -> int) {
    forall txs: seq<Tx>, tags: Address -> string :: (forall tx :: tx in txs ==> IsTransfer(tx)) ==>
      ReusedRows(map[], txs, tags, code) == HistoryRows(txs, tags, code)
  }

  function Sample(kind: Kind): Tx {
    BLANK_TX.(body := BLANK_TX.body.(kind := kind))
  }

  /** Reusing one row shows every transfer with what its transaction records, and never with a stale or a
      missing amount, exactly when the literals 0 and 1 cover transfer_out and do not cover transfer_in. */
  lemma NoLeakIff(code: Kind -> int)
    ensures NoLeak(code) <==> LiteralsFit(code)
  {
    var tags := (a: Address) => "";
    if LiteralsFit(code) {
      forall txs: seq<Tx>, tags: Address -> string | forall tx :: tx in txs ==> IsTransfer(tx)
        ensures ReusedRows(map[], txs, tags, code) == HistoryRows(txs, tags, code)
      {
        ReusedRowsFit(map[], txs, tags, code);
      }
    } else {
      var kind := if code(TransferAssetOut) in {0, 1} then TransferAssetIn else TransferAssetOut;
      var tx := Sample(kind);
      var rows := ReusedRows(map[], [tx], tags, code);
      assert rows == [NextRow(map[], tx, tags, code)] by { assert [tx][..0] == []; }
      assert NextRow(map[], tx, tags, code) != HistoryRow(tx, tags, code) by {
        if kind == TransferAssetOut {
          assert AmountField !in NextRow(map[], tx, tags, code);
        } else {
          assert NextRow(map[], tx, tags, code)[AmountField] == Par(tx.body.params);
        }
      }
      assert HistoryRows([tx], tags, code)[0] == HistoryRow(tx, tags, code);
    }
  }

  // The addresses a listing shows.
  function RowAddresses(row: Row): set<Address> {
    (if Source in row && row[Source].Addr? then {row[Source].a} else {}) +
    (if Destination in row && row[Destination].Addr? then {row[Destination].a} else {})
  }

  function Addresses(rows: seq<Row>): set<Address> {
    if rows == [] then {} else Addresses(rows[..|rows| - 1]) + RowAddresses(rows[|rows| - 1])
  }

  lemma NextRowSame(row: Row, tx: Tx, tags: Address -> string, tags': Address -> string, code: Kind -> int)
    requires forall a :: a in RowAddresses(NextRow(row, tx, tags, code)) ==> tags(a) == tags'(a)
    ensures NextRow(row, tx, tags', code) == NextRow(row, tx, tags, code)
  {
    var base := Filled(row, tx, code);
    assert base[Source].a in RowAddresses(NextRow(row, tx, tags, code));
    assert base[Destination].a in RowAddresses(NextRow(row, tx, tags, code));
  }

  /** Only the tags of the addresses shown matter. */
  lemma {:induction false} ReusedRowsSame(txs: seq<Tx>, tags: Address -> string, tags': Address -> string,
                                          code: Kind -> int)
    requires forall a :: a in Addresses(ReusedRows(map[], txs, tags, code)) ==> tags(a) == tags'(a)
    ensures ReusedRows(map[], txs, tags', code) == ReusedRows(map[], txs, tags, code)
  {
    if txs != [] {
      var init, tx := txs[..|txs| - 1], txs[|txs| - 1];
      var rows := ReusedRows(map[], init, tags, code);
      var row := NextRow(if rows == [] then map[] else rows[|rows| - 1], tx, tags, code);
      assert ReusedRows(map[], txs, tags, code) == rows + [row];
      assert (rows + [row])[..|rows|] == rows;
      ReusedRowsSame(init, tags, tags', code);
      NextRowSame(if rows == [] then map[] else rows[|rows| - 1], tx, tags, tags', code);
    }
  }

  predicate NoDuplicates<T(==)>(xs: seq<T>) {
    forall i, j :: 0 <= i < j < |xs| ==> xs[i] != xs[j]
  }

  // ---------------------------------------------------------------- the other listings

  function PendingRow(tx: Tx): Row {
    map[Sender := Addr(tx.body.sender), PropertyKey := Str(tx.body.key), AmountField := Par(tx.body.params),
        Block := Dig(tx.digest)]
  }

  function OnlineRow(tx: Tx): Row {
    map[Sender := Addr(tx.body.sender), Receiver := Addr(tx.body.receiver), PropertyKey := Str(tx.body.key),
        AmountField := Par(tx.body.params), Timestamp := Num(tx.body.timestamp), LastDigest := Dig(tx.prev),
        TxDigest := Dig(tx.digest), RpcTime := Num(tx.edgeTime)]
  }

  // ---------------------------------------------------------------- account_info and give

  // account_info reads the settle list from one store and the receive list from a later one.
  predicate InfoGive(first: Store, second: Store, a: Address) {
    !HasTransferIn(first.SettleBlocks(a)) && second.ReceiveBlocks(a) == []
  }

  /** On one store, account_info announces a give exactly when a give request for the account would
      pass its checks, although the two read the lists in opposite orders. */
  lemma InfoAgreesWithGive(s: Store, f: Frame, k: nat, verify: Tx -> bool)
    requires f.pc == CheckExists && f.root.action == Give && f.root.destination in s.accounts
    ensures InfoGive(s, s, f.root.destination) <==> Complete(f, Still(s), k, verify).outcome == Ok
  {
    GiveSucceeds(f, s, k, verify);
    assert Succeeds(f, s, k, verify) <==> Complete(f, Still(s), k, verify).outcome == Ok;
  }
}
