// The transactions table, and the account history read back from it by comparing stored texts.
module TxHistory {
  import opened Basics
  import opened Calendar
  import opened Text
  import opened Transactions

  type Rows = map<TxId, Transaction>

  /** Rows are filed under their own id. */
  predicate Keyed(rows: Rows) { forall id :: id in rows ==> rows[id].txId == id }

  /** Insert unless the id is taken: the first write wins. */
  function SaveRow(rows: Rows, tx: Transaction): Rows {
    if tx.txId in rows then rows else rows[tx.txId := tx]
  }

  datatype RecentTransaction =
    RecentTransaction(txId: TxId, createdAt: Instant, counterparty: AccountId, asset: Asset, amount: real)

  datatype AccountHistory = AccountHistory(
    account: AccountId, recent: seq<RecentTransaction>, baselinePerHour: real, baselineObservations: nat,
    knownAssets: set<string>)

  // ---------- What the SQL queries return ----------

  /** The WHERE clause: both window bounds compare stored texts and are inclusive. */
  predicate Matches(stamp: Instant -> string, tx: Transaction, account: AccountId, lo: Instant, hi: Instant) {
    tx.source == account && !Less(stamp(tx.createdAt), stamp(lo)) && !Less(stamp(hi), stamp(tx.createdAt))
  }

  /** The same window on the time line. */
  predicate InWindow(tx: Transaction, account: AccountId, lo: Instant, hi: Instant) {
    tx.source == account && lo <= tx.createdAt <= hi
  }

  /** `result` lists each selected row exactly once, in any order. */
  ghost predicate Selects(rows: Rows, chosen: Transaction -> bool, result: seq<Transaction>) {
    && (forall i :: 0 <= i < |result| ==>
        result[i].txId in rows && rows[result[i].txId] == result[i] && chosen(result[i]))
    && (forall id :: id in rows && chosen(rows[id]) ==> rows[id] in result)
    && (forall i, j :: 0 <= i < j < |result| ==> result[i].txId != result[j].txId)
  }

  /** ORDER BY created_at DESC, ties in any order. */
  ghost predicate TextDescending(stamp: Instant -> string, result: seq<Transaction>) {
    forall i, j :: 0 <= i < j < |result| ==> !Less(stamp(result[i].createdAt), stamp(result[j].createdAt))
  }

  ghost predicate NewestFirst(result: seq<Transaction>) {
    forall i, j :: 0 <= i < j < |result| ==> result[i].createdAt >= result[j].createdAt
  }

  /** The database as far as the history needs it: the text form of timestamps, and the rows that the two
      queries return for a table, an account and a window, the first newest first. */
  datatype Database = Database(
    stamp: Instant -> string,
    newestFirst: (Rows, AccountId, Instant, Instant) -> seq<Transaction>,
    anyOrder: (Rows, AccountId, Instant, Instant) -> seq<Transaction>)

  /** What SQL promises of the two queries on one table. */
  ghost predicate Answers(db: Database, rows: Rows) {
    forall account, lo, hi ::
      && Selects(rows, (tx: Transaction) => Matches(db.stamp, tx, account, lo, hi),
                 db.newestFirst(rows, account, lo, hi))
      && TextDescending(db.stamp, db.newestFirst(rows, account, lo, hi))
      && Selects(rows, (tx: Transaction) => Matches(db.stamp, tx, account, lo, hi), db.anyOrder(rows, account, lo, hi))
  }

  // ---------- The history computed from them ----------

  function EntryOf(account: AccountId, tx: Transaction, m: Movement): RecentTransaction {
    RecentTransaction(tx.txId, tx.createdAt, if m.from == account then m.to else m.from, m.asset, m.amount)
  }

  function EntriesOf(account: AccountId, tx: Transaction): seq<RecentTransaction> {
    Map((m: Movement) => EntryOf(account, tx, m), tx.movements)
  }

  function Entries(account: AccountId, txs: seq<Transaction>): seq<RecentTransaction> {
    if txs == [] then [] else Entries(account, txs[..|txs| - 1]) + EntriesOf(account, txs[|txs| - 1])
  }

  function KeysOf(ms: seq<Movement>): set<string> { set m | m in ms :: m.asset.Key() }

  function KeysOfAll(txs: seq<Transaction>): set<string> {
    if txs == [] then {} else KeysOfAll(txs[..|txs| - 1]) + KeysOf(txs[|txs| - 1].movements)
  }

  function BaselineHours(window: Duration): real {
    var seconds := if window >= 0 then window / 1_000_000_000 else -(-window / 1_000_000_000);
    if seconds as real / 3600.0 >= 1.0 then seconds as real / 3600.0 else 1.0
  }

  lemma NoEntries(account: AccountId, tx: Transaction)
    ensures EntriesOf(account, tx.(movements := tx.movements[..0])) == [] && KeysOf(tx.movements[..0]) == {}
  {
  }

  lemma EntriesOfSnoc(account: AccountId, tx: Transaction, k: nat)
    requires k < |tx.movements|
    ensures EntriesOf(account, tx.(movements := tx.movements[..k + 1]))
      == EntriesOf(account, tx.(movements := tx.movements[..k])) + [EntryOf(account, tx, tx.movements[k])]
  {
  }

  lemma KeysOfSnoc(ms: seq<Movement>, k: nat)
    requires k < |ms|
    ensures KeysOf(ms[..k + 1]) == KeysOf(ms[..k]) + {ms[k].asset.Key()}
  {
    assert ms[..k + 1] == ms[..k] + [ms[k]];
  }

  /** First loop: one entry and one asset key for every movement of every recent row. */
  method CollectRecent(account: AccountId, rows: seq<Transaction>)
      returns (recent: seq<RecentTransaction>, known: set<string>)
    ensures recent == Entries(account, rows) && known == KeysOfAll(rows)
  {
    hide KeysOf, EntriesOf;
    recent, known := [], {};
    for i := 0 to |rows|
      invariant recent == Entries(account, rows[..i]) && known == KeysOfAll(rows[..i])
    {
      var tx := rows[i];
      ghost var entries, keys := recent, known;
      NoEntries(account, tx);
      for k := 0 to |tx.movements|
        invariant recent == entries + EntriesOf(account, tx.(movements := tx.movements[..k]))
        invariant known == keys + KeysOf(tx.movements[..k])
      {
        var m := tx.movements[k];
        known := known + {m.asset.Key()};
        recent := recent
            + [RecentTransaction(tx.txId, tx.createdAt, if m.from == account then m.to else m.from, m.asset, m.amount)];
        EntriesOfSnoc(account, tx, k);
        KeysOfSnoc(tx.movements, k);
      }
      assert tx.movements[..|tx.movements|] == tx.movements;
      assert tx.(movements := tx.movements) == tx;
      assert rows[..i + 1][..i] == rows[..i];
    }
    assert rows[..|rows|] == rows;
  }

  /** Second loop: the asset keys of the baseline rows. */
  method CollectAssets(rows: seq<Transaction>, before: set<string>) returns (known: set<string>)
    ensures known == before + KeysOfAll(rows)
  {
    known := before;
    for i := 0 to |rows|
      invariant known == before + KeysOfAll(rows[..i])
    {
      var tx := rows[i];
      ghost var keys := known;
      for k := 0 to |tx.movements|
        invariant known == keys + KeysOf(tx.movements[..k])
      {
        known := known + {tx.movements[k].asset.Key()};
        KeysOfSnoc(tx.movements, k);
      }
      assert tx.movements[..|tx.movements|] == tx.movements;
      assert rows[..i + 1][..i] == rows[..i];
    }
    assert rows[..|rows|] == rows;
  }

  /** The history of an account in a table, up to and including `asOf`. */
  function HistoryOf(db: Database, rows: Rows, account: AccountId, asOf: Instant, lookback: Duration,
                     baseline: Duration): AccountHistory {
    var recent, wider := db.newestFirst(rows, account, asOf - lookback, asOf),
        db.anyOrder(rows, account, asOf - baseline, asOf);
    AccountHistory(account, Entries(account, recent), |wider| as real / BaselineHours(baseline), |wider|,
                   KeysOfAll(recent) + KeysOfAll(wider))
  }

  // ---------- What entries and rate mean ----------

  /** The entry is about this movement of this row; its counterparty is the side that is not the account. */
  predicate Shows(e: RecentTransaction, account: AccountId, tx: Transaction, m: Movement) {
    && e.txId == tx.txId && e.createdAt == tx.createdAt && e.asset == m.asset && e.amount == m.amount
    && e.counterparty == if m.from == account then m.to else m.from
  }

  lemma EntryShows(account: AccountId, tx: Transaction, j: nat)
    requires j < |tx.movements|
    ensures j < |EntriesOf(account, tx)| && Shows(EntriesOf(account, tx)[j], account, tx, tx.movements[j])
  {
  }

  /** How many movements the rows have. */
  function Total(txs: seq<Transaction>): nat {
    if txs == [] then 0 else Total(txs[..|txs| - 1]) + |txs[|txs| - 1].movements|
  }

  /** Movement j of row i has its entry after those of the rows and movements before it. */
  predicate HasEntry(entries: seq<RecentTransaction>, account: AccountId, txs: seq<Transaction>, i: nat, j: nat)
    requires i < |txs| && j < |txs[i].movements|
  {
    var k := Total(txs[..i]) + j; k < |entries| && Shows(entries[k], account, txs[i], txs[i].movements[j])
  }

  /** One entry for each movement of each row, in order, and no other. */
  ghost predicate ListsMovements(entries: seq<RecentTransaction>, account: AccountId, txs: seq<Transaction>) {
    && |entries| == Total(txs)
    && forall i, j :: 0 <= i < |txs| && 0 <= j < |txs[i].movements| ==> HasEntry(entries, account, txs, i, j)
  }

  lemma ListOneMore(entries: seq<RecentTransaction>, more: seq<RecentTransaction>, account: AccountId,
                    txs: seq<Transaction>)
    requires txs != [] && ListsMovements(entries, account, txs[..|txs| - 1])
    requires |more| == |txs[|txs| - 1].movements|
    requires forall j :: 0 <= j < |more| ==> Shows(more[j], account, txs[|txs| - 1], txs[|txs| - 1].movements[j])
    ensures ListsMovements(entries + more, account, txs)
  {
    hide Shows;
    var n, all := |txs| - 1, entries + more;
    assert |all| == Total(txs);
    forall i, j | 0 <= i < |txs| && 0 <= j < |txs[i].movements|
      ensures HasEntry(all, account, txs, i, j)
    {
      if i < n {
        assert txs[..n][i] == txs[i] && txs[..n][..i] == txs[..i];
        assert HasEntry(entries, account, txs[..n], i, j);
      }
    }
  }

  lemma {:induction false} EntriesListMovements(account: AccountId, txs: seq<Transaction>)
    ensures ListsMovements(Entries(account, txs), account, txs)
  {
    if txs != [] {
      var n := |txs| - 1;
      EntriesListMovements(account, txs[..n]);
      forall j | 0 <= j < |txs[n].movements| { EntryShows(account, txs[n], j); }
      hide ListsMovements, Shows;
      ListOneMore(Entries(account, txs[..n]), EntriesOf(account, txs[n]), account, txs);
    }
  }

  /** Rows per hour: of a window of whole seconds from an hour on; a shorter window counts as an hour. */
  lemma BaselineRate(window: Duration, count: nat)
    ensures var rate := count as real / BaselineHours(window);
      && (window < 3600 * 1_000_000_000 ==> rate == count as real)
      && (window >= 3600 * 1_000_000_000 ==> rate * (window / 1_000_000_000) as real == 3600.0 * count as real)
      && (forall k: nat :: k >= 1 && window == k * 3600 * 1_000_000_000 ==> rate * k as real == count as real)
  {
    var seconds := window / 1_000_000_000;
    if window >= 3600 * 1_000_000_000 { assert seconds >= 3600; }
    forall k: nat | k >= 1 && window == k * 3600 * 1_000_000_000
      ensures count as real / BaselineHours(window) * k as real == count as real
    {
      assert seconds == 3600 * k;
      assert BaselineHours(window) == k as real;
    }
  }

  // ---------- The repository ----------

  class TransactionRepository {
    var rows: Rows

    constructor ()
      ensures rows == map[]
    {
      rows := map[];
    }

    method Save(tx: Transaction, fails: bool) returns (ok: bool)
      modifies this
      ensures ok <==> !fails
      ensures rows == if ok then SaveRow(old(rows), tx) else old(rows)
      ensures ok ==> rows.Keys == old(rows).Keys + {tx.txId}
      ensures ok && tx.txId !in old(rows) ==> rows[tx.txId] == tx
      ensures forall id :: id in old(rows) ==> id in rows && rows[id] == old(rows)[id]
      ensures old(Keyed(rows)) ==> Keyed(rows)
    {
      if fails { return false; }
      if tx.txId !in rows { rows := rows[tx.txId := tx]; }
      ok := true;
    }

    /** Queries the table as it is now, and folds the answers into a history in two loops. */
    method BuildAccountHistory(db: Database, account: AccountId, asOf: Instant, lookback: Duration, baseline: Duration)
      returns (h: AccountHistory)
      ensures h == HistoryOf(db, rows, account, asOf, lookback, baseline)
      ensures ListsMovements(h.recent, account, db.newestFirst(rows, account, asOf - lookback, asOf))
      ensures var n := |db.anyOrder(rows, account, asOf - baseline, asOf)|;
        && h.baselineObservations == n
        && (baseline < 3600 * 1_000_000_000 ==> h.baselinePerHour == n as real)
        && (baseline >= 3600 * 1_000_000_000 ==>
              h.baselinePerHour * (baseline / 1_000_000_000) as real == 3600.0 * n as real)
    {
      var recentRows := db.newestFirst(rows, account, asOf - lookback, asOf);
      var recent, known := CollectRecent(account, recentRows);
      var baselineRows := db.anyOrder(rows, account, asOf - baseline, asOf);
      known := CollectAssets(baselineRows, known);
      h := AccountHistory(account, recent, |baselineRows| as real / BaselineHours(baseline), |baselineRows|, known);
      EntriesListMovements(account, recentRows);
      BaselineRate(baseline, |baselineRows|);
      hide BaselineHours, ListsMovements, Entries, KeysOfAll;
    }
  }

  // ---------- Text windows are time windows ----------

  /** The text form keeps the order of instants that have four-digit years. */
  ghost predicate KeepsOrder(stamp: Instant -> string) {
    forall a, b :: FourDigitYear(a) && FourDigitYear(b) ==> (Less(stamp(a), stamp(b)) <==> a < b)
  }

  lemma Rfc3339KeepsOrder()
    ensures KeepsOrder(Rfc3339)
  {
    hide Rfc3339;
    forall a, b | FourDigitYear(a) && FourDigitYear(b) ensures Less(Rfc3339(a), Rfc3339(b)) <==> a < b {
      TextOrderIsTimeOrder(a, b);
    }
  }

  ghost predicate RowsInRange(rows: Rows) { forall id :: id in rows ==> FourDigitYear(rows[id].createdAt) }

  /** A query that compares texts returns exactly the rows of the time window. */
  lemma TextWindowIsTimeWindow(stamp: Instant -> string, rows: Rows, account: AccountId, lo: Instant, hi: Instant,
                               result: seq<Transaction>)
    requires KeepsOrder(stamp) && RowsInRange(rows) && FourDigitYear(lo) && FourDigitYear(hi)
    requires Selects(rows, (tx: Transaction) => Matches(stamp, tx, account, lo, hi), result)
    ensures Selects(rows, (tx: Transaction) => InWindow(tx, account, lo, hi), result)
    ensures TextDescending(stamp, result) ==> NewestFirst(result)
  {
    forall id | id in rows ensures Matches(stamp, rows[id], account, lo, hi) <==> InWindow(rows[id], account, lo, hi) {
      assert FourDigitYear(rows[id].createdAt);
    }
  }

  lemma {:induction false} KeyComesFrom(txs: seq<Transaction>, key: string)
    ensures key in KeysOfAll(txs) <==> exists i :: 0 <= i < |txs| && key in KeysOf(txs[i].movements)
  {
    if txs != [] {
      var n := |txs| - 1;
      KeyComesFrom(txs[..n], key);
      assert forall i :: 0 <= i < n ==> txs[..n][i] == txs[i];
    }
  }

  /** Every selected row of the narrower window is selected by the wider one. */
  lemma WiderWindowKnowsMore(rows: Rows, account: AccountId, lo: Instant, wider: Instant, hi: Instant,
                             recent: seq<Transaction>, baseline: seq<Transaction>)
    requires wider <= lo
    requires Selects(rows, (tx: Transaction) => InWindow(tx, account, lo, hi), recent)
    requires Selects(rows, (tx: Transaction) => InWindow(tx, account, wider, hi), baseline)
    ensures KeysOfAll(recent) <= KeysOfAll(baseline)
  {
    forall key | key in KeysOfAll(recent) ensures key in KeysOfAll(baseline) {
      KeyComesFrom(recent, key);
      KeyComesFrom(baseline, key);
      var i :| 0 <= i < |recent| && key in KeysOf(recent[i].movements);
      assert InWindow(recent[i], account, wider, hi);
      assert recent[i] in baseline;
    }
  }

  /** A query result has as many rows as there are selected rows in the table. */
  lemma {:induction false} ResultCount(result: seq<Transaction>, ids: set<TxId>)
    requires forall i, j :: 0 <= i < j < |result| ==> result[i].txId != result[j].txId
    requires forall id :: id in ids <==> exists i :: 0 <= i < |result| && result[i].txId == id
    ensures |result| == |ids|
  {
    if result == [] {
      assert ids == {} by { if id :| id in ids { } }
    } else {
      var n := |result| - 1;
      assert result[n].txId in ids;
      var fewer := ids - {result[n].txId};
      forall id ensures id in fewer <==> exists i :: 0 <= i < n && result[..n][i].txId == id {
        if id in fewer {
          var i :| 0 <= i < |result| && result[i].txId == id;
          assert result[..n][i].txId == id;
        }
        if i :| 0 <= i < n && result[..n][i].txId == id { assert result[i].txId == id; }
      }
      ResultCount(result[..n], fewer);
    }
  }

  function IdsInWindow(rows: Rows, account: AccountId, lo: Instant, hi: Instant): set<TxId> {
    set id | id in rows && InWindow(rows[id], account, lo, hi)
  }

  lemma WindowCount(rows: Rows, account: AccountId, lo: Instant, hi: Instant, result: seq<Transaction>)
    requires Keyed(rows) && Selects(rows, (tx: Transaction) => InWindow(tx, account, lo, hi), result)
    ensures |result| == |IdsInWindow(rows, account, lo, hi)|
  {
    var ids := IdsInWindow(rows, account, lo, hi);
    forall id ensures id in ids <==> exists i :: 0 <= i < |result| && result[i].txId == id {
      if id in ids {
        assert rows[id] in result;
        var i :| 0 <= i < |result| && result[i] == rows[id];
        assert result[i].txId == id;
      }
    }
    ResultCount(result, ids);
  }

  /** The row moves an asset with this key. */
  predicate Moves(tx: Transaction, key: string) {
    exists j :: 0 <= j < |tx.movements| && tx.movements[j].asset.Key() == key
  }

  lemma MovesIsKeysOf(tx: Transaction, key: string)
    ensures Moves(tx, key) <==> key in KeysOf(tx.movements)
  {
    if key in KeysOf(tx.movements) {
      var m :| m in tx.movements && m.asset.Key() == key;
      var j :| 0 <= j < |tx.movements| && tx.movements[j] == m;
    }
  }

  /** The known assets are exactly the asset keys moved in the baseline window. */
  lemma KnownAssetsAre(rows: Rows, account: AccountId, lo: Instant, wider: Instant, hi: Instant,
                       recent: seq<Transaction>, baseline: seq<Transaction>, key: string)
    requires wider <= lo
    requires Selects(rows, (tx: Transaction) => InWindow(tx, account, lo, hi), recent)
    requires Selects(rows, (tx: Transaction) => InWindow(tx, account, wider, hi), baseline)
    ensures key in KeysOfAll(recent) + KeysOfAll(baseline)
      <==> exists id :: id in IdsInWindow(rows, account, wider, hi) && Moves(rows[id], key)
  {
    forall id | id in rows { MovesIsKeysOf(rows[id], key); }
    hide Moves;
    WiderWindowKnowsMore(rows, account, lo, wider, hi, recent, baseline);
    KeyComesFrom(baseline, key);
    if id :| id in IdsInWindow(rows, account, wider, hi) && key in KeysOf(rows[id].movements) {
      assert rows[id] in baseline;
    }
    if key in KeysOfAll(baseline) {
      var i :| 0 <= i < |baseline| && key in KeysOf(baseline[i].movements);
      assert baseline[i].txId in IdsInWindow(rows, account, wider, hi);
    }
  }

  /** What the two queries contribute to the history. */
  lemma HistoryParts(db: Database, rows: Rows, account: AccountId, asOf: Instant, lookback: Duration,
                     baseline: Duration) returns (recent: seq<Transaction>, wider: seq<Transaction>)
    requires Answers(db, rows) && KeepsOrder(db.stamp) && Keyed(rows) && RowsInRange(rows)
    requires FourDigitYear(asOf) && FourDigitYear(asOf - lookback) && FourDigitYear(asOf - baseline)
    ensures Selects(rows, (tx: Transaction) => InWindow(tx, account, asOf - lookback, asOf), recent)
    ensures Selects(rows, (tx: Transaction) => InWindow(tx, account, asOf - baseline, asOf), wider)
    ensures NewestFirst(recent) && |wider| == |IdsInWindow(rows, account, asOf - baseline, asOf)|
    ensures HistoryOf(db, rows, account, asOf, lookback, baseline)
      == AccountHistory(account, Entries(account, recent), |wider| as real / BaselineHours(baseline), |wider|,
                        KeysOfAll(recent) + KeysOfAll(wider))
  {
    recent, wider :=
      db.newestFirst(rows, account, asOf - lookback, asOf), db.anyOrder(rows, account, asOf - baseline, asOf);
    hide Selects, Entries, KeysOfAll, BaselineHours, NewestFirst, TextDescending, IdsInWindow, KeepsOrder, Keyed,
         RowsInRange;
    TextWindowIsTimeWindow(db.stamp, rows, account, asOf - lookback, asOf, recent);
    TextWindowIsTimeWindow(db.stamp, rows, account, asOf - baseline, asOf, wider);
    WindowCount(rows, account, asOf - baseline, asOf, wider);
  }

  /** The history built through text comparison is the chronological one: recent entries are the movements of
      the rows within `lookback` of `asOf`, newest first; the baseline counts the rows within `baseline`, and the
      hourly rate is that count over the hours of the window, or the count itself for less than an hour; and,
      when that window is at least as long, the known assets are exactly the asset keys moved within it. */
  lemma HistoryIsChronological(db: Database, rows: Rows, account: AccountId, asOf: Instant, lookback: Duration,
                               baseline: Duration)
    requires Answers(db, rows) && KeepsOrder(db.stamp) && Keyed(rows) && RowsInRange(rows)
    requires FourDigitYear(asOf) && FourDigitYear(asOf - lookback) && FourDigitYear(asOf - baseline)
    ensures var h := HistoryOf(db, rows, account, asOf, lookback, baseline);
      && h.account == account
      && (exists recent :: Selects(rows, (tx: Transaction) => InWindow(tx, account, asOf - lookback, asOf), recent)
            && NewestFirst(recent) && ListsMovements(h.recent, account, recent))
      && var ids := IdsInWindow(rows, account, asOf - baseline, asOf);
      && h.baselineObservations == |ids|
      && (baseline < 3600 * 1_000_000_000 ==> h.baselinePerHour == |ids| as real)
      && (baseline >= 3600 * 1_000_000_000 ==>
            h.baselinePerHour * (baseline / 1_000_000_000) as real == 3600.0 * |ids| as real)
      && (baseline >= lookback ==>
            forall key :: key in h.knownAssets <==> exists id :: id in ids && Moves(rows[id], key))
    ensures forall k: nat :: k >= 1 && baseline == k * 3600 * 1_000_000_000 ==>
      HistoryOf(db, rows, account, asOf, lookback, baseline).baselinePerHour * k as real
        == |IdsInWindow(rows, account, asOf - baseline, asOf)| as real
  {
    hide Answers, KeepsOrder, Keyed, Selects, NewestFirst, Entries, KeysOfAll, BaselineHours, HistoryOf, Moves,
         ListsMovements;
    var recent, wider := HistoryParts(db, rows, account, asOf, lookback, baseline);
    EntriesListMovements(account, recent);
    BaselineRate(baseline, |wider|);
    if baseline >= lookback {
      forall key ensures key in KeysOfAll(recent) + KeysOfAll(wider)
        <==> exists id :: id in IdsInWindow(rows, account, asOf - baseline, asOf) && Moves(rows[id], key)
      {
        KnownAssetsAre(rows, account, asOf - lookback, asOf - baseline, asOf, recent, wider, key);
      }
    }
  }
}
