// Processing one transaction end to end, and what the order "save first, then read history" implies.
module Pipeline {
  import opened Basics
  import opened Calendar
  import opened Domain
  import opened Text
  import opened Transactions
  import opened TxHistory
  import opened Rules
  import opened RuleProperties
  import opened AlertService

  /** What the model answered: an advisory, or the reason there is none. */
  datatype Advice = Advises(advisory: Advisory) | Unavailable(reason: string)

  /** Draws and faults of the three service calls, and of the reads before them. */
  datatype Circumstances = Circumstances(
    saveFails: bool, readFails: bool, create: (Draw, Fault), ask: (Draw, Fault), record: (Draw, Fault), payload: string,
    advice: Advice)

  datatype Result = Error | NotFlagged | Flagged(alertId: Uuid)

  function AlertFor(tx: Transaction, e: Evaluation): NewAlert
    requires e.severity.Some?
  {
    NewAlert(tx.txId, Texts(Participants(tx.source, tx.movements)),
             Map(AssetKey, SortDedup(AssetKey, AssetList(tx.movements))),
             Map((t: Trigger) => t.ruleId, e.triggers), e.score, e.severity.value)
  }

  function AdviceRequest(id: Uuid, tx: TxId, advice: Advice): Request {
    match advice
    case Advises(a) => RecordAdvisory(id, tx, a)
    case Unavailable(reason) => RecordUnavailable(id, tx, reason)
  }

  /** The operations a flagged transaction performs once its alert exists. */
  function AdvisoryOps(tx: Transaction, c: Circumstances): seq<Op> {
    var id := c.create.0.recordId;
    [ Op(RequestAdvisory(id, tx.txId, c.payload), c.ask.0, c.ask.1),
      Op(AdviceRequest(id, tx.txId, c.advice), c.record.0, c.record.1) ]
  }

  lemma ApplyTwo(st: Settings, w: World, a: Op, b: Op)
    ensures ApplyAll(st, w, [a, b]) == Apply(st, Apply(st, w, a).0, b).0
  {
    hide Apply;
    assert [a, b][1..] == [b] && [b][1..] == [];
    var w1 := Apply(st, w, a).0;
    assert ApplyAll(st, w1, [b]) == ApplyAll(st, Apply(st, w1, b).0, []);
  }

  /** A severity is assigned exactly when a rule fired. */
  lemma SeverityIffTriggered(rules: seq<Rule>, ctx: Context, scoring: ScoringConfig)
    ensures Evaluate(rules, ctx, scoring).severity.Some? <==> Evaluate(rules, ctx, scoring).triggers != []
  {
    hide EvaluateAll, Sum;
  }

  /** What an alert names: its transaction, everyone the transaction touches and every asset it moves, once each in
      ascending order, the rule of each trigger, and the score and severity they came to. */
  ghost predicate Names(txId: TxId, accounts: seq<AccountId>, assetKeys: seq<string>, ruleIds: seq<string>, score: real,
                        severity: Severity, tx: Transaction, e: Evaluation) {
    && txId == tx.txId
    && StrictlyAscending(Itself, accounts)
    && (forall a :: a in accounts <==>
          a == tx.source
          || exists i :: 0 <= i < |tx.movements| && (tx.movements[i].from == a || tx.movements[i].to == a))
    && StrictlyAscending(Itself, assetKeys) && (forall key :: key in assetKeys <==> Moves(tx, key))
    && |ruleIds| == |e.triggers| && (forall i :: 0 <= i < |ruleIds| ==> ruleIds[i] == e.triggers[i].ruleId)
    && score == e.score && Some(severity) == e.severity
  }

  lemma KeysAreMoved(tx: Transaction)
    ensures var keys := Map(AssetKey, SortDedup(AssetKey, AssetList(tx.movements)));
      StrictlyAscending(Itself, keys) && forall key :: key in keys <==> Moves(tx, key)
  {
    var listed := AssetList(tx.movements);
    var assets := SortDedup(AssetKey, listed);
    var keys := Map(AssetKey, assets);
    SortDedupIsCanonical(AssetKey, listed);
    hide SortDedup;
    forall key ensures key in keys <==> Moves(tx, key) {
      if key in keys {
        var k :| 0 <= k < |keys| && keys[k] == key;
        assert assets[k] in listed;
        var j :| 0 <= j < |listed| && listed[j] == assets[k];
        assert tx.movements[j].asset.Key() == key;
      }
      if Moves(tx, key) {
        var j :| 0 <= j < |tx.movements| && tx.movements[j].asset.Key() == key;
        assert HasKey(AssetKey, assets, AssetKey(listed[j]));
        var k :| 0 <= k < |assets| && AssetKey(assets[k]) == AssetKey(listed[j]);
        assert keys[k] == key;
      }
    }
  }

  lemma AlertNames(tx: Transaction, e: Evaluation)
    requires e.severity.Some?
    ensures var n := AlertFor(tx, e); Names(n.txId, n.accounts, n.assetKeys, n.ruleIds, n.score, n.severity, tx, e)
  {
    TextsHaveElements(Participants(tx.source, tx.movements));
    forall a { ParticipantsAre(tx.source, tx.movements, a); }
    KeysAreMoved(tx);
    hide Texts, SortDedup, Participants, Moves, StrictlyAscending;
  }

  /** Saves, builds the history from the table as it is then, evaluates, and only if a rule fired opens an
      alert and asks for advice. `flagged` is the content of the flagged-accounts table. Neither an
      unavailable model nor a failed AI record changes the result. */
  method ProcessTransaction(repo: TransactionRepository, service: Service, db: Database, tx: Transaction,
                            lookback: Duration,
                            baseline: Duration, flagged: set<AccountId>, rules: seq<Rule>, config: RulesConfig,
                            scoring: ScoringConfig, c: Circumstances)
    returns (r: Result)
    modifies repo, service.store, service.audit
    ensures repo.rows == if c.saveFails then old(repo.rows) else SaveRow(old(repo.rows), tx)
    ensures var h := HistoryOf(db, SaveRow(old(repo.rows), tx), tx.source, tx.createdAt, lookback, baseline);
      var e := Evaluate(rules, Context(tx, h, flagged, config), scoring);
      var w := old(service.Contents());
      if c.saveFails || c.readFails then r == Error && service.Contents() == w
      else if e.triggers == [] then r == NotFlagged && service.Contents() == w
      else
        var (w1, outcome) :=
            Apply(service.Configuration(), w, Op(CreateAlert(AlertFor(tx, e)), c.create.0, c.create.1));
        if !outcome.Ok? then r == Error && service.Contents() == w1
        else
          r == Flagged(c.create.0.recordId)
          && service.Contents() == ApplyAll(service.Configuration(), w1, AdvisoryOps(tx, c))
    ensures r.Flagged? ==>
      var h := HistoryOf(db, SaveRow(old(repo.rows), tx), tx.source, tx.createdAt, lookback, baseline);
      var e := Evaluate(rules, Context(tx, h, flagged, config), scoring);
      && r.alertId !in old(service.store.alerts) && r.alertId in service.store.alerts
      && var a := service.store.alerts[r.alertId];
         && Names(a.txId, a.accounts, a.assetKeys, a.ruleIds, a.score, a.severity, tx, e)
         && a.createdAt == c.create.0.at && a.status == Open
         && a.ai == if c.record.1.AtStore? then Pending else
             match c.advice
             case Advises(advisory) => Ready(advisory)
             case Unavailable(reason) => AiStatus.Unavailable(reason, c.record.0.at)
  {
    hide Names, Apply, ApplyAll, Evaluate, SaveRow, HistoryOf, SortDedup, Texts, Participants;
    var ok := repo.Save(tx, c.saveFails);
    if !ok || c.readFails { return Error; }
    var history := repo.BuildAccountHistory(db, tx.source, tx.createdAt, lookback, baseline);
    var e := Evaluate(rules, Context(tx, history, flagged, config), scoring);
    SeverityIffTriggered(rules, Context(tx, history, flagged, config), scoring);
    if e.severity.None? { return NotFlagged; }
    var accounts, assets := AccountsAndAssets(tx.source, tx.movements);
    var alert :=
        NewAlert(tx.txId, accounts, Map(AssetKey, assets), Map((t: Trigger) => t.ruleId, e.triggers), e.score,
                 e.severity.value);
    AlertNames(tx, e);
    var outcome := service.Create(alert, c.create.0, c.create.1);
    if !outcome.Ok? { return Error; }
    ghost var w1 := service.Contents();
    var id := c.create.0.recordId;
    var _ := service.RecordAiAdvisoryRequested(id, tx.txId, c.payload, c.ask.0, c.ask.1);
    match c.advice {
      case Advises(a) => var _ := service.RecordAiAdvisory(id, tx.txId, a, c.record.0, c.record.1);
      case Unavailable(reason) => var _ := service.RecordAiUnavailable(id, tx.txId, reason, c.record.0, c.record.1);
    }
    ApplyTwo(service.Configuration(), w1, AdvisoryOps(tx, c)[0], AdvisoryOps(tx, c)[1]);
    r := Flagged(id);
  }

  // ---------- A saved transaction is part of its own history ----------

  lemma EntriesLength(account: AccountId, tx: Transaction)
    ensures |EntriesOf(account, tx)| == |tx.movements|
  {
  }

  lemma {:induction false} OwnEntriesCount(account: AccountId, txs: seq<Transaction>, tx: Transaction,
                                           keep: RecentTransaction -> bool)
    requires tx in txs && forall i :: 0 <= i < |EntriesOf(account, tx)| ==> keep(EntriesOf(account, tx)[i])
    ensures |Filter(keep, Entries(account, txs))| >= |tx.movements|
  {
    hide EntriesOf, Filter;
    var n := |txs| - 1;
    var before, own := Entries(account, txs[..n]), EntriesOf(account, txs[n]);
    assert Entries(account, txs) == before + own;
    hide Entries;
    FilterConcat(keep, before, own);
    EntriesLength(account, tx);
    if txs[n] == tx {
      FilterKeepsAll(keep, own);
    } else {
      assert txs == txs[..n] + [txs[n]];
      OwnEntriesCount(account, txs[..n], tx, keep);
    }
  }

  lemma {:induction false} NothingUnknown(ctx: Context, ms: seq<Movement>)
    requires KeysOf(ms) <= ctx.history.knownAssets
    ensures FirstUnknown(ctx, ms) == []
  {
    if ms != [] {
      KeysOfSnoc(ms, |ms| - 1);
      assert ms[..|ms|] == ms;
      NothingUnknown(ctx, ms[..|ms| - 1]);
    }
  }

  /** The query for the window that ends with a stored transaction returns it. */
  lemma StoredIsRecent(db: Database, rows: Rows, tx: Transaction, lookback: Duration)
    requires tx.txId in rows && rows[tx.txId] == tx && lookback >= 0
    requires Answers(db, rows) && KeepsOrder(db.stamp)
    requires FourDigitYear(tx.createdAt) && FourDigitYear(tx.createdAt - lookback)
    ensures tx in db.newestFirst(rows, tx.source, tx.createdAt - lookback, tx.createdAt)
  {
    LessIsIrreflexive(db.stamp(tx.createdAt));
    hide Less;
    assert Selects(rows, (t: Transaction) => Matches(db.stamp, t, tx.source, tx.createdAt - lookback, tx.createdAt),
                   db.newestFirst(rows, tx.source, tx.createdAt - lookback, tx.createdAt));
  }

  /** For a transaction that was not stored before, the pipeline's own order of work makes the
      unusual-asset rule silent, and the velocity count includes the transaction itself plus one entry for
      each of its movements. */
  lemma FreshTransactionSeesItself(db: Database, rows: Rows, tx: Transaction, lookback: Duration, baseline: Duration,
                                   flagged: set<AccountId>, config: RulesConfig)
    requires tx.txId !in rows && lookback >= 0 && config.velocityWindowSecs >= 0
    requires Answers(db, SaveRow(rows, tx)) && KeepsOrder(db.stamp)
    requires FourDigitYear(tx.createdAt) && FourDigitYear(tx.createdAt - lookback)
    ensures var ctx :=
      Context(tx, HistoryOf(db, SaveRow(rows, tx), tx.source, tx.createdAt, lookback, baseline), flagged, config);
      && UnusualAssets(ctx) == [] && UnknownKeys(ctx) == {}
      && VelocityCount(ctx) >= 1 + |tx.movements|
      && |RecentWithin(ctx, config.velocityWindowSecs * 1_000_000_000)| >= |tx.movements|
  {
    var rows' := SaveRow(rows, tx);
    var recent := db.newestFirst(rows', tx.source, tx.createdAt - lookback, tx.createdAt);
    var ctx := Context(tx, HistoryOf(db, rows', tx.source, tx.createdAt, lookback, baseline), flagged, config);
    StoredIsRecent(db, rows', tx, lookback);
    hide Answers, KeepsOrder, FourDigitYear;
    var i :| 0 <= i < |recent| && recent[i] == tx;
    forall key | key in KeysOf(tx.movements) ensures key in ctx.history.knownAssets { KeyComesFrom(recent, key); }
    NothingUnknown(ctx, tx.movements);
    UnknownKeysAre(ctx);
    CountIs(ctx, config.velocityWindowSecs * 1_000_000_000);
    OwnEntriesCount(tx.source, recent, tx,
                    (rt: RecentTransaction) => Within(tx, rt, config.velocityWindowSecs * 1_000_000_000));
  }

  lemma {:induction false} EntriesAreInWindow(account: AccountId, txs: seq<Transaction>, lo: Instant, hi: Instant)
    requires forall i :: 0 <= i < |txs| ==> lo <= txs[i].createdAt <= hi
    ensures forall i :: 0 <= i < |Entries(account, txs)| ==> lo <= Entries(account, txs)[i].createdAt <= hi
  {
    if txs != [] { EntriesAreInWindow(account, txs[..|txs| - 1], lo, hi); }
  }

  /** When the lookback is at most an hour the hourly count is the whole lookback and nothing more: older
      transactions of that hour are not in the history at all. */
  lemma HourlyCountIsLookbackCount(db: Database, rows: Rows, tx: Transaction, lookback: Duration, baseline: Duration,
                                   flagged: set<AccountId>, config: RulesConfig)
    requires 0 <= lookback <= 3600 * 1_000_000_000 && Answers(db, rows) && KeepsOrder(db.stamp) && RowsInRange(rows)
    requires FourDigitYear(tx.createdAt) && FourDigitYear(tx.createdAt - lookback)
    ensures var h := HistoryOf(db, rows, tx.source, tx.createdAt, lookback, baseline);
      HourlyCount(Context(tx, h, flagged, config)) == 1 + |h.recent|
      && |RecentWithin(Context(tx, h, flagged, config), 3600 * 1_000_000_000)| == |h.recent|
  {
    var recent := db.newestFirst(rows, tx.source, tx.createdAt - lookback, tx.createdAt);
    TextWindowIsTimeWindow(db.stamp, rows, tx.source, tx.createdAt - lookback, tx.createdAt, recent);
    assert forall i :: 0 <= i < |recent| ==> InWindow(recent[i], tx.source, tx.createdAt - lookback, tx.createdAt);
    EntriesAreInWindow(tx.source, recent, tx.createdAt - lookback, tx.createdAt);
    CountIs(Context(tx, HistoryOf(db, rows, tx.source, tx.createdAt, lookback, baseline), flagged, config),
            3600 * 1_000_000_000);
    FilterKeepsAll((rt: RecentTransaction) => Within(tx, rt, 3600 * 1_000_000_000), Entries(tx.source, recent));
  }
}
