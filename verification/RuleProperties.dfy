// When each built-in rule triggers, what the score is, and that the order of movements does not matter.
module RuleProperties {
  import opened Basics
  import opened Calendar
  import opened Domain
  import opened Text
  import opened Transactions
  import opened TxHistory
  import opened Rules

  // ---------- Closed form ----------

  /** The movements whose amount exceeds the threshold of their asset's key, or the default where there is none. */
  function LargeMovements(config: RulesConfig, ms: seq<Movement>): set<nat> {
    var thresholds, default := config.largeTransferThresholds, config.largeTransferDefault;
    set i: nat | i < |ms| &&
      ms[i].amount > if ms[i].asset.Key() in thresholds then thresholds[ms[i].asset.Key()] else default
  }

  /** The history entries made at the time of the transaction or before it by `window` at most. */
  function RecentWithin(ctx: Context, window: Duration): set<nat> {
    set i: nat | i < |ctx.history.recent| &&
      ctx.history.recent[i].createdAt <= ctx.tx.createdAt <= ctx.history.recent[i].createdAt + window
  }

  predicate TooFast(ctx: Context) {
    1 + |RecentWithin(ctx, ctx.config.velocityWindowSecs * 1_000_000_000)| >= ctx.config.velocityMaxTxCount
  }

  /** With enough of a baseline: more in the last hour than the rate allows. */
  predicate Bursts(ctx: Context) {
    && ctx.history.baselineObservations >= ctx.config.minBaselineObservations && ctx.history.baselinePerHour > 0.0
    && (1 + |RecentWithin(ctx, 3600 * 1_000_000_000)|) as real
         > ctx.history.baselinePerHour * ctx.config.frequencyDeviationMultiplier
  }

  function FlaggedInvolved(ctx: Context): set<AccountId> {
    set a | a in ctx.flagged && Touches(ctx.tx.source, ctx.tx.movements, a)
  }

  function UnknownKeys(ctx: Context): set<string> {
    if ctx.history.knownAssets == {} then {}
    else
      set i | 0 <= i < |ctx.tx.movements| && ctx.tx.movements[i].asset.Key() !in ctx.history.knownAssets ::
        ctx.tx.movements[i].asset.Key()
  }

  lemma UnknownKeysAre(ctx: Context)
    ensures UnknownKeys(ctx) ==
      if ctx.history.knownAssets == {} then {} else KeysOf(ctx.tx.movements) - ctx.history.knownAssets
  {
    forall key | key in KeysOf(ctx.tx.movements) && key !in ctx.history.knownAssets && ctx.history.knownAssets != {}
      ensures key in UnknownKeys(ctx)
    {
      var m :| m in ctx.tx.movements && m.asset.Key() == key;
      var i :| 0 <= i < |ctx.tx.movements| && ctx.tx.movements[i] == m;
    }
  }

  function Indicator(b: bool): real { if b then 1.0 else 0.0 }

  /** The score before capping, counted directly. */
  function RawScore(ctx: Context): real {
    35.0 * |LargeMovements(ctx.config, ctx.tx.movements)| as real
    + 25.0 * Indicator(TooFast(ctx))
    + 20.0 * Indicator(Bursts(ctx))
    + 40.0 * |FlaggedInvolved(ctx)| as real
    + 15.0 * |UnknownKeys(ctx)| as real
    + 10.0 * Indicator(ctx.tx.operationCount > ctx.config.maxOperationsPerTx)
  }

  lemma {:induction false} SumConcat(xs: seq<Trigger>, ys: seq<Trigger>)
    ensures Sum(xs + ys) == Sum(xs) + Sum(ys)
  {
    if ys == [] {
      assert xs + ys == xs;
    } else {
      assert (xs + ys)[..|xs + ys| - 1] == xs + ys[..|ys| - 1];
      SumConcat(xs, ys[..|ys| - 1]);
    }
  }

  lemma {:induction false} SumOfEqual(ts: seq<Trigger>, w: real)
    requires forall i :: 0 <= i < |ts| ==> ts[i].weight == w
    ensures Sum(ts) == w * |ts| as real
  {
    if ts != [] { SumOfEqual(ts[..|ts| - 1], w); }
  }


  ghost predicate NoRepeats<T>(xs: seq<T>) { forall i, j :: 0 <= i < j < |xs| ==> xs[i] != xs[j] }

  lemma StrictHasNoRepeats(xs: seq<string>)
    requires StrictlyAscending(Itself, xs)
    ensures NoRepeats(xs)
  {
    forall i, j | 0 <= i < j < |xs| ensures xs[i] != xs[j] {
      assert Less(Itself(xs[i]), Itself(xs[j]));
      LessIsIrreflexive(xs[i]);
    }
  }

  function Elements<T>(xs: seq<T>): set<T> { set x | x in xs }

  lemma {:induction false} NoRepeatsCardinality<T>(xs: seq<T>)
    requires NoRepeats(xs)
    ensures |Elements(xs)| == |xs|
  {
    if xs != [] {
      var init, last := xs[..|xs| - 1], xs[|xs| - 1];
      NoRepeatsCardinality(init);
      assert last !in init;
      assert xs == init + [last];
      assert Elements(xs) == Elements(init) + {last};
    }
  }

  lemma LargeSum(config: RulesConfig, ms: seq<Movement>)
    ensures |LargeTransfers(config, ms)| == |LargeMovements(config, ms)|
    ensures forall i :: 0 <= i < |LargeTransfers(config, ms)| ==> LargeTransfers(config, ms)[i].weight == 35.0
  {
    var large := LargeTransfersAre(config, ms);
    hide LargeTransfers;
    NoRepeatsCardinality(large);
    assert Elements(large) == LargeMovements(config, ms);
  }

  /** Where a filter keeps something. */
  function Where<T>(keep: T -> bool, xs: seq<T>): set<nat> { set i: nat | i < |xs| && keep(xs[i]) }

  lemma WhereSnoc<T>(keep: T -> bool, xs: seq<T>)
    requires xs != []
    ensures var n := |xs| - 1; |Where(keep, xs)| == |Where(keep, xs[..n])| + if keep(xs[n]) then 1 else 0
  {
    var n := |xs| - 1;
    assert Where(keep, xs) == Where(keep, xs[..n]) + if keep(xs[n]) then {n} else {};
  }

  lemma {:induction false} FilterCount<T>(keep: T -> bool, xs: seq<T>)
    ensures |Filter(keep, xs)| == |Where(keep, xs)|
  {
    if xs == [] {
      assert Where(keep, xs) == {};
    } else {
      var n := |xs| - 1;
      FilterCount(keep, xs[..n]);
      FilterSnoc(keep, xs[..n], xs[n]);
      assert xs == xs[..n] + [xs[n]];
      hide Filter;
      WhereSnoc(keep, xs);
    }
  }

  lemma CountIs(ctx: Context, window: Duration)
    ensures CountWithin(ctx, window) == 1 + |RecentWithin(ctx, window)|
  {
    var keep := (rt: RecentTransaction) => Within(ctx.tx, rt, window);
    FilterCount(keep, ctx.history.recent);
    assert Where(keep, ctx.history.recent) == RecentWithin(ctx, window);
  }

  /** The two rate rules look at what they should. */
  lemma RatesAre(ctx: Context)
    ensures (VelocityCount(ctx) >= ctx.config.velocityMaxTxCount) == TooFast(ctx) && Abnormal(ctx) == Bursts(ctx)
  {
    CountIs(ctx, ctx.config.velocityWindowSecs * 1_000_000_000);
    CountIs(ctx, 3600 * 1_000_000_000);
    hide CountWithin, RecentWithin;
  }

  lemma {:induction false} FilterElements<T>(keep: T -> bool, xs: seq<T>, x: T)
    ensures x in Filter(keep, xs) <==> x in xs && keep(x)
  {
    if xs != [] { FilterElements(keep, xs[1..], x); }
  }

  lemma HitsAreFlaggedInvolved(ctx: Context)
    ensures StrictlyAscending(Itself, FlaggedHits(ctx))
    ensures forall a :: a in FlaggedHits(ctx) <==> a in FlaggedInvolved(ctx)
    ensures |FlaggedHits(ctx)| == |FlaggedInvolved(ctx)|
  {
    hide Texts, Participants;
    var keep := (a: AccountId) => a in ctx.flagged;
    var hits := FlaggedHits(ctx);
    TextsHaveElements(Filter(keep, InvolvedAccounts(ctx.tx)));
    TextsHaveElements(Participants(ctx.tx.source, ctx.tx.movements));
    forall a ensures a in hits <==> a in FlaggedInvolved(ctx) {
      FilterElements(keep, InvolvedAccounts(ctx.tx), a);
      ParticipantsAre(ctx.tx.source, ctx.tx.movements, a);
    }
    StrictHasNoRepeats(hits);
    NoRepeatsCardinality(hits);
    assert Elements(hits) == FlaggedInvolved(ctx);
  }

  lemma SetStep(keys: set<string>, key: string, known: set<string>)
    ensures |(keys + {key}) - known| == |keys - known| + if key in keys || key in known then 0 else 1
  {
    if key in keys || key in known {
      assert (keys + {key}) - known == keys - known;
    } else {
      assert (keys + {key}) - known == (keys - known) + {key};
    }
  }

  lemma {:induction false} UnknownSum(ctx: Context, ms: seq<Movement>)
    ensures |FirstUnknown(ctx, ms)| == |KeysOf(ms) - ctx.history.knownAssets|
    ensures forall i :: 0 <= i < |FirstUnknown(ctx, ms)| ==> FirstUnknown(ctx, ms)[i].weight == 15.0
  {
    if ms == [] {
      assert KeysOf(ms) - ctx.history.knownAssets == {};
    } else {
      var n := |ms| - 1;
      UnknownSum(ctx, ms[..n]);
      KeysOfSnoc(ms, n);
      assert ms[..n + 1] == ms;
      hide KeysOf;
      SetStep(KeysOf(ms[..n]), ms[n].asset.Key(), ctx.history.knownAssets);
    }
  }

  lemma EvaluateFirst(rs: seq<Rule>, k: nat, ctx: Context)
    requires k < |rs|
    ensures EvaluateAll(rs[..k + 1], ctx) == EvaluateAll(rs[..k], ctx) + rs[k].evaluate(ctx)
    ensures EvaluateAll(rs[..0], ctx) == []
  {
    assert rs[..k + 1][..k] == rs[..k];
  }

  lemma BuiltInTriggers(ctx: Context)
    ensures EvaluateAll(BuiltIns(), ctx)
      == LargeTransfers(ctx.config, ctx.tx.movements) + Velocity(ctx) + AbnormalFrequency(ctx)
      + FlaggedAccounts(ctx) + UnusualAssets(ctx) + OperationCount(ctx)
  {
    hide LargeTransfers, Velocity, AbnormalFrequency, FlaggedAccounts, UnusualAssets, OperationCount;
    var rs := BuiltIns();
    assert rs[..6] == rs;
    EvaluateFirst(rs, 5, ctx);
    EvaluateFirst(rs, 4, ctx);
    EvaluateFirst(rs, 3, ctx);
    EvaluateFirst(rs, 2, ctx);
    EvaluateFirst(rs, 1, ctx);
    EvaluateFirst(rs, 0, ctx);
    assert [] + LargeTransfers(ctx.config, ctx.tx.movements) == LargeTransfers(ctx.config, ctx.tx.movements);
  }

  lemma SumOfSix(l: seq<Trigger>, v: seq<Trigger>, f: seq<Trigger>, a: seq<Trigger>, u: seq<Trigger>, o: seq<Trigger>)
    ensures Sum(l + v + f + a + u + o) == Sum(l) + Sum(v) + Sum(f) + Sum(a) + Sum(u) + Sum(o)
  {
    SumConcat(l, v);
    SumConcat(l + v, f);
    SumConcat(l + v + f, a);
    SumConcat(l + v + f + a, u);
    SumConcat(l + v + f + a + u, o);
  }

  lemma SumOfAtMostOne(ts: seq<Trigger>, w: real, b: bool)
    requires if b then |ts| == 1 && ts[0].weight == w else ts == []
    ensures Sum(ts) == w * Indicator(b)
  {
    if b { assert ts == [ts[0]] && ts[..0] == []; }
  }

  lemma LargeTransfersSum(ctx: Context)
    ensures Sum(LargeTransfers(ctx.config, ctx.tx.movements))
      == 35.0 * |LargeMovements(ctx.config, ctx.tx.movements)| as real
  {
    LargeSum(ctx.config, ctx.tx.movements);
    hide LargeTransfers, LargeMovements;
    SumOfEqual(LargeTransfers(ctx.config, ctx.tx.movements), 35.0);
  }

  lemma FlaggedSum(ctx: Context)
    ensures Sum(FlaggedAccounts(ctx)) == 40.0 * |FlaggedInvolved(ctx)| as real
  {
    HitsAreFlaggedInvolved(ctx);
    hide FlaggedHits, FlaggedInvolved;
    SumOfEqual(FlaggedAccounts(ctx), 40.0);
  }

  lemma UnusualSum(ctx: Context)
    ensures Sum(UnusualAssets(ctx)) == 15.0 * |UnknownKeys(ctx)| as real
  {
    UnknownSum(ctx, ctx.tx.movements);
    UnknownKeysAre(ctx);
    hide FirstUnknown, KeysOf, UnknownKeys;
    SumOfEqual(UnusualAssets(ctx), 15.0);
  }

  lemma SingleSums(ctx: Context)
    ensures Sum(Velocity(ctx)) == 25.0 * Indicator(TooFast(ctx))
    ensures Sum(AbnormalFrequency(ctx)) == 20.0 * Indicator(Bursts(ctx))
    ensures Sum(OperationCount(ctx)) == 10.0 * Indicator(ctx.tx.operationCount > ctx.config.maxOperationsPerTx)
  {
    RatesAre(ctx);
    hide CountWithin, Abnormal, TooFast, Bursts;
    SumOfAtMostOne(Velocity(ctx), 25.0, VelocityCount(ctx) >= ctx.config.velocityMaxTxCount);
    SumOfAtMostOne(AbnormalFrequency(ctx), 20.0, Abnormal(ctx));
    SumOfAtMostOne(OperationCount(ctx), 10.0, ctx.tx.operationCount > ctx.config.maxOperationsPerTx);
  }

  lemma BuiltInSum(ctx: Context)
    ensures Sum(EvaluateAll(BuiltIns(), ctx)) == RawScore(ctx)
  {
    BuiltInTriggers(ctx);
    LargeTransfersSum(ctx);
    FlaggedSum(ctx);
    UnusualSum(ctx);
    SingleSums(ctx);
    hide LargeTransfers, Velocity, AbnormalFrequency, FlaggedAccounts, UnusualAssets, OperationCount, Sum, BuiltIns,
         LargeMovements, FlaggedInvolved, UnknownKeys, TooFast, Bursts, Indicator;
    SumOfSix(LargeTransfers(ctx.config, ctx.tx.movements), Velocity(ctx), AbnormalFrequency(ctx), FlaggedAccounts(ctx),
             UnusualAssets(ctx), OperationCount(ctx));
  }

  ghost predicate AllPositive(ts: seq<Trigger>) { forall i :: 0 <= i < |ts| ==> ts[i].weight > 0.0 }

  lemma ListWeightsPositive(ctx: Context)
    ensures AllPositive(LargeTransfers(ctx.config, ctx.tx.movements)) && AllPositive(UnusualAssets(ctx))
    ensures AllPositive(FlaggedAccounts(ctx))
  {
    LargeSum(ctx.config, ctx.tx.movements);
    UnknownSum(ctx, ctx.tx.movements);
    hide LargeTransfers, FirstUnknown, KeysOf, FlaggedHits;
  }

  lemma PositiveOfSix(l: seq<Trigger>, v: seq<Trigger>, f: seq<Trigger>, a: seq<Trigger>, u: seq<Trigger>,
                      o: seq<Trigger>)
    requires AllPositive(l) && AllPositive(v) && AllPositive(f) && AllPositive(a) && AllPositive(u) && AllPositive(o)
    ensures AllPositive(l + v + f + a + u + o)
  {
  }

  lemma BuiltInWeightsPositive(ctx: Context)
    ensures AllPositive(EvaluateAll(BuiltIns(), ctx))
  {
    BuiltInTriggers(ctx);
    ListWeightsPositive(ctx);
    hide LargeTransfers, UnusualAssets, FlaggedAccounts, VelocityCount, Abnormal, HourlyCount, BuiltIns, EvaluateAll;
    assert AllPositive(Velocity(ctx)) && AllPositive(AbnormalFrequency(ctx)) && AllPositive(OperationCount(ctx));
    hide Velocity, AbnormalFrequency, OperationCount, AllPositive;
    PositiveOfSix(LargeTransfers(ctx.config, ctx.tx.movements), Velocity(ctx), AbnormalFrequency(ctx),
                  FlaggedAccounts(ctx),
                  UnusualAssets(ctx), OperationCount(ctx));
  }

  lemma {:induction false} SumPositive(ts: seq<Trigger>)
    requires forall i :: 0 <= i < |ts| ==> ts[i].weight > 0.0
    ensures Sum(ts) >= 0.0 && (ts != [] ==> Sum(ts) > 0.0)
  {
    if ts != [] { SumPositive(ts[..|ts| - 1]); }
  }

  lemma RawScoreSign(ctx: Context)
    ensures if EvaluateAll(BuiltIns(), ctx) == [] then RawScore(ctx) == 0.0 else RawScore(ctx) > 0.0
  {
    BuiltInSum(ctx);
    BuiltInWeightsPositive(ctx);
    SumPositive(EvaluateAll(BuiltIns(), ctx));
    hide BuiltIns, EvaluateAll, RawScore;
  }

  /** The score of some triggers is their sum of weights, but no more than the cap; and which severity it has in
      each band, whatever the order of the thresholds. Without triggers there is neither. */
  lemma ScoreMeans(triggers: seq<Trigger>, config: ScoringConfig)
    ensures var (score, severity) := ScoreAndSeverity(triggers, config);
      if triggers == [] then score == 0.0 && severity == None
      else
        && score == (if Sum(triggers) <= config.maxScore then Sum(triggers) else config.maxScore)
        && (severity == Some(Critical) <==> score >= config.critical)
        && (severity == Some(High) <==> config.high <= score < config.critical)
        && (severity == Some(Medium) <==> config.medium <= score < config.high && score < config.critical)
        && (severity == Some(Low) <==> score < config.medium && score < config.high && score < config.critical)
  {
  }

  /** With the built-in rules the score is the capped weighted count of large movements, the two rate checks,
      flagged accounts involved, asset keys not known before, and the operation check; severity follows the score,
      and there is none exactly when that count is zero. */
  lemma ScoreClosedForm(ctx: Context, config: ScoringConfig)
    ensures var e, raw := Evaluate(BuiltIns(), ctx, config), RawScore(ctx);
      if raw == 0.0 then e.score == 0.0 && e.severity == None
      else
        && e.score == (if raw <= config.maxScore then raw else config.maxScore)
        && (e.severity == Some(Critical) <==> e.score >= config.critical)
        && (e.severity == Some(High) <==> config.high <= e.score < config.critical)
        && (e.severity == Some(Medium) <==> config.medium <= e.score < config.high && e.score < config.critical)
        && (e.severity == Some(Low) <==>
              e.score < config.medium && e.score < config.high && e.score < config.critical)
  {
    BuiltInSum(ctx);
    RawScoreSign(ctx);
    ScoreMeans(EvaluateAll(BuiltIns(), ctx), config);
    hide RawScore, BuiltIns, EvaluateAll, ScoreAndSeverity, Sum;
  }

  // ---------- What each trigger says ----------

  function Copies(n: nat, id: string): seq<string> { seq(n, _ => id) }

  function OneIf(b: bool, id: string): seq<string> { if b then [id] else [] }

  function IdsOf(ts: seq<Trigger>): seq<string> { Map((t: Trigger) => t.ruleId, ts) }

  lemma IdsConcat(xs: seq<Trigger>, ys: seq<Trigger>)
    ensures IdsOf(xs + ys) == IdsOf(xs) + IdsOf(ys)
  {
  }

  lemma {:induction false} UnknownIds(ctx: Context, ms: seq<Movement>)
    ensures forall i :: 0 <= i < |FirstUnknown(ctx, ms)| ==> FirstUnknown(ctx, ms)[i].ruleId == "unusual_asset_movement"
  {
    if ms != [] { UnknownIds(ctx, ms[..|ms| - 1]); }
  }

  lemma ListIds(ctx: Context)
    ensures IdsOf(LargeTransfers(ctx.config, ctx.tx.movements))
      == Copies(|LargeMovements(ctx.config, ctx.tx.movements)|, "large_transfer")
    ensures IdsOf(FlaggedAccounts(ctx)) == Copies(|FlaggedInvolved(ctx)|, "flagged_account_interaction")
    ensures IdsOf(UnusualAssets(ctx)) == Copies(|UnknownKeys(ctx)|, "unusual_asset_movement")
  {
    LargeSum(ctx.config, ctx.tx.movements);
    var large := LargeTransfersAre(ctx.config, ctx.tx.movements);
    HitsAreFlaggedInvolved(ctx);
    UnknownSum(ctx, ctx.tx.movements);
    UnknownIds(ctx, ctx.tx.movements);
    UnknownKeysAre(ctx);
    hide LargeTransfers, LargeMovements, FlaggedHits, FlaggedInvolved, FirstUnknown, UnknownKeys, KeysOf;
  }

  lemma SingleIds(ctx: Context)
    ensures IdsOf(Velocity(ctx)) == OneIf(TooFast(ctx), "velocity")
    ensures IdsOf(AbnormalFrequency(ctx)) == OneIf(Bursts(ctx), "abnormal_frequency")
    ensures IdsOf(OperationCount(ctx))
      == OneIf(ctx.tx.operationCount > ctx.config.maxOperationsPerTx, "operation_count_threshold")
  {
    RatesAre(ctx);
    hide VelocityCount, HourlyCount, Abnormal, TooFast, Bursts;
  }

  /** The triggers come rule by rule, as many for each as the closed form counts. */
  lemma RuleIdsInOrder(ctx: Context)
    ensures IdsOf(EvaluateAll(BuiltIns(), ctx)) ==
      Copies(|LargeMovements(ctx.config, ctx.tx.movements)|, "large_transfer")
      + OneIf(TooFast(ctx), "velocity")
      + OneIf(Bursts(ctx), "abnormal_frequency")
      + Copies(|FlaggedInvolved(ctx)|, "flagged_account_interaction")
      + Copies(|UnknownKeys(ctx)|, "unusual_asset_movement")
      + OneIf(ctx.tx.operationCount > ctx.config.maxOperationsPerTx, "operation_count_threshold")
  {
    BuiltInTriggers(ctx);
    ListIds(ctx);
    SingleIds(ctx);
    var l, v, f := LargeTransfers(ctx.config, ctx.tx.movements), Velocity(ctx), AbnormalFrequency(ctx);
    var a, u, o := FlaggedAccounts(ctx), UnusualAssets(ctx), OperationCount(ctx);
    hide *;
    IdsConcat(l, v);
    IdsConcat(l + v, f);
    IdsConcat(l + v + f, a);
    IdsConcat(l + v + f + a, u);
    IdsConcat(l + v + f + a + u, o);
  }

  lemma {:induction false} UnknownTriggersAre(ctx: Context, ms: seq<Movement>)
    ensures NoRepeats(FirstUnknown(ctx, ms))
    ensures forall t :: t in FirstUnknown(ctx, ms) <==>
      t.subject.NewAsset? && t == NewAssetTrigger(ctx, t.subject.assetKey)
          && t.subject.assetKey in KeysOf(ms) - ctx.history.knownAssets
  {
    if ms != [] {
      var n := |ms| - 1;
      UnknownTriggersAre(ctx, ms[..n]);
      KeysOfSnoc(ms, n);
      assert ms[..n + 1] == ms;
      hide KeysOf;
      var before := FirstUnknown(ctx, ms[..n]);
      var t := NewAssetTrigger(ctx, ms[n].asset.Key());
      assert t.subject.assetKey in KeysOf(ms[..n]) - ctx.history.knownAssets <==> t in before;
      assert forall x :: x in before + [t] <==> x in before || x == t;
    }
  }

  /** The condition under which a trigger is raised, by what it is about. */
  ghost predicate Deserved(ctx: Context, t: Trigger) {
    var thresholds, default := ctx.config.largeTransferThresholds, ctx.config.largeTransferDefault;
    match t.subject
    case MovedTooMuch(m, limit) =>
      && t.ruleId == "large_transfer" && t.weight == 35.0 && m in ctx.tx.movements
      && limit == (if m.asset.Key() in thresholds then thresholds[m.asset.Key()] else default) && m.amount > limit
    case TooManyInWindow(a, n) =>
      && t.ruleId == "velocity" && t.weight == 25.0 && a == ctx.tx.source && TooFast(ctx)
      && n == 1 + |RecentWithin(ctx, ctx.config.velocityWindowSecs * 1_000_000_000)|
    case AboveBaseline(a, n) =>
      && t.ruleId == "abnormal_frequency" && t.weight == 20.0 && a == ctx.tx.source && Bursts(ctx)
      && n == 1 + |RecentWithin(ctx, 3600 * 1_000_000_000)|
    case FlaggedAccount(a) =>
      t.ruleId == "flagged_account_interaction" && t.weight == 40.0 && a in FlaggedInvolved(ctx)
    case NewAsset(a, key) =>
      t.ruleId == "unusual_asset_movement" && t.weight == 15.0 && a == ctx.tx.source && key in UnknownKeys(ctx)
    case TooManyOperations(n) =>
      && t.ruleId == "operation_count_threshold" && t.weight == 10.0
      && n == ctx.tx.operationCount && n > ctx.config.maxOperationsPerTx
  }

  lemma LargeDeserved(ctx: Context, t: Trigger)
    ensures t in LargeTransfers(ctx.config, ctx.tx.movements) <==> t.subject.MovedTooMuch? && Deserved(ctx, t)
  {
    var ms := ctx.tx.movements;
    var large := LargeTransfersAre(ctx.config, ms);
    var ts := LargeTransfers(ctx.config, ms);
    hide LargeTransfers;
    if t in ts {
      var k :| 0 <= k < |ts| && ts[k] == t;
      assert large[k] in large;
    }
    if t.subject.MovedTooMuch? && Deserved(ctx, t) {
      var i :| 0 <= i < |ms| && ms[i] == t.subject.movement;
      assert i in large;
      var k :| 0 <= k < |large| && large[k] == i;
      assert ts[k] == t;
    }
  }

  lemma ListsDeserved(ctx: Context, t: Trigger)
    ensures t in FlaggedAccounts(ctx) <==> t.subject.FlaggedAccount? && Deserved(ctx, t)
    ensures t in UnusualAssets(ctx) <==> t.subject.NewAsset? && Deserved(ctx, t)
  {
    HitsAreFlaggedInvolved(ctx);
    UnknownTriggersAre(ctx, ctx.tx.movements);
    UnknownKeysAre(ctx);
    hide FlaggedHits, FlaggedInvolved, UnknownKeys, FirstUnknown, KeysOf;
    if t.subject.FlaggedAccount? && Deserved(ctx, t) {
      var k :| 0 <= k < |FlaggedHits(ctx)| && FlaggedHits(ctx)[k] == t.subject.account;
      assert FlaggedAccounts(ctx)[k] == t;
    }
  }

  lemma SinglesDeserved(ctx: Context, t: Trigger)
    ensures t in Velocity(ctx) <==> t.subject.TooManyInWindow? && Deserved(ctx, t)
    ensures t in AbnormalFrequency(ctx) <==> t.subject.AboveBaseline? && Deserved(ctx, t)
    ensures t in OperationCount(ctx) <==> t.subject.TooManyOperations? && Deserved(ctx, t)
  {
    RatesAre(ctx);
    CountIs(ctx, ctx.config.velocityWindowSecs * 1_000_000_000);
    CountIs(ctx, 3600 * 1_000_000_000);
    hide CountWithin, RecentWithin, Abnormal, Bursts, TooFast;
  }

  /** A trigger is raised by the built-in rules exactly when its condition holds. */
  lemma TriggersAreDeserved(ctx: Context, t: Trigger)
    ensures t in EvaluateAll(BuiltIns(), ctx) <==> Deserved(ctx, t)
  {
    BuiltInTriggers(ctx);
    LargeDeserved(ctx, t);
    ListsDeserved(ctx, t);
    SinglesDeserved(ctx, t);
    hide BuiltIns, EvaluateAll, Deserved, LargeTransfers, Velocity, AbnormalFrequency, FlaggedAccounts, UnusualAssets,
         OperationCount;
  }

  // ---------- Order of movements does not matter ----------

  lemma Remaining<T>(xs: seq<T>, ys: seq<T>) returns (i: nat)
    requires xs != [] && multiset(xs) == multiset(ys)
    ensures i < |ys| && ys[i] == xs[|xs| - 1]
    ensures multiset(xs[..|xs| - 1]) == multiset(ys[..i] + ys[i + 1..])
  {
    var last := xs[|xs| - 1];
    assert xs == xs[..|xs| - 1] + [last];
    assert last in multiset(ys);
    i :| 0 <= i < |ys| && ys[i] == last;
    assert ys == ys[..i] + [ys[i]] + ys[i + 1..];
    assert multiset(xs) == multiset(xs[..|xs| - 1]) + multiset{last};
    assert multiset(ys) == multiset(ys[..i] + ys[i + 1..]) + multiset{last};
    Cancel(multiset(xs[..|xs| - 1]), multiset(ys[..i] + ys[i + 1..]), multiset{last});
  }

  lemma {:induction false} LargeConcat(config: RulesConfig, p: seq<Movement>, q: seq<Movement>)
    ensures LargeTransfers(config, p + q) == LargeTransfers(config, p) + LargeTransfers(config, q)
  {
    if q == [] {
      assert p + q == p;
    } else {
      assert (p + q)[..|p + q| - 1] == p + q[..|q| - 1];
      LargeConcat(config, p, q[..|q| - 1]);
    }
  }

  lemma Rearranged<T>(li: seq<T>, lp: seq<T>, lo: seq<T>, lq: seq<T>)
    requires multiset(li) == multiset(lp + lq)
    ensures multiset(li + lo) == multiset(lp + (lo + lq))
  {
    assert multiset(li + lo) == multiset(li) + multiset(lo);
    assert multiset(lp + (lo + lq)) == multiset(lp) + (multiset(lo) + multiset(lq));
    assert multiset(lp + lq) == multiset(lp) + multiset(lq);
  }

  lemma {:induction false} LargePermutes(config: RulesConfig, xs: seq<Movement>, ys: seq<Movement>)
    requires multiset(xs) == multiset(ys)
    ensures multiset(LargeTransfers(config, xs)) == multiset(LargeTransfers(config, ys))
    decreases |xs|
  {
    if xs == [] {
      assert |multiset(ys)| == 0;
      assert ys == [];
    } else {
      var i := Remaining(xs, ys);
      var init, p, q, one := xs[..|xs| - 1], ys[..i], ys[i + 1..], [ys[i]];
      LargePermutes(config, init, p + q);
      assert xs == init + one && ys == p + (one + q);
      LargeConcat(config, init, one);
      LargeConcat(config, p, q);
      LargeConcat(config, p, one + q);
      LargeConcat(config, one, q);
      hide LargeTransfers;
      var lp, lo, lq := LargeTransfers(config, p), LargeTransfers(config, one), LargeTransfers(config, q);
      Rearranged(LargeTransfers(config, init), lp, lo, lq);
    }
  }

  lemma {:induction false} CountOnce<T>(xs: seq<T>, x: T)
    requires NoRepeats(xs)
    ensures multiset(xs)[x] == if x in xs then 1 else 0
  {
    if xs != [] {
      var init := xs[..|xs| - 1];
      CountOnce(init, x);
      assert xs == init + [xs[|xs| - 1]];
      assert multiset(xs) == multiset(init) + multiset{xs[|xs| - 1]};
    }
  }

  lemma {:induction false} NoRepeatsMultiset<T>(xs: seq<T>, ys: seq<T>)
    requires NoRepeats(xs) && NoRepeats(ys) && forall x :: x in xs <==> x in ys
    ensures multiset(xs) == multiset(ys)
  {
    forall x ensures multiset(xs)[x] == multiset(ys)[x] {
      CountOnce(xs, x);
      CountOnce(ys, x);
    }
  }

  lemma SameMovementsSameKeys(xs: seq<Movement>, ys: seq<Movement>)
    requires multiset(xs) == multiset(ys)
    ensures KeysOf(xs) == KeysOf(ys)
    ensures forall source, a :: Touches(source, xs, a) <==> Touches(source, ys, a)
  {
    SameElements(xs, ys);
    forall source, a ensures Touches(source, xs, a) <==> Touches(source, ys, a) {
      if i :| 0 <= i < |xs| && (xs[i].from == a || xs[i].to == a) { assert xs[i] in ys; }
      if i :| 0 <= i < |ys| && (ys[i].from == a || ys[i].to == a) { assert ys[i] in xs; }
    }
  }

  function Reordered(ctx: Context, ms: seq<Movement>): Context { ctx.(tx := ctx.tx.(movements := ms)) }

  lemma UnknownPermutes(ctx: Context, ms: seq<Movement>)
    requires multiset(ctx.tx.movements) == multiset(ms)
    ensures multiset(UnusualAssets(ctx)) == multiset(UnusualAssets(Reordered(ctx, ms)))
  {
    var d := Reordered(ctx, ms);
    SameMovementsSameKeys(ctx.tx.movements, ms);
    UnknownTriggersAre(ctx, ctx.tx.movements);
    UnknownTriggersAre(d, ms);
    hide FirstUnknown, KeysOf;
    if ctx.history.knownAssets != {} {
      NoRepeatsMultiset(FirstUnknown(ctx, ctx.tx.movements), FirstUnknown(d, ms));
    }
  }

  lemma FlaggedPermutes(ctx: Context, ms: seq<Movement>)
    requires multiset(ctx.tx.movements) == multiset(ms)
    ensures FlaggedAccounts(ctx) == FlaggedAccounts(Reordered(ctx, ms))
  {
    var d := Reordered(ctx, ms);
    SameMovementsSameKeys(ctx.tx.movements, ms);
    HitsAreFlaggedInvolved(ctx);
    HitsAreFlaggedInvolved(d);
    hide FlaggedHits, Touches;
    assert FlaggedInvolved(ctx) == FlaggedInvolved(d);
    StrictIsUnique(FlaggedHits(ctx), FlaggedHits(d));
  }

  lemma {:induction false} FilterCong<T>(f: T -> bool, g: T -> bool, xs: seq<T>)
    requires forall x :: x in xs ==> f(x) == g(x)
    ensures Filter(f, xs) == Filter(g, xs)
  {
    if xs != [] { FilterCong(f, g, xs[1..]); }
  }

  lemma OthersPermute(ctx: Context, ms: seq<Movement>)
    ensures var d := Reordered(ctx, ms);
      Velocity(ctx) == Velocity(d) && AbnormalFrequency(ctx) == AbnormalFrequency(d)
          && OperationCount(ctx) == OperationCount(d)
  {
    var d := Reordered(ctx, ms);
    forall window ensures CountWithin(ctx, window) == CountWithin(d, window) {
      FilterCong((rt: RecentTransaction) => Within(ctx.tx, rt, window),
                 (rt: RecentTransaction) => Within(d.tx, rt, window), ctx.history.recent);
    }
    hide CountWithin;
  }

  lemma {:induction false} SumPermutes(xs: seq<Trigger>, ys: seq<Trigger>)
    requires multiset(xs) == multiset(ys)
    ensures Sum(xs) == Sum(ys)
    decreases |xs|
  {
    if xs == [] {
      assert |multiset(ys)| == 0;
      assert ys == [];
    } else {
      var i := Remaining(xs, ys);
      SumPermutes(xs[..|xs| - 1], ys[..i] + ys[i + 1..]);
      assert ys == ys[..i] + ([ys[i]] + ys[i + 1..]);
      SumConcat(ys[..i], [ys[i]] + ys[i + 1..]);
      SumConcat([ys[i]], ys[i + 1..]);
      SumConcat(ys[..i], ys[i + 1..]);
      assert Sum([ys[i]]) == ys[i].weight by { assert [ys[i]][..0] == []; }
    }
  }

  lemma MultisetOfSix<T>(l: seq<T>, l': seq<T>, v: seq<T>, f: seq<T>, a: seq<T>, u: seq<T>, u': seq<T>, o: seq<T>)
    requires multiset(l) == multiset(l') && multiset(u) == multiset(u')
    ensures multiset(l + v + f + a + u + o) == multiset(l' + v + f + a + u' + o)
  {
    assert multiset(l + v + f + a + u + o) == multiset(l) + multiset(v) + multiset(f) + multiset(a) + multiset(u)
        + multiset(o);
    assert multiset(l' + v + f + a + u' + o) == multiset(l') + multiset(v) + multiset(f) + multiset(a) + multiset(u')
        + multiset(o);
  }

  lemma SameLength<T>(xs: seq<T>, ys: seq<T>)
    requires multiset(xs) == multiset(ys)
    ensures |xs| == |ys|
  {
    assert |multiset(xs)| == |xs| && |multiset(ys)| == |ys|;
  }

  /** Reordering a transaction's movements changes neither the multiset of triggers, nor score, nor severity. */
  lemma MovementOrderIsIrrelevant(ctx: Context, ms: seq<Movement>, config: ScoringConfig)
    requires multiset(ctx.tx.movements) == multiset(ms)
    ensures var e, f := Evaluate(BuiltIns(), ctx, config), Evaluate(BuiltIns(), Reordered(ctx, ms), config);
      multiset(e.triggers) == multiset(f.triggers) && e.score == f.score && e.severity == f.severity
  {
    var d := Reordered(ctx, ms);
    BuiltInTriggers(ctx);
    BuiltInTriggers(d);
    LargePermutes(ctx.config, ctx.tx.movements, ms);
    UnknownPermutes(ctx, ms);
    FlaggedPermutes(ctx, ms);
    OthersPermute(ctx, ms);
    hide LargeTransfers, Velocity, AbnormalFrequency, FlaggedAccounts, UnusualAssets, OperationCount;
    hide BuiltIns, Sum, EvaluateAll;
    MultisetOfSix(LargeTransfers(ctx.config, ctx.tx.movements), LargeTransfers(ctx.config, ms), Velocity(ctx),
                  AbnormalFrequency(ctx), FlaggedAccounts(ctx), UnusualAssets(ctx), UnusualAssets(d),
                  OperationCount(ctx));
    var xs, ys := EvaluateAll(BuiltIns(), ctx), EvaluateAll(BuiltIns(), d);
    SumPermutes(xs, ys);
    SameLength(xs, ys);
  }
}
