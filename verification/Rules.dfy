// The six built-in rules, the registry that concatenates their triggers, and the capped score.
module Rules {
  import opened Basics
  import opened Calendar
  import opened Domain
  import opened Transactions
  import opened TxHistory

  datatype RulesConfig = RulesConfig(
    largeTransferThresholds: map<string, real>, largeTransferDefault: real, velocityWindowSecs: int,
    velocityMaxTxCount: nat,
    frequencyDeviationMultiplier: real, minBaselineObservations: nat, maxOperationsPerTx: nat)

  datatype ScoringConfig = ScoringConfig(medium: real, high: real, critical: real, maxScore: real)

  datatype Context = Context(tx: Transaction, history: AccountHistory, flagged: set<AccountId>, config: RulesConfig)

  /** What a trigger is about. */
  datatype Subject =
    | MovedTooMuch(movement: Movement, threshold: real)
    | TooManyInWindow(account: AccountId, count: nat)
    | AboveBaseline(account: AccountId, observed: nat)
    | FlaggedAccount(account: AccountId)
    | NewAsset(account: AccountId, assetKey: string)
    | TooManyOperations(count: nat)

  datatype Trigger = Trigger(ruleId: string, weight: real, subject: Subject)

  datatype Rule = Rule(id: string, evaluate: Context -> seq<Trigger>)

  // ---------- The rules ----------

  function ThresholdFor(config: RulesConfig, asset: Asset): real {
    if asset.Key() in config.largeTransferThresholds then config.largeTransferThresholds[asset.Key()]
    else config.largeTransferDefault
  }

  predicate IsLarge(config: RulesConfig, m: Movement) { m.amount > ThresholdFor(config, m.asset) }

  function LargeTransferTrigger(config: RulesConfig, m: Movement): Trigger {
    Trigger("large_transfer", 35.0, MovedTooMuch(m, ThresholdFor(config, m.asset)))
  }

  /** One trigger for every movement above its threshold, in order. */
  function LargeTransfers(config: RulesConfig, ms: seq<Movement>): seq<Trigger> {
    if ms == [] then []
    else
      var last := ms[|ms| - 1];
      LargeTransfers(config, ms[..|ms| - 1])
        + if IsLarge(config, last) then [LargeTransferTrigger(config, last)] else []
  }

  /** `large` lists in order the movements whose amount exceeds the threshold of their asset's key, or the default
      where there is none, and the triggers are about those, one by one. */
  ghost predicate AboutLarge(config: RulesConfig, ms: seq<Movement>, large: seq<nat>, triggers: seq<Trigger>) {
    var thresholds, default := config.largeTransferThresholds, config.largeTransferDefault;
    var limit := (m: Movement) => if m.asset.Key() in thresholds then thresholds[m.asset.Key()] else default;
    && (forall j, k :: 0 <= j < k < |large| ==> large[j] < large[k])
    && (forall i :: 0 <= i < |ms| ==> (i in large <==> ms[i].amount > limit(ms[i])))
    && |triggers| == |large|
    && (forall k :: 0 <= k < |large| ==>
          large[k] < |ms| && triggers[k] == Trigger("large_transfer", 35.0,
                                                    MovedTooMuch(ms[large[k]], limit(ms[large[k]]))))
  }

  lemma OneMoreMovement(config: RulesConfig, ms: seq<Movement>, large: seq<nat>, triggers: seq<Trigger>)
    requires ms != [] && AboutLarge(config, ms[..|ms| - 1], large, triggers)
    ensures var n := |ms| - 1;
      if IsLarge(config, ms[n]) then
        AboutLarge(config, ms, large + [n], triggers + [LargeTransferTrigger(config, ms[n])])
      else AboutLarge(config, ms, large, triggers)
  {
    var n := |ms| - 1;
    assert forall i :: 0 <= i < n ==> ms[..n][i] == ms[i];
    assert forall i :: i in large + [n] <==> i in large || i == n;
  }

  lemma {:induction false} LargeTransfersAre(config: RulesConfig, ms: seq<Movement>) returns (large: seq<nat>)
    ensures AboutLarge(config, ms, large, LargeTransfers(config, ms))
  {
    if ms == [] {
      large := [];
    } else {
      var n := |ms| - 1;
      large := LargeTransfersAre(config, ms[..n]);
      OneMoreMovement(config, ms, large, LargeTransfers(config, ms[..n]));
      if IsLarge(config, ms[n]) { large := large + [n]; }
    }
  }

  method EvaluateLargeTransfer(ctx: Context) returns (triggers: seq<Trigger>, ghost large: seq<nat>)
    ensures triggers == LargeTransfers(ctx.config, ctx.tx.movements)
    ensures AboutLarge(ctx.config, ctx.tx.movements, large, triggers)
  {
    triggers := [];
    var ms := ctx.tx.movements;
    for i := 0 to |ms|
      invariant triggers == LargeTransfers(ctx.config, ms[..i])
    {
      var threshold := ctx.config.largeTransferDefault;
      if ms[i].asset.Key() in ctx.config.largeTransferThresholds {
        threshold := ctx.config.largeTransferThresholds[ms[i].asset.Key()];
      }
      if ms[i].amount > threshold {
        triggers := triggers + [Trigger("large_transfer", 35.0, MovedTooMuch(ms[i], threshold))];
      }
      assert ms[..i + 1][..i] == ms[..i];
    }
    assert ms[..|ms|] == ms;
    large := LargeTransfersAre(ctx.config, ms);
  }

  predicate Within(tx: Transaction, rt: RecentTransaction, window: Duration) {
    rt.createdAt <= tx.createdAt && tx.createdAt - rt.createdAt <= window
  }

  /** The transaction itself plus the history entries within the window before it. */
  function CountWithin(ctx: Context, window: Duration): nat {
    1 + |Filter((rt: RecentTransaction) => Within(ctx.tx, rt, window), ctx.history.recent)|
  }

  function VelocityCount(ctx: Context): nat { CountWithin(ctx, ctx.config.velocityWindowSecs * 1_000_000_000) }

  function Velocity(ctx: Context): seq<Trigger> {
    if VelocityCount(ctx) >= ctx.config.velocityMaxTxCount
    then [Trigger("velocity", 25.0, TooManyInWindow(ctx.tx.source, VelocityCount(ctx)))] else []
  }

  function HourlyCount(ctx: Context): nat { CountWithin(ctx, 3600 * 1_000_000_000) }

  predicate Abnormal(ctx: Context) {
    && ctx.history.baselineObservations >= ctx.config.minBaselineObservations
    && ctx.history.baselinePerHour > 0.0
    && HourlyCount(ctx) as real > ctx.history.baselinePerHour * ctx.config.frequencyDeviationMultiplier
  }

  function AbnormalFrequency(ctx: Context): seq<Trigger> {
    if Abnormal(ctx) then [Trigger("abnormal_frequency", 20.0, AboveBaseline(ctx.tx.source, HourlyCount(ctx)))] else []
  }

  function FlaggedHits(ctx: Context): seq<AccountId> {
    Texts(Filter((a: AccountId) => a in ctx.flagged, InvolvedAccounts(ctx.tx)))
  }

  function FlaggedAccounts(ctx: Context): seq<Trigger> {
    Map((a: AccountId) => Trigger("flagged_account_interaction", 40.0, FlaggedAccount(a)), FlaggedHits(ctx))
  }

  function NewAssetTrigger(ctx: Context, key: string): Trigger {
    Trigger("unusual_asset_movement", 15.0, NewAsset(ctx.tx.source, key))
  }

  /** One trigger at the first movement of each asset key that is not known. */
  function FirstUnknown(ctx: Context, ms: seq<Movement>): seq<Trigger> {
    if ms == [] then []
    else
      var init, key := ms[..|ms| - 1], ms[|ms| - 1].asset.Key();
      FirstUnknown(ctx, init)
        + if key !in KeysOf(init) && key !in ctx.history.knownAssets then [NewAssetTrigger(ctx, key)] else []
  }

  function UnusualAssets(ctx: Context): seq<Trigger> {
    if ctx.history.knownAssets == {} then [] else FirstUnknown(ctx, ctx.tx.movements)
  }

  lemma FirstUnknownStep(ctx: Context, ms: seq<Movement>, i: nat)
    requires i < |ms|
    ensures var key := ms[i].asset.Key();
      FirstUnknown(ctx, ms[..i + 1]) == FirstUnknown(ctx, ms[..i])
        + if key !in KeysOf(ms[..i]) && key !in ctx.history.knownAssets then [NewAssetTrigger(ctx, key)] else []
  {
    hide KeysOf;
    assert ms[..i + 1][..i] == ms[..i];
  }

  /** Keeps a set of the keys met so far; every key enters it, known or not. */
  method EvaluateUnusualAsset(ctx: Context) returns (triggers: seq<Trigger>)
    ensures triggers == UnusualAssets(ctx)
  {
    if ctx.history.knownAssets == {} { return []; }
    triggers := [];
    var seen: set<string> := {};
    var ms := ctx.tx.movements;
    assert ms[..0] == [] && KeysOf([]) == {} && FirstUnknown(ctx, []) == [];
    hide KeysOf, FirstUnknown;
    for i := 0 to |ms|
      invariant seen == KeysOf(ms[..i])
      invariant triggers == FirstUnknown(ctx, ms[..i])
    {
      var key := ms[i].asset.Key();
      var inserted := key !in seen;
      seen := seen + {key};
      if inserted && key !in ctx.history.knownAssets {
        triggers := triggers + [NewAssetTrigger(ctx, key)];
      }
      KeysOfSnoc(ms, i);
      FirstUnknownStep(ctx, ms, i);
    }
    assert ms[..|ms|] == ms;
  }

  function OperationCount(ctx: Context): seq<Trigger> {
    if ctx.tx.operationCount > ctx.config.maxOperationsPerTx
    then [Trigger("operation_count_threshold", 10.0, TooManyOperations(ctx.tx.operationCount))] else []
  }

  // ---------- Registry and scoring ----------

  function BuiltIns(): seq<Rule> {
    [ Rule("large_transfer", (ctx: Context) => LargeTransfers(ctx.config, ctx.tx.movements)),
      Rule("velocity", (ctx: Context) => Velocity(ctx)),
      Rule("abnormal_frequency", (ctx: Context) => AbnormalFrequency(ctx)),
      Rule("flagged_account_interaction", (ctx: Context) => FlaggedAccounts(ctx)),
      Rule("unusual_asset_movement", (ctx: Context) => UnusualAssets(ctx)),
      Rule("operation_count_threshold", (ctx: Context) => OperationCount(ctx)) ]
  }

  class RuleRegistry {
    var rules: seq<Rule>

    constructor WithBuiltIns()
      ensures rules == BuiltIns()
    {
      rules := BuiltIns();
    }

    method Register(rule: Rule)
      modifies this
      ensures rules == old(rules) + [rule]
    {
      rules := rules + [rule];
    }
  }

  /** All rules in registration order, their triggers concatenated. */
  function EvaluateAll(rules: seq<Rule>, ctx: Context): seq<Trigger> {
    if rules == [] then [] else EvaluateAll(rules[..|rules| - 1], ctx) + rules[|rules| - 1].evaluate(ctx)
  }

  function Sum(triggers: seq<Trigger>): real {
    if triggers == [] then 0.0 else Sum(triggers[..|triggers| - 1]) + triggers[|triggers| - 1].weight
  }

  function Least(a: real, b: real): real { if a <= b then a else b }

  function Band(score: real, config: ScoringConfig): Severity {
    if score >= config.critical then Critical
    else if score >= config.high then High
    else if score >= config.medium then Medium
    else Low
  }

  datatype Evaluation = Evaluation(triggers: seq<Trigger>, score: real, severity: Option<Severity>)

  function ScoreAndSeverity(triggers: seq<Trigger>, config: ScoringConfig): (real, Option<Severity>) {
    if triggers == [] then (0.0, None)
    else var score := Least(Sum(triggers), config.maxScore); (score, Some(Band(score, config)))
  }

  function Evaluate(rules: seq<Rule>, ctx: Context, config: ScoringConfig): Evaluation {
    var triggers := EvaluateAll(rules, ctx);
    var (score, severity) := ScoreAndSeverity(triggers, config);
    Evaluation(triggers, score, severity)
  }
}
