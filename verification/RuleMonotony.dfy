// Adding to a transaction, or registering a rule, never lowers score or severity.
module RuleMonotony {
  import opened Basics
  import opened Domain
  import opened Transactions
  import opened Rules
  import opened RuleProperties

  function Rank(s: Option<Severity>): nat {
    match s
    case None => 0
    case Some(Low) => 1
    case Some(Medium) => 2
    case Some(High) => 3
    case Some(Critical) => 4
  }

  predicate NoLower(e: Evaluation, f: Evaluation) { e.score <= f.score && Rank(e.severity) <= Rank(f.severity) }

  /** `d` is `ctx` but for its movements, flagged accounts and operations, of which the latter two may be more. */
  predicate Extends(ctx: Context, d: Context) {
    && d == Context(ctx.tx.(movements := d.tx.movements, operationCount := d.tx.operationCount), ctx.history, d.flagged,
                    ctx.config)
    && ctx.flagged <= d.flagged && ctx.tx.operationCount <= d.tx.operationCount
  }

  /** `d` is `ctx` with movements anywhere in the list, flagged accounts or operations added. */
  predicate Adds(ctx: Context, d: Context) { Extends(ctx, d) && multiset(ctx.tx.movements) <= multiset(d.tx.movements) }

  /** The same, with the movements added at the end. */
  predicate Appends(ctx: Context, d: Context) { Extends(ctx, d) && ctx.tx.movements <= d.tx.movements }

  lemma MultisetCons<T>(x: T, xs: seq<T>)
    ensures multiset([x] + xs) == multiset{x} + multiset(xs)
  {
  }

  lemma WithoutOne<T>(ys: seq<T>, i: nat)
    requires i < |ys|
    ensures multiset(ys) == multiset{ys[i]} + multiset(ys[..i] + ys[i + 1..])
  {
    assert ys == ys[..i] + ([ys[i]] + ys[i + 1..]);
    assert multiset(ys) == multiset(ys[..i]) + multiset([ys[i]] + ys[i + 1..]);
    MultisetCons(ys[i], ys[i + 1..]);
    assert multiset(ys[..i] + ys[i + 1..]) == multiset(ys[..i]) + multiset(ys[i + 1..]);
  }

  lemma SmallerRemains<T>(a: multiset<T>, b: multiset<T>, x: T)
    requires multiset{x} + a <= multiset{x} + b
    ensures a <= b
  {
    forall y ensures a[y] <= b[y] { assert (multiset{x} + a)[y] <= (multiset{x} + b)[y]; }
  }

  lemma IndexOf<T>(x: T, ys: seq<T>) returns (i: nat)
    requires multiset{x} <= multiset(ys)
    ensures i < |ys| && ys[i] == x
  {
    assert x in multiset(ys);
    i :| 0 <= i < |ys| && ys[i] == x;
  }

  /** What is in `ys` besides `xs`. */
  lemma {:induction false} Remainder<T>(xs: seq<T>, ys: seq<T>) returns (rest: seq<T>)
    requires multiset(xs) <= multiset(ys)
    ensures multiset(xs + rest) == multiset(ys)
    decreases |xs|
  {
    if xs == [] {
      rest := ys;
      assert xs + rest == ys;
    } else {
      var x, tail := xs[0], xs[1..];
      assert xs == [x] + tail;
      MultisetCons(x, tail);
      var i := IndexOf(x, ys);
      var fewer := ys[..i] + ys[i + 1..];
      WithoutOne(ys, i);
      SmallerRemains(multiset(tail), multiset(fewer), x);
      rest := Remainder(tail, fewer);
      MultisetCons(x, tail + rest);
      assert xs + rest == [x] + (tail + rest);
    }
  }


  lemma SubsetCardinality<T>(a: set<T>, b: set<T>)
    requires a <= b
    ensures |a| <= |b|
  {
    assert b == a + (b - a);
  }

  lemma LargeGrows(config: RulesConfig, xs: seq<Movement>, ys: seq<Movement>)
    requires xs <= ys
    ensures |LargeMovements(config, xs)| <= |LargeMovements(config, ys)|
  {
    assert forall i :: 0 <= i < |xs| ==> xs[i] == ys[i];
    SubsetCardinality(LargeMovements(config, xs), LargeMovements(config, ys));
  }

  lemma FlaggedGrows(ctx: Context, d: Context)
    requires Appends(ctx, d)
    ensures |FlaggedInvolved(ctx)| <= |FlaggedInvolved(d)|
  {
    forall a | a in FlaggedInvolved(ctx) ensures a in FlaggedInvolved(d) {
      if i :| 0 <= i < |ctx.tx.movements| && (ctx.tx.movements[i].from == a || ctx.tx.movements[i].to == a) {
        assert d.tx.movements[i] == ctx.tx.movements[i];
      }
    }
    SubsetCardinality(FlaggedInvolved(ctx), FlaggedInvolved(d));
  }

  lemma UnknownGrows(ctx: Context, d: Context)
    requires Appends(ctx, d)
    ensures |UnknownKeys(ctx)| <= |UnknownKeys(d)|
  {
    assert forall i :: 0 <= i < |ctx.tx.movements| ==> d.tx.movements[i] == ctx.tx.movements[i];
    SubsetCardinality(UnknownKeys(ctx), UnknownKeys(d));
  }

  lemma RatesStay(ctx: Context, d: Context)
    requires Appends(ctx, d)
    ensures TooFast(ctx) == TooFast(d) && Bursts(ctx) == Bursts(d)
  {
    assert forall window :: RecentWithin(ctx, window) == RecentWithin(d, window);
  }

  lemma RawScoreGrows(ctx: Context, d: Context)
    requires Appends(ctx, d)
    ensures RawScore(ctx) <= RawScore(d)
  {
    LargeGrows(ctx.config, ctx.tx.movements, d.tx.movements);
    FlaggedGrows(ctx, d);
    UnknownGrows(ctx, d);
    RatesStay(ctx, d);
    hide TooFast, Bursts, LargeMovements, FlaggedInvolved, UnknownKeys;
  }

  /** A larger total, with triggers present whenever it is positive, never scores lower. */
  lemma ScoreMonotone(xs: seq<Trigger>, ys: seq<Trigger>, config: ScoringConfig)
    requires config.maxScore >= 0.0 && Sum(xs) <= Sum(ys) && (xs == [] ==> Sum(ys) >= 0.0) && (ys == [] ==> xs == [])
    ensures ScoreAndSeverity(xs, config).0 <= ScoreAndSeverity(ys, config).0
    ensures Rank(ScoreAndSeverity(xs, config).1) <= Rank(ScoreAndSeverity(ys, config).1)
  {
    hide Sum;
  }

  lemma AppendingNeverScoresLess(ctx: Context, d: Context, config: ScoringConfig)
    requires Appends(ctx, d) && config.maxScore >= 0.0
    ensures NoLower(Evaluate(BuiltIns(), ctx, config), Evaluate(BuiltIns(), d, config))
  {
    RawScoreGrows(ctx, d);
    RawScoreSign(ctx);
    RawScoreSign(d);
    BuiltInSum(ctx);
    BuiltInSum(d);
    hide RawScore, BuiltIns, EvaluateAll, Sum;
    ScoreMonotone(EvaluateAll(BuiltIns(), ctx), EvaluateAll(BuiltIns(), d), config);
  }

  /** Adding movements, wherever they end up in the list, flagged accounts or operations never lowers score
      or severity, whatever the order of the thresholds, as long as the cap is not negative. */
  lemma MoreNeverScoresLess(ctx: Context, d: Context, config: ScoringConfig)
    requires Adds(ctx, d) && config.maxScore >= 0.0
    ensures NoLower(Evaluate(BuiltIns(), ctx, config), Evaluate(BuiltIns(), d, config))
  {
    hide BuiltIns, Evaluate;
    var rest := Remainder(ctx.tx.movements, d.tx.movements);
    var ms := ctx.tx.movements + rest;
    var e := d.(tx := d.tx.(movements := ms));
    AppendingNeverScoresLess(ctx, e, config);
    assert d == e.(tx := e.tx.(movements := d.tx.movements));
    MovementOrderIsIrrelevant(e, d.tx.movements, config);
  }

  lemma {:induction false} SumNonnegative(ts: seq<Trigger>)
    requires forall i :: 0 <= i < |ts| ==> ts[i].weight >= 0.0
    ensures Sum(ts) >= 0.0
  {
    if ts != [] { SumNonnegative(ts[..|ts| - 1]); }
  }

  /** Registering a rule whose weights are nonnegative never lowers score or severity either, for any rules
      already registered. */
  lemma RegisteringNeverScoresLess(rules: seq<Rule>, r: Rule, ctx: Context, config: ScoringConfig)
    requires config.maxScore >= 0.0 && forall i :: 0 <= i < |r.evaluate(ctx)| ==> r.evaluate(ctx)[i].weight >= 0.0
    ensures NoLower(Evaluate(rules, ctx, config), Evaluate(rules + [r], ctx, config))
  {
    assert (rules + [r])[..|rules|] == rules;
    var ts, more := EvaluateAll(rules, ctx), r.evaluate(ctx);
    assert EvaluateAll(rules + [r], ctx) == ts + more;
    SumConcat(ts, more);
    SumNonnegative(more);
    assert ts == [] ==> Sum(ts) == 0.0;
    hide Sum, EvaluateAll;
    ScoreMonotone(ts, ts + more, config);
  }

  /** With a negative cap the first trigger lowers the score below that of no trigger at all. */
  lemma NegativeCapLowers(ts: seq<Trigger>, config: ScoringConfig)
    requires ts != [] && config.maxScore < 0.0
    ensures ScoreAndSeverity(ts, config).0 < ScoreAndSeverity([], config).0
  {
  }
}
