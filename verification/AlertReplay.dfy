// What runs of the alert service guarantee when its operations run one after another: the log alone
// rebuilds every alert, only decisions move a status, and the AI operations interfere with nothing.
// DecisionLog says what becomes of the first when decisions interleave.
module AlertReplay {
  import opened Basics
  import opened Calendar
  import opened Domain
  import opened AuditChain
  import opened AlertService

  // ---------- Rebuilding an alert from the log ----------

  /** An AI state but for the time. */
  datatype AiKind = NoAdvice | Advised(advisory: Advisory) | NoAdviceAvailable(reason: string)

  /** What an alert was opened with, as far as its creation is audited. */
  datatype Origin = Origin(txId: TxId, ruleIds: seq<string>, severity: Severity, score: real)

  datatype Decided = Decided(decision: Decision, investigator: string, rationale: string)

  /** What can be said about an alert id: nothing yet, or its origin, status, AI state and decisions so far. */
  datatype Summary = Unknown | Known(origin: Origin, status: AlertStatus, ai: AiKind, decisions: seq<Decided>)

  function KindOf(ai: AiStatus): AiKind {
    match ai
    case Pending => NoAdvice
    case Ready(advisory) => Advised(advisory)
    case Unavailable(reason, _) => NoAdviceAvailable(reason)
  }

  /** Effect of one audited event; AI events about an alert that does not exist say nothing. */
  function Fold(s: Summary, event: AuditEvent): Summary {
    match event
    case AlertCreated(tx, ruleIds, severity, score) => Known(Origin(tx, ruleIds, severity, score), Open, NoAdvice, [])
    case AiAdvisoryReceived(advisory) => if s.Known? then s.(ai := Advised(advisory)) else s
    case AiAdvisoryUnavailable(reason) => if s.Known? then s.(ai := NoAdviceAvailable(reason)) else s
    case InvestigatorDecision(investigator, decision, rationale, _) =>
      if s.Known?
      then s.(status := StatusOf(decision), decisions := s.decisions + [Decided(decision, investigator, rationale)])
      else s
    case _ => s
  }

  /** Reads the log from oldest to newest, using nothing but each record's alert id and event. */
  function Rebuild(log: seq<AuditRecord>, id: Uuid): Summary {
    if log == [] then Unknown
    else
      var before, last := Rebuild(log[..|log| - 1], id), log[|log| - 1];
      if last.alertId == Some(id) then Fold(before, last.event) else before
  }

  function DecidedOn(decisions: seq<DecisionRecord>, id: Uuid): seq<Decided> {
    Map((r: DecisionRecord) => Decided(r.decision, r.investigator, r.rationale), DecisionsOn(decisions, id))
  }

  /** What the tables say about an alert id. */
  function Stored(w: World, id: Uuid): Summary {
    if id !in w.alerts then Unknown
    else
      var a := w.alerts[id];
      Known(Origin(a.txId, a.ruleIds, a.severity, a.score), a.status, KindOf(a.ai), DecidedOn(w.decisions, id))
  }

  /** Every decision event reports the status its own past rebuilds. */
  ghost predicate UnbrokenChain(log: seq<AuditRecord>) {
    forall i :: 0 <= i < |log| && log[i].event.InvestigatorDecision? ==>
      log[i].alertId.Some?
      && var past := Rebuild(log[..i], log[i].alertId.value);
         past.Known? && past.status == log[i].event.previous
  }

  predicate IsAi(q: Request) { q.RequestAdvisory? || q.RecordAdvisory? || q.RecordUnavailable? }

  /** Replay is judged with or without the AI state. */
  datatype View = Everything | HumanPart

  function See(v: View, s: Summary): Summary { if v.HumanPart? && s.Known? then s.(ai := NoAdvice) else s }

  /** The requests whose effects the view shows. */
  predicate Shows(v: View, q: Request) { v.Everything? || !IsAi(q) }

  ghost predicate Rebuilds(v: View, w: World) { forall id: Uuid :: See(v, Rebuild(w.log, id)) == See(v, Stored(w, id)) }

  ghost predicate ReplayInv(v: View, w: World) {
    && Rebuilds(v, w)
    && UnbrokenChain(w.log)
    && (forall i :: 0 <= i < |w.decisions| ==> w.decisions[i].alertId in w.alerts)
  }

  lemma RebuildSnoc(log: seq<AuditRecord>, r: AuditRecord, id: Uuid)
    ensures Rebuild(log + [r], id)
      == if r.alertId == Some(id) then Fold(Rebuild(log, id), r.event) else Rebuild(log, id)
  {
    assert (log + [r])[..|log|] == log;
  }

  lemma ChainSnoc(log: seq<AuditRecord>, r: AuditRecord)
    requires UnbrokenChain(log)
    requires r.event.InvestigatorDecision? ==>
      r.alertId.Some? && Rebuild(log, r.alertId.value).Known?
          && Rebuild(log, r.alertId.value).status == r.event.previous
    ensures UnbrokenChain(log + [r])
  {
    hide Rebuild;
    var log' := log + [r];
    forall i | 0 <= i < |log'| && log'[i].event.InvestigatorDecision?
      ensures log'[i].alertId.Some?
        && var past := Rebuild(log'[..i], log'[i].alertId.value);
           past.Known? && past.status == log'[i].event.previous
    {
      assert log'[..i] == log[..i];
      if i == |log| { assert log[..i] == log; } else { assert log'[i] == log[i]; }
    }
  }

  /** What a view does not show has no effect on what it shows later. */
  lemma SeeFold(v: View, s: Summary, t: Summary, event: AuditEvent)
    requires See(v, s) == See(v, t)
    ensures See(v, Fold(s, event)) == See(v, Fold(t, event))
  {
  }

  /** The operation's effect on the tables, seen from one alert id, is the effect of its event. */
  lemma AuditedStep(v: View, st: Settings, w: World, w1: World, id: Uuid, tx: TxId, event: AuditEvent, d: Draw)
    requires ReplayInv(v, w) && w1.log == w.log
    requires forall i :: 0 <= i < |w1.decisions| ==> w1.decisions[i].alertId in w1.alerts
    requires Stored(w1, id) == Fold(Stored(w, id), event)
    requires forall other: Uuid :: other != id ==> Stored(w1, other) == Stored(w, other)
    requires event.InvestigatorDecision? ==> id in w.alerts && event.previous == w.alerts[id].status
    ensures ReplayInv(v, Append(st, w1, id, tx, event, d))
  {
    var w2 := Append(st, w1, id, tx, event, d);
    var r := w2.log[|w.log|];
    assert w2.log == w.log + [r] && r.alertId == Some(id) && r.event == event;
    hide NextRecord, Append;
    assert See(v, Rebuild(w.log, id)) == See(v, Stored(w, id));
    ChainSnoc(w.log, r);
    forall other: Uuid ensures See(v, Rebuild(w2.log, other)) == See(v, Stored(w2, other)) {
      RebuildSnoc(w.log, r, other);
      assert See(v, Rebuild(w.log, other)) == See(v, Stored(w, other));
      assert Stored(w2, other) == Stored(w1, other);
      SeeFold(v, Rebuild(w.log, other), Stored(w, other), event);
    }
  }

  lemma DecidedSnoc(decisions: seq<DecisionRecord>, r: DecisionRecord, id: Uuid)
    ensures DecidedOn(decisions + [r], id)
      == DecidedOn(decisions, id) + (if r.alertId == id then [Decided(r.decision, r.investigator, r.rationale)] else [])
  {
    FilterSnoc((x: DecisionRecord) => x.alertId == id, decisions, r);
  }

  lemma {:induction false} NoDecisionsYet(decisions: seq<DecisionRecord>, id: Uuid)
    requires forall i :: 0 <= i < |decisions| ==> decisions[i].alertId != id
    ensures DecisionsOn(decisions, id) == []
  {
    if decisions != [] { NoDecisionsYet(decisions[1..], id); }
  }

  lemma CreateKeepsReplay(v: View, st: Settings, w: World, n: NewAlert, d: Draw)
    requires ReplayInv(v, w) && d.recordId !in w.alerts
    ensures ReplayInv(v, Append(st, w.(alerts := w.alerts[d.recordId := Opened(n, d)]), d.recordId, n.txId,
                             AlertCreated(n.txId, n.ruleIds, n.severity, n.score), d))
  {
    hide Append, Rebuild, UnbrokenChain;
    NoDecisionsYet(w.decisions, d.recordId);
    AuditedStep(v, st, w, w.(alerts := w.alerts[d.recordId := Opened(n, d)]), d.recordId, n.txId,
                AlertCreated(n.txId, n.ruleIds, n.severity, n.score), d);
  }

  lemma AiKeepsReplay(v: View, st: Settings, w: World, id: Uuid, tx: TxId, ai: AiStatus, event: AuditEvent, d: Draw)
    requires ReplayInv(v, w)
    requires || (ai.Ready? && event == AiAdvisoryReceived(ai.advisory))
             || (ai.Unavailable? && event == AiAdvisoryUnavailable(ai.reason))
    ensures ReplayInv(v, Append(st, WithAi(w, id, ai), id, tx, event, d))
  {
    hide Append, Rebuild, UnbrokenChain;
    AuditedStep(v, st, w, WithAi(w, id, ai), id, tx, event, d);
  }

  lemma DecisionKeepsReplay(v: View, st: Settings, w: World, r: DecisionRecord, tx: TxId, d: Draw)
    requires ReplayInv(v, w) && r.alertId in w.alerts
    ensures ReplayInv(v, Append(st, WithDecision(w, r), r.alertId, tx,
                             InvestigatorDecision(r.investigator, r.decision, r.rationale, w.alerts[r.alertId].status),
                             d))
  {
    hide Append, Rebuild, UnbrokenChain;
    forall other: Uuid { DecidedSnoc(w.decisions, r, other); }
    hide DecidedOn;
    AuditedStep(v, st, w, WithDecision(w, r), r.alertId, tx,
                InvestigatorDecision(r.investigator, r.decision, r.rationale, w.alerts[r.alertId].status), d);
  }

  lemma AskKeepsReplay(v: View, st: Settings, w: World, id: Uuid, tx: TxId, payload: string, d: Draw)
    requires ReplayInv(v, w)
    ensures ReplayInv(v, Append(st, w, id, tx, AiAdvisoryRequested(payload), d))
  {
    hide Append, Rebuild, UnbrokenChain;
    AuditedStep(v, st, w, w, id, tx, AiAdvisoryRequested(payload), d);
  }

  /** The operation changed the tables and then lost its audit append. */
  predicate Unaudited(st: Settings, w: World, op: Op) {
    var (w', outcome) := Apply(st, w, op); !outcome.Ok? && w' != w
  }

  /** An AI record that is stored and not audited changes only the AI state. */
  lemma LostAiRecord(w: World, id: Uuid, ai: AiStatus)
    requires ReplayInv(HumanPart, w)
    ensures ReplayInv(HumanPart, WithAi(w, id, ai))
  {
    hide Rebuild, UnbrokenChain;
    var w1 := WithAi(w, id, ai);
    forall other: Uuid ensures See(HumanPart, Rebuild(w1.log, other)) == See(HumanPart, Stored(w1, other)) {
      assert See(HumanPart, Rebuild(w.log, other)) == See(HumanPart, Stored(w, other));
    }
  }

  lemma StepKeepsReplay(v: View, st: Settings, w: World, op: Op)
    requires ReplayInv(v, w) && !(Shows(v, op.request) && Unaudited(st, w, op))
    ensures ReplayInv(v, Apply(st, w, op).0)
  {
    hide ReplayInv, Append;
    var d := op.draw;
    if Apply(st, w, op).1.Ok? {
      match op.request
      case CreateAlert(n) =>
        CreateKeepsReplay(v, st, w, n, d);
      case RequestAdvisory(id, tx, payload) =>
        AskKeepsReplay(v, st, w, id, tx, payload, d);
      case RecordAdvisory(id, tx, advisory) =>
        AiKeepsReplay(v, st, w, id, tx, Ready(advisory), AiAdvisoryReceived(advisory), d);
      case RecordUnavailable(id, tx, reason) =>
        AiKeepsReplay(v, st, w, id, tx, Unavailable(reason, d.at), AiAdvisoryUnavailable(reason), d);
      case SubmitDecision(id, investigator, decision, rationale) =>
        DecisionKeepsReplay(v, st, w, DecisionOf(op.request, d), w.alerts[id].txId, d);
    } else if Apply(st, w, op).0 != w {
      match op.request
      case RecordAdvisory(id, _, advisory) => LostAiRecord(w, id, Ready(advisory));
      case RecordUnavailable(id, _, reason) => LostAiRecord(w, id, Unavailable(reason, d.at));
      case _ =>
    }
  }

  /** No operation that the view shows lost its audit append after changing the tables. */
  predicate NoneUnaudited(v: View, st: Settings, w: World, ops: seq<Op>)
    decreases |ops|
  {
    ops == []
        || (!(Shows(v, ops[0].request) && Unaudited(st, w, ops[0]))
            && NoneUnaudited(v, st, Apply(st, w, ops[0]).0, ops[1..]))
  }

  lemma {:induction false} RunKeepsReplay(v: View, st: Settings, w: World, ops: seq<Op>)
    requires ReplayInv(v, w) && NoneUnaudited(v, st, w, ops)
    ensures ReplayInv(v, ApplyAll(st, w, ops))
    decreases |ops|
  {
    hide ReplayInv, Apply;
    if ops != [] {
      StepKeepsReplay(v, st, w, ops[0]);
      RunKeepsReplay(v, st, Apply(st, w, ops[0]).0, ops[1..]);
    }
  }

  /** After any run of operations one after another in which none lost its audit append once the tables were
      changed, whatever else failed, folding the audit log alone gives, for every id, whether the alert
      exists, what it was opened with as far as that is audited, its status, its AI state but for the time, and
      its whole decision sequence; and the reported previous statuses form an unbroken chain that starts at
      Open. */
  lemma LogRebuildsEveryAlert(st: Settings, ops: seq<Op>)
    requires NoneUnaudited(Everything, st, EMPTY, ops)
    ensures var w := ApplyAll(st, EMPTY, ops);
      (forall id: Uuid :: Rebuild(w.log, id) == Stored(w, id)) && UnbrokenChain(w.log)
  {
    RunKeepsReplay(Everything, st, EMPTY, ops);
    var w := ApplyAll(st, EMPTY, ops);
    forall id: Uuid ensures Rebuild(w.log, id) == Stored(w, id) {
      assert See(Everything, Rebuild(w.log, id)) == See(Everything, Stored(w, id));
    }
  }

  // ---------- Exactly when the log suffices ----------

  /** 0 for an alert, and one more for each decision on it; -1 when there is none. */
  function CountOf(s: Summary): int { if s.Known? then |s.decisions| else -1 }

  /** How much more the tables know about an id than the log. */
  ghost function Lag(w: World, id: Uuid): int { CountOf(Stored(w, id)) - CountOf(Rebuild(w.log, id)) }

  ghost predicate LogTrails(w: World) {
    && (forall id: Uuid :: Lag(w, id) >= 0)
    && (forall i :: 0 <= i < |w.decisions| ==> w.decisions[i].alertId in w.alerts)
  }

  /** The alert or decision that the operation stores, if it does. */
  predicate Stores(w: World, op: Op) {
    match op.request
    case CreateAlert(_) => !op.fault.AtStore? && op.draw.recordId !in w.alerts
    case SubmitDecision(id, _, _, _) =>
      !op.fault.AtRead? && !op.fault.AtStore? && id in w.alerts
          && CanRecord(w.alerts, w.decisions, DecisionOf(op.request, op.draw))
    case _ => false
  }

  function Target(op: Op): Uuid { if op.request.CreateAlert? then op.draw.recordId else op.request.alertId }

  lemma CreateAdds(w: World, n: NewAlert, d: Draw, id: Uuid)
    requires LogTrails(w) && d.recordId !in w.alerts
    ensures CountOf(Stored(w.(alerts := w.alerts[d.recordId := Opened(n, d)]), id)) == CountOf(Stored(w, id))
      + if d.recordId == id then 1 else 0
  {
    hide Rebuild;
    NoDecisionsYet(w.decisions, d.recordId);
  }

  lemma DecisionAdds(w: World, r: DecisionRecord, id: Uuid)
    requires r.alertId in w.alerts
    ensures CountOf(Stored(WithDecision(w, r), id)) == CountOf(Stored(w, id)) + if r.alertId == id then 1 else 0
  {
    DecidedSnoc(w.decisions, r, id);
    hide DecidedOn;
  }

  lemma AiAdds(w: World, alert: Uuid, ai: AiStatus, id: Uuid)
    ensures CountOf(Stored(WithAi(w, alert, ai), id)) == CountOf(Stored(w, id))
  {
    hide DecidedOn;
  }

  /** The log aside. */
  lemma LogDoesNotCount(w: World, log: seq<AuditRecord>, id: Uuid)
    ensures Stored(w.(log := log), id) == Stored(w, id)
  {
  }

  lemma StoredAdds(st: Settings, w: World, op: Op, id: Uuid)
    requires LogTrails(w)
    ensures var w' := Apply(st, w, op).0;
      && CountOf(Stored(w', id)) == CountOf(Stored(w, id)) + (if Stores(w, op) && Target(op) == id then 1 else 0)
      && forall i :: 0 <= i < |w'.decisions| ==> w'.decisions[i].alertId in w'.alerts
  {
    hide NextRecord, Rebuild, Stored, Lag, CanRecord;
    var d, log := op.draw, Apply(st, w, op).0.log;
    match op.request
    case CreateAlert(n) =>
      if Stores(w, op) {
        CreateAdds(w, n, d, id);
        LogDoesNotCount(w.(alerts := w.alerts[d.recordId := Opened(n, d)]), log, id);
      }
    case RequestAdvisory(_, _, _) => LogDoesNotCount(w, log, id);
    case RecordAdvisory(alert, _, advisory) =>
      AiAdds(w, alert, Ready(advisory), id);
      LogDoesNotCount(WithAi(w, alert, Ready(advisory)), log, id);
    case RecordUnavailable(alert, _, reason) =>
      AiAdds(w, alert, Unavailable(reason, d.at), id);
      LogDoesNotCount(WithAi(w, alert, Unavailable(reason, d.at)), log, id);
    case SubmitDecision(_, _, _, _) =>
      if Stores(w, op) {
        DecisionAdds(w, DecisionOf(op.request, d), id);
        LogDoesNotCount(WithDecision(w, DecisionOf(op.request, d)), log, id);
      }
  }

  lemma NotStored(w: World, id: Uuid)
    ensures id !in w.alerts ==> Stored(w, id) == Unknown
  {
  }

  /** The record of an operation: about its alert and that alert's transaction, with its own event. */
  predicate RecordOf(st: Settings, w: World, op: Op, r: AuditRecord) {
    && r.alertId == Some(Target(op)) && r.id == op.draw.auditId && r.createdAt == op.draw.auditAt
    && r.eventJson == st.json(r.event)
    && match op.request
       case CreateAlert(n) =>
         r.txId == Some(n.txId) && r.event == AlertCreated(n.txId, n.ruleIds, n.severity, n.score)
       case RequestAdvisory(_, tx, payload) => r.txId == Some(tx) && r.event == AiAdvisoryRequested(payload)
       case RecordAdvisory(_, tx, advisory) => r.txId == Some(tx) && r.event == AiAdvisoryReceived(advisory)
       case RecordUnavailable(_, tx, reason) => r.txId == Some(tx) && r.event == AiAdvisoryUnavailable(reason)
       case SubmitDecision(id, investigator, decision, rationale) =>
         id in w.alerts && r.txId == Some(w.alerts[id].txId)
         && r.event == InvestigatorDecision(investigator, decision, rationale, w.alerts[id].status)
  }

  /** An operation succeeds when what it stores, if anything, is stored and its audit append works. */
  predicate Succeeds(w: World, op: Op) {
    !op.fault.AtAudit? && (Stores(w, op) || op.request.RequestAdvisory? || (IsAi(op.request) && !op.fault.AtStore?))
  }

  /** The record that an operation reporting Ok has added. */
  lemma AddedRecord(st: Settings, w: World, op: Op)
    ensures var (w', outcome) := Apply(st, w, op);
      && (outcome.Ok? <==> Succeeds(w, op))
      && if !outcome.Ok? then w'.log == w.log
         else |w'.log| == |w.log| + 1 && w'.log == w.log + [w'.log[|w.log|]] && RecordOf(st, w, op, w'.log[|w.log|])
  {
    hide ComputeHash, Head, CanRecord;
  }

  lemma LoggedAdds(st: Settings, w: World, op: Op, id: Uuid)
    requires LogTrails(w)
    ensures var (w', outcome) := Apply(st, w, op);
      CountOf(Rebuild(w'.log, id))
        <= CountOf(Rebuild(w.log, id)) + if outcome.Ok? && Stores(w, op) && Target(op) == id then 1 else 0
  {
    var (w', outcome) := Apply(st, w, op);
    AddedRecord(st, w, op);
    assert Lag(w, id) >= 0;
    if op.request.CreateAlert? { NotStored(w, op.draw.recordId); }
    hide Rebuild, Stored, CanRecord, Apply, LogTrails;
    if outcome.Ok? { RebuildSnoc(w.log, w'.log[|w.log|], id); }
  }

  /** No operation lets the log catch up, and one that stores without being audited falls behind. */
  lemma LagStep(st: Settings, w: World, op: Op)
    requires LogTrails(w)
    ensures var (w', outcome) := Apply(st, w, op);
      && LogTrails(w')
      && (forall id: Uuid :: Lag(w', id) >= Lag(w, id))
      && (Stores(w, op) && !outcome.Ok? ==> Lag(w', Target(op)) > 0)
  {
    var (w', outcome) := Apply(st, w, op);
    hide Apply, Stored, Rebuild, Stores;
    StoredAdds(st, w, op, Target(op));
    forall id: Uuid
      ensures Lag(w', id) >= Lag(w, id)
      ensures Stores(w, op) && !outcome.Ok? && id == Target(op) ==> Lag(w', id) > Lag(w, id)
    {
      StoredAdds(st, w, op, id);
      LoggedAdds(st, w, op, id);
    }
    assert Lag(w, Target(op)) >= 0;
  }

  /** A human operation that changed the tables without being audited stored an alert or a decision. */
  lemma UnauditedStores(st: Settings, w: World, op: Op)
    ensures Shows(HumanPart, op.request) ==> (Unaudited(st, w, op) <==> Stores(w, op) && !Apply(st, w, op).1.Ok?)
  {
    hide NextRecord;
  }

  lemma {:induction false} LagRun(st: Settings, w: World, ops: seq<Op>, id: Uuid)
    requires LogTrails(w)
    ensures LogTrails(ApplyAll(st, w, ops)) && Lag(ApplyAll(st, w, ops), id) >= Lag(w, id)
    decreases |ops|
  {
    hide Apply, LogTrails, Lag;
    if ops != [] {
      LagStep(st, w, ops[0]);
      LagRun(st, Apply(st, w, ops[0]).0, ops[1..], id);
    }
  }

  /** Once an audit append was lost, the log is short of some alert for good. */
  lemma {:induction false} LossIsPermanent(st: Settings, w: World, ops: seq<Op>) returns (id: Uuid)
    requires LogTrails(w) && !NoneUnaudited(HumanPart, st, w, ops)
    ensures Lag(ApplyAll(st, w, ops), id) > 0
    decreases |ops|
  {
    hide Apply, LogTrails, Lag, Stores;
    var op := ops[0];
    LagStep(st, w, op);
    UnauditedStores(st, w, op);
    if Shows(HumanPart, op.request) && Unaudited(st, w, op) {
      id := Target(op);
      LagRun(st, Apply(st, w, op).0, ops[1..], id);
    } else {
      id := LossIsPermanent(st, Apply(st, w, op).0, ops[1..]);
    }
  }

  /** Existence, origin, status and decisions agree; the AI state may not. */
  ghost predicate SameHistory(logged: Summary, stored: Summary) {
    logged.Known? == stored.Known?
    && (logged.Known? ==>
          logged.origin == stored.origin && logged.status == stored.status && logged.decisions == stored.decisions)
  }

  /** Whatever fails in a run of operations one after another: the log rebuilds the existence, the origin, the
      status and the decisions of every alert exactly when no alert or decision was stored whose audit append then
      failed. Lost AI records do no harm to that, and a lost audit of an alert or a decision is never made up
      for. */
  lemma LogRebuildsHistoryIff(st: Settings, ops: seq<Op>)
    ensures var w := ApplyAll(st, EMPTY, ops);
      (forall id: Uuid :: SameHistory(Rebuild(w.log, id), Stored(w, id))) <==> NoneUnaudited(HumanPart, st, EMPTY, ops)
    ensures NoneUnaudited(HumanPart, st, EMPTY, ops) ==> UnbrokenChain(ApplyAll(st, EMPTY, ops).log)
  {
    var w := ApplyAll(st, EMPTY, ops);
    if NoneUnaudited(HumanPart, st, EMPTY, ops) {
      RunKeepsReplay(HumanPart, st, EMPTY, ops);
      hide Rebuild, Stored;
      forall id: Uuid ensures SameHistory(Rebuild(w.log, id), Stored(w, id)) {
        assert See(HumanPart, Rebuild(w.log, id)) == See(HumanPart, Stored(w, id));
      }
    } else {
      var id := LossIsPermanent(st, EMPTY, ops);
      hide Rebuild, Stored;
      assert !SameHistory(Rebuild(w.log, id), Stored(w, id));
    }
  }

  /** For a decision: when only the audit append of a decision fails, the decision and the
      status are stored but the log rebuilds the alert as it was before. */
  lemma FailedAuditHidesDecision(st: Settings, w: World, op: Op)
    requires ReplayInv(Everything, w) && op.request.SubmitDecision? && op.fault.AtAudit?
    requires op.request.alertId in w.alerts && CanRecord(w.alerts, w.decisions, DecisionOf(op.request, op.draw))
    ensures var (w', outcome) := Apply(st, w, op); var id := op.request.alertId;
      outcome == StorageError && Rebuild(w'.log, id) == Stored(w, id) && Rebuild(w'.log, id) != Stored(w', id)
  {
    var id := op.request.alertId;
    assert See(Everything, Rebuild(w.log, id)) == See(Everything, Stored(w, id));
    DecidedSnoc(w.decisions, DecisionOf(op.request, op.draw), id);
    hide DecidedOn, Rebuild;
    var w' := Apply(st, w, op).0;
    assert |DecidedOn(w'.decisions, id)| == |DecidedOn(w.decisions, id)| + 1;
  }

  // ---------- The AI state ----------

  /** The operation sets the AI state of the alert. */
  predicate SetsAi(op: Op, id: Uuid) {
    (op.request.RecordAdvisory? || op.request.RecordUnavailable?) && op.request.alertId == id && !op.fault.AtStore?
  }

  function SetKind(q: Request): AiKind
    requires q.RecordAdvisory? || q.RecordUnavailable?
  {
    if q.RecordAdvisory? then Advised(q.advisory) else NoAdviceAvailable(q.reason)
  }

  ghost predicate BothKnow(w: World, id: Uuid) { id in w.alerts && Rebuild(w.log, id).Known? }

  lemma OtherStepKeepsAlert(st: Settings, w: World, op: Op, id: Uuid)
    requires id in w.alerts && !SetsAi(op, id)
    ensures var w' := Apply(st, w, op).0; id in w'.alerts && w'.alerts[id].ai == w.alerts[id].ai
  {
    hide NextRecord, CanRecord;
  }

  lemma OtherStepKeepsAi(st: Settings, w: World, op: Op, id: Uuid)
    requires BothKnow(w, id) && !SetsAi(op, id)
    ensures var w' := Apply(st, w, op).0;
      BothKnow(w', id) && w'.alerts[id].ai == w.alerts[id].ai && Rebuild(w'.log, id).ai == Rebuild(w.log, id).ai
  {
    var (w', outcome) := Apply(st, w, op);
    OtherStepKeepsAlert(st, w, op, id);
    AddedRecord(st, w, op);
    assert outcome.Ok? && !op.request.RequestAdvisory? && !Stores(w, op) ==> Target(op) != id by {
      hide Rebuild, NextRecord;
    }
    hide Rebuild, CanRecord, Apply;
    if outcome.Ok? { RebuildSnoc(w.log, w'.log[|w.log|], id); }
  }

  lemma {:induction false} OtherRunKeepsAi(st: Settings, w: World, ops: seq<Op>, id: Uuid)
    requires BothKnow(w, id) && forall i :: 0 <= i < |ops| ==> !SetsAi(ops[i], id)
    ensures var w' := ApplyAll(st, w, ops);
      BothKnow(w', id) && w'.alerts[id].ai == w.alerts[id].ai && Rebuild(w'.log, id).ai == Rebuild(w.log, id).ai
    decreases |ops|
  {
    hide Apply, Rebuild, SetsAi;
    if ops != [] {
      OtherStepKeepsAi(st, w, ops[0], id);
      OtherRunKeepsAi(st, Apply(st, w, ops[0]).0, ops[1..], id);
    }
  }

  lemma SettingStep(st: Settings, w: World, op: Op, id: Uuid)
    requires BothKnow(w, id) && SetsAi(op, id)
    ensures var (w', outcome) := Apply(st, w, op);
      && BothKnow(w', id) && KindOf(w'.alerts[id].ai) == SetKind(op.request)
      && Rebuild(w'.log, id).ai == if outcome.Ok? then SetKind(op.request) else Rebuild(w.log, id).ai
  {
    var (w', outcome) := Apply(st, w, op);
    hide Rebuild;
    if outcome.Ok? {
      var r := w'.log[|w.log|];
      assert w'.log == w.log + [r] && r.alertId == Some(id);
      RebuildSnoc(w.log, r, id);
    }
  }

  /** The log tells the AI state of an alert exactly when the last AI record stored for it was audited, or
      left what the log already told: the next audited AI record repairs an earlier loss. */
  lemma AiStateRebuiltIff(st: Settings, w: World, op: Op, after: seq<Op>, id: Uuid)
    requires BothKnow(w, id) && SetsAi(op, id) && forall i :: 0 <= i < |after| ==> !SetsAi(after[i], id)
    ensures var (w1, outcome) := Apply(st, w, op); var w' := ApplyAll(st, w1, after);
      && BothKnow(w', id)
      && (Rebuild(w'.log, id).ai == KindOf(w'.alerts[id].ai)
          <==> outcome.Ok? || Rebuild(w.log, id).ai == SetKind(op.request))
  {
    hide Apply, Rebuild, SetsAi;
    SettingStep(st, w, op, id);
    OtherRunKeepsAi(st, Apply(st, w, op).0, after, id);
  }

  // ---------- The log itself ----------

  ghost predicate LogOk(st: Settings, w: World) { ChainOk(st.sealing, w.log) && Sequenced(w.log) }

  /** Every operation, failing or not, keeps the log valid and extends it by at most its own record, whose
      presence is what its result reports; and it says exactly when that is. */
  lemma OperationExtendsLog(st: Settings, w: World, op: Op)
    requires LogOk(st, w)
    ensures var (w', outcome) := Apply(st, w, op);
      && LogOk(st, w') && w.log <= w'.log && (outcome.Ok? <==> Succeeds(w, op))
      && |w'.log| == |w.log| + (if outcome.Ok? then 1 else 0)
      && (outcome.Ok? ==> RecordOf(st, w, op, w'.log[|w.log|]))
      && (outcome.NotFound? <==>
            op.request.SubmitDecision? && !op.fault.AtRead? && op.request.alertId !in w.alerts)
  {
    var (w', outcome) := Apply(st, w, op);
    AddedRecord(st, w, op);
    hide RecordOf, Stores, CanRecord;
    if outcome.Ok? {
      var r := w'.log[|w.log|];
      var e := NewAuditEvent(r.alertId, r.txId, r.event, r.eventJson);
      AppendKeepsChain(st.sealing, w.log, e, op.draw.auditId, op.draw.auditAt);
    }
  }

  /** No operation but a decision on that very alert moves an existing alert's status, and then to the
      status of the decision stored with it. */
  lemma OnlyDecisionsMoveStatus(st: Settings, w: World, op: Op, id: Uuid)
    requires id in w.alerts
    ensures var w' := Apply(st, w, op).0;
      && id in w'.alerts
      && (w'.alerts[id].status != w.alerts[id].status ==>
            && op.request.SubmitDecision? && op.request.alertId == id
            && w'.alerts[id].status == StatusOf(op.request.decision)
            && w'.decisions == w.decisions + [DecisionOf(op.request, op.draw)])
  {
  }

  // ---------- What an alert keeps ----------

  /** All of the alert but its status and AI state. */
  ghost predicate SameCreation(a: Alert, b: Alert) {
    a.id == b.id && a.txId == b.txId && a.accounts == b.accounts && a.assetKeys == b.assetKeys
    && a.ruleIds == b.ruleIds && a.score == b.score && a.severity == b.severity && a.createdAt == b.createdAt
  }

  lemma StepTouches(st: Settings, w: World, op: Op, id: Uuid)
    requires id in w.alerts
    ensures var w' := Apply(st, w, op).0;
      id in w'.alerts && w'.alerts[id] == w.alerts[id].(status := w'.alerts[id].status, ai := w'.alerts[id].ai)
  {
    hide NextRecord, CanRecord;
  }

  lemma StepKeepsCreation(st: Settings, w: World, op: Op, id: Uuid)
    requires id in w.alerts
    ensures var w' := Apply(st, w, op).0; id in w'.alerts && SameCreation(w.alerts[id], w'.alerts[id])
  {
    StepTouches(st, w, op, id);
    hide Apply;
  }

  /** Whatever operations follow, failing or not: an alert stays, and with it everything it was opened with. */
  lemma {:induction false} CreationIsFinal(st: Settings, w: World, ops: seq<Op>, id: Uuid)
    requires id in w.alerts
    ensures var w' := ApplyAll(st, w, ops); id in w'.alerts && SameCreation(w.alerts[id], w'.alerts[id])
    decreases |ops|
  {
    hide Apply;
    if ops != [] {
      StepKeepsCreation(st, w, ops[0], id);
      CreationIsFinal(st, Apply(st, w, ops[0]).0, ops[1..], id);
    }
  }

  /** The alert that a creation event is about is stored with what the event says. */
  ghost predicate Genuine(w: World, r: AuditRecord) {
    r.event.AlertCreated? ==>
      && r.alertId.Some? && r.alertId.value in w.alerts && r.txId == Some(r.event.tx)
      && var a := w.alerts[r.alertId.value];
         a.txId == r.event.tx && a.ruleIds == r.event.ruleIds && a.severity == r.event.severity
         && a.score == r.event.score
  }

  ghost predicate CreationsHold(w: World) { forall i :: 0 <= i < |w.log| ==> Genuine(w, w.log[i]) }

  lemma CreatedAsAsked(st: Settings, w: World, op: Op)
    requires op.request.CreateAlert? && Apply(st, w, op).1.Ok?
    ensures var a := op.request.alert; var w' := Apply(st, w, op).0;
      && op.draw.recordId in w'.alerts && w'.alerts[op.draw.recordId] ==
           Alert(op.draw.recordId, a.txId, a.accounts, a.assetKeys, a.ruleIds, a.score, a.severity, op.draw.at, Open,
                 Pending)
  {
    hide NextRecord;
  }

  lemma StepKeepsCreations(st: Settings, w: World, op: Op)
    requires CreationsHold(w)
    ensures CreationsHold(Apply(st, w, op).0)
  {
    var (w', outcome) := Apply(st, w, op);
    AddedRecord(st, w, op);
    if op.request.CreateAlert? && outcome.Ok? { CreatedAsAsked(st, w, op); }
    hide Apply;
    forall i | 0 <= i < |w.log| ensures Genuine(w', w.log[i]) {
      assert Genuine(w, w.log[i]);
      if w.log[i].event.AlertCreated? { StepKeepsCreation(st, w, op, w.log[i].alertId.value); }
    }
    forall i | 0 <= i < |w'.log| ensures Genuine(w', w'.log[i]) {
      if i < |w.log| { assert w'.log[i] == w.log[i]; }
    }
  }

  /** In any run of operations one after another, whatever fails: each alert whose creation is audited is
      stored, with the transaction, rule ids, severity and score of that event. */
  lemma {:induction false} AuditedCreationsHold(st: Settings, w: World, ops: seq<Op>)
    requires CreationsHold(w)
    ensures CreationsHold(ApplyAll(st, w, ops))
    decreases |ops|
  {
    hide Apply, CreationsHold;
    if ops != [] {
      StepKeepsCreations(st, w, ops[0]);
      AuditedCreationsHold(st, Apply(st, w, ops[0]).0, ops[1..]);
    }
  }

  // ---------- AI noninterference ----------

  predicate IsAiEvent(e: AuditEvent) { e.AiAdvisoryRequested? || e.AiAdvisoryReceived? || e.AiAdvisoryUnavailable? }

  /** The run with every AI-recording operation deleted. */
  function WithoutAi(ops: seq<Op>): seq<Op> { Filter((op: Op) => !IsAi(op.request), ops) }

  datatype Visible = Visible(id: Uuid, alertId: Option<Uuid>, txId: Option<TxId>, event: AuditEvent, eventJson: string,
                             at: Instant)

  /** The non-AI audit events, up to sequence and hashes. */
  function HumanLog(log: seq<AuditRecord>): seq<Visible> {
    Map((r: AuditRecord) => Visible(r.id, r.alertId, r.txId, r.event, r.eventJson, r.createdAt),
        Filter((r: AuditRecord) => !IsAiEvent(r.event), log))
  }

  /** Two worlds that differ in AI state and AI audit records only. */
  ghost predicate SameButAi(v: World, w: World) {
    && v.alerts.Keys == w.alerts.Keys
    && (forall id :: id in v.alerts ==> v.alerts[id].(ai := Pending) == w.alerts[id].(ai := Pending))
    && v.decisions == w.decisions
    && HumanLog(v.log) == HumanLog(w.log)
  }

  lemma HumanLogSnoc(log: seq<AuditRecord>, r: AuditRecord)
    ensures HumanLog(log + [r]) == HumanLog(log)
      + (if IsAiEvent(r.event) then [] else [Visible(r.id, r.alertId, r.txId, r.event, r.eventJson, r.createdAt)])
  {
    FilterSnoc((x: AuditRecord) => !IsAiEvent(x.event), log, r);
  }

  lemma AppendSameEvent(st: Settings, v: World, w: World, id: Uuid, tx: TxId, event: AuditEvent, d: Draw)
    requires SameButAi(v, w)
    ensures SameButAi(Append(st, v, id, tx, event, d), Append(st, w, id, tx, event, d))
  {
    var v', w' := Append(st, v, id, tx, event, d), Append(st, w, id, tx, event, d);
    var r, s := v'.log[|v.log|], w'.log[|w.log|];
    assert Visible(r.id, r.alertId, r.txId, r.event, r.eventJson, r.createdAt)
        == Visible(s.id, s.alertId, s.txId, s.event, s.eventJson, s.createdAt);
    HumanLogSnoc(v.log, r);
    HumanLogSnoc(w.log, s);
  }

  lemma HumanStep(st: Settings, v: World, w: World, op: Op)
    requires SameButAi(v, w) && !IsAi(op.request)
    ensures SameButAi(Apply(st, v, op).0, Apply(st, w, op).0)
    ensures Apply(st, v, op).1 == Apply(st, w, op).1
  {
    hide HumanLog, Append;
    var d := op.draw;
    match op.request
    case CreateAlert(n) =>
      var v1 := v.(alerts := v.alerts[d.recordId := Opened(n, d)]);
      var w1 := w.(alerts := w.alerts[d.recordId := Opened(n, d)]);
      assert SameButAi(v1, w1);
      AppendSameEvent(st, v1, w1, d.recordId, n.txId, AlertCreated(n.txId, n.ruleIds, n.severity, n.score), d);
    case SubmitDecision(id, investigator, decision, rationale) =>
      if id in v.alerts {
        var r := DecisionOf(op.request, d);
        assert v.alerts[id].(ai := Pending) == w.alerts[id].(ai := Pending);
        assert SameButAi(WithDecision(v, r), WithDecision(w, r));
        AppendSameEvent(st, WithDecision(v, r), WithDecision(w, r), id, v.alerts[id].txId,
                        InvestigatorDecision(investigator, decision, rationale, v.alerts[id].status), d);
      }
    case _ => assert false;
  }

  lemma AppendAiEvent(st: Settings, v: World, w: World, id: Uuid, tx: TxId, event: AuditEvent, d: Draw)
    requires SameButAi(v, w) && IsAiEvent(event)
    ensures SameButAi(v, Append(st, w, id, tx, event, d))
  {
    var w' := Append(st, w, id, tx, event, d);
    HumanLogSnoc(w.log, w'.log[|w.log|]);
    hide HumanLog;
  }

  lemma AiStateStep(v: World, w: World, id: Uuid, ai: AiStatus)
    requires SameButAi(v, w)
    ensures SameButAi(v, WithAi(w, id, ai))
  {
    hide HumanLog;
  }

  lemma AiStep(st: Settings, v: World, w: World, op: Op)
    requires SameButAi(v, w) && IsAi(op.request)
    ensures SameButAi(v, Apply(st, w, op).0)
  {
    hide HumanLog, Append;
    match op.request
    case RequestAdvisory(id, tx, payload) =>
      AppendAiEvent(st, v, w, id, tx, AiAdvisoryRequested(payload), op.draw);
    case RecordAdvisory(id, tx, advisory) =>
      AiStateStep(v, w, id, Ready(advisory));
      AppendAiEvent(st, v, WithAi(w, id, Ready(advisory)), id, tx, AiAdvisoryReceived(advisory), op.draw);
    case RecordUnavailable(id, tx, reason) =>
      AiStateStep(v, w, id, Unavailable(reason, op.draw.at));
      AppendAiEvent(st, v, WithAi(w, id, Unavailable(reason, op.draw.at)), id, tx, AiAdvisoryUnavailable(reason),
                    op.draw);
    case _ => assert false;
  }

  lemma {:induction false} RunsAgree(st: Settings, v: World, w: World, ops: seq<Op>)
    requires SameButAi(v, w)
    ensures SameButAi(ApplyAll(st, v, WithoutAi(ops)), ApplyAll(st, w, ops))
    decreases |ops|
  {
    if ops != [] {
      var op, rest := ops[0], ops[1..];
      if IsAi(op.request) {
        AiStep(st, v, w, op);
        RunsAgree(st, v, Apply(st, w, op).0, rest);
        assert WithoutAi(ops) == [] + WithoutAi(rest) == WithoutAi(rest);
      } else {
        HumanStep(st, v, w, op);
        RunsAgree(st, Apply(st, v, op).0, Apply(st, w, op).0, rest);
        assert ([op] + WithoutAi(rest))[1..] == WithoutAi(rest);
      }
    }
  }

  /** Deleting all AI-recording operations from any run, storage errors included, leaves every alert's
      status, every decision and the sequence of other audit events as they were. */
  lemma AiInterferesWithNothing(st: Settings, ops: seq<Op>)
    ensures var with, without := ApplyAll(st, EMPTY, ops), ApplyAll(st, EMPTY, WithoutAi(ops));
      && without.alerts.Keys == with.alerts.Keys
      && (forall id :: id in with.alerts ==> without.alerts[id].status == with.alerts[id].status)
      && without.decisions == with.decisions
      && HumanLog(without.log) == HumanLog(with.log)
  {
    RunsAgree(st, EMPTY, EMPTY, ops);
    var with, without := ApplyAll(st, EMPTY, ops), ApplyAll(st, EMPTY, WithoutAi(ops));
    assert SameButAi(without, with);
    forall id | id in with.alerts ensures without.alerts[id].status == with.alerts[id].status {
      assert without.alerts[id].(ai := Pending).status == with.alerts[id].(ai := Pending).status;
    }
  }
}
