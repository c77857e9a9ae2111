// The alert lifecycle: the alert store, the service that writes alert, decision and audit records in
// order, and what the audit log alone determines.
module AlertService {
  import opened Basics
  import opened Calendar
  import opened Domain
  import opened AuditChain
  import opened AuditStore

  datatype Alert = Alert(
    id: Uuid, txId: TxId, accounts: seq<AccountId>, assetKeys: seq<string>, ruleIds: seq<string>, score: real,
    severity: Severity, createdAt: Instant, status: AlertStatus, ai: AiStatus)

  datatype NewAlert = NewAlert(
    txId: TxId, accounts: seq<AccountId>, assetKeys: seq<string>, ruleIds: seq<string>, score: real, severity: Severity)

  datatype Outcome = Ok | NotFound | StorageError

  /** Where a storage call of an operation fails, if it does. */
  datatype Fault = NoFault | AtRead | AtStore | AtAudit

  // ---------- The alert store ----------

  datatype TransactionFault = Commits | InsertFails | UpdateFails | CommitFails

  /** Primary key of the decision row, and its reference to an existing alert. */
  predicate CanRecord(alerts: map<Uuid, Alert>, decisions: seq<DecisionRecord>, r: DecisionRecord) {
    r.alertId in alerts && forall i :: 0 <= i < |decisions| ==> decisions[i].id != r.id
  }

  function DecisionsOn(decisions: seq<DecisionRecord>, id: Uuid): seq<DecisionRecord> {
    Filter((r: DecisionRecord) => r.alertId == id, decisions)
  }

  class AlertStore {
    var alerts: map<Uuid, Alert>
    var decisions: seq<DecisionRecord>

    constructor ()
      ensures alerts == map[] && decisions == []
    {
      alerts, decisions := map[], [];
    }

    method Insert(alert: Alert, fails: bool) returns (ok: bool)
      modifies this`alerts
      ensures ok <==> !fails && alert.id !in old(alerts)
      ensures alerts == if ok then old(alerts)[alert.id := alert] else old(alerts)
    {
      if fails || alert.id in alerts { return false; }
      alerts := alerts[alert.id := alert];
      ok := true;
    }

    /** A missing row is not an error: the update then touches nothing. */
    method SetAiStatus(id: Uuid, ai: AiStatus, fails: bool) returns (ok: bool)
      modifies this`alerts
      ensures ok <==> !fails
      ensures alerts == if ok && id in old(alerts) then old(alerts)[id := old(alerts)[id].(ai := ai)] else old(alerts)
    {
      if fails { return false; }
      if id in alerts { alerts := alerts[id := alerts[id].(ai := ai)]; }
      ok := true;
    }

    /** One transaction: the decision row and the alert's status change together or not at all. */
    method RecordDecision(r: DecisionRecord, status: AlertStatus, fault: TransactionFault) returns (ok: bool)
      modifies this
      ensures ok <==> fault.Commits? && CanRecord(old(alerts), old(decisions), r)
      ensures decisions == if ok then old(decisions) + [r] else old(decisions)
      ensures alerts == if ok then old(alerts)[r.alertId := old(alerts)[r.alertId].(status := status)] else old(alerts)
    {
      if fault.InsertFails? || !CanRecord(alerts, decisions, r) { return false; }
      var rows := decisions + [r];
      if fault.UpdateFails? { return false; }
      var updated := alerts[r.alertId := alerts[r.alertId].(status := status)];
      if fault.CommitFails? { return false; }
      alerts, decisions := updated, rows;
      ok := true;
    }

    method DecisionHistory(id: Uuid) returns (rs: seq<DecisionRecord>)
      ensures rs == DecisionsOn(decisions, id)
    {
      rs := DecisionsOn(decisions, id);
    }
  }

  // ---------- Operations as functions of the stored world ----------

  datatype World = World(alerts: map<Uuid, Alert>, decisions: seq<DecisionRecord>, log: seq<AuditRecord>)

  const EMPTY := World(map[], [], [])

  /** Random ids and clock readings drawn by one operation. */
  datatype Draw = Draw(recordId: Uuid, at: Instant, auditId: Uuid, auditAt: Instant)

  datatype Request =
    | CreateAlert(alert: NewAlert)
    | RequestAdvisory(alertId: Uuid, txId: TxId, payload: string)
    | RecordAdvisory(alertId: Uuid, txId: TxId, advisory: Advisory)
    | RecordUnavailable(alertId: Uuid, txId: TxId, reason: string)
    | SubmitDecision(alertId: Uuid, investigator: string, decision: Decision, rationale: string)

  datatype Op = Op(request: Request, draw: Draw, fault: Fault)

  /** How records are sealed, and how events are serialised. */
  datatype Settings = Settings(sealing: Sealing, json: AuditEvent -> string)

  function Append(st: Settings, w: World, alertId: Uuid, txId: TxId, event: AuditEvent, d: Draw): World {
    var e := NewAuditEvent(Some(alertId), Some(txId), event, st.json(event));
    w.(log := w.log + [NextRecord(st.sealing, w.log, e, d.auditId, d.auditAt)])
  }

  /** The audit append that ends every operation. */
  function Audited(st: Settings, w: World, alertId: Uuid, txId: TxId, event: AuditEvent, op: Op): (World, Outcome) {
    if op.fault.AtAudit? then (w, StorageError) else (Append(st, w, alertId, txId, event, op.draw), Ok)
  }

  function Opened(n: NewAlert, d: Draw): Alert {
    Alert(d.recordId, n.txId, n.accounts, n.assetKeys, n.ruleIds, n.score, n.severity, d.at, Open, Pending)
  }

  function WithAi(w: World, id: Uuid, ai: AiStatus): World {
    if id in w.alerts then w.(alerts := w.alerts[id := w.alerts[id].(ai := ai)]) else w
  }

  function DecisionOf(q: Request, d: Draw): DecisionRecord
    requires q.SubmitDecision?
  {
    DecisionRecord(d.recordId, q.alertId, q.investigator, q.decision, q.rationale, d.at)
  }

  function WithDecision(w: World, r: DecisionRecord): World
    requires r.alertId in w.alerts
  {
    w.(alerts := w.alerts[r.alertId := w.alerts[r.alertId].(status := StatusOf(r.decision))],
       decisions := w.decisions + [r])
  }

  function Apply(st: Settings, w: World, op: Op): (World, Outcome) {
    var d := op.draw;
    match op.request
    case CreateAlert(n) =>
      if op.fault.AtStore? || d.recordId in w.alerts then (w, StorageError)
      else Audited(st, w.(alerts := w.alerts[d.recordId := Opened(n, d)]), d.recordId, n.txId,
                   AlertCreated(n.txId, n.ruleIds, n.severity, n.score), op)
    case RequestAdvisory(id, tx, payload) =>
      Audited(st, w, id, tx, AiAdvisoryRequested(payload), op)
    case RecordAdvisory(id, tx, advisory) =>
      if op.fault.AtStore? then (w, StorageError)
      else Audited(st, WithAi(w, id, Ready(advisory)), id, tx, AiAdvisoryReceived(advisory), op)
    case RecordUnavailable(id, tx, reason) =>
      if op.fault.AtStore? then (w, StorageError)
      else Audited(st, WithAi(w, id, Unavailable(reason, d.at)), id, tx, AiAdvisoryUnavailable(reason), op)
    case SubmitDecision(id, investigator, decision, rationale) =>
      if op.fault.AtRead? then (w, StorageError)
      else if id !in w.alerts then (w, NotFound)
      else
        var r := DecisionOf(op.request, d);
        if op.fault.AtStore? || !CanRecord(w.alerts, w.decisions, r) then (w, StorageError)
        else Audited(st, WithDecision(w, r), id, w.alerts[id].txId,
                     InvestigatorDecision(investigator, decision, rationale, w.alerts[id].status), op)
  }

  function ApplyAll(st: Settings, w: World, ops: seq<Op>): World
    decreases |ops|
  {
    if ops == [] then w else ApplyAll(st, Apply(st, w, ops[0]).0, ops[1..])
  }

  // ---------- The service ----------

  class Service {
    const store: AlertStore
    const audit: InMemoryAuditStore
    const json: AuditEvent -> string

    ghost function Contents(): World
      reads this, store, audit
    {
      World(store.alerts, store.decisions, audit.records)
    }

    ghost function Configuration(): Settings { Settings(audit.sealing, json) }

    /** The log is as it was, or, exactly when the outcome is Ok, one record longer: that of the given event. */
    predicate Audits(before: seq<AuditRecord>, outcome: Outcome, alertId: Uuid, txId: TxId, event: AuditEvent, d: Draw)
      reads this, audit
    {
      if outcome.Ok? then
        |audit.records| == |before| + 1 && before <= audit.records
        && Holds(audit.records[|before|], NewAuditEvent(Some(alertId), Some(txId), event, json(event)), d.auditId,
                 d.auditAt)
      else audit.records == before
    }

    constructor (store: AlertStore, audit: InMemoryAuditStore, json: AuditEvent -> string)
      ensures this.store == store && this.audit == audit && this.json == json
    {
      this.store, this.audit, this.json := store, audit, json;
    }

    method AppendEvent(alertId: Uuid, txId: TxId, event: AuditEvent, d: Draw, fault: Fault) returns (outcome: Outcome)
      modifies audit
      ensures (Contents(), outcome) == (
        if fault.AtAudit? then (old(Contents()), StorageError)
        else (Append(Configuration(), old(Contents()), alertId, txId, event, d), Ok))
      ensures outcome == if fault.AtAudit? then StorageError else Ok
      ensures Audits(old(audit.records), outcome, alertId, txId, event, d)
    {
      if fault.AtAudit? { return StorageError; }
      var _ := audit.Append(NewAuditEvent(Some(alertId), Some(txId), event, json(event)), d.auditId, d.auditAt);
      outcome := Ok;
    }

    method Create(n: NewAlert, d: Draw, fault: Fault) returns (outcome: Outcome)
      modifies store, audit
      ensures (Contents(), outcome) == Apply(Configuration(), old(Contents()), Op(CreateAlert(n), d, fault))
      ensures var stored := !fault.AtStore? && d.recordId !in old(store.alerts);
        && (outcome.Ok? <==> stored && !fault.AtAudit?) && !outcome.NotFound?
        && (stored ==>
              && store.alerts.Keys == old(store.alerts).Keys + {d.recordId}
              && var a := store.alerts[d.recordId];
              && a.id == d.recordId && a.txId == n.txId && a.accounts == n.accounts && a.assetKeys == n.assetKeys
              && a.ruleIds == n.ruleIds && a.score == n.score && a.severity == n.severity && a.createdAt == d.at
              && a.status == Open && a.ai == Pending)
      ensures Audits(old(audit.records), outcome, d.recordId, n.txId,
                     AlertCreated(n.txId, n.ruleIds, n.severity, n.score), d)
    {
      var alert :=
          Alert(d.recordId, n.txId, n.accounts, n.assetKeys, n.ruleIds, n.score, n.severity, d.at, Open, Pending);
      var ok := store.Insert(alert, fault.AtStore?);
      if !ok { return StorageError; }
      outcome := AppendEvent(alert.id, alert.txId, AlertCreated(alert.txId, alert.ruleIds, alert.severity, alert.score),
                             d, fault);
    }

    method RecordAiAdvisoryRequested(id: Uuid, tx: TxId, payload: string, d: Draw, fault: Fault)
        returns (outcome: Outcome)
      modifies audit
      ensures (Contents(), outcome)
        == Apply(Configuration(), old(Contents()), Op(RequestAdvisory(id, tx, payload), d, fault))
      ensures outcome == if fault.AtAudit? then StorageError else Ok
      ensures Audits(old(audit.records), outcome, id, tx, AiAdvisoryRequested(payload), d)
    {
      outcome := AppendEvent(id, tx, AiAdvisoryRequested(payload), d, fault);
    }

    method RecordAiAdvisory(id: Uuid, tx: TxId, advisory: Advisory, d: Draw, fault: Fault) returns (outcome: Outcome)
      modifies store, audit
      ensures (Contents(), outcome)
        == Apply(Configuration(), old(Contents()), Op(RecordAdvisory(id, tx, advisory), d, fault))
      ensures outcome == if fault.AtStore? || fault.AtAudit? then StorageError else Ok
      ensures !fault.AtStore? && id in old(store.alerts) ==>
        id in store.alerts && store.alerts[id] == old(store.alerts)[id].(ai := Ready(advisory))
      ensures fault.AtStore? ==> store.alerts == old(store.alerts)
      ensures Audits(old(audit.records), outcome, id, tx, AiAdvisoryReceived(advisory), d)
    {
      var ok := store.SetAiStatus(id, Ready(advisory), fault.AtStore?);
      if !ok { return StorageError; }
      outcome := AppendEvent(id, tx, AiAdvisoryReceived(advisory), d, fault);
    }

    method RecordAiUnavailable(id: Uuid, tx: TxId, reason: string, d: Draw, fault: Fault) returns (outcome: Outcome)
      modifies store, audit
      ensures (Contents(), outcome)
        == Apply(Configuration(), old(Contents()), Op(RecordUnavailable(id, tx, reason), d, fault))
      ensures outcome == if fault.AtStore? || fault.AtAudit? then StorageError else Ok
      ensures !fault.AtStore? && id in old(store.alerts) ==>
        id in store.alerts && store.alerts[id] == old(store.alerts)[id].(ai := Unavailable(reason, d.at))
      ensures fault.AtStore? ==> store.alerts == old(store.alerts)
      ensures Audits(old(audit.records), outcome, id, tx, AiAdvisoryUnavailable(reason), d)
    {
      var ok := store.SetAiStatus(id, Unavailable(reason, d.at), fault.AtStore?);
      if !ok { return StorageError; }
      outcome := AppendEvent(id, tx, AiAdvisoryUnavailable(reason), d, fault);
    }

    method Decide(id: Uuid, investigator: string, decision: Decision, rationale: string, d: Draw, fault: Fault)
        returns (outcome: Outcome)
      modifies store, audit
      ensures (Contents(), outcome)
        == Apply(Configuration(), old(Contents()), Op(SubmitDecision(id, investigator, decision, rationale), d, fault))
      ensures var r := DecisionRecord(d.recordId, id, investigator, decision, rationale, d.at);
        var stored := fault !in {AtRead, AtStore} && CanRecord(old(store.alerts), old(store.decisions), r);
        && (outcome.NotFound? <==> !fault.AtRead? && id !in old(store.alerts))
        && (outcome.Ok? <==> stored && !fault.AtAudit?)
        && store.decisions == old(store.decisions) + (if stored then [r] else [])
        && (stored ==>
              id in store.alerts && store.alerts[id] == old(store.alerts)[id].(status := StatusOf(decision)))
      ensures outcome.Ok? ==> id in old(store.alerts)
      ensures if !outcome.Ok? then audit.records == old(audit.records) else
        Audits(old(audit.records), outcome, id, old(store.alerts)[id].txId,
               InvestigatorDecision(investigator, decision, rationale, old(store.alerts)[id].status), d)
    {
      if fault.AtRead? { return StorageError; }
      if id !in store.alerts { return NotFound; }
      var alert := store.alerts[id];
      var record := DecisionRecord(d.recordId, id, investigator, decision, rationale, d.at);
      var ok := store.RecordDecision(record, StatusOf(decision), if fault.AtStore? then CommitFails else Commits);
      if !ok { return StorageError; }
      outcome := AppendEvent(id, alert.txId, InvestigatorDecision(investigator, decision, rationale, alert.status), d,
                             fault);
    }
  }
}
