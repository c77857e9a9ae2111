// Entities shared by the alert, audit and ingestion parts.
module Domain {
  import opened Basics
  import opened Calendar

  datatype Severity = Low | Medium | High | Critical

  datatype Decision = Dismissed | UnderInvestigation | Escalated | ConfirmedSuspicious

  datatype AlertStatus = Open | UnderInvestigation | Escalated | Dismissed | ConfirmedSuspicious

  /** The status a decision moves an alert to. */
  function StatusOf(d: Decision): AlertStatus {
    match d
    case Dismissed => AlertStatus.Dismissed
    case UnderInvestigation => AlertStatus.UnderInvestigation
    case Escalated => AlertStatus.Escalated
    case ConfirmedSuspicious => AlertStatus.ConfirmedSuspicious
  }

  function DecisionText(d: Decision): string {
    match d
    case Dismissed => "dismissed"
    case UnderInvestigation => "under_investigation"
    case Escalated => "escalated"
    case ConfirmedSuspicious => "confirmed_suspicious"
  }

  function StatusText(s: AlertStatus): string {
    match s
    case Open => "open"
    case UnderInvestigation => "under_investigation"
    case Escalated => "escalated"
    case Dismissed => "dismissed"
    case ConfirmedSuspicious => "confirmed_suspicious"
  }

  function ParseDecision(text: string): Option<Decision> {
    if text == "dismissed" then Some(Decision.Dismissed)
    else if text == "under_investigation" then Some(Decision.UnderInvestigation)
    else if text == "escalated" then Some(Decision.Escalated)
    else if text == "confirmed_suspicious" then Some(Decision.ConfirmedSuspicious)
    else None
  }

  /** A decision request is accepted exactly when it spells the status it leads to, and no text leads
      back to `Open`. Four texts are accepted, and each decision is written as it is read. */
  lemma DecisionSpellsItsStatus(text: string, status: AlertStatus)
    ensures (exists d :: ParseDecision(text) == Some(d) && StatusOf(d) == status)
      <==> (status != Open && text == StatusText(status))
    ensures ParseDecision(text).Some? <==>
      text in {"dismissed", "under_investigation", "escalated", "confirmed_suspicious"}
    ensures forall d :: ParseDecision(text) == Some(d) <==> text == DecisionText(d)
  {
    assert ParseDecision("dismissed") == Some(Decision.Dismissed);
    assert ParseDecision("under_investigation") == Some(Decision.UnderInvestigation);
    assert ParseDecision("escalated") == Some(Decision.Escalated);
    assert ParseDecision("confirmed_suspicious") == Some(Decision.ConfirmedSuspicious);
  }

  /** Text sent to and received from the model; none of it can name a decision. */
  datatype Advisory = Advisory(summary: string, riskLevel: string, explanation: string)

  datatype AiStatus = Pending | Ready(advisory: Advisory) | Unavailable(reason: string, at: Instant)

  datatype AuditEvent =
    | AlertCreated(tx: TxId, ruleIds: seq<string>, severity: Severity, score: real)
    | AiAdvisoryRequested(payload: string)
    | AiAdvisoryReceived(advisory: Advisory)
    | AiAdvisoryUnavailable(reason: string)
    | InvestigatorDecision(investigator: string, decision: Decision, rationale: string, previous: AlertStatus)
    | IngestionFailure(source: string, error: string)

  datatype DecisionRecord =
    DecisionRecord(id: Uuid, alertId: Uuid, investigator: string, decision: Decision, rationale: string,
                   createdAt: Instant)
}
