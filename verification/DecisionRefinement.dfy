// The service, run one operation after another, is a special case of the interleaved decision protocol.
module DecisionRefinement {
  import opened Basics
  import opened Domain
  import opened AuditChain
  import A = AlertService
  import P = DecisionProtocol

  /** What one decision event of the audit log says. */
  datatype Logged = Logged(req: P.Request, previous: AlertStatus)

  /** The decision events of a log, in order. */
  function DecisionsIn(log: seq<AuditRecord>): seq<Logged> {
    if log == [] then []
    else
      var last := log[|log| - 1];
      DecisionsIn(log[..|log| - 1])
        + match last.event
          case InvestigatorDecision(investigator, decision, rationale, previous) =>
            if last.alertId.None? then []
            else [Logged(P.Request(last.alertId.value, investigator, decision, rationale), previous)]
          case _ => []
  }

  function Entries(audits: seq<P.AuditEntry>): seq<Logged> {
    Map((e: P.AuditEntry) => Logged(e.req, e.previous), audits)
  }

  /** The same alerts with the same statuses, the same decision rows, and the same decision events in the log. */
  ghost predicate Agree(s: P.State, w: A.World) {
    && s.alerts.Keys == w.alerts.Keys && (forall id :: id in w.alerts ==> s.alerts[id] == w.alerts[id].status)
    && s.commits == w.decisions && Entries(s.audits) == DecisionsIn(w.log)
  }

  function RequestOf(q: A.Request): P.Request
    requires q.SubmitDecision?
  {
    P.Request(q.alertId, q.investigator, q.decision, q.rationale)
  }

  /** The steps of one operation; a decision is request number `n`, and stops where the operation fails. */
  function ActionsOf(op: A.Op, n: nat): seq<P.Action> {
    match op.request
    case CreateAlert(_) => if op.fault.AtStore? then [] else [P.OpenAlert(op.draw.recordId)]
    case SubmitDecision(_, _, _, _) =>
      var submit, commit := P.Submit(RequestOf(op.request)), P.Commit(n, op.draw.recordId, op.draw.at);
      (match op.fault
       case AtRead => [submit, P.Abort(n)]
       case AtStore => [submit, P.Read(n), P.Abort(n)]
       case AtAudit => [submit, P.Read(n), commit, P.Abort(n)]
       case NoFault => [submit, P.Read(n), commit, P.Audit(n)])
    case _ => []
  }

  function Submitted(op: A.Op): nat { if op.request.SubmitDecision? then 1 else 0 }

  function ActionsOfAll(ops: seq<A.Op>, n: nat): seq<P.Action>
    decreases |ops|
  {
    if ops == [] then [] else ActionsOf(ops[0], n) + ActionsOfAll(ops[1..], n + Submitted(ops[0]))
  }

  lemma RunTwo(h: P.Hashing, s: P.State, a: P.Action, b: P.Action)
    ensures P.Run(h, s, [a, b]) == P.Step(h, P.Step(h, s, a), b)
  {
    hide P.Step;
    P.RunCons(h, s, a, [b]);
    P.RunCons(h, P.Step(h, s, a), b, []);
    assert [a] + [b] == [a, b] && [b] + [] == [b];
    assert P.Run(h, P.Step(h, P.Step(h, s, a), b), []) == P.Step(h, P.Step(h, s, a), b);
  }

  lemma RunThree(h: P.Hashing, s: P.State, a: P.Action, b: P.Action, c: P.Action)
    ensures P.Run(h, s, [a, b, c]) == P.Step(h, P.Step(h, P.Step(h, s, a), b), c)
  {
    hide P.Step, P.Run;
    P.RunCons(h, s, a, [b, c]);
    RunTwo(h, P.Step(h, s, a), b, c);
    assert [a] + [b, c] == [a, b, c];
  }

  lemma RunFour(h: P.Hashing, s: P.State, a: P.Action, b: P.Action, c: P.Action, d: P.Action)
    ensures P.Run(h, s, [a, b, c, d]) == P.Step(h, P.Step(h, P.Step(h, P.Step(h, s, a), b), c), d)
  {
    hide P.Step, P.Run;
    P.RunCons(h, s, a, [b, c, d]);
    RunThree(h, P.Step(h, s, a), b, c, d);
    assert [a] + [b, c, d] == [a, b, c, d];
  }

  lemma {:induction false} RunConcat(h: P.Hashing, s: P.State, xs: seq<P.Action>, ys: seq<P.Action>)
    ensures P.Run(h, s, xs + ys) == P.Run(h, P.Run(h, s, xs), ys)
    decreases |xs|
  {
    hide P.Step;
    if xs == [] {
      assert xs + ys == ys;
    } else {
      assert (xs + ys)[1..] == xs[1..] + ys;
      RunConcat(h, P.Step(h, s, xs[0]), xs[1..], ys);
    }
  }

  lemma DecisionsSnoc(log: seq<AuditRecord>, r: AuditRecord)
    ensures DecisionsIn(log + [r]) == DecisionsIn(log)
      + match r.event
        case InvestigatorDecision(investigator, decision, rationale, previous) =>
          if r.alertId.None? then []
          else [Logged(P.Request(r.alertId.value, investigator, decision, rationale), previous)]
        case _ => []
  {
    assert (log + [r])[..|log|] == log;
  }

  /** A decision request taken through the protocol alone, up to where its operation fails. */
  function Solo(s: P.State, w: A.World, op: A.Op): P.State
    requires op.request.SubmitDecision? && Agree(s, w)
  {
    var q, d := RequestOf(op.request), op.draw;
    var refused := s.(tasks := s.tasks + [P.Task(q, P.Refused)]);
    if op.fault.AtRead? || op.fault.AtStore? || q.alertId !in w.alerts
       || !A.CanRecord(w.alerts, w.decisions, A.DecisionOf(op.request, d)) then refused
    else
      var previous, n := s.alerts[q.alertId], |s.commits|;
      var stored := s.(alerts := s.alerts[q.alertId := StatusOf(q.decision)],
                       commits := s.commits + [P.RecordOf(q, d.recordId, d.at)]);
      if op.fault.AtAudit? then stored.(tasks := s.tasks + [P.Task(q, P.Stranded(previous, n, n))])
      else stored.(tasks := s.tasks + [P.Task(q, P.Audited(n))],
                   audits := s.audits + [P.AuditEntry(q, previous, n, n)])
  }

  lemma KeyTaken(s: P.State, w: A.World, op: A.Op)
    requires op.request.SubmitDecision? && s.commits == w.decisions && op.request.alertId in w.alerts
    ensures (exists r :: r in s.commits && r.id == op.draw.recordId)
      <==> !A.CanRecord(w.alerts, w.decisions, A.DecisionOf(op.request, op.draw))
  {
  }

  /** One more request, in the given phase. */
  function With(s: P.State, q: P.Request, p: P.Phase): P.State { s.(tasks := s.tasks + [P.Task(q, p)]) }

  lemma Moved(s: P.State, q: P.Request, p: P.Phase, next: P.Phase)
    ensures P.SetPhase(With(s, q, p), |s.tasks|, next) == With(s, q, next)
  {
  }

  lemma ReadStep(h: P.Hashing, s: P.State, q: P.Request)
    ensures P.Step(h, With(s, q, P.Waiting), P.Read(|s.tasks|))
      == With(s, q, if q.alertId in s.alerts then P.HasRead(s.alerts[q.alertId], |s.commits|) else P.Refused)
  {
    Moved(s, q, P.Waiting, P.Refused);
    if q.alertId in s.alerts { Moved(s, q, P.Waiting, P.HasRead(s.alerts[q.alertId], |s.commits|)); }
    hide P.SetPhase;
  }

  /** The tables after the decision is stored. */
  function Stored(s: P.State, q: P.Request, d: A.Draw): P.State {
    s.(alerts := s.alerts[q.alertId := StatusOf(q.decision)], commits := s.commits + [P.RecordOf(q, d.recordId, d.at)])
  }

  lemma CommitStep(h: P.Hashing, s: P.State, q: P.Request, d: A.Draw, previous: AlertStatus)
    ensures var n := |s.commits|;
      P.Step(h, With(s, q, P.HasRead(previous, n)), P.Commit(|s.tasks|, d.recordId, d.at)) ==
        if exists r :: r in s.commits && r.id == d.recordId then With(s, q, P.Refused)
        else With(Stored(s, q, d), q, P.Committed(previous, n, n))
  {
    Moved(s, q, P.HasRead(previous, |s.commits|), P.Refused);
    Moved(s, q, P.HasRead(previous, |s.commits|), P.Committed(previous, |s.commits|, |s.commits|));
  }

  /** What does not move a request that was refused. */
  lemma RefusedStays(h: P.Hashing, s: P.State, q: P.Request, a: P.Action)
    requires (a.Commit? || a.Audit? || a.Abort?) && a.task == |s.tasks|
    ensures P.Step(h, With(s, q, P.Refused), a) == With(s, q, P.Refused)
  {
  }

  lemma LastStep(h: P.Hashing, s: P.State, q: P.Request, previous: AlertStatus, n: nat)
    ensures P.Step(h, With(s, q, P.Committed(previous, n, n)), P.Abort(|s.tasks|))
      == With(s, q, P.Stranded(previous, n, n))
    ensures P.Step(h, With(s, q, P.Committed(previous, n, n)), P.Audit(|s.tasks|))
      == With(s.(audits := s.audits + [P.AuditEntry(q, previous, n, n)]), q, P.Audited(n))
  {
    Moved(s, q, P.Committed(previous, n, n), P.Stranded(previous, n, n));
    Moved(s, q, P.Committed(previous, n, n), P.Audited(n));
  }

  lemma FirstSteps(h: P.Hashing, s: P.State, q: P.Request, previous: AlertStatus, n: nat)
    ensures P.Step(h, s, P.Submit(q)) == With(s, q, P.Waiting)
    ensures P.Step(h, With(s, q, P.Waiting), P.Abort(|s.tasks|)) == With(s, q, P.Refused)
    ensures P.Step(h, With(s, q, P.HasRead(previous, n)), P.Abort(|s.tasks|)) == With(s, q, P.Refused)
  {
    Moved(s, q, P.Waiting, P.Refused);
    Moved(s, q, P.HasRead(previous, n), P.Refused);
  }

  lemma SoloRun(h: P.Hashing, s: P.State, w: A.World, op: A.Op)
    requires op.request.SubmitDecision? && Agree(s, w)
    ensures P.Run(h, s, ActionsOf(op, |s.tasks|)) == Solo(s, w, op)
  {
    var n, q, d := |s.tasks|, RequestOf(op.request), op.draw;
    var submit, commit := P.Submit(q), P.Commit(n, d.recordId, d.at);
    var previous := if q.alertId in s.alerts then s.alerts[q.alertId] else Open;
    FirstSteps(h, s, q, previous, |s.commits|);
    ReadStep(h, s, q);
    CommitStep(h, s, q, d, previous);
    RefusedStays(h, s, q, commit);
    RefusedStays(h, s, q, P.Abort(n));
    RefusedStays(h, s, q, P.Audit(n));
    LastStep(h, Stored(s, q, d), q, previous, |s.commits|);
    if q.alertId in w.alerts { KeyTaken(s, w, op); }
    hide Entries, DecisionsIn, A.CanRecord, P.Run, P.Step;
    match op.fault
    case AtRead => RunTwo(h, s, submit, P.Abort(n));
    case AtStore => RunThree(h, s, submit, P.Read(n), P.Abort(n));
    case AtAudit => RunFour(h, s, submit, P.Read(n), commit, P.Abort(n));
    case NoFault => RunFour(h, s, submit, P.Read(n), commit, P.Audit(n));
  }

  lemma NextHolds(st: A.Settings, w: A.World, op: A.Op)
    requires A.Apply(st, w, op).0.log != w.log
    ensures |A.Apply(st, w, op).0.log| == |w.log| + 1
    ensures op.request.SubmitDecision? ==>
      var r := A.Apply(st, w, op).0.log[|w.log|];
      && op.request.alertId in w.alerts && r.alertId == Some(op.request.alertId)
      && r.event == InvestigatorDecision(op.request.investigator, op.request.decision, op.request.rationale,
                                         w.alerts[op.request.alertId].status)
    ensures !op.request.SubmitDecision? ==> !A.Apply(st, w, op).0.log[|w.log|].event.InvestigatorDecision?
    ensures A.Apply(st, w, op).0.log[..|w.log|] == w.log
  {
    hide Head, ComputeHash, A.CanRecord;
  }

  lemma DecisionAgrees(st: A.Settings, s: P.State, w: A.World, op: A.Op)
    requires op.request.SubmitDecision? && Agree(s, w)
    ensures Agree(Solo(s, w, op), A.Apply(st, w, op).0)
    ensures var outcome, phase := A.Apply(st, w, op).1, Solo(s, w, op).tasks[|s.tasks|].phase;
      (outcome.Ok? <==> phase.Audited?) && (phase.Stranded? ==> op.fault.AtAudit?)
  {
    hide DecisionsIn, A.CanRecord, NextRecord;
    var w', s' := A.Apply(st, w, op).0, Solo(s, w, op);
    if w'.log != w.log {
      var r := w'.log[|w.log|];
      assert w'.log == w.log + [r] by { hide Entries; }
      assert r.alertId == Some(op.request.alertId) && r.event == InvestigatorDecision(
          op.request.investigator, op.request.decision, op.request.rationale, w.alerts[op.request.alertId].status) by {
        NextHolds(st, w, op);
      }
      DecisionsSnoc(w.log, r);
      assert Entries(s'.audits) == Entries(s.audits) + [Logged(RequestOf(op.request), s.alerts[op.request.alertId])];
    }
  }

  /** An operation that is no decision adds an alert at most. */
  lemma OtherEffects(st: A.Settings, w: A.World, op: A.Op)
    requires !op.request.SubmitDecision?
    ensures var w', id := A.Apply(st, w, op).0, op.draw.recordId;
      && w'.decisions == w.decisions
      && w'.alerts.Keys == w.alerts.Keys + (if op.request.CreateAlert? && !op.fault.AtStore? then {id} else {})
      && (forall other :: other in w.alerts ==> w'.alerts[other].status == w.alerts[other].status)
      && (id in w'.alerts && id !in w.alerts ==> w'.alerts[id].status == Open)
  {
    hide NextRecord;
  }

  lemma OtherEvents(st: A.Settings, w: A.World, op: A.Op)
    requires !op.request.SubmitDecision?
    ensures DecisionsIn(A.Apply(st, w, op).0.log) == DecisionsIn(w.log)
  {
    var w' := A.Apply(st, w, op).0;
    if w'.log != w.log {
      NextHolds(st, w, op);
      hide A.Apply;
      assert w'.log == w.log + [w'.log[|w.log|]];
      DecisionsSnoc(w.log, w'.log[|w.log|]);
    }
  }

  lemma RunOne(h: P.Hashing, s: P.State, a: P.Action)
    ensures P.Run(h, s, [a]) == P.Step(h, s, a) && P.Run(h, s, []) == s
  {
    hide P.Step;
    P.RunCons(h, s, a, []);
    assert [a] + [] == [a] && P.Run(h, P.Step(h, s, a), []) == P.Step(h, s, a);
  }

  /** The steps of an operation that is no decision open its alert, or do nothing. */
  lemma OtherRun(h: P.Hashing, s: P.State, op: A.Op, n: nat)
    requires !op.request.SubmitDecision?
    ensures var id := op.draw.recordId;
      P.Run(h, s, ActionsOf(op, n)) ==
        if op.request.CreateAlert? && !op.fault.AtStore? && id !in s.alerts then s.(alerts := s.alerts[id := Open])
        else s
  {
    RunOne(h, s, P.OpenAlert(op.draw.recordId));
    hide P.Run;
  }

  lemma OtherAgrees(h: P.Hashing, st: A.Settings, s: P.State, w: A.World, op: A.Op, n: nat)
    requires !op.request.SubmitDecision? && Agree(s, w)
    ensures var s' := P.Run(h, s, ActionsOf(op, n)); Agree(s', A.Apply(st, w, op).0) && |s'.tasks| == |s.tasks|
  {
    OtherEffects(st, w, op);
    OtherEvents(st, w, op);
    OtherRun(h, s, op, n);
    var s', w' := P.Run(h, s, ActionsOf(op, n)), A.Apply(st, w, op).0;
    hide P.Run, P.Step, ActionsOf, A.Apply, DecisionsIn, Entries;
    assert s'.alerts.Keys == w'.alerts.Keys;
  }

  lemma StepAgrees(h: P.Hashing, st: A.Settings, s: P.State, w: A.World, op: A.Op)
    requires Agree(s, w)
    ensures var s' := P.Run(h, s, ActionsOf(op, |s.tasks|));
      Agree(s', A.Apply(st, w, op).0) && |s'.tasks| == |s.tasks| + Submitted(op)
  {
    if op.request.SubmitDecision? {
      SoloRun(h, s, w, op);
      DecisionAgrees(st, s, w, op);
      hide P.Run, A.Apply, Agree, ActionsOf;
    } else {
      OtherAgrees(h, st, s, w, op, |s.tasks|);
    }
  }

  lemma {:induction false} RunAgrees(h: P.Hashing, st: A.Settings, s: P.State, w: A.World, ops: seq<A.Op>)
    requires Agree(s, w)
    ensures Agree(P.Run(h, s, ActionsOfAll(ops, |s.tasks|)), A.ApplyAll(st, w, ops))
    decreases |ops|
  {
    hide Agree, A.Apply, P.Step, ActionsOf;
    if ops != [] {
      var s1 := P.Run(h, s, ActionsOf(ops[0], |s.tasks|));
      StepAgrees(h, st, s, w, ops[0]);
      RunAgrees(h, st, s1, A.Apply(st, w, ops[0]).0, ops[1..]);
      RunConcat(h, s, ActionsOf(ops[0], |s.tasks|), ActionsOfAll(ops[1..], |s1.tasks|));
    }
  }

  /** Every run of the service, one operation after another and whatever fails, is a run of the protocol: with the
      same alerts and statuses, the same decision rows and the same decision events in the same order. */
  lemma SequentialRunsAreProtocolRuns(h: P.Hashing, st: A.Settings, admin: string, ops: seq<A.Op>)
    ensures Agree(P.Run(h, P.Start(admin), ActionsOfAll(ops, 0)), A.ApplyAll(st, A.EMPTY, ops))
  {
    RunAgrees(h, st, P.Start(admin), A.EMPTY, ops);
  }
}
