// Concurrent decisions: each request reads the alert, commits decision and status in one database
// transaction, appends the audit event, then anchors. Requests interleave freely between these steps
// and may fail or be cancelled at any of them. The audit append is one step here; AppendProtocol
// justifies that. A request cancelled before its audit may still be audited later, when the driver
// executes its insert.
module DecisionProtocol {
  import opened Basics
  import opened Calendar
  import opened Domain
  import opened AnchorContract

  datatype Request = Request(alertId: Uuid, investigator: string, decision: Decision, rationale: string)

  /** `seen` is a history variable: how many decisions had been committed when the alert was read. */
  datatype Phase =
    | Waiting
    | HasRead(previous: AlertStatus, seen: nat)
    | Committed(previous: AlertStatus, seen: nat, index: nat)  // stored, not audited
    | Audited(index: nat)                                      // Ok, not anchored
    | Done
    | Refused                                                  // ended before its decision was stored
    | Stranded(previous: AlertStatus, seen: nat, index: nat)   // ended between store and audit

  datatype Task = Task(req: Request, phase: Phase)

  /** An audited decision; `seen` and `index` are history variables. */
  datatype AuditEntry = AuditEntry(req: Request, previous: AlertStatus, seen: nat, index: nat)

  /** `commits` are the decision rows in commit order. */
  datatype State = State(
    alerts: map<Uuid, AlertStatus>, tasks: seq<Task>, commits: seq<DecisionRecord>, audits: seq<AuditEntry>,
    contract: Contract)

  datatype Action =
    | OpenAlert(alertId: Uuid)
    | Submit(req: Request)
    | Read(task: nat)
    | Commit(task: nat, id: Uuid, at: Instant)
    | Audit(task: nat)
    | LateAudit(task: nat)             // the audit of a request that ended before it
    | AnchorStep(task: nat, signers: set<Address>, now: nat)
    | Abort(task: nat)
    | Outside(call: Call)

  /** The two hashes the anchor uses; every result holds for any such functions. */
  datatype Hashing = Hashing(ofAlert: Uuid -> string, ofDecision: DecisionRecord -> string)

  /** The hashes in use. */
  function AnchorHashing(h: Hash): Hashing {
    Hashing((id: Uuid) => HashAlertId(h, id), (r: DecisionRecord) => HashDecision(h, r))
  }

  /** Everyone but this service lacks the contract admin's signature. */
  predicate ByOutsider(c: Contract, call: Call) {
    call.SetAnchor? ==> c.admin.Some? ==> c.admin.value !in call.signers
  }

  function RequestOf(r: DecisionRecord): Request { Request(r.alertId, r.investigator, r.decision, r.rationale) }

  function RecordOf(q: Request, id: Uuid, at: Instant): DecisionRecord {
    DecisionRecord(id, q.alertId, q.investigator, q.decision, q.rationale, at)
  }

  function SetPhase(s: State, t: nat, p: Phase): State
    requires t < |s.tasks|
  {
    s.(tasks := s.tasks[t := s.tasks[t].(phase := p)])
  }

  function CommitStep(s: State, t: nat, r: DecisionRecord): State
    requires t < |s.tasks| && s.tasks[t].phase.HasRead?
  {
    var p := s.tasks[t].phase;
    SetPhase(s, t, Committed(p.previous, p.seen, |s.commits|)).(
      commits := s.commits + [r], alerts := s.alerts[r.alertId := StatusOf(r.decision)])
  }

  /** Its decision is stored and not audited. */
  predicate Unaudited(t: Task) { t.phase.Committed? || t.phase.Stranded? }

  function EntryOf(t: Task): AuditEntry
    requires Unaudited(t)
  {
    AuditEntry(t.req, t.phase.previous, t.phase.seen, t.phase.index)
  }

  function Step(h: Hashing, s: State, a: Action): State {
    match a
    case OpenAlert(id) => if id in s.alerts then s else s.(alerts := s.alerts[id := Open])
    case Submit(q) => s.(tasks := s.tasks + [Task(q, Waiting)])
    case Read(t) =>
      if t < |s.tasks| && s.tasks[t].phase.Waiting? then
        var id := s.tasks[t].req.alertId;
        SetPhase(s, t, if id in s.alerts then HasRead(s.alerts[id], |s.commits|) else Refused)
      else s
    case Commit(t, id, at) =>
      if t < |s.tasks| && s.tasks[t].phase.HasRead? then
        if exists r :: r in s.commits && r.id == id then SetPhase(s, t, Refused)  // primary key violation, rolled back
        else CommitStep(s, t, RecordOf(s.tasks[t].req, id, at))
      else s
    case Audit(t) =>
      if t < |s.tasks| && s.tasks[t].phase.Committed? then
        SetPhase(s, t, Audited(s.tasks[t].phase.index)).(audits := s.audits + [EntryOf(s.tasks[t])])
      else s
    case LateAudit(t) =>
      if t < |s.tasks| && s.tasks[t].phase.Stranded? then
        SetPhase(s, t, Done).(audits := s.audits + [EntryOf(s.tasks[t])])
      else s
    case AnchorStep(t, signers, now) =>
      if t < |s.tasks| && s.tasks[t].phase.Audited? && s.tasks[t].phase.index < |s.commits| then
        var r := s.commits[s.tasks[t].phase.index];
        var call := SetAnchor(signers, h.ofAlert(r.alertId), h.ofDecision(r), now);
        SetPhase(s, t, Done).(contract := Execute(s.contract, call).0)
      else s
    case Abort(t) =>
      if t < |s.tasks| then
        match s.tasks[t].phase
        case Waiting => SetPhase(s, t, Refused)
        case HasRead(_, _) => SetPhase(s, t, Refused)
        case Committed(previous, seen, index) => SetPhase(s, t, Stranded(previous, seen, index))
        case Audited(_) => SetPhase(s, t, Done)
        case _ => s
      else s
    case Outside(call) => if ByOutsider(s.contract, call) then s.(contract := Execute(s.contract, call).0) else s
  }

  function Run(h: Hashing, s: State, actions: seq<Action>): State
    decreases |actions|
  {
    if actions == [] then s else Run(h, Step(h, s, actions[0]), actions[1..])
  }

  /** Nothing stored yet; the service holds the contract's admin identity. */
  function Start(admin: Address): State { State(map[], [], [], [], Contract(Some(admin), map[])) }

  // ---------- Specification ----------

  /** The last decision stored for the alert. */
  function LastFor(commits: seq<DecisionRecord>, alertId: Uuid): Option<DecisionRecord> {
    if commits == [] then None
    else if commits[|commits| - 1].alertId == alertId then Some(commits[|commits| - 1])
    else LastFor(commits[..|commits| - 1], alertId)
  }

  function StatusAfter(commits: seq<DecisionRecord>, alertId: Uuid): AlertStatus {
    match LastFor(commits, alertId)
    case None => Open
    case Some(r) => StatusOf(r.decision)
  }

  function PendingOf(t: Task): multiset<Request> {
    if Unaudited(t) then multiset{t.req} else multiset{}
  }

  /** Requests of the tasks that stored a decision and have not audited it, failed ones included. */
  function Pending(tasks: seq<Task>): multiset<Request> {
    if tasks == [] then multiset{} else Pending(tasks[..|tasks| - 1]) + PendingOf(tasks[|tasks| - 1])
  }

  function Stored(commits: seq<DecisionRecord>): multiset<Request> {
    if commits == [] then multiset{} else Stored(commits[..|commits| - 1]) + multiset{RequestOf(commits[|commits| - 1])}
  }

  function Logged(audits: seq<AuditEntry>): multiset<Request> {
    if audits == [] then multiset{} else Logged(audits[..|audits| - 1]) + multiset{audits[|audits| - 1].req}
  }

  /** A status read before the commit at `index`, when `seen` decisions had been committed. */
  ghost predicate WasRead(commits: seq<DecisionRecord>, q: Request, previous: AlertStatus, seen: nat, index: nat) {
    seen <= index < |commits| && RequestOf(commits[index]) == q && previous == StatusAfter(commits[..seen], q.alertId)
  }

  ghost predicate StatusInv(s: State) {
    && (forall id :: id in s.alerts ==> s.alerts[id] == StatusAfter(s.commits, id))
    && (forall i :: 0 <= i < |s.commits| ==> s.commits[i].alertId in s.alerts)
  }

  ghost predicate TaskInv(known: set<Uuid>, commits: seq<DecisionRecord>, t: Task) {
    match t.phase
    case HasRead(previous, seen) =>
      seen <= |commits| && previous == StatusAfter(commits[..seen], t.req.alertId) && t.req.alertId in known
    case Committed(previous, seen, index) => WasRead(commits, t.req, previous, seen, index)
    case Audited(index) => index < |commits| && RequestOf(commits[index]) == t.req
    case Stranded(previous, seen, index) => WasRead(commits, t.req, previous, seen, index)
    case _ => true
  }

  ghost predicate HistoryInv(s: State) {
    && StatusInv(s)
    && (forall t :: 0 <= t < |s.tasks| ==> TaskInv(s.alerts.Keys, s.commits, s.tasks[t]))
    && (forall i :: 0 <= i < |s.audits| ==>
          WasRead(s.commits, s.audits[i].req, s.audits[i].previous, s.audits[i].seen, s.audits[i].index))
  }

  ghost predicate ConservationInv(s: State) { Stored(s.commits) == Logged(s.audits) + Pending(s.tasks) }

  /** The anchor under `key` is the commitment to a stored decision filed under its own alert's key. */
  ghost predicate Backed(h: Hashing, commits: seq<DecisionRecord>, key: string, decisionHash: string) {
    exists i :: 0 <= i < |commits| && h.ofAlert(commits[i].alertId) == key && h.ofDecision(commits[i]) == decisionHash
  }

  ghost predicate AnchorInv(h: Hashing, s: State) {
    s.contract.admin.Some?
    && forall key :: key in s.contract.anchors ==> Backed(h, s.commits, key, s.contract.anchors[key].decisionHash)
  }

  // ---------- Every step keeps the invariants ----------

  lemma CommitsGrow(h: Hashing, s: State, a: Action)
    ensures s.commits <= Step(h, s, a).commits
    ensures s.alerts.Keys <= Step(h, s, a).alerts.Keys
  {
  }

  lemma TaskInvMonotone(known: set<Uuid>, commits: seq<DecisionRecord>, t: Task, known': set<Uuid>,
                        commits': seq<DecisionRecord>)
    requires TaskInv(known, commits, t) && known <= known' && commits <= commits'
    ensures TaskInv(known', commits', t)
  {
    assert forall n :: 0 <= n <= |commits| ==> commits'[..n] == commits[..n];
  }

  lemma WasReadMonotone(commits: seq<DecisionRecord>, e: AuditEntry, commits': seq<DecisionRecord>)
    requires WasRead(commits, e.req, e.previous, e.seen, e.index) && commits <= commits'
    ensures WasRead(commits', e.req, e.previous, e.seen, e.index)
  {
    assert commits'[..e.seen] == commits[..e.seen];
  }

  lemma {:induction false} NoDecisionYet(commits: seq<DecisionRecord>, id: Uuid)
    requires forall i :: 0 <= i < |commits| ==> commits[i].alertId != id
    ensures LastFor(commits, id) == None
  {
    if commits != [] { NoDecisionYet(commits[..|commits| - 1], id); }
  }

  lemma CommitShape(h: Hashing, s: State, a: Action)
    requires Step(h, s, a).commits != s.commits
    ensures a.Commit? && a.task < |s.tasks| && s.tasks[a.task].phase.HasRead?
    ensures Step(h, s, a) == CommitStep(s, a.task, RecordOf(s.tasks[a.task].req, a.id, a.at))
  {
  }

  lemma CommitKeepsStatus(s: State, t: nat, r: DecisionRecord)
    requires StatusInv(s) && t < |s.tasks| && s.tasks[t].phase.HasRead? && r.alertId in s.alerts
    ensures StatusInv(CommitStep(s, t, r))
  {
    assert (s.commits + [r])[..|s.commits|] == s.commits;
  }

  lemma OpenKeepsStatus(s: State, id: Uuid)
    requires StatusInv(s) && id !in s.alerts
    ensures StatusInv(s.(alerts := s.alerts[id := Open]))
  {
    NoDecisionYet(s.commits, id);
    hide LastFor;
  }

  lemma OthersKeepStatus(h: Hashing, s: State, a: Action)
    requires Step(h, s, a).commits == s.commits && !a.OpenAlert?
    ensures Step(h, s, a).alerts == s.alerts
  {
    hide Execute;
  }

  lemma StatusStep(h: Hashing, s: State, a: Action)
    requires HistoryInv(s)
    ensures StatusInv(Step(h, s, a))
  {
    if Step(h, s, a).commits != s.commits {
      CommitShape(h, s, a);
      hide Step;
      assert TaskInv(s.alerts.Keys, s.commits, s.tasks[a.task]);
      CommitKeepsStatus(s, a.task, RecordOf(s.tasks[a.task].req, a.id, a.at));
    } else if a.OpenAlert? {
      if a.alertId !in s.alerts { OpenKeepsStatus(s, a.alertId); }
    } else {
      OthersKeepStatus(h, s, a);
      hide Step;
    }
  }

  lemma MovedTask(h: Hashing, s: State, a: Action, t: nat)
    requires HistoryInv(s) && t < |Step(h, s, a).tasks| && (t < |s.tasks| ==> Step(h, s, a).tasks[t] != s.tasks[t])
    ensures var s' := Step(h, s, a); TaskInv(s'.alerts.Keys, s'.commits, s'.tasks[t])
  {
    hide LastFor, Execute;
    if t < |s.tasks| {
      assert TaskInv(s.alerts.Keys, s.commits, s.tasks[t]);
      assert s.commits[..|s.commits|] == s.commits;
      assert s.tasks[t].req.alertId in s.alerts ==>
          s.alerts[s.tasks[t].req.alertId] == StatusAfter(s.commits, s.tasks[t].req.alertId);
      hide StatusAfter;
      var s' := Step(h, s, a);
      assert forall n :: 0 <= n <= |s.commits| ==> s'.commits[..n] == s.commits[..n];
    }
  }

  lemma HistoryStep(h: Hashing, s: State, a: Action)
    requires HistoryInv(s)
    ensures HistoryInv(Step(h, s, a))
  {
    var s' := Step(h, s, a);
    StatusStep(h, s, a);
    CommitsGrow(h, s, a);
    forall t | 0 <= t < |s'.tasks| ensures TaskInv(s'.alerts.Keys, s'.commits, s'.tasks[t]) {
      if t < |s.tasks| && s'.tasks[t] == s.tasks[t] {
        TaskInvMonotone(s.alerts.Keys, s.commits, s.tasks[t], s'.alerts.Keys, s'.commits);
      } else {
        MovedTask(h, s, a, t);
      }
    }
    forall i | 0 <= i < |s'.audits|
      ensures WasRead(s'.commits, s'.audits[i].req, s'.audits[i].previous, s'.audits[i].seen, s'.audits[i].index)
    {
      if i < |s.audits| {
        WasReadMonotone(s.commits, s.audits[i], s'.commits);
      } else {
        assert TaskInv(s.alerts.Keys, s.commits, s.tasks[a.task]);
      }
    }
  }

  lemma Exchange<T>(before: multiset<T>, after: multiset<T>, gone: multiset<T>, come: multiset<T>, rest: multiset<T>)
    requires after + gone == before + come
    ensures (after + rest) + gone == (before + rest) + come
  {
    assert (after + rest) + gone == (after + gone) + rest;
    assert (before + rest) + come == (before + come) + rest;
  }

  lemma {:induction false} PendingUpdate(tasks: seq<Task>, t: nat, x: Task)
    requires t < |tasks|
    ensures Pending(tasks[t := x]) + PendingOf(tasks[t]) == Pending(tasks) + PendingOf(x)
  {
    hide PendingOf;
    var n, moved := |tasks| - 1, tasks[t := x];
    assert Pending(tasks) == Pending(tasks[..n]) + PendingOf(tasks[n]);
    assert Pending(moved) == Pending(moved[..n]) + PendingOf(moved[n]);
    hide Pending;
    if t == n {
      assert moved[..n] == tasks[..n];
      assert (Pending(tasks[..n]) + PendingOf(x)) + PendingOf(tasks[n])
          == (Pending(tasks[..n]) + PendingOf(tasks[n])) + PendingOf(x);
    } else {
      PendingUpdate(tasks[..n], t, x);
      assert moved[..n] == tasks[..n][t := x];
      Exchange(Pending(tasks[..n]), Pending(moved[..n]), PendingOf(tasks[t]), PendingOf(x), PendingOf(tasks[n]));
    }
  }

  lemma PendingMoves(tasks: seq<Task>, t: nat, x: Task)
    requires t < |tasks| && x.req == tasks[t].req
    ensures PendingOf(x) == PendingOf(tasks[t]) ==> Pending(tasks[t := x]) == Pending(tasks)
    ensures PendingOf(tasks[t]) == multiset{} ==> Pending(tasks[t := x]) == Pending(tasks) + PendingOf(x)
    ensures PendingOf(x) == multiset{} ==> Pending(tasks[t := x]) + PendingOf(tasks[t]) == Pending(tasks)
  {
    PendingUpdate(tasks, t, x);
    if PendingOf(x) == PendingOf(tasks[t]) { Cancel(Pending(tasks[t := x]), Pending(tasks), PendingOf(x)); }
  }

  /** A task that moves without writing leaves what is pending as it was. */
  lemma QuietMove(s: State, t: nat, x: Task, s': State)
    requires ConservationInv(s) && t < |s.tasks| && x.req == s.tasks[t].req && s'.tasks == s.tasks[t := x]
    requires s'.commits == s.commits && s'.audits == s.audits && PendingOf(x) == PendingOf(s.tasks[t])
    ensures ConservationInv(s')
  {
    PendingMoves(s.tasks, t, x);
  }

  lemma CommitMove(s: State, t: nat, x: Task, r: DecisionRecord, s': State)
    requires ConservationInv(s) && t < |s.tasks| && x.req == s.tasks[t].req && s'.tasks == s.tasks[t := x]
    requires s'.commits == s.commits + [r] && RequestOf(r) == x.req && s'.audits == s.audits
    requires PendingOf(s.tasks[t]) == multiset{} && PendingOf(x) == multiset{x.req}
    ensures ConservationInv(s')
  {
    PendingMoves(s.tasks, t, x);
    assert s'.commits[..|s.commits|] == s.commits;
    hide Pending;
  }

  lemma AuditMove(s: State, t: nat, x: Task, e: AuditEntry, s': State)
    requires ConservationInv(s) && t < |s.tasks| && x.req == s.tasks[t].req && s'.tasks == s.tasks[t := x]
    requires s'.audits == s.audits + [e] && e.req == x.req && s'.commits == s.commits
    requires PendingOf(s.tasks[t]) == multiset{x.req} && PendingOf(x) == multiset{}
    ensures ConservationInv(s')
  {
    PendingMoves(s.tasks, t, x);
    assert s'.audits[..|s.audits|] == s.audits;
    hide Pending;
  }

  lemma CommitConserves(h: Hashing, s: State, t: nat, id: Uuid, at: Instant)
    requires ConservationInv(s)
    ensures ConservationInv(Step(h, s, Commit(t, id, at)))
  {
    hide ConservationInv;
    var s' := Step(h, s, Commit(t, id, at));
    if s'.commits != s.commits {
      CommitShape(h, s, Commit(t, id, at));
      hide Step;
      CommitMove(s, t, s'.tasks[t], RecordOf(s.tasks[t].req, id, at), s');
    } else if s' != s {
      assert t < |s.tasks| && s.tasks[t].phase.HasRead? && s' == SetPhase(s, t, Refused);
      hide Step;
      QuietMove(s, t, s'.tasks[t], s');
    }
  }

  lemma AuditConserves(h: Hashing, s: State, a: Action)
    requires ConservationInv(s) && (a.Audit? || a.LateAudit?)
    ensures ConservationInv(Step(h, s, a))
  {
    hide ConservationInv;
    var s' := Step(h, s, a);
    if s' != s { AuditMove(s, a.task, s'.tasks[a.task], s'.audits[|s.audits|], s'); }
  }

  lemma ReadConserves(h: Hashing, s: State, t: nat)
    requires ConservationInv(s)
    ensures ConservationInv(Step(h, s, Read(t)))
  {
    hide ConservationInv;
    var s' := Step(h, s, Read(t));
    if s' != s { QuietMove(s, t, s'.tasks[t], s'); }
  }

  lemma AnchorConserves(h: Hashing, s: State, t: nat, signers: set<Address>, now: nat)
    requires ConservationInv(s)
    ensures ConservationInv(Step(h, s, AnchorStep(t, signers, now)))
  {
    hide ConservationInv, Execute;
    var s' := Step(h, s, AnchorStep(t, signers, now));
    if t < |s.tasks| && s'.tasks != s.tasks { QuietMove(s, t, s'.tasks[t], s'); }
  }

  lemma AbortConserves(h: Hashing, s: State, t: nat)
    requires ConservationInv(s)
    ensures ConservationInv(Step(h, s, Abort(t)))
  {
    hide ConservationInv;
    var s' := Step(h, s, Abort(t));
    if t < |s.tasks| && s' != s {
      var x := s'.tasks[t];
      assert s' == SetPhase(s, t, x.phase) && x.req == s.tasks[t].req && PendingOf(x) == PendingOf(s.tasks[t]);
      hide Step;
      QuietMove(s, t, x, s');
    }
  }

  lemma ConservationStep(h: Hashing, s: State, a: Action)
    requires ConservationInv(s)
    ensures ConservationInv(Step(h, s, a))
  {
    match a
    case Commit(t, id, at) => CommitConserves(h, s, t, id, at);
    case Audit(_) => AuditConserves(h, s, a);
    case LateAudit(_) => AuditConserves(h, s, a);
    case Read(t) => ReadConserves(h, s, t);
    case AnchorStep(t, signers, now) => AnchorConserves(h, s, t, signers, now);
    case Abort(t) => AbortConserves(h, s, t);
    case Submit(q) => assert Step(h, s, a).tasks[..|s.tasks|] == s.tasks;
    case OpenAlert(_) =>
    case Outside(_) =>
  }

  lemma AnchorsStep(h: Hashing, s: State, a: Action)
    requires AnchorInv(h, s)
    ensures AnchorInv(h, Step(h, s, a))
  {
    var s' := Step(h, s, a);
    CommitsGrow(h, s, a);
    forall key | key in s'.contract.anchors ensures Backed(h, s'.commits, key, s'.contract.anchors[key].decisionHash) {
      if key in s.contract.anchors && s'.contract.anchors[key] == s.contract.anchors[key] {
        var hash := s.contract.anchors[key].decisionHash;
        assert Backed(h, s.commits, key, hash);
        var i :| 0 <= i < |s.commits| && h.ofAlert(s.commits[i].alertId) == key && h.ofDecision(s.commits[i]) == hash;
        assert s'.commits[i] == s.commits[i];
      }
    }
  }

  ghost predicate Inv(h: Hashing, s: State) { HistoryInv(s) && ConservationInv(s) && AnchorInv(h, s) }

  lemma StepKeepsInv(h: Hashing, s: State, a: Action)
    requires Inv(h, s)
    ensures Inv(h, Step(h, s, a))
  {
    hide HistoryInv, ConservationInv, AnchorInv;
    HistoryStep(h, s, a);
    ConservationStep(h, s, a);
    AnchorsStep(h, s, a);
  }

  lemma {:induction false} RunKeepsInv(h: Hashing, s: State, actions: seq<Action>)
    requires Inv(h, s)
    ensures Inv(h, Run(h, s, actions))
    decreases |actions|
  {
    if actions != [] {
      StepKeepsInv(h, s, actions[0]);
      RunKeepsInv(h, Step(h, s, actions[0]), actions[1..]);
    }
  }

  lemma StartInv(h: Hashing, admin: Address)
    ensures Inv(h, Start(admin))
  {
  }

  // ---------- Runs and single steps ----------

  lemma {:induction false} RunSnoc(h: Hashing, s: State, actions: seq<Action>, a: Action)
    ensures Run(h, s, actions + [a]) == Step(h, Run(h, s, actions), a)
    decreases |actions|
  {
    hide Step;
    if actions == [] {
      assert [] + [a] == [a] && [a][1..] == [];
    } else {
      assert (actions + [a])[1..] == actions[1..] + [a];
      RunSnoc(h, Step(h, s, actions[0]), actions[1..], a);
    }
  }

  lemma RunCons(h: Hashing, s: State, a: Action, rest: seq<Action>)
    ensures Run(h, s, [a] + rest) == Run(h, Step(h, s, a), rest)
    ensures Run(h, s, []) == s
  {
    assert ([a] + rest)[1..] == rest;
  }

  /** What one step makes of the phases that the history variables are about. */
  lemma PhaseShape(h: Hashing, s: State, a: Action, t: nat)
    requires t < |Step(h, s, a).tasks|
    ensures var x := Step(h, s, a).tasks[t]; var before := if t < |s.tasks| then s.tasks[t] else Task(x.req, Waiting);
      && x.req == before.req
      && (x.phase.HasRead? ==>
            || x == before
            || (t < |s.tasks| && before.phase.Waiting? && a == Read(t) && x.req.alertId in s.alerts
                && x.phase == HasRead(s.alerts[x.req.alertId], |s.commits|)))
      && (Unaudited(x) ==>
            || (Unaudited(before) && EntryOf(before) == EntryOf(x))
            || (a.Commit? && a.task == t && t < |s.tasks| && before.phase.HasRead?
                && EntryOf(x) == AuditEntry(x.req, before.phase.previous, before.phase.seen, |s.commits|)
                && Step(h, s, a).commits == s.commits + [RecordOf(x.req, a.id, a.at)]))
  {
    hide Execute;
  }

  lemma AuditShape(h: Hashing, s: State, a: Action)
    ensures var s' := Step(h, s, a);
      || s'.audits == s.audits
      || ((a.Audit? || a.LateAudit?) && a.task < |s.tasks| && Unaudited(s.tasks[a.task])
          && s'.audits == s.audits + [EntryOf(s.tasks[a.task])] && s'.commits == s.commits
          && s'.tasks == s.tasks[a.task := s'.tasks[a.task]] && s'.tasks[a.task].req == s.tasks[a.task].req
          && !Unaudited(s'.tasks[a.task]))
  {
    hide Execute;
  }

  /** A task on the alert that has read it and is not finished. */
  predicate Active(t: Task, id: Uuid) {
    t.req.alertId == id && (t.phase.HasRead? || t.phase.Committed? || t.phase.Audited?)
  }

  ghost predicate OneActive(s: State, id: Uuid) {
    forall t, u :: 0 <= t < u < |s.tasks| ==> !(Active(s.tasks[t], id) && Active(s.tasks[u], id))
  }

  /** A request reads the alert only while no other is between its read and its end. */
  predicate ReadsAlone(s: State, a: Action, id: Uuid) {
    a.Read? && a.task < |s.tasks| && s.tasks[a.task].req.alertId == id ==>
      forall u :: 0 <= u < |s.tasks| ==> !Active(s.tasks[u], id)
  }

  lemma ActivePairs(h: Hashing, s: State, a: Action, id: Uuid)
    requires OneActive(s, id) && ReadsAlone(s, a, id)
    ensures OneActive(Step(h, s, a), id)
  {
    hide Execute;
  }

  // ---------- Main results ----------

  /** Whatever the interleaving and whoever fails where: every alert's status is that of its last stored
      decision, or Open; and the stored decisions are, as a multiset, the audited ones plus those of tasks
      that stopped or still are between store and audit. */
  lemma StatusAndAuditAgree(h: Hashing, admin: Address, actions: seq<Action>)
    ensures var s := Run(h, Start(admin), actions);
      && (forall id :: id in s.alerts ==> s.alerts[id] == StatusAfter(s.commits, id))
      && Stored(s.commits) == Logged(s.audits) + Pending(s.tasks)
  {
    StartInv(h, admin);
    RunKeepsInv(h, Start(admin), actions);
  }

  /** Each audited `previous_status` is a status the alert really had before that decision was stored. */
  lemma AuditedPreviousStatusWasReal(h: Hashing, admin: Address, actions: seq<Action>, i: nat)
    requires i < |Run(h, Start(admin), actions).audits|
    ensures var s := Run(h, Start(admin), actions); var e := s.audits[i];
      && e.index < |s.commits| && RequestOf(s.commits[e.index]) == e.req
      && exists k :: 0 <= k <= e.index && e.previous == StatusAfter(s.commits[..k], e.req.alertId)
  {
    StartInv(h, admin);
    RunKeepsInv(h, Start(admin), actions);
    var s := Run(h, Start(admin), actions);
    assert WasRead(s.commits, s.audits[i].req, s.audits[i].previous, s.audits[i].seen, s.audits[i].index);
  }
}
