// What the audited previous status means: when it is the status immediately before the decision.
module DecisionTimes {
  import opened Basics
  import opened Calendar
  import opened Domain
  import opened AnchorContract
  import opened DecisionProtocol

  lemma {:induction false} LastForConcat(x: seq<DecisionRecord>, y: seq<DecisionRecord>, id: Uuid)
    ensures LastFor(x + y, id) == if LastFor(y, id).Some? then LastFor(y, id) else LastFor(x, id)
  {
    if y == [] {
      assert x + y == x;
    } else {
      assert (x + y)[..|x + y| - 1] == x + y[..|y| - 1];
      LastForConcat(x, y[..|y| - 1], id);
    }
  }

  /** Action `r` is the read of task `t`, which waits with request `q`; it finds the alert with status
      `previous`, after `seen` decisions were stored. */
  ghost predicate ReadAt(h: Hashing, admin: Address, actions: seq<Action>, t: nat, r: nat, q: Request,
                         previous: AlertStatus, seen: nat) {
    r < |actions| && actions[r] == Read(t)
    && var s := Run(h, Start(admin), actions[..r]);
       && t < |s.tasks| && s.tasks[t] == Task(q, Waiting) && |s.commits| == seen
       && q.alertId in s.alerts && s.alerts[q.alertId] == previous
  }

  /** Action `c` stores the decision of task `t`, which has read that, as the one numbered `index`. */
  ghost predicate CommitAt(h: Hashing, admin: Address, actions: seq<Action>, t: nat, c: nat, e: AuditEntry) {
    c < |actions| && actions[c].Commit? && actions[c].task == t
    && var s := Run(h, Start(admin), actions[..c]);
       && t < |s.tasks| && s.tasks[t] == Task(e.req, HasRead(e.previous, e.seen)) && |s.commits| == e.index
       && Run(h, Start(admin), actions[..c + 1]).commits == s.commits + [RecordOf(e.req, actions[c].id, actions[c].at)]
  }

  /** Action `u` audits the decision of task `t` as entry number `i`. */
  ghost predicate AuditAt(h: Hashing, admin: Address, actions: seq<Action>, t: nat, u: nat, i: nat, e: AuditEntry) {
    u < |actions| && (actions[u] == Audit(t) || actions[u] == LateAudit(t))
    && var s := Run(h, Start(admin), actions[..u]);
       && t < |s.tasks| && s.tasks[t].req == e.req && |s.audits| == i
       && Run(h, Start(admin), actions[..u + 1]).audits == s.audits + [e]
  }

  /** The read and the commit of one request, as positions in the run. */
  ghost predicate Spans(h: Hashing, admin: Address, actions: seq<Action>, t: nat, r: nat, c: nat, e: AuditEntry) {
    r < c && ReadAt(h, admin, actions, t, r, e.req, e.previous, e.seen) && CommitAt(h, admin, actions, t, c, e)
  }

  /** Entry number `i` of the audit log comes from one task: its read, its commit, its audit. */
  ghost predicate Traced(h: Hashing, admin: Address, actions: seq<Action>, i: nat, e: AuditEntry) {
    exists t, r, c, u :: Spans(h, admin, actions, t, r, c, e) && c < u && AuditAt(h, admin, actions, t, u, i, e)
  }

  /** The history variables of a run say what they are meant to say. */
  ghost predicate TimesInv(h: Hashing, admin: Address, actions: seq<Action>, s: State) {
    && (forall t :: 0 <= t < |s.tasks| && s.tasks[t].phase.HasRead? ==>
          exists r :: ReadAt(h, admin, actions, t, r, s.tasks[t].req, s.tasks[t].phase.previous, s.tasks[t].phase.seen))
    && (forall t :: 0 <= t < |s.tasks| && Unaudited(s.tasks[t]) ==> exists r, c ::
        Spans(h, admin, actions, t, r, c, EntryOf(s.tasks[t])))
    && (forall i :: 0 <= i < |s.audits| ==> Traced(h, admin, actions, i, s.audits[i]))
  }

  lemma LongerRead(h: Hashing, admin: Address, actions: seq<Action>, a: Action, t: nat, r: nat, q: Request,
                   previous: AlertStatus, seen: nat)
    requires ReadAt(h, admin, actions, t, r, q, previous, seen)
    ensures ReadAt(h, admin, actions + [a], t, r, q, previous, seen)
  {
    assert (actions + [a])[..r] == actions[..r];
  }

  lemma LongerSpan(h: Hashing, admin: Address, actions: seq<Action>, a: Action, t: nat, r: nat, c: nat, e: AuditEntry)
    requires Spans(h, admin, actions, t, r, c, e)
    ensures Spans(h, admin, actions + [a], t, r, c, e)
  {
    hide Run;
    LongerRead(h, admin, actions, a, t, r, e.req, e.previous, e.seen);
    assert (actions + [a])[..c] == actions[..c] && (actions + [a])[..c + 1] == actions[..c + 1];
  }

  lemma LongerTrace(h: Hashing, admin: Address, actions: seq<Action>, a: Action, i: nat, e: AuditEntry)
    requires Traced(h, admin, actions, i, e)
    ensures Traced(h, admin, actions + [a], i, e)
  {
    hide Run, Spans;
    var t, r, c, u :| Spans(h, admin, actions, t, r, c, e) && c < u && AuditAt(h, admin, actions, t, u, i, e);
    LongerSpan(h, admin, actions, a, t, r, c, e);
    assert (actions + [a])[..u] == actions[..u] && (actions + [a])[..u + 1] == actions[..u + 1];
    assert AuditAt(h, admin, actions + [a], t, u, i, e);
  }

  lemma NewRead(h: Hashing, admin: Address, actions: seq<Action>, s: State, a: Action, t: nat)
    requires TimesInv(h, admin, actions, s) && s == Run(h, Start(admin), actions) && t < |Step(h, s, a).tasks|
    requires Step(h, s, a).tasks[t].phase.HasRead?
    ensures var x := Step(h, s, a).tasks[t];
      exists r :: ReadAt(h, admin, actions + [a], t, r, x.req, x.phase.previous, x.phase.seen)
  {
    var x, longer := Step(h, s, a).tasks[t], actions + [a];
    PhaseShape(h, s, a, t);
    assert longer[..|actions|] == actions && longer[|actions|] == a;
    hide Step, Run;
    if t < |s.tasks| && x == s.tasks[t] {
      var r :| ReadAt(h, admin, actions, t, r, x.req, x.phase.previous, x.phase.seen);
      LongerRead(h, admin, actions, a, t, r, x.req, x.phase.previous, x.phase.seen);
    } else {
      assert ReadAt(h, admin, longer, t, |actions|, x.req, x.phase.previous, x.phase.seen);
    }
  }

  lemma CommittedNow(h: Hashing, admin: Address, actions: seq<Action>, s: State, a: Action, t: nat)
    requires s == Run(h, Start(admin), actions) && t < |s.tasks| && t < |Step(h, s, a).tasks|
    requires Unaudited(Step(h, s, a).tasks[t]) && !Unaudited(s.tasks[t])
    ensures s.tasks[t].phase.HasRead?
    ensures var e := EntryOf(Step(h, s, a).tasks[t]);
      && s.tasks[t] == Task(e.req, HasRead(e.previous, e.seen))
      && CommitAt(h, admin, actions + [a], t, |actions|, e)
  {
    var longer := actions + [a];
    PhaseShape(h, s, a, t);
    RunSnoc(h, Start(admin), actions, a);
    assert longer[..|actions|] == actions && longer[|actions|] == a && longer[..|actions| + 1] == longer;
    hide Step, Run;
  }

  lemma ReadInside(h: Hashing, admin: Address, actions: seq<Action>, t: nat, r: nat, q: Request, previous: AlertStatus,
                   seen: nat)
    requires ReadAt(h, admin, actions, t, r, q, previous, seen)
    ensures r < |actions|
  {
    hide Run;
  }

  lemma NewSpan(h: Hashing, admin: Address, actions: seq<Action>, s: State, a: Action, t: nat)
    requires TimesInv(h, admin, actions, s) && s == Run(h, Start(admin), actions) && t < |Step(h, s, a).tasks|
    requires Unaudited(Step(h, s, a).tasks[t])
    ensures exists r, c :: Spans(h, admin, actions + [a], t, r, c, EntryOf(Step(h, s, a).tasks[t]))
  {
    var e := EntryOf(Step(h, s, a).tasks[t]);
    PhaseShape(h, s, a, t);
    hide Step, Run, ReadAt, CommitAt;
    if t < |s.tasks| && Unaudited(s.tasks[t]) {
      hide Spans;
      var r, c :| Spans(h, admin, actions, t, r, c, e);
      LongerSpan(h, admin, actions, a, t, r, c, e);
    } else {
      CommittedNow(h, admin, actions, s, a, t);
      var r :| ReadAt(h, admin, actions, t, r, e.req, e.previous, e.seen);
      LongerRead(h, admin, actions, a, t, r, e.req, e.previous, e.seen);
      ReadInside(h, admin, actions, t, r, e.req, e.previous, e.seen);
      assert Spans(h, admin, actions + [a], t, r, |actions|, e);
    }
  }

  lemma SpanEnds(h: Hashing, admin: Address, actions: seq<Action>, t: nat, r: nat, c: nat, e: AuditEntry)
    requires Spans(h, admin, actions, t, r, c, e)
    ensures r < c < |actions|
  {
    hide Run;
  }

  lemma AuditedNow(h: Hashing, admin: Address, actions: seq<Action>, s: State, a: Action) returns (t: nat)
    requires s == Run(h, Start(admin), actions) && Step(h, s, a).audits != s.audits
    ensures t < |s.tasks| && Unaudited(s.tasks[t]) && Step(h, s, a).audits == s.audits + [EntryOf(s.tasks[t])]
    ensures AuditAt(h, admin, actions + [a], t, |actions|, |s.audits|, EntryOf(s.tasks[t]))
  {
    AuditShape(h, s, a);
    RunSnoc(h, Start(admin), actions, a);
    t := a.task;
    var longer := actions + [a];
    assert longer[..|actions|] == actions && longer[..|actions| + 1] == longer;
    assert a == Audit(t) || a == LateAudit(t);
    hide Step, Run;
  }

  lemma NewTrace(h: Hashing, admin: Address, actions: seq<Action>, s: State, a: Action, i: nat)
    requires TimesInv(h, admin, actions, s) && s == Run(h, Start(admin), actions) && i < |Step(h, s, a).audits|
    ensures Traced(h, admin, actions + [a], i, Step(h, s, a).audits[i])
  {
    hide Step, Run, Spans, AuditAt;
    var e := Step(h, s, a).audits[i];
    if Step(h, s, a).audits == s.audits {
      LongerTrace(h, admin, actions, a, i, e);
    } else {
      var t := AuditedNow(h, admin, actions, s, a);
      if i < |s.audits| {
        LongerTrace(h, admin, actions, a, i, e);
      } else {
        var r, c :| Spans(h, admin, actions, t, r, c, e);
        SpanEnds(h, admin, actions, t, r, c, e);
        LongerSpan(h, admin, actions, a, t, r, c, e);
      }
    }
  }

  lemma TimesStep(h: Hashing, admin: Address, actions: seq<Action>, s: State, a: Action)
    requires TimesInv(h, admin, actions, s) && s == Run(h, Start(admin), actions)
    ensures TimesInv(h, admin, actions + [a], Step(h, s, a))
  {
    var s' := Step(h, s, a);
    hide Step, Run, Spans, ReadAt, Traced;
    forall t | 0 <= t < |s'.tasks| && s'.tasks[t].phase.HasRead?
      ensures exists r ::
        ReadAt(h, admin, actions + [a], t, r, s'.tasks[t].req, s'.tasks[t].phase.previous, s'.tasks[t].phase.seen)
    {
      NewRead(h, admin, actions, s, a, t);
    }
    forall t | 0 <= t < |s'.tasks| && Unaudited(s'.tasks[t])
      ensures exists r, c :: Spans(h, admin, actions + [a], t, r, c, EntryOf(s'.tasks[t]))
    {
      NewSpan(h, admin, actions, s, a, t);
    }
    forall i | 0 <= i < |s'.audits| ensures Traced(h, admin, actions + [a], i, s'.audits[i]) {
      NewTrace(h, admin, actions, s, a, i);
    }
  }

  lemma {:induction false} TimesHold(h: Hashing, admin: Address, actions: seq<Action>)
    ensures TimesInv(h, admin, actions, Run(h, Start(admin), actions))
    decreases |actions|
  {
    if actions != [] {
      hide TimesInv, Step;
      var before, a := actions[..|actions| - 1], actions[|actions| - 1];
      TimesHold(h, admin, before);
      assert actions == before + [a];
      RunSnoc(h, Start(admin), before, a);
      TimesStep(h, admin, before, Run(h, Start(admin), before), a);
    }
  }

  /** The decision, if there is one, leads to the status. */
  predicate LeadsTo(last: Option<DecisionRecord>, status: AlertStatus) {
    last.Some? ==> StatusOf(last.value.decision) == status
  }

  lemma ExactIff(commits: seq<DecisionRecord>, e: AuditEntry)
    requires WasRead(commits, e.req, e.previous, e.seen, e.index)
    ensures e.previous == StatusAfter(commits[..e.index], e.req.alertId)
      <==> LeadsTo(LastFor(commits[e.seen..e.index], e.req.alertId), e.previous)
  {
    assert commits[..e.index] == commits[..e.seen] + commits[e.seen..e.index];
    LastForConcat(commits[..e.seen], commits[e.seen..e.index], e.req.alertId);
  }

  /** The previous status that a request audits is the one immediately before its decision exactly when the
      last decision stored on the alert between its own read and its own commit, if there is one, led to
      the same status. */
  lemma PreviousStatusIsExactIff(h: Hashing, admin: Address, actions: seq<Action>, i: nat)
    requires i < |Run(h, Start(admin), actions).audits|
    ensures var s := Run(h, Start(admin), actions); var e := s.audits[i];
      && e.seen <= e.index < |s.commits| && Traced(h, admin, actions, i, e)
      && (e.previous == StatusAfter(s.commits[..e.index], e.req.alertId)
          <==> LeadsTo(LastFor(s.commits[e.seen..e.index], e.req.alertId), e.previous))
  {
    StartInv(h, admin);
    RunKeepsInv(h, Start(admin), actions);
    TimesHold(h, admin, actions);
    var s := Run(h, Start(admin), actions);
    hide Run, Traced, LastFor;
    assert WasRead(s.commits, s.audits[i].req, s.audits[i].previous, s.audits[i].seen, s.audits[i].index);
    ExactIff(s.commits, s.audits[i]);
  }

  /** Both requests have read the alert while it was open. */
  lemma BothRead(h: Hashing, admin: Address, a: Uuid, p: Request, q: Request, rest: seq<Action>)
    requires p.alertId == q.alertId == a
    ensures Run(h, Start(admin), [OpenAlert(a)] + ([Submit(p)] + ([Submit(q)] + ([Read(0)] + ([Read(1)] + rest)))))
      == Run(h,
             State(map[a := Open], [Task(p, HasRead(Open, 0)), Task(q, HasRead(Open, 0))], [], [],
                   Contract(Some(admin), map[])), rest)
  {
    hide Run;
    var c := Contract(Some(admin), map[]);
    var s1 := State(map[a := Open], [], [], [], c);
    var s2 := State(map[a := Open], [Task(p, Waiting)], [], [], c);
    var s3 := State(map[a := Open], [Task(p, Waiting), Task(q, Waiting)], [], [], c);
    var s4 := State(map[a := Open], [Task(p, HasRead(Open, 0)), Task(q, Waiting)], [], [], c);
    var s5 := State(map[a := Open], [Task(p, HasRead(Open, 0)), Task(q, HasRead(Open, 0))], [], [], c);
    RunCons(h, Start(admin), OpenAlert(a), [Submit(p)] + ([Submit(q)] + ([Read(0)] + ([Read(1)] + rest))));
    RunCons(h, s1, Submit(p), [Submit(q)] + ([Read(0)] + ([Read(1)] + rest)));
    RunCons(h, s2, Submit(q), [Read(0)] + ([Read(1)] + rest));
    RunCons(h, s3, Read(0), [Read(1)] + rest);
    RunCons(h, s4, Read(1), rest);
    assert Step(h, Start(admin), OpenAlert(a)) == s1;
    assert Step(h, s1, Submit(p)) == s2;
    assert Step(h, s2, Submit(q)) == s3;
    assert Step(h, s3, Read(0)) == s4;
    assert Step(h, s4, Read(1)) == s5;
  }

  lemma OverlappingCommits(h: Hashing, s: State, x: Uuid, y: Uuid, at: Instant)
    requires x != y && |s.tasks| == 2 && s.commits == [] && s.audits == []
    requires s.tasks[0].phase == s.tasks[1].phase == HasRead(Open, 0)
    requires s.tasks[0].req.alertId == s.tasks[1].req.alertId
    ensures var s' := Run(h, s, [Commit(0, x, at), Commit(1, y, at), Audit(1)]);
      && |s'.audits| == 1 && s'.audits[0].index == 1 && |s'.commits| == 2 && s'.audits[0].previous == Open
      && StatusAfter(s'.commits[..1], s.tasks[0].req.alertId) == StatusOf(s.tasks[0].req.decision)
  {
    var r0, r1 := RecordOf(s.tasks[0].req, x, at), RecordOf(s.tasks[1].req, y, at);
    var s1 := CommitStep(s, 0, r0);
    var s2 := CommitStep(s1, 1, r1);
    assert Step(h, s, Commit(0, x, at)) == s1 && Step(h, s1, Commit(1, y, at)) == s2;
    hide Step, LastFor;
    assert [Commit(0, x, at), Commit(1, y, at), Audit(1)][1..][1..] == [Audit(1)];
    assert Run(h, s, [Commit(0, x, at), Commit(1, y, at), Audit(1)]) == Run(h, s2, [Audit(1)]);
    assert Run(h, s2, [Audit(1)]) == Step(h, s2, Audit(1)) by { assert [Audit(1)][1..] == []; }
    assert s2.commits[..1] == [r0];
  }

  /** Two overlapping decisions: the second reports Open as the previous status, although the first had
      already moved the alert. */
  lemma OverlapReportsStaleStatus(h: Hashing, admin: Address, a: Uuid, x: Uuid, y: Uuid, at: Instant)
    requires x != y
    ensures var first := Request(a, "inv-1", Decision.Escalated, "r1");
      var second := Request(a, "inv-2", Decision.Dismissed, "r2");
      var s := Run(h, Start(admin),
        [OpenAlert(a)] + ([Submit(first)] + ([Submit(second)] + ([Read(0)] + ([Read(1)]
          + [Commit(0, x, at), Commit(1, y, at), Audit(1)])))));
      && |s.audits| == 1 && s.audits[0].index == 1 && |s.commits| == 2
      && s.audits[0].previous == Open && StatusAfter(s.commits[..1], a) == AlertStatus.Escalated
  {
    var p, q := Request(a, "inv-1", Decision.Escalated, "r1"), Request(a, "inv-2", Decision.Dismissed, "r2");
    var rest := [Commit(0, x, at), Commit(1, y, at), Audit(1)];
    BothRead(h, admin, a, p, q, rest);
    var s := State(map[a := Open], [Task(p, HasRead(Open, 0)), Task(q, HasRead(Open, 0))], [], [],
                   Contract(Some(admin), map[]));
    OverlappingCommits(h, s, x, y, at);
  }

  // ---------- Reads that do not overlap ----------

  predicate AloneRun(h: Hashing, s: State, actions: seq<Action>, id: Uuid)
    decreases |actions|
  {
    actions == [] || (ReadsAlone(s, actions[0], id) && AloneRun(h, Step(h, s, actions[0]), actions[1..], id))
  }

  ghost predicate ExactAt(commits: seq<DecisionRecord>, previous: AlertStatus, index: nat, id: Uuid) {
    index < |commits| && previous == StatusAfter(commits[..index], id)
  }

  /** What a task on the alert has read is still, or was at its commit, the alert's status. */
  ghost predicate ExactTask(commits: seq<DecisionRecord>, t: Task, id: Uuid) {
    t.req.alertId == id ==>
      && (t.phase.HasRead? ==> t.phase.previous == StatusAfter(commits, id))
      && (Unaudited(t) ==> ExactAt(commits, t.phase.previous, t.phase.index, id))
  }

  ghost predicate ExactInv(s: State, id: Uuid) {
    && OneActive(s, id)
    && (forall t :: 0 <= t < |s.tasks| ==> ExactTask(s.commits, s.tasks[t], id))
    && (forall i :: 0 <= i < |s.audits| && s.audits[i].req.alertId == id ==>
        ExactAt(s.commits, s.audits[i].previous, s.audits[i].index, id))
  }

  lemma ExactStays(commits: seq<DecisionRecord>, r: DecisionRecord, previous: AlertStatus, index: nat, id: Uuid)
    requires ExactAt(commits, previous, index, id)
    ensures ExactAt(commits + [r], previous, index, id)
  {
    assert (commits + [r])[..index] == commits[..index];
  }

  lemma ExactCommit(s: State, t: nat, r: DecisionRecord, id: Uuid)
    requires ExactInv(s, id) && t < |s.tasks| && s.tasks[t].phase.HasRead? && r.alertId == s.tasks[t].req.alertId
    ensures var s' := CommitStep(s, t, r);
      && (forall u :: 0 <= u < |s'.tasks| ==> ExactTask(s'.commits, s'.tasks[u], id))
      && (forall i :: 0 <= i < |s'.audits| && s'.audits[i].req.alertId == id ==>
          ExactAt(s'.commits, s'.audits[i].previous, s'.audits[i].index, id))
  {
    var s' := CommitStep(s, t, r);
    assert s'.commits[..|s.commits|] == s.commits;
    assert r.alertId != id ==> StatusAfter(s'.commits, id) == StatusAfter(s.commits, id);
    hide StatusAfter, LastFor;
    forall u | 0 <= u < |s'.tasks| ensures ExactTask(s'.commits, s'.tasks[u], id) {
      assert ExactTask(s.commits, s.tasks[u], id);
      if u != t {
        var p := s.tasks[u].phase;
        if s.tasks[u].req.alertId == id && Unaudited(s.tasks[u]) { ExactStays(s.commits, r, p.previous, p.index, id); }
        assert r.alertId == id ==> Active(s.tasks[t], id) && !Active(s.tasks[u], id);
      }
    }
    forall i | 0 <= i < |s'.audits| && s'.audits[i].req.alertId == id
      ensures ExactAt(s'.commits, s'.audits[i].previous, s'.audits[i].index, id)
    {
      ExactStays(s.commits, r, s.audits[i].previous, s.audits[i].index, id);
    }
  }

  lemma ExactQuiet(h: Hashing, s: State, a: Action, id: Uuid)
    requires StatusInv(s) && ExactInv(s, id) && Step(h, s, a).commits == s.commits
    ensures var s' := Step(h, s, a);
      && (forall u :: 0 <= u < |s'.tasks| ==> ExactTask(s'.commits, s'.tasks[u], id))
      && (forall i :: 0 <= i < |s'.audits| && s'.audits[i].req.alertId == id ==>
          ExactAt(s'.commits, s'.audits[i].previous, s'.audits[i].index, id))
  {
    var s' := Step(h, s, a);
    AuditShape(h, s, a);
    hide StatusAfter, LastFor, Execute;
    forall u | 0 <= u < |s'.tasks| ensures ExactTask(s.commits, s'.tasks[u], id) {
      if u < |s.tasks| { assert ExactTask(s.commits, s.tasks[u], id); }
    }
    hide Step;
    if s'.audits != s.audits { assert ExactTask(s.commits, s.tasks[a.task], id); }
  }

  lemma ExactStep(h: Hashing, s: State, a: Action, id: Uuid)
    requires StatusInv(s) && ExactInv(s, id) && ReadsAlone(s, a, id)
    ensures ExactInv(Step(h, s, a), id)
  {
    ActivePairs(h, s, a, id);
    if Step(h, s, a).commits != s.commits {
      CommitShape(h, s, a);
      hide Step, ExactTask;
      ExactCommit(s, a.task, RecordOf(s.tasks[a.task].req, a.id, a.at), id);
    } else {
      hide Step, ExactTask;
      ExactQuiet(h, s, a, id);
    }
  }

  lemma {:induction false} ExactRun(h: Hashing, s: State, actions: seq<Action>, id: Uuid)
    requires Inv(h, s) && ExactInv(s, id) && AloneRun(h, s, actions, id)
    ensures ExactInv(Run(h, s, actions), id)
    decreases |actions|
  {
    hide ExactInv, ReadsAlone, Step;
    if actions != [] {
      StepKeepsInv(h, s, actions[0]);
      ExactStep(h, s, actions[0], id);
      hide Inv;
      ExactRun(h, Step(h, s, actions[0]), actions[1..], id);
    }
  }

  /** When no request reads the alert while another is at work on it, every audited previous status is the
      alert's status immediately before that decision, whoever fails afterwards: the audited statuses form
      an unbroken chain over the stored decisions. */
  lemma LoneReadsReportExactStatus(h: Hashing, admin: Address, actions: seq<Action>, id: Uuid, i: nat)
    requires AloneRun(h, Start(admin), actions, id)
    requires i < |Run(h, Start(admin), actions).audits| && Run(h, Start(admin), actions).audits[i].req.alertId == id
    ensures var s := Run(h, Start(admin), actions); var e := s.audits[i];
      e.index < |s.commits| && RequestOf(s.commits[e.index]) == e.req
          && e.previous == StatusAfter(s.commits[..e.index], id)
  {
    StartInv(h, admin);
    RunKeepsInv(h, Start(admin), actions);
    ExactRun(h, Start(admin), actions, id);
    var s := Run(h, Start(admin), actions);
    hide Run, StatusAfter;
    assert WasRead(s.commits, s.audits[i].req, s.audits[i].previous, s.audits[i].seen, s.audits[i].index);
    assert ExactAt(s.commits, s.audits[i].previous, s.audits[i].index, id);
  }
}
