// What the audit log tells about interleaved decisions: when it lists them in the order they were stored,
// so that folding it gives the status and the decision sequence of the tables.
module DecisionLog {
  import opened Basics
  import opened Calendar
  import opened Domain
  import opened AnchorContract
  import opened DecisionProtocol
  import opened DecisionTimes

  // ---------- What table and log say about one alert ----------

  /** Numbers of the decisions stored on the alert, in the order of the table. */
  function StoredOn(commits: seq<DecisionRecord>, id: Uuid): seq<nat> {
    if commits == [] then []
    else
      var n := |commits| - 1;
      StoredOn(commits[..n], id) + if commits[n].alertId == id then [n] else []
  }

  /** Numbers of the decisions audited on the alert, in the order of the log. */
  function AuditedOn(audits: seq<AuditEntry>, id: Uuid): seq<nat> {
    if audits == [] then []
    else
      var n := |audits| - 1;
      AuditedOn(audits[..n], id) + if audits[n].req.alertId == id then [audits[n].index] else []
  }

  function TableDecisions(commits: seq<DecisionRecord>, id: Uuid): seq<Request> {
    if commits == [] then []
    else
      var n := |commits| - 1;
      TableDecisions(commits[..n], id) + if commits[n].alertId == id then [RequestOf(commits[n])] else []
  }

  /** The decision sequence that folding the log gives. */
  function LogDecisions(audits: seq<AuditEntry>, id: Uuid): seq<Request> {
    if audits == [] then []
    else
      var n := |audits| - 1;
      LogDecisions(audits[..n], id) + if audits[n].req.alertId == id then [audits[n].req] else []
  }

  /** The status that folding the log gives. */
  function LogStatus(audits: seq<AuditEntry>, id: Uuid): AlertStatus {
    var ds := LogDecisions(audits, id);
    if ds == [] then Open else StatusOf(ds[|ds| - 1].decision)
  }

  ghost predicate Increasing(xs: seq<nat>) { forall i, j :: 0 <= i < j < |xs| ==> xs[i] < xs[j] }

  lemma MemberSnoc(xs: seq<nat>, x: nat)
    ensures forall i :: i in xs + [x] <==> i in xs || i == x
  {
    assert (xs + [x])[|xs|] == x;
  }

  lemma {:induction false} StoredOnAre(commits: seq<DecisionRecord>, id: Uuid)
    ensures Increasing(StoredOn(commits, id))
    ensures forall i: nat :: i in StoredOn(commits, id) <==> i < |commits| && commits[i].alertId == id
  {
    if commits != [] {
      var n := |commits| - 1;
      StoredOnAre(commits[..n], id);
      var before := StoredOn(commits[..n], id);
      assert StoredOn(commits, id) == before + if commits[n].alertId == id then [n] else [];
      hide StoredOn;
      assert forall i :: 0 <= i < |before| ==> before[i] in before;
      assert forall i :: 0 <= i < n ==> commits[..n][i] == commits[i];
      MemberSnoc(before, n);
    }
  }

  lemma {:induction false} AuditedOnAre(audits: seq<AuditEntry>, id: Uuid)
    ensures forall i :: i in AuditedOn(audits, id) <==>
      exists k :: 0 <= k < |audits| && audits[k].req.alertId == id && audits[k].index == i
  {
    if audits != [] {
      var n := |audits| - 1;
      AuditedOnAre(audits[..n], id);
      assert forall k :: 0 <= k < n ==> audits[..n][k] == audits[k];
    }
  }

  lemma AuditedSnoc(audits: seq<AuditEntry>, e: AuditEntry, id: Uuid)
    ensures AuditedOn(audits + [e], id) == AuditedOn(audits, id) + if e.req.alertId == id then [e.index] else []
    ensures LogDecisions(audits + [e], id) == LogDecisions(audits, id) + if e.req.alertId == id then [e.req] else []
  {
    assert (audits + [e])[..|audits|] == audits;
  }

  lemma StoredSnoc(commits: seq<DecisionRecord>, r: DecisionRecord, id: Uuid)
    ensures StoredOn(commits + [r], id) == StoredOn(commits, id) + if r.alertId == id then [|commits|] else []
  {
    assert (commits + [r])[..|commits|] == commits;
  }

  /** The entry carries the request of the decision it is numbered by. */
  predicate Genuine(commits: seq<DecisionRecord>, e: AuditEntry) {
    e.index < |commits| && RequestOf(commits[e.index]) == e.req
  }

  ghost predicate GenuineOn(commits: seq<DecisionRecord>, audits: seq<AuditEntry>, id: Uuid) {
    forall k :: 0 <= k < |audits| && audits[k].req.alertId == id ==> Genuine(commits, audits[k])
  }

  lemma {:induction false} TableAt(commits: seq<DecisionRecord>, id: Uuid)
    ensures |TableDecisions(commits, id)| == |StoredOn(commits, id)|
    ensures forall k :: 0 <= k < |StoredOn(commits, id)| ==>
      StoredOn(commits, id)[k] < |commits|
          && TableDecisions(commits, id)[k] == RequestOf(commits[StoredOn(commits, id)[k]])
  {
    if commits != [] { TableAt(commits[..|commits| - 1], id); }
  }

  lemma {:induction false} LogAt(commits: seq<DecisionRecord>, audits: seq<AuditEntry>, id: Uuid)
    requires GenuineOn(commits, audits, id)
    ensures |LogDecisions(audits, id)| == |AuditedOn(audits, id)|
    ensures forall k :: 0 <= k < |AuditedOn(audits, id)| ==>
      AuditedOn(audits, id)[k] < |commits|
          && LogDecisions(audits, id)[k] == RequestOf(commits[AuditedOn(audits, id)[k]])
  {
    if audits != [] { LogAt(commits, audits[..|audits| - 1], id); }
  }

  lemma {:induction false} LastInTable(commits: seq<DecisionRecord>, id: Uuid)
    ensures var ds := TableDecisions(commits, id);
      StatusAfter(commits, id) == if ds == [] then Open else StatusOf(ds[|ds| - 1].decision)
  {
    if commits != [] { LastInTable(commits[..|commits| - 1], id); }
  }

  /** A log that lists the stored decisions in order tells the decision sequence and the status. */
  lemma SameNumbersSameHistory(commits: seq<DecisionRecord>, audits: seq<AuditEntry>, id: Uuid)
    requires GenuineOn(commits, audits, id) && AuditedOn(audits, id) == StoredOn(commits, id)
    ensures LogDecisions(audits, id) == TableDecisions(commits, id) && LogStatus(audits, id) == StatusAfter(commits, id)
  {
    TableAt(commits, id);
    LogAt(commits, audits, id);
    LastInTable(commits, id);
    hide StatusAfter;
    assert LogDecisions(audits, id) == TableDecisions(commits, id);
  }

  // ---------- Every stored decision is audited or waits ----------

  predicate WaitsOn(t: Task, id: Uuid) { Unaudited(t) && t.req.alertId == id }

  ghost predicate AuditedAlready(audits: seq<AuditEntry>, i: nat) {
    exists k :: 0 <= k < |audits| && audits[k].index == i
  }

  ghost predicate Waits(tasks: seq<Task>, i: nat) {
    exists t :: 0 <= t < |tasks| && Unaudited(tasks[t]) && tasks[t].phase.index == i
  }

  ghost predicate OwnInv(s: State) {
    && (forall k :: 0 <= k < |s.audits| ==> Genuine(s.commits, s.audits[k]))
    && (forall t :: 0 <= t < |s.tasks| && Unaudited(s.tasks[t]) ==>
          Genuine(s.commits, EntryOf(s.tasks[t])) && !AuditedAlready(s.audits, s.tasks[t].phase.index))
    && (forall t, u :: 0 <= t < u < |s.tasks| && Unaudited(s.tasks[t]) && Unaudited(s.tasks[u]) ==>
        s.tasks[t].phase.index != s.tasks[u].phase.index)
    && (forall i :: 0 <= i < |s.commits| ==> AuditedAlready(s.audits, i) || Waits(s.tasks, i))
  }

  lemma OwnCommit(s: State, t: nat, r: DecisionRecord)
    requires OwnInv(s) && t < |s.tasks| && s.tasks[t].phase.HasRead? && RequestOf(r) == s.tasks[t].req
    ensures OwnInv(CommitStep(s, t, r))
  {
    var s' := CommitStep(s, t, r);
    forall i | 0 <= i < |s'.commits| ensures AuditedAlready(s'.audits, i) || Waits(s'.tasks, i) {
      if i < |s.commits| && Waits(s.tasks, i) {
        var u :| 0 <= u < |s.tasks| && Unaudited(s.tasks[u]) && s.tasks[u].phase.index == i;
        assert s'.tasks[u] == s.tasks[u];
      } else if i == |s.commits| {
        assert s'.tasks[t].phase.index == i;
      }
    }
  }

  lemma OwnAudit(s: State, t: nat, x: Task, s': State)
    requires OwnInv(s) && t < |s.tasks| && Unaudited(s.tasks[t]) && !Unaudited(x)
    requires s'.tasks == s.tasks[t := x] && s'.commits == s.commits && s'.audits == s.audits + [EntryOf(s.tasks[t])]
    ensures OwnInv(s')
  {
    var e := EntryOf(s.tasks[t]);
    forall i | AuditedAlready(s'.audits, i) ensures AuditedAlready(s.audits, i) || i == e.index {
      var k :| 0 <= k < |s'.audits| && s'.audits[k].index == i;
      if k < |s.audits| { assert s.audits[k].index == i; }
    }
    forall i | 0 <= i < |s'.commits| ensures AuditedAlready(s'.audits, i) || Waits(s'.tasks, i) {
      if AuditedAlready(s.audits, i) {
        var k :| 0 <= k < |s.audits| && s.audits[k].index == i;
        assert s'.audits[k].index == i;
      } else {
        var u :| 0 <= u < |s.tasks| && Unaudited(s.tasks[u]) && s.tasks[u].phase.index == i;
        if u == t { assert s'.audits[|s.audits|].index == i; } else { assert s'.tasks[u] == s.tasks[u]; }
      }
    }
  }

  /** A step that neither stores nor audits leaves what waits as it was. */
  lemma QuietWaits(h: Hashing, s: State, a: Action)
    requires Step(h, s, a).commits == s.commits && Step(h, s, a).audits == s.audits
    ensures var s' := Step(h, s, a);
      && |s.tasks| <= |s'.tasks|
      && (forall t :: 0 <= t < |s'.tasks| && Unaudited(s'.tasks[t]) ==>
            t < |s.tasks| && Unaudited(s.tasks[t]) && EntryOf(s'.tasks[t]) == EntryOf(s.tasks[t]))
      && (forall t :: 0 <= t < |s.tasks| && Unaudited(s.tasks[t]) ==> Unaudited(s'.tasks[t]))
  {
    hide Execute;
  }

  lemma OwnQuiet(s: State, s': State)
    requires OwnInv(s) && s'.commits == s.commits && s'.audits == s.audits && |s.tasks| <= |s'.tasks|
    requires forall t :: 0 <= t < |s'.tasks| && Unaudited(s'.tasks[t]) ==>
      t < |s.tasks| && Unaudited(s.tasks[t]) && EntryOf(s'.tasks[t]) == EntryOf(s.tasks[t])
    requires forall t :: 0 <= t < |s.tasks| && Unaudited(s.tasks[t]) ==> Unaudited(s'.tasks[t])
    ensures OwnInv(s')
  {
    forall i | 0 <= i < |s'.commits| ensures AuditedAlready(s'.audits, i) || Waits(s'.tasks, i) {
      if Waits(s.tasks, i) {
        var u :| 0 <= u < |s.tasks| && Unaudited(s.tasks[u]) && s.tasks[u].phase.index == i;
        assert EntryOf(s'.tasks[u]) == EntryOf(s.tasks[u]);
        assert s'.tasks[u].phase.index == i;
      }
    }
    assert forall t :: 0 <= t < |s'.tasks| && Unaudited(s'.tasks[t]) ==>
        EntryOf(s'.tasks[t]).index == s'.tasks[t].phase.index;
  }

  lemma OwnStep(h: Hashing, s: State, a: Action)
    requires OwnInv(s)
    ensures OwnInv(Step(h, s, a))
  {
    hide OwnInv;
    var s' := Step(h, s, a);
    if s'.commits != s.commits {
      CommitShape(h, s, a);
      OwnCommit(s, a.task, RecordOf(s.tasks[a.task].req, a.id, a.at));
    } else if s'.audits != s.audits {
      AuditShape(h, s, a);
      hide Step;
      OwnAudit(s, a.task, s'.tasks[a.task], s');
    } else {
      QuietWaits(h, s, a);
      hide Step;
      OwnQuiet(s, s');
    }
  }

  lemma {:induction false} OwnRun(h: Hashing, s: State, actions: seq<Action>)
    requires OwnInv(s)
    ensures OwnInv(Run(h, s, actions))
    decreases |actions|
  {
    hide OwnInv, Step;
    if actions != [] {
      OwnStep(h, s, actions[0]);
      OwnRun(h, Step(h, s, actions[0]), actions[1..]);
    }
  }

  // ---------- Auditing in the order of storing ----------

  /** The step audits a decision. */
  predicate Audits(s: State, a: Action) {
    (a.Audit? || a.LateAudit?) && a.task < |s.tasks|
    && (if a.Audit? then s.tasks[a.task].phase.Committed? else s.tasks[a.task].phase.Stranded?)
  }

  /** An audit on the alert takes the oldest decision stored on it and not yet audited. */
  predicate AuditsOldest(s: State, a: Action, id: Uuid) {
    Audits(s, a) && s.tasks[a.task].req.alertId == id ==>
      forall u :: 0 <= u < |s.tasks| && WaitsOn(s.tasks[u], id) ==>
          s.tasks[a.task].phase.index <= s.tasks[u].phase.index
  }

  predicate OldestRun(h: Hashing, s: State, actions: seq<Action>, id: Uuid)
    decreases |actions|
  {
    actions == [] || (AuditsOldest(s, actions[0], id) && OldestRun(h, Step(h, s, actions[0]), actions[1..], id))
  }

  /** So far the log lists the alert's decisions in the order they were stored. */
  ghost predicate InOrder(s: State, id: Uuid) { AuditedOn(s.audits, id) <= StoredOn(s.commits, id) }

  /** The entry at `p` is listed before `j`, which was stored earlier. */
  ghost predicate Jumps(audited: seq<nat>, stored: seq<nat>, p: nat, j: nat) {
    p < |audited| && j in stored && j < audited[p] && j !in audited[..p]
  }

  /** The log lists a decision before one that was stored earlier. */
  ghost predicate OutOfOrder(s: State, id: Uuid) {
    exists p, j :: Jumps(AuditedOn(s.audits, id), StoredOn(s.commits, id), p, j)
  }

  lemma WaitingIsStored(s: State, t: nat, id: Uuid)
    requires OwnInv(s) && t < |s.tasks| && WaitsOn(s.tasks[t], id)
    ensures var i := s.tasks[t].phase.index; i in StoredOn(s.commits, id) && i !in AuditedOn(s.audits, id)
  {
    StoredOnAre(s.commits, id);
    AuditedOnAre(s.audits, id);
    assert EntryOf(s.tasks[t]).index == s.tasks[t].phase.index;
  }

  lemma StoredWaits(s: State, j: nat, id: Uuid) returns (u: nat)
    requires OwnInv(s) && j in StoredOn(s.commits, id) && j !in AuditedOn(s.audits, id)
    ensures u < |s.tasks| && WaitsOn(s.tasks[u], id) && s.tasks[u].phase.index == j
  {
    StoredOnAre(s.commits, id);
    AuditedOnAre(s.audits, id);
    assert forall k :: 0 <= k < |s.audits| ==> Genuine(s.commits, s.audits[k]);
    assert Waits(s.tasks, j);
    u :| 0 <= u < |s.tasks| && Unaudited(s.tasks[u]) && s.tasks[u].phase.index == j;
    assert Genuine(s.commits, EntryOf(s.tasks[u]));
  }

  lemma NotYetListed(stored: seq<nat>, audited: seq<nat>)
    requires Increasing(stored) && audited <= stored && |audited| < |stored|
    ensures stored[|audited|] !in audited
  {
    assert forall k :: 0 <= k < |audited| ==> audited[k] == stored[k] < stored[|audited|];
  }

  /** The next of the stored decisions to be audited, when the log is in order. */
  lemma NextInOrder(stored: seq<nat>, audited: seq<nat>, i: nat)
    requires Increasing(stored) && audited <= stored && i in stored && i !in audited
    ensures |audited| < |stored| && stored[|audited|] !in audited && stored[|audited|] <= i
  {
    var m :| 0 <= m < |stored| && stored[m] == i;
    assert m >= |audited| by { assert forall k :: 0 <= k < |audited| ==> audited[k] == stored[k]; }
    NotYetListed(stored, audited);
  }

  /** In an increasing list, what is smaller comes earlier. */
  lemma EarlierIsListed(stored: seq<nat>, audited: seq<nat>, p: nat, j: nat)
    requires Increasing(stored) && audited <= stored && p < |audited| && j in stored && j < audited[p]
    ensures j in audited[..p]
  {
    var q :| 0 <= q < |stored| && stored[q] == j;
    assert q < p by { assert stored[p] == audited[p]; }
    assert audited[..p][q] == j;
  }

  lemma OldestKeepsOrder(s: State, t: nat, id: Uuid)
    requires OwnInv(s) && InOrder(s, id) && t < |s.tasks| && WaitsOn(s.tasks[t], id)
    requires forall u :: 0 <= u < |s.tasks| && WaitsOn(s.tasks[u], id) ==>
      s.tasks[t].phase.index <= s.tasks[u].phase.index
    ensures AuditedOn(s.audits, id) + [s.tasks[t].phase.index] <= StoredOn(s.commits, id)
  {
    var audited, stored, i := AuditedOn(s.audits, id), StoredOn(s.commits, id), s.tasks[t].phase.index;
    WaitingIsStored(s, t, id);
    StoredOnAre(s.commits, id);
    hide OwnInv, AuditedOn, StoredOn;
    NextInOrder(stored, audited, i);
    var j := stored[|audited|];
    assert j in stored;
    var u := StoredWaits(s, j, id);
    assert j == i;
  }

  lemma YoungerBreaksOrder(s: State, t: nat, u: nat, s': State, id: Uuid)
    requires OwnInv(s) && t < |s.tasks| && u < |s.tasks| && WaitsOn(s.tasks[t], id) && WaitsOn(s.tasks[u], id)
    requires s.tasks[u].phase.index < s.tasks[t].phase.index
    requires s'.audits == s.audits + [EntryOf(s.tasks[t])] && s'.commits == s.commits
    ensures OutOfOrder(s', id)
  {
    WaitingIsStored(s, u, id);
    AuditedSnoc(s.audits, EntryOf(s.tasks[t]), id);
    var audited, stored := AuditedOn(s'.audits, id), StoredOn(s'.commits, id);
    hide AuditedOn, StoredOn;
    assert audited[..|audited| - 1] == AuditedOn(s.audits, id);
    assert Jumps(audited, stored, |audited| - 1, s.tasks[u].phase.index);
  }

  lemma OutOfOrderStays(s: State, s': State, id: Uuid)
    requires OutOfOrder(s, id) && AuditedOn(s.audits, id) <= AuditedOn(s'.audits, id)
    requires StoredOn(s.commits, id) <= StoredOn(s'.commits, id)
    ensures OutOfOrder(s', id)
  {
    var audited, audited' := AuditedOn(s.audits, id), AuditedOn(s'.audits, id);
    var stored, stored' := StoredOn(s.commits, id), StoredOn(s'.commits, id);
    var p: nat, j: nat :| Jumps(audited, stored, p, j);
    hide AuditedOn, StoredOn;
    assert audited'[..p] == audited[..p] && audited'[p] == audited[p];
    var k :| 0 <= k < |stored| && stored[k] == j;
    assert stored'[k] == j;
    assert Jumps(audited', stored', p, j);
  }

  lemma OutOfOrderDiffers(s: State, id: Uuid)
    requires OutOfOrder(s, id)
    ensures !InOrder(s, id)
  {
    StoredOnAre(s.commits, id);
    var audited, stored := AuditedOn(s.audits, id), StoredOn(s.commits, id);
    hide AuditedOn, StoredOn;
    var p: nat, j: nat :| Jumps(audited, stored, p, j);
    if audited <= stored { EarlierIsListed(stored, audited, p, j); }
  }

  lemma AuditsWhenChanged(h: Hashing, s: State, a: Action)
    ensures Step(h, s, a).audits != s.audits <==> Audits(s, a)
    ensures Audits(s, a) ==>
      Step(h, s, a).audits == s.audits + [EntryOf(s.tasks[a.task])] && Step(h, s, a).commits == s.commits
  {
    hide Execute;
    AuditShape(h, s, a);
  }

  /** What one step adds to the numbers of table and log. */
  lemma NumbersGrow(h: Hashing, s: State, a: Action, id: Uuid)
    ensures var s' := Step(h, s, a);
      && StoredOn(s.commits, id) <= StoredOn(s'.commits, id)
      && AuditedOn(s'.audits, id) == AuditedOn(s.audits, id)
           + if Audits(s, a) && s.tasks[a.task].req.alertId == id then [s.tasks[a.task].phase.index] else []
  {
    var s' := Step(h, s, a);
    if s'.commits != s.commits {
      CommitShape(h, s, a);
      StoredSnoc(s.commits, RecordOf(s.tasks[a.task].req, a.id, a.at), id);
    }
    if s'.audits != s.audits {
      AuditShape(h, s, a);
      AuditedSnoc(s.audits, EntryOf(s.tasks[a.task]), id);
    }
    hide AuditedOn, StoredOn;
    assert s'.audits != s.audits <==> Audits(s, a) by { AuditsWhenChanged(h, s, a); }
  }

  lemma OrderStep(h: Hashing, s: State, a: Action, id: Uuid)
    requires OwnInv(s)
    ensures InOrder(s, id) && AuditsOldest(s, a, id) ==> InOrder(Step(h, s, a), id)
    ensures OutOfOrder(s, id) || !AuditsOldest(s, a, id) ==> OutOfOrder(Step(h, s, a), id)
  {
    var s' := Step(h, s, a);
    NumbersGrow(h, s, a, id);
    AuditsWhenChanged(h, s, a);
    hide Step, OwnInv, StoredOn, AuditedOn;
    if OutOfOrder(s, id) {
      OutOfOrderStays(s, s', id);
    } else if !AuditsOldest(s, a, id) {
      var u :| 0 <= u < |s.tasks| && WaitsOn(s.tasks[u], id) && s.tasks[a.task].phase.index > s.tasks[u].phase.index;
      YoungerBreaksOrder(s, a.task, u, s', id);
    }
    if InOrder(s, id) && AuditsOldest(s, a, id) && Audits(s, a) && s.tasks[a.task].req.alertId == id {
      OldestKeepsOrder(s, a.task, id);
    }
  }

  lemma {:induction false} OrderRun(h: Hashing, s: State, actions: seq<Action>, id: Uuid)
    requires OwnInv(s)
    ensures InOrder(s, id) && OldestRun(h, s, actions, id) ==> InOrder(Run(h, s, actions), id)
    ensures OutOfOrder(s, id) || !OldestRun(h, s, actions, id) ==> OutOfOrder(Run(h, s, actions), id)
    decreases |actions|
  {
    hide OwnInv, Step, InOrder, OutOfOrder, AuditsOldest;
    if actions != [] {
      OwnStep(h, s, actions[0]);
      OrderStep(h, s, actions[0], id);
      OrderRun(h, Step(h, s, actions[0]), actions[1..], id);
    }
  }

  /** When the log is in order, it is complete exactly when no stored decision waits for its audit. */
  lemma CompleteIff(s: State, id: Uuid)
    requires OwnInv(s) && InOrder(s, id)
    ensures AuditedOn(s.audits, id) == StoredOn(s.commits, id)
      <==> forall t :: 0 <= t < |s.tasks| ==> !WaitsOn(s.tasks[t], id)
  {
    var audited, stored := AuditedOn(s.audits, id), StoredOn(s.commits, id);
    StoredOnAre(s.commits, id);
    hide AuditedOn, StoredOn, OwnInv;
    if t :| 0 <= t < |s.tasks| && WaitsOn(s.tasks[t], id) {
      WaitingIsStored(s, t, id);
    } else if audited != stored {
      assert |audited| < |stored|;
      NotYetListed(stored, audited);
      assert stored[|audited|] in stored;
      var u := StoredWaits(s, stored[|audited|], id);
    }
  }

  /** In every run, however requests interleave and fail: the log lists exactly the decisions stored on the
      alert, in the order they were stored, if and only if every audit on it took the oldest one that was
      not yet audited, and none is left unaudited. Then, and whoever else is at work, folding the log gives
      the decision sequence and the status of the tables. */
  lemma LogOrderIff(h: Hashing, admin: Address, actions: seq<Action>, id: Uuid)
    ensures var s := Run(h, Start(admin), actions);
      && (AuditedOn(s.audits, id) == StoredOn(s.commits, id)
          <==> OldestRun(h, Start(admin), actions, id) && forall t :: 0 <= t < |s.tasks| ==> !WaitsOn(s.tasks[t], id))
      && (AuditedOn(s.audits, id) == StoredOn(s.commits, id) ==>
            && LogDecisions(s.audits, id) == TableDecisions(s.commits, id)
            && (id in s.alerts ==> LogStatus(s.audits, id) == s.alerts[id]))
  {
    var s := Run(h, Start(admin), actions);
    StatusAndAuditAgree(h, admin, actions);
    OwnRun(h, Start(admin), actions);
    OrderRun(h, Start(admin), actions, id);
    hide Run, OldestRun, AuditedOn, StoredOn, StatusAfter, LogStatus, LogDecisions, TableDecisions;
    hide OutOfOrder, Stored, Logged;
    if InOrder(s, id) { CompleteIff(s, id); }
    if OutOfOrder(s, id) { OutOfOrderDiffers(s, id); }
    if AuditedOn(s.audits, id) == StoredOn(s.commits, id) {
      assert GenuineOn(s.commits, s.audits, id);
      SameNumbersSameHistory(s.commits, s.audits, id);
    }
  }

  // ---------- What a caller can see to ----------

  /** At most one decision on the alert is stored and not audited. */
  ghost predicate OneWaits(s: State, id: Uuid) {
    forall t, u :: 0 <= t < u < |s.tasks| ==> !(WaitsOn(s.tasks[t], id) && WaitsOn(s.tasks[u], id))
  }

  /** No decision on the alert is stored between another's store and its audit. */
  predicate StoresAlone(s: State, a: Action, id: Uuid) {
    a.Commit? && a.task < |s.tasks| && s.tasks[a.task].phase.HasRead? && s.tasks[a.task].req.alertId == id ==>
      forall u :: 0 <= u < |s.tasks| ==> !WaitsOn(s.tasks[u], id)
  }

  predicate StoresAloneRun(h: Hashing, s: State, actions: seq<Action>, id: Uuid)
    decreases |actions|
  {
    actions == [] || (StoresAlone(s, actions[0], id) && StoresAloneRun(h, Step(h, s, actions[0]), actions[1..], id))
  }

  lemma OneWaitsStep(h: Hashing, s: State, a: Action, id: Uuid)
    requires OneWaits(s, id) && StoresAlone(s, a, id)
    ensures OneWaits(Step(h, s, a), id) && AuditsOldest(s, a, id)
  {
    var s' := Step(h, s, a);
    forall t, u | 0 <= t < u < |s'.tasks| ensures !(WaitsOn(s'.tasks[t], id) && WaitsOn(s'.tasks[u], id)) {
      PhaseShape(h, s, a, t);
      PhaseShape(h, s, a, u);
      hide Step;
      if t < |s.tasks| && u < |s.tasks| { assert !(WaitsOn(s.tasks[t], id) && WaitsOn(s.tasks[u], id)); }
    }
  }

  lemma {:induction false} StoresAloneIsOldest(h: Hashing, s: State, actions: seq<Action>, id: Uuid)
    requires OneWaits(s, id) && StoresAloneRun(h, s, actions, id)
    ensures OldestRun(h, s, actions, id)
    decreases |actions|
  {
    hide OneWaits, Step, StoresAlone, AuditsOldest;
    if actions != [] {
      OneWaitsStep(h, s, actions[0], id);
      StoresAloneIsOldest(h, Step(h, s, actions[0]), actions[1..], id);
    }
  }

  /** If no decision on the alert is stored between another's store and its audit, the log always lists the
      stored decisions in order, and all of them as soon as none is unaudited. */
  lemma StoredAloneIsInOrder(h: Hashing, admin: Address, actions: seq<Action>, id: Uuid)
    requires StoresAloneRun(h, Start(admin), actions, id)
    ensures var s := Run(h, Start(admin), actions);
      && InOrder(s, id)
      && (AuditedOn(s.audits, id) == StoredOn(s.commits, id)
          <==> forall t :: 0 <= t < |s.tasks| ==> !WaitsOn(s.tasks[t], id))
  {
    StoresAloneIsOldest(h, Start(admin), actions, id);
    OwnRun(h, Start(admin), actions);
    OrderRun(h, Start(admin), actions, id);
    hide Run, OldestRun, StoresAloneRun;
    CompleteIff(Run(h, Start(admin), actions), id);
  }

  ghost predicate OnlyAudits(actions: seq<Action>) {
    forall k :: 0 <= k < |actions| ==> actions[k].Audit? || actions[k].LateAudit?
  }

  lemma {:induction false} AuditsStoreAlone(h: Hashing, s: State, actions: seq<Action>, id: Uuid)
    requires OnlyAudits(actions)
    ensures StoresAloneRun(h, s, actions, id)
    decreases |actions|
  {
    hide Step;
    if actions != [] { AuditsStoreAlone(h, Step(h, s, actions[0]), actions[1..], id); }
  }

  lemma TwoCanSwap(h: Hashing, s: State, o: nat, y: nat, id: Uuid) returns (a: Action)
    requires OwnInv(s) && o < |s.tasks| && y < |s.tasks| && WaitsOn(s.tasks[o], id) && WaitsOn(s.tasks[y], id)
    requires s.tasks[o].phase.index < s.tasks[y].phase.index
    ensures (a.Audit? || a.LateAudit?) && !InOrder(Step(h, s, a), id)
  {
    a := if s.tasks[y].phase.Committed? then Audit(y) else LateAudit(y);
    assert !AuditsOldest(s, a, id);
    hide AuditsOldest, Step, OwnInv;
    OrderStep(h, s, a, id);
    OutOfOrderDiffers(Step(h, s, a), id);
  }

  /** And that is as much as can be asked for: once a second decision is stored while another is unaudited,
      the audits that are still to come can be made in an order that the log gets wrong; as long as there
      is only one, they cannot. */
  lemma OneWaitsIff(h: Hashing, s: State, id: Uuid)
    requires OwnInv(s) && InOrder(s, id)
    ensures OneWaits(s, id) <==> forall more :: OnlyAudits(more) ==> InOrder(Run(h, s, more), id)
  {
    if OneWaits(s, id) {
      hide OneWaits, OwnInv, InOrder;
      forall more | OnlyAudits(more) ensures InOrder(Run(h, s, more), id) {
        AuditsStoreAlone(h, s, more, id);
        StoresAloneIsOldest(h, s, more, id);
        OrderRun(h, s, more, id);
      }
    } else {
      var t, u :| 0 <= t < u < |s.tasks| && WaitsOn(s.tasks[t], id) && WaitsOn(s.tasks[u], id);
      assert s.tasks[t].phase.index != s.tasks[u].phase.index;
      hide InOrder, OwnInv;
      var a: Action;
      if s.tasks[t].phase.index < s.tasks[u].phase.index {
        a := TwoCanSwap(h, s, t, u, id);
      } else {
        a := TwoCanSwap(h, s, u, t, id);
      }
      hide Step;
      RunCons(h, s, a, []);
      assert [a] + [] == [a] && OnlyAudits([a]);
    }
  }

  /** A caller's rule: a request reads the alert only while no other is at work on it, and none is cut off
      between store and audit. */
  predicate Careful(s: State, a: Action, id: Uuid) {
    ReadsAlone(s, a, id)
    && (a.Abort? && a.task < |s.tasks| && s.tasks[a.task].req.alertId == id ==> !s.tasks[a.task].phase.Committed?)
  }

  predicate CarefulRun(h: Hashing, s: State, actions: seq<Action>, id: Uuid)
    decreases |actions|
  {
    actions == [] || (Careful(s, actions[0], id) && CarefulRun(h, Step(h, s, actions[0]), actions[1..], id))
  }

  ghost predicate NoneStranded(s: State, id: Uuid) {
    forall t :: 0 <= t < |s.tasks| && s.tasks[t].req.alertId == id ==> !s.tasks[t].phase.Stranded?
  }

  lemma CarefulStep(h: Hashing, s: State, a: Action, id: Uuid)
    requires OneActive(s, id) && NoneStranded(s, id) && Careful(s, a, id)
    ensures OneActive(Step(h, s, a), id) && NoneStranded(Step(h, s, a), id) && StoresAlone(s, a, id)
  {
    ActivePairs(h, s, a, id);
    if a.Commit? && a.task < |s.tasks| && s.tasks[a.task].phase.HasRead? && s.tasks[a.task].req.alertId == id {
      forall u | 0 <= u < |s.tasks| ensures !WaitsOn(s.tasks[u], id) {
        assert Active(s.tasks[a.task], id);
        assert u != a.task ==> !Active(s.tasks[u], id);
      }
    }
    hide Execute, OneActive;
  }

  lemma CarefulReads(s: State, a: Action, id: Uuid)
    requires Careful(s, a, id)
    ensures ReadsAlone(s, a, id)
  {
  }

  lemma {:induction false} CarefulIsAlone(h: Hashing, s: State, actions: seq<Action>, id: Uuid)
    requires OneActive(s, id) && NoneStranded(s, id) && CarefulRun(h, s, actions, id)
    ensures StoresAloneRun(h, s, actions, id) && AloneRun(h, s, actions, id)
    decreases |actions|
  {
    hide OneActive, NoneStranded, Step, StoresAlone, ReadsAlone;
    if actions != [] {
      CarefulStep(h, s, actions[0], id);
      assert ReadsAlone(s, actions[0], id) by { CarefulReads(s, actions[0], id); }
      CarefulIsAlone(h, Step(h, s, actions[0]), actions[1..], id);
    }
  }

  lemma {:induction false} AuditedPrefix(audits: seq<AuditEntry>, i: nat, id: Uuid)
    requires i < |audits| && audits[i].req.alertId == id
    ensures var before, all := AuditedOn(audits[..i], id), AuditedOn(audits, id);
      before <= all && |before| < |all| && all[|before|] == audits[i].index
  {
    var n := |audits| - 1;
    if i < n {
      AuditedPrefix(audits[..n], i, id);
      assert audits[..n][..i] == audits[..i];
    }
  }

  lemma {:induction false} StoredPrefix(commits: seq<DecisionRecord>, n: nat, id: Uuid)
    requires n <= |commits|
    ensures StoredOn(commits[..n], id) <= StoredOn(commits, id)
  {
    if n < |commits| {
      var m := |commits| - 1;
      StoredPrefix(commits[..m], n, id);
      assert commits[..m][..n] == commits[..n];
    } else {
      assert commits[..n] == commits;
    }
  }

  /** The decisions stored before the `k`-th one are the first `k`. */
  lemma StoredBelow(commits: seq<DecisionRecord>, k: nat, id: Uuid)
    requires k < |StoredOn(commits, id)|
    ensures var n := StoredOn(commits, id)[k]; n < |commits| && StoredOn(commits[..n], id) == StoredOn(commits, id)[..k]
  {
    var stored := StoredOn(commits, id);
    StoredOnAre(commits, id);
    assert stored[k] in stored;
    var n := stored[k];
    StoredPrefix(commits, n, id);
    StoredOnAre(commits[..n], id);
    var below := StoredOn(commits[..n], id);
    hide StoredOn;
    if |below| < k {
      assert stored[|below|] in stored && stored[|below|] < n && stored[|below|] in below;
      NotYetListed(stored, below);
    }
    assert |below| <= k by { assert forall j :: 0 <= j < |below| ==> below[j] in below && below[j] == stored[j]; }
  }

  /** What the log told when an entry in order was made is what the table held before its decision. */
  lemma LogBeforeEntry(s: State, i: nat, id: Uuid)
    requires OwnInv(s) && InOrder(s, id) && i < |s.audits| && s.audits[i].req.alertId == id
    ensures s.audits[i].index < |s.commits|
    ensures LogStatus(s.audits[..i], id) == StatusAfter(s.commits[..s.audits[i].index], id)
  {
    var e, before := s.audits[i], AuditedOn(s.audits[..i], id);
    assert forall k :: 0 <= k < |s.audits| ==> Genuine(s.commits, s.audits[k]);
    AuditedPrefix(s.audits, i, id);
    StoredBelow(s.commits, |before|, id);
    var earlier := s.commits[..e.index];
    assert before == StoredOn(earlier, id);
    forall k | 0 <= k < i && s.audits[..i][k].req.alertId == id ensures Genuine(earlier, s.audits[..i][k]) {
      AuditedOnAre(s.audits[..i], id);
      StoredOnAre(earlier, id);
      assert s.audits[..i][k].index in before;
    }
    hide OwnInv, AuditedOn, StoredOn;
    SameNumbersSameHistory(earlier, s.audits[..i], id);
  }

  /** Under that rule, whatever happens on other alerts: the log lists the decisions stored on the alert in
      order, and all of them as soon as none is unaudited; and each entry's previous status is the one that
      folding the log before it gives, so the chain is unbroken. */
  lemma CarefulDecisionsReplay(h: Hashing, admin: Address, actions: seq<Action>, id: Uuid)
    requires CarefulRun(h, Start(admin), actions, id)
    ensures var s := Run(h, Start(admin), actions);
      && InOrder(s, id)
      && (AuditedOn(s.audits, id) == StoredOn(s.commits, id)
          <==> forall t :: 0 <= t < |s.tasks| ==> !WaitsOn(s.tasks[t], id))
      && forall i :: 0 <= i < |s.audits| && s.audits[i].req.alertId == id ==>
           s.audits[i].previous == LogStatus(s.audits[..i], id)
  {
    var s := Run(h, Start(admin), actions);
    CarefulIsAlone(h, Start(admin), actions, id);
    StoredAloneIsInOrder(h, admin, actions, id);
    OwnRun(h, Start(admin), actions);
    hide Run, StoresAloneRun, AloneRun, CarefulRun, InOrder, OwnInv, LogStatus, StatusAfter, AuditedOn, StoredOn;
    forall i | 0 <= i < |s.audits| && s.audits[i].req.alertId == id
      ensures s.audits[i].previous == LogStatus(s.audits[..i], id)
    {
      LoneReadsReportExactStatus(h, admin, actions, id, i);
      LogBeforeEntry(s, i, id);
    }
  }

  // ---------- A run the log gets wrong ----------

  lemma SwappedTail(h: Hashing, s: State, x: Uuid, y: Uuid, at: Instant)
    requires x != y && |s.tasks| == 2 && s.commits == [] && s.audits == []
    requires s.tasks[0].phase == s.tasks[1].phase == HasRead(Open, 0)
    requires s.tasks[0].req.alertId == s.tasks[1].req.alertId
    ensures var s' := Run(h, s, [Commit(0, x, at)] + ([Commit(1, y, at)] + ([Audit(1)] + [Audit(0)])));
      var p, q := s.tasks[0].req, s.tasks[1].req;
      && s'.commits == [RecordOf(p, x, at), RecordOf(q, y, at)]
      && s'.audits == [AuditEntry(q, Open, 0, 1), AuditEntry(p, Open, 0, 0)]
      && |s'.tasks| == 2 && s'.tasks[0].phase.Audited? && s'.tasks[1].phase.Audited?
  {
    var s1 := CommitStep(s, 0, RecordOf(s.tasks[0].req, x, at));
    var s2 := CommitStep(s1, 1, RecordOf(s.tasks[1].req, y, at));
    assert Step(h, s, Commit(0, x, at)) == s1 && Step(h, s1, Commit(1, y, at)) == s2;
    var s3 := Step(h, s2, Audit(1));
    assert s3.tasks[0].phase == Committed(Open, 0, 0);
    var s4 := Step(h, s3, Audit(0));
    hide Step, Run;
    RunCons(h, s, Commit(0, x, at), [Commit(1, y, at)] + ([Audit(1)] + [Audit(0)]));
    RunCons(h, s1, Commit(1, y, at), [Audit(1)] + [Audit(0)]);
    RunCons(h, s2, Audit(1), [Audit(0)]);
    RunCons(h, s3, Audit(0), []);
    assert [Audit(0)] + [] == [Audit(0)];
  }

  lemma TwoOf(r0: DecisionRecord, r1: DecisionRecord, e0: AuditEntry, e1: AuditEntry, id: Uuid)
    requires r0.alertId == r1.alertId == e0.req.alertId == e1.req.alertId == id
    ensures TableDecisions([r0, r1], id) == [RequestOf(r0), RequestOf(r1)]
    ensures StatusAfter([r0, r1], id) == StatusOf(r1.decision)
    ensures LogDecisions([e0, e1], id) == [e0.req, e1.req] && LogStatus([e0, e1], id) == StatusOf(e1.req.decision)
  {
    assert [r0, r1][..1] == [r0] && [r0][..0] == [];
    assert TableDecisions([r0], id) == [] + [RequestOf(r0)];
    assert [e0, e1][..1] == [e0] && [e0][..0] == [];
    assert LogDecisions([e0], id) == [] + [e0.req];
  }

  /** Two overlapping decisions, both audited, in the other order: nothing is unaudited, yet the log gives
      the reverse decision sequence and a status that the alert does not have. */
  lemma SwappedAuditsMislead(h: Hashing, admin: Address, a: Uuid, x: Uuid, y: Uuid, at: Instant)
    requires x != y
    ensures var first := Request(a, "inv-1", Decision.Escalated, "r1");
      var second := Request(a, "inv-2", Decision.Dismissed, "r2");
      var rest := [Commit(0, x, at)] + ([Commit(1, y, at)] + ([Audit(1)] + [Audit(0)]));
      var s := Run(h, Start(admin),
                   [OpenAlert(a)] + ([Submit(first)] + ([Submit(second)] + ([Read(0)] + ([Read(1)] + rest)))));
      && (forall t :: 0 <= t < |s.tasks| ==> !Unaudited(s.tasks[t]))
      && TableDecisions(s.commits, a) == [first, second] && StatusAfter(s.commits, a) == AlertStatus.Dismissed
      && LogDecisions(s.audits, a) == [second, first] && LogStatus(s.audits, a) == AlertStatus.Escalated
  {
    var p, q := Request(a, "inv-1", Decision.Escalated, "r1"), Request(a, "inv-2", Decision.Dismissed, "r2");
    var rest := [Commit(0, x, at)] + ([Commit(1, y, at)] + ([Audit(1)] + [Audit(0)]));
    BothRead(h, admin, a, p, q, rest);
    var s0 := State(map[a := Open], [Task(p, HasRead(Open, 0)), Task(q, HasRead(Open, 0))], [], [],
                    Contract(Some(admin), map[]));
    SwappedTail(h, s0, x, y, at);
    var s := Run(h, s0, rest);
    hide Run, Step, TableDecisions, LogDecisions, StatusAfter, LogStatus;
    TwoOf(RecordOf(p, x, at), RecordOf(q, y, at), AuditEntry(q, Open, 0, 1), AuditEntry(p, Open, 0, 0), a);
  }
}
