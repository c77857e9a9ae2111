// Concurrent appends to the SQLite audit log: many tasks, one lock, and a failure or cancellation
// possible at every await. Each SQL statement is one atomic step, and the driver may still execute the
// insert of a task that was cancelled, after the lock is free again.
module AppendProtocol {
  import opened Basics
  import opened Calendar
  import opened AuditChain
  import opened AuditStore

  datatype Phase =
    | Waiting                            // before the lock is granted
    | Locked                             // holds the lock, nothing read
    | GotHash(prev: string)              // last hash read
    | GotNext(prev: string, next: int)   // next sequence read
    | Inserted(row: AuditRecord)         // row written, lock still held
    | Orphaned(prev: string, next: int)  // cancelled, its insert not executed yet
    | Returned(record: AuditRecord)      // Ok was returned
    | Failed                             // error or cancellation

  datatype Task = Task(event: NewAuditEvent, phase: Phase)

  /** One written row: by which task, and from which draws. */
  datatype Commit = Commit(task: nat, event: NewAuditEvent, id: Uuid, at: Instant)

  /** `commits` is a history variable: the writes in the order they happened. */
  datatype State = State(table: Table, lock: Option<nat>, tasks: seq<Task>, commits: seq<Commit>)

  const INITIAL := State(map[], None, [], [])

  datatype Action =
    | Submit(event: NewAuditEvent)
    | Acquire(task: nat)
    | ReadHash(task: nat)
    | ReadNext(task: nat)
    | Insert(task: nat, id: Uuid, at: Instant)
    | Return(task: nat)
    | Abort(task: nat)
    | Orphan(task: nat)                  // cancelled with the insert under way
    | LateInsert(task: nat, id: Uuid, at: Instant)

  predicate Holding(p: Phase) { p.Locked? || p.GotHash? || p.GotNext? || p.Inserted? }

  predicate Finished(p: Phase) { p.Returned? || p.Failed? }

  function SetPhase(s: State, t: nat, p: Phase): State
    requires t < |s.tasks|
  {
    s.(tasks := s.tasks[t := s.tasks[t].(phase := p)])
  }

  function Release(s: State, t: nat): State {
    if s.lock == Some(t) then s.(lock := None) else s
  }

  /** One step. An action that is not possible in the current state leaves it unchanged. */
  function Step(sl: Sealing, s: State, a: Action): State {
    match a
    case Submit(e) => s.(tasks := s.tasks + [Task(e, Waiting)])
    case Acquire(t) =>
      if t < |s.tasks| && s.tasks[t].phase.Waiting? && s.lock.None? then SetPhase(s, t, Locked).(lock := Some(t)) else s
    case ReadHash(t) =>
      if t < |s.tasks| && s.tasks[t].phase.Locked? then SetPhase(s, t, GotHash(LastHash(s.table))) else s
    case ReadNext(t) =>
      if t < |s.tasks| && s.tasks[t].phase.GotHash? then
        SetPhase(s, t, GotNext(s.tasks[t].phase.prev, NextSequence(s.table)))
      else s
    case Insert(t, id, at) =>
      if t < |s.tasks| && s.tasks[t].phase.GotNext? then
        var p, e := s.tasks[t].phase, s.tasks[t].event;
        if p.next in s.table then Release(SetPhase(s, t, Failed), t)  // primary key violation
        else
          var row := Seal(sl, e, id, at, p.next, p.prev);
          SetPhase(s, t, Inserted(row)).(table := s.table[p.next := row], commits := s.commits + [Commit(t, e, id, at)])
      else s
    case Orphan(t) =>
      if t < |s.tasks| && s.tasks[t].phase.GotNext? then
        Release(SetPhase(s, t, Orphaned(s.tasks[t].phase.prev, s.tasks[t].phase.next)), t)
      else s
    case LateInsert(t, id, at) =>
      if t < |s.tasks| && s.tasks[t].phase.Orphaned? then
        var p, e := s.tasks[t].phase, s.tasks[t].event;
        if p.next in s.table then SetPhase(s, t, Failed)
        else SetPhase(s, t, Failed).(table := s.table[p.next := Seal(sl, e, id, at, p.next, p.prev)],
                                     commits := s.commits + [Commit(t, e, id, at)])
      else s
    case Return(t) =>
      if t < |s.tasks| && s.tasks[t].phase.Inserted? then Release(SetPhase(s, t, Returned(s.tasks[t].phase.row)), t)
      else s
    case Abort(t) =>
      if t < |s.tasks| && !Finished(s.tasks[t].phase) then Release(SetPhase(s, t, Failed), t) else s
  }

  function Run(sl: Sealing, s: State, actions: seq<Action>): State
    decreases |actions|
  {
    if actions == [] then s else Run(sl, Step(sl, s, actions[0]), actions[1..])
  }

  /** The in-memory store after appending the committed events one after the other. */
  function Replay(sl: Sealing, commits: seq<Commit>): (rs: seq<AuditRecord>)
    ensures |rs| == |commits|
  {
    if commits == [] then []
    else
      var rs, c := Replay(sl, commits[..|commits| - 1]), commits[|commits| - 1];
      rs + [NextRecord(sl, rs, c.event, c.id, c.at)]
  }

  lemma {:induction false} ReplayKeepsChain(sl: Sealing, commits: seq<Commit>)
    ensures ChainOk(sl, Replay(sl, commits)) && Sequenced(Replay(sl, commits))
  {
    if commits != [] {
      var c := commits[|commits| - 1];
      ReplayKeepsChain(sl, commits[..|commits| - 1]);
      AppendKeepsChain(sl, Replay(sl, commits[..|commits| - 1]), c.event, c.id, c.at);
    }
  }

  // ---------- The invariant ----------

  ghost predicate LockInv(s: State) {
    && (s.lock.Some? ==> s.lock.value < |s.tasks|)
    && (forall t :: 0 <= t < |s.tasks| ==> (Holding(s.tasks[t].phase) <==> s.lock == Some(t)))
  }

  /** What was read is up to date, or the sequence is taken by now and the insert will be refused. */
  ghost predicate Current(t: Table, prev: string, next: int)
    requires Dense(t)
  {
    0 <= next <= |t| && (next == |t| ==> prev == Head(Rows(t)))
  }

  ghost predicate ReadsInv(s: State)
    requires Dense(s.table)
  {
    forall t :: 0 <= t < |s.tasks| ==>
      && (s.tasks[t].phase.GotHash? ==> s.tasks[t].phase.prev == Head(Rows(s.table)))
      && (s.tasks[t].phase.GotNext? || s.tasks[t].phase.Orphaned? ==>
          Current(s.table, s.tasks[t].phase.prev, s.tasks[t].phase.next))
  }

  ghost predicate Reports(s: State, t: nat, r: AuditRecord)
    requires Dense(s.table) && |s.commits| == |s.table|
  {
    0 <= r.sequence < |s.table| && s.table[r.sequence] == r && s.commits[r.sequence].task == t
  }

  /** A task that reports a record reports the row that it committed. */
  ghost predicate ReportInv(s: State)
    requires Dense(s.table) && |s.commits| == |s.table|
  {
    forall t :: 0 <= t < |s.tasks| ==>
      && (s.tasks[t].phase.Inserted? ==> Reports(s, t, s.tasks[t].phase.row))
      && (s.tasks[t].phase.Returned? ==> Reports(s, t, s.tasks[t].phase.record))
  }

  /** No task commits twice, and none commits before its insert. */
  ghost predicate CommitInv(s: State) {
    && (forall i :: 0 <= i < |s.commits| ==>
          && s.commits[i].task < |s.tasks|
          && s.commits[i].event == s.tasks[s.commits[i].task].event
          && (s.tasks[s.commits[i].task].phase.Inserted? || Finished(s.tasks[s.commits[i].task].phase)))
    && (forall i, j :: 0 <= i < j < |s.commits| ==> s.commits[i].task != s.commits[j].task)
  }

  ghost predicate Inv(sl: Sealing, s: State) {
    && Dense(s.table)
    && Rows(s.table) == Replay(sl, s.commits)
    && LockInv(s) && ReadsInv(s) && ReportInv(s) && CommitInv(s)
  }

  /** What moving one task to phase `p` needs. */
  ghost predicate Justified(s: State, t: nat, p: Phase)
    requires Dense(s.table) && |s.commits| == |s.table| && t < |s.tasks|
  {
    && (p.GotHash? ==> p.prev == Head(Rows(s.table)))
    && (p.GotNext? || p.Orphaned? ==> Current(s.table, p.prev, p.next))
    && (p.Inserted? ==> Reports(s, t, p.row))
    && (p.Returned? ==> Reports(s, t, p.record))
    && (s.tasks[t].phase.Inserted? || Finished(s.tasks[t].phase) ==> p.Inserted? || Finished(p))
  }

  /** A step that only moves one task, and perhaps the lock, keeps the invariant. */
  lemma PhaseChangeKeepsInv(sl: Sealing, s: State, t: nat, p: Phase, s': State)
    requires Inv(sl, s) && t < |s.tasks| && |s.commits| == |s.table| && Justified(s, t, p)
    requires s'.table == s.table && s'.commits == s.commits && s'.tasks == s.tasks[t := s.tasks[t].(phase := p)]
    requires LockInv(s')
    ensures Inv(sl, s')
  {
    hide LockInv, Replay, Head, Rows, Dense;
    assert CommitInv(s');
    assert ReadsInv(s');
    assert ReportInv(s') by { hide CommitInv, ReadsInv, Current; }
  }

  lemma InsertKeepsReports(sl: Sealing, s: State, t: nat, row: AuditRecord, c: Commit, p: Phase, s': State)
    requires Inv(sl, s) && t < |s.tasks| && Dense(s'.table) && |s.commits| == |s.table| && |s'.table| == |s.table| + 1
    requires c.task == t && row.sequence == |s.table| && (p == Inserted(row) || p == Failed)
    requires s' == SetPhase(s, t, p).(table := s.table[|s.table| := row], commits := s.commits + [c])
    ensures ReportInv(s')
  {
    forall u, r | 0 <= u < |s.tasks| && Reports(s, u, r) ensures Reports(s', u, r) {
    }
    assert Reports(s', t, row);
  }

  lemma InsertKeepsCommits(s: State, t: nat, c: Commit, p: Phase, s': State)
    requires CommitInv(s) && t < |s.tasks| && (s.tasks[t].phase.GotNext? || s.tasks[t].phase.Orphaned?)
    requires c.task == t && c.event == s.tasks[t].event && (p.Inserted? || p == Failed)
    requires s'.tasks == s.tasks[t := s.tasks[t].(phase := p)] && s'.commits == s.commits + [c]
    ensures CommitInv(s')
  {
  }

  lemma InsertKeepsReads(s: State, t: nat, p: Phase, s': State)
    requires Dense(s.table) && Dense(s'.table) && ReadsInv(s) && |s'.table| == |s.table| + 1
    requires t < |s.tasks| && (p.Inserted? || p == Failed)
    requires s'.tasks == s.tasks[t := s.tasks[t].(phase := p)]
    requires forall u :: 0 <= u < |s.tasks| ==> !s.tasks[u].phase.GotHash?
    ensures ReadsInv(s')
  {
    hide Dense, Rows, Head;
  }

  lemma InsertKeepsInv(sl: Sealing, s: State, t: nat, row: AuditRecord, c: Commit, p: Phase, s': State)
    requires Inv(sl, s) && t < |s.tasks| && (s.tasks[t].phase.GotNext? || s.tasks[t].phase.Orphaned?)
    requires c.task == t && c.event == s.tasks[t].event && row == NextRecord(sl, Rows(s.table), c.event, c.id, c.at)
    requires |s.table| !in s.table
    requires if s.tasks[t].phase.GotNext? then p == Inserted(row) else p == Failed
    requires forall u :: 0 <= u < |s.tasks| ==> !s.tasks[u].phase.GotHash?
    requires s' == SetPhase(s, t, p).(table := s.table[|s.table| := row], commits := s.commits + [c]) && LockInv(s')
    ensures Inv(sl, s')
  {
    assert row.sequence == |s.table|;
    hide NextRecord, LockInv, CommitInv, ReadsInv, ReportInv;
    InsertNext(s.table, row);
    assert s'.commits[..|s.commits|] == s.commits;
    assert Rows(s'.table) == Replay(sl, s'.commits);
    hide Replay, Rows, Dense;
    InsertKeepsReads(s, t, p, s');
    InsertKeepsCommits(s, t, c, p, s');
    InsertKeepsReports(sl, s, t, row, c, p, s');
  }

  /** The cancelled task's insert will be executed, not refused. */
  predicate TakesEffect(s: State, a: Action) {
    a.LateInsert? && a.task < |s.tasks| && s.tasks[a.task].phase.Orphaned? && s.tasks[a.task].phase.next !in s.table
  }

  /** A late insert does not fall between the two reads of the task that holds the lock. */
  predicate Orderly(s: State, a: Action) {
    TakesEffect(s, a) ==> forall u :: 0 <= u < |s.tasks| ==> !s.tasks[u].phase.GotHash?
  }

  predicate OrderlyRun(sl: Sealing, s: State, actions: seq<Action>)
    decreases |actions|
  {
    actions == [] || (Orderly(s, actions[0]) && OrderlyRun(sl, Step(sl, s, actions[0]), actions[1..]))
  }

  /** Only the lock's holder can be between its reads. */
  lemma HolderReadsAlone(s: State, t: nat)
    requires LockInv(s) && t < |s.tasks| && s.tasks[t].phase.GotNext?
    ensures forall u :: 0 <= u < |s.tasks| ==> !s.tasks[u].phase.GotHash?
  {
    assert s.lock == Some(t);
    assert forall u :: 0 <= u < |s.tasks| && u != t ==> !Holding(s.tasks[u].phase);
  }

  lemma StepKeepsLock(sl: Sealing, s: State, a: Action)
    requires LockInv(s)
    ensures LockInv(Step(sl, s, a))
  {
    hide LastHash, NextSequence;
  }

  /** An insert that takes effect writes the row the in-memory store would append. */
  lemma EffectiveInsert(sl: Sealing, s: State, a: Action)
    requires Inv(sl, s) && Orderly(s, a) && (a.Insert? || a.LateInsert?) && a.task < |s.tasks|
    requires if a.Insert? then s.tasks[a.task].phase.GotNext? else s.tasks[a.task].phase.Orphaned?
    requires s.tasks[a.task].phase.next !in s.table
    ensures Inv(sl, Step(sl, s, a)) && s.commits <= Step(sl, s, a).commits
  {
    hide Replay, Head, Rows;
    var t, s' := a.task, Step(sl, s, a);
    var q := s.tasks[t].phase;
    assert Current(s.table, q.prev, q.next) && q.next == |s.table|;
    if a.Insert? { HolderReadsAlone(s, t); }
    var c := Commit(t, s.tasks[t].event, a.id, a.at);
    var row := Seal(sl, c.event, a.id, a.at, q.next, q.prev);
    assert row == NextRecord(sl, Rows(s.table), c.event, c.id, c.at);
    StepKeepsLock(sl, s, a);
    InsertKeepsInv(sl, s, t, row, c, s'.tasks[t].phase, s');
  }

  /** A step that writes no row moves one task at most. */
  lemma QuietStep(sl: Sealing, s: State, a: Action)
    requires !a.Submit? && Step(sl, s, a).commits == s.commits && Step(sl, s, a) != s
    ensures var s' := Step(sl, s, a);
      && a.task < |s.tasks| && s'.table == s.table
      && s'.tasks == s.tasks[a.task := s.tasks[a.task].(phase := s'.tasks[a.task].phase)]
  {
    hide LastHash, NextSequence;
  }

  /** The moves a task can make without writing a row. */
  predicate Moves(t: Table, q: Phase, p: Phase) {
    || (q.Waiting? && p.Locked?)
    || (q.Locked? && p == GotHash(LastHash(t)))
    || (q.GotHash? && p == GotNext(q.prev, NextSequence(t)))
    || (q.GotNext? && p == Orphaned(q.prev, q.next))
    || (q.Inserted? && p == Returned(q.row))
    || p == Failed
  }

  lemma MoveShape(sl: Sealing, s: State, a: Action)
    requires !a.Submit? && a.task < |s.tasks| && Step(sl, s, a).commits == s.commits && Step(sl, s, a) != s
    ensures a.task < |Step(sl, s, a).tasks| && Moves(s.table, s.tasks[a.task].phase, Step(sl, s, a).tasks[a.task].phase)
  {
    hide LastHash, NextSequence;
  }

  lemma TaskFacts(sl: Sealing, s: State, t: nat)
    requires Inv(sl, s) && |s.commits| == |s.table| && t < |s.tasks|
    ensures var q := s.tasks[t].phase;
      && Dense(s.table)
      && (q.GotHash? ==> q.prev == Head(Rows(s.table)))
      && (q.GotNext? ==> Current(s.table, q.prev, q.next))
      && (q.Inserted? ==> Reports(s, t, q.row))
  {
    hide LockInv, CommitInv, Dense, Rows, Head, Replay, Current, Reports;
  }

  lemma MoveIsJustified(sl: Sealing, s: State, t: nat, p: Phase)
    requires Inv(sl, s) && Dense(s.table) && |s.commits| == |s.table| && t < |s.tasks|
    requires Moves(s.table, s.tasks[t].phase, p)
    ensures Justified(s, t, p)
  {
    hide Inv, Dense, Rows, Head, LastHash, NextSequence, Reports;
    TaskFacts(sl, s, t);
    ReadsOfDenseTable(s.table);
  }

  lemma SubmitKeepsInv(sl: Sealing, s: State, e: NewAuditEvent)
    requires Inv(sl, s)
    ensures Inv(sl, Step(sl, s, Submit(e)))
  {
    hide Replay, Head, Rows;
  }

  lemma StepKeepsInv(sl: Sealing, s: State, a: Action)
    requires Inv(sl, s) && Orderly(s, a)
    ensures Inv(sl, Step(sl, s, a))
    ensures s.commits <= Step(sl, s, a).commits
  {
    hide Replay, Head, Rows;
    var s' := Step(sl, s, a);
    assert |s.commits| == |s.table|;
    if a.Submit? {
      SubmitKeepsInv(sl, s, a.event);
    } else if s'.commits != s.commits {
      EffectiveInsert(sl, s, a);
    } else if s' != s {
      QuietStep(sl, s, a);
      MoveShape(sl, s, a);
      MoveIsJustified(sl, s, a.task, s'.tasks[a.task].phase);
      StepKeepsLock(sl, s, a);
      hide Step, Justified;
      PhaseChangeKeepsInv(sl, s, a.task, s'.tasks[a.task].phase, s');
    }
  }

  lemma {:induction false} RunKeepsInv(sl: Sealing, s: State, actions: seq<Action>)
    requires Inv(sl, s) && OrderlyRun(sl, s, actions)
    ensures Inv(sl, Run(sl, s, actions))
    ensures s.commits <= Run(sl, s, actions).commits
    decreases |actions|
  {
    hide Inv, Step, Orderly;
    if actions != [] {
      StepKeepsInv(sl, s, actions[0]);
      RunKeepsInv(sl, Step(sl, s, actions[0]), actions[1..]);
    }
  }

  // ---------- Main results ----------

  lemma InitialInv(sl: Sealing)
    ensures Inv(sl, INITIAL)
  {
  }

  lemma SnapshotVerifies(sl: Sealing, s: State)
    requires Inv(sl, s)
    ensures ChainOk(sl, Ascending(s.table)) && Sequenced(Ascending(s.table))
  {
    AscendingRows(s.table);
    ReplayKeepsChain(sl, s.commits);
  }

  /** Under every interleaving, with failures and cancellations anywhere, the log stays numbered 0..n-1
      and every snapshot of it verifies, as long as no late insert falls between another task's reads. */
  lemma EverySnapshotVerifies(sl: Sealing, actions: seq<Action>)
    requires OrderlyRun(sl, INITIAL, actions)
    ensures var log := Ascending(Run(sl, INITIAL, actions).table); ChainOk(sl, log) && Sequenced(log)
  {
    InitialInv(sl);
    RunKeepsInv(sl, INITIAL, actions);
    SnapshotVerifies(sl, Run(sl, INITIAL, actions));
  }

  /** The log is what the in-memory store holds after the committed appends in commit order; every task
      commits at most once, its own event, and a task told Ok was told the row it wrote. */
  lemma AppendsLinearize(sl: Sealing, actions: seq<Action>)
    requires OrderlyRun(sl, INITIAL, actions)
    ensures var s := Run(sl, INITIAL, actions);
      && Ascending(s.table) == Replay(sl, s.commits)
      && (forall i, j :: 0 <= i < j < |s.commits| ==> s.commits[i].task != s.commits[j].task)
      && (forall i :: 0 <= i < |s.commits| ==>
          s.commits[i].task < |s.tasks| && s.commits[i].event == s.tasks[s.commits[i].task].event)
      && (forall t :: 0 <= t < |s.tasks| && s.tasks[t].phase.Returned? ==>
            var r := s.tasks[t].phase.record;
            0 <= r.sequence < |s.commits| && s.commits[r.sequence].task == t && Replay(sl, s.commits)[r.sequence] == r)
  {
    InitialInv(sl);
    RunKeepsInv(sl, INITIAL, actions);
    AscendingRows(Run(sl, INITIAL, actions).table);
  }

  lemma {:induction false} ReplayPrefix(sl: Sealing, c: seq<Commit>, d: seq<Commit>)
    requires c <= d
    ensures Replay(sl, c) <= Replay(sl, d)
    decreases |d|
  {
    if |c| < |d| {
      ReplayPrefix(sl, c, d[..|d| - 1]);
    } else {
      assert c == d;
    }
  }

  lemma LaterStateExtends(sl: Sealing, s: State, s': State)
    requires Inv(sl, s) && Inv(sl, s') && s.commits <= s'.commits
    ensures Ascending(s.table) <= Ascending(s'.table)
    ensures forall t :: 0 <= t < |s.tasks| && s.tasks[t].phase.Returned? ==>
      s.tasks[t].phase.record.sequence < |s.commits|
    ensures forall i :: 0 <= i < |s'.commits| && s'.commits[i].task >= |s.tasks| ==> |s.commits| <= i
  {
    hide Replay, Rows, Ascending;
    AscendingRows(s.table);
    AscendingRows(s'.table);
    ReplayPrefix(sl, s.commits, s'.commits);
    assert |s.commits| == |s.table|;
    assert forall t :: 0 <= t < |s.tasks| && s.tasks[t].phase.Returned? ==> Reports(s, t, s.tasks[t].phase.record);
    assert forall i :: 0 <= i < |s.commits| ==> s'.commits[i] == s.commits[i];
  }

  /** The order of commits respects real time: what is committed stays where it is, and a task submitted
      later commits after everything committed so far. */
  lemma CommitOrderIsRealTime(sl: Sealing, before: seq<Action>, after: seq<Action>)
    requires OrderlyRun(sl, INITIAL, before) && OrderlyRun(sl, Run(sl, INITIAL, before), after)
    ensures var s := Run(sl, INITIAL, before); var s' := Run(sl, s, after);
      && s.commits <= s'.commits
      && Ascending(s.table) <= Ascending(s'.table)
      && (forall t :: 0 <= t < |s.tasks| && s.tasks[t].phase.Returned? ==>
          s.tasks[t].phase.record.sequence < |s.commits|)
      && (forall i :: 0 <= i < |s'.commits| && s'.commits[i].task >= |s.tasks| ==> |s.commits| <= i)
  {
    var s := Run(sl, INITIAL, before);
    var s' := Run(sl, s, after);
    InitialInv(sl);
    hide Run, OrderlyRun, Inv, Ascending;
    RunKeepsInv(sl, INITIAL, before);
    RunKeepsInv(sl, s, after);
    LaterStateExtends(sl, s, s');
  }

  lemma {:induction false} RunKeepsLock(sl: Sealing, s: State, actions: seq<Action>)
    requires LockInv(s)
    ensures LockInv(Run(sl, s, actions))
    decreases |actions|
  {
    hide LockInv, Step;
    if actions != [] {
      StepKeepsLock(sl, s, actions[0]);
      RunKeepsLock(sl, Step(sl, s, actions[0]), actions[1..]);
    }
  }

  /** No lost lock: whenever no task is between acquiring and finishing, the lock is free, so a waiting
      task can proceed; aborting the holder always frees it. */
  lemma LockIsNeverLost(sl: Sealing, actions: seq<Action>)
    ensures var s := Run(sl, INITIAL, actions);
      match s.lock
      case None => forall t :: 0 <= t < |s.tasks| ==> !Holding(s.tasks[t].phase)
      case Some(t) => t < |s.tasks| && Holding(s.tasks[t].phase) && Step(sl, s, Abort(t)).lock.None?
  {
    RunKeepsLock(sl, INITIAL, actions);
  }

  /** With the lock free, a waiting task that runs alone appends what the in-memory store would append. */
  lemma SoloAppendSucceeds(sl: Sealing, s: State, t: nat, id: Uuid, at: Instant)
    requires Inv(sl, s) && s.lock.None? && t < |s.tasks| && s.tasks[t].phase.Waiting?
    ensures var s3 := Step(sl, Step(sl, Step(sl, s, Acquire(t)), ReadHash(t)), ReadNext(t));
      var s' := Step(sl, Step(sl, s3, Insert(t, id, at)), Return(t));
      var r := NextRecord(sl, Rows(s.table), s.tasks[t].event, id, at);
      && s'.tasks[t].phase == Returned(r) && s'.lock.None?
      && Dense(s'.table) && Rows(s'.table) == Rows(s.table) + [r]
  {
    hide Replay, Rows, Dense, Head, LastHash, NextSequence;
    ReadsOfDenseTable(s.table);
    var e := s.tasks[t].event;
    var r := NextRecord(sl, Rows(s.table), e, id, at);
    InsertNext(s.table, r);
    var s1 := Step(sl, s, Acquire(t));
    assert s1 == SetPhase(s, t, Locked).(lock := Some(t));
    var s2 := Step(sl, s1, ReadHash(t));
    assert s2 == SetPhase(s, t, GotHash(Head(Rows(s.table)))).(lock := Some(t));
    var s3 := Step(sl, s2, ReadNext(t));
    assert s3 == SetPhase(s, t, GotNext(Head(Rows(s.table)), |s.table|)).(lock := Some(t));
    var s4 := Step(sl, s3, Insert(t, id, at));
    assert s4.table == s.table[|s.table| := r] && s4.lock == Some(t) && s4.tasks[t].phase == Inserted(r);
  }

  /** A task cancelled while its insert is under way has freed the lock, is not told Ok, and its row is
      appended all the same when the driver comes to it. */
  lemma CancelledAppendMayCommit(sl: Sealing, s: State, t: nat, id: Uuid, at: Instant)
    requires Inv(sl, s) && s.lock.None? && t < |s.tasks| && s.tasks[t].phase.Waiting?
    ensures var s3 := Step(sl, Step(sl, Step(sl, s, Acquire(t)), ReadHash(t)), ReadNext(t));
      var s4 := Step(sl, s3, Orphan(t));
      var s' := Step(sl, s4, LateInsert(t, id, at));
      && s4.lock.None? && s4.table == s.table && s'.tasks[t].phase == Failed
      && Dense(s'.table) && Rows(s'.table) == Rows(s.table) + [NextRecord(sl, Rows(s.table), s.tasks[t].event, id, at)]
  {
    hide Replay, Rows, Dense, Head, LastHash, NextSequence;
    ReadsOfDenseTable(s.table);
    var r := NextRecord(sl, Rows(s.table), s.tasks[t].event, id, at);
    InsertNext(s.table, r);
    var s1 := Step(sl, s, Acquire(t));
    assert s1 == SetPhase(s, t, Locked).(lock := Some(t));
    var s2 := Step(sl, s1, ReadHash(t));
    assert s2 == SetPhase(s, t, GotHash(Head(Rows(s.table)))).(lock := Some(t));
    var s3 := Step(sl, s2, ReadNext(t));
    assert s3 == SetPhase(s, t, GotNext(Head(Rows(s.table)), |s.table|)).(lock := Some(t));
    var s4 := Step(sl, s3, Orphan(t));
    assert s4 == SetPhase(s, t, Orphaned(Head(Rows(s.table)), |s.table|));
    assert Step(sl, s4, LateInsert(t, id, at)).table == s.table[|s.table| := r];
  }

  // ---------- What every row holds ----------

  /** The row that an insert, late or not, writes. */
  function RowOf(sl: Sealing, s: State, a: Action): AuditRecord
    requires (a.Insert? || a.LateInsert?) && a.task < |s.tasks|
    requires s.tasks[a.task].phase.GotNext? || s.tasks[a.task].phase.Orphaned?
  {
    Seal(sl, s.tasks[a.task].event, a.id, a.at, s.tasks[a.task].phase.next, s.tasks[a.task].phase.prev)
  }

  /** The events submitted by a run, in order: those of tasks 0, 1, 2, ... */
  function Submissions(actions: seq<Action>): seq<NewAuditEvent>
    decreases |actions|
  {
    if actions == [] then []
    else (if actions[0].Submit? then [actions[0].event] else []) + Submissions(actions[1..])
  }

  function EventsOf(s: State): seq<NewAuditEvent> { Map((t: Task) => t.event, s.tasks) }

  /** Whatever was read when: rows are numbered from 0 on, and each holds the event of its commit. */
  ghost predicate RowsInv(sl: Sealing, s: State) {
    && Dense(s.table) && |s.commits| == |s.table|
    && (forall i :: 0 <= i < |s.commits| ==>
          && Holds(s.table[i], s.commits[i].event, s.commits[i].id, s.commits[i].at) && Hashed(sl, s.table[i])
          && s.commits[i].task < |s.tasks| && s.commits[i].event == s.tasks[s.commits[i].task].event)
    && (forall t :: 0 <= t < |s.tasks| && (s.tasks[t].phase.GotNext? || s.tasks[t].phase.Orphaned?) ==>
          0 <= s.tasks[t].phase.next <= |s.table|)
  }

  lemma RowWritten(sl: Sealing, s: State, t: nat, row: AuditRecord, c: Commit, p: Phase, s': State)
    requires RowsInv(sl, s) && t < |s.tasks| && row.sequence == |s.table| && !p.GotNext? && !p.Orphaned?
    requires c.task == t && c.event == s.tasks[t].event && Holds(row, c.event, c.id, c.at) && Hashed(sl, row)
    requires s'.tasks == s.tasks[t := s.tasks[t].(phase := p)]
    requires s'.table == s.table[|s.table| := row] && s'.commits == s.commits + [c]
    ensures RowsInv(sl, s')
  {
    hide Holds, Hashed;
    InsertNext(s.table, row);
  }

  lemma QuietRows(s: State, t: nat, p: Phase, sl: Sealing, s': State)
    requires RowsInv(sl, s) && t < |s.tasks| && Moves(s.table, s.tasks[t].phase, p)
    requires s'.table == s.table && s'.commits == s.commits && s'.tasks == s.tasks[t := s.tasks[t].(phase := p)]
    ensures RowsInv(sl, s')
  {
    hide LastHash, Rows, Dense, Holds, Hashed;
    ReadsOfDenseTable(s.table);
  }

  /** A step that writes a row. */
  lemma WritingStep(sl: Sealing, s: State, a: Action)
    requires Step(sl, s, a).commits != s.commits
    ensures (a.Insert? || a.LateInsert?) && a.task < |s.tasks|
    ensures s.tasks[a.task].phase.GotNext? || s.tasks[a.task].phase.Orphaned?
    ensures var s', q, e := Step(sl, s, a), s.tasks[a.task].phase, s.tasks[a.task].event;
      && q.next !in s.table && a.task < |s'.tasks| && s'.tasks[a.task].phase in {Inserted(RowOf(sl, s, a)), Failed}
      && s'.tasks == s.tasks[a.task := s.tasks[a.task].(phase := s'.tasks[a.task].phase)]
      && s'.table == s.table[q.next := RowOf(sl, s, a)]
      && s'.commits == s.commits + [Commit(a.task, e, a.id, a.at)]
  {
    hide LastHash, NextSequence, Seal;
  }

  lemma StepKeepsRows(sl: Sealing, s: State, a: Action)
    requires RowsInv(sl, s)
    ensures RowsInv(sl, Step(sl, s, a))
    ensures EventsOf(Step(sl, s, a)) == EventsOf(s) + if a.Submit? then [a.event] else []
  {
    var s' := Step(sl, s, a);
    if a.Submit? {
      hide Holds, Hashed, Dense;
    } else if s'.commits != s.commits {
      WritingStep(sl, s, a);
      hide Step, Rows;
      assert s.tasks[a.task].phase.next == |s.table|;
      RowWritten(sl, s, a.task, RowOf(sl, s, a), s'.commits[|s.commits|], s'.tasks[a.task].phase, s');
    } else if s' != s {
      QuietStep(sl, s, a);
      MoveShape(sl, s, a);
      hide Step, RowsInv, Moves;
      QuietRows(s, a.task, s'.tasks[a.task].phase, sl, s');
    }
  }

  lemma {:induction false} RunKeepsRows(sl: Sealing, s: State, actions: seq<Action>)
    requires RowsInv(sl, s)
    ensures RowsInv(sl, Run(sl, s, actions))
    ensures EventsOf(Run(sl, s, actions)) == EventsOf(s) + Submissions(actions)
    decreases |actions|
  {
    hide RowsInv, Step, EventsOf;
    if actions != [] {
      StepKeepsRows(sl, s, actions[0]);
      RunKeepsRows(sl, Step(sl, s, actions[0]), actions[1..]);
    }
  }

  lemma NoEvents()
    ensures EventsOf(INITIAL) == []
  {
  }

  /** One row for each commit, in that order and numbered from 0 on. Row i holds the id, time, alert, transaction,
      event and event text of commit i, whose event is the one its task was submitted with, and its hash is that
      of its own six fields. */
  ghost predicate Records(sl: Sealing, log: seq<AuditRecord>, commits: seq<Commit>, submitted: seq<NewAuditEvent>) {
    && |log| == |commits| && Sequenced(log)
    && forall i :: 0 <= i < |log| ==>
        && Holds(log[i], commits[i].event, commits[i].id, commits[i].at) && Hashed(sl, log[i])
        && commits[i].task < |submitted| && commits[i].event == submitted[commits[i].task]
  }

  lemma RowsAreLog(t: Table)
    requires Dense(t)
    ensures var log := Ascending(t);
      |log| == |t| && Sequenced(log) && forall i :: 0 <= i < |log| ==> i in t && log[i] == t[i]
  {
    AscendingRows(t);
    hide Ascending;
  }

  lemma LogOfRows(sl: Sealing, s: State, log: seq<AuditRecord>)
    requires RowsInv(sl, s) && log == Ascending(s.table)
    ensures Records(sl, log, s.commits, EventsOf(s))
  {
    RowsAreLog(s.table);
    hide Holds, Hashed, Dense, Ascending, Sequenced;
  }

  /** In every run at all, orderly or not, the log is what was committed. */
  lemma EveryRowHoldsItsEvent(sl: Sealing, actions: seq<Action>)
    ensures var s := Run(sl, INITIAL, actions); Records(sl, Ascending(s.table), s.commits, Submissions(actions))
  {
    RunKeepsRows(sl, INITIAL, actions);
    var s := Run(sl, INITIAL, actions);
    assert EventsOf(s) == Submissions(actions) by {
      assert EventsOf(INITIAL) == [];
      hide Run, Submissions;
    }
    hide *;
    LogOfRows(sl, s, Ascending(s.table));
  }

  // ---------- When a late insert is harmless ----------

  lemma LateStep(sl: Sealing, s: State, a: Action, u: nat)
    requires Inv(sl, s) && TakesEffect(s, a) && u < |s.tasks| && s.tasks[u].phase.GotHash?
    ensures var s' := Step(sl, s, a); var row := RowOf(sl, s, a);
      && Dense(s'.table) && Rows(s'.table) == Rows(s.table) + [row]
      && u < |s'.tasks| && s'.tasks[u] == s.tasks[u] && s.tasks[u].phase.prev == Head(Rows(s.table))
  {
    var q := s.tasks[a.task].phase;
    assert Current(s.table, q.prev, q.next) && q.next == |s.table|;
    hide Replay, Head, Rows;
    InsertNext(s.table, RowOf(sl, s, a));
  }

  lemma MisfitBreaks(sl: Sealing, rows: seq<AuditRecord>, bad: AuditRecord)
    requires bad.prevHash != Head(rows)
    ensures !ChainOk(sl, rows + [bad])
  {
    assert !Linked(sl, rows + [bad], |rows|);
  }

  /** A holder that goes on from a last hash read too early appends a row that does not fit. */
  lemma StaleHolder(sl: Sealing, s: State, u: nat, id: Uuid, at: Instant)
    requires Dense(s.table) && u < |s.tasks| && s.tasks[u].phase.GotHash?
    requires s.tasks[u].phase.prev != Head(Rows(s.table))
    ensures !ChainOk(sl, Ascending(Run(sl, s, [ReadNext(u), Insert(u, id, at)]).table))
    ensures OrderlyRun(sl, s, [ReadNext(u), Insert(u, id, at)])
  {
    hide LastHash, NextSequence, Dense;
    var prev, rows := s.tasks[u].phase.prev, Rows(s.table);
    ReadsOfDenseTable(s.table);
    var s2 := Step(sl, s, ReadNext(u));
    assert s2 == SetPhase(s, u, GotNext(prev, |rows|));
    var bad := Seal(sl, s.tasks[u].event, id, at, |rows|, prev);
    InsertNext(s.table, bad);
    var s3 := Step(sl, s2, Insert(u, id, at));
    assert s3.table == s.table[|rows| := bad];
    AscendingRows(s3.table);
    MisfitBreaks(sl, rows, bad);
    hide Step, Rows, Ascending;
    var insert := [Insert(u, id, at)];
    assert [ReadNext(u), Insert(u, id, at)][1..] == insert && insert[1..] == [];
    assert Run(sl, s, [ReadNext(u), Insert(u, id, at)]) == Run(sl, s2, insert) == Run(sl, s3, []);
    assert OrderlyRun(sl, s2, insert) by { assert OrderlyRun(sl, s3, []); }
  }

  lemma LateRowSeals(sl: Sealing, s: State, a: Action)
    requires Inv(sl, s) && TakesEffect(s, a)
    ensures ChainOk(sl, Rows(s.table) + [RowOf(sl, s, a)])
  {
    var q, e := s.tasks[a.task].phase, s.tasks[a.task].event;
    assert Current(s.table, q.prev, q.next) && q.next == |s.table|;
    ReplayKeepsChain(sl, s.commits);
    hide Replay, Rows;
    assert RowOf(sl, s, a) == NextRecord(sl, Rows(s.table), e, a.id, a.at);
    AppendKeepsChain(sl, Rows(s.table), e, a.id, a.at);
  }

  /** A late insert is survived, whatever the tasks do next, exactly when no task is between its two reads
      at that moment, unless the log exhibits a broken hash. */
  lemma LateInsertSurvivedIff(sl: Sealing, s: State, a: Action)
    requires Injective(sl) && Inv(sl, s) && TakesEffect(s, a)
    ensures var row, rows := RowOf(sl, s, a), Rows(s.table);
      || ((forall more :: OrderlyRun(sl, Step(sl, s, a), more) ==>
           ChainOk(sl, Ascending(Run(sl, Step(sl, s, a), more).table)))
          <==> forall u :: 0 <= u < |s.tasks| ==> !s.tasks[u].phase.GotHash?)
      || Breaks(sl, ExtractForgery(sl, rows + [row], rows))
  {
    var row, rows := RowOf(sl, s, a), Rows(s.table);
    var s' := Step(sl, s, a);
    if u :| 0 <= u < |s.tasks| && s.tasks[u].phase.GotHash? {
      if Head(rows) != row.hash {
        LateStep(sl, s, a, u);
        StaleHolder(sl, s', u, a.id, a.at);
      } else {
        LateRowSeals(sl, s, a);
        assert (rows + [row])[..|rows|] == rows && Head(rows + [row]) == row.hash;
        TruncationMovesHead(sl, rows + [row], |rows|);
      }
    } else {
      forall more | OrderlyRun(sl, s', more) ensures ChainOk(sl, Ascending(Run(sl, s', more).table)) {
        StepKeepsInv(sl, s, a);
        RunKeepsInv(sl, s', more);
        SnapshotVerifies(sl, Run(sl, s', more));
      }
    }
  }
}
