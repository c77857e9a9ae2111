// The ingestion loop as a machine: poll, process, persist the cursor, repeat, under crashes, restarts and
// failed writes; and when no record is ever skipped.
module IngestionMachine {
  import opened Basics
  import opened Transactions
  import opened TxHistory

  /** `feed` holds the records the source will ever list, in order; a cursor is the number of records
      before it. `base` is where this deployment begins: the stored cursor when `resumed`, otherwise where
      its first poll starts. `initial` is the transactions table it finds. */
  datatype Setup = Setup(feed: seq<Transaction>, base: nat, resumed: bool, initial: Rows)

  predicate ValidSetup(u: Setup) { u.base <= |u.feed| }

  datatype Work = Process(index: nat) | Bury(index: nat)

  /** A failure on its way to the dead-letter writer, which may fail too. */
  datatype Failed = Failed(error: string, letterFails: bool)

  datatype Letter = Letter(work: Work, error: string)

  datatype Phase = Down | Idle | Busy(queue: seq<Work>, next: Option<nat>)

  /** A transaction that was saved: a record of the feed, or one that was handed in. */
  datatype Write = FromFeed(index: nat) | HandedIn(tx: Transaction)

  /** The last five are history variables: records processed or handed to the dead-letter writer, in order;
      those among them whose letter could not be written; one past the highest record saved since the base;
      whether this deployment has polled before; and what was saved, feed records when saved first. */
  datatype State = State(
    stored: Option<nat>, cursor: Option<nat>, phase: Phase, saved: bool, table: Rows, letters: seq<Letter>,
    handled: seq<nat>, lost: seq<nat>, high: nat, begun: bool, writes: seq<Write>)

  datatype Action =
    | Boot(lost: bool)                         // read the stored cursor; `lost` when that read fails
    | Poll(seed: nat, normalised: seq<bool>)   // `seed`: where it starts without a cursor; one flag per listed record
    | PollFails
    | Save(failure: Option<Failed>)            // first step of processing a transaction
    | Finish(failure: Option<Failed>)          // the rest of it
    | BuryHead(fetch: Failed)                  // a fetch failure goes to the dead-letter writer
    | StoreCursor(fails: bool)
    | HandIn(tx: Transaction, fails: bool)     // an administrator's transaction is saved by the same function
    | Crash

  function Start(u: Setup): State {
    State(if u.resumed then Some(u.base) else None, None, Down, false, u.initial, [], [], [], u.base, u.resumed, [])
  }

  function Normals(start: nat, flags: seq<bool>): seq<Work>
    decreases |flags|
  {
    if flags == [] then [] else (if flags[0] then [Process(start)] else []) + Normals(start + 1, flags[1..])
  }

  function Failures(start: nat, flags: seq<bool>): seq<Work>
    decreases |flags|
  {
    if flags == [] then [] else (if flags[0] then [] else [Bury(start)]) + Failures(start + 1, flags[1..])
  }

  /** The listed records, as many as the feed holds from `start` on. */
  function Listing(u: Setup, start: nat, flags: seq<bool>): seq<bool> {
    if start <= |u.feed| then flags[..Min(|flags|, |u.feed| - start)] else []
  }

  function Polled(u: Setup, s: State, seed: nat, flags: seq<bool>): State {
    var start := s.cursor.GetOr(seed);
    var listing := Listing(u, start, flags);
    s.(phase := Busy(Normals(start, listing) + Failures(start, listing),
                     if listing == [] then s.cursor else Some(start + |listing|)),
       saved := false, begun := true)
  }

  /** The head of the queue is done with, perhaps by way of the dead-letter writer. */
  function Pop(s: State, failure: Option<Failed>): State
    requires s.phase.Busy? && s.phase.queue != []
  {
    var w := s.phase.queue[0];
    s.(phase := Busy(s.phase.queue[1..], s.phase.next), saved := false, handled := s.handled + [w.index],
       letters := if failure.None? || failure.value.letterFails then s.letters
                  else s.letters + [Letter(w, failure.value.error)],
       lost := if failure.Some? && failure.value.letterFails then s.lost + [w.index] else s.lost)
  }

  function Step(u: Setup, s: State, a: Action): State {
    match a
    case Boot(lost) =>
      if s.phase.Down? then s.(phase := Idle, saved := false, cursor := if lost then None else s.stored) else s
    case Poll(seed, flags) => if s.phase.Idle? then Polled(u, s, seed, flags) else s
    case PollFails => s
    case Save(failure) =>
      if s.phase.Busy? && s.phase.queue != [] && s.phase.queue[0].Process? && !s.saved
          && s.phase.queue[0].index < |u.feed| then
        var i := s.phase.queue[0].index;
        if failure.Some? then Pop(s, failure)
        else s.(table := SaveRow(s.table, u.feed[i]), saved := true, high := Max(s.high, i + 1),
                writes := if FromFeed(i) in s.writes then s.writes else s.writes + [FromFeed(i)])
      else s
    case Finish(failure) =>
      if s.phase.Busy? && s.phase.queue != [] && s.phase.queue[0].Process? && s.saved then Pop(s, failure) else s
    case BuryHead(fetch) =>
      if s.phase.Busy? && s.phase.queue != [] && s.phase.queue[0].Bury? then Pop(s, Some(fetch)) else s
    case StoreCursor(fails) =>
      if s.phase.Busy? && s.phase.queue == [] then
        match s.phase.next
        case None => s.(phase := Idle)
        case Some(c) => s.(phase := Idle, cursor := Some(c), stored := if fails then s.stored else Some(c))
      else s
    case HandIn(tx, fails) =>
      if s.phase.Down? || fails then s else s.(table := SaveRow(s.table, tx), writes := s.writes + [HandedIn(tx)])
    case Crash => s.(phase := Down, cursor := None, saved := false)
  }

  function Run(u: Setup, s: State, actions: seq<Action>): State
    decreases |actions|
  {
    if actions == [] then s else Run(u, Step(u, s, actions[0]), actions[1..])
  }

  /** Every step of the run meets a condition on the state it is taken in. */
  predicate Always(u: Setup, ok: (State, Action) -> bool, s: State, actions: seq<Action>)
    decreases |actions|
  {
    actions == [] || (ok(s, actions[0]) && Always(u, ok, Step(u, s, actions[0]), actions[1..]))
  }

  /** A poll that starts without a cursor. */
  predicate Cursorless(s: State, a: Action) { a.Poll? && s.phase.Idle? && s.cursor.None? }

  lemma {:induction false} RunConcat(u: Setup, s: State, xs: seq<Action>, ys: seq<Action>)
    ensures Run(u, s, xs + ys) == Run(u, Run(u, s, xs), ys)
    decreases |xs|
  {
    hide Step;
    if xs == [] {
      assert xs + ys == ys;
    } else {
      assert (xs + ys)[1..] == xs[1..] + ys;
      RunConcat(u, Step(u, s, xs[0]), xs[1..], ys);
    }
  }

  lemma RunCons(u: Setup, s: State, a: Action, rest: seq<Action>)
    ensures Run(u, s, [a] + rest) == Run(u, Step(u, s, a), rest) && Run(u, s, []) == s
  {
    hide Step;
    assert ([a] + rest)[1..] == rest;
  }

  lemma RunOne(u: Setup, s: State, a: Action)
    ensures Run(u, s, [a]) == Step(u, s, a)
  {
    hide Step;
    RunCons(u, s, a, []);
    assert [a] + [] == [a];
  }

  lemma AlwaysCons(u: Setup, ok: (State, Action) -> bool, s: State, a: Action, rest: seq<Action>)
    ensures Always(u, ok, s, [a] + rest) <==> ok(s, a) && Always(u, ok, Step(u, s, a), rest)
    ensures Always(u, ok, s, [])
  {
    hide Step;
    assert ([a] + rest)[1..] == rest;
  }

  // ---------- At least once ----------

  ghost predicate Queued(queue: seq<Work>, i: nat) { exists k :: 0 <= k < |queue| && queue[k].index == i }

  /** Every record from the base up to the cursor has been handled, or waits in the queue. */
  ghost predicate Reached(u: Setup, s: State, queue: seq<Work>, c: Option<nat>) {
    c.Some? ==> c.value <= |u.feed| && forall i :: u.base <= i < c.value ==> i in s.handled || Queued(queue, i)
  }

  ghost predicate SafeInv(u: Setup, s: State) {
    && Reached(u, s, [], s.stored) && Reached(u, s, [], s.cursor)
    && (s.phase.Busy? ==> Reached(u, s, s.phase.queue, s.phase.next))
  }

  /** Everything from the base up to `seed` has been handled. */
  ghost predicate Behind(u: Setup, s: State, seed: nat) { forall i :: u.base <= i < seed ==> i in s.handled }

  lemma {:induction false} ListingQueued(start: nat, flags: seq<bool>, i: nat)
    requires start <= i < start + |flags|
    ensures Queued(Normals(start, flags) + Failures(start, flags), i)
    decreases |flags|
  {
    var ns: seq<Work>, fs: seq<Work> := Normals(start, flags), Failures(start, flags);
    var q: seq<Work> := ns + fs;
    if i == start {
      assert if flags[0] then q[0].index == i else q[|ns|].index == i;
    } else {
      ListingQueued(start + 1, flags[1..], i);
      var ns': seq<Work>, fs': seq<Work> := Normals(start + 1, flags[1..]), Failures(start + 1, flags[1..]);
      var q': seq<Work> := ns' + fs';
      var k :| 0 <= k < |q'| && q'[k].index == i;
      assert if flags[0] then q[k + 1].index == i
             else if k < |ns'| then q[k].index == i else q[k + 1].index == i;
    }
  }

  lemma PollKeepsSafe(u: Setup, s: State, seed: nat, flags: seq<bool>)
    requires SafeInv(u, s) && (s.cursor.None? ==> Behind(u, s, seed))
    ensures SafeInv(u, Polled(u, s, seed, flags))
  {
    var s' := Polled(u, s, seed, flags);
    var start := s.cursor.GetOr(seed);
    var listing := Listing(u, start, flags);
    hide Normals, Failures;
    if listing != [] {
      forall i | u.base <= i < start + |listing| ensures i in s'.handled || Queued(s'.phase.queue, i) {
        if i >= start { ListingQueued(start, listing, i); }
      }
    } else if s.cursor.Some? {
      assert forall i :: !Queued([], i);
    }
  }

  lemma PopKeepsReached(u: Setup, s: State, failure: Option<Failed>, c: Option<nat>)
    requires s.phase.Busy? && s.phase.queue != [] && Reached(u, s, s.phase.queue, c)
    ensures Reached(u, Pop(s, failure), s.phase.queue[1..], c)
  {
    var s', queue := Pop(s, failure), s.phase.queue;
    if c.Some? {
      forall i | u.base <= i < c.value ensures i in s'.handled || Queued(queue[1..], i) {
        if i in s.handled {
          assert i in s'.handled;
        } else {
          var k :| 0 <= k < |queue| && queue[k].index == i;
          if k == 0 { assert s'.handled[|s.handled|] == i; } else { assert queue[1..][k - 1].index == i; }
        }
      }
    }
  }

  lemma HandledStays(u: Setup, s: State, s': State, c: Option<nat>)
    requires Reached(u, s, [], c) && s.handled <= s'.handled
    ensures Reached(u, s', [], c)
  {
  }

  lemma PopKeepsSafe(u: Setup, s: State, failure: Option<Failed>)
    requires SafeInv(u, s) && s.phase.Busy? && s.phase.queue != []
    ensures SafeInv(u, Pop(s, failure))
  {
    PopKeepsReached(u, s, failure, s.phase.next);
    HandledStays(u, s, Pop(s, failure), s.cursor);
    HandledStays(u, s, Pop(s, failure), s.stored);
  }

  lemma StepKeepsSafe(u: Setup, s: State, a: Action)
    requires SafeInv(u, s) && (Cursorless(s, a) ==> Behind(u, s, a.seed))
    ensures SafeInv(u, Step(u, s, a))
  {
    hide Pop, Polled, SaveRow;
    match a
    case Poll(seed, flags) => if s.phase.Idle? { PollKeepsSafe(u, s, seed, flags); }
    case Save(failure) => if failure.Some? && s.phase.Busy? && s.phase.queue != [] { PopKeepsSafe(u, s, failure); }
    case Finish(failure) => if s.phase.Busy? && s.phase.queue != [] { PopKeepsSafe(u, s, failure); }
    case BuryHead(fetch) => if s.phase.Busy? && s.phase.queue != [] { PopKeepsSafe(u, s, Some(fetch)); }
    case _ =>
  }

  /** Without a cursor the first poll starts at the base or before it, and every later one at `m` or before. */
  ghost function SeedsAtMost(u: Setup, m: nat): (State, Action) -> bool {
    (s: State, a: Action) => Cursorless(s, a) ==> a.seed <= if s.begun then m else u.base
  }

  lemma {:induction false} RunKeepsSafe(u: Setup, m: nat, s: State, actions: seq<Action>)
    requires SafeInv(u, s) && m <= u.base && Always(u, SeedsAtMost(u, m), s, actions)
    ensures SafeInv(u, Run(u, s, actions))
    decreases |actions|
  {
    hide SafeInv, Step;
    if actions != [] {
      StepKeepsSafe(u, s, actions[0]);
      RunKeepsSafe(u, m, Step(u, s, actions[0]), actions[1..]);
    }
  }

  /** Neither cursor has passed a record that was not processed or handed to the dead-letter writer. */
  ghost predicate Safe(u: Setup, s: State) {
    && (s.stored.Some? ==> Behind(u, s, s.stored.value))
    && (s.cursor.Some? ==> Behind(u, s, s.cursor.value))
  }

  /** No cursor skips a record under any crashes, restarts, poll errors and failed writes, as long as no poll
      without a cursor starts past the base. A mock source without a cursor starts at 0, so it always
      complies; Horizon starts at its newest page, so it complies while a cursor is stored and can be read. */
  lemma NoRecordIsSkipped(u: Setup, actions: seq<Action>)
    requires ValidSetup(u) && Always(u, SeedsAtMost(u, u.base), Start(u), actions)
    ensures Safe(u, Run(u, Start(u), actions))
  {
    RunKeepsSafe(u, u.base, Start(u), actions);
    assert forall i :: !Queued([], i);
  }

  // ---------- Where handled records end up ----------

  ghost predicate HasLetter(letters: seq<Letter>, i: nat) {
    exists k :: 0 <= k < |letters| && letters[k].work.index == i
  }

  /** The record is in the table, or in a dead letter, or its letter could not be written. */
  ghost predicate Accounted(u: Setup, s: State, i: nat) {
    i < |u.feed| && (u.feed[i].txId in s.table || HasLetter(s.letters, i) || i in s.lost)
  }

  ghost predicate AccountInv(u: Setup, s: State) {
    && (forall i :: i in s.handled ==> Accounted(u, s, i))
    && (s.phase.Busy? ==> forall k :: 0 <= k < |s.phase.queue| ==> s.phase.queue[k].index < |u.feed|)
    && (s.saved ==> s.phase.Busy? && s.phase.queue != [] && u.feed[s.phase.queue[0].index].txId in s.table)
  }

  lemma {:induction false} QueueIndices(start: nat, flags: seq<bool>)
    ensures forall k :: 0 <= k < |Normals(start, flags)| ==> start <= Normals(start, flags)[k].index < start + |flags|
    ensures forall k :: 0 <= k < |Failures(start, flags)| ==> start <= Failures(start, flags)[k].index < start + |flags|
    decreases |flags|
  {
    if flags != [] { QueueIndices(start + 1, flags[1..]); }
  }

  lemma PollKeepsAccount(u: Setup, s: State, seed: nat, flags: seq<bool>)
    requires AccountInv(u, s)
    ensures AccountInv(u, Polled(u, s, seed, flags))
  {
    var start := s.cursor.GetOr(seed);
    QueueIndices(start, Listing(u, start, flags));
    hide Normals, Failures;
    var s' := Polled(u, s, seed, flags);
    forall i | i in s'.handled ensures Accounted(u, s', i) { assert Accounted(u, s, i); }
  }

  lemma PopKeepsAccount(u: Setup, s: State, failure: Option<Failed>)
    requires AccountInv(u, s) && s.phase.Busy? && s.phase.queue != [] && (failure.None? ==> s.saved)
    ensures AccountInv(u, Pop(s, failure))
  {
    var s' := Pop(s, failure);
    var w := s.phase.queue[0];
    forall i | i in s'.handled ensures Accounted(u, s', i) {
      if i in s.handled {
        assert Accounted(u, s, i);
        if HasLetter(s.letters, i) {
          var k :| 0 <= k < |s.letters| && s.letters[k].work.index == i;
          assert s'.letters[k] == s.letters[k];
        }
      } else if failure.Some? && !failure.value.letterFails {
        assert s'.letters[|s.letters|].work == w;
      } else if failure.Some? {
        assert s'.lost[|s.lost|] == i;
      }
    }
  }

  lemma SaveKeepsAccount(u: Setup, s: State)
    requires AccountInv(u, s)
    ensures AccountInv(u, Step(u, s, Save(None)))
  {
    var s' := Step(u, s, Save(None));
    forall i | i in s'.handled ensures Accounted(u, s', i) { assert Accounted(u, s, i); }
  }

  lemma HandInKeepsAccount(u: Setup, s: State, a: Action)
    requires AccountInv(u, s) && a.HandIn?
    ensures AccountInv(u, Step(u, s, a))
  {
    var s' := Step(u, s, a);
    forall i | i in s'.handled ensures Accounted(u, s', i) { assert Accounted(u, s, i); }
  }

  lemma StepKeepsAccount(u: Setup, s: State, a: Action)
    requires AccountInv(u, s)
    ensures AccountInv(u, Step(u, s, a))
  {
    hide Pop, Polled, SaveRow;
    match a
    case Poll(seed, flags) => if s.phase.Idle? { PollKeepsAccount(u, s, seed, flags); }
    case Save(failure) =>
      if failure.None? { SaveKeepsAccount(u, s); }
      else if s.phase.Busy? && s.phase.queue != [] { PopKeepsAccount(u, s, failure); }
    case Finish(failure) => if s.phase.Busy? && s.phase.queue != [] && s.saved { PopKeepsAccount(u, s, failure); }
    case BuryHead(fetch) => if s.phase.Busy? && s.phase.queue != [] { PopKeepsAccount(u, s, Some(fetch)); }
    case HandIn(tx, _) => HandInKeepsAccount(u, s, a);
    case _ => assert forall i :: i in s.handled && Accounted(u, s, i) ==> Accounted(u, Step(u, s, a), i);
  }

  lemma {:induction false} RunKeepsAccount(u: Setup, s: State, actions: seq<Action>)
    requires AccountInv(u, s)
    ensures AccountInv(u, Run(u, s, actions))
    decreases |actions|
  {
    hide AccountInv, Step;
    if actions != [] {
      StepKeepsAccount(u, s, actions[0]);
      RunKeepsAccount(u, Step(u, s, actions[0]), actions[1..]);
    }
  }

  /** In any run at all, a handled record is in the table, in a dead letter, or its dead letter could not be
      written: nothing vanishes without a failed write of both. */
  lemma HandledIsAccountedFor(u: Setup, actions: seq<Action>, i: nat)
    requires i in Run(u, Start(u), actions).handled
    ensures Accounted(u, Run(u, Start(u), actions), i)
  {
    RunKeepsAccount(u, Start(u), actions);
  }

  // ---------- When records are skipped ----------

  lemma RunOfFour(u: Setup, s: State, a: Action, b: Action, c: Action, d: Action)
    ensures Run(u, s, [a, b, c, d]) == Step(u, Step(u, Step(u, Step(u, s, a), b), c), d)
  {
    hide Step, Run;
    var s1 := Step(u, s, a);
    var s2 := Step(u, s1, b);
    RunCons(u, s, a, [b, c, d]);
    RunCons(u, s1, b, [c, d]);
    RunCons(u, s2, c, [d]);
    RunOne(u, Step(u, s2, c), d);
    assert [a] + [b, c, d] == [a, b, c, d];
    assert [b] + [c, d] == [b, c, d];
    assert [c] + [d] == [c, d];
  }

  lemma OneRecordPolled(u: Setup, s: State, m: nat)
    requires s.phase.Idle? && s.cursor.None? && m < |u.feed|
    ensures Step(u, s, Poll(m, [true])) == s.(phase := Busy([Process(m)], Some(m + 1)), saved := false, begun := true)
  {
    assert Listing(u, m, [true]) == [true];
    assert [true][1..] == [];
    assert Normals(m, [true]) == [Process(m)] && Failures(m, [true]) == [];
  }

  lemma OneRecordProcessed(u: Setup, s: State, m: nat)
    requires m < |u.feed| && s.phase == Busy([Process(m)], Some(m + 1)) && !s.saved
    ensures var s' := Step(u, Step(u, Step(u, s, Save(None)), Finish(None)), StoreCursor(false));
      s'.stored == s'.cursor == Some(m + 1) && s'.handled == s.handled + [m]
  {
    hide SaveRow;
    var s1 := Step(u, s, Save(None));
    assert s1.phase == s.phase && s1.saved && s1.handled == s.handled;
    var s2 := Step(u, s1, Finish(None));
    assert s2.phase == Busy([], Some(m + 1)) && s2.handled == s.handled + [m];
  }

  /** One record polled without a cursor, processed, and its successor stored as the cursor. */
  lemma OneRecordBatch(u: Setup, s: State, m: nat)
    requires s.phase.Idle? && s.cursor.None? && m < |u.feed|
    ensures var s' := Run(u, s, [Poll(m, [true]), Save(None), Finish(None), StoreCursor(false)]);
      s'.stored == s'.cursor == Some(m + 1) && s'.handled == s.handled + [m]
  {
    hide Step, Run;
    OneRecordPolled(u, s, m);
    OneRecordProcessed(u, Step(u, s, Poll(m, [true])), m);
    RunOfFour(u, s, Poll(m, [true]), Save(None), Finish(None), StoreCursor(false));
  }

  /** A stored cursor that cannot be read at a restart: the source starts past the base and its records are
      skipped. */
  lemma LostCursorSkips(u: Setup, m: nat)
    requires ValidSetup(u) && u.resumed && u.base < m < |u.feed|
    ensures var s := Run(u, Start(u), [Boot(true)] + [Poll(m, [true]), Save(None), Finish(None), StoreCursor(false)]);
      s.stored == Some(m + 1) && u.base !in s.handled
  {
    RunCons(u, Start(u), Boot(true), [Poll(m, [true]), Save(None), Finish(None), StoreCursor(false)]);
    OneRecordBatch(u, Step(u, Start(u), Boot(true)), m);
  }

  /** A deployment that has polled its first record and was restarted before the cursor was stored. */
  lemma RestartedUnstored(u: Setup)
    requires ValidSetup(u) && !u.resumed
    ensures var s := Run(u, Start(u), [Boot(false), Poll(u.base, [true]), Crash, Boot(false)]);
      s == Start(u).(phase := Idle, begun := true)
    ensures Always(u, SeedsAtMost(u, u.base), Start(u), [Boot(false), Poll(u.base, [true]), Crash, Boot(false)])
  {
    var s1 := Start(u).(phase := Idle);
    var s2 := Polled(u, s1, u.base, [true]);
    var s3 := Start(u).(begun := true);
    assert Step(u, Start(u), Boot(false)) == s1;
    assert Step(u, s1, Poll(u.base, [true])) == s2;
    assert Step(u, s2, Crash) == s3 by { hide Normals, Failures, Listing; }
    assert Step(u, s3, Boot(false)) == s3.(phase := Idle);
    hide Step, Run, Polled, Always;
    var ok := SeedsAtMost(u, u.base);
    RunCons(u, Start(u), Boot(false), [Poll(u.base, [true]), Crash, Boot(false)]);
    RunCons(u, s1, Poll(u.base, [true]), [Crash, Boot(false)]);
    RunCons(u, s2, Crash, [Boot(false)]);
    RunOne(u, s3, Boot(false));
    AlwaysCons(u, ok, Start(u), Boot(false), [Poll(u.base, [true]), Crash, Boot(false)]);
    AlwaysCons(u, ok, s1, Poll(u.base, [true]), [Crash, Boot(false)]);
    AlwaysCons(u, ok, s2, Crash, [Boot(false)]);
    AlwaysCons(u, ok, s3, Boot(false), []);
    assert [Boot(false)] + [Poll(u.base, [true]), Crash, Boot(false)]
        == [Boot(false), Poll(u.base, [true]), Crash, Boot(false)];
    assert [Poll(u.base, [true])] + [Crash, Boot(false)] == [Poll(u.base, [true]), Crash, Boot(false)];
    assert [Crash] + [Boot(false)] == [Crash, Boot(false)];
    assert [Boot(false)] + [] == [Boot(false)];
  }

  /** Until its first cursor is stored, a crash makes a fresh deployment start anew further on, although no
      read fails: what it had polled before is skipped. */
  lemma UnstoredCursorSkips(u: Setup, m: nat)
    requires ValidSetup(u) && !u.resumed && u.base < m < |u.feed|
    ensures var s := Run(u, Start(u), [Boot(false), Poll(u.base, [true]), Crash, Boot(false)]
                                      + [Poll(m, [true]), Save(None), Finish(None), StoreCursor(false)]);
      s.stored == Some(m + 1) && u.base !in s.handled
  {
    RestartedUnstored(u);
    RunConcat(u, Start(u), [Boot(false), Poll(u.base, [true]), Crash, Boot(false)],
              [Poll(m, [true]), Save(None), Finish(None), StoreCursor(false)]);
    OneRecordBatch(u, Start(u).(phase := Idle, begun := true), m);
  }

  lemma {:induction false} AlwaysConcat(u: Setup, ok: (State, Action) -> bool, s: State, xs: seq<Action>,
                                        ys: seq<Action>)
    ensures Always(u, ok, s, xs + ys) <==> Always(u, ok, s, xs) && Always(u, ok, Run(u, s, xs), ys)
    decreases |xs|
  {
    hide Step;
    if xs == [] {
      assert xs + ys == ys;
    } else {
      assert (xs + ys)[1..] == xs[1..] + ys;
      AlwaysConcat(u, ok, Step(u, s, xs[0]), xs[1..], ys);
    }
  }

  lemma {:induction false} WiderSeeds(u: Setup, m: nat, n: nat, s: State, actions: seq<Action>)
    requires m <= n && Always(u, SeedsAtMost(u, m), s, actions)
    ensures Always(u, SeedsAtMost(u, n), s, actions)
    decreases |actions|
  {
    hide Step;
    if actions != [] { WiderSeeds(u, m, n, Step(u, s, actions[0]), actions[1..]); }
  }

  /** A batch polled at `x` meets the bound `m` in a state that has polled before. */
  lemma LaterBatchMeets(u: Setup, s: State, m: nat, x: nat)
    requires s.begun && x <= m
    ensures Always(u, SeedsAtMost(u, m), s, [Poll(x, [true]), Save(None), Finish(None), StoreCursor(false)])
  {
    hide Step;
    var ok := SeedsAtMost(u, m);
    var s1 := Step(u, s, Poll(x, [true]));
    var s2 := Step(u, s1, Save(None));
    AlwaysCons(u, ok, s, Poll(x, [true]), [Save(None), Finish(None), StoreCursor(false)]);
    AlwaysCons(u, ok, s1, Save(None), [Finish(None), StoreCursor(false)]);
    AlwaysCons(u, ok, s2, Finish(None), [StoreCursor(false)]);
    AlwaysCons(u, ok, Step(u, s2, Finish(None)), StoreCursor(false), []);
    assert [Poll(x, [true])] + [Save(None), Finish(None), StoreCursor(false)]
        == [Poll(x, [true]), Save(None), Finish(None), StoreCursor(false)];
    assert [Save(None)] + [Finish(None), StoreCursor(false)] == [Save(None), Finish(None), StoreCursor(false)];
    assert [Finish(None)] + [StoreCursor(false)] == [Finish(None), StoreCursor(false)];
    assert [StoreCursor(false)] + [] == [StoreCursor(false)];
  }

  /** A run with later seeds at most `m` that skips the record at the base. */
  lemma SkippingRun(u: Setup, m: nat) returns (actions: seq<Action>)
    requires ValidSetup(u) && u.base + 1 < |u.feed| && u.base < m
    ensures Always(u, SeedsAtMost(u, m), Start(u), actions) && !Safe(u, Run(u, Start(u), actions))
  {
    var x := u.base + 1;
    var last := [Poll(x, [true]), Save(None), Finish(None), StoreCursor(false)];
    var first := if u.resumed then [Boot(true)] else [Boot(false), Poll(u.base, [true]), Crash, Boot(false)];
    if u.resumed {
      LostCursorSkips(u, x);
      RunOne(u, Start(u), Boot(true));
      AlwaysCons(u, SeedsAtMost(u, m), Start(u), Boot(true), []);
      assert [Boot(true)] + [] == [Boot(true)];
    } else {
      UnstoredCursorSkips(u, x);
      RestartedUnstored(u);
      WiderSeeds(u, u.base, m, Start(u), first);
    }
    hide Run;
    AlwaysConcat(u, SeedsAtMost(u, m), Start(u), first, last);
    LaterBatchMeets(u, Run(u, Start(u), first), m, x);
    actions := first + last;
  }

  /** How late may a source start when it is polled again without a cursor? Every run is safe exactly when
      that is no later than the base. */
  lemma SafeExactlyBehindBase(u: Setup, m: nat)
    requires ValidSetup(u) && u.base + 1 < |u.feed|
    ensures (forall actions :: Always(u, SeedsAtMost(u, m), Start(u), actions) ==> Safe(u, Run(u, Start(u), actions)))
      <==> m <= u.base
  {
    hide Safe;
    if m <= u.base {
      forall actions | Always(u, SeedsAtMost(u, m), Start(u), actions) ensures Safe(u, Run(u, Start(u), actions)) {
        WiderSeeds(u, m, u.base, Start(u), actions);
        NoRecordIsSkipped(u, actions);
      }
    } else {
      var actions := SkippingRun(u, m);
    }
  }
}
