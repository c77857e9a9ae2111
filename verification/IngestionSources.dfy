// The two sources and the batch loop are what the ingestion machine says they are.
module IngestionSources {
  import opened Basics
  import opened Text
  import opened Transactions
  import opened TxHistory
  import opened Sources
  import opened Ingestion
  import opened IngestionMachine
  import opened IngestionOnce

  // ---------- A poll of either source is a poll of the machine ----------

  /** A cursor as the source writes it; `token` is the text of a position. */
  function CursorText(token: nat -> string, c: Option<nat>): Option<string> {
    match c
    case None => None
    case Some(p) => Some(token(p))
  }

  predicate Within(feed: seq<Transaction>, queue: seq<Work>) {
    forall k :: 0 <= k < |queue| ==> queue[k].index < |feed|
  }

  /** The records that the queue entries stand for. */
  function Contents(feed: seq<Transaction>, queue: seq<Work>): seq<Transaction>
    requires Within(feed, queue)
  {
    seq(|queue|, k requires 0 <= k < |queue| => feed[queue[k].index])
  }

  lemma EmptyListing(start: nat)
    ensures Normals(start, []) == [] && Failures(start, []) == []
  {
  }

  lemma {:induction false} ListingSnoc(start: nat, flags: seq<bool>, flag: bool)
    ensures Normals(start, flags + [flag]) == Normals(start, flags) + (if flag then [Process(start + |flags|)] else [])
    ensures Failures(start, flags + [flag]) == Failures(start, flags) + (if flag then [] else [Bury(start + |flags|)])
    decreases |flags|
  {
    hide Normals, Failures;
    var more := flags + [flag];
    ListingUnfolds(start, more);
    if flags == [] {
      assert more[1..] == [];
      EmptyListing(start);
      EmptyListing(start + 1);
    } else {
      assert more[1..] == flags[1..] + [flag];
      ListingUnfolds(start, flags);
      ListingSnoc(start + 1, flags[1..], flag);
      var first, last := [Process(start)], [Process(start + |flags|)];
      assert (first + Normals(start + 1, flags[1..])) + last == first + (Normals(start + 1, flags[1..]) + last);
      var one, end := [Bury(start)], [Bury(start + |flags|)];
      assert (one + Failures(start + 1, flags[1..])) + end == one + (Failures(start + 1, flags[1..]) + end);
    }
  }

  lemma ContentsSnoc(feed: seq<Transaction>, queue: seq<Work>, w: Work)
    requires Within(feed, queue) && w.index < |feed|
    ensures Within(feed, queue + [w]) && Contents(feed, queue + [w]) == Contents(feed, queue) + [feed[w.index]]
  {
  }

  lemma {:induction false} FullListing(feed: seq<Transaction>, start: nat, n: nat)
    requires start + n <= |feed|
    ensures var flags := seq(n, _ => true);
      && Failures(start, flags) == [] && Within(feed, Normals(start, flags))
      && Contents(feed, Normals(start, flags)) == feed[start..start + n]
  {
    hide Normals, Failures;
    var flags := seq(n, _ => true);
    if n == 0 {
      assert flags == [];
      EmptyListing(start);
    } else {
      var fewer := seq(n - 1, _ => true);
      FullListing(feed, start, n - 1);
      ListingSnoc(start, fewer, true);
      ContentsSnoc(feed, Normals(start, fewer), Process(start + n - 1));
      hide Contents, Within;
      assert flags == fewer + [true];
      assert feed[start..start + n] == feed[start..start + n - 1] + [feed[start + n - 1]];
    }
  }

  lemma FullPoll(u: Setup, s: State, seed: nat, n: nat)
    requires s.cursor.GetOr(seed) + n <= |u.feed|
    ensures var start := s.cursor.GetOr(seed); var s' := Polled(u, s, seed, seq(n, _ => true));
      && s'.phase.next == (if n == 0 then s.cursor else Some(start + n))
      && Within(u.feed, s'.phase.queue) && Contents(u.feed, s'.phase.queue) == u.feed[start..start + n]
  {
    hide Normals, Failures, Contents, Within;
    var start, flags := s.cursor.GetOr(seed), seq(n, _ => true);
    assert Listing(u, start, flags) == flags;
    FullListing(u.feed, start, n);
    assert Polled(u, s, seed, flags).phase.queue == Normals(start, flags);
  }

  /** A mock poll at any cursor the loop can hold is the machine's poll of one batch, with all of its records
      readable; only where the index addition overflows does it panic instead. */
  lemma MockPollIsMachinePoll(u: Setup, s: State, b: nat)
    requires s.phase.Idle? && |u.feed| < USIZE_LIMIT && (s.cursor.Some? ==> s.cursor.value <= |u.feed|)
    ensures var from := s.cursor.GetOr(0);
      var r := MockPoll(u.feed, b, CursorText(Decimal, s.cursor));
      if from < |u.feed| && from + b >= USIZE_LIMIT then r.Panicked?
      else
        var flags := seq(Min(b, |u.feed| - from), _ => true);
        var s' := Polled(u, s, 0, flags);
        && Within(u.feed, s'.phase.queue)
        && (b > 0 ==> r == Fetched(Contents(u.feed, s'.phase.queue), [], CursorText(Decimal, s'.phase.next)))
  {
    hide Decimal, Polled, Within, Contents;
    var from := s.cursor.GetOr(0);
    if from == |u.feed| || from + b < USIZE_LIMIT {
      hide MockPoll;
      PollFrom(u.feed, b, from, CursorText(Decimal, s.cursor));
      FullPoll(u, s, 0, Min(b, |u.feed| - from));
    } else {
      ParsePrintedUsize(from);
    }
  }

  /** The listed records are those of the feed from `start` on. */
  ghost predicate FromFeed(feed: seq<Transaction>, start: nat, records: seq<Listed>) {
    start + |records| <= |feed| && forall k :: 0 <= k < |records| && records[k].outcome.Normal? ==>
        records[k].outcome.tx == feed[start + k]
  }

  function Flags(records: seq<Listed>): seq<bool> { Map((l: Listed) => l.outcome.Normal?, records) }

  /** A listing by one record longer, as flags. */
  lemma FlagsSnoc(start: nat, records: seq<Listed>)
    requires records != []
    ensures var n := |records| - 1; var ok, before := records[n].outcome.Normal?, Flags(records[..n]);
      && Normals(start, Flags(records)) == Normals(start, before) + (if ok then [Process(start + n)] else [])
      && Failures(start, Flags(records)) == Failures(start, before) + (if ok then [] else [Bury(start + n)])
  {
    hide Normals, Failures;
    var n := |records| - 1;
    ListingSnoc(start, Flags(records[..n]), records[n].outcome.Normal?);
    assert Flags(records) == Flags(records[..n]) + [records[n].outcome.Normal?];
  }

  lemma SucceededSnoc(records: seq<Listed>)
    requires records != []
    ensures var last := records[|records| - 1].outcome;
      Succeeded(records) == Succeeded(records[..|records| - 1]) + if last.Normal? then [last.tx] else []
  {
  }

  lemma NoTransactions(feed: seq<Transaction>, start: nat)
    ensures Within(feed, Normals(start, Flags([]))) && Succeeded([]) == Contents(feed, Normals(start, Flags([])))
  {
    EmptyListing(start);
  }

  lemma {:induction false} BatchTransactions(feed: seq<Transaction>, start: nat, records: seq<Listed>)
    requires FromFeed(feed, start, records)
    ensures var ns := Normals(start, Flags(records)); Within(feed, ns) && Succeeded(records) == Contents(feed, ns)
  {
    hide Normals, Failures, Flags, Contents, Within, Succeeded;
    if records == [] {
      NoTransactions(feed, start);
    } else {
      var n := |records| - 1;
      BatchTransactions(feed, start, records[..n]);
      SucceededSnoc(records);
      FlagsSnoc(start, records);
      ContentsSnoc(feed, Normals(start, Flags(records[..n])), Process(start + n));
      assert records[n].outcome.Normal? ==> records[n].outcome.tx == feed[start + n];
      hide FromFeed;
      if !records[n].outcome.Normal? {
        assert Normals(start, Flags(records)) == Normals(start, Flags(records[..n]));
      }
    }
  }

  /** The failures are those of the records to bury, in order. */
  ghost predicate Buried(start: nat, records: seq<Listed>, fs: seq<Work>, failures: seq<FetchFailure>) {
    |fs| == |failures| && forall k :: 0 <= k < |fs| ==>
      fs[k].Bury? && start <= fs[k].index < start + |records| && failures[k].rawId == records[fs[k].index - start].hash
  }

  lemma BuriedSnoc(start: nat, records: seq<Listed>, fs: seq<Work>, failures: seq<FetchFailure>)
    requires records != [] && Buried(start, records[..|records| - 1], fs, failures)
    ensures Buried(start, records, fs, failures)
    ensures var n := |records| - 1;
      forall error :: Buried(start, records, fs + [Bury(start + n)], failures + [FetchFailure(records[n].hash, error)])
  {
  }

  lemma {:induction false} BatchFailures(start: nat, records: seq<Listed>)
    ensures Buried(start, records, Failures(start, Flags(records)), FailedOf(records))
  {
    hide Normals, Failures;
    if records == [] {
      EmptyListing(start);
    } else {
      var n := |records| - 1;
      BatchFailures(start, records[..n]);
      FlagsSnoc(start, records);
      BuriedSnoc(start, records, Failures(start, Flags(records[..n])), FailedOf(records[..n]));
    }
  }

  /** So is a Horizon poll of records that continue the feed from where it starts: the same queue, and the
      cursor after the last record. */
  lemma HorizonPollIsMachinePoll(u: Setup, s: State, seed: nat, records: seq<Listed>, token: nat -> string)
    requires s.phase.Idle? && FromFeed(u.feed, s.cursor.GetOr(seed), records)
    requires forall k :: 0 <= k < |records| ==> records[k].token == token(s.cursor.GetOr(seed) + k + 1)
    ensures var start := s.cursor.GetOr(seed);
      var s', r := Polled(u, s, seed, Flags(records)), BatchOf(records, CursorText(token, s.cursor));
      var ns, fs := Normals(start, Flags(records)), Failures(start, Flags(records));
      && s'.phase.queue == ns + fs && r.nextCursor == CursorText(token, s'.phase.next)
      && Within(u.feed, ns) && r.transactions == Contents(u.feed, ns)
      && Buried(start, records, fs, r.failures)
  {
    hide Buried, Succeeded, FailedOf, Normals, Failures;
    var start := s.cursor.GetOr(seed);
    BatchTransactions(u.feed, start, records);
    BatchFailures(start, records);
    assert Listing(u, start, Flags(records)) == Flags(records);
  }

  // ---------- Processing a batch is a run of the machine ----------

  function Failure(a: Attempt): Option<Failed> {
    if a.saveFails || a.restFails then Some(Failed(a.error, a.letterFails)) else None
  }

  function AttemptSteps(a: Attempt): seq<Action> {
    if a.saveFails then [Save(Failure(a))] else [Save(None), Finish(Failure(a))]
  }

  function ProcessSteps(attempts: seq<Attempt>): seq<Action> {
    if attempts == [] then [] else ProcessSteps(attempts[..|attempts| - 1]) + AttemptSteps(attempts[|attempts| - 1])
  }

  function BurySteps(failures: seq<FetchFailure>, letterFails: seq<bool>): seq<Action>
    requires |failures| == |letterFails|
  {
    if failures == [] then []
    else
      var n := |failures| - 1;
      BurySteps(failures[..n], letterFails[..n]) + [BuryHead(Failed(failures[n].error, letterFails[n]))]
  }

  /** How a letter of the machine reads in the dead-letter table. */
  datatype Rendering = Rendering(feed: seq<Transaction>, source: string, render: Transaction -> string,
                                 rawId: nat -> string) {
    function Row(l: Letter): DeadLetter {
      match l.work
      case Process(i) => DeadLetter(source, if i < |feed| then render(feed[i]) else "", l.error)
      case Bury(i) => DeadLetter(source, rawId(i), l.error)
    }

    function Table(ls: seq<Letter>): (rows: seq<DeadLetter>)
      ensures |rows| == |ls| && forall k :: 0 <= k < |ls| ==> rows[k] == Row(ls[k])
    {
      seq(|ls|, k requires 0 <= k < |ls| => Row(ls[k]))
    }
  }

  lemma AttemptRun(u: Setup, s: State, i: nat, rest: seq<Work>, next: Option<nat>, a: Attempt)
    requires i < |u.feed| && s.phase == Busy([Process(i)] + rest, next) && !s.saved
    ensures var s' := Run(u, s, AttemptSteps(a));
      && s'.phase == Busy(rest, next) && !s'.saved
      && s'.table == (if a.saveFails then s.table else SaveRow(s.table, u.feed[i]))
      && s'.handled == s.handled + [i]
      && s'.letters == s.letters
           + (if (a.saveFails || a.restFails) && !a.letterFails then [Letter(Process(i), a.error)] else [])
  {
    hide SaveRow;
    assert s.phase.queue[1..] == rest;
    if a.saveFails {
      RunOne(u, s, Save(Failure(a)));
    } else {
      var s1 := Step(u, s, Save(None));
      assert s1.phase == s.phase && s1.saved && s1.handled == s.handled && s1.letters == s.letters;
      RunCons(u, s, Save(None), [Finish(Failure(a))]);
      RunOne(u, s1, Finish(Failure(a)));
      assert [Save(None)] + [Finish(Failure(a))] == [Save(None), Finish(Failure(a))];
    }
  }

  lemma IndicesSnoc(queue: seq<Work>, w: Work)
    ensures Indices(queue + [w]) == Indices(queue) + [w.index]
  {
    IndicesConcat(queue, [w]);
    assert [w][1..] == [];
  }

  /** One more attempt, in the steps, the rows and the letters. */
  lemma AttemptSnoc(rows: Rows, d: Rendering, txs: seq<Transaction>, attempts: seq<Attempt>)
    requires txs != [] && |txs| == |attempts|
    ensures var n := |txs| - 1; var a, before := attempts[n], SavedRows(rows, txs[..n], attempts[..n]);
      && ProcessSteps(attempts) == ProcessSteps(attempts[..n]) + AttemptSteps(a)
      && SavedRows(rows, txs, attempts) == (if a.saveFails then before else SaveRow(before, txs[n]))
      && LettersFor(d.source, d.render, txs, attempts) == LettersFor(d.source, d.render, txs[..n], attempts[..n])
           + (if (a.saveFails || a.restFails) && !a.letterFails
              then [DeadLetter(d.source, d.render(txs[n]), a.error)] else [])
  {
    hide SaveRow, AttemptSteps;
  }

  lemma NoAttempts(rows: Rows, d: Rendering)
    ensures ProcessSteps([]) == [] && SavedRows(rows, [], []) == rows && LettersFor(d.source, d.render, [], []) == []
  {
  }

  lemma TableSnoc(d: Rendering, ls: seq<Letter>, more: seq<Letter>)
    ensures d.Table(ls + more) == d.Table(ls) + d.Table(more)
    ensures forall l :: d.Table([l]) == [d.Row(l)]
    ensures d.Table([]) == []
  {
  }

  lemma {:induction false} ProcessRun(u: Setup, s: State, ps: seq<Work>, rest: seq<Work>, next: Option<nat>,
                                      attempts: seq<Attempt>, d: Rendering)
    requires Within(u.feed, ps) && (forall k :: 0 <= k < |ps| ==> ps[k].Process?) && |attempts| == |ps|
    requires d.feed == u.feed
    requires s.phase == Busy(ps + rest, next) && !s.saved
    ensures var s' := Run(u, s, ProcessSteps(attempts));
      && s'.phase == Busy(rest, next) && !s'.saved
      && s'.table == SavedRows(s.table, Contents(u.feed, ps), attempts)
      && s'.handled == s.handled + Indices(ps)
      && d.Table(s'.letters) == d.Table(s.letters) + LettersFor(d.source, d.render, Contents(u.feed, ps), attempts)
    decreases |ps|
  {
    hide Run, Step, SaveRow, AttemptSteps, ProcessSteps, SavedRows, LettersFor;
    if ps == [] {
      RunCons(u, s, Crash, []);
      NoAttempts(s.table, d);
      assert ps + rest == rest;
    } else {
      var n := |ps| - 1;
      var a, txs := attempts[n], Contents(u.feed, ps);
      assert ps + rest == ps[..n] + ([ps[n]] + rest);
      ProcessRun(u, s, ps[..n], [ps[n]] + rest, next, attempts[..n], d);
      var s1 := Run(u, s, ProcessSteps(attempts[..n]));
      AttemptRun(u, s1, ps[n].index, rest, next, a);
      RunConcat(u, s, ProcessSteps(attempts[..n]), AttemptSteps(a));
      assert txs[..n] == Contents(u.feed, ps[..n]);
      AttemptSnoc(s.table, d, txs, attempts);
      IndicesSnoc(ps[..n], ps[n]);
      assert ps == ps[..n] + [ps[n]];
      hide Indices, Contents, Within;
      var more := if (a.saveFails || a.restFails) && !a.letterFails then [Letter(ps[n], a.error)] else [];
      TableSnoc(d, s1.letters, more);
    }
  }

  lemma BuryRunOne(u: Setup, s: State, i: nat, rest: seq<Work>, next: Option<nat>, f: Failed)
    requires s.phase == Busy([Bury(i)] + rest, next) && !s.saved
    ensures var s' := Run(u, s, [BuryHead(f)]);
      && s'.phase == Busy(rest, next) && !s'.saved && s'.table == s.table && s'.handled == s.handled + [i]
      && s'.letters == s.letters + (if f.letterFails then [] else [Letter(Bury(i), f.error)])
  {
    assert s.phase.queue[1..] == rest;
    RunOne(u, s, BuryHead(f));
  }

  lemma {:induction false} BuryRun(u: Setup, s: State, fs: seq<Work>, rest: seq<Work>, next: Option<nat>,
                                   failures: seq<FetchFailure>, letterFails: seq<bool>, d: Rendering)
    requires |failures| == |letterFails| == |fs|
    requires forall k :: 0 <= k < |fs| ==> fs[k].Bury? && failures[k].rawId == d.rawId(fs[k].index)
    requires s.phase == Busy(fs + rest, next) && !s.saved
    ensures var s' := Run(u, s, BurySteps(failures, letterFails));
      && s'.phase == Busy(rest, next) && !s'.saved && s'.table == s.table
      && s'.handled == s.handled + Indices(fs)
      && d.Table(s'.letters) == d.Table(s.letters) + FailureLetters(d.source, failures, letterFails)
    decreases |fs|
  {
    hide Step;
    if fs == [] {
      RunCons(u, s, Crash, []);
      assert fs + rest == rest;
    } else {
      var n := |fs| - 1;
      assert fs + rest == fs[..n] + ([fs[n]] + rest);
      BuryRun(u, s, fs[..n], [fs[n]] + rest, next, failures[..n], letterFails[..n], d);
      var s1 := Run(u, s, BurySteps(failures[..n], letterFails[..n]));
      var f := Failed(failures[n].error, letterFails[n]);
      BuryRunOne(u, s1, fs[n].index, rest, next, f);
      RunConcat(u, s, BurySteps(failures[..n], letterFails[..n]), [BuryHead(f)]);
      IndicesSnoc(fs[..n], fs[n]);
      assert fs == fs[..n] + [fs[n]];
      hide Run, Indices;
    }
  }

  lemma ConcatAssociates<T>(a: seq<T>, b: seq<T>, c: seq<T>)
    ensures (a + b) + c == a + (b + c)
  {
  }

  /** What the batch loop leaves in the two tables is what the machine leaves after running through the
      queue of one poll: the same rows, the same dead letters in the same order, and everything handled. */
  lemma BatchIsQueueRun(u: Setup, s: State, ps: seq<Work>, fs: seq<Work>, next: Option<nat>, attempts: seq<Attempt>,
                        failures: seq<FetchFailure>, letterFails: seq<bool>, d: Rendering)
    requires Within(u.feed, ps) && (forall k :: 0 <= k < |ps| ==> ps[k].Process?) && |attempts| == |ps|
    requires d.feed == u.feed
    requires |failures| == |letterFails| == |fs|
    requires forall k :: 0 <= k < |fs| ==> fs[k].Bury? && failures[k].rawId == d.rawId(fs[k].index)
    requires s.phase == Busy(ps + fs, next) && !s.saved
    ensures var s' := Run(u, s, ProcessSteps(attempts) + BurySteps(failures, letterFails));
      && s'.phase == Busy([], next)
      && s'.table == SavedRows(s.table, Contents(u.feed, ps), attempts)
      && d.Table(s'.letters) == d.Table(s.letters) + LettersFor(d.source, d.render, Contents(u.feed, ps), attempts)
                                + FailureLetters(d.source, failures, letterFails)
      && s'.handled == s.handled + Indices(ps + fs)
  {
    hide *;
    var processing, burying := ProcessSteps(attempts), BurySteps(failures, letterFails);
    ProcessRun(u, s, ps, fs, next, attempts, d);
    var s1 := Run(u, s, processing);
    assert fs + [] == fs;
    BuryRun(u, s1, fs, [], next, failures, letterFails, d);
    RunConcat(u, s, processing, burying);
    IndicesConcat(ps, fs);
    ConcatAssociates(s.handled, Indices(ps), Indices(fs));
  }

  /** What is polled fits the queue that the machine forms: the transactions and failures in order, and the
      cursor. */
  ghost predicate Fits(u: Setup, s: State, polled: PollResult, ps: seq<Work>, fs: seq<Work>, d: Rendering,
                       token: nat -> string)
  {
    && s.phase.Busy? && s.phase.queue == ps + fs && !s.saved
    && Within(u.feed, ps) && (forall k :: 0 <= k < |ps| ==> ps[k].Process?) && polled.Fetched?
    && polled.transactions == Contents(u.feed, ps) && |polled.failures| == |fs|
    && (forall k :: 0 <= k < |fs| ==> fs[k].Bury? && polled.failures[k].rawId == d.rawId(fs[k].index))
    && polled.nextCursor == CursorText(token, s.phase.next)
  }

  lemma CursorStored(u: Setup, s: State, next: Option<nat>, fails: bool, token: nat -> string)
    requires s.phase == Busy([], next)
    ensures var s', c := Run(u, s, [StoreCursor(fails)]), CursorText(token, next);
      && s'.phase.Idle? && s'.table == s.table && s'.letters == s.letters
      && CursorText(token, s'.cursor) == (if c.Some? then c else CursorText(token, s.cursor))
      && CursorText(token, s'.stored) == (if c.Some? && !fails then c else CursorText(token, s.stored))
  {
    RunOne(u, s, StoreCursor(fails));
  }

  /** Steps of processing a batch. */
  predicate Working(actions: seq<Action>) {
    forall i :: 0 <= i < |actions| ==> actions[i].Save? || actions[i].Finish? || actions[i].BuryHead?
  }

  lemma WorkingConcat(xs: seq<Action>, ys: seq<Action>)
    requires Working(xs) && Working(ys)
    ensures Working(xs + ys)
  {
  }

  lemma {:induction false} WorkingKeepsCursors(u: Setup, s: State, actions: seq<Action>)
    requires Working(actions)
    ensures Run(u, s, actions).cursor == s.cursor && Run(u, s, actions).stored == s.stored
    decreases |actions|
  {
    if actions != [] { WorkingKeepsCursors(u, Step(u, s, actions[0]), actions[1..]); }
  }

  lemma {:induction false} ProcessingWorks(attempts: seq<Attempt>)
    ensures Working(ProcessSteps(attempts))
  {
    if attempts != [] {
      var n := |attempts| - 1;
      ProcessingWorks(attempts[..n]);
      WorkingConcat(ProcessSteps(attempts[..n]), AttemptSteps(attempts[n]));
    }
  }

  lemma {:induction false} BuryingWorks(failures: seq<FetchFailure>, letterFails: seq<bool>)
    requires |failures| == |letterFails|
    ensures Working(BurySteps(failures, letterFails))
  {
    if failures != [] {
      var n := |failures| - 1;
      BuryingWorks(failures[..n], letterFails[..n]);
      WorkingConcat(BurySteps(failures[..n], letterFails[..n]),
                    [BuryHead(Failed(failures[n].error, letterFails[n]))]);
    }
  }

  /** A round of the loop on what a source answers to a poll is a run of the machine from that poll to storing the
      cursor: rows, dead letters, the loop's cursor and the stored one end up the same. */
  lemma RoundIsMachineRun(u: Setup, s: State, polled: PollResult, ps: seq<Work>, fs: seq<Work>, d: Rendering,
                          token: nat -> string, attempts: seq<Attempt>, letterFails: seq<bool>, cursorFails: bool)
    requires Fits(u, s, polled, ps, fs, d, token) && d.feed == u.feed
    requires |attempts| == |ps| && |letterFails| == |fs|
    ensures var processing := ProcessSteps(attempts) + BurySteps(polled.failures, letterFails);
      var actions := processing + [StoreCursor(cursorFails)];
      var s', c := Run(u, s, actions), polled.nextCursor;
      && s'.phase.Idle?
      && s'.table == SavedRows(s.table, polled.transactions, attempts)
      && d.Table(s'.letters) == d.Table(s.letters) + LettersFor(d.source, d.render, polled.transactions, attempts)
                                + FailureLetters(d.source, polled.failures, letterFails)
      && CursorText(token, s'.cursor) == (if c.Some? then c else CursorText(token, s.cursor))
      && CursorText(token, s'.stored) == (if c.Some? && !cursorFails then c else CursorText(token, s.stored))
  {
    hide Run, Step, Contents, Within, ProcessSteps, BurySteps, SavedRows, LettersFor, FailureLetters, CursorText;
    var next := s.phase.next;
    var processing := ProcessSteps(attempts) + BurySteps(polled.failures, letterFails);
    BatchIsQueueRun(u, s, ps, fs, next, attempts, polled.failures, letterFails, d);
    ProcessingWorks(attempts);
    BuryingWorks(polled.failures, letterFails);
    WorkingConcat(ProcessSteps(attempts), BurySteps(polled.failures, letterFails));
    WorkingKeepsCursors(u, s, processing);
    RunConcat(u, s, processing, [StoreCursor(cursorFails)]);
    CursorStored(u, Run(u, s, processing), next, cursorFails, token);
  }
}
