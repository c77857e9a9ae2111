// Replays after crashes leave no trace in the transactions table.
module IngestionTable {
  import opened Basics
  import opened Transactions
  import opened TxHistory
  import opened IngestionMachine

  function SaveAll(rows: Rows, txs: seq<Transaction>): Rows {
    if txs == [] then rows else SaveRow(SaveAll(rows, txs[..|txs| - 1]), txs[|txs| - 1])
  }

  /** The records from `lo` to `hi - 1` that can be fetched and normalised. */
  function Readable(feed: seq<Transaction>, normal: seq<bool>, lo: nat, hi: nat): seq<Transaction>
    requires |normal| == |feed| && hi <= |feed|
  {
    if lo >= hi then [] else Readable(feed, normal, lo, hi - 1) + if normal[hi - 1] then [feed[hi - 1]] else []
  }

  /** A record that is read again although it lies before the base is one that an earlier deployment saved. */
  ghost predicate SavedBefore(u: Setup, normal: seq<bool>, from: nat)
    requires |normal| == |u.feed| && ValidSetup(u)
  {
    forall i :: from <= i < u.base && normal[i] ==> u.feed[i].txId in u.initial
  }

  ghost predicate Agrees(normal: seq<bool>, start: nat, listing: seq<bool>) {
    start + |listing| <= |normal| && forall k :: 0 <= k < |listing| ==> listing[k] == normal[start + k]
  }

  /** Saves succeed, and `normal` says which records can be fetched and normalised, at every poll the same.
      A poll without a cursor starts at the base, or before it where earlier deployments have been. */
  ghost predicate SavesSucceed(u: Setup, normal: seq<bool>, s: State, a: Action)
    requires |normal| == |u.feed| && ValidSetup(u)
  {
    && (a.Save? ==> a.failure.None?)
    && (a.Poll? && s.phase.Idle? ==>
          var start := s.cursor.GetOr(a.seed);
          Listing(u, start, a.normalised) != [] ==> Agrees(normal, start, Listing(u, start, a.normalised)))
    && (Cursorless(s, a) ==> a.seed <= u.base && SavedBefore(u, normal, a.seed))
  }

  ghost predicate SavingRun(u: Setup, normal: seq<bool>, s: State, actions: seq<Action>)
    requires |normal| == |u.feed| && ValidSetup(u)
    decreases |actions|
  {
    actions == []
        || (SavesSucceed(u, normal, s, actions[0]) && SavingRun(u, normal, Step(u, s, actions[0]), actions[1..]))
  }

  function HandedInIds(writes: seq<Write>): set<TxId> {
    set k | 0 <= k < |writes| && writes[k].HandedIn? :: writes[k].tx.txId
  }

  /** The two tables differ at most in the given ids. */
  predicate Alike(a: Rows, b: Rows, except: set<TxId>) {
    && (forall id :: id in a && id !in except ==> id in b && b[id] == a[id])
    && (forall id :: id in b && id !in except ==> id in a)
  }

  // ---------- The invariant ----------

  /** Every readable record between the base and the cursor has been saved, or waits in the queue. */
  ghost predicate Covers(u: Setup, normal: seq<bool>, s: State, queue: seq<Work>, c: Option<nat>)
    requires |normal| == |u.feed| && ValidSetup(u)
  {
    c.Some? ==>
      && c.value <= |u.feed| && SavedBefore(u, normal, c.value)
      && forall i :: u.base <= i < c.value && normal[i] ==> i < s.high || Process(i) in queue
  }

  /** A record to be processed can be read, and all readable ones before it have been or will be saved first. */
  ghost predicate InTurn(u: Setup, normal: seq<bool>, s: State, queue: seq<Work>, k: nat)
    requires |normal| == |u.feed| && ValidSetup(u) && k < |queue|
  {
    queue[k].Process? ==>
      var i := queue[k].index;
      && i < |u.feed| && normal[i] && (i < u.base ==> u.feed[i].txId in u.initial)
      && forall j :: u.base <= j < i && normal[j] ==> j < s.high || Process(j) in queue[..k]
  }

  ghost predicate TableInv(u: Setup, normal: seq<bool>, s: State)
    requires |normal| == |u.feed| && ValidSetup(u)
  {
    && u.base <= s.high <= |u.feed|
    && Alike(s.table, SaveAll(u.initial, Readable(u.feed, normal, u.base, s.high)), HandedInIds(s.writes))
    && HandedInIds(s.writes) <= s.table.Keys
    && Covers(u, normal, s, [], s.stored) && Covers(u, normal, s, [], s.cursor)
    && (s.phase.Busy? ==> Covers(u, normal, s, s.phase.queue, s.phase.next))
    && (s.phase.Busy? ==> forall k :: 0 <= k < |s.phase.queue| ==> InTurn(u, normal, s, s.phase.queue, k))
    && (s.saved ==> s.phase.Busy? && s.phase.queue != [] && s.phase.queue[0].index < s.high)
  }

  // ---------- Saving ----------

  lemma {:induction false} SavedIdsStay(rows: Rows, txs: seq<Transaction>, id: TxId)
    requires id in rows || exists i :: 0 <= i < |txs| && txs[i].txId == id
    ensures id in SaveAll(rows, txs)
  {
    if txs != [] {
      var n := |txs| - 1;
      if txs[n].txId != id {
        if id !in rows {
          var i :| 0 <= i < |txs| && txs[i].txId == id;
          assert txs[..n][i].txId == id;
        }
        SavedIdsStay(rows, txs[..n], id);
      }
    }
  }

  lemma {:induction false} ReadableHas(feed: seq<Transaction>, normal: seq<bool>, lo: nat, hi: nat, i: nat)
    requires |normal| == |feed| && lo <= i < hi <= |feed| && normal[i]
    ensures exists k :: 0 <= k < |Readable(feed, normal, lo, hi)| && Readable(feed, normal, lo, hi)[k] == feed[i]
    decreases hi
  {
    var before := Readable(feed, normal, lo, hi - 1);
    if i == hi - 1 {
      assert Readable(feed, normal, lo, hi)[|before|] == feed[i];
    } else {
      ReadableHas(feed, normal, lo, hi - 1, i);
      var k :| 0 <= k < |before| && before[k] == feed[i];
      assert Readable(feed, normal, lo, hi)[k] == feed[i];
    }
  }

  lemma {:induction false} NothingReadable(feed: seq<Transaction>, normal: seq<bool>, lo: nat, mid: nat, hi: nat)
    requires |normal| == |feed| && lo <= mid <= hi <= |feed| && forall i :: mid <= i < hi ==> !normal[i]
    ensures Readable(feed, normal, lo, hi) == Readable(feed, normal, lo, mid)
    decreases hi
  {
    if mid < hi { NothingReadable(feed, normal, lo, mid, hi - 1); }
  }

  lemma SaveAllSnoc(rows: Rows, txs: seq<Transaction>, tx: Transaction)
    ensures SaveAll(rows, txs + [tx]) == SaveRow(SaveAll(rows, txs), tx)
  {
    hide SaveRow;
    assert (txs + [tx])[..|txs|] == txs;
  }

  /** Saving a record again changes nothing; saving the next readable one extends the table by it. */
  lemma SaveStep(u: Setup, normal: seq<bool>, high: nat, i: nat)
    requires |normal| == |u.feed| && u.base <= high <= |u.feed| && i < |u.feed| && normal[i]
    requires i < u.base ==> u.feed[i].txId in u.initial
    requires forall j :: high <= j < i ==> !normal[j]
    ensures SaveRow(SaveAll(u.initial, Readable(u.feed, normal, u.base, high)), u.feed[i])
      == SaveAll(u.initial, Readable(u.feed, normal, u.base, Max(high, i + 1)))
  {
    var txs := Readable(u.feed, normal, u.base, high);
    if i < high {
      if i >= u.base { ReadableHas(u.feed, normal, u.base, high, i); }
      SavedIdsStay(u.initial, txs, u.feed[i].txId);
    } else {
      NothingReadable(u.feed, normal, u.base, high, i);
      assert Readable(u.feed, normal, u.base, i + 1) == txs + [u.feed[i]];
      hide Readable, SaveRow;
      SaveAllSnoc(u.initial, txs, u.feed[i]);
    }
  }

  // ---------- Every step keeps the invariant ----------

  lemma {:induction false} NormalAt(start: nat, listing: seq<bool>, k: nat)
    requires k < |Normals(start, listing)|
    ensures var i := Normals(start, listing)[k].index;
      Normals(start, listing)[k] == Process(i) && start <= i < start + |listing| && listing[i - start]
    decreases |listing|
  {
    var rest := Normals(start + 1, listing[1..]);
    if listing[0] {
      if k > 0 { NormalAt(start + 1, listing[1..], k - 1); }
    } else {
      assert Normals(start, listing) == rest;
      NormalAt(start + 1, listing[1..], k);
    }
  }

  lemma {:induction false} NormalListed(start: nat, listing: seq<bool>, j: nat)
    requires start <= j < start + |listing| && listing[j - start]
    ensures Process(j) in Normals(start, listing)
    decreases |listing|
  {
    if j > start { NormalListed(start + 1, listing[1..], j); }
  }

  /** The queue of a poll lists the readable records in feed order. */
  lemma {:induction false} NormalBefore(start: nat, listing: seq<bool>, k: nat, j: nat)
    requires k < |Normals(start, listing)| && start <= j < Normals(start, listing)[k].index
    requires j < start + |listing| && listing[j - start]
    ensures Process(j) in Normals(start, listing)[..k]
    decreases |listing|
  {
    var rest, all := Normals(start + 1, listing[1..]), Normals(start, listing);
    if listing[0] {
      assert all == [Process(start)] + rest;
      assert k > 0 && all[..k] == [Process(start)] + rest[..k - 1];
      if j > start { NormalBefore(start + 1, listing[1..], k - 1, j); }
    } else {
      assert all == rest;
      NormalBefore(start + 1, listing[1..], k, j);
    }
  }

  lemma {:induction false} FailuresAreBuried(start: nat, listing: seq<bool>)
    ensures forall k :: 0 <= k < |Failures(start, listing)| ==> Failures(start, listing)[k].Bury?
    decreases |listing|
  {
    if listing != [] { FailuresAreBuried(start + 1, listing[1..]); }
  }

  lemma QueueInTurn(u: Setup, normal: seq<bool>, s: State, start: nat, listing: seq<bool>, k: nat)
    requires |normal| == |u.feed| && ValidSetup(u) && Agrees(normal, start, listing) && SavedBefore(u, normal, start)
    requires forall i :: u.base <= i < start && normal[i] ==> i < s.high
    requires k < |Normals(start, listing) + Failures(start, listing)|
    ensures InTurn(u, normal, s, Normals(start, listing) + Failures(start, listing), k)
  {
    FailuresAreBuried(start, listing);
    hide Normals, Failures;
    var ns := Normals(start, listing);
    var queue: seq<Work> := ns + Failures(start, listing);
    if queue[k].Process? {
      assert k < |ns| && queue[k] == ns[k] && queue[..k] == ns[..k];
      var i := queue[k].index;
      NormalAt(start, listing, k);
      assert normal[i] by { assert listing[i - start] == normal[start + (i - start)]; }
      forall j | u.base <= j < i && normal[j] ensures j < s.high || Process(j) in queue[..k] {
        if j >= start {
          assert listing[j - start] == normal[start + (j - start)];
          NormalBefore(start, listing, k, j);
        }
      }
    }
  }

  lemma PollKeepsTable(u: Setup, normal: seq<bool>, s: State, seed: nat, flags: seq<bool>)
    requires |normal| == |u.feed| && ValidSetup(u)
    requires TableInv(u, normal, s) && s.phase.Idle? && SavesSucceed(u, normal, s, Poll(seed, flags))
    ensures TableInv(u, normal, Polled(u, s, seed, flags))
  {
    hide SaveAll, Readable;
    var s' := Polled(u, s, seed, flags);
    var start := s.cursor.GetOr(seed);
    var listing := Listing(u, start, flags);
    var queue := s'.phase.queue;
    if listing != [] {
      hide Normals, Failures;
      forall k | 0 <= k < |queue| ensures InTurn(u, normal, s', queue, k) {
        QueueInTurn(u, normal, s', start, listing, k);
      }
      forall i | u.base <= i < start + |listing| && normal[i] ensures i < s'.high || Process(i) in queue {
        if i >= start {
          assert listing[i - start] == normal[start + (i - start)];
          NormalListed(start, listing, i);
        }
      }
    }
  }

  lemma PopKeepsTable(u: Setup, normal: seq<bool>, s: State, failure: Option<Failed>)
    requires |normal| == |u.feed| && ValidSetup(u) && TableInv(u, normal, s) && s.phase.Busy? && s.phase.queue != []
    requires s.phase.queue[0].Process? ==> s.saved
    ensures TableInv(u, normal, Pop(s, failure))
  {
    hide SaveAll, Readable, SavedBefore;
    var s', queue := Pop(s, failure), s.phase.queue;
    var rest := queue[1..];
    forall k | 0 <= k < |rest| ensures InTurn(u, normal, s', rest, k) {
      assert InTurn(u, normal, s, queue, k + 1);
      assert queue[..k + 1] == [queue[0]] + rest[..k];
    }
    assert queue == [queue[0]] + rest;
  }

  lemma SavingKeepsAlike(a: Rows, b: Rows, except: set<TxId>, tx: Transaction)
    requires Alike(a, b, except)
    ensures Alike(SaveRow(a, tx), SaveRow(b, tx), except) && Alike(SaveRow(a, tx), b, except + {tx.txId})
  {
  }

  lemma HandedInSnoc(writes: seq<Write>, w: Write)
    ensures HandedInIds(writes + [w]) == HandedInIds(writes) + if w.HandedIn? then {w.tx.txId} else {}
  {
    var more := writes + [w];
    forall id ensures id in HandedInIds(more) <==> id in HandedInIds(writes) + if w.HandedIn? then {w.tx.txId} else {} {
      if id in HandedInIds(writes) {
        var k :| 0 <= k < |writes| && writes[k].HandedIn? && writes[k].tx.txId == id;
        assert more[k].HandedIn? && more[k].tx.txId == id;
      }
      if w.HandedIn? { assert more[|writes|].tx.txId == w.tx.txId; }
    }
  }

  lemma SavedKeysStay(rows: Rows, tx: Transaction)
    ensures rows.Keys <= SaveRow(rows, tx).Keys && tx.txId in SaveRow(rows, tx)
  {
  }

  lemma SaveKeepsTable(u: Setup, normal: seq<bool>, s: State)
    requires |normal| == |u.feed| && ValidSetup(u) && TableInv(u, normal, s)
    ensures TableInv(u, normal, Step(u, s, Save(None)))
  {
    hide SaveAll, Readable, SavedBefore, SaveRow, HandedInIds, Alike;
    var s' := Step(u, s, Save(None));
    if s' != s {
      var queue := s.phase.queue;
      var i := queue[0].index;
      assert InTurn(u, normal, s, queue, 0);
      assert forall j :: s.high <= j < i ==> !normal[j] by {
        forall j | s.high <= j < i ensures !normal[j] { assert queue[..0] == []; }
      }
      SaveStep(u, normal, s.high, i);
      SavingKeepsAlike(s.table, SaveAll(u.initial, Readable(u.feed, normal, u.base, s.high)), HandedInIds(s.writes),
                       u.feed[i]);
      HandedInSnoc(s.writes, FromFeed(i));
      assert HandedInIds(s'.writes) == HandedInIds(s.writes);
      assert s.table.Keys <= s'.table.Keys by { SavedKeysStay(s.table, u.feed[i]); }
      forall k | 0 <= k < |queue| ensures InTurn(u, normal, s', queue, k) { assert InTurn(u, normal, s, queue, k); }
    }
  }

  lemma SameTurn(u: Setup, normal: seq<bool>, s: State, s': State, queue: seq<Work>, k: nat)
    requires |normal| == |u.feed| && ValidSetup(u) && k < |queue| && s'.high == s.high
    requires InTurn(u, normal, s, queue, k)
    ensures InTurn(u, normal, s', queue, k)
  {
  }

  lemma HandInKeepsTable(u: Setup, normal: seq<bool>, s: State, tx: Transaction, fails: bool)
    requires |normal| == |u.feed| && ValidSetup(u) && TableInv(u, normal, s)
    ensures TableInv(u, normal, Step(u, s, HandIn(tx, fails)))
  {
    hide SaveAll, Readable, SavedBefore, SaveRow, HandedInIds, Alike, InTurn;
    var s' := Step(u, s, HandIn(tx, fails));
    if s' != s {
      SavingKeepsAlike(s.table, SaveAll(u.initial, Readable(u.feed, normal, u.base, s.high)), HandedInIds(s.writes),
                       tx);
      HandedInSnoc(s.writes, HandedIn(tx));
      SavedKeysStay(s.table, tx);
      if s.phase.Busy? {
        forall k | 0 <= k < |s.phase.queue| ensures InTurn(u, normal, s', s.phase.queue, k) {
          assert InTurn(u, normal, s, s.phase.queue, k);
          SameTurn(u, normal, s, s', s.phase.queue, k);
        }
      }
    }
  }

  lemma StepKeepsTable(u: Setup, normal: seq<bool>, s: State, a: Action)
    requires |normal| == |u.feed| && ValidSetup(u) && TableInv(u, normal, s) && SavesSucceed(u, normal, s, a)
    ensures TableInv(u, normal, Step(u, s, a))
  {
    hide SaveAll, Readable, SavedBefore, Polled, Pop, InTurn;
    match a
    case Poll(seed, flags) => if s.phase.Idle? { PollKeepsTable(u, normal, s, seed, flags); }
    case Save(_) => SaveKeepsTable(u, normal, s);
    case HandIn(tx, fails) => HandInKeepsTable(u, normal, s, tx, fails);
    case Finish(failure) => if s.phase.Busy? && s.phase.queue != [] && s.saved { PopKeepsTable(u, normal, s, failure); }
    case BuryHead(fetch) =>
      if s.phase.Busy? && s.phase.queue != [] && s.phase.queue[0].Bury? { PopKeepsTable(u, normal, s, Some(fetch)); }
    case _ =>
  }

  lemma {:induction false} RunKeepsTable(u: Setup, normal: seq<bool>, s: State, actions: seq<Action>)
    requires |normal| == |u.feed| && ValidSetup(u) && TableInv(u, normal, s) && SavingRun(u, normal, s, actions)
    ensures TableInv(u, normal, Run(u, s, actions))
    decreases |actions|
  {
    hide TableInv, SavesSucceed, Step;
    if actions != [] {
      StepKeepsTable(u, normal, s, actions[0]);
      RunKeepsTable(u, normal, Step(u, s, actions[0]), actions[1..]);
    }
  }

  /** If all saves of the loop succeed, then however often it crashed, restarted and replayed, and whatever
      else failed, the table is the one found at the start plus the readable records from the base to the
      highest one reached, saved once each and in order, but for ids that were also handed in; and it holds
      every readable record either cursor has passed. */
  lemma TableIsCrashFree(u: Setup, normal: seq<bool>, actions: seq<Action>)
    requires |normal| == |u.feed| && ValidSetup(u) && SavingRun(u, normal, Start(u), actions)
    ensures var s := Run(u, Start(u), actions);
      && u.base <= s.high <= |u.feed|
      && var expected := SaveAll(u.initial, Readable(u.feed, normal, u.base, s.high));
      && Alike(s.table, expected, HandedInIds(s.writes))
      && (HandedInIds(s.writes) == {} ==> s.table == expected)
      && (s.stored.Some? ==>
            && s.stored.value <= |u.feed|
            && forall i :: u.base <= i < s.stored.value && normal[i] ==> i < s.high && u.feed[i].txId in s.table)
      && (s.cursor.Some? ==>
            && s.cursor.value <= |u.feed|
            && forall i :: u.base <= i < s.cursor.value && normal[i] ==> i < s.high && u.feed[i].txId in s.table)
  {
    assert HandedInIds([]) == {};
    RunKeepsTable(u, normal, Start(u), actions);
    var s := Run(u, Start(u), actions);
    hide Run, SavingRun;
    forall i | u.base <= i < s.high && normal[i] ensures u.feed[i].txId in s.table {
      ReadableHas(u.feed, normal, u.base, s.high, i);
      SavedIdsStay(u.initial, Readable(u.feed, normal, u.base, s.high), u.feed[i].txId);
    }
  }

  // ---------- Whatever the fetches and saves come to ----------

  predicate OfFeed(feed: seq<Transaction>, w: Write) { w.FromFeed? ==> w.index < |feed| }

  function SavedBy(feed: seq<Transaction>, w: Write): Transaction
    requires OfFeed(feed, w)
  {
    if w.FromFeed? then feed[w.index] else w.tx
  }

  /** The transactions saved, in order. */
  function Written(feed: seq<Transaction>, writes: seq<Write>): (txs: seq<Transaction>)
    requires forall k :: 0 <= k < |writes| ==> OfFeed(feed, writes[k])
    ensures |txs| == |writes|
  {
    seq(|writes|, k requires 0 <= k < |writes| => SavedBy(feed, writes[k]))
  }

  ghost predicate WritesInv(u: Setup, s: State) {
    && (forall k :: 0 <= k < |s.writes| ==> OfFeed(u.feed, s.writes[k]))
    && (forall j, k :: 0 <= j < k < |s.writes| && s.writes[j].FromFeed? ==> s.writes[j] != s.writes[k])
    && s.table == SaveAll(u.initial, Written(u.feed, s.writes))
  }

  lemma WriteKeeps(u: Setup, s: State, w: Write, s': State)
    requires WritesInv(u, s) && OfFeed(u.feed, w) && (w.HandedIn? || w !in s.writes)
    requires s'.writes == s.writes + [w] && s'.table == SaveRow(s.table, SavedBy(u.feed, w))
    ensures WritesInv(u, s')
  {
    hide SaveAll, SaveRow;
    SaveAllSnoc(u.initial, Written(u.feed, s.writes), SavedBy(u.feed, w));
    assert Written(u.feed, s'.writes) == Written(u.feed, s.writes) + [SavedBy(u.feed, w)];
  }

  /** Saving a record once more changes nothing. */
  lemma SavedAgain(u: Setup, s: State, i: nat)
    requires WritesInv(u, s) && i < |u.feed| && FromFeed(i) in s.writes
    ensures SaveRow(s.table, u.feed[i]) == s.table
  {
    var k :| 0 <= k < |s.writes| && s.writes[k] == FromFeed(i);
    assert Written(u.feed, s.writes)[k] == u.feed[i];
    SavedIdsStay(u.initial, Written(u.feed, s.writes), u.feed[i].txId);
  }

  lemma StepKeepsWrites(u: Setup, s: State, a: Action)
    requires WritesInv(u, s)
    ensures WritesInv(u, Step(u, s, a))
  {
    hide SaveAll, SaveRow, Written;
    var s' := Step(u, s, a);
    if a.HandIn? && s' != s {
      WriteKeeps(u, s, HandedIn(a.tx), s');
    } else if a.Save? && s' != s && a.failure.None? {
      var i := s.phase.queue[0].index;
      if FromFeed(i) in s.writes { SavedAgain(u, s, i); } else { WriteKeeps(u, s, FromFeed(i), s'); }
    }
  }

  lemma {:induction false} RunKeepsWrites(u: Setup, s: State, actions: seq<Action>)
    requires WritesInv(u, s)
    ensures WritesInv(u, Run(u, s, actions))
    decreases |actions|
  {
    hide WritesInv, Step;
    if actions != [] {
      StepKeepsWrites(u, s, actions[0]);
      RunKeepsWrites(u, Step(u, s, actions[0]), actions[1..]);
    }
  }

  /** Transactions with one id are one transaction, as the hash that Horizon uses for the id makes them. */
  ghost predicate Consistent(txs: seq<Transaction>) {
    forall i, j :: 0 <= i < |txs| && 0 <= j < |txs| && txs[i].txId == txs[j].txId ==> txs[i] == txs[j]
  }

  lemma {:induction false} Lookup(rows: Rows, txs: seq<Transaction>, id: TxId)
    ensures id in SaveAll(rows, txs) <==> id in rows || exists k :: 0 <= k < |txs| && txs[k].txId == id
    ensures id in rows ==> SaveAll(rows, txs)[id] == rows[id]
    ensures id in SaveAll(rows, txs) && id !in rows ==>
      exists k :: 0 <= k < |txs| && txs[k].txId == id && SaveAll(rows, txs)[id] == txs[k]
  {
    if txs != [] {
      var n := |txs| - 1;
      Lookup(rows, txs[..n], id);
      assert forall k :: 0 <= k < n ==> txs[..n][k] == txs[k];
    }
  }

  /** For consistent transactions only the set of what is saved matters, not order or repetition. */
  lemma OnlyTheSetMatters(rows: Rows, xs: seq<Transaction>, ys: seq<Transaction>)
    requires Consistent(xs) && forall x :: x in xs <==> x in ys
    ensures SaveAll(rows, xs) == SaveAll(rows, ys)
  {
    var a, b := SaveAll(rows, xs), SaveAll(rows, ys);
    forall id ensures id in a <==> id in b {
      Lookup(rows, xs, id);
      Lookup(rows, ys, id);
      if k :| 0 <= k < |xs| && xs[k].txId == id { assert xs[k] in ys; }
      if k :| 0 <= k < |ys| && ys[k].txId == id { assert ys[k] in xs; }
    }
    forall id | id in a ensures a[id] == b[id] {
      Lookup(rows, xs, id);
      Lookup(rows, ys, id);
      if id !in rows {
        var j :| 0 <= j < |xs| && xs[j].txId == id && a[id] == xs[j];
        var k :| 0 <= k < |ys| && ys[k].txId == id && b[id] == ys[k];
        assert ys[k] in xs;
      }
    }
  }

  /** The records of the feed that some save has put into the table. */
  function SavedOnes(feed: seq<Transaction>, writes: seq<Write>): seq<bool> {
    seq(|feed|, i requires 0 <= i < |feed| => FromFeed(i) in writes)
  }

  function HandedInOnes(writes: seq<Write>): seq<Transaction> {
    if writes == [] then []
    else HandedInOnes(writes[..|writes| - 1]) + if writes[|writes| - 1].HandedIn? then [writes[|writes| - 1].tx] else []
  }

  lemma {:induction false} HandedInHas(writes: seq<Write>, x: Transaction)
    ensures x in HandedInOnes(writes) <==> HandedIn(x) in writes
  {
    if writes != [] {
      var n := |writes| - 1;
      HandedInHas(writes[..n], x);
      assert writes == writes[..n] + [writes[n]];
    }
  }

  lemma {:induction false} ReadableIs(feed: seq<Transaction>, normal: seq<bool>, hi: nat, x: Transaction)
    requires |normal| == |feed| && hi <= |feed|
    ensures x in Readable(feed, normal, 0, hi) <==> exists i :: 0 <= i < hi && normal[i] && feed[i] == x
    decreases hi
  {
    if hi > 0 { ReadableIs(feed, normal, hi - 1, x); }
  }

  lemma SameElements(feed: seq<Transaction>, writes: seq<Write>, x: Transaction)
    requires forall k :: 0 <= k < |writes| ==> OfFeed(feed, writes[k])
    ensures x in Written(feed, writes)
      <==> x in Readable(feed, SavedOnes(feed, writes), 0, |feed|) + HandedInOnes(writes)
  {
    ReadableIs(feed, SavedOnes(feed, writes), |feed|, x);
    HandedInHas(writes, x);
    if x in Written(feed, writes) {
      var k :| 0 <= k < |writes| && Written(feed, writes)[k] == x;
      if writes[k].FromFeed? {
        assert SavedOnes(feed, writes)[writes[k].index];
      } else {
        assert writes[k] == HandedIn(x);
      }
    }
    if HandedIn(x) in writes {
      var k :| 0 <= k < |writes| && writes[k] == HandedIn(x);
      assert Written(feed, writes)[k] == x;
    }
    if i :| 0 <= i < |feed| && SavedOnes(feed, writes)[i] && feed[i] == x {
      var k :| 0 <= k < |writes| && writes[k] == FromFeed(i);
      assert Written(feed, writes)[k] == x;
    }
  }

  /** In any run at all, whatever each fetch and each save comes to: the table is the one found at the start
      plus what was saved, each record of the feed once however often it was replayed. When ids are
      consistent, order does not matter either: it is the table of saving, in feed order and without any
      replay, the records that were ever saved, and what was handed in. */
  lemma ReplaysLeaveNoTrace(u: Setup, actions: seq<Action>)
    ensures var s := Run(u, Start(u), actions);
      && WritesInv(u, s)
      && (Consistent(Written(u.feed, s.writes)) ==>
            s.table == SaveAll(u.initial,
                               Readable(u.feed, SavedOnes(u.feed, s.writes), 0, |u.feed|) + HandedInOnes(s.writes)))
  {
    RunKeepsWrites(u, Start(u), actions);
    var s := Run(u, Start(u), actions);
    hide Run;
    if Consistent(Written(u.feed, s.writes)) {
      forall x { SameElements(u.feed, s.writes, x); }
      hide Written, Readable, HandedInOnes, SavedOnes;
      OnlyTheSetMatters(u.initial, Written(u.feed, s.writes),
                        Readable(u.feed, SavedOnes(u.feed, s.writes), 0, |u.feed|) + HandedInOnes(s.writes));
    }
  }

  // ---------- The first write wins for good ----------

  /** Every row is still there, as it was. */
  predicate Keeps(before: Rows, after: Rows) { forall id :: id in before ==> id in after && after[id] == before[id] }

  lemma PopLeavesRows(s: State, failure: Option<Failed>)
    requires s.phase.Busy? && s.phase.queue != []
    ensures Pop(s, failure).table == s.table
  {
  }

  lemma PollLeavesRows(u: Setup, s: State, seed: nat, flags: seq<bool>)
    ensures Polled(u, s, seed, flags).table == s.table
  {
    hide Normals, Failures, Listing;
  }

  lemma StepKeepsRows(u: Setup, s: State, a: Action)
    ensures Keeps(s.table, Step(u, s, a).table)
  {
    hide Pop, Polled;
    assert forall failure :: s.phase.Busy? && s.phase.queue != [] ==> Pop(s, failure).table == s.table by {
      forall failure | s.phase.Busy? && s.phase.queue != [] { PopLeavesRows(s, failure); }
    }
    if a.Poll? { PollLeavesRows(u, s, a.seed, a.normalised); }
  }

  /** Whatever the loop does afterwards, replays and restarts included, no row is changed or removed. */
  lemma {:induction false} RowsStay(u: Setup, s: State, actions: seq<Action>)
    ensures Keeps(s.table, Run(u, s, actions).table)
    decreases |actions|
  {
    hide Step;
    if actions != [] {
      StepKeepsRows(u, s, actions[0]);
      RowsStay(u, Step(u, s, actions[0]), actions[1..]);
    }
  }

  /** A transaction that was handed in is in the table from then on, unless its id was taken already. */
  lemma HandedInStays(u: Setup, s: State, tx: Transaction, actions: seq<Action>)
    requires !s.phase.Down?
    ensures var table := Run(u, Step(u, s, HandIn(tx, false)), actions).table;
      tx.txId in table && (tx.txId !in s.table ==> table[tx.txId] == tx)
  {
    RowsStay(u, Step(u, s, HandIn(tx, false)), actions);
  }
}
