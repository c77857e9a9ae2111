// The ingestion loop without crashes handles every record exactly once; and one batch on its own.
module IngestionOnce {
  import opened Basics
  import opened TxHistory
  import opened IngestionMachine

  function Range(lo: nat, hi: nat): seq<nat> {
    if lo >= hi then [] else Range(lo, hi - 1) + [hi - 1]
  }

  function Indices(queue: seq<Work>): seq<nat> {
    if queue == [] then [] else [queue[0].index] + Indices(queue[1..])
  }

  lemma {:induction false} IndicesConcat(p: seq<Work>, q: seq<Work>)
    ensures Indices(p + q) == Indices(p) + Indices(q)
  {
    if p == [] {
      assert p + q == q;
    } else {
      var pq := p + q;
      assert pq[0] == p[0] && pq[1..] == p[1..] + q;
      IndicesConcat(p[1..], q);
    }
  }

  /** No crash, no lost cursor, and a fresh deployment starts at its base. */
  ghost function Steady(u: Setup): (State, Action) -> bool {
    (s: State, a: Action) => !a.Crash? && (a.Boot? ==> !a.lost) && (Cursorless(s, a) ==> a.seed == u.base)
  }

  function Position(u: Setup, c: Option<nat>): nat { c.GetOr(u.base) }

  /** Every listed record is fetched and normalised, as the mock source guarantees. */
  predicate AllNormal(a: Action) { a.Poll? ==> forall k :: 0 <= k < |a.normalised| ==> a.normalised[k] }

  /** `xs` lists each of `lo` to `hi - 1` exactly once. */
  ghost predicate Lists(xs: seq<nat>, lo: nat, hi: nat) { multiset(xs) == multiset(Range(lo, hi)) }

  /** What has been handled and what is queued make up the records from the base to the next cursor. */
  ghost predicate OnceInv(u: Setup, s: State) {
    match s.phase
    case Down => s.handled == [] && s == Start(u)
    case Idle => u.base <= Position(u, s.cursor) <= |u.feed| && Lists(s.handled, u.base, Position(u, s.cursor))
    case Busy(queue, next) =>
      && u.base <= Position(u, next) <= |u.feed| && Lists(s.handled + Indices(queue), u.base, Position(u, next))
      && (next.None? ==> s.cursor.None?)
  }

  ghost predicate OrderInv(u: Setup, s: State) {
    match s.phase
    case Down => true
    case Idle => s.handled == Range(u.base, Position(u, s.cursor))
    case Busy(queue, next) => s.handled + Indices(queue) == Range(u.base, Position(u, next))
  }

  lemma {:induction false} RangeSplit(lo: nat, mid: nat, hi: nat)
    requires lo <= mid <= hi
    ensures Range(lo, hi) == Range(lo, mid) + Range(mid, hi)
    decreases hi
  {
    if mid < hi { RangeSplit(lo, mid, hi - 1); }
  }

  lemma {:induction false} RangeFirst(lo: nat, hi: nat)
    requires lo < hi
    ensures Range(lo, hi) == [lo] + Range(lo + 1, hi)
    decreases hi
  {
    if lo < hi - 1 { RangeFirst(lo, hi - 1); }
  }

  lemma ListsConcat(xs: seq<nat>, ys: seq<nat>, lo: nat, mid: nat, hi: nat)
    requires lo <= mid <= hi && Lists(xs, lo, mid) && Lists(ys, mid, hi)
    ensures Lists(xs + ys, lo, hi)
  {
    RangeSplit(lo, mid, hi);
    hide Range;
    assert multiset(xs + ys) == multiset(xs) + multiset(ys);
    assert multiset(Range(lo, mid) + Range(mid, hi)) == multiset(Range(lo, mid)) + multiset(Range(mid, hi));
  }

  lemma ListsInsert(xs: seq<nat>, ys: seq<nat>, lo: nat, hi: nat)
    requires lo < hi && Lists(xs + ys, lo + 1, hi)
    ensures Lists(xs + ([lo] + ys), lo, hi)
  {
    RangeFirst(lo, hi);
    hide Range;
    assert multiset(xs + ([lo] + ys)) == multiset(xs + ys) + multiset{lo};
    assert multiset([lo] + Range(lo + 1, hi)) == multiset{lo} + multiset(Range(lo + 1, hi));
  }

  lemma IndicesCons(w: Work, q: seq<Work>)
    ensures Indices([w] + q) == [w.index] + Indices(q)
  {
    assert ([w] + q)[1..] == q;
  }

  lemma ListingStep(start: nat, flag: bool, ns: seq<Work>, fs: seq<Work>, hi: nat)
    requires start < hi && Lists(Indices(ns) + Indices(fs), start + 1, hi)
    ensures flag ==> Lists(Indices([Process(start)] + ns) + Indices(fs), start, hi)
    ensures !flag ==> Lists(Indices(ns) + Indices([Bury(start)] + fs), start, hi)
  {
    IndicesCons(Process(start), ns);
    IndicesCons(Bury(start), fs);
    hide Indices, Lists;
    var p, q := Indices(ns), Indices(fs);
    if flag {
      assert [] + (p + q) == p + q;
      ListsInsert([], p + q, start, hi);
      assert [] + ([start] + (p + q)) == ([start] + p) + q;
    } else {
      ListsInsert(p, q, start, hi);
    }
  }

  lemma ListingUnfolds(start: nat, flags: seq<bool>)
    ensures flags == [] ==> Lists(Indices(Normals(start, flags)) + Indices(Failures(start, flags)), start, start)
    ensures flags != [] ==>
      && Normals(start, flags)
           == (if flags[0] then [Process(start)] + Normals(start + 1, flags[1..]) else Normals(start + 1, flags[1..]))
      && Failures(start, flags)
           == (if flags[0] then Failures(start + 1, flags[1..]) else [Bury(start)] + Failures(start + 1, flags[1..]))
  {
    if flags == [] {
      assert Indices([]) == [] && Range(start, start) == [];
    } else {
      assert [] + Normals(start + 1, flags[1..]) == Normals(start + 1, flags[1..]);
      assert [] + Failures(start + 1, flags[1..]) == Failures(start + 1, flags[1..]);
    }
  }

  lemma {:induction false} ListingIndices(start: nat, flags: seq<bool>)
    ensures Lists(Indices(Normals(start, flags)) + Indices(Failures(start, flags)), start, start + |flags|)
    decreases |flags|
  {
    hide Lists, Indices, Normals, Failures;
    ListingUnfolds(start, flags);
    if flags != [] {
      ListingIndices(start + 1, flags[1..]);
      ListingStep(start, flags[0], Normals(start + 1, flags[1..]), Failures(start + 1, flags[1..]), start + |flags|);
    }
  }

  lemma {:induction false} NormalIndices(start: nat, flags: seq<bool>)
    requires forall k :: 0 <= k < |flags| ==> flags[k]
    ensures Indices(Normals(start, flags)) == Range(start, start + |flags|) && Failures(start, flags) == []
    decreases |flags|
  {
    if flags != [] {
      NormalIndices(start + 1, flags[1..]);
      RangeFirst(start, start + |flags|);
      hide Range;
      IndicesConcat([Process(start)], Normals(start + 1, flags[1..]));
    }
  }

  lemma PollKeepsOnce(u: Setup, s: State, seed: nat, flags: seq<bool>)
    requires ValidSetup(u) && OnceInv(u, s) && s.phase.Idle? && (s.cursor.None? ==> seed == u.base)
    ensures OnceInv(u, Polled(u, s, seed, flags))
  {
    hide Lists;
    var start := s.cursor.GetOr(seed);
    var listing := Listing(u, start, flags);
    ListingIndices(start, listing);
    IndicesConcat(Normals(start, listing), Failures(start, listing));
    ListsConcat(s.handled, Indices(Normals(start, listing)) + Indices(Failures(start, listing)), u.base, start,
                start + |listing|);
    hide Normals, Failures, Range, Indices;
  }

  lemma PollKeepsOrder(u: Setup, s: State, seed: nat, flags: seq<bool>)
    requires ValidSetup(u) && OnceInv(u, s) && OrderInv(u, s) && s.phase.Idle? && (s.cursor.None? ==> seed == u.base)
    requires forall k :: 0 <= k < |flags| ==> flags[k]
    ensures OrderInv(u, Polled(u, s, seed, flags))
  {
    hide Lists;
    var start := s.cursor.GetOr(seed);
    var listing := Listing(u, start, flags);
    NormalIndices(start, listing);
    RangeSplit(u.base, start, start + |listing|);
    assert Normals(start, listing) + [] == Normals(start, listing);
    hide Normals, Failures, Range, Indices;
  }

  lemma PopKeepsOnce(u: Setup, s: State, failure: Option<Failed>)
    requires s.phase.Busy? && s.phase.queue != [] && OnceInv(u, s)
    ensures OnceInv(u, Pop(s, failure)) && (OrderInv(u, s) ==> OrderInv(u, Pop(s, failure)))
  {
    hide Range, Lists;
    var queue := s.phase.queue;
    assert s.handled + Indices(queue) == (s.handled + [queue[0].index]) + Indices(queue[1..]);
  }

  lemma BootKeepsOnce(u: Setup, s: State)
    requires ValidSetup(u) && OnceInv(u, s)
    ensures OnceInv(u, Step(u, s, Boot(false))) && (OrderInv(u, s) ==> OrderInv(u, Step(u, s, Boot(false))))
  {
    assert Range(u.base, u.base) == [] && Lists([], u.base, u.base);
    hide Range, Indices, Lists;
  }

  lemma NothingLeft(handled: seq<nat>, queue: seq<Work>)
    requires queue == []
    ensures handled + Indices(queue) == handled
  {
  }

  lemma StoreKeepsOnce(u: Setup, s: State, fails: bool)
    requires OnceInv(u, s)
    ensures OnceInv(u, Step(u, s, StoreCursor(fails)))
    ensures OrderInv(u, s) ==> OrderInv(u, Step(u, s, StoreCursor(fails)))
  {
    hide Range, Indices, Lists;
    if s.phase.Busy? && s.phase.queue == [] { NothingLeft(s.handled, s.phase.queue); }
  }

  lemma SaveKeepsOnce(u: Setup, s: State, a: Action)
    requires OnceInv(u, s) && (a.PollFails? || a.HandIn? || (a.Save? && a.failure.None?))
    ensures OnceInv(u, Step(u, s, a)) && (OrderInv(u, s) ==> OrderInv(u, Step(u, s, a)))
  {
    hide Range, Indices, Lists, SaveRow;
    assert Step(u, s, a).phase == s.phase && Step(u, s, a).cursor == s.cursor;
    assert s.phase.Down? ==> Step(u, s, a) == s;
  }

  lemma StepKeepsOnce(u: Setup, s: State, a: Action)
    requires ValidSetup(u) && OnceInv(u, s) && Steady(u)(s, a)
    ensures OnceInv(u, Step(u, s, a))
    ensures OrderInv(u, s) && AllNormal(a) ==> OrderInv(u, Step(u, s, a))
  {
    match a
    case Boot(_) => BootKeepsOnce(u, s);
    case Poll(seed, flags) =>
      if s.phase.Idle? {
        PollKeepsOnce(u, s, seed, flags);
        if OrderInv(u, s) && AllNormal(a) { PollKeepsOrder(u, s, seed, flags); }
      }
    case PollFails => SaveKeepsOnce(u, s, a);
    case HandIn(_, _) => SaveKeepsOnce(u, s, a);
    case Save(failure) =>
      if failure.None? { SaveKeepsOnce(u, s, a); }
      else if s.phase.Busy? && s.phase.queue != [] { PopKeepsOnce(u, s, failure); }
    case Finish(failure) => if s.phase.Busy? && s.phase.queue != [] { PopKeepsOnce(u, s, failure); }
    case BuryHead(fetch) => if s.phase.Busy? && s.phase.queue != [] { PopKeepsOnce(u, s, Some(fetch)); }
    case StoreCursor(fails) => StoreKeepsOnce(u, s, fails);
  }

  lemma {:induction false} RunKeepsOnce(u: Setup, s: State, actions: seq<Action>)
    requires ValidSetup(u) && OnceInv(u, s) && Always(u, Steady(u), s, actions)
    ensures OnceInv(u, Run(u, s, actions))
    ensures OrderInv(u, s) && (forall k :: 0 <= k < |actions| ==> AllNormal(actions[k])) ==>
      OrderInv(u, Run(u, s, actions))
    decreases |actions|
  {
    hide OnceInv, OrderInv, Step;
    if actions != [] {
      StepKeepsOnce(u, s, actions[0]);
      RunKeepsOnce(u, Step(u, s, actions[0]), actions[1..]);
    }
  }

  /** Without crashes and lost cursors, whatever polls and other writes fail: between batches the records
      handled are exactly those from the base to the cursor, each once; and in feed order when every
      record normalises. */
  lemma SteadyRunHandlesOnce(u: Setup, actions: seq<Action>)
    requires ValidSetup(u) && Always(u, Steady(u), Start(u), actions)
    requires Run(u, Start(u), actions).phase.Idle?
    ensures var s := Run(u, Start(u), actions); var expected := Range(u.base, Position(u, s.cursor));
      && multiset(s.handled) == multiset(expected)
      && ((forall k :: 0 <= k < |actions| ==> AllNormal(actions[k])) ==> s.handled == expected)
  {
    RunKeepsOnce(u, Start(u), actions);
  }

  // ---------- One batch that starts without a cursor ----------

  /** A step of processing a batch. */
  predicate InBatch(a: Action) { a.Save? || a.Finish? || a.BuryHead? }

  lemma BatchStep(u: Setup, s: State, a: Action)
    requires s.phase.Busy? && InBatch(a)
    ensures var s' := Step(u, s, a);
      && s'.phase.Busy? && s'.phase.next == s.phase.next
      && s'.handled + Indices(s'.phase.queue) == s.handled + Indices(s.phase.queue)
  {
    hide SaveRow;
    var s', queue := Step(u, s, a), s.phase.queue;
    if s'.phase != s.phase {
      assert queue != [] && s'.phase.queue == queue[1..] && s'.handled == s.handled + [queue[0].index];
      assert s.handled + Indices(queue) == (s.handled + [queue[0].index]) + Indices(queue[1..]);
    }
  }

  lemma {:induction false} BatchRun(u: Setup, s: State, actions: seq<Action>)
    requires s.phase.Busy? && forall k :: 0 <= k < |actions| ==> InBatch(actions[k])
    ensures var s' := Run(u, s, actions);
      && s'.phase.Busy? && s'.phase.next == s.phase.next
      && s'.handled + Indices(s'.phase.queue) == s.handled + Indices(s.phase.queue)
    decreases |actions|
  {
    hide Step;
    if actions != [] {
      BatchStep(u, s, actions[0]);
      BatchRun(u, Step(u, s, actions[0]), actions[1..]);
    }
  }

  lemma {:induction false} RangeMembers(lo: nat, hi: nat, i: nat)
    ensures i in Range(lo, hi) <==> lo <= i < hi
    decreases hi
  {
    if lo < hi { RangeMembers(lo, hi - 1, i); }
  }

  lemma ListsMembers(xs: seq<nat>, lo: nat, hi: nat)
    requires Lists(xs, lo, hi)
    ensures forall i: nat :: i in xs <==> lo <= i < hi
  {
    hide Range;
    forall i: nat ensures i in xs <==> lo <= i < hi {
      RangeMembers(lo, hi, i);
      assert i in xs <==> i in multiset(xs);
      assert i in Range(lo, hi) <==> i in multiset(Range(lo, hi));
    }
  }

  lemma ListingMembers(start: nat, listing: seq<bool>)
    ensures forall i: nat ::
      i in Indices(Normals(start, listing) + Failures(start, listing)) <==> start <= i < start + |listing|
  {
    ListingIndices(start, listing);
    IndicesConcat(Normals(start, listing), Failures(start, listing));
    hide Normals, Failures, Indices, Lists;
    ListsMembers(Indices(Normals(start, listing) + Failures(start, listing)), start, start + |listing|);
  }

  /** A batch polled without a cursor, once it is through and its cursor set, leaves a skipped record behind
      exactly when some record between the base and where it started had not been handled. */
  lemma CursorlessBatchSkipsIff(u: Setup, s: State, seed: nat, flags: seq<bool>, batch: seq<Action>, fails: bool)
    requires s.phase.Idle? && s.cursor.None? && Listing(u, seed, flags) != []
    requires forall k :: 0 <= k < |batch| ==> InBatch(batch[k])
    requires var s1 := Run(u, Polled(u, s, seed, flags), batch); s1.phase.Busy? && s1.phase.queue == []
    ensures var s2 := Step(u, Run(u, Polled(u, s, seed, flags), batch), StoreCursor(fails));
      && s2.cursor == Some(seed + |Listing(u, seed, flags)|)
      && (Behind(u, s2, s2.cursor.value) <==> Behind(u, s, seed))
  {
    hide Normals, Failures, Run, Listing, Indices;
    var s0, listing := Polled(u, s, seed, flags), Listing(u, seed, flags);
    var s1 := Run(u, s0, batch);
    BatchRun(u, s0, batch);
    NothingLeft(s1.handled, s1.phase.queue);
    ListingMembers(seed, listing);
    var queued := Indices(s0.phase.queue);
    assert s1.handled == s.handled + queued;
    assert forall i :: i in s1.handled <==> i in s.handled || i in queued;
  }
}
