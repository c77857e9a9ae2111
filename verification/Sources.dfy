// The two transaction sources: the mock list paged by a numeric cursor, and Horizon with its retries.
module Sources {
  import opened Basics
  import opened Text
  import opened Transactions

  datatype FetchFailure = FetchFailure(rawId: string, error: string)

  datatype PollResult =
    | Fetched(transactions: seq<Transaction>, failures: seq<FetchFailure>, nextCursor: Option<string>)
    | PollError
    | Panicked

  // ---------- Mock source ----------

  /** One poll of the list `txs` with batch size `b`; index arithmetic is 64-bit. */
  function MockPoll(txs: seq<Transaction>, b: nat, cursor: Option<string>): PollResult {
    var start := if cursor.None? then Some(0) else ParseUsize(cursor.value);
    if start.None? then PollError
    else if start.value >= |txs| then Fetched([], [], cursor)
    else if start.value + b >= USIZE_LIMIT then Panicked
    else var end := Min(start.value + b, |txs|); Fetched(txs[start.value..end], [], Some(Decimal(end)))
  }

  class MockTransactionSource {
    const transactions: seq<Transaction>
    var batchSize: nat

    constructor (transactions: seq<Transaction>)
      ensures this.transactions == transactions && batchSize == 10
    {
      this.transactions := transactions;
      batchSize := 10;
    }

    method WithBatchSize(size: nat)
      modifies this
      ensures batchSize == Max(size, 1)
    {
      batchSize := Max(size, 1);
    }

    method Poll(cursor: Option<string>) returns (r: PollResult)
      ensures r == MockPoll(transactions, batchSize, cursor)
    {
      var start: nat := 0;
      if cursor.Some? {
        var parsed := ParseUsize(cursor.value);
        if parsed.None? { return PollError; }
        start := parsed.value;
      }
      if start >= |transactions| { return Fetched([], [], cursor); }
      if start + batchSize >= USIZE_LIMIT { return Panicked; }
      var end := Min(start + batchSize, |transactions|);
      r := Fetched(transactions[start..end], [], Some(Decimal(end)));
    }
  }

  /** A list in memory and a batch size, as the machine can represent them. */
  predicate Representable(n: nat, b: nat) { n < USIZE_LIMIT / 2 && 1 <= b < USIZE_LIMIT }

  /** How many transactions the first `k` polls deliver. */
  function Position(n: nat, b: nat, k: nat): nat { if k == 0 then 0 else Min(Position(n, b, k - 1) + b, n) }

  /** The cursor held after `k` polls that start from none and follow the returned cursors. */
  function CursorAfter(txs: seq<Transaction>, b: nat, k: nat): Option<string> {
    if k == 0 then None
    else
      var r := MockPoll(txs, b, CursorAfter(txs, b, k - 1));
      if r.Fetched? then r.nextCursor else CursorAfter(txs, b, k - 1)
  }

  function Delivered(txs: seq<Transaction>, b: nat, k: nat): seq<Transaction> {
    if k == 0 then []
    else
      var r := MockPoll(txs, b, CursorAfter(txs, b, k - 1));
      Delivered(txs, b, k - 1) + if r.Fetched? then r.transactions else []
  }

  lemma {:induction false} PositionIs(n: nat, b: nat, k: nat)
    ensures Position(n, b, k) == Min(k * b, n)
  {
    if k > 0 {
      PositionIs(n, b, k - 1);
      assert (k - 1) * b + b == k * b;
    }
  }

  /** A poll from position `p` of the list, given no cursor for 0 or the printed position. */
  lemma PollFrom(txs: seq<Transaction>, b: nat, p: nat, cursor: Option<string>)
    requires |txs| < USIZE_LIMIT && p <= |txs| && (p == |txs| || p + b < USIZE_LIMIT)
    requires cursor == Some(Decimal(p)) || (p == 0 && cursor == None)
    ensures MockPoll(txs, b, cursor) ==
      if p == |txs| then Fetched([], [], cursor)
      else var end := Min(p + b, |txs|); Fetched(txs[p..end], [], Some(Decimal(end)))
  {
    ParsePrintedUsize(p);
    hide ParseUsize, Decimal;
  }

  lemma {:induction false} PositionBound(n: nat, b: nat, k: nat)
    ensures Position(n, b, k) <= n && (k > 0 ==> b <= Position(n, b, k) || Position(n, b, k) == n)
  {
    if k > 0 { PositionBound(n, b, k - 1); }
  }

  lemma CursorStep(txs: seq<Transaction>, b: nat, k: nat)
    requires k > 0 && MockPoll(txs, b, CursorAfter(txs, b, k - 1)).Fetched?
    ensures CursorAfter(txs, b, k) == MockPoll(txs, b, CursorAfter(txs, b, k - 1)).nextCursor
  {
    hide MockPoll;
  }

  lemma {:induction false} CursorIsPosition(txs: seq<Transaction>, b: nat, k: nat)
    requires Representable(|txs|, b)
    ensures CursorAfter(txs, b, k) == if k == 0 || txs == [] then None else Some(Decimal(Position(|txs|, b, k)))
  {
    hide MockPoll, Decimal;
    if k > 0 {
      var p := Position(|txs|, b, k - 1);
      CursorIsPosition(txs, b, k - 1);
      PositionBound(|txs|, b, k - 1);
      hide CursorAfter;
      PollFrom(txs, b, p, CursorAfter(txs, b, k - 1));
      CursorStep(txs, b, k);
    }
  }

  /** The poll that follows the first `k`. */
  lemma NextPoll(txs: seq<Transaction>, b: nat, k: nat)
    requires Representable(|txs|, b)
    ensures var p := Position(|txs|, b, k);
      MockPoll(txs, b, CursorAfter(txs, b, k)) ==
        if p == |txs| then Fetched([], [], CursorAfter(txs, b, k))
        else var end := Min(p + b, |txs|); Fetched(txs[p..end], [], Some(Decimal(end)))
  {
    hide MockPoll, Decimal, CursorAfter;
    CursorIsPosition(txs, b, k);
    PositionBound(|txs|, b, k);
    PollFrom(txs, b, Position(|txs|, b, k), CursorAfter(txs, b, k));
  }

  lemma DeliveredStep(txs: seq<Transaction>, b: nat, k: nat)
    requires k > 0
    ensures var r := MockPoll(txs, b, CursorAfter(txs, b, k - 1));
      Delivered(txs, b, k) == Delivered(txs, b, k - 1) + if r.Fetched? then r.transactions else []
  {
    hide MockPoll, CursorAfter;
  }

  lemma PrefixGrows<T>(xs: seq<T>, q: nat, p: nat)
    requires q <= p <= |xs|
    ensures xs[..q] + xs[q..p] == xs[..p]
  {
  }

  lemma {:induction false} DeliveredIs(txs: seq<Transaction>, b: nat, k: nat)
    requires Representable(|txs|, b)
    ensures Position(|txs|, b, k) <= |txs| && Delivered(txs, b, k) == txs[..Position(|txs|, b, k)]
  {
    hide MockPoll, Decimal, CursorAfter;
    if k > 0 {
      hide Delivered;
      var q := Position(|txs|, b, k - 1);
      DeliveredIs(txs, b, k - 1);
      DeliveredStep(txs, b, k);
      NextPoll(txs, b, k - 1);
      PrefixGrows(txs, q, Min(q + b, |txs|));
      assert txs[..q] + [] == txs[..q];
    }
  }

  /** Following the cursors from none never errs, never panics, and has delivered exactly the first
      `k * b` transactions after `k` polls. A poll is empty exactly when all have been delivered, that is
      from the ceil(n / b)-th on, and then the cursor no longer moves. */
  lemma MockPaging(txs: seq<Transaction>, b: nat, k: nat)
    requires Representable(|txs|, b)
    ensures Delivered(txs, b, k) == txs[..Min(k * b, |txs|)]
    ensures var r := MockPoll(txs, b, CursorAfter(txs, b, k));
      && r.Fetched? && r.failures == []
      && (r.transactions == [] <==> k * b >= |txs|)
      && (k * b >= |txs| ==> r.nextCursor == CursorAfter(txs, b, k))
  {
    hide MockPoll, Decimal, CursorAfter, Position, Delivered;
    DeliveredIs(txs, b, k);
    PositionIs(|txs|, b, k);
    NextPoll(txs, b, k);
  }

  /** A cursor can make the addition overflow: exactly when it lies inside the list and the batch size reaches
      past the largest index. For a printed position that is a matter of the position alone. A poll fails
      exactly when its cursor is no number. */
  lemma MockPollPanicsIff(txs: seq<Transaction>, b: nat, c: string, p: nat)
    ensures MockPoll(txs, b, Some(c)).Panicked? <==>
      ParseUsize(c).Some? && ParseUsize(c).value < |txs| && ParseUsize(c).value + b >= USIZE_LIMIT
    ensures MockPoll(txs, b, Some(Decimal(p))).Panicked? <==> p < Min(|txs|, USIZE_LIMIT) && p + b >= USIZE_LIMIT
    ensures MockPoll(txs, b, Some(c)).PollError? <==> ParseUsize(c).None?
  {
    DecimalValue(p);
    assert IsDigit(Decimal(p)[0]);
  }

  // ---------- Horizon: one fetch with retries ----------

  /** A 2xx answer that decodes or does not, any other status, or no answer. */
  datatype Response = Body | BadBody | Status(code: nat) | Unreachable

  datatype FetchResult = Fetch | DecodeError | NetworkError | Overflow

  /** Worth another attempt: a server error or no response at all. */
  predicate Transient(r: Response) { r.Unreachable? || (r.Status? && 500 <= r.code < 600) }

  function Final(r: Response): FetchResult {
    match r
    case Body => Fetch
    case BadBody => DecodeError
    case Status(_) => NetworkError
    case Unreachable => NetworkError
  }

  /** The fetch gets to a readable body: every attempt before it met a server error or no response at all. */
  ghost predicate EndsInBody(outcomes: nat -> Response, maxRetries: nat) {
    exists n: nat :: n < Max(1, maxRetries) && n <= 57 && outcomes(n) == Body
      && forall i: nat :: i < n ==> outcomes(i).Unreachable? || (outcomes(i).Status? && 500 <= outcomes(i).code <= 599)
  }

  function Pow2(k: nat): nat { if k == 0 then 1 else 2 * Pow2(k - 1) }

  const U64_LIMIT: nat := 0x1_0000_0000_0000_0000

  /** What a fetch comes to after `k` outcomes that were worth another attempt. */
  function FetchFrom(outcomes: nat -> Response, maxRetries: nat, k: nat): FetchResult
    requires k <= 57
    decreases 57 - k
  {
    if !Transient(outcomes(k)) || k + 1 >= maxRetries then Final(outcomes(k))
    else if k == 57 then Overflow
    else FetchFrom(outcomes, maxRetries, k + 1)
  }

  /** A fetch succeeds exactly when it gets to a readable body. */
  lemma {:induction false} FetchSucceedsIff(outcomes: nat -> Response, maxRetries: nat, k: nat)
    requires k <= 57 && (k == 0 || k < maxRetries) && forall i: nat :: i < k ==> Transient(outcomes(i))
    ensures FetchFrom(outcomes, maxRetries, k).Fetch? <==> EndsInBody(outcomes, maxRetries)
    decreases 57 - k
  {
    var last := !Transient(outcomes(k)) || k + 1 >= maxRetries;
    if EndsInBody(outcomes, maxRetries) {
      var n: nat :| n < Max(1, maxRetries) && n <= 57 && outcomes(n) == Body
        && forall i: nat :: i < n ==>
             outcomes(i).Unreachable? || (outcomes(i).Status? && 500 <= outcomes(i).code <= 599);
      assert !Transient(outcomes(n));
      assert last ==> n == k;
    }
    if !last && k < 57 { FetchSucceedsIff(outcomes, maxRetries, k + 1); }
  }

  lemma {:induction false} Pow2Sum(a: nat, b: nat)
    ensures Pow2(a + b) == Pow2(a) * Pow2(b)
  {
    if a > 0 {
      Pow2Sum(a - 1, b);
      assert 2 * Pow2(a - 1) * Pow2(b) == 2 * (Pow2(a - 1) * Pow2(b));
    }
  }

  lemma Pow2Of56()
    ensures Pow2(56) == 0x100_0000_0000_0000
  {
    assert Pow2(3) == 8;
    assert Pow2(7) == 128;
    Pow2Sum(7, 7);
    assert Pow2(14) == 16384;
    Pow2Sum(14, 14);
    assert Pow2(28) == 268435456;
    Pow2Sum(28, 28);
  }

  lemma {:induction false} Pow2Grows(a: nat, b: nat)
    requires a <= b
    ensures Pow2(a) <= Pow2(b)
  {
    if a < b { Pow2Grows(a, b - 1); }
  }

  /** The delay before attempt `k + 1` fits 64 bits exactly up to `k` = 57. */
  lemma DelayFits(k: nat)
    requires 1 <= k <= 58
    ensures 200 * Pow2(k - 1) < U64_LIMIT <==> k <= 57
  {
    Pow2Of56();
    assert Pow2(57) == 2 * Pow2(56);
    if k <= 57 { Pow2Grows(k - 1, 56); }
  }

  lemma FetchStep(outcomes: nat -> Response, maxRetries: nat, k: nat)
    requires k <= 57
    ensures !Transient(outcomes(k)) || k + 1 >= maxRetries ==> FetchFrom(outcomes, maxRetries, k) == Final(outcomes(k))
    ensures Transient(outcomes(k)) && k + 1 < maxRetries ==>
      FetchFrom(outcomes, maxRetries, k) == if k == 57 then Overflow else FetchFrom(outcomes, maxRetries, k + 1)
  {
  }

  /** `get_json` against a given stream of outcomes: requests made and milliseconds slept. A delay that
      does not fit 64 bits stops it. */
  method GetJson(outcomes: nat -> Response, maxRetries: nat) returns (r: FetchResult, requests: nat, slept: nat)
    ensures r == FetchFrom(outcomes, maxRetries, 0)
    ensures 1 <= requests <= Max(1, maxRetries)
    ensures forall i :: 0 <= i < requests - 1 ==>
      outcomes(i).Unreachable? || (outcomes(i).Status? && 500 <= outcomes(i).code <= 599)
    ensures slept == 200 * (Pow2(requests - 1) - 1)
    ensures !r.Overflow? ==>
      match outcomes(requests - 1)
      case Body => r == Fetch
      case BadBody => r == DecodeError
      case Status(code) => r == NetworkError && (requests >= maxRetries || code < 500 || code > 599)
      case Unreachable => r == NetworkError && requests >= maxRetries
    ensures r.Overflow? <==>
      && requests == 58 && maxRetries > 58
      && (outcomes(57).Unreachable? || (outcomes(57).Status? && 500 <= outcomes(57).code <= 599))
  {
    hide FetchFrom;
    var attempt := 0;
    slept := 0;
    while true
      invariant 0 <= attempt <= 57
      invariant attempt == 0 || attempt < maxRetries
      invariant forall i :: 0 <= i < attempt ==> Transient(outcomes(i))
      invariant slept == 200 * (Pow2(attempt) - 1)
      invariant FetchFrom(outcomes, maxRetries, 0) == FetchFrom(outcomes, maxRetries, attempt)
      decreases 58 - attempt
    {
      FetchStep(outcomes, maxRetries, attempt);
      attempt := attempt + 1;
      var outcome := outcomes(attempt - 1);
      match outcome {
        case Body => return Fetch, attempt, slept;
        case BadBody => return DecodeError, attempt, slept;
        case Status(code) =>
          if attempt >= maxRetries || !(500 <= code < 600) { return NetworkError, attempt, slept; }
        case Unreachable =>
          if attempt >= maxRetries { return NetworkError, attempt, slept; }
      }
      DelayFits(attempt);
      if 200 * Pow2(attempt - 1) >= U64_LIMIT { return Overflow, attempt, slept; }
      slept := slept + 200 * Pow2(attempt - 1);
    }
  }

  // ---------- Horizon: one poll ----------

  /** A listed record, with what fetching and normalising its operations gave. */
  datatype Listed = Listed(hash: string, token: string, outcome: Normalised)
  datatype Normalised = Normal(tx: Transaction) | Failure(error: string)

  function Succeeded(records: seq<Listed>): seq<Transaction> {
    if records == [] then []
    else
      var last := records[|records| - 1];
      Succeeded(records[..|records| - 1]) + if last.outcome.Normal? then [last.outcome.tx] else []
  }

  function FailedOf(records: seq<Listed>): seq<FetchFailure> {
    if records == [] then []
    else
      var last := records[|records| - 1];
      FailedOf(records[..|records| - 1])
        + if last.outcome.Failure? then [FetchFailure(last.hash, last.outcome.error)] else []
  }

  /** Batch made of the listed records, oldest first. */
  function BatchOf(records: seq<Listed>, cursor: Option<string>): PollResult {
    Fetched(Succeeded(records), FailedOf(records), if records == [] then cursor else Some(records[|records| - 1].token))
  }

  /** A record of a page: the outcomes of requesting its operations, the text of the error if that fails,
      and what normalising the operations gives if it does not. */
  datatype PageRecord = PageRecord(hash: string, token: string, operations: nat -> Response, fetchError: string,
                                   normalised: Normalised)

  function ListedOf(r: PageRecord, maxRetries: nat): Listed {
    Listed(r.hash, r.token,
           if FetchFrom(r.operations, maxRetries, 0).Fetch? then r.normalised else Failure(r.fetchError))
  }

  function ListAllOf(records: seq<PageRecord>, maxRetries: nat): seq<Listed> {
    Map((r: PageRecord) => ListedOf(r, maxRetries), records)
  }

  lemma NothingListed()
    ensures Succeeded([]) == [] && FailedOf([]) == []
  {
  }

  lemma ListOneMore(records: seq<Listed>, i: nat)
    requires i < |records|
    ensures Succeeded(records[..i + 1])
      == Succeeded(records[..i]) + if records[i].outcome.Normal? then [records[i].outcome.tx] else []
    ensures FailedOf(records[..i + 1]) == FailedOf(records[..i])
      + if records[i].outcome.Failure? then [FetchFailure(records[i].hash, records[i].outcome.error)] else []
  {
    assert records[..i + 1][..i] == records[..i];
  }

  predicate Overflows(r: PageRecord, maxRetries: nat) { FetchFrom(r.operations, maxRetries, 0).Overflow? }

  predicate AnyOverflows(records: seq<PageRecord>, maxRetries: nat) {
    exists i :: 0 <= i < |records| && Overflows(records[i], maxRetries)
  }

  /** Requests the operations of one record and normalises them; none when a delay overflows. */
  method FetchRecord(r: PageRecord, maxRetries: nat) returns (l: Option<Listed>)
    ensures l == if Overflows(r, maxRetries) then None else Some(ListedOf(r, maxRetries))
  {
    hide FetchFrom;
    var operations, _, _ := GetJson(r.operations, maxRetries);
    match operations {
      case Overflow => l := None;
      case Fetch => l := Some(Listed(r.hash, r.token, r.normalised));
      case _ => l := Some(Listed(r.hash, r.token, Failure(r.fetchError)));
    }
  }

  /** The loop over the records: each lands in one of the two lists, and none stops the others. */
  method CollectRecords(records: seq<PageRecord>, cursor: Option<string>, maxRetries: nat) returns (r: PollResult)
    ensures r == if AnyOverflows(records, maxRetries) then Panicked
                 else BatchOf(ListAllOf(records, maxRetries), cursor)
  {
    hide Overflows, Succeeded, FailedOf, ListedOf;
    ghost var listed := ListAllOf(records, maxRetries);
    assert listed[..0] == [];
    NothingListed();
    var transactions, failures, nextCursor := [], [], cursor;
    for i := 0 to |records|
      invariant forall k :: 0 <= k < i ==> !Overflows(records[k], maxRetries)
      invariant transactions == Succeeded(listed[..i]) && failures == FailedOf(listed[..i])
      invariant nextCursor == if i == 0 then cursor else Some(listed[i - 1].token)
    {
      var fetched := FetchRecord(records[i], maxRetries);
      if fetched.None? { return Panicked; }
      var record := fetched.value;
      assert record == listed[i];
      match record.outcome {
        case Normal(tx) => transactions := transactions + [tx];
        case Failure(error) => failures := failures + [FetchFailure(record.hash, error)];
      }
      nextCursor := Some(record.token);
      ListOneMore(listed, i);
    }
    assert listed[..|records|] == listed;
    r := Fetched(transactions, failures, nextCursor);
  }

  /** What a poll comes to: an error without the page, else the batch of its records, oldest first. */
  function HorizonPollOf(pageOutcomes: nat -> Response, page: seq<PageRecord>, cursor: Option<string>,
                         maxRetries: nat): PollResult {
    var records := if cursor.None? then Reverse(page) else page;
    match FetchFrom(pageOutcomes, maxRetries, 0)
    case Fetch =>
      if AnyOverflows(records, maxRetries) then Panicked
      else BatchOf(ListAllOf(records, maxRetries), cursor)
    case Overflow => Panicked
    case _ => PollError
  }

  /** The page is requested first, and without it there is no batch. Its records come oldest first when
      resuming from a cursor; newest first, hence reversed, when seeding. */
  method HorizonPoll(pageOutcomes: nat -> Response, page: seq<PageRecord>, cursor: Option<string>, maxRetries: nat)
      returns (r: PollResult)
    ensures r == HorizonPollOf(pageOutcomes, page, cursor, maxRetries)
  {
    hide FetchFrom, AnyOverflows, BatchOf, ListAllOf;
    var fetched, _, _ := GetJson(pageOutcomes, maxRetries);
    match fetched {
      case Fetch =>
      case Overflow => return Panicked;
      case _ => return PollError;
    }
    var records := page;
    if cursor.None? { records := Reverse(records); }
    r := CollectRecords(records, cursor, maxRetries);
  }

  /** With the three attempts Horizon is given, or any number up to 58, no delay overflows. */
  lemma {:induction false} NoOverflow(outcomes: nat -> Response, maxRetries: nat, k: nat)
    requires k <= 57 && maxRetries <= 58
    ensures !FetchFrom(outcomes, maxRetries, k).Overflow?
    decreases 57 - k
  {
    if k < 57 { NoOverflow(outcomes, maxRetries, k + 1); }
  }

  predicate Increasing(xs: seq<nat>) { forall i, j :: 0 <= i < j < |xs| ==> xs[i] < xs[j] }

  /** Indices of the records that come out as transactions (`ok`) or as failures (`!ok`). */
  function IndicesOf(records: seq<Listed>, ok: bool): (ks: seq<nat>)
    ensures forall k :: 0 <= k < |ks| ==> ks[k] < |records| && records[ks[k]].outcome.Normal? == ok
    ensures Increasing(ks)
  {
    if records == [] then []
    else
      var n := |records| - 1;
      IndicesOf(records[..n], ok) + if records[n].outcome.Normal? == ok then [n] else []
  }

  lemma {:induction false} EveryIndexListed(records: seq<Listed>, i: nat)
    requires i < |records|
    ensures i in IndicesOf(records, records[i].outcome.Normal?)
  {
    if i < |records| - 1 { EveryIndexListed(records[..|records| - 1], i); }
  }

  lemma {:induction false} SucceededAt(records: seq<Listed>)
    ensures |Succeeded(records)| == |IndicesOf(records, true)|
    ensures forall k :: 0 <= k < |Succeeded(records)| ==>
      records[IndicesOf(records, true)[k]].outcome == Normal(Succeeded(records)[k])
  {
    if records != [] { SucceededAt(records[..|records| - 1]); }
  }

  lemma {:induction false} FailedAt(records: seq<Listed>)
    ensures |FailedOf(records)| == |IndicesOf(records, false)|
    ensures forall k :: 0 <= k < |FailedOf(records)| ==>
      var r := records[IndicesOf(records, false)[k]];
      r.outcome.Failure? && FailedOf(records)[k] == FetchFailure(r.hash, r.outcome.error)
  {
    if records != [] { FailedAt(records[..|records| - 1]); }
  }

  /** Every record lands in exactly one of the two lists, each list keeps the listed order, and its entries
      are those records' transactions or failures. */
  lemma PollConservesRecords(records: seq<Listed>)
    ensures var good, bad := IndicesOf(records, true), IndicesOf(records, false);
      && Increasing(good) && Increasing(bad)
      && (forall i :: 0 <= i < |records| ==> (i in good <==> i !in bad))
      && |Succeeded(records)| == |good| && |FailedOf(records)| == |bad|
      && (forall k :: 0 <= k < |good| ==> records[good[k]].outcome == Normal(Succeeded(records)[k]))
      && (forall k :: 0 <= k < |bad| ==>
            var r := records[bad[k]];
            r.outcome.Failure? && FailedOf(records)[k] == FetchFailure(r.hash, r.outcome.error))
  {
    hide IndicesOf, Succeeded, FailedOf;
    SucceededAt(records);
    FailedAt(records);
    var good, bad := IndicesOf(records, true), IndicesOf(records, false);
    forall i | 0 <= i < |records| ensures i in good <==> i !in bad {
      EveryIndexListed(records, i);
      if i in good {
        var k :| 0 <= k < |good| && good[k] == i;
        assert records[i].outcome.Normal?;
      }
      if i in bad {
        var k :| 0 <= k < |bad| && bad[k] == i;
        assert !records[i].outcome.Normal?;
      }
    }
  }

  // ---------- A poll in terms of the page ----------

  /** The record's operations could be fetched, and it normalises to this transaction. */
  ghost predicate Comes(r: PageRecord, maxRetries: nat, tx: Transaction) {
    EndsInBody(r.operations, maxRetries) && r.normalised == Normal(tx)
  }

  /** This failure is about the record, with the error of the fetch or else of normalising it. */
  ghost predicate Fails(r: PageRecord, maxRetries: nat, f: FetchFailure) {
    f.rawId == r.hash
    && if EndsInBody(r.operations, maxRetries) then r.normalised == Failure(f.error) else f.error == r.fetchError
  }

  /** The two lists split the records, each in their order. */
  ghost predicate Splits(records: seq<PageRecord>, maxRetries: nat, good: seq<nat>, bad: seq<nat>,
                         transactions: seq<Transaction>, failures: seq<FetchFailure>) {
    && Increasing(good) && Increasing(bad) && (forall i :: 0 <= i < |records| ==> (i in good <==> i !in bad))
    && |transactions| == |good| && |failures| == |bad|
    && (forall k :: 0 <= k < |good| ==> good[k] < |records| && Comes(records[good[k]], maxRetries, transactions[k]))
    && (forall k :: 0 <= k < |bad| ==> bad[k] < |records| && Fails(records[bad[k]], maxRetries, failures[k]))
  }

  lemma ListedMeans(r: PageRecord, maxRetries: nat)
    ensures var l := ListedOf(r, maxRetries);
      && l.token == r.token
      && (l.outcome.Normal? ==> Comes(r, maxRetries, l.outcome.tx))
      && (l.outcome.Failure? ==> Fails(r, maxRetries, FetchFailure(l.hash, l.outcome.error)))
  {
    FetchSucceedsIff(r.operations, maxRetries, 0);
    hide FetchFrom, EndsInBody;
  }

  lemma BatchSplits(records: seq<PageRecord>, cursor: Option<string>, maxRetries: nat)
    ensures var r := BatchOf(ListAllOf(records, maxRetries), cursor);
      && r.nextCursor == (if records == [] then cursor else Some(records[|records| - 1].token))
      && exists good, bad :: Splits(records, maxRetries, good, bad, r.transactions, r.failures)
  {
    var listed := ListAllOf(records, maxRetries);
    PollConservesRecords(listed);
    forall i | 0 <= i < |records| { ListedMeans(records[i], maxRetries); }
    hide Succeeded, FailedOf, IndicesOf, Comes, Fails, ListedOf;
    assert Splits(records, maxRetries, IndicesOf(listed, true), IndicesOf(listed, false), Succeeded(listed),
                  FailedOf(listed));
  }

  /** Unless a delay overflows, which takes more than 58 attempts, a poll delivers exactly when its page can be
      fetched, and fails otherwise. What it delivers are the records of the page, oldest first, split by whether
      their operations can be fetched and normalised, each with its own transaction or failure; the cursor moves
      to the paging token of the last record, or stays when there is none. */
  lemma HorizonPollDelivers(pageOutcomes: nat -> Response, page: seq<PageRecord>, cursor: Option<string>,
                            maxRetries: nat)
    ensures var r := HorizonPollOf(pageOutcomes, page, cursor, maxRetries);
      var records := if cursor.None? then Reverse(page) else page;
      && (r.Panicked? ==> maxRetries > 58)
      && (!r.Panicked? ==> (r.Fetched? <==> EndsInBody(pageOutcomes, maxRetries)))
      && (r.Fetched? ==>
            && r.nextCursor == (if records == [] then cursor else Some(records[|records| - 1].token))
            && exists good, bad :: Splits(records, maxRetries, good, bad, r.transactions, r.failures))
  {
    var records := if cursor.None? then Reverse(page) else page;
    FetchSucceedsIff(pageOutcomes, maxRetries, 0);
    if maxRetries <= 58 {
      NoOverflow(pageOutcomes, maxRetries, 0);
      forall i | 0 <= i < |records| ensures !Overflows(records[i], maxRetries) {
        NoOverflow(records[i].operations, maxRetries, 0);
      }
    }
    BatchSplits(records, cursor, maxRetries);
    hide FetchFrom, Overflows, EndsInBody, ListAllOf, Splits;
  }
}
