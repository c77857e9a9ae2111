// The two audit stores: the in-memory list and the SQLite table with its `sequence` primary key.
module AuditStore {
  import opened Basics
  import opened Calendar
  import opened AuditChain

  // ---------- The in-memory store ----------

  /** The last `limit` records, oldest first. */
  function Suffix<T>(rs: seq<T>, limit: int): seq<T> {
    rs[Max(|rs| - Max(limit, 0), 0)..]
  }

  class InMemoryAuditStore {
    const sealing: Sealing
    var records: seq<AuditRecord>

    ghost predicate Valid()
      reads this
    {
      ChainOk(sealing, records) && Sequenced(records)
    }

    constructor (sealing: Sealing)
      ensures Valid() && records == [] && this.sealing == sealing
    {
      this.sealing := sealing;
      records := [];
    }

    method Append(e: NewAuditEvent, id: Uuid, at: Instant) returns (r: AuditRecord)
      modifies this
      ensures old(Valid()) ==> Valid()
      ensures r == NextRecord(sealing, old(records), e, id, at)
      ensures Holds(r, e, id, at) && Hashed(sealing, r)
      ensures r.sequence == |old(records)|
      ensures r.prevHash == if old(records) == [] then GENESIS else old(records)[|old(records)| - 1].hash
      ensures records == old(records) + [r]
    {
      var sequence := |records|;
      var prevHash := if records == [] then GENESIS else records[|records| - 1].hash;
      r := Seal(sealing, e, id, at, sequence, prevHash);
      if Valid() { AppendKeepsChain(sealing, records, e, id, at); }
      records := records + [r];
    }

    method ListForAlert(alertId: Uuid) returns (rs: seq<AuditRecord>)
      ensures rs == Filter((r: AuditRecord) => r.alertId == Some(alertId), records)
    {
      rs := Filter((r: AuditRecord) => r.alertId == Some(alertId), records);
    }

    method ListForTx(txId: TxId) returns (rs: seq<AuditRecord>)
      ensures rs == Filter((r: AuditRecord) => r.txId == Some(txId), records)
    {
      rs := Filter((r: AuditRecord) => r.txId == Some(txId), records);
    }

    method ListAll(limit: int) returns (rs: seq<AuditRecord>)
      ensures rs == Suffix(records, limit)
      ensures limit < 0 ==> rs == []
      ensures limit >= 0 ==> |rs| == Min(limit, |records|) && records == records[..|records| - |rs|] + rs
    {
      var start := if |records| >= Max(limit, 0) then |records| - Max(limit, 0) else 0;
      rs := records[start..];
    }

    method Verify() returns (v: Verification)
      ensures v.valid <==> ChainOk(sealing, records)
      ensures Valid() ==> v == Verification(true, |records|, None, None)
      ensures !v.valid ==> BreaksAt(sealing, records, v.recordsChecked)
    {
      v := VerifyChain(sealing, records);
    }
  }

  // ---------- The SQLite table ----------

  /** Rows by primary key. */
  type Table = map<int, AuditRecord>

  /** `MAX(sequence)` of a nonempty table. */
  function Greatest(keys: set<int>): (k: int)
    requires keys != {}
    ensures k in keys && forall j :: j in keys ==> j <= k
  {
    GreatestExists(keys);
    var k :| k in keys && forall j :: j in keys ==> j <= k;
    k
  }

  /** All rows, `ORDER BY sequence DESC`. */
  function Descending(t: Table): (rs: seq<AuditRecord>)
    ensures |rs| == |t|
    decreases |t|
  {
    if t == map[] then [] else var k := Greatest(t.Keys); [t[k]] + Descending(t - {k})
  }

  /** All rows, `ORDER BY sequence ASC`. */
  function Ascending(t: Table): seq<AuditRecord> { Reverse(Descending(t)) }

  /** `SELECT hash ... ORDER BY sequence DESC LIMIT 1`, or the genesis value. */
  function LastHash(t: Table): string {
    if t == map[] then GENESIS else t[Greatest(t.Keys)].hash
  }

  /** `SELECT COALESCE(MAX(sequence), -1) + 1`. */
  function NextSequence(t: Table): int {
    if t == map[] then 0 else Greatest(t.Keys) + 1
  }

  /** Keys are exactly 0..n-1 and every row carries its key. */
  ghost predicate Dense(t: Table) {
    (forall k :: k in t.Keys <==> 0 <= k < |t|) && (forall k :: k in t.Keys ==> t[k].sequence == k)
  }

  /** The list a dense table stands for. */
  ghost function Rows(t: Table): (rs: seq<AuditRecord>)
    requires Dense(t)
    ensures |rs| == |t| && forall i :: 0 <= i < |t| ==> rs[i] == t[i]
    ensures Sequenced(rs)
  {
    seq(|t|, i requires 0 <= i < |t| => t[i])
  }

  lemma DropGreatest(t: Table)
    requires Dense(t) && t != map[]
    ensures Greatest(t.Keys) == |t| - 1
    ensures Dense(t - {|t| - 1}) && |t - {|t| - 1}| == |t| - 1
  {
    assert |t| - 1 in t.Keys;
    var u := t - {|t| - 1};
    assert u.Keys == t.Keys - {|t| - 1};
    assert |u.Keys| == |t.Keys| - 1;
  }

  lemma {:induction false} DescendingAt(t: Table, i: nat)
    requires Dense(t) && i < |t|
    ensures Descending(t)[i] == t[|t| - 1 - i]
    decreases |t|
  {
    DropGreatest(t);
    if i > 0 { DescendingAt(t - {|t| - 1}, i - 1); }
  }

  /** On a dense table the ordered query lists exactly the rows in sequence order. */
  lemma AscendingRows(t: Table)
    requires Dense(t)
    ensures Ascending(t) == Rows(t)
  {
    forall i | 0 <= i < |t| ensures Ascending(t)[i] == Rows(t)[i] {
      DescendingAt(t, |t| - 1 - i);
    }
  }

  lemma PageAt(t: Table, n: nat)
    requires Dense(t) && n <= |t|
    ensures forall i :: 0 <= i < n ==> Descending(t)[..n][i] == Rows(t)[|Rows(t)| - 1 - i]
  {
    hide Descending, Rows;
    forall i | 0 <= i < n ensures Descending(t)[..n][i] == Rows(t)[|Rows(t)| - 1 - i] {
      DescendingAt(t, i);
      assert t[|t| - 1 - i] == Rows(t)[|t| - 1 - i];
    }
  }

  lemma ReversedIsSuffix<T>(page: seq<T>, rs: seq<T>, n: nat)
    requires n <= |rs| && |page| == n
    requires forall i :: 0 <= i < n ==> page[i] == rs[|rs| - 1 - i]
    ensures Reverse(page) == rs[|rs| - n..]
  {
  }

  /** Taking the newest rows and reversing them gives the suffix of the list. */
  lemma ReversedPageIsSuffix(t: Table, limit: nat)
    requires Dense(t)
    ensures Reverse(Descending(t)[..Min(limit, |t|)]) == Suffix(Rows(t), limit)
  {
    var n := Min(limit, |t|);
    PageAt(t, n);
    hide Descending, Rows, Reverse, Dense;
    ReversedIsSuffix(Descending(t)[..n], Rows(t), n);
  }

  /** The two reads of an append agree with the in-memory store's reading of the list. */
  lemma ReadsOfDenseTable(t: Table)
    requires Dense(t)
    ensures LastHash(t) == Head(Rows(t)) && NextSequence(t) == |Rows(t)|
  {
    if t != map[] { DropGreatest(t); }
  }

  /** Inserting the next row of a dense table appends to its list. */
  lemma InsertNext(t: Table, r: AuditRecord)
    requires Dense(t) && r.sequence == |t|
    ensures |t| !in t && Dense(t[|t| := r]) && Rows(t[|t| := r]) == Rows(t) + [r]
  {
    var u := t[|t| := r];
    assert u.Keys == t.Keys + {|t|};
    assert |u| == |t| + 1 by { assert |u.Keys| == |t.Keys| + 1; }
  }

  // ---------- The SQLite store, one caller at a time ----------

  datatype AppendFault = NoFault | ReadHashFails | ReadSequenceFails | InsertFails

  class SqliteAuditStore {
    const sealing: Sealing
    var table: Table

    ghost predicate Valid()
      reads this
    {
      Dense(table) && ChainOk(sealing, Rows(table))
    }

    constructor (sealing: Sealing)
      ensures Valid() && Rows(table) == [] && this.sealing == sealing
    {
      this.sealing := sealing;
      table := map[];
    }

    /** Simulates the in-memory append; a failed statement leaves the table as it was. */
    method Append(e: NewAuditEvent, id: Uuid, at: Instant, fault: AppendFault) returns (r: Option<AuditRecord>)
      modifies this
      ensures r.Some? <==> fault.NoFault?
      ensures table == if r.Some? then old(table)[NextSequence(old(table)) := r.value] else old(table)
      ensures r.Some? ==> Holds(r.value, e, id, at) && Hashed(sealing, r.value)
      ensures r.Some? ==> r.value.sequence == NextSequence(old(table)) && r.value.prevHash == LastHash(old(table))
      ensures old(Valid()) ==> Valid()
      ensures old(Valid()) && r.Some? ==>
        r.value == NextRecord(sealing, old(Rows(table)), e, id, at) && Rows(table) == old(Rows(table)) + [r.value]
    {
      if fault.ReadHashFails? { return None; }
      var prevHash := LastHash(table);
      if fault.ReadSequenceFails? { return None; }
      var next := NextSequence(table);
      var record := Seal(sealing, e, id, at, next, prevHash);
      if Valid() {
        ReadsOfDenseTable(table);
        AppendKeepsChain(sealing, Rows(table), e, id, at);
        InsertNext(table, record);
      }
      if fault.InsertFails? { return None; }
      table := table[next := record];
      r := Some(record);
    }

    /** Newest-first page, then reversed in place: the suffix the in-memory store returns. */
    method ListAll(limit: int) returns (rs: seq<AuditRecord>)
      requires limit >= 0
      ensures rs == Reverse(Descending(table)[..Min(limit, |table|)])
      ensures Valid() ==> rs == Suffix(Rows(table), limit)
    {
      rs := Descending(table)[..Min(limit, |table|)];
      rs := Reverse(rs);
      if Dense(table) { ReversedPageIsSuffix(table, limit); }
    }

    method ListForAlert(alertId: Uuid) returns (rs: seq<AuditRecord>)
      ensures Valid() ==> rs == Filter((r: AuditRecord) => r.alertId == Some(alertId), Rows(table))
    {
      rs := Filter((r: AuditRecord) => r.alertId == Some(alertId), Ascending(table));
      if Dense(table) { AscendingRows(table); }
    }

    /** Whatever the table holds, its rows are checked in sequence order. */
    method Verify() returns (v: Verification)
      ensures v.valid <==> ChainOk(sealing, Ascending(table))
      ensures !v.valid ==> BreaksAt(sealing, Ascending(table), v.recordsChecked)
      ensures Valid() ==> v == Verification(true, |table|, None, None)
    {
      v := VerifyChain(sealing, Ascending(table));
      if Dense(table) { AscendingRows(table); }
    }
  }
}
