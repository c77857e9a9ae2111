// The hash chain over audit records: canonical text, verification, and what verification proves.
module AuditChain {
  import opened Basics
  import opened Calendar
  import opened Domain
  import opened Json
  import opened Text

  /** Hash of an empty prior chain. */
  const GENESIS: string := "0000000000000000000000000000000000000000000000000000000000000000"

  datatype AuditRecord = AuditRecord(
    id: Uuid, alertId: Option<Uuid>, txId: Option<TxId>, event: AuditEvent, eventJson: string,
    createdAt: Instant, sequence: int, prevHash: string, hash: string)

  // ---------- What is hashed ----------

  /** The six hashed fields. The row id and the parsed event are not among them. */
  datatype Content = Content(
    alertId: Option<Uuid>, createdAt: Instant, eventJson: string, prevHash: string, sequence: int, txId: Option<TxId>)

  function ContentOf(r: AuditRecord): Content {
    Content(r.alertId, r.createdAt, r.eventJson, r.prevHash, r.sequence, r.txId)
  }

  function OptionalText(s: Option<string>): Value {
    match s
    case None => Null
    case Some(t) => Str(t)
  }

  function OptionalUuid(u: Option<Uuid>): Option<string> {
    match u
    case None => None
    case Some(v) => Some(UuidText(v))
  }

  /** The canonical object; serde_json keeps its keys in alphabetical order. */
  function Members(c: Content): seq<Member> {
    [ Member("alert_id", OptionalText(OptionalUuid(c.alertId))),
      Member("created_at", Str(Rfc3339(c.createdAt))),
      Member("event_json", Str(c.eventJson)),
      Member("prev_hash", Str(c.prevHash)),
      Member("sequence", Num(c.sequence)),
      Member("tx_id", OptionalText(c.txId)) ]
  }

  function Canonical(c: Content): string { PrintObject(Members(c)) }

  /** What the hashed text says: the six fields by name, in alphabetical order, null for what is absent. */
  lemma CanonicalReadsBack(c: Content)
    ensures ReadObject(Canonical(c)) == Some([
      Member("alert_id", if c.alertId.None? then Null else Str(UuidText(c.alertId.value))),
      Member("created_at", Str(Rfc3339(c.createdAt))),
      Member("event_json", Str(c.eventJson)),
      Member("prev_hash", Str(c.prevHash)),
      Member("sequence", Num(c.sequence)),
      Member("tx_id", if c.txId.None? then Null else Str(c.txId.value))])
  {
    hide Rfc3339, UuidText, PrintObject, ReadObject;
    ObjectRoundTrip(Members(c));
  }

  /** The hashed text determines all six fields. */
  lemma CanonicalInjective(c: Content, d: Content)
    requires Canonical(c) == Canonical(d)
    ensures c == d
  {
    hide Rfc3339, UuidText, PrintObject;
    ObjectTextInjective(Members(c), Members(d));
    var ms, ns := Members(c), Members(d);
    assert ms[0] == ns[0] && ms[1] == ns[1] && ms[2] == ns[2] && ms[3] == ns[3] && ms[4] == ns[4] && ms[5] == ns[5];
    TextInjective(c.createdAt, d.createdAt);
    if c.alertId.Some? && d.alertId.Some? { UuidTextInjective(c.alertId.value, d.alertId.value); }
  }

  /** How records are sealed: a hash function over a text form of the hashed fields. Everything below
      holds for every sealing whose text form determines the fields. */
  datatype Sealing = Sealing(hash: Hash, text: Content -> string)

  ghost predicate Injective(s: Sealing) {
    forall c, d :: s.text(c) == s.text(d) ==> c == d
  }

  /** The sealing the audit log uses. */
  function CanonicalSealing(h: Hash): Sealing { Sealing(h, (c: Content) => Canonical(c)) }

  lemma CanonicalSealingIsInjective(h: Hash)
    ensures Injective(CanonicalSealing(h))
  {
    hide Canonical;
    var s := CanonicalSealing(h);
    forall c, d | s.text(c) == s.text(d) ensures c == d {
      CanonicalInjective(c, d);
    }
  }

  function ComputeHash(s: Sealing, c: Content): string { s.hash(s.text(c)) }

  // ---------- Verification ----------

  /** Hash the record at index `i` must chain from. */
  function ExpectedPrev(rs: seq<AuditRecord>, i: nat): string
    requires i <= |rs|
  {
    if i == 0 then GENESIS else rs[i - 1].hash
  }

  function Head(rs: seq<AuditRecord>): string { ExpectedPrev(rs, |rs|) }

  predicate Linked(s: Sealing, rs: seq<AuditRecord>, i: nat)
    requires i < |rs|
  {
    rs[i].prevHash == ExpectedPrev(rs, i) && rs[i].hash == ComputeHash(s, ContentOf(rs[i]))
  }

  predicate ChainOk(s: Sealing, rs: seq<AuditRecord>) { forall i :: 0 <= i < |rs| ==> Linked(s, rs, i) }

  /** The first record that does not fit is at index `i`. */
  predicate BreaksAt(s: Sealing, rs: seq<AuditRecord>, i: nat) {
    i < |rs| && !Linked(s, rs, i) && ChainOk(s, rs[..i])
  }

  datatype Mismatch = PrevHashMismatch | HashMismatch
  datatype Verification = Verification(valid: bool, recordsChecked: nat, brokenAtSequence: Option<int>,
                                       detail: Option<Mismatch>)

  lemma PrefixLinks(s: Sealing, rs: seq<AuditRecord>, k: nat)
    requires k <= |rs|
    ensures forall i :: 0 <= i < k ==> (Linked(s, rs[..k], i) <==> Linked(s, rs, i))
  {
    forall i | 0 <= i < k ensures Linked(s, rs[..k], i) <==> Linked(s, rs, i) {
      assert rs[..k][i] == rs[i];
      assert i > 0 ==> rs[..k][i - 1] == rs[i - 1];
    }
  }

  /** Walks the log once. Valid exactly when every link and hash matches; otherwise it names the
      least bad index, and everything before that index verifies on its own. */
  method VerifyChain(s: Sealing, rs: seq<AuditRecord>) returns (v: Verification)
    ensures v.valid <==> ChainOk(s, rs)
    ensures v.valid ==> v == Verification(true, |rs|, None, None)
    ensures !v.valid ==> BreaksAt(s, rs, v.recordsChecked) && v.brokenAtSequence == Some(rs[v.recordsChecked].sequence)
    ensures !v.valid ==> v.detail == Some(
      if rs[v.recordsChecked].prevHash != ExpectedPrev(rs, v.recordsChecked) then PrevHashMismatch else HashMismatch)
  {
    var expectedPrev := GENESIS;
    for i := 0 to |rs|
      invariant expectedPrev == ExpectedPrev(rs, i)
      invariant ChainOk(s, rs[..i])
      invariant forall k :: 0 <= k < i ==> Linked(s, rs, k)
    {
      PrefixLinks(s, rs, i);
      assert Linked(s, rs, i) <==> rs[i].prevHash == expectedPrev && rs[i].hash == ComputeHash(s, ContentOf(rs[i]));
      if rs[i].prevHash != expectedPrev {
        return Verification(false, i, Some(rs[i].sequence), Some(PrevHashMismatch));
      }
      var recomputed := ComputeHash(s, ContentOf(rs[i]));
      if recomputed != rs[i].hash {
        return Verification(false, i, Some(rs[i].sequence), Some(HashMismatch));
      }
      PrefixLinks(s, rs, i + 1);
      assert Linked(s, rs, i);
      expectedPrev := rs[i].hash;
    }
    v := Verification(true, |rs|, None, None);
  }

  /** Cutting off the tail goes unnoticed: verification needs the head hash to detect it. */
  lemma TruncationVerifies(s: Sealing, rs: seq<AuditRecord>, k: nat)
    requires ChainOk(s, rs) && k <= |rs|
    ensures ChainOk(s, rs[..k])
  {
    PrefixLinks(s, rs, k);
  }

  /** A log breaks at no more than one index. */
  lemma BreakIsUnique(s: Sealing, rs: seq<AuditRecord>, i: nat, j: nat)
    requires BreaksAt(s, rs, i) && BreaksAt(s, rs, j)
    ensures i == j
  {
    PrefixLinks(s, rs, i);
    PrefixLinks(s, rs, j);
    assert forall k :: 0 <= k < i ==> Linked(s, rs[..i], k);
    assert forall k :: 0 <= k < j ==> Linked(s, rs[..j], k);
  }

  // ---------- Tamper evidence ----------

  /** Evidence that the hash function has been broken. */
  datatype Forgery = NoForgery | Collision(left: string, right: string) | GenesisPreimage(text: string)

  predicate Breaks(s: Sealing, f: Forgery) {
    match f
    case NoForgery => false
    case Collision(x, y) => x != y && s.hash(x) == s.hash(y)
    case GenesisPreimage(x) => s.hash(x) == GENESIS
  }

  function LastText(s: Sealing, rs: seq<AuditRecord>): string
    requires rs != []
  {
    s.text(ContentOf(rs[|rs| - 1]))
  }

  /** Walks two logs back from their heads and reads off where they part. */
  function ExtractForgery(s: Sealing, a: seq<AuditRecord>, b: seq<AuditRecord>): Forgery {
    if a == [] && b == [] then NoForgery
    else if a == [] then GenesisPreimage(LastText(s, b))
    else if b == [] then GenesisPreimage(LastText(s, a))
    else if LastText(s, a) != LastText(s, b) then Collision(LastText(s, a), LastText(s, b))
    else ExtractForgery(s, a[..|a| - 1], b[..|b| - 1])
  }

  /** Equal in each of the six hashed fields, and in the hash. */
  predicate SameFields(r: AuditRecord, q: AuditRecord) {
    r.alertId == q.alertId && r.createdAt == q.createdAt && r.eventJson == q.eventJson && r.prevHash == q.prevHash
    && r.sequence == q.sequence && r.txId == q.txId && r.hash == q.hash
  }

  /** Equal length, and equal in every hashed field and hash at every index. */
  predicate SameLog(a: seq<AuditRecord>, b: seq<AuditRecord>) {
    |a| == |b| && forall i :: 0 <= i < |a| ==> SameFields(a[i], b[i])
  }

  lemma SameLogSnoc(a: seq<AuditRecord>, b: seq<AuditRecord>)
    requires a != [] && b != [] && SameLog(a[..|a| - 1], b[..|b| - 1])
    requires SameFields(a[|a| - 1], b[|b| - 1])
    ensures SameLog(a, b)
  {
    var a', b' := a[..|a| - 1], b[..|b| - 1];
    hide SameFields;
    forall i | 0 <= i < |a| ensures SameFields(a[i], b[i]) {
      if i < |a'| { assert a[i] == a'[i] && b[i] == b'[i]; }
    }
  }

  /** Two verified logs with the same head either say the same thing everywhere, or
      `ExtractForgery` computes a hash collision or a preimage of the genesis value from them. */
  lemma {:induction false} TamperEvidence(s: Sealing, a: seq<AuditRecord>, b: seq<AuditRecord>)
    requires Injective(s)
    requires ChainOk(s, a) && ChainOk(s, b) && Head(a) == Head(b)
    ensures var f := ExtractForgery(s, a, b); if f.NoForgery? then SameLog(a, b) else Breaks(s, f)
    decreases |a|
  {
    if a != [] { assert Linked(s, a, |a| - 1); }
    if b != [] { assert Linked(s, b, |b| - 1); }
    if a != [] && b != [] && LastText(s, a) == LastText(s, b) {
      var a', b' := a[..|a| - 1], b[..|b| - 1];
      TruncationVerifies(s, a, |a| - 1);
      TruncationVerifies(s, b, |b| - 1);
      TamperEvidence(s, a', b');
      if ExtractForgery(s, a', b').NoForgery? { SameLogSnoc(a, b); }
    }
  }

  /** Any edit, deletion, insertion or reordering that keeps the head is rejected, unless it exhibits a
      broken hash. */
  lemma TamperingIsRejected(s: Sealing, genuine: seq<AuditRecord>, shown: seq<AuditRecord>)
    requires Injective(s)
    requires ChainOk(s, genuine) && Head(shown) == Head(genuine) && !SameLog(genuine, shown)
    ensures !ChainOk(s, shown) || Breaks(s, ExtractForgery(s, genuine, shown))
  {
    if ChainOk(s, shown) { TamperEvidence(s, genuine, shown); }
  }

  /** Dropping a nonempty tail changes the head, unless it exhibits a broken hash. */
  lemma TruncationMovesHead(s: Sealing, rs: seq<AuditRecord>, k: nat)
    requires Injective(s)
    requires ChainOk(s, rs) && k < |rs|
    ensures Head(rs[..k]) != Head(rs) || Breaks(s, ExtractForgery(s, rs, rs[..k]))
  {
    TruncationVerifies(s, rs, k);
    if Head(rs[..k]) == Head(rs) { TamperEvidence(s, rs, rs[..k]); }
  }

  predicate Sequenced(rs: seq<AuditRecord>) { forall i :: 0 <= i < |rs| ==> rs[i].sequence == i }

  /** The part of the log that ends with the last of the records shown. */
  function UpToLast(rs: seq<AuditRecord>, shown: seq<AuditRecord>): seq<AuditRecord> {
    if shown == [] then []
    else
      var n := shown[|shown| - 1].sequence + 1;
      if 0 <= n <= |rs| then rs[..n] else rs
  }

  /** A list of a log's records that says the same as a part of it is that part: the sequence is hashed. */
  lemma GenuineIsPrefix(rs: seq<AuditRecord>, shown: seq<AuditRecord>, n: nat)
    requires Sequenced(rs) && n <= |rs| && SameLog(rs[..n], shown) && forall i :: 0 <= i < |shown| ==> shown[i] in rs
    ensures shown <= rs
  {
    forall i | 0 <= i < |shown| ensures shown[i] == rs[i] {
      var j :| 0 <= j < |rs| && rs[j] == shown[i];
      assert SameFields(rs[..n][i], shown[i]);
    }
  }

  lemma LastShown(rs: seq<AuditRecord>, shown: seq<AuditRecord>) returns (k: nat)
    requires Sequenced(rs) && shown != [] && shown[|shown| - 1] in rs
    ensures k < |rs| && UpToLast(rs, shown) == rs[..k + 1] && Head(rs[..k + 1]) == Head(shown)
  {
    k :| 0 <= k < |rs| && rs[k] == shown[|shown| - 1];
  }

  /** Of the lists that can be made of a log's records, by dropping, repeating or reordering any of them
      anywhere, those that verify are exactly the log's prefixes, unless one exhibits a broken hash. */
  lemma OnlyPrefixesVerify(s: Sealing, rs: seq<AuditRecord>, shown: seq<AuditRecord>)
    requires Injective(s)
    requires ChainOk(s, rs) && Sequenced(rs) && forall i :: 0 <= i < |shown| ==> shown[i] in rs
    ensures (ChainOk(s, shown) <==> shown <= rs) || Breaks(s, ExtractForgery(s, UpToLast(rs, shown), shown))
  {
    hide *;
    if shown <= rs {
      TruncationVerifies(s, rs, |shown|);
      assert rs[..|shown|] == shown;
    } else if ChainOk(s, shown) {
      assert shown != [];
      var k := LastShown(rs, shown);
      TruncationVerifies(s, rs, k + 1);
      TamperEvidence(s, rs[..k + 1], shown);
      if ExtractForgery(s, rs[..k + 1], shown).NoForgery? { GenuineIsPrefix(rs, shown, k + 1); }
    }
  }

  // ---------- Exact localisation ----------

  lemma UnchangedLinks(s: Sealing, rs: seq<AuditRecord>, i: nat, r: AuditRecord, k: nat)
    requires i < |rs| && k < |rs| && k != i
    requires k == i + 1 ==> r.hash == rs[i].hash
    ensures Linked(s, rs[i := r], k) <==> Linked(s, rs, k)
  {
  }

  lemma PrefixStaysOk(s: Sealing, rs: seq<AuditRecord>, i: nat, r: AuditRecord)
    requires ChainOk(s, rs) && i < |rs|
    ensures ChainOk(s, rs[i := r][..i])
  {
    assert rs[i := r][..i] == rs[..i];
    TruncationVerifies(s, rs, i);
  }

  /** Altering hashed fields of one record, and nothing else, breaks verification at that record. */
  lemma EditBreaksAtRecord(s: Sealing, rs: seq<AuditRecord>, i: nat, r: AuditRecord)
    requires Injective(s)
    requires ChainOk(s, rs) && i < |rs|
    requires ContentOf(r) != ContentOf(rs[i]) && r.hash == rs[i].hash
    ensures BreaksAt(s, rs[i := r], i) || Breaks(s, Collision(s.text(ContentOf(r)), s.text(ContentOf(rs[i]))))
  {
    PrefixStaysOk(s, rs, i, r);
    assert Linked(s, rs, i);
    assert rs[i := r][i] == r;
    assert rs[i := r][i].hash == rs[i].hash;
  }

  /** Resealing the altered record moves the break exactly to its successor; at the end of the log it
      leaves a valid log with another head. */
  lemma ResealMovesBreak(s: Sealing, rs: seq<AuditRecord>, i: nat, r: AuditRecord)
    requires Injective(s)
    requires ChainOk(s, rs) && i < |rs|
    requires ContentOf(r) != ContentOf(rs[i]) && r.prevHash == rs[i].prevHash && r.hash == ComputeHash(s, ContentOf(r))
    ensures var edited := rs[i := r];
            Breaks(s, Collision(s.text(ContentOf(r)), s.text(ContentOf(rs[i]))))
            || (i + 1 < |rs| && BreaksAt(s, edited, i + 1))
            || (i + 1 == |rs| && ChainOk(s, edited) && Head(edited) != Head(rs))
  {
    var edited := rs[i := r];
    assert Linked(s, rs, i);
    if r.hash != rs[i].hash {
      forall k | 0 <= k <= i ensures Linked(s, edited, k) {
        assert Linked(s, rs, k);
        if k < i { UnchangedLinks(s, rs, i, r, k); }
      }
      PrefixLinks(s, edited, i + 1);
      if i + 1 < |rs| { assert Linked(s, rs, i + 1); }
    }
  }

  // ---------- Appending ----------

  /** What a caller asks to be appended, with the serialised text of the event. */
  datatype NewAuditEvent = NewAuditEvent(alertId: Option<Uuid>, txId: Option<TxId>, event: AuditEvent,
                                         eventJson: string)

  /** The record sealed with the given sequence and previous hash. */
  function Seal(s: Sealing, e: NewAuditEvent, id: Uuid, at: Instant, sequence: int, prev: string): AuditRecord {
    AuditRecord(id, e.alertId, e.txId, e.event, e.eventJson, at, sequence, prev,
                ComputeHash(s, Content(e.alertId, at, e.eventJson, prev, sequence, e.txId)))
  }

  function NextRecord(s: Sealing, rs: seq<AuditRecord>, e: NewAuditEvent, id: Uuid, at: Instant): AuditRecord {
    Seal(s, e, id, at, |rs|, Head(rs))
  }

  /** The record holds the event as it was given, under the given id and time. */
  predicate Holds(r: AuditRecord, e: NewAuditEvent, id: Uuid, at: Instant) {
    r.alertId == e.alertId && r.txId == e.txId && r.event == e.event && r.eventJson == e.eventJson
    && r.id == id && r.createdAt == at
  }

  /** Its hash is that of its own six fields. */
  predicate Hashed(s: Sealing, r: AuditRecord) {
    r.hash == s.hash(s.text(Content(r.alertId, r.createdAt, r.eventJson, r.prevHash, r.sequence, r.txId)))
  }

  /** Two appended records with one hash hold the same event text about the same alert and transaction, made at
      the same time and at the same place of the log, or their two texts collide. */
  lemma HashBindsRecord(s: Sealing, rs: seq<AuditRecord>, e: NewAuditEvent, id: Uuid, at: Instant,
                        rs': seq<AuditRecord>, e': NewAuditEvent, id': Uuid, at': Instant)
    requires Injective(s) && NextRecord(s, rs, e, id, at).hash == NextRecord(s, rs', e', id', at').hash
    ensures var c := Content(e.alertId, at, e.eventJson, Head(rs), |rs|, e.txId);
            var c' := Content(e'.alertId, at', e'.eventJson, Head(rs'), |rs'|, e'.txId);
            c == c' || Breaks(s, Collision(s.text(c), s.text(c')))
  {
  }

  /** Appending keeps the log valid and densely numbered. */
  lemma AppendKeepsChain(s: Sealing, rs: seq<AuditRecord>, e: NewAuditEvent, id: Uuid, at: Instant)
    requires ChainOk(s, rs) && Sequenced(rs)
    ensures var rs' := rs + [NextRecord(s, rs, e, id, at)]; ChainOk(s, rs') && Sequenced(rs')
  {
    var rs' := rs + [NextRecord(s, rs, e, id, at)];
    assert rs'[..|rs|] == rs;
    PrefixLinks(s, rs', |rs|);
    forall i | 0 <= i < |rs'| ensures Linked(s, rs', i) {
      if i < |rs| { assert Linked(s, rs, i); }
    }
  }
}
