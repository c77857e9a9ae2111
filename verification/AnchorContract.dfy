// The on-chain contract that stores one commitment per alert, and the hashes anchored in it.
module AnchorContract {
  import opened Basics
  import opened Calendar
  import opened Domain
  import opened Json
  import opened Text

  // ---------- Commitments ----------

  function AlertIdText(alertId: Uuid): string { "stellarrisk:alert:" + HexText(alertId) }

  /** Storage key of an alert. */
  function HashAlertId(h: Hash, alertId: Uuid): string { h(AlertIdText(alertId)) }

  function DecisionMembers(r: DecisionRecord): seq<Member> {
    [ Member("alert_id", Str(UuidText(r.alertId))),
      Member("created_at", Str(Rfc3339(r.createdAt))),
      Member("decision", Str(DecisionText(r.decision))),
      Member("investigator_id", Str(r.investigator)),
      Member("rationale", Str(r.rationale)) ]
  }

  /** The commitment to a decision record; the row id is not part of it. */
  function HashDecision(h: Hash, r: DecisionRecord): string { h(PrintObject(DecisionMembers(r))) }

  /** What the hashed text of a decision says: its five fields by name, in alphabetical order. */
  lemma DecisionReadsBack(r: DecisionRecord)
    ensures ReadObject(PrintObject(DecisionMembers(r))) == Some([
      Member("alert_id", Str(UuidText(r.alertId))), Member("created_at", Str(Rfc3339(r.createdAt))),
      Member("decision", Str(StatusText(StatusOf(r.decision)))), Member("investigator_id", Str(r.investigator)),
      Member("rationale", Str(r.rationale))])
  {
    hide Rfc3339, UuidText, PrintObject, ReadObject;
    ObjectRoundTrip(DecisionMembers(r));
  }

  lemma DecisionTextInjective(r: DecisionRecord, s: DecisionRecord)
    requires PrintObject(DecisionMembers(r)) == PrintObject(DecisionMembers(s))
    ensures r.(id := s.id) == s
  {
    hide Rfc3339, UuidText, PrintObject;
    var ms, ns := DecisionMembers(r), DecisionMembers(s);
    ObjectTextInjective(ms, ns);
    assert ms[0] == ns[0] && ms[1] == ns[1] && ms[2] == ns[2] && ms[3] == ns[3] && ms[4] == ns[4];
    UuidTextInjective(r.alertId, s.alertId);
    TextInjective(r.createdAt, s.createdAt);
  }

  /** Equal commitments mean equal decisions, unless the two hashed texts collide. */
  lemma CommitmentBinds(h: Hash, r: DecisionRecord, s: DecisionRecord)
    requires HashDecision(h, r) == HashDecision(h, s)
    ensures var x, y := PrintObject(DecisionMembers(r)), PrintObject(DecisionMembers(s));
            r.(id := s.id) == s || (x != y && h(x) == h(y))
  {
    hide PrintObject, DecisionMembers;
    if PrintObject(DecisionMembers(r)) == PrintObject(DecisionMembers(s)) { DecisionTextInjective(r, s); }
  }

  lemma AlertIdTextInjective(a: Uuid, b: Uuid)
    requires AlertIdText(a) == AlertIdText(b)
    ensures a == b
  {
    assert HexText(a) == AlertIdText(a)[18..] && HexText(b) == AlertIdText(b)[18..];
    forall i | 0 <= i < 32 ensures a[i] == b[i] {
      assert HexText(a)[i] == HexText(b)[i];
    }
  }

  // ---------- Contract ----------

  type Address = string

  datatype Anchor = Anchor(decisionHash: string, timestamp: nat)
  datatype Contract = Contract(admin: Option<Address>, anchors: map<string, Anchor>)

  datatype Call =
    | Initialize(newAdmin: Address)
    | SetAnchor(signers: set<Address>, key: string, decisionHash: string, now: nat)

  datatype Outcome = Accepted | AlreadyInitialized | NotInitialized | Unauthorized

  /** What the contract answers, and its state afterwards; a call that is not accepted changes nothing. */
  function Execute(c: Contract, call: Call): (Contract, Outcome) {
    match call
    case Initialize(a) => if c.admin.Some? then (c, AlreadyInitialized) else (c.(admin := Some(a)), Accepted)
    case SetAnchor(signers, key, hash, now) =>
      if c.admin.None? then (c, NotInitialized)
      else if c.admin.value !in signers then (c, Unauthorized)
      else (c.(anchors := c.anchors[key := Anchor(hash, now)]), Accepted)
  }

  function ExecuteAll(c: Contract, calls: seq<Call>): Contract
    decreases |calls|
  {
    if calls == [] then c else ExecuteAll(Execute(c, calls[0]).0, calls[1..])
  }

  class DecisionAnchorContract {
    var admin: Option<Address>
    var anchors: map<string, Anchor>

    function State(): Contract
      reads this
    {
      Contract(admin, anchors)
    }

    constructor ()
      ensures State() == Contract(None, map[])
    {
      admin, anchors := None, map[];
    }

    method InitializeAdmin(newAdmin: Address) returns (outcome: Outcome)
      modifies this
      ensures (State(), outcome) == Execute(old(State()), Initialize(newAdmin))
      ensures outcome == if old(admin).None? then Accepted else AlreadyInitialized
      ensures admin == if old(admin).None? then Some(newAdmin) else old(admin)
      ensures anchors == old(anchors)
    {
      if admin.Some? { return AlreadyInitialized; }
      admin := Some(newAdmin);
      outcome := Accepted;
    }

    method AnchorDecision(signers: set<Address>, key: string, decisionHash: string, now: nat) returns (outcome: Outcome)
      modifies this
      ensures (State(), outcome) == Execute(old(State()), SetAnchor(signers, key, decisionHash, now))
      ensures outcome.Accepted? <==> admin.Some? && admin.value in signers
      ensures outcome.NotInitialized? <==> admin.None?
      ensures outcome.Unauthorized? <==> admin.Some? && admin.value !in signers
      ensures anchors == if outcome.Accepted? then old(anchors)[key := Anchor(decisionHash, now)] else old(anchors)
      ensures admin == old(admin)
    {
      match admin
      case None =>
        outcome := NotInitialized;
      case Some(a) =>
        if a !in signers { return Unauthorized; }
        anchors := anchors[key := Anchor(decisionHash, now)];
        outcome := Accepted;
    }

    method GetAnchor(key: string) returns (anchor: Option<Anchor>)
      ensures anchor == if key in anchors then Some(anchors[key]) else None
    {
      anchor := if key in anchors then Some(anchors[key]) else None;
    }
  }

  /** The admin is whoever is there already, else the first to initialise; no later call changes it. */
  lemma {:induction false} FirstAdminStays(c: Contract, calls: seq<Call>)
    ensures ExecuteAll(c, calls).admin ==
      if c.admin.Some? then c.admin
      else var inits := Filter((x: Call) => x.Initialize?, calls); if inits == [] then None else Some(inits[0].newAdmin)
    decreases |calls|
  {
    if calls != [] { FirstAdminStays(Execute(c, calls[0]).0, calls[1..]); }
  }

  /** The anchor read back for a key is the one of the last call on that key that the admin signed. */
  lemma {:induction false} LatestSignedAnchorWins(c: Contract, calls: seq<Call>, key: string, admin: Address)
    requires c.admin == Some(admin)
    ensures var signed := Filter((x: Call) => x.SetAnchor? && x.key == key && admin in x.signers, calls);
            var c' := ExecuteAll(c, calls);
            if signed == [] then (key in c'.anchors <==> key in c.anchors)
                && (key in c.anchors ==> c'.anchors[key] == c.anchors[key])
            else
              var last := signed[|signed| - 1];
              key in c'.anchors && c'.anchors[key] == Anchor(last.decisionHash, last.now)
    decreases |calls|
  {
    if calls != [] { LatestSignedAnchorWins(Execute(c, calls[0]).0, calls[1..], key, admin); }
  }
}
