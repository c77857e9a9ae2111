// What the on-chain anchors commit to, under interleaving and when decisions are serialised.
module DecisionAnchors {
  import opened Basics
  import opened Domain
  import opened AnchorContract
  import opened DecisionProtocol

  predicate KeyCollision(h: Hashing, a: Uuid, b: Uuid) { a != b && h.ofAlert(a) == h.ofAlert(b) }

  /** Every anchor on chain is the commitment to a stored decision on the alert whose key it is under, or
      two alert ids with the same key are at hand. */
  lemma AnchorsAreStoredDecisions(h: Hashing, admin: Address, actions: seq<Action>, id: Uuid)
    requires h.ofAlert(id) in Run(h, Start(admin), actions).contract.anchors
    ensures var s := Run(h, Start(admin), actions); var anchor := s.contract.anchors[h.ofAlert(id)];
      exists i :: 0 <= i < |s.commits| && h.ofDecision(s.commits[i]) == anchor.decisionHash
        && (s.commits[i].alertId == id || KeyCollision(h, id, s.commits[i].alertId))
  {
    StartInv(h, admin);
    RunKeepsInv(h, Start(admin), actions);
    var s := Run(h, Start(admin), actions);
    assert Backed(h, s.commits, h.ofAlert(id), s.contract.anchors[h.ofAlert(id)].decisionHash);
  }

  /** With the hashes in use, two ids with one key are a collision of the hash function itself. */
  lemma KeyCollisionBreaksHash(h: Hash, a: Uuid, b: Uuid)
    requires KeyCollision(AnchorHashing(h), a, b)
    ensures AlertIdText(a) != AlertIdText(b) && h(AlertIdText(a)) == h(AlertIdText(b))
  {
    if AlertIdText(a) == AlertIdText(b) { AlertIdTextInjective(a, b); }
  }

  // ---------- Serialised decisions ----------

  /** What a caller must see to: decisions on the alert do not overlap, none of them is cut off once
      stored, and their anchoring is signed by the contract admin. */
  predicate Serialises(s: State, a: Action, id: Uuid) {
    match a
    case Read(_) => ReadsAlone(s, a, id)
    case Abort(t) =>
      t < |s.tasks| && s.tasks[t].req.alertId == id ==> !s.tasks[t].phase.Committed? && !s.tasks[t].phase.Audited?
    case AnchorStep(t, signers, _) =>
      t < |s.tasks| && s.tasks[t].req.alertId == id ==> s.contract.admin.Some? && s.contract.admin.value in signers
    case _ => true
  }

  predicate SerialRun(h: Hashing, s: State, actions: seq<Action>, id: Uuid)
    decreases |actions|
  {
    actions == [] || (Serialises(s, actions[0], id) && SerialRun(h, Step(h, s, actions[0]), actions[1..], id))
  }

  /** Stored and not yet anchored. */
  predicate Unanchored(t: Task, id: Uuid) {
    t.req.alertId == id && (t.phase.Committed? || t.phase.Audited?)
  }

  ghost predicate AnchorCurrent(h: Hashing, s: State, id: Uuid) {
    match LastFor(s.commits, id)
    case None => true
    case Some(r) =>
      || (h.ofAlert(id) in s.contract.anchors && s.contract.anchors[h.ofAlert(id)].decisionHash == h.ofDecision(r))
      || (exists i :: 0 <= i < |s.commits| && KeyCollision(h, id, s.commits[i].alertId))
  }

  ghost predicate SerialInv(h: Hashing, s: State, id: Uuid) {
    && OneActive(s, id)
    && (forall t :: 0 <= t < |s.tasks| && Unanchored(s.tasks[t], id) ==>
          s.tasks[t].phase.index < |s.commits| && LastFor(s.commits, id) == Some(s.commits[s.tasks[t].phase.index]))
    && ((forall t :: 0 <= t < |s.tasks| ==> !Unanchored(s.tasks[t], id)) ==> AnchorCurrent(h, s, id))
  }

  /** Steps that neither store a decision nor anchor one of this alert's. */
  lemma SerialFrame(h: Hashing, s: State, s': State, id: Uuid)
    requires SerialInv(h, s, id) && s'.commits == s.commits
    requires || (h.ofAlert(id) in s.contract.anchors ==>
                   h.ofAlert(id) in s'.contract.anchors
                       && s'.contract.anchors[h.ofAlert(id)] == s.contract.anchors[h.ofAlert(id)])
             || (exists i :: 0 <= i < |s.commits| && KeyCollision(h, id, s.commits[i].alertId))
    requires |s.tasks| <= |s'.tasks|
    requires forall t :: 0 <= t < |s'.tasks| && Unanchored(s'.tasks[t], id) ==>
      t < |s.tasks| && Unanchored(s.tasks[t], id) && s'.tasks[t].phase.index == s.tasks[t].phase.index
    requires forall t :: 0 <= t < |s.tasks| && Unanchored(s.tasks[t], id) ==> Unanchored(s'.tasks[t], id)
    requires OneActive(s', id)
    ensures SerialInv(h, s', id)
  {
    hide LastFor;
  }

  lemma SerialCommit(h: Hashing, s: State, t: nat, r: DecisionRecord, id: Uuid)
    requires SerialInv(h, s, id) && t < |s.tasks| && s.tasks[t].phase.HasRead? && r.alertId == s.tasks[t].req.alertId
    ensures SerialInv(h, CommitStep(s, t, r), id)
  {
    var s' := CommitStep(s, t, r);
    assert s'.commits[..|s.commits|] == s.commits;
    if r.alertId == id {
      assert Active(s.tasks[t], id);
      assert Unanchored(s'.tasks[t], id);
      assert LastFor(s'.commits, id) == Some(r);
      assert forall u :: 0 <= u < |s.tasks| && u != t ==> !Active(s.tasks[u], id);
    } else {
      assert LastFor(s'.commits, id) == LastFor(s.commits, id);
      hide LastFor;
      assert forall u :: 0 <= u < |s.tasks| ==> (Unanchored(s'.tasks[u], id) <==> Unanchored(s.tasks[u], id));
      assert forall i :: 0 <= i < |s.commits| ==> s'.commits[i] == s.commits[i];
    }
  }

  /** A signed anchoring step files the commitment of the task's own decision. */
  lemma AnchorFiles(h: Hashing, s: State, t: nat, signers: set<Address>, now: nat)
    requires t < |s.tasks| && s.tasks[t].phase.Audited? && s.tasks[t].phase.index < |s.commits|
    requires s.contract.admin.Some?
    ensures var r := s.commits[s.tasks[t].phase.index]; var s' := Step(h, s, AnchorStep(t, signers, now));
      && s' == SetPhase(s, t, Done).(contract := s'.contract)
      && (s.contract.admin.value in signers ==>
            h.ofAlert(r.alertId) in s'.contract.anchors
                && s'.contract.anchors[h.ofAlert(r.alertId)].decisionHash == h.ofDecision(r))
      && (forall key :: key in s.contract.anchors && key != h.ofAlert(r.alertId) ==>
            key in s'.contract.anchors && s'.contract.anchors[key] == s.contract.anchors[key])
  {
  }

  /** Anchoring this alert's decision makes its anchor current. */
  lemma AnchorOwn(h: Hashing, s: State, t: nat, r: DecisionRecord, s': State, id: Uuid)
    requires SerialInv(h, s, id) && t < |s.tasks| && Unanchored(s.tasks[t], id) && Active(s.tasks[t], id)
    requires s.tasks[t].phase.index < |s.commits| && r == s.commits[s.tasks[t].phase.index] && r.alertId == id
    requires s'.tasks == s.tasks[t := s.tasks[t].(phase := Done)] && s'.commits == s.commits
    requires h.ofAlert(id) in s'.contract.anchors && s'.contract.anchors[h.ofAlert(id)].decisionHash == h.ofDecision(r)
    ensures SerialInv(h, s', id)
  {
    hide LastFor;
    assert AnchorCurrent(h, s', id);
    assert forall u :: 0 <= u < |s.tasks| && u != t ==> s'.tasks[u] == s.tasks[u];
    assert !Active(s'.tasks[t], id) && !Unanchored(s'.tasks[t], id);
  }

  lemma FewerActive(s: State, s': State, id: Uuid)
    requires OneActive(s, id) && |s'.tasks| == |s.tasks|
    requires forall u :: 0 <= u < |s.tasks| && Active(s'.tasks[u], id) ==> Active(s.tasks[u], id)
    ensures OneActive(s', id)
  {
  }

  /** Anchoring another alert's decision leaves this anchor alone, or the two ids share a key. */
  lemma AnchorOther(h: Hashing, s: State, t: nat, r: DecisionRecord, s': State, id: Uuid)
    requires SerialInv(h, s, id) && t < |s.tasks| && s.tasks[t].req.alertId != id && r in s.commits && r.alertId != id
    requires s'.tasks == s.tasks[t := s.tasks[t].(phase := Done)] && s'.commits == s.commits
    requires forall key :: key in s.contract.anchors && key != h.ofAlert(r.alertId) ==>
      key in s'.contract.anchors && s'.contract.anchors[key] == s.contract.anchors[key]
    ensures SerialInv(h, s', id)
  {
    if h.ofAlert(r.alertId) == h.ofAlert(id) { assert KeyCollision(h, id, r.alertId); }
    var i :| 0 <= i < |s.commits| && s.commits[i] == r;
    assert forall u :: 0 <= u < |s.tasks| && u != t ==> s'.tasks[u] == s.tasks[u];
    assert !Active(s'.tasks[t], id) && !Unanchored(s'.tasks[t], id);
    hide LastFor, AnchorCurrent, KeyCollision;
    FewerActive(s, s', id);
    SerialFrame(h, s, s', id);
  }

  lemma SerialAnchor(h: Hashing, s: State, t: nat, signers: set<Address>, now: nat, id: Uuid)
    requires Inv(h, s) && SerialInv(h, s, id) && Serialises(s, AnchorStep(t, signers, now), id)
    requires t < |s.tasks| && s.tasks[t].phase.Audited?
    ensures SerialInv(h, Step(h, s, AnchorStep(t, signers, now)), id)
  {
    var s' := Step(h, s, AnchorStep(t, signers, now));
    assert TaskInv(s.alerts.Keys, s.commits, s.tasks[t]);
    var r := s.commits[s.tasks[t].phase.index];
    AnchorFiles(h, s, t, signers, now);
    hide Step, SerialInv;
    if s.tasks[t].req.alertId == id { AnchorOwn(h, s, t, r, s', id); } else { AnchorOther(h, s, t, r, s', id); }
  }

  /** Other steps leave stored decisions, anchors and the unanchored tasks alone. */
  lemma QuietStep(h: Hashing, s: State, a: Action, id: Uuid)
    requires s.contract.admin.Some? && Step(h, s, a).commits == s.commits && (a.AnchorStep? ==> Step(h, s, a) == s)
    requires Serialises(s, a, id)
    ensures var s' := Step(h, s, a);
      && s'.contract.anchors == s.contract.anchors && |s.tasks| <= |s'.tasks|
      && (forall t :: 0 <= t < |s.tasks| && Unanchored(s.tasks[t], id) ==> Unanchored(s'.tasks[t], id))
      && (forall t :: 0 <= t < |s'.tasks| && Unanchored(s'.tasks[t], id) ==>
            t < |s.tasks| && Unanchored(s.tasks[t], id) && s'.tasks[t].phase.index == s.tasks[t].phase.index)
  {
  }

  lemma SerialStep(h: Hashing, s: State, a: Action, id: Uuid)
    requires Inv(h, s) && SerialInv(h, s, id) && Serialises(s, a, id)
    ensures SerialInv(h, Step(h, s, a), id)
  {
    assert s.contract.admin.Some?;
    hide SerialInv, Inv, LastFor, AnchorCurrent;
    var s' := Step(h, s, a);
    if s'.commits != s.commits {
      CommitShape(h, s, a);
      SerialCommit(h, s, a.task, RecordOf(s.tasks[a.task].req, a.id, a.at), id);
    } else if a.AnchorStep? && s' != s {
      SerialAnchor(h, s, a.task, a.signers, a.now, id);
    } else {
      hide Step;
      ActivePairs(h, s, a, id);
      QuietStep(h, s, a, id);
      SerialFrame(h, s, s', id);
    }
  }

  lemma {:induction false} SerialRunKeeps(h: Hashing, s: State, actions: seq<Action>, id: Uuid)
    requires Inv(h, s) && SerialInv(h, s, id) && SerialRun(h, s, actions, id)
    ensures Inv(h, Run(h, s, actions)) && SerialInv(h, Run(h, s, actions), id)
    decreases |actions|
  {
    if actions != [] {
      StepKeepsInv(h, s, actions[0]);
      SerialStep(h, s, actions[0], id);
      SerialRunKeeps(h, Step(h, s, actions[0]), actions[1..], id);
    }
  }

  lemma {:induction false} LastForIsStored(commits: seq<DecisionRecord>, id: Uuid)
    ensures LastFor(commits, id).Some? ==>
      exists i :: 0 <= i < |commits| && commits[i] == LastFor(commits, id).value && commits[i].alertId == id
  {
    if commits != [] && commits[|commits| - 1].alertId != id {
      LastForIsStored(commits[..|commits| - 1], id);
    }
  }

  /** When decisions on an alert are serialised and anchored, then between decisions the chain holds the
      commitment to the latest one, the one the alert's status shows, or two alert ids collide. */
  lemma SerialisedAnchorIsLatest(h: Hashing, admin: Address, actions: seq<Action>, id: Uuid)
    requires SerialRun(h, Start(admin), actions, id)
    ensures var s := Run(h, Start(admin), actions);
      (forall t :: 0 <= t < |s.tasks| ==> !Unanchored(s.tasks[t], id)) ==>
      match LastFor(s.commits, id)
      case None => id in s.alerts ==> s.alerts[id] == Open
      case Some(r) =>
        && id in s.alerts && s.alerts[id] == StatusOf(r.decision)
        && (|| (h.ofAlert(id) in s.contract.anchors
                && s.contract.anchors[h.ofAlert(id)].decisionHash == h.ofDecision(r))
            || (exists i :: 0 <= i < |s.commits| && KeyCollision(h, id, s.commits[i].alertId)))
  {
    StartInv(h, admin);
    SerialRunKeeps(h, Start(admin), actions, id);
    var s := Run(h, Start(admin), actions);
    LastForIsStored(s.commits, id);
  }
}
