/**
 The committed lock record and what is read from it alone: the gate identity it certifies and
 that identity's parts, the subject it stands for, the pins of its members, what makes two
 records one approval, the evidence beside an approval, and the per-spec comparison.

 sha256 is injective here, so an identity is the very inputs it digests. Code linkage, status and
 storage are already out of a `Spec`: it is one spec's design view.
 */
module ApprovalRecord {
  import opened Basics

  type Alias = string

  /** One spec's design view, with the id it carries. */
  datatype Spec = Spec(id: string, view: nat)

  /** Where a spec file lies, as its place in sort order. */
  type SpecPath = nat

  type Tree = map<SpecPath, Spec>

  datatype Composition = Composition(requireApprovedMembers: bool, rest: nat)

  /** What the gate identity digests; a member enters it as its recorded subject, never as its tree. */
  datatype Payload = Payload(
    design: set<Spec>, release: nat, rules: Option<nat>, packs: nat, network: Option<nat>,
    composition: Option<Composition>, contracts: set<nat>, members: map<Alias, Subject>)

  datatype Algorithm = CurrentGate | EarlierGate(name: string)

  /** A digest on record: a gate payload's, or text that is nobody's. */
  datatype Digest = OfGate(payload: Payload) | Foreign(text: string)

  datatype StateId = StateId(algorithm: Algorithm, digest: Digest)

  /** What a parent reads of a member: its approval, or that it has none. */
  datatype Subject = NeverLocked | Of(id: StateId)

  function IdentityOf(p: Payload): StateId {
    StateId(CurrentGate, OfGate(p))
  }

  // --- gate parts ------------------------------------------------------------------------------

  datatype PartName =
    | DesignPart | ReleasePart | RulesPart | PacksPart | NetworkPart | CompositionPart | ContractsPart | MembersPart
    | UnknownPart(name: string)

  datatype PartDigest =
    | OfDesign(design: set<Spec>) | OfRelease(release: nat) | OfRules(rules: Option<nat>) | OfPacks(packs: nat)
    | OfNetwork(network: nat) | OfComposition(composition: Option<Composition>) | OfContracts(contracts: set<nat>)
    | OfMembers(members: map<Alias, Subject>) | ForeignDigest(text: string)

  type Parts = map<PartName, PartDigest>

  const CORE_GATE_PARTS: set<PartName> :=
    {CompositionPart, ContractsPart, DesignPart, MembersPart, PacksPart, ReleasePart, RulesPart}

  function PartOf(p: Payload, name: PartName): Option<PartDigest> {
    match name
    case DesignPart => Some(OfDesign(p.design))
    case ReleasePart => Some(OfRelease(p.release))
    case RulesPart => Some(OfRules(p.rules))
    case PacksPart => Some(OfPacks(p.packs))
    case NetworkPart => if p.network.Some? then Some(OfNetwork(p.network.value)) else None
    case CompositionPart => Some(OfComposition(p.composition))
    case ContractsPart => Some(OfContracts(p.contracts))
    case MembersPart => Some(OfMembers(p.members))
    case UnknownPart(_) => None
  }

  /** `gateParts`: every input of the identity digested on its own; `network` only when declared. */
  function PartsOf(p: Payload): Parts {
    map n | n in CORE_GATE_PARTS + {NetworkPart} && PartOf(p, n).Some? :: PartOf(p, n).value
  }

  function Look<K, V>(m: map<K, V>, k: K): Option<V> {
    if k in m then Some(m[k]) else None
  }

  /** `movedGateParts`: the parts that differ, one on one side only among them. */
  function MovedParts(recorded: Parts, current: Parts): set<PartName> {
    set n | n in recorded.Keys + current.Keys && Look(recorded, n) != Look(current, n)
  }

  lemma LookPart(p: Payload, n: PartName)
    ensures Look(PartsOf(p), n) == PartOf(p, n)
  {
  }

  /** The parts name every move of the identity: none moved exactly when the identities are one. */
  lemma NothingMovedIff(p: Payload, q: Payload)
    ensures MovedParts(PartsOf(p), PartsOf(q)) == {} <==> p == q
  {
    if MovedParts(PartsOf(p), PartsOf(q)) == {} {
      forall n ensures PartOf(p, n) == PartOf(q, n) {
        LookPart(p, n);
        LookPart(q, n);
        assert n !in MovedParts(PartsOf(p), PartsOf(q));
      }
      assert PartOf(p, DesignPart) == PartOf(q, DesignPart) && PartOf(p, ReleasePart) == PartOf(q, ReleasePart);
      assert PartOf(p, RulesPart) == PartOf(q, RulesPart) && PartOf(p, PacksPart) == PartOf(q, PacksPart);
      assert PartOf(p, NetworkPart) == PartOf(q, NetworkPart) && PartOf(p, CompositionPart) == PartOf(q, CompositionPart);
      assert PartOf(p, ContractsPart) == PartOf(q, ContractsPart) && PartOf(p, MembersPart) == PartOf(q, MembersPart);
    }
  }

  /** Exactly the release moved: nothing the project decides differs, and the built-in rules do. */
  lemma OnlyReleaseMovedIff(p: Payload, q: Payload)
    ensures MovedParts(PartsOf(p), PartsOf(q)) == {ReleasePart} <==> p.release != q.release && q == p.(release := q.release)
  {
    var r := p.(release := q.release);
    forall n | n != ReleasePart ensures PartOf(r, n) == PartOf(p, n) {
    }
    LookPart(p, ReleasePart);
    LookPart(q, ReleasePart);
    if MovedParts(PartsOf(p), PartsOf(q)) == {ReleasePart} {
      assert ReleasePart in MovedParts(PartsOf(p), PartsOf(q));
      forall n ensures PartOf(r, n) == PartOf(q, n) {
        LookPart(p, n);
        LookPart(q, n);
        assert n !in MovedParts(PartsOf(p), PartsOf(q)) || n == ReleasePart;
      }
      assert MovedParts(PartsOf(r), PartsOf(q)) == {} by {
        forall n ensures n !in MovedParts(PartsOf(r), PartsOf(q)) {
          LookPart(r, n);
          LookPart(q, n);
        }
      }
      NothingMovedIff(r, q);
    }
    if p.release != q.release && q == r {
      forall n ensures n in MovedParts(PartsOf(p), PartsOf(q)) <==> n == ReleasePart {
        LookPart(p, n);
        LookPart(q, n);
      }
      assert MovedParts(PartsOf(p), PartsOf(q)) == {ReleasePart};
    }
  }

  /** Nothing but the design moved: the payloads agree in everything else. */
  lemma OnlyDesignMovedIff(p: Payload, q: Payload)
    ensures MovedParts(PartsOf(p), PartsOf(q)) <= {DesignPart} <==> q == p.(design := q.design)
  {
    var r := p.(design := q.design);
    forall n | n != DesignPart ensures PartOf(r, n) == PartOf(p, n) {
    }
    forall n ensures n in MovedParts(PartsOf(p), PartsOf(q)) <==> PartOf(p, n) != PartOf(q, n) {
      LookPart(p, n);
      LookPart(q, n);
    }
    NothingMovedIff(r, q);
    if MovedParts(PartsOf(p), PartsOf(q)) <= {DesignPart} {
      forall n ensures n !in MovedParts(PartsOf(r), PartsOf(q)) {
        LookPart(r, n);
        LookPart(q, n);
        assert n == DesignPart || n !in MovedParts(PartsOf(p), PartsOf(q));
      }
    }
  }

  // --- the record ---------------------------------------------------------------------------------

  datatype ApprovalState = Approved | Drifted | Never

  /** One direct member as a lock recorded it; a part has no lock of its own, so its state is always approved. */
  datatype Pin =
    | ProjectPin(project: Option<string>, subject: Option<StateId>, state: ApprovalState)
    | PartPin(contentDigest: Option<nat>)

  datatype Counts = Counts(valid: bool, errors: nat, warnings: nat, notices: nat)

  /** The as-complete validation a lock gates on: the design half counted, the code half as it is recorded. */
  datatype Gate = Gate(design: Counts, code: Option<nat>)

  datatype Restamp = Restamp(at: nat, fromVersion: Option<nat>, toVersion: nat, subject: Option<StateId>)

  /** A format-3 lock record. `validatorVersion` is None when it is no wairon version. */
  datatype Record = Record(
    stateId: StateId, lockedAt: nat, lockedBy: nat, validatorVersion: Option<nat>, counts: Counts,
    projectId: Option<string>, specs: Option<Tree>, gateParts: Option<Parts>, restamped: Option<Restamp>,
    members: Option<map<Alias, Pin>>, code: Option<nat>)

  /** `approvalSubject`: what its restamp kept, else its own identity. */
  function ApprovalSubject(r: Record): StateId {
    match r.restamped
    case Some(Restamp(_, _, _, Some(kept))) => kept
    case _ => r.stateId
  }

  /** `gatePartsProblem`: the parts do not break down the identity they sit beside. */
  predicate PartsProblem(r: Record, current: Payload) {
    match r.gateParts
    case None => false
    case Some(parts) =>
      var differ := MovedParts(parts, PartsOf(current));
      var same := r.stateId == IdentityOf(current);
      || !(CORE_GATE_PARTS <= parts.Keys)
      || (same && differ != {})
      || (!same && r.stateId.algorithm == CurrentGate && differ == {})
  }

  /** `usableGateParts` */
  function UsableParts(r: Record, current: Payload): Option<Parts> {
    if r.gateParts.Some? && !PartsProblem(r, current) then r.gateParts else None
  }

  /** A record carrying the parts of the identity it certifies is always usable, whatever it is compared with. */
  lemma OwnPartsAreUsable(r: Record, p: Payload, current: Payload)
    requires r.stateId == IdentityOf(p) && r.gateParts == Some(PartsOf(p))
    ensures UsableParts(r, current) == r.gateParts
  {
    NothingMovedIff(p, current);
    forall n | n in CORE_GATE_PARTS ensures n in PartsOf(p) {
    }
  }

  datatype StampReading = Older | Same | Newer | Invalid

  /** `releaseStampAgainst` */
  function StampAgainst(r: Record, running: nat): StampReading {
    match r.validatorVersion
    case None => Invalid
    case Some(v) => if v == running then Same else if v > running then Newer else Older
  }

  predicate StampProblem(r: Record, running: nat) {
    StampAgainst(r, running) in {Newer, Invalid}
  }

  // --- one approval -----------------------------------------------------------------------------------

  datatype PinKey = ProjectKey(project: Option<string>, subject: Option<StateId>) | PartKey(contentDigest: Option<nat>)

  function PinWithoutState(pin: Pin): PinKey {
    match pin
    case ProjectPin(project, subject, _) => ProjectKey(project, subject)
    case PartPin(d) => PartKey(d)
  }

  function MembersWithoutState(members: map<Alias, Pin>): map<Alias, PinKey> {
    map a | a in members :: PinWithoutState(members[a])
  }

  /** `sameApproval`: one identity, specs, pins, project id and approver; the rest is evidence beside it. */
  predicate SameApproval(a: Record, b: Record) {
    && a.stateId == b.stateId && a.specs == b.specs && a.projectId == b.projectId && a.lockedBy == b.lockedBy
    && (a.members.Some? <==> b.members.Some?)
    && (a.members.Some? ==> MembersWithoutState(a.members.value) == MembersWithoutState(b.members.value))
  }

  lemma SameApprovalIsAnEquivalence(a: Record, b: Record, c: Record)
    ensures SameApproval(a, a)
    ensures SameApproval(a, b) ==> SameApproval(b, a)
    ensures SameApproval(a, b) && SameApproval(b, c) ==> SameApproval(a, c)
  {
  }

  // --- evidence beside an approval -----------------------------------------------------------------------

  datatype Evidence = MemberStates | CodeResults | DesignCounts | GateParts | ReleaseStamp

  /** Whether a pin both records name carries another state. */
  predicate StatesMoved(onFile: map<Alias, Pin>, now: map<Alias, Pin>) {
    exists a | a in now && a in onFile :: StateOf(onFile[a]) != StateOf(now[a])
  }

  function StateOf(pin: Pin): ApprovalState {
    if pin.ProjectPin? then pin.state else Approved
  }

  /** `gatePartsRepair` */
  predicate PartsRepair(r: Record, captured: Payload) {
    r.stateId == IdentityOf(captured) && (r.gateParts.None? || PartsProblem(r, captured))
  }

  function Keep<T>(moved: bool, now: T, before: T): T {
    if moved then now else before
  }

  /** Each piece of evidence, brought up to date where it moved. */
  function Refreshed(r: Record, gate: Gate, captured: Payload, members: map<Alias, Pin>, running: nat): Record {
    r.(
      members := Keep(r.members.Some? && StatesMoved(r.members.value, members), Some(members), r.members),
      code := Keep(gate.code.Some?, gate.code, r.code),
      counts := gate.design,
      gateParts := Keep(PartsRepair(r, captured), Some(PartsOf(captured)), r.gateParts),
      validatorVersion := Keep(StampProblem(r, running), Some(running), r.validatorVersion))
  }

  /** `evidenceRefresh`: None when nothing beside the approval moved. */
  method EvidenceRefresh(onFile: Record, gate: Gate, captured: Payload, members: map<Alias, Pin>, running: nat)
    returns (refreshed: Option<Record>, what: seq<Evidence>)
    ensures
      var record := Refreshed(onFile, gate, captured, members, running);
      refreshed == if record == onFile then None else Some(record)
    ensures MemberStates in what <==> onFile.members.Some? && StatesMoved(onFile.members.value, members)
    ensures CodeResults in what <==> gate.code.Some? && gate.code != onFile.code
    ensures DesignCounts in what <==> gate.design != onFile.counts
    ensures GateParts in what <==> PartsRepair(onFile, captured)
    ensures ReleaseStamp in what <==> StampProblem(onFile, running)
  {
    NothingMovedIff(captured, captured);
    what := [];
    var record := onFile;
    if onFile.members.Some? && StatesMoved(onFile.members.value, members) {
      record := record.(members := Some(members));
      what := what + [MemberStates];
    }
    if gate.code.Some? && gate.code != onFile.code {
      record := record.(code := gate.code);
      what := what + [CodeResults];
    }
    if gate.design != onFile.counts {
      record := record.(counts := gate.design);
      what := what + [DesignCounts];
    }
    if PartsRepair(onFile, captured) {
      record := record.(gateParts := Some(PartsOf(captured)));
      what := what + [GateParts];
    }
    if StampProblem(onFile, running) {
      record := record.(validatorVersion := Some(running));
      what := what + [ReleaseStamp];
    }
    refreshed := if what != [] then Some(record) else None;
  }

  /**
   Refreshing evidence beside an approval keeps the approval, its time, its approver, its subject and
   any restamp trace, and one refresh is enough: the refreshed record has nothing left to refresh.
   */
  lemma RefreshKeepsTheApproval(onFile: Record, record: Record, gate: Gate, captured: Payload, running: nat)
    requires SameApproval(onFile, record) && record.members.Some?
    ensures
      var once := Refreshed(onFile, gate, captured, record.members.value, running);
      && SameApproval(onFile, once) && SameApproval(once, record)
      && once.lockedAt == onFile.lockedAt && once.restamped == onFile.restamped && ApprovalSubject(once) == ApprovalSubject(onFile)
      && Refreshed(once, gate, captured, record.members.value, running) == once
      && !PartsRepair(once, captured) && !StampProblem(once, running)
  {
    var once := Refreshed(onFile, gate, captured, record.members.value, running);
    NothingMovedIff(captured, captured);
    if PartsRepair(onFile, captured) {
      OwnPartsAreUsable(once, captured, captured);
    }
    assert PartsRepair(once, captured) ==> PartsRepair(onFile, captured);
  }

  // --- pins against members ---------------------------------------------------------------------------------

  predicate PinHolds(was: Pin, now: Pin) {
    match (was, now)
    case (ProjectPin(p, s, st), ProjectPin(q, t, su)) => st == su && s == t && (p.Some? ==> p == q)
    case (PartPin(d), PartPin(e)) => d.Some? ==> d == e
    case _ => false
  }

  /** `membersAsPinned` of the restamp: every member stands as the record pinned it, none added, none gone. */
  predicate MembersAsPinned(r: Record, now: map<Alias, Pin>) {
    var recorded := if r.members.Some? then r.members.value else map[];
    recorded.Keys == now.Keys && forall a | a in recorded :: PinHolds(recorded[a], now[a])
  }
}
