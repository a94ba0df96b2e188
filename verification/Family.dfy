/**
 A family of projects, each with its own lock record: the gate identity of one project, its
 approval state computed at its own root, the merge gate's verdict, and `wairon lock`.

 A project is named by its path of aliases from the root, so a family is a finite tree. What a
 project's identity reads of a member is the member's record alone.
 */
module Family {
  import opened Basics
  import opened ApprovalRecord
  import opened SpecDiff

  type Key = seq<Alias>

  /** The L0 spec file: read, there but unreadable, or gone with or without spec files left below it. */
  datatype RootSpec = Readable | Unreadable | Missing(orphans: bool)

  /** `.wai/project.yaml`; `id` is the effective project id. */
  datatype Config =
    | Absent
    | Broken
    | Parsed(id: Option<string>, rules: nat, network: Option<nat>, composition: Option<Composition>)

  /** One project on disk. `below` says the tree holds a subsystem, a type or an export entry; `parts` carry content digests. */
  datatype Project = Project(
    l0: RootSpec, tree: Tree, below: bool, config: Config, packs: nat, unloadable: bool, contracts: set<nat>,
    unpinned: bool, unrecorded: bool, parts: map<Alias, nat>, record: Option<Record>)

  /** None is a declared member with no project on disk. */
  type Family = map<Key, Option<Project>>

  /** The running release: its version, its built-in rules, and what its validator finds in a design under given inputs. */
  datatype World = World(version: nat, rules: nat, judge: Payload -> Counts, blocking: Payload -> nat)

  predicate OnDisk(f: Family, k: Key) {
    k in f && f[k].Some?
  }

  // --- identity -----------------------------------------------------------------------------------

  function Aliases(f: Family, k: Key): set<Alias> {
    set j | j in f && |j| == |k| + 1 && j[..|k|] == k :: j[|k|]
  }

  lemma AliasesAreMembers(f: Family, k: Key, a: Alias)
    ensures a in Aliases(f, k) <==> k + [a] in f
  {
    if k + [a] in f { assert (k + [a])[..|k|] == k && (k + [a])[|k|] == a; }
    if a in Aliases(f, k) {
      var j :| j in f && |j| == |k| + 1 && j[..|k|] == k && j[|k|] == a;
      assert j == k + [a];
    }
  }

  function SubjectOf(slot: Option<Project>): Subject {
    match slot
    case Some(p) => if p.record.Some? then Of(ApprovalSubject(p.record.value)) else NeverLocked
    case None => NeverLocked
  }

  function SubjectAt(f: Family, k: Key): Subject {
    if k in f then SubjectOf(f[k]) else NeverLocked
  }

  /** `directMemberSubjects`: recorded, never recomputed. */
  function MemberSubjects(f: Family, k: Key): map<Alias, Subject> {
    map a | a in Aliases(f, k) :: SubjectAt(f, k + [a])
  }

  /** `computeGateStateId`'s payload for one project, given what its members have on record. */
  function OwnPayload(p: Project, w: World, members: map<Alias, Subject>): Payload {
    Payload(
      p.tree.Values, w.rules,
      if p.config.Parsed? then Some(p.config.rules) else None,
      p.packs,
      if p.config.Parsed? then p.config.network else None,
      if p.config.Parsed? then p.config.composition else None,
      p.contracts, members)
  }

  function PayloadAt(f: Family, w: World, k: Key): Payload
    requires OnDisk(f, k)
  {
    OwnPayload(f[k].value, w, MemberSubjects(f, k))
  }

  // --- one project's approval ------------------------------------------------------------------------

  /** A change of the release: none to judge, carried over by a clean re-validation, or refused. */
  datatype Release = Unmoved | Carried | NotCarried

  function RecordedMembers(r: Record): map<Alias, Pin> {
    if r.members.Some? then r.members.value else map[]
  }

  function PinnedSubject(r: Record, a: Alias): Subject {
    var pin: Option<Pin> := Look(RecordedMembers(r), a);
    match pin
    case Some(ProjectPin(_, Some(s), _)) => Of(s)
    case _ => NeverLocked
  }

  /** Every project member's recorded subject is the one the identity reads now. */
  predicate SubjectsAsPinned(r: Record, now: map<Alias, Subject>) {
    forall a | a in now.Keys + RecordedMembers(r).Keys ::
      || (a in RecordedMembers(r) && RecordedMembers(r)[a].PartPin?)
      || PinnedSubject(r, a) == if a in now then now[a] else NeverLocked
  }

  /** `releaseVerdict`, of a record whose identity does not match. */
  function ReleaseOf(r: Record, tree: Tree, current: Payload, w: World): Release {
    match UsableParts(r, current)
    case Some(parts) =>
      if MovedParts(parts, PartsOf(current)) != {ReleasePart} then Unmoved
      else if StampProblem(r, w.version) then NotCarried
      else if w.blocking(current) == 0 then Carried else NotCarried
    case None =>
      if r.specs.None? || !SameButStorage(r.specs.value, tree) || !SubjectsAsPinned(r, current.members) then Unmoved else NotCarried
  }

  predicate IdMoved(config: Config, r: Record) {
    config.Parsed? && r.projectId.Some? && config.id != r.projectId
  }

  /** `owedBy`: what the approval owes beside its identity. */
  predicate Owed(p: Project, r: Record) {
    IdMoved(p.config, r) || p.unpinned || p.unrecorded || p.unloadable
  }

  predicate Matches(r: Record, current: Payload) {
    r.stateId == IdentityOf(current)
  }

  function ReleaseAgainst(p: Project, r: Record, current: Payload, w: World): Release {
    if Matches(r, current) then Unmoved else ReleaseOf(r, p.tree, current, w)
  }

  /** `approvalAt`: one project's own state, at its own root. */
  function OwnState(p: Project, current: Payload, w: World): ApprovalState {
    match p.record
    case None => Never
    case Some(r) =>
      if (Matches(r, current) || ReleaseAgainst(p, r, current, w) == Carried) && !Owed(p, r) then Approved else Drifted
  }

  function StateAt(f: Family, w: World, k: Key): ApprovalState {
    if OnDisk(f, k) then OwnState(f[k].value, PayloadAt(f, w, k), w) else Never
  }

  // --- the merge gate ------------------------------------------------------------------------------------

  predicate Below(k: Key, j: Key) {
    |k| < |j| && j[..|k|] == k
  }

  /** Some member project, at any depth, is in this state. */
  predicate SomeMember(f: Family, w: World, k: Key, s: ApprovalState) {
    exists j | j in f :: Below(k, j) && StateAt(f, w, j) == s
  }

  datatype CheckState = NoTree | Unlocked | Locked | Stale

  datatype Check = Check(state: CheckState, approved: bool)

  /** `treeVerdict`: None when the L0 can be read. */
  function TreeVerdict(p: Project, strict: bool): Option<Check> {
    match p.l0
    case Readable => None
    case Unreadable => Some(Check(Unlocked, false))
    case Missing(orphans) =>
      if orphans then Some(Check(Unlocked, false))
      else if p.record.Some? && p.record.value.specs.Some? && p.record.value.specs.value != map[] then Some(Check(Unlocked, false))
      else Some(Check(NoTree, !strict))
  }

  /** `readLockState` */
  function LockState(p: Project, current: Payload): CheckState {
    match p.record
    case None => Unlocked
    case Some(r) => if Matches(r, current) then Locked else Stale
  }

  /** `coverageVerdict`: the approval on record owes something its identity does not cover. */
  predicate CoverageRefuses(p: Project, r: Record, current: Payload, w: World) {
    || p.config.Absent?
    || IdMoved(p.config, r)
    || Owed(p, r)
    || ReleaseAgainst(p, r, current, w) == NotCarried
  }

  /** `checkApproval`, at the root `k`. */
  function CheckApproval(f: Family, w: World, k: Key, strict: bool): Check
    requires OnDisk(f, k)
  {
    var p, current := f[k].value, PayloadAt(f, w, k);
    var tree := TreeVerdict(p, strict);
    if tree.Some? then tree.value
    else
      var lock := LockState(p, current);
      if SomeMember(f, w, k, Drifted) then Check(if lock == Unlocked then Unlocked else Stale, false)
      else if p.record.Some? && CoverageRefuses(p, p.record.value, current, w) then Check(Stale, false)
      else
        var state := if lock == Stale && ReleaseAgainst(p, p.record.value, current, w) == Carried then Locked else lock;
        match state
        case Locked => Check(Locked, !(strict && SomeMember(f, w, k, Never)))
        case Stale => Check(Stale, false)
        case _ => Check(Unlocked, !strict)
  }

  // --- locking ----------------------------------------------------------------------------------------------

  function ProjectIdOf(config: Config): Option<string> {
    if config.Parsed? then config.id else None
  }

  function PinOf(f: Family, w: World, j: Key): Pin {
    match SubjectAt(f, j)
    case NeverLocked => ProjectPin(if OnDisk(f, j) then ProjectIdOf(f[j].value.config) else None, None, StateAt(f, w, j))
    case Of(s) => ProjectPin(if OnDisk(f, j) then ProjectIdOf(f[j].value.config) else None, Some(s), StateAt(f, w, j))
  }

  /** `memberPins`: each direct member as it stands now; a part's pin is its content. */
  function PinsNow(f: Family, w: World, k: Key): map<Alias, Pin>
    requires OnDisk(f, k)
  {
    var parts := f[k].value.parts;
    map a | a in Aliases(f, k) + parts.Keys :: if a in parts then PartPin(Some(parts[a])) else PinOf(f, w, k + [a])
  }

  datatype Scope = WholeTree | InMember | Subsystem(paths: set<SpecPath>)

  /** `assertScopeApprovable` */
  predicate ScopeApprovable(p: Project, scope: Scope, captured: Payload) {
    match scope
    case WholeTree => true
    case InMember => false
    case Subsystem(paths) =>
      && p.record.Some? && p.record.value.specs.Some?
      && var r := p.record.value;
      && (UsableParts(r, captured).Some? || Matches(r, captured))
      && (UsableParts(r, captured).Some? ==> MovedParts(UsableParts(r, captured).value, PartsOf(captured)) <= {DesignPart})
      && var d := DiffOf(r.specs.value, p.tree);
      && d.changed <= paths
      && (forall q | q in d.pairs.leftAdded :: q in paths)
      && (forall q | q in d.pairs.leftRemoved :: q in paths)
  }

  predicate UnapprovedMember(f: Family, w: World, k: Key) {
    exists a | a in Aliases(f, k) :: StateAt(f, w, k + [a]) != Approved
  }

  /** `assertApprovable` */
  predicate Approvable(f: Family, w: World, k: Key)
    requires OnDisk(f, k)
  {
    var p := f[k].value;
    && !(p.config.Parsed? && p.config.composition.Some? && p.config.composition.value.requireApprovedMembers && UnapprovedMember(f, w, k))
    && !p.unpinned && !p.unrecorded
  }

  /** Who locks, when, over what scope, with what answer to the confirmation. */
  datatype Request = Request(scope: Scope, confirmed: bool, who: nat, at: nat)

  datatype Outcome = Refused | Declined | Kept | Wrote(record: Record)

  function RestampedRecord(onFile: Record, captured: Payload, gate: Gate, w: World, at: nat): Record {
    onFile.(
      stateId := IdentityOf(captured),
      gateParts := Some(PartsOf(captured)),
      validatorVersion := Some(w.version),
      counts := gate.design,
      code := Keep(gate.code.Some?, gate.code, onFile.code),
      restamped := Some(Restamp(at, onFile.validatorVersion, w.version, Some(ApprovalSubject(onFile)))))
  }

  /** The guard of `restampRelease`, over the family as the members were surveyed. */
  predicate Restamps(f: Family, w: World, k: Key, scope: Scope)
    requires OnDisk(f, k)
  {
    var p := f[k].value;
    && p.record.Some? && scope == WholeTree
    && ReleaseAgainst(p, p.record.value, PayloadAt(f, w, k), w) == Carried
    && MembersAsPinned(p.record.value, PinsNow(f, w, k))
  }

  function NewRecord(captured: Payload, gate: Gate, w: World, req: Request, id: Option<string>, specs: Tree, pins: map<Alias, Pin>): Record {
    Record(IdentityOf(captured), req.at, req.who, Some(w.version), gate.design, id, Some(specs), Some(PartsOf(captured)), None,
           Some(pins), gate.code)
  }

  /** The end of `lockTree`: the same approval stays, its evidence refreshed where it moved; another replaces it. */
  function Settle(onFile: Option<Record>, record: Record, gate: Gate, captured: Payload, w: World): Outcome {
    if onFile.Some? && SameApproval(onFile.value, record) then
      var refreshed := Refreshed(onFile.value, gate, captured, RecordedMembers(record), w.version);
      if refreshed == onFile.value then Kept else Wrote(refreshed)
    else Wrote(record)
  }

  /**
   `lockTree` over a family that may move while it runs: `fs` as the members are surveyed, `fd` as
   the spec digests are taken, `fc` as the identity is re-confirmed and the record written. The
   caller captured `captured` and gated on `gate` before all three.
   */
  function LockTree(fs: Family, fd: Family, fc: Family, w: World, k: Key, captured: Payload, gate: Gate, req: Request): Outcome
    requires OnDisk(fs, k) && OnDisk(fd, k) && OnDisk(fc, k)
  {
    var p := fs[k].value;
    if !ScopeApprovable(p, req.scope, captured) then Refused
    else if Restamps(fs, w, k, req.scope) then Wrote(RestampedRecord(p.record.value, captured, gate, w, req.at))
    else if !Approvable(fs, w, k) then Refused
    else if !req.confirmed then Declined
    else if PayloadAt(fc, w, k) != captured then Refused
    else
      var record := NewRecord(captured, gate, w, req, ProjectIdOf(p.config), fd[k].value.tree, PinsNow(fs, w, k));
      Settle(fc[k].value.record, record, gate, captured, w)
  }

  function WithRecord(f: Family, k: Key, r: Option<Record>): Family
    requires OnDisk(f, k)
  {
    f[k := Some(f[k].value.(record := r))]
  }

  function After(f: Family, k: Key, o: Outcome): Family
    requires OnDisk(f, k)
  {
    if o.Wrote? then WithRecord(f, k, Some(o.record)) else f
  }

  /** Whether the runner gets as far as judging: a readable tree, a configuration, and something to approve. */
  predicate Lockable(f: Family, k: Key)
    requires OnDisk(f, k)
  {
    var p := f[k].value;
    p.l0.Readable? && p.config.Parsed? && (p.below || Aliases(f, k) != {} || p.record.Some?)
  }

  /** `wairon lock` with nothing else going on; `code` is the code half of the as-complete run. */
  function QuietLock(f: Family, w: World, k: Key, code: Option<nat>, req: Request): Outcome
    requires OnDisk(f, k)
  {
    if !Lockable(f, k) || w.judge(PayloadAt(f, w, k)).errors > 0 then Refused
    else LockTree(f, f, f, w, k, PayloadAt(f, w, k), Gate(w.judge(PayloadAt(f, w, k)), code), req)
  }

  /** The lock records of a family on disk, and the command that writes one of them. */
  class Workspace {
    var family: Family

    /** `runLock`: the runner's checks, the lock adapter's workflow, and the one write. */
    method RunLock(w: World, k: Key, code: Option<nat>, req: Request) returns (outcome: Outcome)
      requires OnDisk(family, k)
      modifies this
      ensures outcome == QuietLock(old(family), w, k, code, req)
      ensures family == After(old(family), k, outcome)
    {
      var p := family[k].value;
      if TreeVerdict(p, true).Some? || !p.config.Parsed? {
        return Refused;
      }
      if !p.below && Aliases(family, k) == {} && p.record == None {
        return Refused;
      }
      var captured := PayloadAt(family, w, k);
      var gate := Gate(w.judge(captured), code);
      if gate.design.errors > 0 {
        return Refused;
      }
      if !ScopeApprovable(p, req.scope, captured) {
        return Refused;
      }
      var members := PinsNow(family, w, k);
      if p.record.Some? && ReleaseAgainst(p, p.record.value, captured, w) == Carried && req.scope == WholeTree {
        if MembersAsPinned(p.record.value, members) {
          var restamped := RestampedRecord(p.record.value, captured, gate, w, req.at);
          WriteLockRecord(k, restamped);
          return Wrote(restamped);
        }
      }
      if !Approvable(family, w, k) {
        return Refused;
      }
      if !req.confirmed {
        return Declined;
      }
      var specs := p.tree;
      if PayloadAt(family, w, k) != captured {
        return Refused;
      }
      var record := NewRecord(captured, gate, w, req, ProjectIdOf(p.config), specs, members);
      if p.record.Some? && SameApproval(p.record.value, record) {
        var refreshed, _ := EvidenceRefresh(p.record.value, gate, captured, members, w.version);
        if refreshed == None {
          return Kept;
        }
        WriteLockRecord(k, refreshed.value);
        return Wrote(refreshed.value);
      }
      WriteLockRecord(k, record);
      return Wrote(record);
    }

    /** `writeLockRecord`: the only file a lock writes. */
    method WriteLockRecord(k: Key, r: Record)
      requires OnDisk(family, k)
      modifies this
      ensures family == WithRecord(old(family), k, Some(r))
    {
      family := family[k := Some(family[k].value.(record := Some(r)))];
    }
  }
}
