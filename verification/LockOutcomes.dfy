/**
 What one quiet lock and one check answer, case by case, said of the project's own fields, its record and
 its members' states: the reference the workflow is held against.
 */
module LockOutcomes {
  import opened Basics
  import opened ApprovalRecord
  import opened SpecDiff
  import opened Family
  import opened FamilyTheorems

  // --- the identity --------------------------------------------------------------------------------

  /** An identity moves with exactly these: the specs wherever they lie, the built-in rules, the configuration's inputs, the packs, the contracts and the members on record. */
  lemma IdentityIsExactly(f: Family, g: Family, v: World, w: World, k: Key)
    requires OnDisk(f, k) && OnDisk(g, k) && f[k].value.config.Parsed? && g[k].value.config.Parsed?
    ensures
      var p, q := f[k].value, g[k].value;
      IdentityOf(PayloadAt(f, v, k)) == IdentityOf(PayloadAt(g, w, k))
      <==> && p.tree.Values == q.tree.Values && v.rules == w.rules
           && p.config.rules == q.config.rules && p.config.network == q.config.network && p.config.composition == q.config.composition
           && p.packs == q.packs && p.contracts == q.contracts
           && (forall a :: k + [a] in f <==> k + [a] in g)
           && (forall a | k + [a] in f :: SubjectAt(f, k + [a]) == SubjectAt(g, k + [a]))
  {
    forall a ensures (a in Aliases(f, k) <==> k + [a] in f) && (a in Aliases(g, k) <==> k + [a] in g) {
      AliasesAreMembers(f, k, a);
      AliasesAreMembers(g, k, a);
    }
    var ms, ns := MemberSubjects(f, k), MemberSubjects(g, k);
    if ms == ns {
      forall a ensures k + [a] in f <==> k + [a] in g {
        assert a in ms <==> a in ns;
      }
      forall a | k + [a] in f ensures SubjectAt(f, k + [a]) == SubjectAt(g, k + [a]) {
        assert ms[a] == ns[a];
      }
    }
  }

  /** Part by part, what a lock of a configured project certifies; only a declared network has a part. */
  lemma PartsSay(f: Family, w: World, k: Key)
    requires OnDisk(f, k) && f[k].value.config.Parsed?
    ensures
      var p, parts := f[k].value, PartsOf(PayloadAt(f, w, k));
      && HasCoreParts(parts)
      && parts[DesignPart] == OfDesign(p.tree.Values) && parts[ReleasePart] == OfRelease(w.rules)
      && parts[RulesPart] == OfRules(Some(p.config.rules)) && parts[PacksPart] == OfPacks(p.packs)
      && parts[CompositionPart] == OfComposition(p.config.composition) && parts[ContractsPart] == OfContracts(p.contracts)
      && parts[MembersPart].OfMembers?
      && (forall a :: a in parts[MembersPart].members <==> k + [a] in f)
      && (forall a | k + [a] in f :: parts[MembersPart].members[a] == SubjectAt(f, k + [a]))
      && (NetworkPart in parts <==> p.config.network.Some?)
      && (p.config.network.Some? ==> parts[NetworkPart] == OfNetwork(p.config.network.value))
      && parts.Keys <= CORE_GATE_PARTS + {NetworkPart}
  {
    forall a ensures a in Aliases(f, k) <==> k + [a] in f {
      AliasesAreMembers(f, k, a);
    }
  }

  /** What a parent reads of a member: the identity it was approved under, kept through restamps, or that nothing is on record. */
  lemma SubjectIsExactly(f: Family, k: Key, a: Alias)
    ensures
      var j := k + [a];
      && (SubjectAt(f, j) == NeverLocked <==> !OnDisk(f, j) || f[j].value.record.None?)
      && (OnDisk(f, j) && f[j].value.record.Some? ==>
            var r := f[j].value.record.value;
            SubjectAt(f, j) == Of(if r.restamped.Some? && r.restamped.value.subject.Some? then r.restamped.value.subject.value else r.stateId))
  {
  }

  // --- gate parts ----------------------------------------------------------------------------------

  /** Every gate part on record is the one these inputs give, none more and none less. */
  ghost predicate PartsAgree(parts: Parts, current: Payload) {
    forall n :: Look(parts, n) == PartOf(current, n)
  }

  lemma NoneMovedMeansAgree(parts: Parts, current: Payload)
    ensures MovedParts(parts, PartsOf(current)) == {} <==> PartsAgree(parts, current)
  {
    forall n ensures n in MovedParts(parts, PartsOf(current)) <==> Look(parts, n) != PartOf(current, n) {
      LookPart(current, n);
    }
  }

  /** The seven parts every record has had since parts were recorded; `network` is there only when declared. */
  predicate HasCoreParts(parts: Parts) {
    && DesignPart in parts && ReleasePart in parts && RulesPart in parts && PacksPart in parts && CompositionPart in parts
    && ContractsPart in parts && MembersPart in parts
  }

  /**
   When recorded gate parts are believed: all seven are there, and they agree with the inputs as they stand
   exactly when the identity beside them does, but for identities of an earlier algorithm.
   */
  lemma PartsAreUsableIff(r: Record, current: Payload)
    ensures
      UsableParts(r, current).Some?
      <==> && r.gateParts.Some? && HasCoreParts(r.gateParts.value)
           && (r.stateId == IdentityOf(current) ==> PartsAgree(r.gateParts.value, current))
           && (PartsAgree(r.gateParts.value, current) ==> r.stateId == IdentityOf(current) || r.stateId.algorithm != CurrentGate)
    ensures UsableParts(r, current).Some? ==> UsableParts(r, current) == r.gateParts
  {
    if r.gateParts.Some? { NoneMovedMeansAgree(r.gateParts.value, current); }
  }

  // --- pins ----------------------------------------------------------------------------------------

  /** What a lock pins: every part by its content, every other member by its id, its subject and its state. */
  lemma PinsAreExactly(f: Family, w: World, k: Key, a: Alias)
    requires OnDisk(f, k)
    ensures
      var pins, j := PinsNow(f, w, k), k + [a];
      && (a in pins <==> j in f || a in f[k].value.parts)
      && (a in f[k].value.parts ==> pins[a] == PartPin(Some(f[k].value.parts[a])))
      && (j in f && a !in f[k].value.parts ==>
            && pins[a].ProjectPin?
            && pins[a].project == (if OnDisk(f, j) && f[j].value.config.Parsed? then f[j].value.config.id else None)
            && pins[a].subject == (if SubjectAt(f, j) == NeverLocked then None else Some(SubjectAt(f, j).id))
            && pins[a].state == StateAt(f, w, j))
  {
    AliasesAreMembers(f, k, a);
  }

  /** What one recorded pin says of a member or part now. */
  ghost predicate PinStands(f: Family, w: World, k: Key, a: Alias, pin: Pin)
    requires OnDisk(f, k)
  {
    var j := k + [a];
    if a in f[k].value.parts then pin.PartPin? && (pin.contentDigest.Some? ==> pin.contentDigest.value == f[k].value.parts[a])
    else
      && j in f && pin.ProjectPin? && pin.state == StateAt(f, w, j)
      && (pin.subject == if SubjectAt(f, j) == NeverLocked then None else Some(SubjectAt(f, j).id))
      && (pin.project.Some? ==> OnDisk(f, j) && f[j].value.config.Parsed? && f[j].value.config.id == pin.project)
  }

  /** The members stand as a record pinned them: the same ones, each as its pin says. */
  lemma MembersStandIff(f: Family, w: World, k: Key, r: Record)
    requires OnDisk(f, k)
    ensures
      MembersAsPinned(r, PinsNow(f, w, k))
      <==> && (forall a :: a in RecordedMembers(r) <==> k + [a] in f || a in f[k].value.parts)
           && (forall a | a in RecordedMembers(r) :: PinStands(f, w, k, a, RecordedMembers(r)[a]))
  {
    var pins, recorded := PinsNow(f, w, k), RecordedMembers(r);
    forall a ensures a in pins <==> k + [a] in f || a in f[k].value.parts {
      PinsAreExactly(f, w, k, a);
    }
    forall a | a in recorded && a in pins ensures PinHolds(recorded[a], pins[a]) <==> PinStands(f, w, k, a, recorded[a]) {
      PinsAreExactly(f, w, k, a);
    }
    if MembersAsPinned(r, pins) {
      forall a | a in recorded ensures PinStands(f, w, k, a, recorded[a]) {
        assert a in pins;
      }
    }
  }

  // --- the lock ------------------------------------------------------------------------------------

  /** Something to approve, readable, configured and found complete. */
  ghost predicate Complete(f: Family, w: World, k: Key)
    requires OnDisk(f, k)
  {
    var p := f[k].value;
    && p.l0 == Readable && p.config.Parsed?
    && (p.below || p.record.Some? || exists a :: k + [a] in f)
    && w.judge(PayloadAt(f, w, k)).errors == 0
  }

  /** A scope of the project's own: every path that differs from what is on record lies in it, and nothing but the design moved. */
  ghost predicate ScopeCovers(f: Family, w: World, k: Key, scope: Scope)
    requires OnDisk(f, k)
  {
    var p, now := f[k].value, PayloadAt(f, w, k);
    match scope
    case WholeTree => true
    case InMember => false
    case Subsystem(paths) =>
      && p.record.Some? && p.record.value.specs.Some?
      && var r := p.record.value;
      && (if UsableParts(r, now).Some? then forall n | n != DesignPart :: Look(r.gateParts.value, n) == PartOf(now, n)
          else r.stateId == IdentityOf(now))
      && forall q | q !in paths :: !DiffOf(r.specs.value, p.tree).Touches(q)
  }

  /** The approval on record carries over to this release: the built-in rules alone moved, its stamp is no newer, a clean re-validation, every member as pinned. */
  ghost predicate CarriesOver(f: Family, w: World, k: Key, scope: Scope)
    requires OnDisk(f, k)
  {
    var p, now := f[k].value, PayloadAt(f, w, k);
    && scope == WholeTree && p.record.Some?
    && var r := p.record.value;
    && r.stateId != IdentityOf(now) && UsableParts(r, now).Some?
    && (forall n :: Look(r.gateParts.value, n) != PartOf(now, n) <==> n == ReleasePart)
    && r.validatorVersion.Some? && r.validatorVersion.value <= w.version && w.blocking(now) == 0
    && (forall a :: a in RecordedMembers(r) <==> k + [a] in f || a in p.parts)
    && (forall a | a in RecordedMembers(r) :: PinStands(f, w, k, a, RecordedMembers(r)[a]))
  }

  /** Nothing in the way of an approval: where the composition asks for it every direct member is approved, and every external is pinned and recorded. */
  ghost predicate NothingInTheWay(f: Family, w: World, k: Key)
    requires OnDisk(f, k)
  {
    var p := f[k].value;
    && (p.config.Parsed? && p.config.composition.Some? && p.config.composition.value.requireApprovedMembers ==>
          forall a | k + [a] in f :: StateAt(f, w, k + [a]) == Approved)
    && !p.unpinned && !p.unrecorded
  }

  lemma ScopeCoversIff(f: Family, w: World, k: Key, scope: Scope)
    requires OnDisk(f, k)
    ensures ScopeApprovable(f[k].value, scope, PayloadAt(f, w, k)) <==> ScopeCovers(f, w, k, scope)
  {
    var p, now := f[k].value, PayloadAt(f, w, k);
    if scope.Subsystem? && p.record.Some? && p.record.value.specs.Some? {
      var r, d := p.record.value, DiffOf(p.record.value.specs.value, p.tree);
      PartsAreUsableIff(r, now);
      if UsableParts(r, now).Some? { OnlyThisPartMoved(r.gateParts.value, now); }
      OutsideTouchesNothing(d, scope.paths);
    }
  }

  lemma OnlyThisPartMoved(parts: Parts, now: Payload)
    ensures MovedParts(parts, PartsOf(now)) <= {DesignPart} <==> forall n | n != DesignPart :: Look(parts, n) == PartOf(now, n)
    ensures MovedParts(parts, PartsOf(now)) == {ReleasePart} <==> forall n :: Look(parts, n) != PartOf(now, n) <==> n == ReleasePart
  {
    forall n ensures n in MovedParts(parts, PartsOf(now)) <==> Look(parts, n) != PartOf(now, n) {
      LookPart(now, n);
    }
    var moved := MovedParts(parts, PartsOf(now));
    if moved == {ReleasePart} {
      forall n ensures Look(parts, n) != PartOf(now, n) <==> n == ReleasePart {
        assert n in moved <==> n == ReleasePart;
      }
    }
    if moved <= {DesignPart} {
      forall n | n != DesignPart ensures Look(parts, n) == PartOf(now, n) {
        assert n !in moved;
      }
    }
    if forall n :: Look(parts, n) != PartOf(now, n) <==> n == ReleasePart {
      forall n ensures n in moved <==> n in {ReleasePart} {
      }
    }
  }

  lemma OutsideTouchesNothing(d: Diff, paths: set<SpecPath>)
    ensures (forall q | q !in paths :: !d.Touches(q))
       <==> d.changed <= paths && (forall q | q in d.pairs.leftAdded :: q in paths) && (forall q | q in d.pairs.leftRemoved :: q in paths)
  {
    if forall q | q !in paths :: !d.Touches(q) {
      forall q | q in d.changed || q in d.pairs.leftAdded || q in d.pairs.leftRemoved ensures q in paths {
        assert d.Touches(q);
      }
    }
  }

  lemma CarriesOverIff(f: Family, w: World, k: Key, scope: Scope)
    requires OnDisk(f, k)
    ensures Restamps(f, w, k, scope) <==> CarriesOver(f, w, k, scope)
  {
    var p, now := f[k].value, PayloadAt(f, w, k);
    if p.record.Some? {
      var r := p.record.value;
      MembersStandIff(f, w, k, r);
      PartsAreUsableIff(r, now);
      if r.gateParts.Some? { OnlyThisPartMoved(r.gateParts.value, now); }
    }
  }

  lemma NothingInTheWayIff(f: Family, w: World, k: Key)
    requires OnDisk(f, k)
    ensures Approvable(f, w, k) <==> NothingInTheWay(f, w, k)
  {
    forall a ensures a in Aliases(f, k) <==> k + [a] in f {
      AliasesAreMembers(f, k, a);
    }
    if UnapprovedMember(f, w, k) {
      var a :| a in Aliases(f, k) && StateAt(f, w, k + [a]) != Approved;
      assert k + [a] in f;
    }
  }

  lemma CompleteIff(f: Family, w: World, k: Key)
    requires OnDisk(f, k)
    ensures Complete(f, w, k) <==> Lockable(f, k) && w.judge(PayloadAt(f, w, k)).errors == 0
  {
    forall a ensures a in Aliases(f, k) <==> k + [a] in f {
      AliasesAreMembers(f, k, a);
    }
    if Aliases(f, k) != {} {
      var a :| a in Aliases(f, k);
      assert k + [a] in f;
    }
    if a :| k + [a] in f { assert a in Aliases(f, k); }
  }

  /**
   What a lock answers, exactly. It is refused when the design is not there or not complete, the scope does
   not cover what moved, or something stands in the way of an approval that does not merely carry over; it is
   declined when only the confirmation is missing; and otherwise it keeps or writes a record.
   */
  lemma LockAnswers(f: Family, w: World, k: Key, code: Option<nat>, req: Request)
    requires OnDisk(f, k)
    ensures
      var o := QuietLock(f, w, k, code, req);
      var open := Complete(f, w, k) && ScopeCovers(f, w, k, req.scope) && (CarriesOver(f, w, k, req.scope) || NothingInTheWay(f, w, k));
      && (o == Refused <==> !open)
      && (o == Declined <==> open && !CarriesOver(f, w, k, req.scope) && !req.confirmed)
      && (o.Kept? || o.Wrote? <==> open && (CarriesOver(f, w, k, req.scope) || req.confirmed))
  {
    CompleteIff(f, w, k);
    ScopeCoversIff(f, w, k, req.scope);
    CarriesOverIff(f, w, k, req.scope);
    NothingInTheWayIff(f, w, k);
    OutcomeByCases(f, w, k, code, req);
  }

  lemma OutcomeByCases(f: Family, w: World, k: Key, code: Option<nat>, req: Request)
    requires OnDisk(f, k)
    ensures
      var o, now := QuietLock(f, w, k, code, req), PayloadAt(f, w, k);
      var through := Lockable(f, k) && w.judge(now).errors == 0 && ScopeApprovable(f[k].value, req.scope, now);
      && (o == Refused <==> !through || (!Restamps(f, w, k, req.scope) && !Approvable(f, w, k)))
      && (o == Declined <==> through && !Restamps(f, w, k, req.scope) && Approvable(f, w, k) && !req.confirmed)
  {
  }

  /** Field by field, what is on file after a lock that was not a restamp, of an approval not yet on record. */
  lemma NewApprovalSays(f: Family, w: World, k: Key, code: Option<nat>, req: Request)
    requires OnDisk(f, k) && !Restamps(f, w, k, req.scope) && QuietLock(f, w, k, code, req).Wrote?
    requires f[k].value.record.None? || !SameApproval(f[k].value.record.value, QuietLock(f, w, k, code, req).record)
    ensures
      var p, now, r := f[k].value, PayloadAt(f, w, k), QuietLock(f, w, k, code, req).record;
      && r.stateId == IdentityOf(now) && r.gateParts == Some(PartsOf(now)) && r.specs == Some(p.tree)
      && r.lockedAt == req.at && r.lockedBy == req.who && r.validatorVersion == Some(w.version) && r.restamped == None
      && r.counts == w.judge(now) && r.code == code && r.members == Some(PinsNow(f, w, k))
      && r.projectId == (if p.config.Parsed? then p.config.id else None)
  {
    if f[k].value.record.Some? {
      var now := PayloadAt(f, w, k);
      var gate := Gate(w.judge(now), code);
      var record := NewRecord(now, gate, w, req, ProjectIdOf(f[k].value.config), f[k].value.tree, PinsNow(f, w, k));
      if SameApproval(f[k].value.record.value, record) {
        RefreshKeepsTheApproval(f[k].value.record.value, record, gate, now, w.version);
      }
    }
  }

  /** Field by field, what a restamp leaves on file. */
  lemma RestampSays(f: Family, w: World, k: Key, code: Option<nat>, req: Request)
    requires OnDisk(f, k) && Restamps(f, w, k, req.scope) && QuietLock(f, w, k, code, req).Wrote?
    ensures
      var now, was, r := PayloadAt(f, w, k), f[k].value.record.value, QuietLock(f, w, k, code, req).record;
      && r.stateId == IdentityOf(now) && r.gateParts == Some(PartsOf(now)) && r.validatorVersion == Some(w.version)
      && r.counts == w.judge(now) && r.code == (if code.Some? then code else was.code)
      && r.restamped == Some(Restamp(req.at, was.validatorVersion, w.version, Some(ApprovalSubject(was))))
      && r.lockedAt == was.lockedAt && r.lockedBy == was.lockedBy && r.specs == was.specs && r.members == was.members
      && r.projectId == was.projectId
  {
  }

  /** Field by field, what a refresh of the evidence beside an approval leaves on file. */
  lemma RefreshSays(r: Record, gate: Gate, captured: Payload, members: map<Alias, Pin>, running: nat)
    ensures
      var once := Refreshed(r, gate, captured, members, running);
      && once.stateId == r.stateId && once.lockedAt == r.lockedAt && once.lockedBy == r.lockedBy && once.specs == r.specs
      && once.projectId == r.projectId && once.restamped == r.restamped
      && once.counts == gate.design && once.code == (if gate.code.Some? then gate.code else r.code)
      && once.members == (if r.members.Some? && (exists a | a in members && a in r.members.value :: StateOf(r.members.value[a]) != StateOf(members[a]))
                          then Some(members) else r.members)
      && once.validatorVersion
         == (if r.validatorVersion.None? || r.validatorVersion.value > running then Some(running) else r.validatorVersion)
      && once.gateParts == (if r.stateId == IdentityOf(captured) && UsableParts(r, captured).None? then Some(PartsOf(captured)) else r.gateParts)
  {
  }

  /** The projects below a root are those whose path of aliases goes on from its own. */
  lemma BelowIff(k: Key, j: Key)
    ensures Below(k, j) <==> exists a, rest :: j == k + [a] + rest
  {
    if Below(k, j) { assert j == k + [j[|k|]] + j[|k| + 1..]; }
    if exists a, rest :: j == k + [a] + rest {
      var a, rest :| j == k + [a] + rest;
      assert j[..|k|] == k;
    }
  }

  // --- the check -----------------------------------------------------------------------------------

  /**
   What a check answers, state by state: no tree to check; nothing on record or the tree broken; approved as
   it stands with no drifted member; or on record and anything else. Passing strictly is FamilyTheorems'.
   */
  lemma CheckAnswers(f: Family, w: World, k: Key, strict: bool)
    requires OnDisk(f, k)
    ensures
      var p, state := f[k].value, CheckApproval(f, w, k, strict).state;
      var gone := p.l0 == Missing(false) && !(p.record.Some? && p.record.value.specs.Some? && p.record.value.specs.value != map[]);
      var covered := !p.config.Absent? && StateAt(f, w, k) == Approved && !SomeMember(f, w, k, Drifted);
      && (state == NoTree <==> gone)
      && (state == Locked <==> p.l0 == Readable && covered)
      && (state == Stale <==> p.l0 == Readable && p.record.Some? && !covered)
      && (state == Unlocked <==> !gone && (p.l0 != Readable || p.record.None?))
  {
  }

  /** A record that does not break its identity down is taken for one moved by the release alone exactly when design and subjects are the recorded ones. */
  lemma UnbrokenRecordIsJudged(r: Record, tree: Tree, current: Payload, w: World)
    requires UsableParts(r, current).None?
    ensures ReleaseOf(r, tree, current, w) == NotCarried
       <==> && r.specs.Some? && SameButStorage(r.specs.value, tree)
            && forall a | a in current.members || a in RecordedMembers(r) ::
                 || (a in RecordedMembers(r) && RecordedMembers(r)[a].PartPin?)
                 || (if a in current.members then current.members[a] else NeverLocked)
                    == (if a in RecordedMembers(r) && RecordedMembers(r)[a].subject.Some? then Of(RecordedMembers(r)[a].subject.value) else NeverLocked)
    ensures ReleaseOf(r, tree, current, w) != Carried
  {
  }

  /** And one whose parts are believed: moved by the release alone, it is carried or not; moved otherwise, the release is not the question. */
  lemma BrokenDownRecordIsJudged(r: Record, tree: Tree, current: Payload, w: World)
    requires UsableParts(r, current).Some?
    ensures
      var released := forall n :: Look(r.gateParts.value, n) != PartOf(current, n) <==> n == ReleasePart;
      var clean := r.validatorVersion.Some? && r.validatorVersion.value <= w.version && w.blocking(current) == 0;
      ReleaseOf(r, tree, current, w) == if !released then Unmoved else if clean then Carried else NotCarried
  {
    PartsAreUsableIff(r, current);
    OnlyThisPartMoved(r.gateParts.value, current);
  }
}
