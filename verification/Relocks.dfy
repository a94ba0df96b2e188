/**
 Locking again: an unchanged project's second lock writes nothing, restamps are invisible to the
 rest of the family and come out the same in any order, and a scoped lock leaves the rest as approved.
 */
module Relocks {
  import opened Basics
  import opened ApprovalRecord
  import opened SpecDiff
  import opened Family
  import opened FamilyTheorems

  // --- a second lock -----------------------------------------------------------------------------

  /** Two captures of one approval, at different times: what the first settles on, the second keeps. */
  lemma SettlingTwiceKeeps(onFile: Option<Record>, record: Record, again: Record, gate: Gate, captured: Payload, w: World)
    requires record.stateId == IdentityOf(captured) && record.gateParts == Some(PartsOf(captured)) && record.members.Some?
    requires record.validatorVersion == Some(w.version) && record.counts == gate.design && record.code == gate.code
    requires again == record.(lockedAt := again.lockedAt)
    ensures
      var o := Settle(onFile, record, gate, captured, w);
      Settle(if o.Wrote? then Some(o.record) else onFile, again, gate, captured, w) == Kept
  {
    NothingMovedIff(captured, captured);
    OwnPartsAreUsable(record, captured, captured);
    if onFile.Some? && SameApproval(onFile.value, record) {
      RefreshKeepsTheApproval(onFile.value, record, gate, captured, w.version);
    }
  }

  /** Writing a project's own record moves neither its members nor what it pins of them. */
  lemma WriteMovesNoOwnPins(f: Family, w: World, k: Key, r: Option<Record>)
    requires OnDisk(f, k)
    ensures Aliases(WithRecord(f, k, r), k) == Aliases(f, k)
    ensures forall a | a in Aliases(f, k) :: StateAt(WithRecord(f, k, r), w, k + [a]) == StateAt(f, w, k + [a])
    ensures PinsNow(WithRecord(f, k, r), w, k) == PinsNow(f, w, k)
  {
    var g := WithRecord(f, k, r);
    SameAliases(f, g, k);
    forall a | a in Aliases(f, k)
      ensures StateAt(g, w, k + [a]) == StateAt(f, w, k + [a]) && PinOf(g, w, k + [a]) == PinOf(f, w, k + [a])
    {
      AliasesAreMembers(f, k, a);
      assert !IsParent(k + [a], k);
      WriteMovesNoOtherState(f, w, k, r, k + [a]);
    }
  }

  lemma OwnDiffTouchesNothing(tree: Tree)
    ensures DiffOf(tree, tree).changed == {} && DiffOf(tree, tree).pairs.leftAdded == [] && DiffOf(tree, tree).pairs.leftRemoved == []
  {
    assert tree.Keys - tree.Keys == {};
  }

  /** A record that certifies the captured identity and the tree as it lies lets any scope of the project through. */
  lemma ApprovedTreeIsInScope(p: Project, scope: Scope, captured: Payload)
    requires p.record.Some? && Matches(p.record.value, captured) && p.record.value.specs == Some(p.tree) && !scope.InMember?
    ensures ScopeApprovable(p, scope, captured)
  {
    OwnDiffTouchesNothing(p.tree);
  }

  /** What is on file after an ordinary lock: the captured identity, the tree as it lies, the pins as they stand. */
  lemma OrdinaryLockRecords(f: Family, w: World, k: Key, code: Option<nat>, req: Request)
    requires OnDisk(f, k) && !Restamps(f, w, k, req.scope)
    requires QuietLock(f, w, k, code, req).Kept? || QuietLock(f, w, k, code, req).Wrote?
    ensures
      var captured := PayloadAt(f, w, k);
      var after := After(f, k, QuietLock(f, w, k, code, req))[k].value;
      && after.record.Some? && Matches(after.record.value, captured) && after.record.value.specs == Some(after.tree)
      && req.confirmed && !req.scope.InMember? && Approvable(f, w, k) && w.judge(captured).errors == 0 && Lockable(f, k)
  {
  }

  /** A lock that reaches the end settles the record on file against the new one. */
  lemma QuietLockSettles(g: Family, w: World, k: Key, code: Option<nat>, req: Request)
    requires OnDisk(g, k) && Lockable(g, k) && w.judge(PayloadAt(g, w, k)).errors == 0
    requires ScopeApprovable(g[k].value, req.scope, PayloadAt(g, w, k)) && !Restamps(g, w, k, req.scope)
    requires Approvable(g, w, k) && req.confirmed
    ensures
      var gate := Gate(w.judge(PayloadAt(g, w, k)), code);
      QuietLock(g, w, k, code, req)
      == Settle(g[k].value.record,
                NewRecord(PayloadAt(g, w, k), gate, w, req, ProjectIdOf(g[k].value.config), g[k].value.tree, PinsNow(g, w, k)),
                gate, PayloadAt(g, w, k), w)
  {
  }

  /** Whatever an ordinary lock left behind, the next one finds everything in place. */
  lemma NextLockReachesTheEnd(f: Family, w: World, k: Key, code: Option<nat>, req: Request, again: Request)
    requires OnDisk(f, k) && !Restamps(f, w, k, req.scope)
    requires QuietLock(f, w, k, code, req).Kept? || QuietLock(f, w, k, code, req).Wrote?
    requires again.confirmed && !again.scope.InMember?
    ensures
      var g := After(f, k, QuietLock(f, w, k, code, req));
      && OnDisk(g, k) && PayloadAt(g, w, k) == PayloadAt(f, w, k) && PinsNow(g, w, k) == PinsNow(f, w, k)
      && g[k].value.(record := None) == f[k].value.(record := None)
      && Lockable(g, k) && w.judge(PayloadAt(g, w, k)).errors == 0 && ScopeApprovable(g[k].value, again.scope, PayloadAt(g, w, k))
      && !Restamps(g, w, k, again.scope) && Approvable(g, w, k)
  {
    var o := QuietLock(f, w, k, code, req);
    var g := After(f, k, o);
    OrdinaryLockRecords(f, w, k, code, req);
    LockMovesNotItself(f, w, k, o);
    LockTouchesOneRecord(f, w, k, code, req);
    if o.Wrote? { WriteMovesNoOwnPins(f, w, k, Some(o.record)); }
    SameButRecord(f[k].value, g[k].value);
    ApprovedTreeIsInScope(g[k].value, again.scope, PayloadAt(g, w, k));
  }

  lemma SameButRecord(p: Project, q: Project)
    requires p.(record := None) == q.(record := None)
    ensures p.l0 == q.l0 && p.tree == q.tree && p.below == q.below && p.config == q.config && p.parts == q.parts
    ensures p.unpinned == q.unpinned && p.unrecorded == q.unrecorded && p.unloadable == q.unloadable
  {
    var a, b := p.(record := None), q.(record := None);
    assert a.l0 == b.l0 && a.tree == b.tree && a.below == b.below && a.config == b.config && a.parts == b.parts;
    assert a.unpinned == b.unpinned && a.unrecorded == b.unrecorded && a.unloadable == b.unloadable;
  }

  /**
   Idempotence. Locking an unchanged project again, at any later time and over any scope of it, with
   the same approver and the same code results, writes nothing.
   */
  lemma RelockWritesNothing(f: Family, w: World, k: Key, code: Option<nat>, req: Request, again: Request)
    requires OnDisk(f, k) && !Restamps(f, w, k, req.scope)
    requires QuietLock(f, w, k, code, req).Kept? || QuietLock(f, w, k, code, req).Wrote?
    requires again.who == req.who && again.confirmed && !again.scope.InMember?
    ensures QuietLock(After(f, k, QuietLock(f, w, k, code, req)), w, k, code, again) == Kept
  {
    var o := QuietLock(f, w, k, code, req);
    var g := After(f, k, o);
    var captured := PayloadAt(f, w, k);
    var gate := Gate(w.judge(captured), code);
    NextLockReachesTheEnd(f, w, k, code, req, again);
    SameButRecord(f[k].value, g[k].value);
    QuietLockSettles(g, w, k, code, again);
    var id, tree, pins := ProjectIdOf(f[k].value.config), f[k].value.tree, PinsNow(f, w, k);
    SettlingTwiceKeeps(f[k].value.record, NewRecord(captured, gate, w, req, id, tree, pins),
                       NewRecord(captured, gate, w, again, id, tree, pins), gate, captured, w);
    OrdinaryLockRecords(f, w, k, code, req);
    QuietLockSettles(f, w, k, code, req) by { ScopePassed(f, w, k, code, req); }
  }

  lemma ScopePassed(f: Family, w: World, k: Key, code: Option<nat>, req: Request)
    requires OnDisk(f, k)
    requires QuietLock(f, w, k, code, req).Kept? || QuietLock(f, w, k, code, req).Wrote?
    ensures ScopeApprovable(f[k].value, req.scope, PayloadAt(f, w, k))
  {
  }

  /** Two approvals are one, field by field: what a human would have to have decided again. */
  ghost predicate DecidedAlready(onFile: Record, f: Family, w: World, k: Key, who: nat)
    requires OnDisk(f, k)
  {
    onFile.stateId == IdentityOf(PayloadAt(f, w, k)) && DecidedBesideIdentity(onFile, f, w, k, who)
  }

  /** The approver, the digests of the specs as stored, the pins and the project id are all the ones on file. */
  ghost predicate DecidedBesideIdentity(onFile: Record, f: Family, w: World, k: Key, who: nat)
    requires OnDisk(f, k)
  {
    var p, pins := f[k].value, PinsNow(f, w, k);
    && onFile.specs == Some(p.tree) && onFile.projectId == ProjectIdOf(p.config) && onFile.lockedBy == who
    && onFile.members.Some? && onFile.members.value.Keys == pins.Keys
    && forall a | a in pins :: PinWithoutState(onFile.members.value[a]) == PinWithoutState(pins[a])
  }

  lemma SameApprovalIsDecidedAlready(onFile: Record, f: Family, w: World, k: Key, gate: Gate, req: Request)
    requires OnDisk(f, k)
    ensures
      var record := NewRecord(PayloadAt(f, w, k), gate, w, req, ProjectIdOf(f[k].value.config), f[k].value.tree, PinsNow(f, w, k));
      SameApproval(onFile, record) <==> DecidedAlready(onFile, f, w, k, req.who)
  {
    var pins := PinsNow(f, w, k);
    if onFile.members.Some? {
      var a, b := MembersWithoutState(onFile.members.value), MembersWithoutState(pins);
      assert a.Keys == onFile.members.value.Keys && b.Keys == pins.Keys;
      if a == b {
        forall x | x in pins ensures PinWithoutState(onFile.members.value[x]) == PinWithoutState(pins[x]) {
          assert a[x] == b[x];
        }
      }
    }
  }

  /**
   When an ordinary lock is a new approval: the record keeps its time exactly when identity, spec digests,
   pins, project id and approver are all the ones on file; a change of any one of them is dated anew.
   */
  lemma LockedAtIsKeptIff(f: Family, w: World, k: Key, code: Option<nat>, req: Request)
    requires OnDisk(f, k) && f[k].value.record.Some? && !Restamps(f, w, k, req.scope)
    requires QuietLock(f, w, k, code, req).Kept? || QuietLock(f, w, k, code, req).Wrote?
    requires req.at != f[k].value.record.value.lockedAt
    ensures
      var onFile := f[k].value.record.value;
      After(f, k, QuietLock(f, w, k, code, req))[k].value.record.value.lockedAt == onFile.lockedAt
      <==> DecidedAlready(onFile, f, w, k, req.who)
  {
    OrdinaryLockRecords(f, w, k, code, req);
    ScopePassed(f, w, k, code, req);
    QuietLockSettles(f, w, k, code, req);
    SameApprovalIsDecidedAlready(f[k].value.record.value, f, w, k, Gate(w.judge(PayloadAt(f, w, k)), code), req);
  }

  // --- restamps ----------------------------------------------------------------------------------------

  /** A restamp keeps what a human decided: the subject, the time, the approver, the specs, the pins and the id. */
  lemma RestampKeepsTheApproval(onFile: Record, captured: Payload, gate: Gate, w: World, at: nat)
    ensures
      var r := RestampedRecord(onFile, captured, gate, w, at);
      && ApprovalSubject(r) == ApprovalSubject(onFile)
      && r.lockedAt == onFile.lockedAt && r.lockedBy == onFile.lockedBy && r.specs == onFile.specs
      && r.members == onFile.members && r.projectId == onFile.projectId
  {
  }

  /** A restamp sees no member move: none joined or left, and each stands, state and subject, as the record pinned it. */
  lemma RestampSeesNoMemberMove(f: Family, w: World, k: Key, a: Alias)
    requires OnDisk(f, k) && Restamps(f, w, k, WholeTree)
    ensures
      var r := f[k].value.record.value;
      && (a in RecordedMembers(r) <==> a in Aliases(f, k) || a in f[k].value.parts)
      && (a in Aliases(f, k) && a !in f[k].value.parts ==>
            && PinnedSubject(r, a) == SubjectAt(f, k + [a])
            && StateOf(RecordedMembers(r)[a]) == StateAt(f, w, k + [a]))
  {
    var r := f[k].value.record.value;
    if a in Aliases(f, k) && a !in f[k].value.parts {
      assert a in RecordedMembers(r);
      assert PinHolds(RecordedMembers(r)[a], PinOf(f, w, k + [a]));
    }
  }

  /** A lock here, now, would refresh the release stamp and nothing else. */
  ghost predicate CarriedHere(f: Family, w: World, k: Key) {
    OnDisk(f, k) && Lockable(f, k) && w.judge(PayloadAt(f, w, k)).errors == 0 && Restamps(f, w, k, WholeTree)
  }

  function RestampOf(f: Family, w: World, k: Key, code: Option<nat>, at: nat): Record
    requires OnDisk(f, k) && f[k].value.record.Some?
  {
    var captured := PayloadAt(f, w, k);
    RestampedRecord(f[k].value.record.value, captured, Gate(w.judge(captured), code), w, at)
  }

  function Restamped(f: Family, w: World, k: Key, code: Option<nat>, at: nat): Family
    requires OnDisk(f, k) && f[k].value.record.Some?
  {
    WithRecord(f, k, Some(RestampOf(f, w, k, code, at)))
  }

  lemma CarriedLockRestamps(f: Family, w: World, k: Key, code: Option<nat>, req: Request)
    requires CarriedHere(f, w, k) && req.scope == WholeTree
    ensures QuietLock(f, w, k, code, req) == Wrote(RestampOf(f, w, k, code, req.at))
    ensures After(f, k, QuietLock(f, w, k, code, req)) == Restamped(f, w, k, code, req.at)
  {
  }

  /** A restamp moves nobody's identity, nobody's subject and nobody's state: not even its parent's, nor its own. */
  lemma RestampIsInvisible(f: Family, w: World, k: Key, code: Option<nat>, at: nat, j: Key)
    requires CarriedHere(f, w, k)
    ensures
      var g := Restamped(f, w, k, code, at);
      && SubjectAt(g, j) == SubjectAt(f, j) && StateAt(g, w, j) == StateAt(f, w, j)
      && (OnDisk(f, j) ==> OnDisk(g, j) && PayloadAt(g, w, j) == PayloadAt(f, w, j))
  {
    var r := RestampOf(f, w, k, code, at);
    var g := Restamped(f, w, k, code, at);
    RestampKeepsTheApproval(f[k].value.record.value, PayloadAt(f, w, k), Gate(w.judge(PayloadAt(f, w, k)), code), w, at);
    assert SubjectOf(g[k]) == SubjectAt(f, k);
    if OnDisk(f, j) { WriteIsLocal(f, w, k, Some(r), j); }
    if j == k {
      assert Matches(r, PayloadAt(g, w, k));
    } else {
      WriteMovesNoOtherState(f, w, k, Some(r), j);
    }
  }

  lemma RestampMovesNoPin(f: Family, w: World, k: Key, code: Option<nat>, at: nat, j: Key)
    requires CarriedHere(f, w, k)
    ensures PinOf(Restamped(f, w, k, code, at), w, j) == PinOf(f, w, j)
  {
    RestampIsInvisible(f, w, k, code, at, j);
    var g := Restamped(f, w, k, code, at);
    assert OnDisk(g, j) <==> OnDisk(f, j);
    assert OnDisk(f, j) ==> g[j].value.config == f[j].value.config;
  }

  lemma PinsAgree(f: Family, g: Family, w: World, j: Key)
    requires OnDisk(f, j) && OnDisk(g, j) && Aliases(g, j) == Aliases(f, j) && f[j].value.parts == g[j].value.parts
    requires forall a | a in Aliases(f, j) :: PinOf(g, w, j + [a]) == PinOf(f, w, j + [a])
    ensures PinsNow(g, w, j) == PinsNow(f, w, j)
  {
    assert PinsNow(g, w, j).Keys == PinsNow(f, w, j).Keys;
  }

  lemma RestampKeepsParts(f: Family, w: World, k: Key, code: Option<nat>, at: nat, j: Key)
    requires CarriedHere(f, w, k) && OnDisk(f, j)
    ensures
      var g := Restamped(f, w, k, code, at);
      OnDisk(g, j) && g[j].value.parts == f[j].value.parts && g.Keys == f.Keys
  {
  }

  lemma RestampMovesNoPins(f: Family, w: World, k: Key, code: Option<nat>, at: nat, j: Key)
    requires CarriedHere(f, w, k) && OnDisk(f, j)
    ensures
      var g := Restamped(f, w, k, code, at);
      OnDisk(g, j) && Aliases(g, j) == Aliases(f, j) && PinsNow(g, w, j) == PinsNow(f, w, j)
  {
    var g := Restamped(f, w, k, code, at);
    RestampKeepsParts(f, w, k, code, at, j);
    SameAliases(f, g, j);
    forall a | a in Aliases(f, j) ensures PinOf(g, w, j + [a]) == PinOf(f, w, j + [a]) {
      RestampMovesNoPin(f, w, k, code, at, j + [a]);
    }
    PinsAgree(f, g, w, j);
  }

  /** What a restamp leaves on file has no evidence left to refresh. */
  lemma RestampNeedsNoRefresh(onFile: Record, captured: Payload, gate: Gate, w: World, at: nat, pins: map<Alias, Pin>)
    requires MembersAsPinned(onFile, pins)
    ensures
      var r := RestampedRecord(onFile, captured, gate, w, at);
      Refreshed(r, gate, captured, pins, w.version) == r
  {
    var r := RestampedRecord(onFile, captured, gate, w, at);
    OwnPartsAreUsable(r, captured, captured);
    if r.members.Some? {
      forall a | a in pins && a in r.members.value ensures StateOf(r.members.value[a]) == StateOf(pins[a]) {
        assert PinHolds(RecordedMembers(onFile)[a], pins[a]);
      }
    }
  }

  /** After a restamp the project stands where an ordinary lock would find it: carried no more, and as approvable as before. */
  lemma RestampedReachesTheEnd(f: Family, w: World, k: Key, code: Option<nat>, at: nat)
    requires CarriedHere(f, w, k) && Approvable(f, w, k)
    ensures
      var g := Restamped(f, w, k, code, at);
      && OnDisk(g, k) && PayloadAt(g, w, k) == PayloadAt(f, w, k) && PinsNow(g, w, k) == PinsNow(f, w, k)
      && Lockable(g, k) && !Restamps(g, w, k, WholeTree) && Approvable(g, w, k)
  {
    var g := Restamped(f, w, k, code, at);
    RestampIsInvisible(f, w, k, code, at, k);
    RestampMovesNoPins(f, w, k, code, at, k);
    forall a | a in Aliases(f, k) ensures StateAt(g, w, k + [a]) == StateAt(f, w, k + [a]) {
      RestampIsInvisible(f, w, k, code, at, k + [a]);
    }
    assert Matches(g[k].value.record.value, PayloadAt(g, w, k));
  }

  /**
   The lock after a restamp, exactly: it writes nothing if and only if the approver, the digests of the specs
   as they are stored, the pins and the project id are all the ones on file; else it records a new approval.
   */
  lemma RelockAfterARestampKeepsIff(f: Family, w: World, k: Key, code: Option<nat>, req: Request, again: Request)
    requires CarriedHere(f, w, k) && req.scope == WholeTree && Approvable(f, w, k)
    requires again.confirmed && again.scope == WholeTree
    ensures
      var o := QuietLock(After(f, k, QuietLock(f, w, k, code, req)), w, k, code, again);
      && (o == Kept <==> DecidedBesideIdentity(f[k].value.record.value, f, w, k, again.who))
      && (o == Kept || o.Wrote?)
  {
    CarriedLockRestamps(f, w, k, code, req);
    RestampedReachesTheEnd(f, w, k, code, req.at);
    var g, captured, pins := Restamped(f, w, k, code, req.at), PayloadAt(f, w, k), PinsNow(f, w, k);
    var gate, r := Gate(w.judge(captured), code), RestampOf(f, w, k, code, req.at);
    QuietLockSettles(g, w, k, code, again);
    SameApprovalIsDecidedAlready(r, g, w, k, gate, again);
    RestampNeedsNoRefresh(f[k].value.record.value, captured, gate, w, req.at, pins);
  }

  /** Restamping one project leaves every other carried project carried, with the same restamp to come. */
  lemma OthersStayCarried(f: Family, w: World, k: Key, code: Option<nat>, at: nat, j: Key, at2: nat)
    requires CarriedHere(f, w, k) && CarriedHere(f, w, j) && j != k
    ensures
      var g := Restamped(f, w, k, code, at);
      CarriedHere(g, w, j) && RestampOf(g, w, j, code, at2) == RestampOf(f, w, j, code, at2)
  {
    RestampIsInvisible(f, w, k, code, at, j);
    RestampMovesNoPins(f, w, k, code, at, j);
  }

  /** Two restamps commute. */
  lemma RestampsCommute(f: Family, w: World, j: Key, k: Key, code: Option<nat>, atJ: nat, atK: nat)
    requires CarriedHere(f, w, j) && CarriedHere(f, w, k) && j != k
    ensures Restamped(Restamped(f, w, j, code, atJ), w, k, code, atK) == Restamped(Restamped(f, w, k, code, atK), w, j, code, atJ)
  {
    OthersStayCarried(f, w, j, code, atJ, k, atK);
    OthersStayCarried(f, w, k, code, atK, j, atJ);
    assert f[j := Some(f[j].value.(record := Some(RestampOf(f, w, j, code, atJ))))][k := Some(f[k].value.(record := Some(RestampOf(f, w, k, code, atK))))]
        == f[k := Some(f[k].value.(record := Some(RestampOf(f, w, k, code, atK))))][j := Some(f[j].value.(record := Some(RestampOf(f, w, j, code, atJ))))];
  }

  function RestampedSlot(f: Family, w: World, k: Key, code: Option<nat>, at: nat): Option<Project> {
    if OnDisk(f, k) && f[k].value.record.Some? then Some(f[k].value.(record := Some(RestampOf(f, w, k, code, at)))) else None
  }

  /** The family with exactly these projects restamped, each as the family stood at the start. */
  function AllRestamped(f: Family, w: World, ks: seq<Key>, code: Option<nat>, at: nat): Family {
    map k | k in f :: if k in ks then RestampedSlot(f, w, k, code, at) else f[k]
  }

  ghost predicate Distinct(ks: seq<Key>) {
    forall i, j | 0 <= i < j < |ks| :: ks[i] != ks[j]
  }

  /** Nobody in the family can tell `g` from `f`: every identity, subject and state is the same. */
  ghost predicate LooksAlike(f: Family, g: Family, w: World) {
    && (forall j :: SubjectAt(g, j) == SubjectAt(f, j))
    && (forall j :: StateAt(g, w, j) == StateAt(f, w, j))
    && (forall j | OnDisk(f, j) :: OnDisk(g, j) && PayloadAt(g, w, j) == PayloadAt(f, w, j))
  }

  /** The projects still to be restamped are carried as they were, with the same restamp to come. */
  ghost predicate StillCarried(f: Family, g: Family, w: World, ks: seq<Key>, code: Option<nat>, at: nat) {
    forall j | CarriedHere(f, w, j) && j !in ks ::
      CarriedHere(g, w, j) && g[j] == f[j] && RestampOf(g, w, j, code, at) == RestampOf(f, w, j, code, at)
  }

  lemma OneMoreAlike(f: Family, before: Family, w: World, last: Key, code: Option<nat>, at: nat)
    requires LooksAlike(f, before, w) && CarriedHere(before, w, last)
    ensures LooksAlike(f, Restamped(before, w, last, code, at), w)
  {
    var g := Restamped(before, w, last, code, at);
    forall j
      ensures SubjectAt(g, j) == SubjectAt(f, j) && StateAt(g, w, j) == StateAt(f, w, j)
      ensures OnDisk(f, j) ==> OnDisk(g, j) && PayloadAt(g, w, j) == PayloadAt(f, w, j)
    {
      RestampIsInvisible(before, w, last, code, at, j);
    }
  }

  lemma OneLessCarried(f: Family, before: Family, w: World, front: seq<Key>, last: Key, code: Option<nat>, at: nat)
    requires StillCarried(f, before, w, front, code, at) && CarriedHere(before, w, last)
    ensures StillCarried(f, Restamped(before, w, last, code, at), w, front + [last], code, at)
  {
    forall j | CarriedHere(f, w, j) && j !in front + [last]
      ensures
        var g := Restamped(before, w, last, code, at);
        CarriedHere(g, w, j) && g[j] == f[j] && RestampOf(g, w, j, code, at) == RestampOf(f, w, j, code, at)
    {
      assert j !in front && j != last;
      OthersStayCarried(before, w, last, code, at, j, at);
    }
  }

  lemma OneMoreStamp(f: Family, w: World, front: seq<Key>, last: Key, code: Option<nat>, at: nat)
    requires CarriedHere(f, w, last) && last !in front
    requires
      var before := AllRestamped(f, w, front, code, at);
      CarriedHere(before, w, last) && before[last] == f[last] && RestampOf(before, w, last, code, at) == RestampOf(f, w, last, code, at)
    ensures Restamped(AllRestamped(f, w, front, code, at), w, last, code, at) == AllRestamped(f, w, front + [last], code, at)
  {
  }

  lemma StepDown(f: Family, w: World, ks: seq<Key>, front: seq<Key>, last: Key, code: Option<nat>, req: Request)
    requires ks == front + [last] && AllOnDisk(f, ks) && AllOnDisk(f, front)
    requires req.scope == WholeTree && CarriedHere(LockAll(f, w, front, code, req), w, last)
    ensures LockAll(f, w, ks, code, req) == Restamped(LockAll(f, w, front, code, req), w, last, code, req.at)
  {
    assert ks[..|ks| - 1] == front;
    CarriedLockRestamps(LockAll(f, w, front, code, req), w, last, code, req);
  }

  /**
   Any number of carried restamps, in any order: running `wairon lock` once at each of these projects
   gives the family with exactly those stamps refreshed, so the order does not matter, and every
   subject, state and identity in the family is what it was.
   */
  lemma {:induction false} RestampsInAnyOrder(f: Family, w: World, ks: seq<Key>, code: Option<nat>, req: Request)
    requires Distinct(ks) && AllOnDisk(f, ks) && (forall k | k in ks :: CarriedHere(f, w, k)) && req.scope == WholeTree
    ensures LockAll(f, w, ks, code, req) == AllRestamped(f, w, ks, code, req.at)
    ensures LooksAlike(f, LockAll(f, w, ks, code, req), w)
    ensures StillCarried(f, LockAll(f, w, ks, code, req), w, ks, code, req.at)
  {
    if ks == [] {
      assert AllRestamped(f, w, ks, code, req.at) == f;
    } else {
      var front, last := ks[..|ks| - 1], ks[|ks| - 1];
      assert ks == front + [last];
      assert forall k | k in front :: k in ks;
      assert forall i | 0 <= i < |front| :: ks[i] != ks[|ks| - 1];
      RestampsInAnyOrder(f, w, front, code, req);
      var before := LockAll(f, w, front, code, req);
      assert last in ks && last !in front;
      StepDown(f, w, ks, front, last, code, req);
      OneMoreAlike(f, before, w, last, code, req.at);
      OneLessCarried(f, before, w, front, last, code, req.at);
      OneMoreStamp(f, w, front, last, code, req.at);
    }
  }

  /** A carried project that owes nothing beside its identity. */
  ghost predicate CarriedInFull(f: Family, w: World, k: Key) {
    CarriedHere(f, w, k) && !Owed(f[k].value, f[k].value.record.value)
  }

  /** Once every project of a family that owes nothing has been restamped, its root checks as locked, strictly. */
  lemma RestampedFamilyChecksAsLocked(f: Family, w: World, ks: seq<Key>, code: Option<nat>, req: Request, root: Key)
    requires Distinct(ks) && (forall k :: k in ks <==> k in f) && (forall k | k in f :: CarriedInFull(f, w, k)) && req.scope == WholeTree
    requires root in f
    ensures AllOnDisk(f, ks) && OnDisk(LockAll(f, w, ks, code, req), root)
    ensures CheckApproval(LockAll(f, w, ks, code, req), w, root, true) == Check(Locked, true)
    ensures LockState(LockAll(f, w, ks, code, req)[root].value, PayloadAt(LockAll(f, w, ks, code, req), w, root)) == Locked
  {
    forall k | k in ks ensures OnDisk(f, k) && CarriedHere(f, w, k) {
      assert CarriedInFull(f, w, k);
    }
    RestampsInAnyOrder(f, w, ks, code, req);
    var g := LockAll(f, w, ks, code, req);
    assert CarriedInFull(f, w, root);
    forall j | j in g ensures StateAt(g, w, j) == Approved {
      assert CarriedInFull(f, w, j);
    }
    RootIsStamped(f, w, ks, code, req.at, root);
    StrictMeansTheWholeFamily(g, w, root);
    StrictLockedState(g, w, root);
  }

  lemma RootIsStamped(f: Family, w: World, ks: seq<Key>, code: Option<nat>, at: nat, root: Key)
    requires root in ks && CarriedHere(f, w, root)
    ensures
      var g := AllRestamped(f, w, ks, code, at);
      && OnDisk(g, root) && g[root].value.record.Some? && g[root].value.record.value.stateId == IdentityOf(PayloadAt(f, w, root))
      && g[root].value.l0 == Readable && g[root].value.config.Parsed?
  {
  }

  lemma StrictLockedState(g: Family, w: World, root: Key)
    requires OnDisk(g, root) && g[root].value.l0 == Readable && CheckApproval(g, w, root, true).approved
    ensures CheckApproval(g, w, root, true).state == Locked
  {
  }

  // --- scoped locks -----------------------------------------------------------------------------------------

  /**
   A scoped lock conserves the rest. Where it records an approval, every spec path outside its scope
   that did not merely move holds the digest the previous record held, and no gate part but the
   design differs from the previous record's.
   */
  lemma ScopedLockConservesTheRest(f: Family, w: World, k: Key, code: Option<nat>, req: Request, p: SpecPath)
    requires OnDisk(f, k) && req.scope.Subsystem? && p !in req.scope.paths
    requires QuietLock(f, w, k, code, req).Kept? || QuietLock(f, w, k, code, req).Wrote?
    ensures
      var previous := f[k].value.record;
      var after := After(f, k, QuietLock(f, w, k, code, req))[k].value.record;
      && previous.Some? && previous.value.specs.Some? && after.Some? && after.value.specs.Some?
      && var d := DiffOf(previous.value.specs.value, f[k].value.tree);
      && (p !in d.pairs.movedFrom && p !in d.pairs.movedTo ==> Look(after.value.specs.value, p) == Look(previous.value.specs.value, p))
      && (previous.value.stateId == after.value.stateId
          || (previous.value.gateParts.Some? && MovedParts(previous.value.gateParts.value, PartsOf(PayloadAt(f, w, k))) <= {DesignPart}))
  {
    OrdinaryLockRecords(f, w, k, code, req);
    ScopePassed(f, w, k, code, req);
    var d := DiffOf(f[k].value.record.value.specs.value, f[k].value.tree);
    if p !in d.pairs.movedFrom && p !in d.pairs.movedTo {
      UntouchedIsAsApproved(f[k].value.record.value.specs.value, f[k].value.tree, p);
    }
    LockTouchesOneRecord(f, w, k, code, req);
  }

  /**
   When a scoped lock may go ahead, on a record that breaks down its own identity: exactly when nothing but
   the design moved, and every path changed, added or removed lies in the scope.
   */
  lemma ScopedLockPassesIff(project: Project, paths: set<SpecPath>, captured: Payload, p: Payload)
    requires project.record.Some? && project.record.value.specs.Some?
    requires project.record.value.stateId == IdentityOf(p) && project.record.value.gateParts == Some(PartsOf(p))
    ensures ScopeApprovable(project, Subsystem(paths), captured)
       <==> && captured == p.(design := captured.design)
            && forall q | q !in paths :: !DiffOf(project.record.value.specs.value, project.tree).Touches(q)
  {
    OwnPartsAreUsable(project.record.value, p, captured);
    OnlyDesignMovedIff(p, captured);
    var d := DiffOf(project.record.value.specs.value, project.tree);
    assert (forall q | q !in paths :: !d.Touches(q))
      <==> d.changed <= paths && (forall q | q in d.pairs.leftAdded :: q in paths) && (forall q | q in d.pairs.leftRemoved :: q in paths) by {
      forall q ensures d.Touches(q) <==> q in d.changed || q in d.pairs.leftAdded || q in d.pairs.leftRemoved {
      }
    }
  }

  /** A first approval is never scoped. */
  lemma FirstApprovalIsWhole(f: Family, w: World, k: Key, code: Option<nat>, req: Request)
    requires OnDisk(f, k) && f[k].value.record == None && !req.scope.WholeTree?
    ensures QuietLock(f, w, k, code, req) == Refused
  {
  }
}
