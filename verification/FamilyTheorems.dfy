/**
 What the merge gate and the lock promise about a family at rest: what an approved check means,
 what an edit or a lock can move, bottom-up convergence, idempotent re-locks, and restamps that
 commute.
 */
module FamilyTheorems {
  import opened Basics
  import opened ApprovalRecord
  import opened SpecDiff
  import opened Family

  // --- what a check means ----------------------------------------------------------------------

  /** Every project at the root and at every depth below it is approved at its own root. */
  ghost predicate WholeFamilyApproved(f: Family, w: World, k: Key) {
    forall j | j in f && (j == k || Below(k, j)) :: StateAt(f, w, j) == Approved
  }

  lemma MembersAllApproved(f: Family, w: World, k: Key)
    ensures !SomeMember(f, w, k, Drifted) && !SomeMember(f, w, k, Never)
       <==> forall j | j in f && Below(k, j) :: StateAt(f, w, j) == Approved
  {
    if !SomeMember(f, w, k, Drifted) && !SomeMember(f, w, k, Never) {
      forall j | j in f && Below(k, j) ensures StateAt(f, w, j) == Approved {
        assert StateAt(f, w, j) != Drifted && StateAt(f, w, j) != Never;
      }
    }
  }

  /** The own half of a check: with a readable L0, no drifted member and no member never approved, strict passes as the own approval does. */
  lemma OwnHalf(f: Family, w: World, k: Key)
    requires OnDisk(f, k) && f[k].value.l0 == Readable && !SomeMember(f, w, k, Drifted)
    ensures CheckApproval(f, w, k, true).approved
       <==> !f[k].value.config.Absent? && StateAt(f, w, k) == Approved && !SomeMember(f, w, k, Never)
    ensures CheckApproval(f, w, k, false).approved
       <==> StateAt(f, w, k) == Never || (!f[k].value.config.Absent? && StateAt(f, w, k) == Approved)
  {
  }

  /**
   Strict approval at a root means exactly this: its L0 can be read, its configuration file is
   there, and every project of the family, at every depth, is approved at its own root.
   */
  lemma StrictMeansTheWholeFamily(f: Family, w: World, k: Key)
    requires OnDisk(f, k)
    ensures CheckApproval(f, w, k, true).approved
       <==> f[k].value.l0 == Readable && !f[k].value.config.Absent? && WholeFamilyApproved(f, w, k)
  {
    MembersAllApproved(f, w, k);
    if f[k].value.l0 == Readable && !SomeMember(f, w, k, Drifted) {
      OwnHalf(f, w, k);
    }
  }

  /**
   Plain lock-check refuses exactly: a broken or deleted tree, a drifted member at any depth, and an
   own approval that is on record and does not cover the project.
   */
  lemma PlainRefusesExactly(f: Family, w: World, k: Key)
    requires OnDisk(f, k)
    ensures
      var p := f[k].value;
      !CheckApproval(f, w, k, false).approved
      <==> || p.l0 == Unreadable || p.l0 == Missing(true)
           || (p.l0 == Missing(false) && p.record.Some? && p.record.value.specs.Some? && p.record.value.specs.value != map[])
           || (p.l0 == Readable && SomeMember(f, w, k, Drifted))
           || (p.l0 == Readable && p.record.Some? && (p.config.Absent? || StateAt(f, w, k) != Approved))
  {
    if f[k].value.l0 == Readable && !SomeMember(f, w, k, Drifted) {
      OwnHalf(f, w, k);
    }
  }

  /** Whatever passes strict passes plain. */
  lemma StrictImpliesPlain(f: Family, w: World, k: Key)
    requires OnDisk(f, k)
    ensures CheckApproval(f, w, k, true).approved ==> CheckApproval(f, w, k, false).approved
  {
    StrictMeansTheWholeFamily(f, w, k);
    MembersAllApproved(f, w, k);
    if CheckApproval(f, w, k, true).approved { OwnHalf(f, w, k); }
  }

  /** Strict approval at a root holds at every member on disk whose own L0 and configuration file are there. */
  lemma StrictDescends(f: Family, w: World, k: Key, j: Key)
    requires OnDisk(f, k) && OnDisk(f, j) && Below(k, j)
    requires CheckApproval(f, w, k, true).approved
    ensures CheckApproval(f, w, j, true).approved <==> f[j].value.l0 == Readable && !f[j].value.config.Absent?
  {
    StrictMeansTheWholeFamily(f, w, k);
    StrictMeansTheWholeFamily(f, w, j);
    forall i | i in f && (i == j || Below(j, i)) ensures StateAt(f, w, i) == Approved {
      assert i == k || Below(k, i) by {
        if Below(j, i) { assert i[..|k|] == i[..|j|][..|k|]; }
      }
    }
  }

  ghost predicate NeverAnyLock(f: Family) {
    forall k | OnDisk(f, k) :: f[k].value.record == None
  }

  /** Opting in: in a family nobody ever locked, whatever was edited, the plain gate passes wherever the L0 can be read. */
  lemma UnlockedFamiliesPass(f: Family, w: World, k: Key)
    requires OnDisk(f, k) && f[k].value.l0 == Readable && NeverAnyLock(f)
    ensures CheckApproval(f, w, k, false) == Check(Unlocked, true)
  {
    forall j | j in f ensures StateAt(f, w, j) == Never {
      if OnDisk(f, j) { assert f[j].value.record == None; }
    }
  }

  /**
   When a change of the release carries an approval over: of a record that breaks down its own identity,
   exactly when the built-in rules are all that differ, its stamp is a release no newer than this one,
   and this one finds nothing in the design.
   */
  lemma CarriedExactly(r: Record, p: Payload, tree: Tree, current: Payload, w: World)
    requires r.stateId == IdentityOf(p) && r.gateParts == Some(PartsOf(p))
    ensures ReleaseOf(r, tree, current, w) == Carried
       <==> && p.release != current.release && current == p.(release := current.release)
            && r.validatorVersion.Some? && r.validatorVersion.value <= w.version
            && w.blocking(current) == 0
  {
    OwnPartsAreUsable(r, p, current);
    OnlyReleaseMovedIff(p, current);
  }

  /**
   One project's approval, in full. With a record that breaks down its own identity it is approved exactly
   when its inputs are the recorded ones, or differ in the built-in rules alone and re-validate clean under
   a release no older than the stamp; and its id, its pins of externals and its packs are in order.
   */
  lemma ApprovedExactly(f: Family, w: World, k: Key, p: Payload)
    requires OnDisk(f, k) && f[k].value.record.Some?
    requires
      var r := f[k].value.record.value;
      r.stateId == IdentityOf(p) && r.gateParts == Some(PartsOf(p))
    ensures
      var project, r, current := f[k].value, f[k].value.record.value, PayloadAt(f, w, k);
      StateAt(f, w, k) == Approved
      <==> && (|| current == p
               || (current == p.(release := current.release) && r.validatorVersion.Some?
                   && r.validatorVersion.value <= w.version && w.blocking(current) == 0))
           && !(project.config.Parsed? && r.projectId.Some? && project.config.id != r.projectId)
           && !project.unpinned && !project.unrecorded && !project.unloadable
  {
    CarriedExactly(f[k].value.record.value, p, f[k].value.tree, PayloadAt(f, w, k), w);
  }

  // --- what moves an identity -----------------------------------------------------------------------

  /** `g` is `f` with other things edited, but the same projects declared, the same subject for each, and `k` itself untouched. */
  ghost predicate SameFromHere(f: Family, g: Family, k: Key) {
    && f.Keys == g.Keys && OnDisk(f, k) && OnDisk(g, k)
    && f[k].value.(record := None) == g[k].value.(record := None)
    && forall a | k + [a] in f :: SubjectAt(f, k + [a]) == SubjectAt(g, k + [a])
  }

  lemma SameAliases(f: Family, g: Family, k: Key)
    requires f.Keys == g.Keys
    ensures Aliases(f, k) == Aliases(g, k)
  {
    forall a ensures a in Aliases(f, k) <==> a in Aliases(g, k) {
      AliasesAreMembers(f, k, a);
      AliasesAreMembers(g, k, a);
    }
  }

  /** Locality: an identity reads its own project and its direct members' records; no edit anywhere else moves it. */
  lemma IdentityIsLocal(f: Family, g: Family, w: World, k: Key)
    requires SameFromHere(f, g, k)
    ensures PayloadAt(f, w, k) == PayloadAt(g, w, k)
  {
    SameAliases(f, g, k);
    forall a | a in Aliases(f, k) ensures SubjectAt(f, k + [a]) == SubjectAt(g, k + [a]) {
      AliasesAreMembers(f, k, a);
    }
    assert MemberSubjects(f, k) == MemberSubjects(g, k);
  }

  /** Editing a member's whole tree, short of its record, moves no identity but its own. */
  lemma EditsBelowAreInvisible(f: Family, w: World, j: Key, p: Project, k: Key)
    requires OnDisk(f, j) && OnDisk(f, k) && k != j && p.record == f[j].value.record
    ensures PayloadAt(f[j := Some(p)], w, k) == PayloadAt(f, w, k)
  {
    IdentityIsLocal(f, f[j := Some(p)], w, k);
  }

  predicate IsParent(j: Key, k: Key) {
    |k| == |j| + 1 && k[..|j|] == j
  }

  /** A record written at `k` moves no identity but its parent's, and not that one when the subject stays. */
  lemma WriteIsLocal(f: Family, w: World, k: Key, r: Option<Record>, j: Key)
    requires OnDisk(f, k) && OnDisk(f, j)
    requires !IsParent(j, k) || SubjectOf(WithRecord(f, k, r)[k]) == SubjectAt(f, k)
    ensures OnDisk(WithRecord(f, k, r), j)
    ensures PayloadAt(WithRecord(f, k, r), w, j) == PayloadAt(f, w, j)
  {
    var g := WithRecord(f, k, r);
    forall a | j + [a] in f ensures SubjectAt(f, j + [a]) == SubjectAt(g, j + [a]) {
      if j + [a] == k { assert IsParent(j, k); }
    }
    IdentityIsLocal(f, g, w, j);
  }

  /** Likewise for states: only the project written to, and its parent, can change state. */
  lemma WriteMovesNoOtherState(f: Family, w: World, k: Key, r: Option<Record>, j: Key)
    requires OnDisk(f, k) && j != k
    requires !IsParent(j, k) || SubjectOf(WithRecord(f, k, r)[k]) == SubjectAt(f, k)
    ensures StateAt(WithRecord(f, k, r), w, j) == StateAt(f, w, j)
  {
    if OnDisk(f, j) { WriteIsLocal(f, w, k, r, j); }
  }

  /** A lock, whatever its outcome, changes one record and nothing else in the family. */
  lemma LockTouchesOneRecord(f: Family, w: World, k: Key, code: Option<nat>, req: Request)
    requires OnDisk(f, k)
    ensures
      var g := After(f, k, QuietLock(f, w, k, code, req));
      && g.Keys == f.Keys && OnDisk(g, k) && g[k].value.(record := None) == f[k].value.(record := None)
      && forall j | j in f && j != k :: g[j] == f[j]
  {
  }

  // --- bottom-up ------------------------------------------------------------------------------------------

  /** Nothing stands in the way of locking this project once its members are approved, and nothing is owed beside it. */
  ghost predicate Ready(f: Family, w: World, k: Key) {
    && OnDisk(f, k)
    && var p := f[k].value;
    && Lockable(f, k)
    && !p.unpinned && !p.unrecorded && !p.unloadable
    && (p.record.Some? ==> !IdMoved(p.config, p.record.value))
    && forall m :: w.judge(OwnPayload(p, w, m)).errors == 0
  }

  /** Each project once, every member before its parent. */
  ghost predicate BottomUp(f: Family, order: seq<Key>) {
    && (forall k :: k in order <==> k in f)
    && (forall i, j | 0 <= i < j < |order| :: order[i] != order[j])
    && (forall i, a | 0 <= i < |order| && order[i] + [a] in f :: order[i] + [a] in order[..i])
  }

  ghost predicate AllOnDisk(f: Family, order: seq<Key>) {
    forall k | k in order :: OnDisk(f, k)
  }

  /** Locking the projects of `order`, one after another. */
  function LockAll(f: Family, w: World, order: seq<Key>, code: Option<nat>, req: Request): (g: Family)
    requires AllOnDisk(f, order)
    ensures AllOnDisk(g, order) && g.Keys == f.Keys && forall k | OnDisk(f, k) :: OnDisk(g, k)
  {
    if order == [] then f
    else
      var k := order[|order| - 1];
      assert forall j | j in order[..|order| - 1] :: j in order;
      var before := LockAll(f, w, order[..|order| - 1], code, req);
      After(before, k, QuietLock(before, w, k, code, req))
  }

  lemma ReadySurvivesLocks(f: Family, g: Family, w: World, k: Key)
    requires f.Keys == g.Keys && Ready(f, w, k) && g[k] == f[k]
    ensures Ready(g, w, k)
  {
    SameAliases(f, g, k);
  }

  /** A record that certifies the identity as it stands approves a project that owes nothing. */
  lemma MatchingApproves(g: Family, w: World, k: Key)
    requires OnDisk(g, k) && g[k].value.record.Some?
    requires g[k].value.record.value.stateId == IdentityOf(PayloadAt(g, w, k))
    ensures StateAt(g, w, k) == Approved <==> !Owed(g[k].value, g[k].value.record.value)
  {
  }

  /** A record a lock writes or keeps certifies the identity as it stands; an ordinary one names the id as it is, too. */
  lemma LockCertifies(f: Family, w: World, k: Key, code: Option<nat>, req: Request)
    requires OnDisk(f, k) && (QuietLock(f, w, k, code, req).Kept? || QuietLock(f, w, k, code, req).Wrote?)
    ensures
      var after := After(f, k, QuietLock(f, w, k, code, req))[k].value.record;
      && after.Some? && after.value.stateId == IdentityOf(PayloadAt(f, w, k))
      && after.value.projectId == if Restamps(f, w, k, req.scope) then f[k].value.record.value.projectId else ProjectIdOf(f[k].value.config)
  {
  }

  lemma LockMovesNotItself(f: Family, w: World, k: Key, o: Outcome)
    requires OnDisk(f, k)
    ensures OnDisk(After(f, k, o), k) && PayloadAt(After(f, k, o), w, k) == PayloadAt(f, w, k)
  {
    if o.Wrote? { WriteIsLocal(f, w, k, Some(o.record), k); }
  }

  /**
   What one quiet lock leaves behind. A lock that is not refused leaves its project approved, unless
   an id that moved was carried past: a restamp keeps the id on record, so that approval still owes.
   */
  lemma LockLeavesItApproved(f: Family, w: World, k: Key, code: Option<nat>, req: Request)
    requires OnDisk(f, k) && (QuietLock(f, w, k, code, req).Kept? || QuietLock(f, w, k, code, req).Wrote?)
    requires !f[k].value.unpinned && !f[k].value.unrecorded && !f[k].value.unloadable
    ensures
      StateAt(After(f, k, QuietLock(f, w, k, code, req)), w, k) == Approved
      <==> !(Restamps(f, w, k, req.scope) && IdMoved(f[k].value.config, f[k].value.record.value))
  {
    var g := After(f, k, QuietLock(f, w, k, code, req));
    LockCertifies(f, w, k, code, req);
    LockMovesNotItself(f, w, k, QuietLock(f, w, k, code, req));
    LockTouchesOneRecord(f, w, k, code, req);
    MatchingApproves(g, w, k);
    var p, q := f[k].value, g[k].value;
    assert p.(record := None).config == q.(record := None).config;
    assert p.(record := None).unpinned == q.(record := None).unpinned;
    assert p.(record := None).unrecorded == q.(record := None).unrecorded;
    assert p.(record := None).unloadable == q.(record := None).unloadable;
  }

  /** Locking a ready project whose direct members are approved is never refused. */
  lemma ReadyIsNotRefused(f: Family, w: World, k: Key, code: Option<nat>, req: Request)
    requires Ready(f, w, k) && req.scope == WholeTree && req.confirmed
    requires forall a | k + [a] in f :: StateAt(f, w, k + [a]) == Approved
    ensures QuietLock(f, w, k, code, req).Kept? || QuietLock(f, w, k, code, req).Wrote?
  {
    assert w.judge(OwnPayload(f[k].value, w, MemberSubjects(f, k))).errors == 0;
    forall a | a in Aliases(f, k) ensures StateAt(f, w, k + [a]) == Approved {
      AliasesAreMembers(f, k, a);
    }
    assert Approvable(f, w, k);
  }

  /** In a members-first order, what comes later is never a member of what came before. */
  lemma ParentsComeLater(f: Family, order: seq<Key>, i: nat, n: nat)
    requires BottomUp(f, order) && i < n < |order|
    ensures !IsParent(order[i], order[n])
  {
    var j, k := order[i], order[n];
    assert k in order;
    ParentIsOneShorter(j, k);
    assert forall h | 0 <= h < i :: order[h] != k;
    forall a ensures j + [a] != k {
      assert order[i] + [a] in f ==> order[i] + [a] in order[..i];
    }
  }

  lemma ParentIsOneShorter(j: Key, k: Key)
    ensures IsParent(j, k) ==> exists a :: j + [a] == k
  {
    if IsParent(j, k) { assert j + [k[|j|]] == k; }
  }

  /** How far bottom-up locking has got: the first `n` approved, the rest untouched. */
  ghost predicate LockedSoFar(f: Family, g: Family, w: World, order: seq<Key>, n: nat)
    requires n <= |order|
  {
    && f.Keys == g.Keys
    && (forall k | k in order[..n] :: StateAt(g, w, k) == Approved)
    && (forall k | k in f && k !in order[..n] :: g[k] == f[k])
    && (forall k | OnDisk(f, k) :: OnDisk(g, k) && g[k].value.(record := None) == f[k].value.(record := None))
  }

  lemma EarlierStayApproved(f: Family, before: Family, w: World, order: seq<Key>, n: nat, o: Outcome, j: Key)
    requires BottomUp(f, order) && n < |order| && OnDisk(before, order[n])
    requires j in order[..n] && StateAt(before, w, j) == Approved
    ensures StateAt(After(before, order[n], o), w, j) == Approved
  {
    var i :| 0 <= i < n && order[i] == j;
    assert order[i] != order[n];
    ParentsComeLater(f, order, i, n);
    if o.Wrote? { WriteMovesNoOtherState(before, w, order[n], Some(o.record), j); }
  }

  lemma NextIsFresh(f: Family, order: seq<Key>, n: nat)
    requires BottomUp(f, order) && n < |order|
    ensures order[n] in f && order[n] !in order[..n] && order[..n + 1] == order[..n] + [order[n]]
  {
    assert order[n] in order;
    assert forall h | 0 <= h < n :: order[h] != order[n];
  }

  lemma NextLock(f: Family, before: Family, w: World, order: seq<Key>, n: nat, code: Option<nat>, req: Request)
    requires BottomUp(f, order) && n < |order| && (forall k | k in f :: Ready(f, w, k))
    requires LockedSoFar(f, before, w, order, n) && OnDisk(before, order[n])
    requires req.scope == WholeTree && req.confirmed
    ensures
      var o := QuietLock(before, w, order[n], code, req);
      (o.Kept? || o.Wrote?) && StateAt(After(before, order[n], o), w, order[n]) == Approved
  {
    var k := order[n];
    NextIsFresh(f, order, n);
    ReadySurvivesLocks(f, before, w, k);
    forall a | k + [a] in before ensures StateAt(before, w, k + [a]) == Approved {
      assert order[n] + [a] in order[..n];
    }
    ReadyIsNotRefused(before, w, k, code, req);
    LockLeavesItApproved(before, w, k, code, req);
  }

  lemma OneMoreApproved(f: Family, before: Family, w: World, order: seq<Key>, n: nat, o: Outcome)
    requires BottomUp(f, order) && n < |order|
    requires LockedSoFar(f, before, w, order, n) && OnDisk(before, order[n])
    requires StateAt(After(before, order[n], o), w, order[n]) == Approved
    ensures LockedSoFar(f, After(before, order[n], o), w, order, n + 1)
  {
    var g := After(before, order[n], o);
    NextIsFresh(f, order, n);
    forall k | k in order[..n + 1] ensures StateAt(g, w, k) == Approved {
      if k in order[..n] { EarlierStayApproved(f, before, w, order, n, o, k); }
    }
    assert forall k | k in before && k != order[n] :: g[k] == before[k];
  }

  lemma OneMoreLock(f: Family, before: Family, w: World, order: seq<Key>, n: nat, code: Option<nat>, req: Request)
    requires BottomUp(f, order) && n < |order| && (forall k | k in f :: Ready(f, w, k))
    requires LockedSoFar(f, before, w, order, n) && OnDisk(before, order[n])
    requires req.scope == WholeTree && req.confirmed
    ensures
      var o := QuietLock(before, w, order[n], code, req);
      (o.Kept? || o.Wrote?) && LockedSoFar(f, After(before, order[n], o), w, order, n + 1)
  {
    NextLock(f, before, w, order, n, code, req);
    OneMoreApproved(f, before, w, order, n, QuietLock(before, w, order[n], code, req));
  }

  /**
   Bottom-up convergence. In any finite family where every project is ready, locking each project
   once, members before parents, is never refused and leaves the whole family approved.
   */
  lemma {:induction false} BottomUpConverges(f: Family, w: World, order: seq<Key>, n: nat, code: Option<nat>, req: Request)
    requires BottomUp(f, order) && n <= |order| && (forall k | k in f :: Ready(f, w, k)) && AllOnDisk(f, order[..n])
    requires req.scope == WholeTree && req.confirmed
    ensures LockedSoFar(f, LockAll(f, w, order[..n], code, req), w, order, n)
    ensures n > 0 ==>
              && AllOnDisk(f, order[..n - 1])
              && var before := LockAll(f, w, order[..n - 1], code, req);
              && OnDisk(before, order[n - 1])
              && var o := QuietLock(before, w, order[n - 1], code, req);
              o.Kept? || o.Wrote?
  {
    if n > 0 {
      var k := order[n - 1];
      assert order[..n][..n - 1] == order[..n - 1] && order[..n][n - 1] == k;
      assert forall j | j in order[..n - 1] :: j in order[..n];
      BottomUpConverges(f, w, order, n - 1, code, req);
      assert k in order[..n];
      OneMoreLock(f, LockAll(f, w, order[..n - 1], code, req), w, order, n - 1, code, req);
    }
  }

  /** And then strict lock-check passes at the root. */
  lemma BottomUpEndsStrictlyApproved(f: Family, w: World, order: seq<Key>, code: Option<nat>, req: Request, root: Key)
    requires BottomUp(f, order) && (forall k | k in f :: Ready(f, w, k)) && AllOnDisk(f, order)
    requires req.scope == WholeTree && req.confirmed && root in f
    ensures CheckApproval(LockAll(f, w, order, code, req), w, root, true).approved
  {
    var g := LockAll(f, w, order, code, req);
    assert order[..|order|] == order;
    BottomUpConverges(f, w, order, |order|, code, req);
    assert root in order && OnDisk(f, root) && OnDisk(g, root);
    assert f[root].value.(record := None).l0 == g[root].value.(record := None).l0;
    assert f[root].value.(record := None).config == g[root].value.(record := None).config;
    StrictMeansTheWholeFamily(g, w, root);
  }

  // --- such an order always exists --------------------------------------------------------------------------

  lemma {:induction false} HasDeepest(s: set<Key>)
    requires s != {}
    ensures exists k | k in s :: forall j | j in s :: |j| <= |k|
  {
    var k :| k in s;
    if j :| j in s && |j| > |k| {
      var rest := s - {k};
      assert j in rest;
      HasDeepest(rest);
      var d :| d in rest && forall i | i in rest :: |i| <= |d|;
      assert forall i | i in s :: i in rest || i == k;
    }
  }

  ghost function DeepestFirst(s: set<Key>): seq<Key> {
    if s == {} then []
    else
      HasDeepest(s);
      var k :| k in s && forall j | j in s :: |j| <= |k|;
      [k] + DeepestFirst(s - {k})
  }

  lemma {:induction false} DeepestFirstOrders(s: set<Key>)
    ensures forall k :: k in DeepestFirst(s) <==> k in s
    ensures forall i, j | 0 <= i < j < |DeepestFirst(s)| ::
              DeepestFirst(s)[i] != DeepestFirst(s)[j] && |DeepestFirst(s)[j]| <= |DeepestFirst(s)[i]|
  {
    if s != {} {
      HasDeepest(s);
      var k := DeepestFirst(s)[0];
      DeepestFirstOrders(s - {k});
      var rest := DeepestFirst(s - {k});
      assert DeepestFirst(s) == [k] + rest;
      forall j | 0 < j < |DeepestFirst(s)| ensures DeepestFirst(s)[j] != k && |DeepestFirst(s)[j]| <= |k| {
        assert DeepestFirst(s)[j] == rest[j - 1] && rest[j - 1] in rest;
      }
    }
  }

  /** Every family has a members-first order, so bottom-up locking is always possible. */
  lemma EveryFamilyHasABottomUpOrder(f: Family)
    ensures BottomUp(f, DeepestFirst(f.Keys))
  {
    var order := DeepestFirst(f.Keys);
    DeepestFirstOrders(f.Keys);
    forall i, a | 0 <= i < |order| && order[i] + [a] in f ensures order[i] + [a] in order[..i] {
      var h :| 0 <= h < |order| && order[h] == order[i] + [a];
      assert h < i;
      assert order[..i][h] == order[h];
    }
  }
}
