/**
 Why whole-run soundness needs its hypotheses: two runs of a one-project family in which strict
 lock-check passes over a design no validator ever accepted.
 */
module FamilyRaces {
  import opened Basics
  import opened ApprovalRecord
  import opened SpecDiff
  import opened Family
  import opened FamilyTheorems
  import opened FamilyRuns

  const ROOT: Key := []
  const GOOD := Spec("s", 0)
  const BAD := Spec("s", 1)

  function Project1(spec: Spec, record: Option<Record>): Project {
    Project(Readable, map[0 := spec], true, Parsed(None, 0, None, None), 0, false, {}, false, false, map[], record)
  }

  function Alone(spec: Spec, record: Option<Record>): Family {
    map[ROOT := Some(Project1(spec, record))]
  }

  /** A release that finds an error in every design holding BAD, and nothing in any other. */
  function Strict(version: nat): World {
    World(version, version, (p: Payload) => if BAD in p.design then Counts(false, 1, 0, 0) else Counts(true, 0, 0, 0),
          (p: Payload) => if BAD in p.design then 1 else 0)
  }

  function InputsOf(spec: Spec, release: nat): Payload {
    Payload({spec}, release, Some(0), 0, None, None, {}, map[])
  }

  lemma AlonePayload(spec: Spec, record: Option<Record>, version: nat)
    ensures OnDisk(Alone(spec, record), ROOT) && Aliases(Alone(spec, record), ROOT) == {}
    ensures PayloadAt(Alone(spec, record), Strict(version), ROOT) == InputsOf(spec, version)
    ensures PinsNow(Alone(spec, record), Strict(version), ROOT) == map[]
  {
    var f := Alone(spec, record);
    forall a ensures a !in Aliases(f, ROOT) { AliasesAreMembers(f, ROOT, a); }
    assert Aliases(f, ROOT) == {};
    assert MemberSubjects(f, ROOT) == map[];
    var tree: Tree := map[0 := spec];
    assert tree[0] == spec && tree.Keys == {0};
    assert tree.Values == {spec};
  }

  const YES := Request(WholeTree, true, 7, 1)

  function Locked1(spec: Spec, version: nat): Record {
    Record(IdentityOf(InputsOf(spec, version)), 1, 7, Some(version), Counts(true, 0, 0, 0), None, Some(map[0 := spec]),
           Some(PartsOf(InputsOf(spec, version))), None, Some(map[]), None)
  }

  /** With no race, a first lock of GOOD writes the record that says so; if the project leaves and comes back in between, so does a lock of whatever stood at both ends. */
  lemma FirstLockOutcome(spec: Spec, gate: Gate)
    requires gate == Gate(Counts(true, 0, 0, 0), None)
    ensures
      var f := Alone(spec, None);
      OnDisk(f, ROOT) && LockTree(f, f, f, Strict(1), ROOT, InputsOf(spec, 1), gate, YES) == Wrote(Locked1(spec, 1))
  {
    AlonePayload(spec, None, 1);
  }

  lemma MatchingIsApproved(spec: Spec, r: Record, version: nat)
    requires r.stateId == IdentityOf(InputsOf(spec, version)) && r.projectId == None
    ensures CheckApproval(Alone(spec, Some(r)), Strict(version), ROOT, true).approved
  {
    AlonePayload(spec, Some(r), version);
    var f := Alone(spec, Some(r));
    assert StateAt(f, Strict(version), ROOT) == Approved;
    StrictMeansTheWholeFamily(f, Strict(version), ROOT);
  }

  // --- the identity recurs under an ordinary lock -------------------------------------------------

  function RecurringRun(): Run {
    [Alone(BAD, None), Alone(GOOD, None), Alone(BAD, None), Alone(BAD, Some(Locked1(BAD, 1)))]
  }

  function RecurringEvents(): seq<Event> {
    [Edit, Edit, Lock(Strict(1), ROOT, 0, 1, 2, 2, None, YES)]
  }

  /** Captured, edited, validated, edited back, re-confirmed: the design on record was never the one validated. */
  lemma RecurrenceApprovesTheUnvalidated()
    ensures
      var run := RecurringRun();
      && ValidRun(run, RecurringEvents())
      && CheckApproval(run[3], Strict(1), ROOT, true).approved
      && Strict(1).judge(PayloadAt(run[3], Strict(1), ROOT)).errors > 0
      && !HoldsReviewed(run, RecurringEvents(), 3, ROOT)
  {
    var run := RecurringRun();
    AlonePayload(BAD, None, 1);
    AlonePayload(GOOD, None, 1);
    AlonePayload(BAD, Some(Locked1(BAD, 1)), 1);
    MatchingIsApproved(BAD, Locked1(BAD, 1), 1);
    var e := RecurringEvents()[2];
    assert Phases(run, 2, e);
    assert GateOf(run, 2, e) == Gate(Counts(true, 0, 0, 0), None) by { assert BAD !in {GOOD}; }
    FirstLockOutcome(BAD, GateOf(run, 2, e));
    AloneAfter(BAD, None, Locked1(BAD, 1));
    assert LockStep(run, 2, e);
    assert EditStep(run, 0, run[1]) && EditStep(run, 1, run[2]);
    NoLockReviewedTheRecurring();
  }

  lemma NoLockReviewedTheRecurring()
    ensures !HoldsReviewed(RecurringRun(), RecurringEvents(), 3, ROOT)
  {
    var run, events := RecurringRun(), RecurringEvents();
    forall n: nat ensures !ReviewedBy(run, events, n, ROOT, map[0 := BAD]) {
      if n < |events| && events[n].Lock? {
        assert n == 2;
        AlonePayload(BAD, None, 1);
        AlonePayload(GOOD, None, 1);
        assert InputsOf(BAD, 1).design != InputsOf(GOOD, 1).design;
      }
    }
  }

  // --- the restamp writes what it captured ------------------------------------------------------------

  /** What the racing restamp leaves: the record of GOOD, renamed to BAD under release 2. */
  function Misnamed(): Record {
    RestampedRecord(Locked1(GOOD, 1), InputsOf(BAD, 2), Gate(Counts(true, 0, 0, 0), None), Strict(2), 1)
  }

  function RestampRun(): Run {
    [Alone(GOOD, None), Alone(GOOD, Some(Locked1(GOOD, 1))), Alone(BAD, Some(Locked1(GOOD, 1))), Alone(GOOD, Some(Locked1(GOOD, 1))),
     Alone(GOOD, Some(Misnamed())), Alone(BAD, Some(Misnamed()))]
  }

  function RestampEvents(): seq<Event> {
    [Lock(Strict(1), ROOT, 0, 0, 0, 0, None, YES), Edit, Edit, Lock(Strict(2), ROOT, 2, 3, 3, 3, None, YES), Edit]
  }

  lemma GoodIsCarried()
    ensures
      var f := Alone(GOOD, Some(Locked1(GOOD, 1)));
      OnDisk(f, ROOT) && Restamps(f, Strict(2), ROOT, WholeTree)
  {
    var r := Locked1(GOOD, 1);
    AlonePayload(GOOD, Some(r), 2);
    OwnPartsAreUsable(r, InputsOf(GOOD, 1), InputsOf(GOOD, 2));
    OnlyReleaseMovedIff(InputsOf(GOOD, 1), InputsOf(GOOD, 2));
    assert BAD !in {GOOD};
  }

  /**
   Under a newer release, a restamp that captured an edit later taken back records that edit as
   approved: put the edit again and strict lock-check passes. The ordinary path would have refused.
   */
  lemma RestampApprovesTheUnreviewed()
    ensures
      var run := RestampRun();
      && ValidRun(run, RestampEvents())
      && CheckApproval(run[5], Strict(2), ROOT, true).approved
      && Strict(2).judge(PayloadAt(run[5], Strict(2), ROOT)).errors > 0
      && PayloadAt(run[3], Strict(2), ROOT) != PayloadAt(run[2], Strict(2), ROOT)
      && !HoldsReviewed(run, RestampEvents(), 5, ROOT)
      && !Reviewed(run, RestampEvents(), ROOT, map[0 := BAD], 5)
  {
    var r := Some(Locked1(GOOD, 1));
    RestampRunIsValid();
    AlonePayload(GOOD, r, 2);
    AlonePayload(BAD, r, 2);
    AlonePayload(BAD, Some(Misnamed()), 2);
    MatchingIsApproved(BAD, Misnamed(), 2);
    assert InputsOf(GOOD, 2).design != InputsOf(BAD, 2).design;
    NoLockReviewedTheRestamped();
  }

  lemma NoLockReviewedTheRestamped()
    ensures !HoldsReviewed(RestampRun(), RestampEvents(), 5, ROOT)
    ensures !Reviewed(RestampRun(), RestampEvents(), ROOT, map[0 := BAD], 5)
  {
    var run, events := RestampRun(), RestampEvents();
    var good, bad: Tree := map[0 := GOOD], map[0 := BAD];
    assert GOOD in good.Values && GOOD !in bad.Values by { assert good[0] == GOOD; }
    forall n: nat ensures !ReviewedBy(run, events, n, ROOT, bad) {
      if n < |events| && events[n].Lock? {
        assert n == 0 || n == 3;
        if n == 3 { GoodIsCarried(); } else { assert run[0][ROOT].value.tree == good; }
      }
    }
  }

  lemma RestampRunIsValid()
    ensures ValidRun(RestampRun(), RestampEvents())
  {
    var run, events := RestampRun(), RestampEvents();
    FirstStep();
    RestampStep();
    KeptByEdits();
    assert RecordAt(run[0], ROOT) == None;
    assert NeverAnyLock(run[0]);
    forall i | 0 <= i < |events| ensures if events[i].Edit? then EditStep(run, i, run[i + 1]) else LockStep(run, i, events[i]) {
      assert i == 0 || i == 1 || i == 2 || i == 3 || i == 4;
    }
  }

  lemma AloneAfter(spec: Spec, before: Option<Record>, r: Record)
    ensures
      var f := Alone(spec, before);
      OnDisk(f, ROOT) && After(f, ROOT, Wrote(r)) == Alone(spec, Some(r))
  {
  }

  const FIRST_LOCK := RestampEvents()[0]
  const RACING_LOCK := RestampEvents()[3]
  const CLEAN := Gate(Counts(true, 0, 0, 0), None)

  lemma FirstGate()
    ensures Phases(RestampRun(), 0, FIRST_LOCK) && GateOf(RestampRun(), 0, FIRST_LOCK) == CLEAN
  {
    AlonePayload(GOOD, None, 1);
    assert Phases(RestampRun(), 0, FIRST_LOCK);
    assert BAD !in {GOOD};
  }

  lemma FirstOutcome()
    requires Phases(RestampRun(), 0, FIRST_LOCK) && GateOf(RestampRun(), 0, FIRST_LOCK) == CLEAN
    ensures OutcomeOf(RestampRun(), 0, FIRST_LOCK) == Wrote(Locked1(GOOD, 1))
  {
    AlonePayload(GOOD, None, 1);
    FirstLockOutcome(GOOD, CLEAN);
  }

  lemma FirstStep()
    ensures LockStep(RestampRun(), 0, FIRST_LOCK)
  {
    FirstGate();
    FirstOutcome();
    AloneAfter(GOOD, None, Locked1(GOOD, 1));
  }

  lemma RacingGate()
    ensures Phases(RestampRun(), 3, RACING_LOCK) && GateOf(RestampRun(), 3, RACING_LOCK) == CLEAN
  {
    var r := Some(Locked1(GOOD, 1));
    AlonePayload(GOOD, r, 2);
    AlonePayload(BAD, r, 2);
    assert Phases(RestampRun(), 3, RACING_LOCK);
    assert BAD !in {GOOD};
  }

  lemma RacingOutcome()
    requires Phases(RestampRun(), 3, RACING_LOCK) && GateOf(RestampRun(), 3, RACING_LOCK) == CLEAN
    ensures OutcomeOf(RestampRun(), 3, RACING_LOCK) == Wrote(Misnamed())
  {
    var r := Some(Locked1(GOOD, 1));
    AlonePayload(GOOD, r, 2);
    AlonePayload(BAD, r, 2);
    GoodIsCarried();
  }

  lemma RestampStep()
    ensures LockStep(RestampRun(), 3, RACING_LOCK)
  {
    RacingGate();
    RacingOutcome();
    AloneAfter(GOOD, Some(Locked1(GOOD, 1)), Misnamed());
  }

  lemma KeptByEdits()
    ensures EditStep(RestampRun(), 1, RestampRun()[2]) && EditStep(RestampRun(), 2, RestampRun()[3]) && EditStep(RestampRun(), 4, RestampRun()[5])
  {
    var run := RestampRun();
    var r, m := Some(Locked1(GOOD, 1)), Some(Misnamed());
    assert RecordAt(run[1], ROOT) == r && RecordAt(run[4], ROOT) == m;
    forall k | RecordAt(run[2], k).Some? ensures HeldBefore(run, 1, k, RecordAt(run[2], k)) {
      assert k == ROOT;
    }
    forall k | RecordAt(run[3], k).Some? ensures HeldBefore(run, 2, k, RecordAt(run[3], k)) {
      assert k == ROOT;
    }
    forall k | RecordAt(run[5], k).Some? ensures HeldBefore(run, 4, k, RecordAt(run[5], k)) {
      assert k == ROOT;
    }
  }
}
