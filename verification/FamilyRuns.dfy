/**
 Whole runs: any number of locks in flight at once over a family that is being edited. A run is the
 sequence of family states; a lock is one write, with the earlier times at which it captured the
 identity, validated, surveyed the members and took the spec digests. Every interleaving is a choice
 of those times.
 */
module FamilyRuns {
  import opened Basics
  import opened ApprovalRecord
  import opened SpecDiff
  import opened Family
  import opened FamilyTheorems

  /** An edit may change anything but invent a lock record; a lock belongs to the release that runs it. */
  datatype Event =
    | Edit
    | Lock(w: World, k: Key, captured: nat, validated: nat, surveyed: nat, digested: nat, code: Option<nat>, req: Request)

  type Run = seq<Family>

  function RecordAt(f: Family, k: Key): Option<Record> {
    if OnDisk(f, k) then f[k].value.record else None
  }

  ghost predicate HeldBefore(run: Run, i: nat, k: Key, r: Option<Record>)
    requires i < |run|
  {
    exists h :: 0 <= h <= i && RecordAt(run[h], k) == r
  }

  /** Records are kept, deleted or restored from version control by an edit, never made up. */
  ghost predicate EditStep(run: Run, i: nat, after: Family)
    requires i < |run|
  {
    forall k | RecordAt(after, k).Some? :: HeldBefore(run, i, k, RecordAt(after, k))
  }

  /** The phases of a lock that writes as event `i`, in order, its project on disk at each. */
  ghost predicate Phases(run: Run, i: nat, e: Event)
    requires i < |run| && e.Lock?
  {
    && e.captured <= e.validated <= e.surveyed <= e.digested <= i
    && OnDisk(run[e.captured], e.k) && OnDisk(run[e.validated], e.k) && OnDisk(run[e.surveyed], e.k)
    && OnDisk(run[e.digested], e.k) && OnDisk(run[i], e.k)
  }

  ghost function GateOf(run: Run, i: nat, e: Event): Gate
    requires i < |run| && e.Lock? && Phases(run, i, e)
  {
    Gate(e.w.judge(PayloadAt(run[e.validated], e.w, e.k)), e.code)
  }

  ghost function OutcomeOf(run: Run, i: nat, e: Event): Outcome
    requires i < |run| && e.Lock? && Phases(run, i, e)
  {
    LockTree(run[e.surveyed], run[e.digested], run[i], e.w, e.k, PayloadAt(run[e.captured], e.w, e.k), GateOf(run, i, e), e.req)
  }

  /** The runner gates on the design half before the adapter is reached. */
  ghost predicate LockStep(run: Run, i: nat, e: Event)
    requires i + 1 < |run| && e.Lock?
  {
    && Phases(run, i, e)
    && GateOf(run, i, e).design.errors == 0
    && run[i + 1] == After(run[i], e.k, OutcomeOf(run, i, e))
  }

  ghost predicate ValidRun(run: Run, events: seq<Event>) {
    && |run| == |events| + 1
    && NeverAnyLock(run[0])
    && forall i | 0 <= i < |events| :: if events[i].Edit? then EditStep(run, i, run[i + 1]) else LockStep(run, i, events[i])
  }

  // --- no identity recurs once left -------------------------------------------------------------------

  /** What the project and its members' records contribute to the identity, whatever the release. */
  ghost function Inputs(f: Family, k: Key): Payload
    requires OnDisk(f, k)
  {
    OwnPayload(f[k].value, World(0, 0, _ => Counts(true, 0, 0, 0), _ => 0), MemberSubjects(f, k))
  }

  lemma InputsOfPayload(f: Family, w: World, k: Key)
    requires OnDisk(f, k)
    ensures Inputs(f, k) == PayloadAt(f, w, k).(release := 0) && PayloadAt(f, w, k) == Inputs(f, k).(release := w.rules)
  {
  }

  lemma InputsDecide(f: Family, g: Family, w: World, k: Key)
    requires OnDisk(f, k) && OnDisk(g, k)
    ensures PayloadAt(f, w, k) == PayloadAt(g, w, k) <==> Inputs(f, k) == Inputs(g, k)
  {
    InputsOfPayload(f, w, k);
    InputsOfPayload(g, w, k);
  }

  ghost predicate NoRecurrence(run: Run) {
    forall a, b, c, k | 0 <= a <= b <= c < |run| && OnDisk(run[a], k) && OnDisk(run[c], k) && Inputs(run[a], k) == Inputs(run[c], k) ::
      OnDisk(run[b], k) && Inputs(run[b], k) == Inputs(run[a], k)
  }

  /** Every restamp refreshes a record that was already on file when it captured the identity. */
  ghost predicate SteadyRestamps(run: Run, events: seq<Event>) {
    forall i | 0 <= i < |events| < |run| && events[i].Lock? && Phases(run, i, events[i]) && RestampsAt(run, i, events[i]) ::
      HeldBefore(run, events[i].captured, events[i].k, RecordAt(run[events[i].surveyed], events[i].k))
  }

  // --- what a record proves ----------------------------------------------------------------------------

  /** This lock took the restamp path. */
  ghost predicate RestampsAt(run: Run, i: nat, e: Event)
    requires i < |run| && e.Lock? && Phases(run, i, e)
  {
    Restamps(run[e.surveyed], e.w, e.k, e.req.scope)
  }

  /**
   The lock that wrote as event `n` reviewed these very spec digests: it was no restamp, the identity it
   captured was the project's when its own release validated it with no error and again when it was
   re-confirmed, the digests it took are that design's, and it wrote them under that identity.
   */
  ghost predicate ReviewedBy(run: Run, events: seq<Event>, n: nat, k: Key, specs: Tree) {
    && n < |events| < |run| && events[n].Lock? && events[n].k == k && Phases(run, n, events[n])
    && var e := events[n];
    && !RestampsAt(run, n, e)
    && GateOf(run, n, e).design.errors == 0
    && PayloadAt(run[e.captured], e.w, k) == PayloadAt(run[e.validated], e.w, k) == PayloadAt(run[n], e.w, k)
    && run[e.digested][k].value.tree == specs && specs.Values == PayloadAt(run[e.validated], e.w, k).design
    && OutcomeOf(run, n, e).Wrote?
    && OutcomeOf(run, n, e).record.specs == Some(specs)
    && OutcomeOf(run, n, e).record.stateId == IdentityOf(PayloadAt(run[e.validated], e.w, k))
  }

  /** Some lock of this project before time `i` reviewed these spec digests. */
  ghost predicate Reviewed(run: Run, events: seq<Event>, k: Key, specs: Tree, i: nat) {
    exists n: nat :: n < i && ReviewedBy(run, events, n, k, specs)
  }

  /** These inputs were once the project's. */
  ghost predicate Stood(run: Run, k: Key, p: Payload, i: nat) {
    exists c :: 0 <= c <= i < |run| && OnDisk(run[c], k) && Inputs(run[c], k) == p.(release := 0)
  }

  /** These inputs are the project's at some moment from now on. */
  ghost predicate Standing(run: Run, k: Key, p: Payload, i: nat) {
    exists j :: i <= j < |run| && OnDisk(run[j], k) && Inputs(run[j], k) == p.(release := 0)
  }

  /** A record as every lock writes it: its parts are its identity's, every spec is digested, no design error is counted. */
  ghost predicate Shaped(r: Record) {
    && r.stateId.digest.OfGate?
    && r.stateId == IdentityOf(r.stateId.digest.payload) && r.gateParts == Some(PartsOf(r.stateId.digest.payload))
    && r.specs.Some? && r.counts.errors == 0
  }

  ghost function Certified(r: Record): Payload
    requires Shaped(r)
  {
    r.stateId.digest.payload
  }

  /** The record's specs are the design its identity names, and a lock reviewed them. */
  ghost predicate Proven(run: Run, events: seq<Event>, k: Key, r: Record, i: nat)
    requires Shaped(r)
  {
    r.specs.value.Values == Certified(r).design && Reviewed(run, events, k, r.specs.value, i)
  }

  /** A record that proves what it says, of inputs that once stood. */
  ghost predicate Honest(run: Run, events: seq<Event>, k: Key, r: Record, i: nat) {
    Shaped(r) && Stood(run, k, Certified(r), i) && Proven(run, events, k, r, i)
  }

  /** A record that proves what it says whenever the project is, now or later, what it certifies. */
  ghost predicate Sound(run: Run, events: seq<Event>, k: Key, r: Record, i: nat) {
    && Shaped(r) && Stood(run, k, Certified(r), i)
    && (Standing(run, k, Certified(r), i) || SteadyRestamps(run, events) ==> Proven(run, events, k, r, i))
  }

  lemma StoodLater(run: Run, k: Key, p: Payload, i: nat, j: nat)
    requires i <= j < |run| && Stood(run, k, p, i)
    ensures Stood(run, k, p, j)
  {
    var c :| 0 <= c <= i < |run| && OnDisk(run[c], k) && Inputs(run[c], k) == p.(release := 0);
    assert 0 <= c <= j < |run|;
  }

  lemma ProvenLater(run: Run, events: seq<Event>, k: Key, r: Record, i: nat, j: nat)
    requires i <= j && Shaped(r) && Proven(run, events, k, r, i)
    ensures Proven(run, events, k, r, j)
  {
    var n: nat :| n < i && ReviewedBy(run, events, n, k, r.specs.value);
    assert n < j && ReviewedBy(run, events, n, k, r.specs.value);
  }

  lemma SoundLater(run: Run, events: seq<Event>, k: Key, r: Record, i: nat, j: nat)
    requires i <= j < |run| && Sound(run, events, k, r, i)
    ensures Sound(run, events, k, r, j)
  {
    StoodLater(run, k, Certified(r), i, j);
    if Standing(run, k, Certified(r), j) {
      var l :| j <= l < |run| && OnDisk(run[l], k) && Inputs(run[l], k) == Certified(r).(release := 0);
      assert i <= l < |run|;
      assert Standing(run, k, Certified(r), i);
    }
    if Standing(run, k, Certified(r), j) || SteadyRestamps(run, events) { ProvenLater(run, events, k, r, i, j); }
  }

  // --- the ordinary lock ---------------------------------------------------------------------------------

  /** Where no identity recurs, an identity captured and re-confirmed was the project's all along. */
  lemma ConfirmedStoodThroughout(run: Run, i: nat, e: Event)
    requires i < |run| && e.Lock? && Phases(run, i, e) && NoRecurrence(run)
    requires PayloadAt(run[i], e.w, e.k) == PayloadAt(run[e.captured], e.w, e.k)
    ensures PayloadAt(run[e.validated], e.w, e.k) == PayloadAt(run[e.captured], e.w, e.k)
    ensures PayloadAt(run[e.digested], e.w, e.k) == PayloadAt(run[e.captured], e.w, e.k)
  {
    InputsDecide(run[i], run[e.captured], e.w, e.k);
    assert Inputs(run[e.captured], e.k) == Inputs(run[i], e.k);
    InputsDecide(run[e.validated], run[e.captured], e.w, e.k);
    InputsDecide(run[e.digested], run[e.captured], e.w, e.k);
  }

  /** What an ordinary lock settles on keeps the new record's identity and digests, whatever was on file. */
  lemma SettledKeeps(onFile: Option<Record>, record: Record, gate: Gate, captured: Payload, w: World)
    requires Settle(onFile, record, gate, captured, w).Wrote?
    ensures
      var r := Settle(onFile, record, gate, captured, w).record;
      r.stateId == record.stateId && r.specs == record.specs
  {
  }

  /** An ordinary lock that wrote re-confirmed the identity it captured, and wrote it with the digests it took. */
  lemma OrdinaryWrite(run: Run, i: nat, e: Event)
    requires i < |run| && e.Lock? && Phases(run, i, e) && !RestampsAt(run, i, e) && OutcomeOf(run, i, e).Wrote?
    ensures PayloadAt(run[i], e.w, e.k) == PayloadAt(run[e.captured], e.w, e.k)
    ensures
      var r := OutcomeOf(run, i, e).record;
      r.stateId == IdentityOf(PayloadAt(run[e.captured], e.w, e.k)) && r.specs == Some(run[e.digested][e.k].value.tree)
  {
    var captured, gate := PayloadAt(run[e.captured], e.w, e.k), GateOf(run, i, e);
    SettledKeeps(run[i][e.k].value.record,
                 NewRecord(captured, gate, e.w, e.req, ProjectIdOf(run[e.surveyed][e.k].value.config),
                           run[e.digested][e.k].value.tree, PinsNow(run[e.surveyed], e.w, e.k)),
                 gate, captured, e.w);
  }

  lemma OrdinaryWriteIsReviewed(run: Run, events: seq<Event>, n: nat)
    requires ValidRun(run, events) && NoRecurrence(run) && n < |events| && events[n].Lock?
    requires LockStep(run, n, events[n]) && !RestampsAt(run, n, events[n]) && OutcomeOf(run, n, events[n]).Wrote?
    ensures ReviewedBy(run, events, n, events[n].k, run[events[n].digested][events[n].k].value.tree)
  {
    var e := events[n];
    OrdinaryWrite(run, n, e);
    ConfirmedStoodThroughout(run, n, e);
    assert run[e.digested][e.k].value.tree.Values == PayloadAt(run[e.digested], e.w, e.k).design;
  }

  // --- the shape of every record ------------------------------------------------------------------------------

  ghost predicate AllShaped(run: Run, i: nat)
    requires i < |run|
  {
    forall k | RecordAt(run[i], k).Some? :: Shaped(RecordAt(run[i], k).value)
  }

  lemma SettledIsShaped(onFile: Option<Record>, record: Record, gate: Gate, captured: Payload, w: World)
    requires Shaped(record) && (onFile.Some? ==> Shaped(onFile.value)) && gate.design.errors == 0
    ensures Settle(onFile, record, gate, captured, w).Wrote? ==> Shaped(Settle(onFile, record, gate, captured, w).record)
  {
  }

  lemma WrittenIsShaped(run: Run, i: nat, e: Event)
    requires i + 1 < |run| && e.Lock? && LockStep(run, i, e) && AllShaped(run, i) && AllShaped(run, e.surveyed)
    ensures OutcomeOf(run, i, e).Wrote? ==> Shaped(OutcomeOf(run, i, e).record)
  {
    var captured, gate := PayloadAt(run[e.captured], e.w, e.k), GateOf(run, i, e);
    var record := NewRecord(captured, gate, e.w, e.req, ProjectIdOf(run[e.surveyed][e.k].value.config),
                            run[e.digested][e.k].value.tree, PinsNow(run[e.surveyed], e.w, e.k));
    assert RecordAt(run[i], e.k) == run[i][e.k].value.record;
    assert RecordAt(run[e.surveyed], e.k) == run[e.surveyed][e.k].value.record;
    SettledIsShaped(run[i][e.k].value.record, record, gate, captured, e.w);
  }

  lemma LockKeepsShape(run: Run, i: nat, e: Event)
    requires i + 1 < |run| && e.Lock? && LockStep(run, i, e) && AllShaped(run, i) && AllShaped(run, e.surveyed)
    ensures AllShaped(run, i + 1)
  {
    var next := run[i + 1];
    WrittenIsShaped(run, i, e);
    forall k | RecordAt(next, k).Some? ensures Shaped(RecordAt(next, k).value) {
      assert RecordAt(next, k) == RecordAt(run[i], k) || (k == e.k && OutcomeOf(run, i, e).Wrote?);
    }
  }

  lemma EditKeepsShape(run: Run, i: nat)
    requires i + 1 < |run| && EditStep(run, i, run[i + 1]) && forall h | 0 <= h <= i :: AllShaped(run, h)
    ensures AllShaped(run, i + 1)
  {
    var next := run[i + 1];
    forall k | RecordAt(next, k).Some? ensures Shaped(RecordAt(next, k).value) {
      var h :| 0 <= h <= i && RecordAt(run[h], k) == RecordAt(next, k);
      assert AllShaped(run, h);
    }
  }

  lemma {:induction false} RecordsAreShaped(run: Run, events: seq<Event>, i: nat)
    requires ValidRun(run, events) && i < |run|
    ensures forall h | 0 <= h <= i :: AllShaped(run, h)
  {
    if i > 0 {
      RecordsAreShaped(run, events, i - 1);
      var e := events[i - 1];
      if e.Edit? {
        EditKeepsShape(run, i - 1);
      } else {
        assert LockStep(run, i - 1, e);
        LockKeepsShape(run, i - 1, e);
      }
    }
  }

  /**
   Every ordinary lock is honest. In every run, with any edits and any locks interleaved, where no
   identity recurs once left: a record an ordinary lock writes names an identity that was the project's
   when it was captured, validated with no error and re-confirmed, its digests are that design's, and it
   counts no design error.
   */
  lemma OrdinaryLocksAreHonest(run: Run, events: seq<Event>, n: nat)
    requires ValidRun(run, events) && NoRecurrence(run) && n < |events| && events[n].Lock?
    requires LockStep(run, n, events[n]) && !RestampsAt(run, n, events[n]) && OutcomeOf(run, n, events[n]).Wrote?
    ensures
      var r := OutcomeOf(run, n, events[n]).record;
      Honest(run, events, events[n].k, r, n + 1) && ReviewedBy(run, events, n, events[n].k, r.specs.value)
  {
    var e := events[n];
    RecordsAreShaped(run, events, n);
    assert AllShaped(run, n) && AllShaped(run, e.surveyed);
    WrittenIsShaped(run, n, e);
    OrdinaryWrite(run, n, e);
    OrdinaryWriteIsReviewed(run, events, n);
    InputsOfPayload(run[e.captured], e.w, e.k);
    assert Stood(run, e.k, PayloadAt(run[e.captured], e.w, e.k), n + 1);
  }

  // --- the restamp ---------------------------------------------------------------------------------------------

  /** A carried release verdict over a record as locks write them: the inputs now are those on record, but for the release. */
  lemma CarriedKeepsTheDesign(r: Record, tree: Tree, current: Payload, w: World)
    requires Shaped(r) && ReleaseOf(r, tree, current, w) == Carried
    ensures current.design == Certified(r).design
    ensures current.(release := 0) == Certified(r).(release := 0)
  {
    OwnPartsAreUsable(r, Certified(r), current);
    OnlyReleaseMovedIff(Certified(r), current);
  }

  /**
   What a restamp records, exactly: it names the approved design if and only if the design it captured
   is the one it surveyed. The source never checks that.
   */
  lemma RestampNamesTheApprovedDesignIff(fs: Family, w: World, k: Key, captured: Payload, gate: Gate, at: nat)
    requires OnDisk(fs, k) && Restamps(fs, w, k, WholeTree) && Shaped(fs[k].value.record.value)
    ensures
      var onFile := fs[k].value.record.value;
      RestampedRecord(onFile, captured, gate, w, at).stateId.digest.payload.design == Certified(onFile).design
      <==> captured.design == PayloadAt(fs, w, k).design
  {
    CarriedKeepsTheDesign(fs[k].value.record.value, fs[k].value.tree, PayloadAt(fs, w, k), w);
  }

  lemma NothingBetween(run: Run, c: nat, a: nat, s: nat, k: Key)
    requires NoRecurrence(run) && c <= a <= s < |run| && OnDisk(run[c], k) && OnDisk(run[s], k) && Inputs(run[c], k) == Inputs(run[s], k)
    ensures OnDisk(run[a], k) && Inputs(run[a], k) == Inputs(run[s], k)
  {
  }

  lemma SurveyIsAsRecorded(fs: Family, w: World, k: Key)
    requires OnDisk(fs, k) && Restamps(fs, w, k, WholeTree) && Shaped(fs[k].value.record.value)
    ensures Inputs(fs, k) == Certified(fs[k].value.record.value).(release := 0)
  {
    CarriedKeepsTheDesign(fs[k].value.record.value, fs[k].value.tree, PayloadAt(fs, w, k), w);
    InputsOfPayload(fs, w, k);
  }

  /** Where no identity recurs, a restamp of a record it already found on file surveys the identity it captured. */
  lemma SteadyRestampSurveysItsCapture(run: Run, w: World, k: Key, a: nat, s: nat, h: nat)
    requires h <= a <= s < |run| && NoRecurrence(run) && OnDisk(run[s], k) && Restamps(run[s], w, k, WholeTree)
    requires Shaped(run[s][k].value.record.value) && Stood(run, k, Certified(run[s][k].value.record.value), h)
    ensures OnDisk(run[a], k) && Inputs(run[a], k) == Inputs(run[s], k)
  {
    SurveyIsAsRecorded(run[s], w, k);
    var c :| 0 <= c <= h && OnDisk(run[c], k) && Inputs(run[c], k) == Certified(run[s][k].value.record.value).(release := 0);
    NothingBetween(run, c, a, s, k);
  }

  /** A restamp keeps a proof: of a record that was proven, captured as it was surveyed. */
  lemma RestampKeepsTheProof(run: Run, events: seq<Event>, i: nat, e: Event, h: nat)
    requires i < |run| && e.Lock? && Phases(run, i, e) && RestampsAt(run, i, e) && h <= i
    requires Shaped(run[e.surveyed][e.k].value.record.value) && Shaped(OutcomeOf(run, i, e).record)
    requires Proven(run, events, e.k, run[e.surveyed][e.k].value.record.value, h)
    requires Inputs(run[e.captured], e.k) == Inputs(run[e.surveyed], e.k)
    ensures Proven(run, events, e.k, OutcomeOf(run, i, e).record, i + 1)
  {
    var r, r2 := run[e.surveyed][e.k].value.record.value, OutcomeOf(run, i, e).record;
    ProvenLater(run, events, e.k, r, h, i + 1);
    SurveyIsAsRecorded(run[e.surveyed], e.w, e.k);
    InputsOfPayload(run[e.captured], e.w, e.k);
    assert Certified(r2) == PayloadAt(run[e.captured], e.w, e.k) && r2.specs == r.specs;
    assert Certified(r2).design == Inputs(run[e.surveyed], e.k).design == Certified(r).design;
  }

  // --- the run invariant -------------------------------------------------------------------------------------

  ghost predicate AllSound(run: Run, events: seq<Event>, i: nat)
    requires i < |run|
  {
    forall k | RecordAt(run[i], k).Some? :: Sound(run, events, k, RecordAt(run[i], k).value, i)
  }

  lemma EditKeepsSoundness(run: Run, events: seq<Event>, i: nat)
    requires i + 1 < |run| && EditStep(run, i, run[i + 1]) && forall h | 0 <= h <= i :: AllSound(run, events, h)
    ensures AllSound(run, events, i + 1)
  {
    var next := run[i + 1];
    forall k | RecordAt(next, k).Some? ensures Sound(run, events, k, RecordAt(next, k).value, i + 1) {
      var h :| 0 <= h <= i && RecordAt(run[h], k) == RecordAt(next, k);
      assert AllSound(run, events, h);
      SoundLater(run, events, k, RecordAt(run[h], k).value, h, i + 1);
    }
  }

  lemma SoundBefore(run: Run, events: seq<Event>, a: nat, k: Key, r: Record) returns (h: nat)
    requires a < |run| && HeldBefore(run, a, k, Some(r)) && forall i | 0 <= i <= a :: AllSound(run, events, i)
    ensures h <= a && Sound(run, events, k, r, h)
  {
    h :| 0 <= h <= a && RecordAt(run[h], k) == Some(r);
    assert AllSound(run, events, h);
  }

  /** Inputs captured by a lock that still stand after its write stood at its survey. */
  lemma StandingCaptureWasSurveyed(run: Run, i: nat, e: Event)
    requires i + 1 < |run| && e.Lock? && Phases(run, i, e) && NoRecurrence(run)
    requires Standing(run, e.k, PayloadAt(run[e.captured], e.w, e.k), i + 1)
    ensures Inputs(run[e.captured], e.k) == Inputs(run[e.surveyed], e.k)
  {
    var p := PayloadAt(run[e.captured], e.w, e.k);
    var j :| i + 1 <= j < |run| && OnDisk(run[j], e.k) && Inputs(run[j], e.k) == p.(release := 0);
    InputsOfPayload(run[e.captured], e.w, e.k);
    NothingBetween(run, e.captured, e.surveyed, j, e.k);
  }

  /** A restamp whose captured inputs still stand later surveyed those very inputs, which its record had proven. */
  lemma StandingRestampIsProven(run: Run, events: seq<Event>, i: nat, e: Event)
    requires i + 1 < |run| && e.Lock? && Phases(run, i, e) && RestampsAt(run, i, e) && NoRecurrence(run)
    requires AllSound(run, events, e.surveyed) && Shaped(OutcomeOf(run, i, e).record)
    requires Standing(run, e.k, PayloadAt(run[e.captured], e.w, e.k), i + 1)
    ensures Proven(run, events, e.k, OutcomeOf(run, i, e).record, i + 1)
  {
    StandingCaptureWasSurveyed(run, i, e);
    var r := run[e.surveyed][e.k].value.record.value;
    assert RecordAt(run[e.surveyed], e.k) == Some(r) && Sound(run, events, e.k, r, e.surveyed);
    SurveyIsAsRecorded(run[e.surveyed], e.w, e.k);
    assert Standing(run, e.k, Certified(r), e.surveyed);
    RestampKeepsTheProof(run, events, i, e, e.surveyed);
  }

  lemma SteadyRestampIsProven(run: Run, events: seq<Event>, i: nat, e: Event)
    requires i + 1 < |run| && e.Lock? && Phases(run, i, e) && RestampsAt(run, i, e) && NoRecurrence(run) && SteadyRestamps(run, events)
    requires HeldBefore(run, e.captured, e.k, RecordAt(run[e.surveyed], e.k))
    requires (forall h | 0 <= h <= i :: AllSound(run, events, h)) && Shaped(OutcomeOf(run, i, e).record)
    ensures Proven(run, events, e.k, OutcomeOf(run, i, e).record, i + 1)
  {
    var r := run[e.surveyed][e.k].value.record.value;
    assert RecordAt(run[e.surveyed], e.k) == Some(r);
    var h := SoundBefore(run, events, e.captured, e.k, r);
    SteadyRestampSurveysItsCapture(run, e.w, e.k, e.captured, e.surveyed, h);
    RestampKeepsTheProof(run, events, i, e, h);
  }

  /** What a restamp writes: the identity it captured, which was once the project's. */
  lemma RestampWrites(run: Run, events: seq<Event>, i: nat)
    requires ValidRun(run, events) && i < |events| && events[i].Lock?
    requires LockStep(run, i, events[i]) && RestampsAt(run, i, events[i]) && OutcomeOf(run, i, events[i]).Wrote?
    ensures
      var e, r := events[i], OutcomeOf(run, i, events[i]).record;
      Shaped(r) && Certified(r) == PayloadAt(run[e.captured], e.w, e.k) && Stood(run, e.k, Certified(r), i + 1)
  {
    var e := events[i];
    RecordsAreShaped(run, events, i);
    assert AllShaped(run, i) && AllShaped(run, e.surveyed);
    WrittenIsShaped(run, i, e);
    InputsOfPayload(run[e.captured], e.w, e.k);
  }

  lemma RestampWrittenIsSound(run: Run, events: seq<Event>, i: nat)
    requires ValidRun(run, events) && NoRecurrence(run) && i < |events| && events[i].Lock?
    requires LockStep(run, i, events[i]) && RestampsAt(run, i, events[i]) && OutcomeOf(run, i, events[i]).Wrote?
    requires forall h | 0 <= h <= i :: AllSound(run, events, h)
    ensures Sound(run, events, events[i].k, OutcomeOf(run, i, events[i]).record, i + 1)
  {
    var e := events[i];
    var r2 := OutcomeOf(run, i, e).record;
    RestampWrites(run, events, i);
    if Standing(run, e.k, Certified(r2), i + 1) {
      assert AllSound(run, events, e.surveyed);
      StandingRestampIsProven(run, events, i, e);
    } else if SteadyRestamps(run, events) {
      SteadyRestampIsProven(run, events, i, e);
    }
  }

  lemma WrittenIsSound(run: Run, events: seq<Event>, i: nat)
    requires ValidRun(run, events) && NoRecurrence(run) && i < |events| && events[i].Lock?
    requires LockStep(run, i, events[i]) && OutcomeOf(run, i, events[i]).Wrote?
    requires forall h | 0 <= h <= i :: AllSound(run, events, h)
    ensures Sound(run, events, events[i].k, OutcomeOf(run, i, events[i]).record, i + 1)
  {
    if RestampsAt(run, i, events[i]) {
      RestampWrittenIsSound(run, events, i);
    } else {
      OrdinaryLocksAreHonest(run, events, i);
    }
  }

  lemma WriteKeepsSoundness(run: Run, events: seq<Event>, i: nat, k: Key, o: Outcome)
    requires i + 1 < |run| && OnDisk(run[i], k) && run[i + 1] == After(run[i], k, o)
    requires AllSound(run, events, i) && (o.Wrote? ==> Sound(run, events, k, o.record, i + 1))
    ensures AllSound(run, events, i + 1)
  {
    var next := run[i + 1];
    forall j | RecordAt(next, j).Some? ensures Sound(run, events, j, RecordAt(next, j).value, i + 1) {
      if j != k || !o.Wrote? {
        assert RecordAt(next, j) == RecordAt(run[i], j);
        SoundLater(run, events, j, RecordAt(run[i], j).value, i, i + 1);
      }
    }
  }

  lemma StepKeepsSoundness(run: Run, events: seq<Event>, i: nat)
    requires ValidRun(run, events) && NoRecurrence(run) && i < |events|
    requires forall h | 0 <= h <= i :: AllSound(run, events, h)
    ensures AllSound(run, events, i + 1)
  {
    var e := events[i];
    if e.Edit? {
      EditKeepsSoundness(run, events, i);
    } else {
      assert LockStep(run, i, e);
      if OutcomeOf(run, i, e).Wrote? { WrittenIsSound(run, events, i); }
      assert AllSound(run, events, i);
      WriteKeepsSoundness(run, events, i, e.k, OutcomeOf(run, i, e));
    }
  }

  /**
   Whole-run soundness. In every run where no identity recurs once left, every record on file, restamped
   or not, has the shape locks write, names inputs that were once the project's, and is proven as soon as
   the project is, then or later, what the record certifies; where every restamp refreshes a record it
   already found on file, every record is proven outright.
   */
  lemma {:induction false} RunsAreSound(run: Run, events: seq<Event>, i: nat)
    requires ValidRun(run, events) && NoRecurrence(run) && i < |run|
    ensures forall h | 0 <= h <= i :: AllSound(run, events, h)
  {
    if i == 0 {
      assert AllSound(run, events, 0);
    } else {
      RunsAreSound(run, events, i - 1);
      StepKeepsSoundness(run, events, i - 1);
    }
  }

  /** The project holds exactly the design its record's digests spell out, and a lock reviewed those digests. */
  ghost predicate HoldsReviewed(run: Run, events: seq<Event>, i: nat, j: Key)
    requires i < |run|
  {
    && OnDisk(run[i], j) && run[i][j].value.record.Some? && run[i][j].value.record.value.specs.Some?
    && var specs := run[i][j].value.record.value.specs.value;
    && run[i][j].value.tree.Values == specs.Values && Reviewed(run, events, j, specs, i)
  }

  /**
   Hence the merge gate: where no identity recurs, whenever strict lock-check passes at a root, under any
   release, every project at every depth holds exactly a design that a lock of it reviewed.
   */
  lemma StrictApprovalMeansReviewed(run: Run, events: seq<Event>, i: nat, w: World, root: Key, j: Key)
    requires ValidRun(run, events) && NoRecurrence(run) && i < |run|
    requires OnDisk(run[i], root) && CheckApproval(run[i], w, root, true).approved
    requires j in run[i] && (j == root || Below(root, j))
    ensures HoldsReviewed(run, events, i, j)
  {
    StrictMeansTheWholeFamily(run[i], w, root);
    RunsAreSound(run, events, i);
    assert StateAt(run[i], w, j) == Approved;
    var p := run[i][j].value;
    var r, current := p.record.value, PayloadAt(run[i], w, j);
    assert AllSound(run, events, i) && RecordAt(run[i], j) == Some(r);
    if !Matches(r, current) { CarriedKeepsTheDesign(r, p.tree, current, w); }
    InputsOfPayload(run[i], w, j);
    assert Inputs(run[i], j) == Certified(r).(release := 0);
    assert Standing(run, j, Certified(r), i);
  }

  // --- opting in ------------------------------------------------------------------------------------------

  /** In any run of edits from a family nobody ever locked, plain lock-check passes wherever the L0 can be read. */
  lemma {:induction false} EditsAloneNeverFailTheGate(run: Run, events: seq<Event>, i: nat, w: World, k: Key)
    requires ValidRun(run, events) && (forall e | e in events :: e.Edit?) && i < |run|
    ensures NeverAnyLock(run[i])
    ensures OnDisk(run[i], k) && run[i][k].value.l0 == Readable ==> CheckApproval(run[i], w, k, false) == Check(Unlocked, true)
  {
    NoLockBefore(run, events, i);
    if OnDisk(run[i], k) && run[i][k].value.l0 == Readable { UnlockedFamiliesPass(run[i], w, k); }
  }

  lemma {:induction false} NoLockBefore(run: Run, events: seq<Event>, i: nat)
    requires ValidRun(run, events) && (forall e | e in events :: e.Edit?) && i < |run|
    ensures forall h | 0 <= h <= i :: NeverAnyLock(run[h])
  {
    if i > 0 {
      NoLockBefore(run, events, i - 1);
      assert events[i - 1] in events;
      assert EditStep(run, i - 1, run[i]);
      forall k | OnDisk(run[i], k) ensures run[i][k].value.record == None {
        if RecordAt(run[i], k).Some? {
          var h :| 0 <= h <= i - 1 && RecordAt(run[h], k) == RecordAt(run[i], k);
          assert NeverAnyLock(run[h]);
        }
      }
    }
  }
}
