/**
 A data file changed by many processes, each change one read, one computation and one replacing
 rename under the file's generation lock: no update is lost as long as no rename lands after its
 lock was broken.
 */
module LockedFile {
  import opened Basics
  import opened FileLock

  /** The data file as a reader finds it; a rename replaces it whole. */
  datatype File<V> = Missing | Garbage | Holds(v: V)

  /** What a change makes of what it read; None when it throws or has nothing to write. */
  type Change<!Op, !V> = (Op, File<V>) -> Option<V>

  /** `read` is what each process read under its present hold; `log` the changes that landed, in order. */
  datatype Shop<Op, V> = Shop(lock: State, file: File<V>, read: map<Pid, File<V>>, log: seq<Op>)

  datatype Event<Op> =
    | LockStep(p: Pid, act: Act)
    | Read(p: Pid)
    | Replace(p: Pid, op: Op)

  /** The replacing rename of `replaceFile`, after its pre-rename check passed. */
  predicate Lands<Op, V>(s: Shop<Op, V>, change: Change<Op, V>, e: Event<Op>) {
    e.Replace? && At(s.lock, e.p).Cleared? && e.p in s.read && change(e.op, s.read[e.p]).Some?
  }

  ghost function Do<Op, V>(s: Shop<Op, V>, change: Change<Op, V>, e: Event<Op>): Shop<Op, V> {
    match e
    case LockStep(p, act) =>
      if act == Rename then s
      else
        var t := s.(lock := Step(s.lock, p, act));
        if act == Enter && At(t.lock, p) != At(s.lock, p) then t.(read := s.read - {p}) else t
    case Read(p) =>
      if At(s.lock, p).Holding? && p !in s.read then s.(read := s.read[p := s.file]) else s
    case Replace(p, op) =>
      if Lands(s, change, e)
      then Shop(Step(s.lock, p, Rename), Holds(change(op, s.read[p]).value), s.read - {p}, s.log + [op])
      else s
  }

  ghost function Run<Op, V>(start: File<V>, change: Change<Op, V>, run: seq<Event<Op>>): Shop<Op, V> {
    if run == [] then Shop(EMPTY, start, map[], [])
    else Do(Run(start, change, run[..|run| - 1]), change, run[|run| - 1])
  }

  function Apply<Op, V>(f: File<V>, change: Change<Op, V>, op: Op): File<V> {
    match change(op, f)
    case Some(v) => Holds(v)
    case None => f
  }

  /** The changes made one at a time, by one process. */
  function Fold<Op, V>(f: File<V>, change: Change<Op, V>, ops: seq<Op>): File<V> {
    if ops == [] then f else Apply(Fold(f, change, ops[..|ops| - 1]), change, ops[|ops| - 1])
  }

  /** The read that counts: the first of a hold. */
  predicate Reads<Op, V>(s: Shop<Op, V>, e: Event<Op>, p: Pid) {
    e.Read? && e.p == p && At(s.lock, p).Holding? && p !in s.read
  }

  /** How many changes had landed when this process made its present read. */
  ghost function ReadAfter<Op, V>(start: File<V>, change: Change<Op, V>, run: seq<Event<Op>>, p: Pid): nat {
    if run == [] then 0
    else
      var front, e := run[..|run| - 1], run[|run| - 1];
      if Reads(Run(start, change, front), e, p) then |Run(start, change, front).log| else ReadAfter(start, change, front, p)
  }

  /** No landing falls between the read of another landing and its rename. */
  ghost predicate Serial<Op, V>(start: File<V>, change: Change<Op, V>, run: seq<Event<Op>>) {
    forall i | 0 <= i < |run| && Lands(Run(start, change, run[..i]), change, run[i]) ::
      ReadAfter(start, change, run[..i], run[i].p) == |Run(start, change, run[..i]).log|
  }

  /** No rename lands under a generation somebody else already ended. */
  ghost predicate Fenced<Op, V>(start: File<V>, change: Change<Op, V>, run: seq<Event<Op>>) {
    forall i | 0 <= i < |run| && Lands(Run(start, change, run[..i]), change, run[i]) ::
      var s := Run(start, change, run[..i]);
      At(s.lock, run[i].p).g !in s.lock.broken
  }

  predicate Working(ph: Phase) {
    ph.Holding? || ph.Checked? || ph.Cleared?
  }

  /** Two holders at once: one of their generations was ended by somebody else, and never the newer one's alone. */
  lemma Exclusion(s: State, p: Pid, q: Pid)
    requires Inv(s) && p != q && Working(At(s, p)) && Working(At(s, q)) && Gen(At(s, q)) !in s.broken
    ensures Gen(At(s, p)) in s.broken
  {
    OlderIsReclaimed(s, p, q);
    OlderIsReclaimed(s, q, p);
  }

  lemma OlderIsReclaimed(s: State, p: Pid, q: Pid)
    requires Inv(s) && Working(At(s, p)) && Working(At(s, q))
    ensures Gen(At(s, p)) < Gen(At(s, q)) ==> Gen(At(s, p)) in s.broken
  {
    assert Winning(s, p) && Winning(s, q);
    assert Gen(At(s, p)) < Gen(At(s, q)) ==> Overtaken(s, Gen(s.procs[p]));
  }

  /** A lock step takes nobody to work but the process that enters, and moves no working process to another generation. */
  lemma LockStepIsSteady(s: State, p: Pid, act: Act, q: Pid)
    requires Working(At(Step(s, p, act), q))
    ensures s.broken <= Step(s, p, act).broken
    ensures (Working(At(s, q)) && Gen(At(Step(s, p, act), q)) == Gen(At(s, q)))
         || (q == p && act == Enter && At(Step(s, p, act), p) != At(s, p))
  {
  }

  lemma EventKeepsLock<Op, V>(s: Shop<Op, V>, change: Change<Op, V>, e: Event<Op>)
    requires Inv(s.lock)
    ensures Inv(Do(s, change, e).lock)
  {
    EventsStepTheLock(s, change, e);
    var step := LockStepOf(s, change, e);
    if step != [] { StepKeeps(s.lock, step[0].0, step[0].1); }
  }

  lemma {:induction false} RunKeepsLock<Op, V>(start: File<V>, change: Change<Op, V>, run: seq<Event<Op>>)
    ensures Inv(Run(start, change, run).lock)
  {
    if run != [] {
      RunKeepsLock(start, change, run[..|run| - 1]);
      EventKeepsLock(Run(start, change, run[..|run| - 1]), change, run[|run| - 1]);
    }
  }

  // --- one change, left alone -----------------------------------------------------------------------------

  /** What a holder does to change the file: read it, look twice that the lock is still its own, and replace it. */
  ghost function Changed<Op, V>(s: Shop<Op, V>, change: Change<Op, V>, p: Pid, op: Op): Shop<Op, V> {
    var checked := Do(Do(Do(s, change, Read(p)), change, LockStep(p, CheckEnd)), change, LockStep(p, CheckLock));
    Do(checked, change, Replace(p, op))
  }

  /**
   A holder whose lock file is there unmarked replaces the file with its change of what the file holds; one
   whose generation was ended or cleaned away, or whose change has nothing to write, leaves it as it is.
   */
  lemma OneChangeLandsIff<Op, V>(s: Shop<Op, V>, change: Change<Op, V>, p: Pid, op: Op)
    requires At(s.lock, p).Holding? && p !in s.read
    ensures
      var g, t := At(s.lock, p).g, Changed(s, change, p, op);
      var lands := g !in s.lock.ends && g in s.lock.locks && change(op, s.file).Some?;
      && t.file == (if lands then Holds(change(op, s.file).value) else s.file)
      && t.log == (if lands then s.log + [op] else s.log)
      && (lands ==> At(t.lock, p) == Holding(g))
      && (g in s.lock.ends || g !in s.lock.locks ==> At(t.lock, p) == Releasing(g))
  {
    var g := At(s.lock, p).g;
    var read := Do(s, change, Read(p));
    assert read == s.(read := s.read[p := s.file]);
    var first := Do(read, change, LockStep(p, CheckEnd));
    assert first.lock == Step(s.lock, p, CheckEnd) && first.read == read.read;
    var second := Do(first, change, LockStep(p, CheckLock));
    assert second.lock == Step(first.lock, p, CheckLock) && second.read == read.read;
    CheckPassesIff(s.lock, p);
  }

  /** What does not fit changes nothing: entering twice, reading again under one hold, or replacing unchecked. */
  lemma UnfitEventsDoNothing<Op, V>(s: Shop<Op, V>, change: Change<Op, V>, p: Pid, op: Op)
    ensures !At(s.lock, p).Cleaning? ==> Do(s, change, LockStep(p, Enter)) == s
    ensures !At(s.lock, p).Holding? || p in s.read ==> Do(s, change, Read(p)) == s
    ensures !At(s.lock, p).Cleared? || p !in s.read || change(op, s.read[p]).None? ==> Do(s, change, Replace(p, op)) == s
  {
  }

  /** A process that enters a new hold has read nothing yet; a rename is never a lock step of its own. */
  lemma HoldsStartUnread<Op, V>(s: Shop<Op, V>, change: Change<Op, V>, p: Pid)
    requires At(s.lock, p).Cleaning? && At(s.lock, p).names == {}
    ensures
      var t := Do(s, change, LockStep(p, Enter));
      At(t.lock, p) == Holding(At(s.lock, p).g) && p !in t.read && t.file == s.file && t.log == s.log && Do(s, change, LockStep(p, Rename)) == s
  {
  }

  // --- the schedules that lose nothing --------------------------------------------------------------------

  lemma SerialFront<Op, V>(start: File<V>, change: Change<Op, V>, run: seq<Event<Op>>)
    requires run != [] && Serial(start, change, run)
    ensures Serial(start, change, run[..|run| - 1])
  {
    var front := run[..|run| - 1];
    forall i | 0 <= i < |front| && Lands(Run(start, change, front[..i]), change, front[i])
      ensures ReadAfter(start, change, front[..i], front[i].p) == |Run(start, change, front[..i]).log|
    {
      assert front[..i] == run[..i] && front[i] == run[i];
    }
  }

  /** A run is serial when its front is and its last event lands only over the file its process read. */
  lemma SerialOneMore<Op, V>(start: File<V>, change: Change<Op, V>, run: seq<Event<Op>>)
    requires run != [] && Serial(start, change, run[..|run| - 1])
    requires
      var front, e := run[..|run| - 1], run[|run| - 1];
      Lands(Run(start, change, front), change, e) ==> ReadAfter(start, change, front, e.p) == |Run(start, change, front).log|
    ensures Serial(start, change, run)
  {
    var front := run[..|run| - 1];
    forall i | 0 <= i < |run| && Lands(Run(start, change, run[..i]), change, run[i])
      ensures ReadAfter(start, change, run[..i], run[i].p) == |Run(start, change, run[..i]).log|
    {
      if i < |front| {
        assert front[..i] == run[..i] && front[i] == run[i];
      } else {
        assert run[..i] == front;
      }
    }
  }

  /** Every process that has read the file read it as the changes landed by then had left it. */
  ghost predicate ReadsAreFolds<Op, V>(start: File<V>, change: Change<Op, V>, run: seq<Event<Op>>) {
    var s := Run(start, change, run);
    forall p | p in s.read ::
      var n := ReadAfter(start, change, run, p);
      n <= |s.log| && s.read[p] == Fold(start, change, s.log[..n])
  }

  lemma ReplaceFolds<Op, V>(start: File<V>, change: Change<Op, V>, run: seq<Event<Op>>)
    requires run != [] && ReadsAreFolds(start, change, run[..|run| - 1])
    requires
      var front, e := run[..|run| - 1], run[|run| - 1];
      var before := Run(start, change, front);
      Lands(before, change, e) && ReadAfter(start, change, front, e.p) == |before.log| && before.file == Fold(start, change, before.log)
    ensures
      var s := Run(start, change, run);
      s.file == Fold(start, change, s.log) && ReadsAreFolds(start, change, run)
  {
    var front, e := run[..|run| - 1], run[|run| - 1];
    var before, s := Run(start, change, front), Run(start, change, run);
    assert before.log[..|before.log|] == before.log && (before.log + [e.op])[..|before.log|] == before.log;
    forall p | p in s.read
      ensures
        var n := ReadAfter(start, change, run, p);
        n <= |s.log| && s.read[p] == Fold(start, change, s.log[..n])
    {
      var n := ReadAfter(start, change, front, p);
      assert s.log[..n] == before.log[..n];
    }
  }

  /**
   No lost update. In any interleaving of any number of processes over one file, crashes and reclaims
   included, where no landing falls between the read of another landing and its rename, the file is the
   completed changes applied one after another in the order they landed, whatever the changes are; and
   every read saw one whole such state.
   */
  lemma {:induction false} NoLostUpdate<Op, V>(start: File<V>, change: Change<Op, V>, run: seq<Event<Op>>)
    requires Serial(start, change, run)
    ensures Run(start, change, run).file == Fold(start, change, Run(start, change, run).log)
    ensures ReadsAreFolds(start, change, run)
  {
    if run != [] {
      var front, e := run[..|run| - 1], run[|run| - 1];
      var before := Run(start, change, front);
      SerialFront(start, change, run);
      NoLostUpdate(start, change, front);
      assert before.log[..|before.log|] == before.log;
      if Lands(before, change, e) { ReplaceFolds(start, change, run); }
    }
  }

  /** The change that forgets nothing: it adds itself to what it read. */
  function Held<Op>(f: File<seq<Op>>): seq<Op> {
    if f.Holds? then f.v else []
  }

  function Append<Op>(op: Op, f: File<seq<Op>>): Option<seq<Op>> {
    Some(Held(f) + [op])
  }

  lemma {:induction false} AppendingFolds<Op>(start: File<seq<Op>>, ops: seq<Op>)
    ensures |Held(Fold(start, Append, ops))| == |Held(start)| + |ops|
  {
    if ops != [] { AppendingFolds(start, ops[..|ops| - 1]); }
  }

  /** What a run of appends can have kept: never more than landed, and as much only if it was serial. */
  ghost predicate AppendsKept<Op>(start: File<seq<Op>>, run: seq<Event<Op>>) {
    var s, n := Run(start, Append, run), |Held(start)|;
    && |Held(s.file)| <= n + |s.log|
    && (|Held(s.file)| == n + |s.log| ==> Serial(start, Append, run))
    && (forall p | p in s.read ::
          && ReadAfter(start, Append, run, p) <= |s.log|
          && |Held(s.read[p])| <= n + ReadAfter(start, Append, run, p)
          && (ReadAfter(start, Append, run, p) == |s.log| ==> s.read[p] == s.file))
  }

  lemma AppendLands<Op>(start: File<seq<Op>>, run: seq<Event<Op>>)
    requires run != [] && AppendsKept(start, run[..|run| - 1]) && Lands(Run(start, Append, run[..|run| - 1]), Append, run[|run| - 1])
    ensures AppendsKept(start, run)
  {
    var front, e := run[..|run| - 1], run[|run| - 1];
    var before, s := Run(start, Append, front), Run(start, Append, run);
    assert Held(s.file) == Held(before.read[e.p]) + [e.op];
    if |Held(s.file)| == |Held(start)| + |s.log| { SerialOneMore(start, Append, run); }
    forall p | p in s.read ensures p in before.read && s.read[p] == before.read[p] && p != e.p {
    }
  }

  lemma {:induction false} AppendsKeep<Op>(start: File<seq<Op>>, run: seq<Event<Op>>)
    ensures AppendsKept(start, run)
  {
    if run != [] {
      var front, e := run[..|run| - 1], run[|run| - 1];
      AppendsKeep(start, front);
      if Lands(Run(start, Append, front), Append, e) {
        AppendLands(start, run);
      } else if Serial(start, Append, front) {
        SerialOneMore(start, Append, run);
      }
    }
  }

  /** The condition is exact: a run of appending changes lost nothing if and only if its landings were serial. */
  lemma NothingIsLostIff<Op>(start: File<seq<Op>>, run: seq<Event<Op>>)
    ensures Run(start, Append, run).file == Fold(start, Append, Run(start, Append, run).log) <==> Serial(start, Append, run)
  {
    AppendsKeep(start, run);
    AppendingFolds(start, Run(start, Append, run).log);
    if Serial(start, Append, run) { NoLostUpdate(start, Append, run); }
  }

  // --- the fence is enough -------------------------------------------------------------------------------

  lemma FencedFront<Op, V>(start: File<V>, change: Change<Op, V>, run: seq<Event<Op>>)
    requires run != [] && Fenced(start, change, run)
    ensures Fenced(start, change, run[..|run| - 1])
  {
    var front := run[..|run| - 1];
    forall i | 0 <= i < |front| && Lands(Run(start, change, front[..i]), change, front[i])
      ensures
        var s := Run(start, change, front[..i]);
        At(s.lock, front[i].p).g !in s.lock.broken
    {
      assert front[..i] == run[..i] && front[i] == run[i];
    }
  }

  /** Since a process that holds its generation unbroken read the file, nobody has landed. */
  ghost predicate ReadsAreFresh<Op, V>(start: File<V>, change: Change<Op, V>, run: seq<Event<Op>>) {
    var s := Run(start, change, run);
    forall p | p in s.read && Working(At(s.lock, p)) && Gen(At(s.lock, p)) !in s.lock.broken ::
      ReadAfter(start, change, run, p) == |s.log|
  }

  lemma LockStepKeepsFresh<Op, V>(start: File<V>, change: Change<Op, V>, run: seq<Event<Op>>)
    requires run != [] && ReadsAreFresh(start, change, run[..|run| - 1]) && run[|run| - 1].LockStep?
    ensures ReadsAreFresh(start, change, run)
  {
    var front, e := run[..|run| - 1], run[|run| - 1];
    var s, t := Run(start, change, front), Run(start, change, run);
    if e.act != Rename {
      forall q | q in t.read && Working(At(t.lock, q)) && Gen(At(t.lock, q)) !in t.lock.broken
        ensures ReadAfter(start, change, run, q) == |t.log|
      {
        LockStepIsSteady(s.lock, e.p, e.act, q);
        assert q in s.read;
      }
    }
  }

  lemma ReplaceKeepsFresh<Op, V>(start: File<V>, change: Change<Op, V>, run: seq<Event<Op>>)
    requires run != [] && Inv(Run(start, change, run[..|run| - 1]).lock) && Lands(Run(start, change, run[..|run| - 1]), change, run[|run| - 1])
    requires
      var s, p := Run(start, change, run[..|run| - 1]), run[|run| - 1].p;
      Gen(At(s.lock, p)) !in s.lock.broken
    ensures ReadsAreFresh(start, change, run)
  {
    var p := run[|run| - 1].p;
    var s, t := Run(start, change, run[..|run| - 1]), Run(start, change, run);
    forall q | q in t.read && Working(At(t.lock, q)) ensures Gen(At(t.lock, q)) in t.lock.broken {
      assert q != p && At(t.lock, q) == At(s.lock, q);
      Exclusion(s.lock, q, p);
    }
  }

  /** Where no rename lands under a generation somebody else ended, the landings are serial. */
  lemma {:induction false} FencedRunsAreSerial<Op, V>(start: File<V>, change: Change<Op, V>, run: seq<Event<Op>>)
    requires Fenced(start, change, run)
    ensures Serial(start, change, run) && ReadsAreFresh(start, change, run)
  {
    if run != [] {
      var front, e := run[..|run| - 1], run[|run| - 1];
      var before := Run(start, change, front);
      FencedFront(start, change, run);
      FencedRunsAreSerial(start, change, front);
      RunKeepsLock(start, change, front);
      if Lands(before, change, e) {
        assert At(before.lock, e.p).g !in before.lock.broken;
        ReplaceKeepsFresh(start, change, run);
      } else if e.LockStep? {
        LockStepKeepsFresh(start, change, run);
      }
      SerialOneMore(start, change, run);
    }
  }

  // --- right judgements are enough ------------------------------------------------------------------

  /** The lock step an event takes, if any. */
  function LockStepOf<Op, V>(s: Shop<Op, V>, change: Change<Op, V>, e: Event<Op>): seq<(Pid, Act)> {
    if e.LockStep? && e.act != Rename then [(e.p, e.act)] else if Lands(s, change, e) then [(e.p, Rename)] else []
  }

  lemma EventsStepTheLock<Op, V>(s: Shop<Op, V>, change: Change<Op, V>, e: Event<Op>)
    ensures
      var step := LockStepOf(s, change, e);
      Do(s, change, e).lock == if step == [] then s.lock else Step(s.lock, step[0].0, step[0].1)
  {
  }

  /** The lock steps of a run. */
  ghost function LockSteps<Op, V>(start: File<V>, change: Change<Op, V>, run: seq<Event<Op>>): seq<(Pid, Act)> {
    if run == [] then []
    else
      var front := run[..|run| - 1];
      LockSteps(start, change, front) + LockStepOf(Run(start, change, front), change, run[|run| - 1])
  }

  lemma AfterStep(steps: seq<(Pid, Act)>, step: seq<(Pid, Act)>)
    requires |step| <= 1
    ensures After(steps + step) == if step == [] then After(steps) else Step(After(steps), step[0].0, step[0].1)
  {
    if step == [] { assert steps + step == steps; } else { assert (steps + step)[..|steps|] == steps; }
  }

  lemma {:induction false} LockStepsAgree<Op, V>(start: File<V>, change: Change<Op, V>, run: seq<Event<Op>>)
    ensures After(LockSteps(start, change, run)) == Run(start, change, run).lock
  {
    if run != [] {
      var front, e := run[..|run| - 1], run[|run| - 1];
      LockStepsAgree(start, change, front);
      var s := Run(start, change, front);
      EventsStepTheLock(s, change, e);
      AfterStep(LockSteps(start, change, front), LockStepOf(s, change, e));
    }
  }

  /** A truthful prefix is truthful. */
  lemma TruthfulPrefix(steps: seq<(Pid, Act)>, n: nat)
    requires n <= |steps| && Truthful(steps)
    ensures Truthful(steps[..n])
  {
    forall i | 0 <= i < n ensures Fair(After(steps[..n][..i]), steps[..n][i].0, steps[..n][i].1) {
      assert steps[..n][..i] == steps[..i] && steps[..n][i] == steps[i];
    }
  }

  lemma {:induction false} LockStepsPrefix<Op, V>(start: File<V>, change: Change<Op, V>, run: seq<Event<Op>>, i: nat)
    requires i <= |run|
    ensures LockSteps(start, change, run[..i]) <= LockSteps(start, change, run)
    decreases |run|
  {
    if i < |run| {
      LockStepsPrefix(start, change, run[..|run| - 1], i);
      assert run[..|run| - 1][..i] == run[..i];
    } else {
      assert run[..i] == run;
    }
  }

  /** Where no live holder is ever judged gone or ended by a create that threw, every rename is fenced, so nothing is lost. */
  lemma TruthfulRunsAreFenced<Op, V>(start: File<V>, change: Change<Op, V>, run: seq<Event<Op>>)
    requires Truthful(LockSteps(start, change, run))
    ensures Fenced(start, change, run)
  {
    var steps := LockSteps(start, change, run);
    forall i | 0 <= i < |run| && Lands(Run(start, change, run[..i]), change, run[i])
      ensures
        var s := Run(start, change, run[..i]);
        At(s.lock, run[i].p).g !in s.lock.broken
    {
      var s := Run(start, change, run[..i]);
      LockStepsPrefix(start, change, run, i);
      var n := |LockSteps(start, change, run[..i])|;
      assert steps[..n] == LockSteps(start, change, run[..i]);
      TruthfulPrefix(steps, n);
      LockStepsAgree(start, change, run[..i]);
      TruthfulRunKeeps(steps[..n]);
      assert Winning(s.lock, run[i].p);
      assert Claimed(s.lock, At(s.lock, run[i].p).g);
    }
  }
}
