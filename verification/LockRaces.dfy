/**
 How the lock is lost. One interleaving in which the pre-rename check itself passes although the lock was
 reclaimed, and a landed setting is lost; the reclaim the check comes too early for; and a create that
 throws, which ends the lock of another process with nobody judging anything.
 */
module LockRaces {
  import opened Basics
  import opened FileLock
  import opened LockedFile
  import opened Settings

  type Moment = Shop<Setter, UserConfig>

  const SEEN := SetLastSeenVersion("v")
  const TO_BETA := SetChannel("beta")
  const AFTER_SEEN := UserConfig(None, None, Some("v"))
  const AFTER_BETA := UserConfig(Some("beta"), None, None)

  /**
   Process 1 takes the lock and reads; process 2 judges it gone, ends it, takes the next generation and
   removes the old end marker; process 1's check passes just then; both changes land.
   */
  function EventAt(n: nat): Event<Setter>
    requires n < 21
  {
    match n
    case 0 => LockStep(1, List)
    case 1 => LockStep(1, Create)
    case 2 => LockStep(1, Relist)
    case 3 => LockStep(1, Enter)
    case 4 => Read(1)
    case 5 => LockStep(2, List)
    case 6 => LockStep(2, Judge(true))
    case 7 => LockStep(2, End)
    case 8 => LockStep(2, List)
    case 9 => LockStep(2, Create)
    case 10 => LockStep(2, Relist)
    case 11 => LockStep(2, Remove(EndFile(1), true))
    case 12 => LockStep(1, CheckEnd)
    case 13 => LockStep(1, CheckLock)
    case 14 => LockStep(2, Remove(LockFile(1), true))
    case 15 => LockStep(2, Enter)
    case 16 => Read(2)
    case 17 => LockStep(2, CheckEnd)
    case 18 => LockStep(2, CheckLock)
    case 19 => Replace(2, SEEN)
    case _ => Replace(1, TO_BETA)
  }

  /** The folder after `n` events: what each process is doing, lock files, end markers, and the three records of history. */
  function LockAt(n: nat): State
    requires n <= 21
  {
    match n
    case 0 => State({}, {}, map[], {}, {}, {})
    case 1 => State({}, {}, map[1 := Creating(1)], {}, {}, {})
    case 2 => State({1}, {}, map[1 := Created(1)], {}, {}, {})
    case 3 => State({1}, {}, map[1 := Cleaning(1, {})], {}, {}, {1})
    case 4 => State({1}, {}, map[1 := Holding(1)], {}, {}, {1})
    case 5 => State({1}, {}, map[1 := Holding(1)], {}, {}, {1})
    case 6 => State({1}, {}, map[1 := Holding(1), 2 := Judging(1)], {}, {}, {1})
    case 7 => State({1}, {}, map[1 := Holding(1), 2 := Ending(1)], {}, {}, {1})
    case 8 => State({1}, {1}, map[1 := Holding(1), 2 := Idle], {1}, {}, {1})
    case 9 => State({1}, {1}, map[1 := Holding(1), 2 := Creating(2)], {1}, {}, {1})
    case 10 => State({1, 2}, {1}, map[1 := Holding(1), 2 := Created(2)], {1}, {}, {1})
    case 11 => State({1, 2}, {1}, map[1 := Holding(1), 2 := Cleaning(2, {LockFile(1), EndFile(1)})], {1}, {}, {1, 2})
    case 12 => State({1, 2}, {}, map[1 := Holding(1), 2 := Cleaning(2, {LockFile(1)})], {1}, {1}, {1, 2})
    case 13 => State({1, 2}, {}, map[1 := Checked(1), 2 := Cleaning(2, {LockFile(1)})], {1}, {1}, {1, 2})
    case 14 => State({1, 2}, {}, map[1 := Cleared(1), 2 := Cleaning(2, {LockFile(1)})], {1}, {1}, {1, 2})
    case 15 => State({2}, {}, map[1 := Cleared(1), 2 := Cleaning(2, {})], {1}, {1}, {1, 2})
    case 16 => State({2}, {}, map[1 := Cleared(1), 2 := Holding(2)], {1}, {1}, {1, 2})
    case 17 => State({2}, {}, map[1 := Cleared(1), 2 := Holding(2)], {1}, {1}, {1, 2})
    case 18 => State({2}, {}, map[1 := Cleared(1), 2 := Checked(2)], {1}, {1}, {1, 2})
    case 19 => State({2}, {}, map[1 := Cleared(1), 2 := Cleared(2)], {1}, {1}, {1, 2})
    case 20 => State({2}, {}, map[1 := Cleared(1), 2 := Holding(2)], {1}, {1}, {1, 2})
    case _ => State({2}, {}, map[1 := Holding(1), 2 := Holding(2)], {1}, {1}, {1, 2})
  }

  function MomentAt(n: nat): Moment
    requires n <= 21
  {
    if n <= 4 then Shop(LockAt(n), Missing, map[], [])
    else if n <= 16 then Shop(LockAt(n), Missing, map[1 := Missing], [])
    else if n <= 19 then Shop(LockAt(n), Missing, map[1 := Missing, 2 := Missing], [])
    else if n == 20 then Shop(LockAt(n), Holds(AFTER_SEEN), map[1 := Missing], [SEEN])
    else Shop(LockAt(n), Holds(AFTER_BETA), map[], [SEEN, TO_BETA])
  }

  lemma HighestIs(s: set<nat>, m: nat)
    requires (m == 0 && s == {}) || (m in s && forall g | g in s :: g <= m)
    ensures Highest(s) == m
  {
  }

  lemma FirstCreates(n: nat)
    requires n < 2
    ensures Do(MomentAt(n), SetterChange, EventAt(n)) == MomentAt(n + 1)
  {
    HighestIs({}, 0);
  }

  lemma FirstHolds(n: nat)
    requires 2 <= n < 5
    ensures Do(MomentAt(n), SetterChange, EventAt(n)) == MomentAt(n + 1)
  {
    HighestIs({1}, 1);
    assert Below(LockAt(2), 1) == {};
  }

  lemma SecondReclaims(n: nat)
    requires 5 <= n < 10
    ensures Do(MomentAt(n), SetterChange, EventAt(n)) == MomentAt(n + 1)
  {
    HighestIs({1}, 1);
  }

  lemma SecondPasses()
    ensures Do(MomentAt(10), SetterChange, EventAt(10)) == MomentAt(11)
  {
    HighestIs({1, 2}, 2);
    forall n ensures n in Below(LockAt(10), 2) <==> n == LockFile(1) || n == EndFile(1) {
    }
    assert Below(LockAt(10), 2) == {LockFile(1), EndFile(1)};
  }

  lemma CheckIsFooled(n: nat)
    requires 11 <= n < 15
    ensures Do(MomentAt(n), SetterChange, EventAt(n)) == MomentAt(n + 1)
  {
    assert {LockFile(1), EndFile(1)} - {EndFile(1)} == {LockFile(1)} && {LockFile(1)} - {LockFile(1)} == {};
    assert {1, 2} - {1} == {2} && {1} - {1} == {};
  }

  lemma SecondChecks(n: nat)
    requires 15 <= n < 19
    ensures Do(MomentAt(n), SetterChange, EventAt(n)) == MomentAt(n + 1)
  {
  }

  lemma SecondLands()
    ensures Do(MomentAt(19), SetterChange, EventAt(19)) == MomentAt(20)
  {
    assert [] + [SEEN] == [SEEN];
  }

  lemma FirstLands()
    ensures Do(MomentAt(20), SetterChange, EventAt(20)) == MomentAt(21)
  {
    assert [SEEN] + [TO_BETA] == [SEEN, TO_BETA];
  }

  lemma OneEvent(n: nat)
    requires n < 21
    ensures Do(MomentAt(n), SetterChange, EventAt(n)) == MomentAt(n + 1)
  {
    if n < 2 { FirstCreates(n); }
    else if n < 5 { FirstHolds(n); }
    else if n < 10 { SecondReclaims(n); }
    else if n == 10 { SecondPasses(); }
    else if n < 15 { CheckIsFooled(n); }
    else if n < 19 { SecondChecks(n); }
    else if n == 19 { SecondLands(); }
    else { FirstLands(); }
  }

  lemma {:induction false} RunOf(n: nat) returns (run: seq<Event<Setter>>)
    requires n <= 21
    ensures |run| == n && forall i | 0 <= i <= n :: Run(Missing, SetterChange, run[..i]) == MomentAt(i)
  {
    if n == 0 {
      run := [];
    } else {
      var before := RunOf(n - 1);
      run := before + [EventAt(n - 1)];
      OneEvent(n - 1);
      assert run[..n][..n - 1] == before[..n - 1];
      forall i | 0 <= i < n ensures run[..i] == before[..i] {
      }
    }
  }

  lemma FoldOfTwo(a: Setter, b: Setter)
    ensures Fold(Missing, SetterChange, [a, b]) == Apply(Apply(Missing, SetterChange, a), SetterChange, b)
  {
    var one, two := [a], [a, b];
    assert two[..|two| - 1] == one && one[..|one| - 1] == [];
    assert Fold(Missing, SetterChange, one[..|one| - 1]) == Missing;
  }

  /**
   The check can pass although the lock was reclaimed, and an update can be lost: process 1 goes from
   holding a reclaimed generation through both looks of the check, and the setting process 2 landed is
   gone from the file although both changes are in the log.
   */
  lemma ReclaimedHolderOverwrites() returns (run: seq<Event<Setter>>)
    ensures |run| == 21
    ensures
      var checking, cleared, last := Run(Missing, SetterChange, run[..12]), Run(Missing, SetterChange, run[..14]), Run(Missing, SetterChange, run);
      && At(checking.lock, 1) == Holding(1) && 1 in checking.lock.broken
      && At(cleared.lock, 1) == Cleared(1)
      && last.log == [SEEN, TO_BETA] && last.file == Holds(AFTER_BETA)
      && last.file != Fold(Missing, SetterChange, last.log)
  {
    run := RunOf(21);
    assert run[..21] == run;
    FoldOfTwo(SEEN, TO_BETA);
  }

  // --- a reclaim after the check -----------------------------------------------------------------------------

  /** A reclaimer that comes after the check: judge, end, list, create the next generation, list again. */
  function Takeover(): seq<Act> {
    [List, Judge(true), End, List, Create, Relist]
  }

  ghost function Taking(s: State, q: Pid, n: nat): State
    requires n <= 6
  {
    if n == 0 then s else Step(Taking(s, q, n - 1), q, Takeover()[n - 1])
  }

  /**
   The check comes before the rename and nothing ties the two: whoever has just passed it with its lock in
   place can be reclaimed then, and the rename it is about to do lands while another process holds the lock.
   */
  lemma ReclaimedAfterTheCheck(s: State, p: Pid, q: Pid)
    requires At(s, p).Cleared? && At(s, q).Idle? && p != q
    requires Highest(s.locks) == At(s, p).g > 0 && At(s, p).g !in s.ends
    ensures
      var t := Taking(s, q, 6);
      FileLock.Holds(t, q) && FileLock.Holds(t, p) && At(t, p) == At(s, p) && At(Step(t, p, Rename), p) == Holding(At(s, p).g)
  {
    var g := At(s, p).g;
    assert Taking(s, q, 1) == Put(s, q, Judging(g));
    assert Taking(s, q, 2) == Put(s, q, Ending(g));
    assert Taking(s, q, 3) == Put(s.(ends := s.ends + {g}, broken := s.broken + {g}), q, Idle);
    assert Taking(s, q, 4) == Put(s.(ends := s.ends + {g}, broken := s.broken + {g}), q, Creating(g + 1));
    HighestWith(s.locks, g + 1);
    assert At(Taking(s, q, 5), q) == Created(g + 1) && Taking(s, q, 5).locks == s.locks + {g + 1};
    assert At(Taking(s, q, 6), q).Cleaning?;
  }

  // --- a create that throws ----------------------------------------------------------------------------------

  /**
   Processes 1 and 2 both find nothing and go for generation 1; 2 gets it; 1's open throws something other
   than "exists", so 1 ends generation 1, and process 3 takes the next one while 2 holds on.
   */
  function FailureAt(n: nat): (Pid, Act)
    requires n < 10
  {
    match n
    case 0 => (1, List)
    case 1 => (2, List)
    case 2 => (2, Create)
    case 3 => (2, Relist)
    case 4 => (2, Enter)
    case 5 => (1, CreateThrows(false))
    case 6 => (1, Abandon)
    case 7 => (3, List)
    case 8 => (3, Create)
    case _ => (3, Relist)
  }

  function FolderAt(n: nat): State
    requires n <= 10
  {
    match n
    case 0 => State({}, {}, map[], {}, {}, {})
    case 1 => State({}, {}, map[1 := Creating(1)], {}, {}, {})
    case 2 => State({}, {}, map[1 := Creating(1), 2 := Creating(1)], {}, {}, {})
    case 3 => State({1}, {}, map[1 := Creating(1), 2 := Created(1)], {}, {}, {})
    case 4 => State({1}, {}, map[1 := Creating(1), 2 := Cleaning(1, {})], {}, {}, {1})
    case 5 => State({1}, {}, map[1 := Creating(1), 2 := Holding(1)], {}, {}, {1})
    case 6 => State({1}, {}, map[1 := Failing(1), 2 := Holding(1)], {}, {}, {1})
    case 7 => State({1}, {1}, map[1 := Idle, 2 := Holding(1)], {1}, {}, {1})
    case 8 => State({1}, {1}, map[1 := Idle, 2 := Holding(1), 3 := Creating(2)], {1}, {}, {1})
    case 9 => State({1, 2}, {1}, map[1 := Idle, 2 := Holding(1), 3 := Created(2)], {1}, {}, {1})
    case _ => State({1, 2}, {1}, map[1 := Idle, 2 := Holding(1), 3 := Cleaning(2, {LockFile(1), EndFile(1)})], {1}, {}, {1, 2})
  }

  lemma BothGoForIt(n: nat)
    requires n < 5
    ensures Step(FolderAt(n), FailureAt(n).0, FailureAt(n).1) == FolderAt(n + 1)
  {
    HighestIs({}, 0);
    HighestIs({1}, 1);
    assert Below(FolderAt(3), 1) == {};
  }

  lemma OneThrows(n: nat)
    requires 5 <= n < 9
    ensures Step(FolderAt(n), FailureAt(n).0, FailureAt(n).1) == FolderAt(n + 1)
  {
    HighestIs({1}, 1);
  }

  lemma ThirdPasses()
    ensures Step(FolderAt(9), 3, Relist) == FolderAt(10)
  {
    HighestIs({1, 2}, 2);
    forall n ensures n in Below(FolderAt(9), 2) <==> n == LockFile(1) || n == EndFile(1) {
    }
    assert Below(FolderAt(9), 2) == {LockFile(1), EndFile(1)};
  }

  lemma {:induction false} FailureRun(n: nat) returns (run: seq<(Pid, Act)>)
    requires n <= 10
    ensures |run| == n && After(run) == FolderAt(n) && forall e | e in run :: !e.1.Judge?
  {
    if n == 0 {
      run := [];
    } else {
      var before := FailureRun(n - 1);
      run := before + [FailureAt(n - 1)];
      assert run[..|run| - 1] == before;
      if n <= 5 { BothGoForIt(n - 1); } else if n <= 9 { OneThrows(n - 1); } else { ThirdPasses(); }
    }
  }

  /** With nobody judged gone at all, a create that throws takes the lock from the process that won it. */
  lemma FailedCreateEndsALiveLock() returns (run: seq<(Pid, Act)>)
    ensures forall e | e in run :: !e.1.Judge?
    ensures FileLock.Holds(After(run), 2) && FileLock.Holds(After(run), 3) && Gen(After(run).procs[2]) == 1 && Gen(After(run).procs[3]) == 2
  {
    run := FailureRun(10);
  }
}
