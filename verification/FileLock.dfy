/**
 The generation-numbered write lock beside a data file, as interleaved steps of any number of
 processes over one folder: `F.lock.<g>` and `F.lock.<g>.end`. Every directory read, exclusive
 create, existence test and removal is a step of its own, a process may crash between any two, and
 whether a holder looks gone is anybody's guess.
 */
module FileLock {

  type Pid = nat

  datatype Name = LockFile(g: nat) | EndFile(g: nat)

  /** Where a process is inside acquire, the locked change, or release. */
  datatype Phase =
    | Idle
    | Judging(m: nat)                       // listed m live, about to judge it
    | Ending(m: nat)                        // judged m gone, about to end it
    | Creating(g: nat)                      // found everything below g over, about to create g
    | Created(g: nat)                       // created g, about to list again
    | Losing(g: nat)                        // saw a later generation, about to end its own
    | Cleaning(g: nat, names: set<Name>)    // holds g, removing the older files it listed
    | Holding(g: nat)                       // runs the change
    | Checked(g: nat)                       // assertLockHeld saw no end marker
    | Cleared(g: nat)                       // assertLockHeld saw its lock file too: about to rename
    | Releasing(g: nat)                     // about to look whether its lock file is still there
    | Marking(g: nat)                       // about to create its end marker
    | Failing(g: nat)                       // its create of g threw, about to end g

  /**
   `broken`, `cleaned` and `passed` only record history: generations ended by somebody who did not hold them,
   a reclaimer or a process whose own create threw; markers a cleanup removed; generations held.
   */
  datatype State = State(locks: set<nat>, ends: set<nat>, procs: map<Pid, Phase>, broken: set<nat>, cleaned: set<nat>, passed: set<nat>)

  datatype Act =
    | List | Judge(breaks: bool) | End | Create | Relist | Lose | Remove(name: Name, worked: bool) | Enter
    | CheckEnd | CheckLock | Rename | Leave | Look | Mark | Crash
    | CreateThrows(made: bool) | Abandon

  ghost predicate IsHighest(s: set<nat>, m: nat) {
    (m == 0 || m in s) && forall g | g in s :: g <= m
  }

  lemma {:induction false} HasHighest(s: set<nat>)
    ensures exists m :: IsHighest(s, m)
  {
    if s == {} {
      assert IsHighest(s, 0);
    } else {
      var x :| x in s;
      HasHighest(s - {x});
      var m :| IsHighest(s - {x}, m);
      assert forall g | g in s :: g == x || g in s - {x};
      assert IsHighest(s, if x > m then x else m);
    }
  }

  /** The highest generation with a lock file; 0 when none. */
  ghost function Highest(s: set<nat>): (m: nat)
    ensures m == 0 || m in s
    ensures forall g | g in s :: g <= m
  {
    HasHighest(s);
    var m: nat :| IsHighest(s, m);
    m
  }

  function At(s: State, p: Pid): Phase {
    if p in s.procs then s.procs[p] else Idle
  }

  function Put(s: State, p: Pid, ph: Phase): State {
    s.(procs := s.procs[p := ph])
  }

  ghost function Below(s: State, g: nat): set<Name> {
    (set h | h in s.locks && h < g :: LockFile(h)) + (set h | h in s.ends && h < g :: EndFile(h))
  }

  function Without(s: State, n: Name): State {
    match n
    case LockFile(g) => s.(locks := s.locks - {g})
    case EndFile(g) => if g in s.ends then s.(ends := s.ends - {g}, cleaned := s.cleaned + {g}) else s
  }

  /** One step of one process; a step that does not fit its phase does nothing. */
  ghost function Step(s: State, p: Pid, act: Act): State {
    var ph := At(s, p);
    match act
    case Crash => Put(s, p, Idle)
    case List =>
      if !ph.Idle? then s
      else
        var m := Highest(s.locks);
        Put(s, p, if m > 0 && m !in s.ends then Judging(m) else Creating(m + 1))
    case Judge(breaks) =>
      if !ph.Judging? then s else Put(s, p, if breaks && ph.m in s.locks then Ending(ph.m) else Idle)
    case End =>
      if !ph.Ending? then s else Put(s.(ends := s.ends + {ph.m}, broken := s.broken + {ph.m}), p, Idle)
    case Create =>
      if !ph.Creating? then s
      else if ph.g in s.locks then Put(s, p, Idle)
      else Put(s.(locks := s.locks + {ph.g}), p, Created(ph.g))
    case Relist =>
      if !ph.Created? then s
      else if Highest(s.locks) > ph.g then Put(s, p, Losing(ph.g))
      else Put(s.(passed := s.passed + {ph.g}), p, Cleaning(ph.g, Below(s, ph.g)))
    case Lose =>
      if !ph.Losing? then s else Put(s.(ends := s.ends + {ph.g}), p, Idle)
    case Remove(n, worked) =>
      if !ph.Cleaning? || n !in ph.names then s
      else Put(if worked then Without(s, n) else s, p, Cleaning(ph.g, ph.names - {n}))
    case Enter =>
      if ph.Cleaning? && ph.names == {} then Put(s, p, Holding(ph.g)) else s
    case CheckEnd =>
      if !ph.Holding? then s else Put(s, p, if ph.g in s.ends then Releasing(ph.g) else Checked(ph.g))
    case CheckLock =>
      if !ph.Checked? then s else Put(s, p, if ph.g in s.locks then Cleared(ph.g) else Releasing(ph.g))
    case Rename =>
      if ph.Cleared? then Put(s, p, Holding(ph.g)) else s
    case Leave =>
      if ph.Holding? then Put(s, p, Releasing(ph.g)) else s
    case Look =>
      if !ph.Releasing? then s else Put(s, p, if ph.g in s.locks then Marking(ph.g) else Idle)
    case Mark =>
      if !ph.Marking? then s else Put(s.(ends := s.ends + {ph.g}), p, Idle)
    case CreateThrows(made) =>
      if !ph.Creating? || (made && ph.g in s.locks) then s
      else Put(if made then s.(locks := s.locks + {ph.g}) else s, p, Failing(ph.g))
    case Abandon =>
      if !ph.Failing? then s else Put(s.(ends := s.ends + {ph.g}, broken := s.broken + {ph.g}), p, Idle)
  }

  const EMPTY := State({}, {}, map[], {}, {}, {})

  /** Every interleaving of every process's steps is one such sequence. */
  ghost function After(run: seq<(Pid, Act)>): State {
    if run == [] then EMPTY
    else Step(After(run[..|run| - 1]), run[|run| - 1].0, run[|run| - 1].1)
  }

  // --- the invariant ----------------------------------------------------------------------------

  /** The process believes it holds the lock of this generation, and has not begun to give it up. */
  predicate Inside(ph: Phase) {
    ph.Cleaning? || ph.Holding? || ph.Checked? || ph.Cleared?
  }

  predicate Owner(ph: Phase) {
    Inside(ph) || ph.Releasing? || ph.Marking?
  }

  function Gen(ph: Phase): nat {
    match ph
    case Idle => 0
    case Judging(m) => m
    case Ending(m) => m
    case Creating(g) => g
    case Created(g) => g
    case Losing(g) => g
    case Cleaning(g, _) => g
    case Holding(g) => g
    case Checked(g) => g
    case Cleared(g) => g
    case Releasing(g) => g
    case Marking(g) => g
    case Failing(g) => g
  }

  /** No generation beyond the next one is ever spoken of, and cleanup only ever names older ones. */
  ghost predicate Bounded(s: State) {
    var top := Highest(s.locks);
    && (forall e | e in s.ends :: e <= top || (e == top + 1 && e in s.broken))
    && (forall g | g in s.broken :: g <= top + 1)
    && (forall g | g in s.passed + s.cleaned :: g <= top)
    && (forall p | p in s.procs :: Gen(s.procs[p]) <= if s.procs[p].Creating? || s.procs[p].Failing? then top + 1 else top)
    && (forall p | p in s.procs && !s.procs[p].Idle? && !s.procs[p].Judging? && !s.procs[p].Ending? :: Gen(s.procs[p]) >= 1)
    && (forall p, n | p in s.procs && s.procs[p].Cleaning? && n in s.procs[p].names :: n.g < s.procs[p].g)
  }

  ghost predicate OwnersPassed(s: State) {
    forall p | p in s.procs && Owner(s.procs[p]) :: Gen(s.procs[p]) in s.passed
  }

  ghost predicate RecreatorsLose(s: State) {
    forall p | p in s.procs && s.procs[p].Created? && s.procs[p].g in s.passed :: Highest(s.locks) > s.procs[p].g
  }

  ghost predicate RivalsLose(s: State) {
    forall p, q | p in s.procs && q in s.procs && p != q && s.procs[p].Created? && s.procs[q].Created? && s.procs[p].g == s.procs[q].g ::
      Highest(s.locks) > s.procs[p].g
  }

  ghost predicate OwnersDiffer(s: State) {
    forall p, q | p in s.procs && q in s.procs && p != q && Owner(s.procs[p]) && Owner(s.procs[q]) :: Gen(s.procs[p]) != Gen(s.procs[q])
  }

  /** A generation is held once: a second creator of the same name has a later generation above it, and will lose. */
  ghost predicate HeldOnce(s: State) {
    OwnersPassed(s) && RecreatorsLose(s) && RivalsLose(s) && OwnersDiffer(s)
  }

  /** The process holds its generation, or will when it lists again. */
  ghost predicate Winning(s: State, p: Pid) {
    p in s.procs && (Inside(s.procs[p]) || (s.procs[p].Created? && Highest(s.locks) == s.procs[p].g))
  }

  /** Something is on its way past generation `g`. */
  ghost predicate Overtaken(s: State, g: nat) {
    g in s.ends || Highest(s.locks) > g || exists q | q in s.procs :: s.procs[q].Creating? && s.procs[q].g > g
  }

  /** Nothing gets past a generation somebody holds, unless somebody else ended it; a loser has been overtaken. */
  ghost predicate OnlyBreaksOvertake(s: State) {
    && (forall p | Winning(s, p) && Overtaken(s, Gen(s.procs[p])) :: Gen(s.procs[p]) in s.broken)
    && (forall p | p in s.procs && s.procs[p].Losing? :: Highest(s.locks) > s.procs[p].g)
  }

  /** A broken generation keeps its marker until the cleanup of a later holder removes it. */
  ghost predicate MarkersStay(s: State) {
    && (forall g | g in s.broken :: g in s.ends || g in s.cleaned)
    && (forall g | g in s.cleaned :: exists h | h in s.passed :: h > g)
  }

  ghost predicate Inv(s: State) {
    Bounded(s) && HeldOnce(s) && OnlyBreaksOvertake(s) && MarkersStay(s)
  }

  lemma HighestGrows(s: set<nat>, t: set<nat>)
    requires forall g | g in s && g !in t :: exists h | h in t :: h >= g
    ensures Highest(s) <= Highest(t)
  {
  }

  /** No step ever lowers the highest lock file. */
  lemma TopNeverFalls(s: State, p: Pid, act: Act)
    requires Bounded(s)
    ensures Highest(s.locks) <= Highest(Step(s, p, act).locks)
  {
    var t := Step(s, p, act);
    if act.Remove? && act.name.LockFile? && At(s, p).Cleaning? && act.name in At(s, p).names && act.worked {
      assert p in s.procs;
      assert act.name.g < At(s, p).g <= Highest(s.locks);
      assert Highest(s.locks) in t.locks;
    } else {
      assert s.locks <= t.locks;
      HighestGrows(s.locks, t.locks);
    }
  }

  lemma HighestWith(s: set<nat>, g: nat)
    ensures Highest(s + {g}) == if g > Highest(s) then g else Highest(s)
  {
    assert g in s + {g};
    assert forall h | h in s :: h in s + {g};
  }

  // --- each kind of step keeps the invariant ---------------------------------------------------------

  /** A step that only moves its own process: to no generation of its own, to a lost one, or along the one it holds. */
  ghost predicate PlainMove(s: State, p: Pid, ph: Phase) {
    || ph.Idle?
    || ((ph.Judging? || ph.Ending?) && ph.m <= Highest(s.locks))
    || (ph.Losing? && 1 <= ph.g < Highest(s.locks))
    || (ph.Failing? && 1 <= ph.g <= Highest(s.locks) + 1)
    || (Owner(ph) && p in s.procs && Owner(s.procs[p]) && Gen(s.procs[p]) == Gen(ph)
        && (Inside(ph) ==> Inside(s.procs[p]))
        && (ph.Cleaning? ==> s.procs[p].Cleaning? && ph.names <= s.procs[p].names))
  }

  lemma PlainMoveKeepsOrder(s: State, p: Pid, ph: Phase)
    requires Inv(s) && PlainMove(s, p, ph)
    ensures Bounded(Put(s, p, ph)) && MarkersStay(Put(s, p, ph))
  {
  }

  lemma PlainMoveKeepsOwners(s: State, p: Pid, ph: Phase)
    requires Inv(s) && PlainMove(s, p, ph)
    ensures OwnersPassed(Put(s, p, ph)) && OwnersDiffer(Put(s, p, ph))
  {
    var t := Put(s, p, ph);
    forall q | q in t.procs && Owner(t.procs[q]) ensures q in s.procs && Owner(s.procs[q]) && Gen(s.procs[q]) == Gen(t.procs[q]) {
    }
  }

  lemma PlainMoveKeepsCreators(s: State, p: Pid, ph: Phase)
    requires Inv(s) && PlainMove(s, p, ph)
    ensures RecreatorsLose(Put(s, p, ph)) && RivalsLose(Put(s, p, ph))
  {
    var t := Put(s, p, ph);
    forall q | q in t.procs && t.procs[q].Created? ensures q in s.procs && s.procs[q] == t.procs[q] {
    }
  }

  lemma PlainMoveKeeps(s: State, p: Pid, ph: Phase)
    requires Inv(s) && PlainMove(s, p, ph)
    ensures Inv(Put(s, p, ph))
  {
    PlainMoveKeepsOrder(s, p, ph);
    PlainMoveKeepsOwners(s, p, ph);
    PlainMoveKeepsCreators(s, p, ph);
    var t := Put(s, p, ph);
    forall q | Winning(t, q) && Overtaken(t, Gen(t.procs[q])) ensures Gen(t.procs[q]) in t.broken {
      StillOvertaken(s, p, ph, Gen(t.procs[q]));
      assert Winning(s, q) && Gen(s.procs[q]) == Gen(t.procs[q]);
    }
  }

  lemma StillOvertaken(s: State, p: Pid, ph: Phase, g: nat)
    requires !ph.Creating? && Overtaken(Put(s, p, ph), g)
    ensures Overtaken(s, g)
  {
    var t := Put(s, p, ph);
    if x :| x in t.procs && t.procs[x].Creating? && t.procs[x].g > g {
      assert x in s.procs && s.procs[x] == t.procs[x];
    }
  }

  function Listed(s: State, p: Pid, g: nat): State {
    Put(s, p, Creating(g))
  }

  lemma ListKeepsOrder(s: State, p: Pid)
    requires Inv(s)
    ensures Bounded(Listed(s, p, Highest(s.locks) + 1)) && MarkersStay(Listed(s, p, Highest(s.locks) + 1))
  {
  }

  lemma ListKeepsHeldOnce(s: State, p: Pid)
    requires Inv(s)
    ensures HeldOnce(Listed(s, p, Highest(s.locks) + 1))
  {
    var t := Listed(s, p, Highest(s.locks) + 1);
    forall q | q in t.procs && (Owner(t.procs[q]) || t.procs[q].Created?) ensures q in s.procs && s.procs[q] == t.procs[q] {
    }
  }

  /** Deciding to create the next generation: whatever is held below was ended, or already overtaken. */
  lemma ListKeeps(s: State, p: Pid)
    requires Inv(s) && (Highest(s.locks) == 0 || Highest(s.locks) in s.ends)
    ensures Inv(Listed(s, p, Highest(s.locks) + 1))
  {
    ListKeepsOrder(s, p);
    ListKeepsHeldOnce(s, p);
    var t := Listed(s, p, Highest(s.locks) + 1);
    forall q | Winning(t, q) ensures Gen(t.procs[q]) in t.broken {
      WasWinning(s, p, Creating(Highest(s.locks) + 1), q);
      WinnersAreOvertaken(s, q);
    }
  }

  lemma WinnersAreOvertaken(s: State, q: Pid)
    requires Inv(s) && (Highest(s.locks) == 0 || Highest(s.locks) in s.ends) && Winning(s, q)
    ensures Gen(s.procs[q]) in s.broken
  {
    assert 1 <= Gen(s.procs[q]) <= Highest(s.locks);
    assert Overtaken(s, Gen(s.procs[q]));
  }

  lemma WasWinning(s: State, p: Pid, ph: Phase, q: Pid)
    requires Winning(Put(s, p, ph), q) && !Inside(ph) && !ph.Created?
    ensures q != p && Winning(s, q) && Put(s, p, ph).procs[q] == s.procs[q]
  {
  }

  function Ended(s: State, p: Pid, g: nat, breaks: bool): State {
    Put(s.(ends := s.ends + {g}, broken := if breaks then s.broken + {g} else s.broken), p, Idle)
  }

  lemma EndKeepsOrder(s: State, p: Pid, g: nat, breaks: bool)
    requires Inv(s) && g <= if breaks then Highest(s.locks) + 1 else Highest(s.locks)
    ensures Bounded(Ended(s, p, g, breaks)) && HeldOnce(Ended(s, p, g, breaks)) && MarkersStay(Ended(s, p, g, breaks))
  {
  }

  /** A step that ends a generation: a reclaimer's or a failed creator's is on record, any other ends one nobody wins with. */
  lemma EndKeeps(s: State, p: Pid, g: nat, breaks: bool)
    requires Inv(s) && g <= if breaks then Highest(s.locks) + 1 else Highest(s.locks)
    requires !breaks ==> forall q | Winning(s, q) && q != p && Gen(s.procs[q]) == g :: g in s.broken
    ensures Inv(Ended(s, p, g, breaks))
  {
    EndKeepsOrder(s, p, g, breaks);
    var t := Ended(s, p, g, breaks);
    forall q | Winning(t, q) ensures Gen(t.procs[q]) in t.broken || !Overtaken(t, Gen(t.procs[q])) {
      assert Winning(s, q) && q != p && t.procs[q] == s.procs[q];
      if Overtaken(t, Gen(s.procs[q])) { NotNewlyCreating(s, t, p, Gen(s.procs[q]), g); }
    }
  }

  lemma NotNewlyCreating(s: State, t: State, p: Pid, g: nat, ended: nat)
    requires t.procs == s.procs[p := Idle] && t.locks == s.locks && t.ends == s.ends + {ended} && Overtaken(t, g)
    ensures g == ended || Overtaken(s, g)
  {
    if q :| q in t.procs && t.procs[q].Creating? && t.procs[q].g > g {
      assert q in s.procs && s.procs[q] == t.procs[q];
    }
  }

  // --- creating ---------------------------------------------------------------------------------------

  function Made(s: State, p: Pid, g: nat): State {
    Put(s.(locks := s.locks + {g}), p, Created(g))
  }

  lemma CreateKeepsOrder(s: State, p: Pid, g: nat)
    requires Inv(s) && 1 <= g <= Highest(s.locks) + 1 && g !in s.locks
    ensures Bounded(Made(s, p, g)) && MarkersStay(Made(s, p, g))
  {
    HighestWith(s.locks, g);
  }

  lemma CreateKeepsOwners(s: State, p: Pid, g: nat)
    requires Inv(s)
    ensures OwnersPassed(Made(s, p, g)) && OwnersDiffer(Made(s, p, g))
  {
    var t := Made(s, p, g);
    forall q | q in t.procs && Owner(t.procs[q]) ensures q in s.procs && s.procs[q] == t.procs[q] {
    }
  }

  lemma CreateKeepsRecreators(s: State, p: Pid, g: nat)
    requires Inv(s) && 1 <= g <= Highest(s.locks) + 1 && g !in s.locks
    ensures RecreatorsLose(Made(s, p, g))
  {
    HighestWith(s.locks, g);
    var t := Made(s, p, g);
    forall q | q in t.procs && t.procs[q].Created? && t.procs[q].g in t.passed ensures Highest(t.locks) > t.procs[q].g {
      if q != p { assert s.procs[q] == t.procs[q]; }
    }
  }

  lemma CreateKeepsRivals(s: State, p: Pid, g: nat)
    requires Inv(s) && 1 <= g <= Highest(s.locks) + 1 && g !in s.locks
    ensures RivalsLose(Made(s, p, g))
  {
    HighestWith(s.locks, g);
    var t := Made(s, p, g);
    forall x, y | x in t.procs && y in t.procs && x != y && t.procs[x].Created? && t.procs[y].Created? && t.procs[x].g == t.procs[y].g
      ensures Highest(t.locks) > t.procs[x].g
    {
      var other := if x == p then y else x;
      assert s.procs[other] == t.procs[other] && s.procs[other].g <= Highest(s.locks);
    }
  }

  /** Creating a generation: new at the top it was nobody's and nothing is past it, unless a failed create ended it; lower, it will lose. */
  lemma CreateKeeps(s: State, p: Pid)
    requires Inv(s) && p in s.procs && s.procs[p].Creating? && s.procs[p].g !in s.locks
    ensures Inv(Made(s, p, s.procs[p].g))
  {
    var g := s.procs[p].g;
    CreateKeepsOrder(s, p, g);
    CreateKeepsOwners(s, p, g);
    CreateKeepsRecreators(s, p, g);
    CreateKeepsRivals(s, p, g);
    HighestWith(s.locks, g);
    var t := Made(s, p, g);
    forall q | Winning(t, q) ensures Gen(t.procs[q]) in t.broken || !Overtaken(t, Gen(t.procs[q])) {
      if q != p {
        assert t.procs[q] == s.procs[q];
        if Overtaken(t, Gen(s.procs[q])) { OvertakenBefore(s, t, p, q); }
      } else {
        NewTopIsFreeOrBroken(s, t, p, g);
      }
    }
  }

  lemma OvertakenBefore(s: State, t: State, p: Pid, q: Pid)
    requires Inv(s) && p in s.procs && s.procs[p].Creating? && s.procs[p].g !in s.locks && t == Made(s, p, s.procs[p].g)
    requires q != p && Winning(t, q) && Overtaken(t, Gen(t.procs[q]))
    ensures Winning(s, q) && Overtaken(s, Gen(s.procs[q]))
  {
    HighestWith(s.locks, s.procs[p].g);
    if x :| x in t.procs && t.procs[x].Creating? && t.procs[x].g > Gen(t.procs[q]) {
      assert x in s.procs && s.procs[x] == t.procs[x];
    }
  }

  lemma NewTopIsFreeOrBroken(s: State, t: State, p: Pid, g: nat)
    requires Inv(s) && 1 <= g <= Highest(s.locks) + 1 && g !in s.locks && t == Made(s, p, g) && Winning(t, p)
    ensures Overtaken(t, g) ==> g in t.broken
  {
    HighestWith(s.locks, g);
    assert g == Highest(s.locks) + 1;
  }

  // --- passing, and cleaning up ---------------------------------------------------------------------------

  ghost function Passed(s: State, p: Pid, g: nat): State {
    Put(s.(passed := s.passed + {g}), p, Cleaning(g, Below(s, g)))
  }

  lemma PassKeeps(s: State, p: Pid)
    requires Inv(s) && p in s.procs && s.procs[p].Created? && Highest(s.locks) <= s.procs[p].g
    ensures Inv(Passed(s, p, s.procs[p].g))
  {
    var g := s.procs[p].g;
    var t := Passed(s, p, g);
    PassKeepsOrder(s, p);
    forall q | Winning(t, q) ensures Gen(t.procs[q]) in t.broken || !Overtaken(t, Gen(t.procs[q])) {
      assert Winning(s, q) && Gen(t.procs[q]) == Gen(s.procs[q]);
      if x :| x in t.procs && t.procs[x].Creating? && t.procs[x].g > Gen(t.procs[q]) {
        assert x in s.procs && s.procs[x] == t.procs[x];
      }
      assert Overtaken(t, Gen(t.procs[q])) ==> Overtaken(s, Gen(s.procs[q]));
    }
  }

  lemma PassKeepsOrder(s: State, p: Pid)
    requires Inv(s) && p in s.procs && s.procs[p].Created? && Highest(s.locks) <= s.procs[p].g
    ensures
      var t := Passed(s, p, s.procs[p].g);
      Bounded(t) && HeldOnce(t) && MarkersStay(t)
  {
    assert Highest(s.locks) == s.procs[p].g;
    PassKeepsBounds(s, p);
    PassKeepsOwners(s, p);
    PassKeepsCreators(s, p);
  }

  lemma PassKeepsBounds(s: State, p: Pid)
    requires Inv(s) && p in s.procs && s.procs[p].Created? && Highest(s.locks) == s.procs[p].g
    ensures Bounded(Passed(s, p, s.procs[p].g)) && MarkersStay(Passed(s, p, s.procs[p].g))
  {
  }

  lemma PassKeepsOwners(s: State, p: Pid)
    requires Inv(s) && p in s.procs && s.procs[p].Created? && Highest(s.locks) == s.procs[p].g
    ensures OwnersPassed(Passed(s, p, s.procs[p].g)) && OwnersDiffer(Passed(s, p, s.procs[p].g))
  {
    var t := Passed(s, p, s.procs[p].g);
    assert s.procs[p].g !in s.passed;
    forall q | q in t.procs && Owner(t.procs[q]) && q != p ensures s.procs[q] == t.procs[q] && Gen(t.procs[q]) != s.procs[p].g {
    }
  }

  lemma PassKeepsCreators(s: State, p: Pid)
    requires Inv(s) && p in s.procs && s.procs[p].Created? && Highest(s.locks) == s.procs[p].g
    ensures RecreatorsLose(Passed(s, p, s.procs[p].g)) && RivalsLose(Passed(s, p, s.procs[p].g))
  {
    var t := Passed(s, p, s.procs[p].g);
    forall q | q in t.procs && t.procs[q].Created? ensures q != p && s.procs[q] == t.procs[q] {
    }
  }

  lemma RemoveKeeps(s: State, p: Pid, n: Name)
    requires Inv(s) && p in s.procs && s.procs[p].Cleaning? && n in s.procs[p].names
    ensures Inv(Without(s, n))
  {
    var g := s.procs[p].g;
    assert n.g < g <= Highest(s.locks) && g in s.passed;
    var t := Without(s, n);
    assert Highest(s.locks) in t.locks;
    HighestGrows(s.locks, t.locks);
    HighestGrows(t.locks, s.locks);
    forall q | Winning(t, q) ensures Gen(t.procs[q]) in t.broken || !Overtaken(t, Gen(t.procs[q])) {
      assert Winning(s, q);
      assert Overtaken(t, Gen(t.procs[q])) ==> Overtaken(s, Gen(s.procs[q]));
    }
  }

  // --- every step, every run ----------------------------------------------------------------------------

  /** A loser has been overtaken, a marker is the work of the one holder: neither ends what somebody else wins with. */
  lemma OwnEndIsHarmless(s: State, p: Pid, q: Pid)
    requires Inv(s) && p in s.procs && (s.procs[p].Losing? || s.procs[p].Marking?)
    requires Winning(s, q) && q != p && Gen(s.procs[q]) == s.procs[p].g
    ensures s.procs[p].g in s.broken
  {
    if s.procs[p].Losing? {
      assert Overtaken(s, Gen(s.procs[q]));
    }
  }

  /** What one listing does: nothing, a wait on the generation that rules, or a claim of the next one. */
  lemma ListCases(s: State, p: Pid)
    ensures
      var m := Highest(s.locks);
      Step(s, p, List) ==
      if !At(s, p).Idle? then s else if m > 0 && m !in s.ends then Put(s, p, Judging(m)) else Listed(s, p, m + 1)
  {
  }

  lemma ListStepKeeps(s: State, p: Pid)
    requires Inv(s)
    ensures Inv(Step(s, p, List))
  {
    var m := Highest(s.locks);
    ListCases(s, p);
    if At(s, p).Idle? {
      if m > 0 && m !in s.ends {
        PlainMoveKeeps(s, p, Judging(m));
      } else {
        ListKeeps(s, p);
      }
    }
  }

  lemma EndStepKeeps(s: State, p: Pid)
    requires Inv(s)
    ensures Inv(Step(s, p, End))
  {
    if At(s, p).Ending? { EndKeeps(s, p, At(s, p).m, true); }
  }

  lemma CreateStepKeeps(s: State, p: Pid)
    requires Inv(s)
    ensures Inv(Step(s, p, Create))
  {
    if At(s, p).Creating? {
      if At(s, p).g in s.locks { PlainMoveKeeps(s, p, Idle); } else { CreateKeeps(s, p); }
    }
  }

  /** A create that threw after it made the file is a create, then a failure; one that made nothing only fails. */
  lemma ThrownCases(s: State, p: Pid, made: bool)
    ensures
      Step(s, p, CreateThrows(made)) ==
      if !At(s, p).Creating? || (made && At(s, p).g in s.locks) then s
      else Put(if made then Made(s, p, At(s, p).g) else s, p, Failing(At(s, p).g))
  {
  }

  lemma MadeInVainKeeps(s: State, p: Pid)
    requires Inv(s) && At(s, p).Creating? && At(s, p).g !in s.locks
    ensures Inv(Put(Made(s, p, At(s, p).g), p, Failing(At(s, p).g)))
  {
    CreateKeeps(s, p);
    HighestWith(s.locks, At(s, p).g);
    PlainMoveKeeps(Made(s, p, At(s, p).g), p, Failing(At(s, p).g));
  }

  lemma ThrownCreateKeeps(s: State, p: Pid, made: bool)
    requires Inv(s)
    ensures Inv(Step(s, p, CreateThrows(made)))
  {
    ThrownCases(s, p, made);
    if At(s, p).Creating? {
      if !made {
        PlainMoveKeeps(s, p, Failing(At(s, p).g));
      } else if At(s, p).g !in s.locks {
        MadeInVainKeeps(s, p);
      }
    }
  }

  lemma AbandonStepKeeps(s: State, p: Pid)
    requires Inv(s)
    ensures Inv(Step(s, p, Abandon))
  {
    if At(s, p).Failing? { EndKeeps(s, p, At(s, p).g, true); }
  }

  lemma RelistStepKeeps(s: State, p: Pid)
    requires Inv(s)
    ensures Inv(Step(s, p, Relist))
  {
    if At(s, p).Created? {
      if Highest(s.locks) > At(s, p).g { PlainMoveKeeps(s, p, Losing(At(s, p).g)); } else { PassKeeps(s, p); }
    }
  }

  lemma OwnEndStepKeeps(s: State, p: Pid, act: Act)
    requires Inv(s) && (act.Lose? || act.Mark?)
    ensures Inv(Step(s, p, act))
  {
    if (act.Lose? && At(s, p).Losing?) || (act.Mark? && At(s, p).Marking?) { OwnEndKeeps(s, p); }
  }

  lemma RemoveStepKeeps(s: State, p: Pid, n: Name, worked: bool)
    requires Inv(s)
    ensures Inv(Step(s, p, Remove(n, worked)))
  {
    if At(s, p).Cleaning? && n in At(s, p).names { CleanupKeeps(s, p, n, worked); }
  }

  lemma StepKeeps(s: State, p: Pid, act: Act)
    requires Inv(s)
    ensures Inv(Step(s, p, act))
  {
    match act {
      case List => ListStepKeeps(s, p);
      case End => EndStepKeeps(s, p);
      case Create => CreateStepKeeps(s, p);
      case Relist => RelistStepKeeps(s, p);
      case Lose => OwnEndStepKeeps(s, p, act);
      case Mark => OwnEndStepKeeps(s, p, act);
      case Remove(n, worked) => RemoveStepKeeps(s, p, n, worked);
      case CreateThrows(made) => ThrownCreateKeeps(s, p, made);
      case Abandon => AbandonStepKeeps(s, p);
      case _ => OtherStepsKeep(s, p, act);
    }
  }

  lemma OwnEndKeeps(s: State, p: Pid)
    requires Inv(s) && p in s.procs && (s.procs[p].Losing? || s.procs[p].Marking?)
    ensures Inv(Put(s.(ends := s.ends + {s.procs[p].g}), p, Idle))
  {
    forall q | Winning(s, q) && q != p && Gen(s.procs[q]) == s.procs[p].g ensures s.procs[p].g in s.broken {
      OwnEndIsHarmless(s, p, q);
    }
    EndKeeps(s, p, s.procs[p].g, false);
    assert Ended(s, p, s.procs[p].g, false) == Put(s.(ends := s.ends + {s.procs[p].g}), p, Idle);
  }

  lemma CleanupKeeps(s: State, p: Pid, n: Name, worked: bool)
    requires Inv(s) && p in s.procs && s.procs[p].Cleaning? && n in s.procs[p].names
    ensures Inv(Put(if worked then Without(s, n) else s, p, Cleaning(s.procs[p].g, s.procs[p].names - {n})))
  {
    if worked { RemoveKeeps(s, p, n); }
    PlainMoveKeeps(if worked then Without(s, n) else s, p, Cleaning(s.procs[p].g, s.procs[p].names - {n}));
  }

  lemma OtherStepsKeep(s: State, p: Pid, act: Act)
    requires Inv(s)
    requires act.Crash? || act.Judge? || act.Enter? || act.CheckEnd? || act.CheckLock? || act.Rename? || act.Leave? || act.Look?
    ensures Inv(Step(s, p, act))
  {
    var t := Step(s, p, act);
    if t != s {
      PlainMoveKeeps(s, p, At(t, p));
    }
  }

  lemma {:induction false} RunKeeps(run: seq<(Pid, Act)>)
    ensures Inv(After(run))
  {
    if run != [] {
      RunKeeps(run[..|run| - 1]);
      StepKeeps(After(run[..|run| - 1]), run[|run| - 1].0, run[|run| - 1].1);
    }
  }

  predicate Holds(s: State, p: Pid) {
    p in s.procs && Inside(s.procs[p])
  }

  /**
   Mutual exclusion, whatever the judgements: in every interleaving of any number of processes, crashes and
   failing creates included, two processes hold the lock at once only if the older generation was ended under
   its holder, by a reclaimer or by a process whose own create of it threw; one generation is never held twice.
   */
  lemma ExclusiveUnlessBroken(run: seq<(Pid, Act)>, p: Pid, q: Pid)
    requires p != q && Holds(After(run), p) && Holds(After(run), q)
    ensures
      var s := After(run);
      && Gen(s.procs[p]) != Gen(s.procs[q])
      && (Gen(s.procs[p]) < Gen(s.procs[q]) ==> Gen(s.procs[p]) in s.broken)
      && (Gen(s.procs[q]) < Gen(s.procs[p]) ==> Gen(s.procs[q]) in s.broken)
  {
    RunKeeps(run);
    var s := After(run);
    assert Winning(s, p) && Winning(s, q);
    if Gen(s.procs[p]) < Gen(s.procs[q]) { assert Overtaken(s, Gen(s.procs[p])); }
    if Gen(s.procs[q]) < Gen(s.procs[p]) { assert Overtaken(s, Gen(s.procs[q])); }
  }

  /**
   What the pre-rename check proves: a holder whose check finds no end marker although its generation
   was broken has been overtaken by a later holder, whose cleanup had already removed the marker.
   */
  lemma CheckMissesOnlyCleanedMarkers(run: seq<(Pid, Act)>, p: Pid)
    requires At(After(run), p).Holding? && At(After(run + [(p, CheckEnd)]), p).Checked?
    requires At(After(run), p).g in After(run).broken
    ensures
      var s, g := After(run), At(After(run), p).g;
      g in s.cleaned && exists h | h in s.passed :: h > g
  {
    RunKeeps(run);
    assert (run + [(p, CheckEnd)])[..|run|] == run;
  }

  // --- when the judgements are right ------------------------------------------------------------------------

  /**
   Nobody who judges a lock gone is wrong: its creator does not hold it and never will. And a create throws
   without having made its file only where a later generation's file is there and nobody holds that one:
   the marker it leaves then falls on a generation that is over.
   */
  ghost predicate Fair(s: State, p: Pid, act: Act) {
    && (act == Judge(true) && At(s, p).Judging? ==> !Claimed(s, At(s, p).m))
    && (act == CreateThrows(false) && At(s, p).Creating? ==> At(s, p).g <= Highest(s.locks) && !Claimed(s, At(s, p).g))
  }

  ghost predicate Truthful(run: seq<(Pid, Act)>) {
    forall i | 0 <= i < |run| :: Fair(After(run[..i]), run[i].0, run[i].1)
  }

  ghost predicate Claimed(s: State, g: nat) {
    exists q :: Winning(s, q) && Gen(s.procs[q]) == g
  }

  /** No generation that was broken, or is about to be, is claimed by anybody, or can be. */
  ghost predicate NoVictim(s: State) {
    && (forall g | g in s.broken :: g <= Highest(s.locks) && !Claimed(s, g))
    && (forall p | p in s.procs && s.procs[p].Ending? :: !Claimed(s, s.procs[p].m))
    && (forall p | p in s.procs && s.procs[p].Failing? :: s.procs[p].g <= Highest(s.locks) && !Claimed(s, s.procs[p].g))
  }

  /** Whoever is inside after a step was inside before it, or passed its second listing just then. */
  lemma InsideBefore(s: State, p: Pid, act: Act, q: Pid)
    requires Inside(At(Step(s, p, act), q))
    ensures q in s.procs && Gen(s.procs[q]) == Gen(At(Step(s, p, act), q))
    ensures Inside(s.procs[q]) || (s.procs[q].Created? && Highest(s.locks) <= s.procs[q].g)
  {
  }

  lemma CreatedBefore(s: State, p: Pid, act: Act, q: Pid)
    requires At(Step(s, p, act), q).Created?
    ensures (q in s.procs && s.procs[q] == At(Step(s, p, act), q))
         || (q == p && act.Create? && At(s, p) == Creating(At(Step(s, p, act), q).g) && At(s, p).g !in s.locks)
  {
  }

  lemma ClaimantIsOld(s: State, p: Pid, act: Act, q: Pid)
    requires Inv(s) && Winning(Step(s, p, act), q) && Gen(Step(s, p, act).procs[q]) <= Highest(s.locks)
    requires Highest(s.locks) <= Highest(Step(s, p, act).locks)
    ensures Winning(s, q) && Gen(s.procs[q]) == Gen(Step(s, p, act).procs[q])
  {
    if Inside(At(Step(s, p, act), q)) { InsideBefore(s, p, act, q); } else { CreatedBefore(s, p, act, q); }
  }

  /** Who is newly broken was being ended; who is newly being ended was just judged, or its create just threw. */
  lemma NewVictims(s: State, p: Pid, act: Act)
    ensures forall g | g in Step(s, p, act).broken :: g in s.broken || (p in s.procs && (s.procs[p] == Ending(g) || s.procs[p] == Failing(g)))
    ensures forall q | At(Step(s, p, act), q).Ending? ::
              (q in s.procs && s.procs[q] == At(Step(s, p, act), q))
              || (q == p && act == Judge(true) && At(s, p) == Judging(At(Step(s, p, act), q).m))
    ensures forall q | At(Step(s, p, act), q).Failing? ::
              (q in s.procs && s.procs[q] == At(Step(s, p, act), q))
              || (q == p && act.CreateThrows? && At(s, p) == Creating(At(Step(s, p, act), q).g) && (act.made ==> At(s, p).g !in s.locks))
  {
  }

  /** A create that made its file before it threw made one nobody can hold. */
  lemma MadeInVainIsUnclaimed(s: State, p: Pid)
    requires Inv(s) && NoVictim(s) && At(s, p).Creating? && At(s, p).g !in s.locks
    ensures At(s, p).g <= Highest(Step(s, p, CreateThrows(true)).locks) && !Claimed(Step(s, p, CreateThrows(true)), At(s, p).g)
  {
    var g, t := At(s, p).g, Step(s, p, CreateThrows(true));
    HighestWith(s.locks, g);
    forall q | Winning(t, q) ensures Gen(t.procs[q]) != g {
      assert q != p && s.procs[q] == t.procs[q];
      if Gen(s.procs[q]) == g {
        assert g < Highest(s.locks) && Winning(s, q) && Overtaken(s, g);
        assert Claimed(s, g);
      }
    }
  }

  lemma TruthfulStepKeeps(s: State, p: Pid, act: Act)
    requires Inv(s) && NoVictim(s) && Fair(s, p, act)
    ensures NoVictim(Step(s, p, act))
  {
    var t := Step(s, p, act);
    NewVictims(s, p, act);
    TopNeverFalls(s, p, act);
    forall g | g in t.broken ensures g <= Highest(t.locks) && !Claimed(t, g) {
      StaysUnclaimed(s, p, act, g);
    }
    forall q | q in t.procs && t.procs[q].Ending? ensures !Claimed(t, t.procs[q].m) {
      assert At(t, q) == t.procs[q];
      StaysUnclaimed(s, p, act, t.procs[q].m);
    }
    forall q | q in t.procs && t.procs[q].Failing? ensures t.procs[q].g <= Highest(t.locks) && !Claimed(t, t.procs[q].g) {
      assert At(t, q) == t.procs[q];
      if q == p && act == CreateThrows(true) && At(s, p).Creating? {
        MadeInVainIsUnclaimed(s, p);
      } else {
        StaysUnclaimed(s, p, act, t.procs[q].g);
      }
    }
  }

  lemma StaysUnclaimed(s: State, p: Pid, act: Act, g: nat)
    requires Inv(s) && g <= Highest(s.locks) && !Claimed(s, g)
    ensures !Claimed(Step(s, p, act), g)
  {
    forall q | Winning(Step(s, p, act), q) ensures Gen(Step(s, p, act).procs[q]) != g {
      TopNeverFalls(s, p, act);
      if Gen(Step(s, p, act).procs[q]) <= Highest(s.locks) { ClaimantIsOld(s, p, act, q); }
    }
  }

  lemma {:induction false} TruthfulRunKeeps(run: seq<(Pid, Act)>)
    requires Truthful(run)
    ensures NoVictim(After(run))
  {
    if run != [] {
      var n := |run| - 1;
      var front := run[..n];
      forall i | 0 <= i < n ensures Fair(After(front[..i]), front[i].0, front[i].1) {
        assert front[..i] == run[..i] && front[i] == run[i];
      }
      TruthfulRunKeeps(front);
      RunKeeps(front);
      assert Fair(After(run[..n]), run[n].0, run[n].1);
      TruthfulStepKeeps(After(front), run[n].0, run[n].1);
    }
  }

  /** Full mutual exclusion: where no live holder is ever judged gone, nor ended by a create that threw, at most one process holds the lock. */
  lemma TruthfulIsExclusive(run: seq<(Pid, Act)>, p: Pid, q: Pid)
    requires Truthful(run) && Holds(After(run), p) && Holds(After(run), q)
    ensures p == q
  {
    TruthfulRunKeeps(run);
    var s := After(run);
    assert Winning(s, p) && Winning(s, q);
    assert Claimed(s, Gen(s.procs[p])) && Claimed(s, Gen(s.procs[q]));
    if p != q { ExclusiveUnlessBroken(run, p, q); }
  }

  // --- how the lock changes hands ---------------------------------------------------------------------------

  /** The generation on top is over, or there is none: the next one is anybody's. */
  ghost predicate UpForTaking(s: State) {
    Highest(s.locks) == 0 || Highest(s.locks) in s.ends
  }

  /** What one process does to take a lock that is up for taking, left alone. */
  ghost function Taken(s: State, q: Pid): State {
    Step(Step(Step(s, q, List), q, Create), q, Relist)
  }

  /** Whatever the folder holds, an idle process that finds the top generation over takes the next one, with nobody judged. */
  lemma FreeLockIsTaken(s: State, q: Pid)
    requires At(s, q).Idle? && UpForTaking(s)
    ensures
      var t, g := Taken(s, q), Highest(s.locks) + 1;
      && Holds(t, q) && Gen(t.procs[q]) == g && Highest(t.locks) == g && t.locks == s.locks + {g} && t.ends == s.ends && t.broken == s.broken
      && t.procs[q].names == (set h | h in s.locks :: LockFile(h)) + (set h | h in s.ends && h < g :: EndFile(h))
  {
    var g := Highest(s.locks) + 1;
    var listed := Step(s, q, List);
    assert listed == Put(s, q, Creating(g));
    var made := Step(listed, q, Create);
    assert made.locks == s.locks + {g} && At(made, q) == Created(g);
    HighestWith(s.locks, g);
    forall n ensures n in Below(made, g) <==> n in (set h | h in s.locks :: LockFile(h)) + (set h | h in s.ends && h < g :: EndFile(h)) {
    }
  }

  /** A process that finds the top generation not over waits on it, and looks again unless it judges its holder gone. */
  lemma LiveLockIsWaitedFor(s: State, q: Pid)
    requires At(s, q).Idle? && !UpForTaking(s)
    ensures
      var t, m := Step(s, q, List), Highest(s.locks);
      && t == Put(s, q, Judging(m)) && Step(t, q, Judge(false)) == Put(t, q, Idle)
      && Step(t, q, Judge(true)) == Put(t, q, Ending(m))
      && Step(Step(t, q, Judge(true)), q, End).ends == s.ends + {m}
  {
  }

  /** A lock file that is gone when it is to be judged is not judged: the process looks again. */
  lemma GoneFileIsNotJudged(s: State, q: Pid, breaks: bool)
    requires At(s, q).Judging? && At(s, q).m !in s.locks
    ensures Step(s, q, Judge(breaks)) == Put(s, q, Idle)
  {
  }

  /** Nobody runs a change before it has tried every file its cleanup listed; a removal that fails is tried once. */
  lemma CleanupComesFirst(s: State, q: Pid, n: Name)
    requires At(s, q).Cleaning? && n in At(s, q).names
    ensures Step(s, q, Enter) == s
    ensures Step(s, q, Remove(n, false)) == Put(s, q, Cleaning(At(s, q).g, At(s, q).names - {n}))
  {
  }

  /** What a holder does to give the lock up, left alone. */
  ghost function Released(s: State, p: Pid): State {
    Step(Step(Step(s, p, Leave), p, Look), p, Mark)
  }

  /**
   The handover. From any state where a process holds the top generation and nobody ended it: once it leaves,
   looks and marks, its generation is over, and any other idle process that then lists, creates and lists
   again holds the next one, with nobody judged gone and nothing broken.
   */
  lemma ReleaseHandsOver(s: State, p: Pid, q: Pid)
    requires At(s, p).Holding? && At(s, q).Idle? && p != q
    requires Highest(s.locks) == At(s, p).g > 0 && At(s, p).g !in s.ends
    ensures
      var g, r := At(s, p).g, Released(s, p);
      var t := Taken(r, q);
      && At(r, p).Idle? && r.ends == s.ends + {g} && r.locks == s.locks && r.broken == s.broken
      && Holds(t, q) && Gen(t.procs[q]) == g + 1 && At(t, p).Idle? && t.broken == s.broken
  {
    var g := At(s, p).g;
    var left := Step(s, p, Leave);
    assert left == Put(s, p, Releasing(g));
    var looked := Step(left, p, Look);
    assert looked == Put(left, p, Marking(g));
    var r := Released(s, p);
    assert r == Put(looked.(ends := s.ends + {g}), p, Idle);
    FreeLockIsTaken(r, q);
  }

  /** A holder whose lock file a later holder cleaned up leaves nothing behind. */
  lemma ReleaseOfTheGoneLeavesNothing(s: State, p: Pid)
    requires At(s, p).Holding? && At(s, p).g !in s.locks
    ensures
      var r := Released(s, p);
      At(r, p).Idle? && r.ends == s.ends && r.locks == s.locks
  {
    var left := Step(s, p, Leave);
    assert left == Put(s, p, Releasing(At(s, p).g));
  }

  /** The pre-rename check, uninterrupted: it passes exactly when the generation has its lock file and no marker; else the write is given up. */
  lemma CheckPassesIff(s: State, p: Pid)
    requires At(s, p).Holding?
    ensures
      var g, t := At(s, p).g, Step(Step(s, p, CheckEnd), p, CheckLock);
      At(t, p) == if g !in s.ends && g in s.locks then Cleared(g) else Releasing(g)
  {
  }

  /** A process that finds a later generation on listing again ends its own, and holds nothing. */
  lemma LateCreatorEndsItsOwn(s: State, p: Pid)
    requires At(s, p).Created? && Highest(s.locks) > At(s, p).g
    ensures
      var t := Step(Step(s, p, Relist), p, Lose);
      At(t, p).Idle? && t.ends == s.ends + {At(s, p).g}
  {
  }

  /** A second create of a generation is refused, and its process looks again. */
  lemma CreateIsExclusive(s: State, p: Pid, q: Pid)
    requires p != q && At(s, p).Creating? && At(s, q) == At(s, p) && At(s, p).g !in s.locks
    ensures
      var t := Step(Step(s, p, Create), q, Create);
      At(t, p) == Created(At(s, p).g) && At(t, q).Idle? && t.locks == s.locks + {At(s, p).g}
  {
  }

  /** A cleanup none of whose removals fails, name after name. */
  ghost function Cleaned(s: State, p: Pid, names: set<Name>): State
    requires At(s, p).Cleaning? && names <= At(s, p).names
    ensures At(Cleaned(s, p, names), p) == Cleaning(At(s, p).g, At(s, p).names - names)
    decreases names
  {
    if names == {} then s
    else
      var n :| n in names;
      assert At(s, p).names - (names - {n}) - {n} == At(s, p).names - names;
      Step(Cleaned(s, p, names - {n}), p, Remove(n, true))
  }

  lemma RemoveTakesOne(s: State, p: Pid, n: Name)
    requires At(s, p).Cleaning? && n in At(s, p).names
    ensures
      var t := Step(s, p, Remove(n, true));
      && (forall g :: g in t.locks <==> g in s.locks && LockFile(g) != n)
      && (forall g :: g in t.ends <==> g in s.ends && EndFile(g) != n)
  {
  }

  lemma {:induction false} CleanedFiles(s: State, p: Pid, names: set<Name>)
    requires At(s, p).Cleaning? && names <= At(s, p).names
    ensures forall g :: g in Cleaned(s, p, names).locks <==> g in s.locks && LockFile(g) !in names
    ensures forall g :: g in Cleaned(s, p, names).ends <==> g in s.ends && EndFile(g) !in names
    decreases names
  {
    if names != {} {
      var n :| n in names && Cleaned(s, p, names) == Step(Cleaned(s, p, names - {n}), p, Remove(n, true));
      CleanedFiles(s, p, names - {n});
      RemoveTakesOne(Cleaned(s, p, names - {n}), p, n);
    }
  }

  /** A holder whose cleanup removes what it listed runs its change with its own lock file alone left of those up to it. */
  lemma CleanupLeavesOneGeneration(s: State, q: Pid)
    requires At(s, q).Idle? && UpForTaking(s) && forall e | e in s.ends :: e <= Highest(s.locks)
    ensures
      var g, t := Highest(s.locks) + 1, Taken(s, q);
      && At(t, q).Cleaning?
      && var u := Step(Cleaned(t, q, At(t, q).names), q, Enter);
      At(u, q) == Holding(g) && u.locks == {g} && u.ends == {}
  {
    FreeLockIsTaken(s, q);
    var t := Taken(s, q);
    CleanedFiles(t, q, At(t, q).names);
  }
}
