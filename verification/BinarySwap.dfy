/**
 Swapping a running executable for a new build, where every file operation may throw. File contents
 are opaque values; a copy that throws may leave anything under its target.
 */
module BinarySwap {

  type Content = nat

  type Files = map<string, Content>

  // --- names beside the executable -----------------------------------------------------------

  function Digit(d: nat): char
    requires d < 10
  {
    '0' + d as char
  }

  function Decimal(n: nat): (s: string)
    ensures s != ""
  {
    if n < 10 then [Digit(n)] else Decimal(n / 10) + [Digit(n % 10)]
  }

  lemma DigitInjective(a: nat, b: nat)
    requires a < 10 && b < 10 && Digit(a) == Digit(b)
    ensures a == b
  {
  }

  lemma {:induction false} DecimalInjective(a: nat, b: nat)
    requires Decimal(a) == Decimal(b)
    ensures a == b
  {
    var s, t := Decimal(a), Decimal(b);
    assert s[|s| - 1] == Digit(a % 10) && t[|t| - 1] == Digit(b % 10);
    DigitInjective(a % 10, b % 10);
    if a >= 10 && b >= 10 {
      assert s[..|s| - 1] == Decimal(a / 10) && t[..|t| - 1] == Decimal(b / 10);
      DecimalInjective(a / 10, b / 10);
    }
  }

  /** What a run of digits is worth, read from the left. */
  function Worth(s: string): int {
    if s == "" then 0 else 10 * Worth(s[..|s| - 1]) + (s[|s| - 1] as int - '0' as int)
  }

  /** A number is written in the digits 0 to 9, reads back as itself, and starts with no 0 but its own. */
  lemma {:induction false} DecimalReadsBack(n: nat)
    ensures Worth(Decimal(n)) == n && (forall i | 0 <= i < |Decimal(n)| :: '0' <= Decimal(n)[i] <= '9')
    ensures n > 0 ==> Decimal(n)[0] != '0'
  {
    var s := Decimal(n);
    if n >= 10 {
      DecimalReadsBack(n / 10);
      assert s[..|s| - 1] == Decimal(n / 10);
    } else {
      assert s[..0] == "";
    }
  }

  function Staged(dest: string): string { dest + ".new" }

  function Old(dest: string): string { dest + ".old" }

  function OldPrefix(dest: string): string { dest + ".old-" }

  /** What an earlier swap may have left beside the executable. */
  predicate Leftover(dest: string, name: string) {
    name == Old(dest) || OldPrefix(dest) <= name
  }

  /** Beside the executable: its name with ".old", or with ".old-" and anything, even nothing, after it. */
  lemma LeftoverIff(dest: string, name: string)
    ensures Leftover(dest, name) <==> name == dest + ".old" || exists rest :: name == dest + ".old-" + rest
  {
    if OldPrefix(dest) <= name { assert name == dest + ".old-" + name[|dest| + 5..]; }
  }

  function Candidate(dest: string, stamp: nat, n: nat): string {
    if n == 0 then OldPrefix(dest) + Decimal(stamp) else OldPrefix(dest) + Decimal(stamp) + "-" + Decimal(n)
  }

  lemma CandidatesDiffer(dest: string, stamp: nat, m: nat, n: nat)
    requires m != n
    ensures Candidate(dest, stamp, m) != Candidate(dest, stamp, n)
  {
    var front := OldPrefix(dest) + Decimal(stamp);
    assert |Candidate(dest, stamp, 0)| == |front|;
    if m > 0 { assert Candidate(dest, stamp, m)[|front| + 1..] == Decimal(m); }
    if n > 0 { assert Candidate(dest, stamp, n)[|front| + 1..] == Decimal(n); }
    if m > 0 && n > 0 && Decimal(m) == Decimal(n) { DecimalInjective(m, n); }
  }

  lemma NamesApart(dest: string, name: string)
    ensures Staged(dest) != dest && Old(dest) != dest && !Leftover(dest, dest) && !Leftover(dest, Staged(dest))
  {
    var s := Staged(dest);
    assert s[|dest| + 1] == 'n' && Old(dest)[|dest| + 1] == 'o' && OldPrefix(dest)[|dest| + 1] == 'o';
    var p := OldPrefix(dest);
    assert |p| == |dest| + 5 && p[|dest| + 1] != s[|dest| + 1];
  }

  /** The name the search settles on: the plain one where it is free, else the first free candidate. */
  ghost predicate FirstFree(files: Files, dest: string, stamp: nat, name: string) {
    if Old(dest) !in files then name == Old(dest)
    else exists n: nat :: name == Candidate(dest, stamp, n) && forall m: nat | m < n :: Candidate(dest, stamp, m) in files
  }

  // --- the folder ------------------------------------------------------------------------------

  /**
   One folder; `states` records what it held after every operation, thrown ones included, `thrown` how many
   copies and renames threw, and `stuck` the names whose removal threw.
   */
  class Folder {
    var files: Files
    ghost var states: seq<Files>
    ghost var thrown: nat
    ghost var stuck: set<string>

    predicate Exists(name: string)
      reads this
    {
      name in files
    }

    method Copy(content: Content, to: string) returns (ok: bool)
      modifies this
      ensures ok ==> files == old(files)[to := content]
      ensures files - {to} == old(files) - {to}
      ensures states == old(states) + [files]
      ensures thrown == old(thrown) + (if ok then 0 else 1) && stuck == old(stuck)
    {
      if * {
        files := files[to := content];
        ok := true;
      } else {
        ok := false;
        thrown := thrown + 1;
        if * {
          var partial: Content := *;
          files := files[to := partial];
        }
      }
      states := states + [files];
    }

    method Rename(from: string, to: string) returns (ok: bool)
      modifies this
      ensures ok ==> from in old(files) && files == (old(files) - {from})[to := old(files)[from]]
      ensures !ok ==> files == old(files)
      ensures states == old(states) + [files]
      ensures thrown == old(thrown) + (if ok then 0 else 1) && stuck == old(stuck)
    {
      ok := false;
      if from in files {
        if * {
          files := (files - {from})[to := files[from]];
          ok := true;
        }
      }
      if !ok {
        thrown := thrown + 1;
      }
      states := states + [files];
    }

    method Remove(name: string)
      modifies this
      ensures files == old(files) || files == old(files) - {name}
      ensures states == old(states) + [files]
      ensures thrown == old(thrown) && old(stuck) <= stuck <= old(stuck) + {name}
      ensures name in files ==> name in stuck
    {
      if * {
        files := files - {name};
      } else {
        stuck := stuck + {name};
      }
      states := states + [files];
    }

    /** `cleanStaleBinary`, over a listing in any order; a leftover still running stays. */
    method CleanStale(dest: string, names: seq<string>)
      modifies this
      ensures forall n | !Leftover(dest, n) :: Same(old(files), files, n)
      ensures files.Keys <= old(files).Keys
      ensures forall n | n in names && Leftover(dest, n) && n in files :: n in stuck
      ensures thrown == old(thrown) && old(stuck) <= stuck
      ensures |old(states)| <= |states| && states[..|old(states)|] == old(states)
      ensures forall i | |old(states)| <= i < |states| :: forall n | !Leftover(dest, n) :: Same(old(files), states[i], n)
    {
      for i := 0 to |names|
        invariant forall n | !Leftover(dest, n) :: Same(old(files), files, n)
        invariant files.Keys <= old(files).Keys
        invariant forall n | n in names[..i] && Leftover(dest, n) && n in files :: n in stuck
        invariant thrown == old(thrown) && old(stuck) <= stuck
        invariant |old(states)| <= |states| && states[..|old(states)|] == old(states)
        invariant forall i | |old(states)| <= i < |states| :: forall n | !Leftover(dest, n) :: Same(old(files), states[i], n)
      {
        if Leftover(dest, names[i]) {
          Remove(names[i]);
        }
      }
    }

    /** `freeAsideName`: the search ends, because the folder is finite and the candidates all differ. */
    method FreeAsideName(dest: string, stamp: nat) returns (name: string)
      ensures Leftover(dest, name) && !Exists(name)
      ensures FirstFree(files, dest, stamp, name)
    {
      if !Exists(Old(dest)) {
        return Old(dest);
      }
      var n: nat := 0;
      ghost var taken: set<string> := {};
      while true
        invariant taken <= files.Keys && |taken| == n
        invariant forall c | c in taken :: exists m :: 0 <= m < n && c == Candidate(dest, stamp, m)
        invariant n <= |files.Keys|
        invariant forall m: nat | m < n :: Exists(Candidate(dest, stamp, m))
        decreases |files.Keys| - n
      {
        var candidate := Candidate(dest, stamp, n);
        if !Exists(candidate) {
          return candidate;
        }
        forall m | 0 <= m < n ensures Candidate(dest, stamp, m) != candidate {
          CandidatesDiffer(dest, stamp, m, n);
        }
        taken := taken + {candidate};
        Fits(taken, files.Keys);
        n := n + 1;
      }
    }
  }

  lemma {:induction false} Fits(s: set<string>, t: set<string>)
    requires s <= t
    ensures |s| <= |t|
  {
    if s != {} {
      var x :| x in s;
      Fits(s - {x}, t - {x});
    }
  }

  /** The name holds in `b` what it held in `a`, or is missing from both. */
  predicate Same(a: Files, b: Files, name: string) {
    (name in a <==> name in b) && (name in a ==> a[name] == b[name])
  }

  /** The running build is in its slot or aside, unless the new one already holds the slot. */
  predicate Recoverable(files: Files, dest: string, running: Content, build: Content) {
    || (dest in files && (files[dest] == build || files[dest] == running))
    || exists n | n in files :: Leftover(dest, n) && files[n] == running
  }

  /** Nothing but the slot, the staged copy and the leftovers is touched. */
  ghost predicate OthersKept(a: Files, b: Files, dest: string) {
    forall n | n != dest && n != Staged(dest) && !Leftover(dest, n) :: Same(a, b, n)
  }

  /** Thrown before anything took the slot, thrown after the running build went back, or left aside because even that rename threw. */
  datatype Outcome = Swapped | Threw | LeftAside(name: string)

  /** Every state the folder passes through from `from` on is safe. */
  ghost predicate AllSafe(states: seq<Files>, from: nat, dest: string, running: Content, build: Content) {
    forall i | from <= i < |states| :: Recoverable(states[i], dest, running, build)
  }

  /** No listed leftover of an earlier update is there still, but one whose removal threw. */
  ghost predicate LeftoversSwept(folder: Folder, dest: string, listing: seq<string>)
    reads folder
  {
    forall n | n in listing && Leftover(dest, n) && n in folder.files :: n in folder.stuck
  }

  /** The first half: sweep the leftovers, then stage the new build beside the slot. */
  method StageBuild(folder: Folder, dest: string, build: Content, listing: seq<string>) returns (ok: bool)
    requires dest in folder.files
    modifies folder
    ensures dest in folder.files && folder.files[dest] == old(folder.files[dest])
    ensures ok ==> Staged(dest) in folder.files && folder.files[Staged(dest)] == build
    ensures !ok && Staged(dest) in folder.files ==> Staged(dest) in folder.stuck
    ensures folder.thrown == old(folder.thrown) + (if ok then 0 else 1) && old(folder.stuck) <= folder.stuck
    ensures LeftoversSwept(folder, dest, listing)
    ensures forall n | Leftover(dest, n) && n in folder.files :: n in old(folder.files)
    ensures OthersKept(old(folder.files), folder.files, dest)
    ensures |old(folder.states)| <= |folder.states|
    ensures AllSafe(folder.states, |old(folder.states)|, dest, old(folder.files[dest]), build)
  {
    var staged := Staged(dest);
    NamesApart(dest, staged);
    ghost var running, first := folder.files[dest], |folder.states|;
    folder.CleanStale(dest, listing);
    assert Same(old(folder.files), folder.files, dest);
    forall i | first <= i < |folder.states| ensures Recoverable(folder.states[i], dest, running, build) {
      assert Same(old(folder.files), folder.states[i], dest);
    }
    ghost var swept := folder.files;
    ok := folder.Copy(build, staged);
    OnlyThatName(folder.files, swept, staged);
    assert Same(folder.files, swept, dest);
    if !ok {
      ghost var copied := folder.files;
      folder.Remove(staged);
      assert forall n | n != staged :: Same(folder.files, swept, n) by {
        assert forall n | n != staged :: Same(copied, swept, n);
      }
    }
    assert forall n | Leftover(dest, n) :: Same(folder.files, swept, n);
    KeptThrough(old(folder.files), swept, folder.files, dest);
  }

  /** The second half: the running build moves aside and the staged one takes its slot, or it goes back. */
  method TakeSlot(folder: Folder, dest: string, build: Content, stamp: nat) returns (outcome: Outcome)
    requires dest in folder.files && Staged(dest) in folder.files && folder.files[Staged(dest)] == build
    modifies folder
    ensures Ends(outcome, folder.files, dest, old(folder.files[dest]), build)
    ensures folder.thrown == old(folder.thrown) + Throws(outcome) && old(folder.stuck) <= folder.stuck
    ensures TidiedUp(outcome, folder, dest, old(folder.files))
    ensures OthersKept(old(folder.files), folder.files, dest)
    ensures |old(folder.states)| <= |folder.states| && folder.states[..|old(folder.states)|] == old(folder.states)
    ensures AllSafe(folder.states, |old(folder.states)|, dest, old(folder.files[dest]), build)
  {
    var staged := Staged(dest);
    NamesApart(dest, staged);
    var aside := folder.FreeAsideName(dest, stamp);
    var ok := folder.Rename(dest, aside);
    if !ok {
      folder.Remove(staged);
      return Threw;
    }
    ghost var before, moved := old(folder.files), folder.files;
    assert forall n | n != dest && n != aside :: Same(before, moved, n);
    outcome := FillSlot(folder, dest, aside, build);
    forall n | n != dest && n != staged && n != aside ensures Same(before, folder.files, n) {
      assert Same(before, moved, n) && Same(moved, folder.files, n);
    }
    forall n | Leftover(dest, n) && n in folder.files && n != aside ensures n in before {
      assert Same(before, folder.files, n);
    }
  }

  /** With the running build aside: the new one takes the slot, or the running one goes back. */
  method FillSlot(folder: Folder, dest: string, aside: string, build: Content) returns (outcome: Outcome)
    requires dest !in folder.files && Leftover(dest, aside) && aside in folder.files
    requires Staged(dest) in folder.files && folder.files[Staged(dest)] == build
    modifies folder
    ensures Ends(outcome, folder.files, dest, old(folder.files[aside]), build)
    ensures folder.thrown == old(folder.thrown) + Throws(outcome) && old(folder.stuck) <= folder.stuck
    ensures !outcome.LeftAside? ==>
              && (Staged(dest) in folder.files ==> Staged(dest) in folder.stuck) && (aside in folder.files ==> aside in folder.stuck)
    ensures forall n | n != dest && n != Staged(dest) && n != aside :: Same(old(folder.files), folder.files, n)
    ensures |old(folder.states)| <= |folder.states| && folder.states[..|old(folder.states)|] == old(folder.states)
    ensures AllSafe(folder.states, |old(folder.states)|, dest, old(folder.files[aside]), build)
  {
    var staged := Staged(dest);
    NamesApart(dest, staged);
    var ok := folder.Rename(staged, dest);
    if !ok {
      ok := folder.Rename(aside, dest);
      if !ok {
        return LeftAside(aside);
      }
      folder.Remove(staged);
      return Threw;
    }
    folder.Remove(aside);
    return Swapped;
  }

  /** How many copies and renames each ending takes to throw: none for a swap, one for a throw, two to leave the running build aside. */
  function Throws(outcome: Outcome): nat {
    match outcome
    case Swapped => 0
    case Threw => 1
    case LeftAside(_) => 2
  }

  /** No new leftover and no staged copy stays behind but one whose removal threw, or where the swap was abandoned midway. */
  ghost predicate TidiedUp(outcome: Outcome, folder: Folder, dest: string, before: Files)
    reads folder
  {
    outcome.LeftAside? ||
    (&& (Staged(dest) in folder.files ==> Staged(dest) in folder.stuck)
     && forall n | Leftover(dest, n) && n in folder.files && n !in before :: n in folder.stuck)
  }

  predicate Ends(outcome: Outcome, files: Files, dest: string, running: Content, build: Content) {
    match outcome
    case Swapped => dest in files && files[dest] == build
    case Threw => dest in files && files[dest] == running
    case LeftAside(name) => Leftover(dest, name) && name in files && files[name] == running
  }

  /**
   `swapRunningBinary`. Whatever throws: it returns with the new build in the slot, or throws with the
   running one there, unless the very rename that puts it back throws, and then it is aside; at every
   moment the running build is in the slot or aside, or the new one holds the slot; no other file moves.
   It swaps exactly when no copy and no rename threw, and leaves the running build aside only when two did.
   */
  method SwapRunningBinary(folder: Folder, dest: string, build: Content, listing: seq<string>, stamp: nat) returns (outcome: Outcome)
    requires dest in folder.files
    modifies folder
    ensures Ends(outcome, folder.files, dest, old(folder.files[dest]), build)
    ensures folder.thrown == old(folder.thrown) + Throws(outcome)
    ensures TidiedUp(outcome, folder, dest, old(folder.files))
    ensures !outcome.LeftAside? ==> LeftoversSwept(folder, dest, listing)
    ensures OthersKept(old(folder.files), folder.files, dest)
    ensures |old(folder.states)| <= |folder.states|
    ensures AllSafe(folder.states, |old(folder.states)|, dest, old(folder.files[dest]), build)
  {
    ghost var first, running := |folder.states|, folder.files[dest];
    var ok := StageBuild(folder, dest, build, listing);
    if !ok {
      return Threw;
    }
    ghost var staged := folder.files;
    ghost var before := folder.states;
    outcome := TakeSlot(folder, dest, build, stamp);
    forall i | first <= i < |folder.states| ensures Recoverable(folder.states[i], dest, running, build) {
      assert i < |before| ==> folder.states[i] == before[i];
    }
  }

  lemma KeptThrough(a: Files, b: Files, c: Files, dest: string)
    requires OthersKept(a, b, dest) && forall n | n != Staged(dest) :: Same(c, b, n)
    ensures OthersKept(a, c, dest)
  {
    forall n | n != dest && n != Staged(dest) && !Leftover(dest, n) ensures Same(a, c, n) {
      assert Same(a, b, n) && Same(c, b, n);
    }
  }

  lemma OnlyThatName(a: Files, b: Files, name: string)
    requires a - {name} == b - {name}
    ensures forall n | n != name :: Same(a, b, n)
  {
    forall n | n != name ensures Same(a, b, n) {
      assert n in a - {name} <==> n in a;
      assert n in b - {name} <==> n in b;
      if n in a { assert a[n] == (a - {name})[n] == (b - {name})[n] == b[n]; }
    }
  }
}
