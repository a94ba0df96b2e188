/**
 Moving misplaced type groups and grouped types to the folders their parent chains name: the depth
 order, the loop of renames any of which may throw, and the remapping of paths already moved.
 */
module GroupPlacement {
  import opened Basics

  type Path = seq<string>

  type Content = nat

  type Files = map<Path, Content>

  /** One rename, a folder's or a file's. */
  datatype Move = Move(source: Path, dest: Path)

  /** Where a rename takes a path: itself and everything below it go along. */
  function Moved(m: Move, p: Path): Path {
    if m.source <= p then m.dest + p[|m.source|..] else p
  }

  /** `remap`: only the first rename that matches is followed. */
  function Remap(renamed: seq<Move>, p: Path): Path {
    if renamed == [] then p
    else if renamed[0].source <= p then Moved(renamed[0], p)
    else Remap(renamed[1..], p)
  }

  /** Where a path lies after every rename, one after another. */
  function Final(moves: seq<Move>, p: Path): Path
    decreases |moves|
  {
    if moves == [] then p else Final(moves[1..], Moved(moves[0], p))
  }

  predicate Related(a: Path, b: Path) {
    a <= b || b <= a
  }

  /** No rename starts at, under or above where an earlier one went. */
  ghost predicate Unchained(moves: seq<Move>) {
    forall i, j | 0 <= i < j < |moves| :: !Related(moves[j].source, moves[i].dest)
  }

  lemma PrefixesAreRelated(a: Path, b: Path, p: Path)
    requires a <= p && b <= p
    ensures Related(a, b)
  {
    if |a| <= |b| { assert a == b[..|a|]; } else { assert b == a[..|b|]; }
  }

  lemma {:induction false} LaterMovesMiss(moves: seq<Move>, p: Path)
    requires forall m | m in moves :: !(m.source <= p)
    ensures Final(moves, p) == p
    decreases |moves|
  {
    if moves != [] {
      assert moves[0] in moves;
      LaterMovesMiss(moves[1..], p);
    }
  }

  /** Remapping answers where a path lies whenever no later rename starts at or above the place it was first moved to. */
  lemma {:induction false} RemapIsFinalUnchained(moves: seq<Move>, p: Path)
    requires Unchained(moves)
    ensures Remap(moves, p) == Final(moves, p)
    decreases |moves|
  {
    if moves != [] {
      var m, rest := moves[0], moves[1..];
      if m.source <= p {
        forall n | n in rest ensures !(n.source <= Moved(m, p)) {
          var j :| 0 <= j < |rest| && rest[j] == n;
          assert moves[j + 1] == n;
          if n.source <= Moved(m, p) { PrefixesAreRelated(n.source, m.dest, Moved(m, p)); }
        }
        LaterMovesMiss(rest, Moved(m, p));
      } else {
        assert forall i, j | 0 <= i < j < |rest| :: rest[i] == moves[i + 1] && rest[j] == moves[j + 1];
        RemapIsFinalUnchained(rest, p);
      }
    }
  }

  /** The renames after the first one that matched. */
  function Rest(renamed: seq<Move>, p: Path): seq<Move> {
    if renamed == [] then []
    else if renamed[0].source <= p then renamed[1..]
    else Rest(renamed[1..], p)
  }

  /** Some of these renames starts at or above `q`, and so takes it along. */
  predicate Disturbs(moves: seq<Move>, q: Path) {
    exists m | m in moves :: m.source <= q
  }

  /** Some of these renames ends at or above `q`, and so may put something there again. */
  predicate PutsBack(moves: seq<Move>, q: Path) {
    exists m | m in moves :: m.dest <= q
  }

  lemma {:induction false} FinalFollowsRest(folders: seq<Move>, others: seq<Move>, p: Path)
    ensures Final(folders + others, p) == Final(Rest(folders, p) + others, Remap(folders, p))
    decreases |folders|
  {
    if folders == [] {
      assert folders + others == others == [] + others;
    } else {
      assert (folders + others)[1..] == folders[1..] + others;
      if !(folders[0].source <= p) { FinalFollowsRest(folders[1..], others, p); }
    }
  }

  lemma {:induction false} NeverBack(moves: seq<Move>, x: Path, q: Path)
    requires x != q && !PutsBack(moves, q)
    ensures Final(moves, x) != q
    decreases |moves|
  {
    if moves != [] {
      assert moves[0] in moves;
      NeverBack(moves[1..], Moved(moves[0], x), q);
    }
  }

  lemma {:induction false} DisturbedLeaves(moves: seq<Move>, q: Path)
    requires Disturbs(moves, q) && !PutsBack(moves, q)
    ensures Final(moves, q) != q
    decreases |moves|
  {
    assert moves[0] in moves;
    if moves[0].source <= q {
      NeverBack(moves[1..], Moved(moves[0], q), q);
    } else {
      var m :| m in moves && m.source <= q;
      assert m in moves[1..];
      DisturbedLeaves(moves[1..], q);
    }
  }

  /**
   When remapping by `folders` answers where a path lies once `others` were done too: whenever no rename
   after the first match starts at or above the place that match gave, and, unless a rename ends at or
   above that place again, only then.
   */
  lemma RemapIsFinalIff(folders: seq<Move>, others: seq<Move>, p: Path)
    ensures
      var q, later := Remap(folders, p), Rest(folders, p) + others;
      && (!Disturbs(later, q) ==> Final(folders + others, p) == q)
      && (!PutsBack(later, q) ==> (Final(folders + others, p) == q <==> !Disturbs(later, q)))
  {
    var q, later := Remap(folders, p), Rest(folders, p) + others;
    FinalFollowsRest(folders, others, p);
    if !Disturbs(later, q) {
      LaterMovesMiss(later, q);
    } else if !PutsBack(later, q) {
      DisturbedLeaves(later, q);
    }
  }

  lemma SameFolderIff(a: Path, b: Path, base: Path)
    ensures a + base == b + base <==> a == b
  {
    if a + base == b + base {
      assert |a| == |b|;
      assert a == (a + base)[..|a|] == (b + base)[..|b|] == b;
    }
  }

  lemma StaysThroughoutIff(moves: seq<Move>, q: Path)
    requires forall m | m in moves :: m.source != m.dest
    ensures (forall n | 0 <= n <= |moves| :: Final(moves[..n], q) == q) <==> !Disturbs(moves, q)
  {
    if !Disturbs(moves, q) {
      forall n | 0 <= n <= |moves| ensures Final(moves[..n], q) == q {
        LaterMovesMiss(moves[..n], q);
      }
    } else {
      var m :| m in moves && m.source <= q;
      var j :| 0 <= j < |moves| && moves[j] == m;
      if Final(moves[..j], q) == q {
        FinalSnoc(moves[..j], m, q);
        assert moves[..j + 1] == moves[..j] + [m];
        LeavesItsSource(m, q);
      }
    }
  }

  lemma LeavesItsSource(m: Move, q: Path)
    requires m.source != m.dest && m.source <= q
    ensures Moved(m, q) != q
  {
    assert q == m.source + q[|m.source|..];
    SameFolderIff(m.dest, m.source, q[|m.source|..]);
  }

  /**
   Of one path and a whole repair, exactly: remapping answers where the path lies after every rename, from
   the first to the last, if and only if no rename after the first match starts at or above the place that
   match gave.
   */
  lemma {:induction false} RemapIsFinalThroughoutIff(moves: seq<Move>, p: Path)
    requires forall m | m in moves :: m.source != m.dest
    ensures (forall n | 0 <= n <= |moves| :: Remap(moves[..n], p) == Final(moves[..n], p)) <==> !Disturbs(Rest(moves, p), Remap(moves, p))
    decreases |moves|
  {
    if moves != [] {
      var m, rest := moves[0], moves[1..];
      forall n | 1 <= n <= |moves| ensures moves[..n][0] == m && moves[..n][1..] == rest[..n - 1] {
      }
      assert moves[..0] == [];
      if m.source <= p {
        var q := Moved(m, p);
        StaysThroughoutIff(rest, q);
        forall n | 1 <= n <= |moves|
          ensures Remap(moves[..n], p) == Final(moves[..n], p) <==> Final(rest[..n - 1], q) == q
        {
        }
        if forall n | 0 <= n <= |moves| :: Remap(moves[..n], p) == Final(moves[..n], p) {
          forall n | 0 <= n <= |rest| ensures Final(rest[..n], q) == q {
            assert Remap(moves[..n + 1], p) == Final(moves[..n + 1], p);
          }
        }
      } else {
        RemapIsFinalThroughoutIff(rest, p);
        forall n | 1 <= n <= |moves|
          ensures Remap(moves[..n], p) == Final(moves[..n], p) <==> Remap(rest[..n - 1], p) == Final(rest[..n - 1], p)
        {
        }
        if forall n | 0 <= n <= |moves| :: Remap(moves[..n], p) == Final(moves[..n], p) {
          forall n | 0 <= n <= |rest| ensures Remap(rest[..n], p) == Final(rest[..n], p) {
            assert Remap(moves[..n + 1], p) == Final(moves[..n + 1], p);
          }
        }
      }
    }
  }

  // --- the file system ----------------------------------------------------------------------------

  predicate Taken(files: Files, dirs: set<Path>, p: Path) {
    p in dirs || exists q | q in files :: p <= q
  }

  /** Every file is whole at the place the renames took it. */
  ghost predicate KeepsFiles(before: Files, after: Files, moves: seq<Move>) {
    forall q | q in before :: Final(moves, q) in after && after[Final(moves, q)] == before[q]
  }

  /** No two files were taken to one place. */
  ghost predicate KeepsApart(before: Files, moves: seq<Move>) {
    forall p, q | p in before && q in before && p != q :: Final(moves, p) != Final(moves, q)
  }

  /** Nothing is there that was not taken there. */
  ghost predicate AddsNothing(before: Files, after: Files, moves: seq<Move>) {
    forall r | r in after :: exists q | q in before :: Final(moves, q) == r
  }

  /** `after` is `before` with every file carried, whole, to a place of its own. */
  ghost predicate Carried(before: Files, after: Files, moves: seq<Move>) {
    KeepsFiles(before, after, moves) && KeepsApart(before, moves) && AddsNothing(before, after, moves)
  }

  lemma MovesApart(m: Move, p: Path, q: Path)
    requires p != q && !(m.dest <= p) && !(m.dest <= q)
    ensures Moved(m, p) != Moved(m, q)
  {
    if m.source <= p && m.source <= q {
      assert p == m.source + p[|m.source|..] && q == m.source + q[|m.source|..];
      assert Moved(m, p)[|m.dest|..] == p[|m.source|..] && Moved(m, q)[|m.dest|..] == q[|m.source|..];
    }
  }

  function AfterMove(files: Files, m: Move): Files
    requires forall q | q in files :: !(m.dest <= q)
  {
    assert forall p, q | p in files && q in files && Moved(m, p) == Moved(m, q) :: p == q by {
      forall p, q | p in files && q in files && p != q ensures Moved(m, p) != Moved(m, q) {
        MovesApart(m, p, q);
      }
    }
    map q | q in files :: Moved(m, q) := files[q]
  }

  lemma AfterMoveAt(files: Files, m: Move, f: Path)
    requires (forall q | q in files :: !(m.dest <= q)) && f in files
    ensures Moved(m, f) in AfterMove(files, m) && AfterMove(files, m)[Moved(m, f)] == files[f]
  {
    forall q | q in files && Moved(m, q) == Moved(m, f) ensures q == f {
      if q != f { MovesApart(m, q, f); }
    }
  }

  lemma {:induction false} FinalSnoc(moves: seq<Move>, m: Move, p: Path)
    ensures Final(moves + [m], p) == Moved(m, Final(moves, p))
    decreases |moves|
  {
    if moves == [] {
      assert Final([m][1..], Moved(m, p)) == Moved(m, p);
    } else {
      FinalSnoc(moves[1..], m, Moved(moves[0], p));
      assert (moves + [m])[1..] == moves[1..] + [m];
    }
  }

  ghost predicate FreeFor(files: Files, m: Move) {
    forall q | q in files :: !(m.dest <= q)
  }

  lemma MoveKeepsFiles(before: Files, files: Files, moves: seq<Move>, m: Move)
    requires KeepsFiles(before, files, moves) && FreeFor(files, m)
    ensures KeepsFiles(before, AfterMove(files, m), moves + [m])
  {
    forall q | q in before
      ensures Final(moves + [m], q) in AfterMove(files, m) && AfterMove(files, m)[Final(moves + [m], q)] == before[q]
    {
      FinalSnoc(moves, m, q);
      AfterMoveAt(files, m, Final(moves, q));
    }
  }

  lemma MoveKeepsApart(before: Files, files: Files, moves: seq<Move>, m: Move)
    requires KeepsFiles(before, files, moves) && KeepsApart(before, moves) && FreeFor(files, m)
    ensures KeepsApart(before, moves + [m])
  {
    forall p, q | p in before && q in before && p != q ensures Final(moves + [m], p) != Final(moves + [m], q) {
      FinalSnoc(moves, m, p);
      FinalSnoc(moves, m, q);
      MovesApart(m, Final(moves, p), Final(moves, q));
    }
  }

  lemma MoveAddsNothing(before: Files, files: Files, moves: seq<Move>, m: Move)
    requires AddsNothing(before, files, moves) && FreeFor(files, m)
    ensures AddsNothing(before, AfterMove(files, m), moves + [m])
  {
    forall r | r in AfterMove(files, m) ensures exists q | q in before :: Final(moves + [m], q) == r {
      var f :| f in files && Moved(m, f) == r;
      var q :| q in before && Final(moves, q) == f;
      FinalSnoc(moves, m, q);
    }
  }

  /** A rename to a free place carries every file, and overwrites none. */
  lemma MoveCarries(before: Files, files: Files, moves: seq<Move>, m: Move)
    requires Carried(before, files, moves) && FreeFor(files, m)
    ensures Carried(before, AfterMove(files, m), moves + [m])
  {
    MoveKeepsFiles(before, files, moves, m);
    MoveKeepsApart(before, files, moves, m);
    MoveAddsNothing(before, files, moves, m);
  }

  /** The contents of a tree, counted. */
  ghost function Contents(files: Files): multiset<Content> {
    if files == map[] then multiset{}
    else
      var p :| p in files;
      multiset{files[p]} + Contents(files - {p})
  }

  lemma {:induction false} ContentsWithout(files: Files, p: Path)
    requires p in files
    ensures Contents(files) == multiset{files[p]} + Contents(files - {p})
  {
    var q :| q in files && Contents(files) == multiset{files[q]} + Contents(files - {q});
    if q != p {
      ContentsWithout(files - {q}, p);
      ContentsWithout(files - {p}, q);
      TwoOut(files, p, q);
    }
  }

  lemma TwoOut(files: Files, p: Path, q: Path)
    ensures files - {q} - {p} == files - {p} - {q}
  {
    assert (files - {q} - {p}).Keys == (files - {p} - {q}).Keys;
  }

  /** Carrying keeps the multiset of contents. */
  lemma {:induction false} CarryingConserves(before: Files, after: Files, moves: seq<Move>)
    requires Carried(before, after, moves)
    ensures Contents(after) == Contents(before)
  {
    if before == map[] {
      assert after.Keys == {};
      assert after == map[];
    } else {
      var q :| q in before;
      var r := Final(moves, q);
      CarriedWithout(before, after, moves, q);
      CarryingConserves(before - {q}, after - {r}, moves);
      ContentsWithout(before, q);
      ContentsWithout(after, r);
    }
  }

  lemma CarriedWithout(before: Files, after: Files, moves: seq<Move>, q: Path)
    requires Carried(before, after, moves) && q in before
    ensures Carried(before - {q}, after - {Final(moves, q)}, moves)
  {
    forall r | r in after - {Final(moves, q)} ensures exists p | p in before - {q} :: Final(moves, p) == r {
      var p :| p in before && Final(moves, p) == r;
    }
  }

  // --- depth ----------------------------------------------------------------------------------------

  /** The own type groups, each with the parent it names. */
  type Groups = map<string, Option<string>>

  /** The chain of parents from `id`, at most `fuel` steps. */
  function Chain(groups: Groups, id: string, fuel: nat): nat
    decreases fuel
  {
    if fuel == 0 || id !in groups || groups[id].None? then 0 else 1 + Chain(groups, groups[id].value, fuel - 1)
  }

  /** `depth`: counts up the parent chain, never past the number of groups. */
  method Depth(groups: Groups, id: string) returns (n: nat)
    ensures n == Chain(groups, id, |groups|)
  {
    n := 0;
    var g := id;
    while g in groups && groups[g].Some? && n < |groups|
      invariant n <= |groups|
      invariant Chain(groups, id, |groups|) == n + Chain(groups, g, |groups| - n)
      decreases |groups| - n
    {
      g := groups[g].value;
      n := n + 1;
    }
  }

  /** `a` is `k` steps up from `id`. */
  predicate Ancestor(groups: Groups, id: string, a: string, k: nat)
    decreases k
  {
    if k == 0 then id == a else id in groups && groups[id].Some? && Ancestor(groups, groups[id].value, a, k - 1)
  }

  /** The chain from `id` ends within the number of groups: it is no cycle. */
  predicate Ends(groups: Groups, id: string) {
    Chain(groups, id, |groups| + 1) <= |groups|
  }

  lemma {:induction false} EnoughFuel(groups: Groups, id: string, fuel: nat)
    requires Chain(groups, id, fuel + 1) <= fuel
    ensures Chain(groups, id, fuel) == Chain(groups, id, fuel + 1)
    decreases fuel
  {
    if id in groups && groups[id].Some? {
      EnoughFuel(groups, groups[id].value, fuel - 1);
    }
  }

  lemma {:induction false} AncestorsAreShallower(groups: Groups, id: string, a: string, k: nat, fuel: nat)
    requires Ancestor(groups, id, a, k) && Chain(groups, id, fuel + 1) <= fuel
    ensures k <= fuel && Chain(groups, id, fuel) == k + Chain(groups, a, fuel)
    decreases k
  {
    EnoughFuel(groups, id, fuel);
    if k > 0 {
      var up := groups[id].value;
      AncestorsAreShallower(groups, up, a, k - 1, fuel - 1);
      MoreFuel(groups, a, fuel - 1);
      AncestorEnds(groups, up, a, k - 1, fuel - 1);
    }
  }

  lemma {:induction false} AncestorEnds(groups: Groups, id: string, a: string, k: nat, fuel: nat)
    requires Ancestor(groups, id, a, k) && Chain(groups, id, fuel + 1) <= fuel
    ensures k <= fuel && Chain(groups, a, fuel + 1) <= fuel
    ensures Chain(groups, a, fuel) == Chain(groups, a, fuel + 1)
    decreases k
  {
    EnoughFuel(groups, id, fuel);
    if k > 0 {
      AncestorEnds(groups, groups[id].value, a, k - 1, fuel - 1);
      StopsEarly(groups, a, fuel);
    }
  }

  /** A chain that has stopped stays stopped. */
  lemma {:induction false} StopsEarly(groups: Groups, id: string, fuel: nat)
    requires fuel > 0 && Chain(groups, id, fuel) <= fuel - 1
    ensures Chain(groups, id, fuel + 1) == Chain(groups, id, fuel)
    decreases fuel
  {
    if id in groups && groups[id].Some? {
      if fuel > 1 { StopsEarly(groups, groups[id].value, fuel - 1); }
    }
  }

  lemma {:induction false} MoreFuel(groups: Groups, id: string, fuel: nat)
    ensures Chain(groups, id, fuel) <= Chain(groups, id, fuel + 1) <= fuel + 1
    decreases fuel
  {
    if fuel > 0 && id in groups && groups[id].Some? { MoreFuel(groups, groups[id].value, fuel - 1); }
  }

  /** On an acyclic chain every proper ancestor is strictly shallower. */
  lemma ProperAncestorIsShallower(groups: Groups, id: string, a: string, k: nat)
    requires Ends(groups, id) && Ancestor(groups, id, a, k) && k > 0
    ensures Chain(groups, a, |groups|) < Chain(groups, id, |groups|)
  {
    AncestorsAreShallower(groups, id, a, k, |groups|);
  }

  // --- the order, and the loop ---------------------------------------------------------------------------

  datatype Kind = Group | Type

  /** One finding: a group's file or a type's, and the folder it belongs in when that can be told. */
  datatype Misplaced = Misplaced(kind: Kind, id: string, file: Path, expectedDir: Option<Path>)

  /** Groups by depth, then the types. */
  predicate NotAfter(groups: Groups, a: Misplaced, b: Misplaced) {
    match (a.kind, b.kind)
    case (Group, Group) => Chain(groups, a.id, |groups|) <= Chain(groups, b.id, |groups|)
    case (Type, Group) => false
    case _ => true
  }

  ghost predicate Ordered(groups: Groups, ms: seq<Misplaced>) {
    forall i, j | 0 <= i < j < |ms| :: NotAfter(groups, ms[i], ms[j])
  }

  /** The comparison can be sorted by: any two findings one way or the other, ties both ways, and step by step. */
  lemma ComparisonSorts(groups: Groups, a: Misplaced, b: Misplaced, c: Misplaced)
    ensures NotAfter(groups, a, b) || NotAfter(groups, b, a)
    ensures NotAfter(groups, a, b) && NotAfter(groups, b, c) ==> NotAfter(groups, a, c)
    ensures a.kind == b.kind && (a.kind == Type || Chain(groups, a.id, |groups|) == Chain(groups, b.id, |groups|)) ==> NotAfter(groups, a, b)
    ensures a.kind == Group && b.kind == Type ==> NotAfter(groups, a, b) && !NotAfter(groups, b, a)
  {
  }

  /** In every sorted order a misplaced group on an acyclic chain comes after each misplaced ancestor of it. */
  lemma AncestorsComeFirst(groups: Groups, ms: seq<Misplaced>, i: nat, j: nat, k: nat)
    requires Ordered(groups, ms) && i < |ms| && j < |ms| && ms[i].kind == Group && ms[j].kind == Group
    requires k > 0 && Ends(groups, ms[j].id) && Ancestor(groups, ms[j].id, ms[i].id, k)
    ensures i < j
  {
    ProperAncestorIsShallower(groups, ms[j].id, ms[i].id, k);
    assert !NotAfter(groups, ms[j], ms[i]);
  }

  function MovedDirs(dirs: set<Path>, m: Move): set<Path> {
    set d | d in dirs :: Moved(m, d)
  }

  function Dir(p: Path): Path {
    if p == [] then [] else p[..|p| - 1]
  }

  function Base(p: Path): seq<string> {
    if p == [] then [] else [p[|p| - 1]]
  }

  /** The tree and what the repair has done to it so far; `renamed` holds the folders' renames alone. */
  datatype Progress = Progress(files: Files, dirs: set<Path>, done: seq<Move>, renamed: seq<Move>)

  function Start(files: Files, dirs: set<Path>): Progress {
    Progress(files, dirs, [], [])
  }

  /** The rename one finding asks for: none when its folder cannot be told, it is in place, or the place is taken. */
  function MoveFor(p: Progress, it: Misplaced): Option<Move> {
    if it.expectedDir.None? then None
    else
      var expected := Remap(p.renamed, it.expectedDir.value);
      var file := Remap(p.renamed, it.file);
      if it.kind == Group then
        if Dir(file) == expected || Taken(p.files, p.dirs, expected) then None else Some(Move(Dir(file), expected))
      else
        if Dir(file) == expected || Taken(p.files, p.dirs, expected + Base(file)) then None
        else Some(Move(file, expected + Base(file)))
  }

  function UpTo(p: Path): set<Path> {
    set i | 0 <= i <= |p| :: p[..i]
  }

  /** Making a folder makes every folder above it. */
  lemma UpToIff(p: Path, d: Path)
    ensures d in UpTo(p) <==> d <= p
  {
    if d <= p { assert d == p[..|d|]; }
  }

  lemma MoveForIsFree(p: Progress, it: Misplaced)
    requires MoveFor(p, it).Some?
    ensures FreeFor(p.files, MoveFor(p, it).value)
  {
  }

  /** One finding handled, with nothing thrown. */
  function Handled(p: Progress, it: Misplaced): Progress {
    match MoveFor(p, it)
    case None => p
    case Some(m) =>
      MoveForIsFree(p, it);
      Progress(AfterMove(p.files, m), MovedDirs(p.dirs + UpTo(Dir(m.dest)), m), p.done + [m],
               if it.kind == Group then p.renamed + [m] else p.renamed)
  }

  function HandledAll(p: Progress, ordered: seq<Misplaced>): Progress {
    if ordered == [] then p else Handled(HandledAll(p, ordered[..|ordered| - 1]), ordered[|ordered| - 1])
  }

  lemma HandledOneMore(start: Progress, ordered: seq<Misplaced>, i: nat)
    requires i < |ordered|
    ensures HandledAll(start, ordered[..i + 1]) == Handled(HandledAll(start, ordered[..i]), ordered[i])
  {
    assert ordered[..i + 1][..i] == ordered[..i];
  }

  lemma HandledMoves(p: Progress, it: Misplaced, m: Move)
    requires MoveFor(p, it) == Some(m)
    ensures FreeFor(p.files, m)
    ensures Handled(p, it) == Progress(AfterMove(p.files, m), MovedDirs(p.dirs + UpTo(Dir(m.dest)), m), p.done + [m],
                                       if it.kind == Group then p.renamed + [m] else p.renamed)
  {
    MoveForIsFree(p, it);
  }

  lemma FolderCarriesFile(file: Path, dest: Path)
    requires file != []
    ensures Moved(Move(Dir(file), dest), file) == dest + Base(file)
  {
    assert file == Dir(file) + Base(file);
    assert file[|Dir(file)|..] == Base(file);
  }

  lemma FileMovesItself(file: Path, dest: Path)
    ensures Moved(Move(file, dest), file) == dest
  {
    assert file[|file|..] == [];
  }

  lemma StartCarries(files: Files)
    ensures Carried(files, files, [])
  {
  }

  lemma HandlingCarries(before: Files, p: Progress, it: Misplaced)
    requires Carried(before, p.files, p.done)
    ensures Carried(before, Handled(p, it).files, Handled(p, it).done)
  {
    if MoveFor(p, it).Some? {
      MoveForIsFree(p, it);
      MoveCarries(before, p.files, p.done, MoveFor(p, it).value);
    }
  }

  lemma {:induction false} RepairCarries(files: Files, dirs: set<Path>, ordered: seq<Misplaced>)
    ensures Carried(files, HandledAll(Start(files, dirs), ordered).files, HandledAll(Start(files, dirs), ordered).done)
  {
    if ordered == [] {
      StartCarries(files);
    } else {
      var front, last := ordered[..|ordered| - 1], ordered[|ordered| - 1];
      RepairCarries(files, dirs, front);
      HandlingCarries(files, HandledAll(Start(files, dirs), front), last);
    }
  }

  /**
   Conservation. However far the repair gets, every file of the tree lies, whole, where the renames that
   happened took it; none was overwritten, none appeared, and the multiset of contents is the same.
   */
  lemma RepairConserves(files: Files, dirs: set<Path>, ordered: seq<Misplaced>)
    ensures
      var p := HandledAll(Start(files, dirs), ordered);
      Carried(files, p.files, p.done) && Contents(p.files) == Contents(files)
  {
    RepairCarries(files, dirs, ordered);
    var p := HandledAll(Start(files, dirs), ordered);
    CarryingConserves(files, p.files, p.done);
  }

  // --- where findings end up --------------------------------------------------------------------------

  /** No rename starts and ends at one place: a group already in its folder is left alone, and a type beside it. */
  lemma MovesSomewhere(p: Progress, it: Misplaced)
    requires MoveFor(p, it).Some?
    ensures MoveFor(p, it).value.source != MoveFor(p, it).value.dest
  {
    var file, expected := Remap(p.renamed, it.file), Remap(p.renamed, it.expectedDir.value);
    if it.kind == Type && file != [] {
      assert file == Dir(file) + Base(file);
      SameFolderIff(Dir(file), expected, Base(file));
    }
  }

  /** Something is at the place: a folder made or listed there, a file, or a file below it. */
  ghost predicate Occupied(p: Progress, place: Path) {
    place in p.dirs || place in p.files || exists q | q in p.files :: |place| < |q| && q[..|place|] == place
  }

  /**
   Which findings are acted on, and how: those whose folder can be told, whose file is not in it already, and
   whose place is free. A group takes its whole folder along, a type goes alone.
   */
  lemma ActedOnIff(p: Progress, it: Misplaced)
    requires Remap(p.renamed, it.file) != []
    ensures it.expectedDir.None? ==> MoveFor(p, it) == None
    ensures it.expectedDir.Some? ==>
      var file, dir := Remap(p.renamed, it.file), Remap(p.renamed, it.expectedDir.value);
      var at, name := file[..|file| - 1], file[|file| - 1];
      var place := if it.kind == Group then dir else dir + [name];
      MoveFor(p, it) == if at == dir || Occupied(p, place) then None else Some(Move(if it.kind == Group then at else file, place))
  {
    if it.expectedDir.Some? {
      var file, dir := Remap(p.renamed, it.file), Remap(p.renamed, it.expectedDir.value);
      OccupiedIff(p, if it.kind == Group then dir else dir + Base(file));
    }
  }

  lemma OccupiedIff(p: Progress, place: Path)
    ensures Occupied(p, place) <==> Taken(p.files, p.dirs, place)
  {
    if Taken(p.files, p.dirs, place) && place !in p.dirs && place !in p.files {
      var q :| q in p.files && place <= q;
      assert q[..|place|] == place && q != place;
    }
  }

  /** The types' renames, which come after the groups'. */
  function TypeMoves(p: Progress): seq<Move> {
    if |p.renamed| <= |p.done| then p.done[|p.renamed|..] else []
  }

  /** No rename done after the first that took the path starts at or above where that one took it. */
  predicate Settled(p: Progress, q: Path) {
    !Disturbs(Rest(p.renamed, q) + TypeMoves(p), Remap(p.renamed, q))
  }

  /** Some rename done after the first that took the path ends at or above where that one took it. */
  predicate Reused(p: Progress, q: Path) {
    PutsBack(Rest(p.renamed, q) + TypeMoves(p), Remap(p.renamed, q))
  }

  lemma SettledIsFound(p: Progress, q: Path)
    requires p.renamed <= p.done
    ensures Settled(p, q) ==> Final(p.done, q) == Remap(p.renamed, q)
    ensures !Reused(p, q) ==> (Final(p.done, q) == Remap(p.renamed, q) <==> Settled(p, q))
  {
    RemapIsFinalIff(p.renamed, TypeMoves(p), q);
    assert p.renamed + TypeMoves(p) == p.done;
  }

  lemma {:induction false} RepairMovesSomewhere(start: Progress, ordered: seq<Misplaced>)
    requires start.renamed == []
    ensures forall m | m in HandledAll(start, ordered).renamed :: m.source != m.dest
  {
    if ordered != [] {
      var front, last := ordered[..|ordered| - 1], ordered[|ordered| - 1];
      RepairMovesSomewhere(start, front);
      if MoveFor(HandledAll(start, front), last).Some? { MovesSomewhere(HandledAll(start, front), last); }
    }
  }

  /**
   Of one path and a whole repair, exactly: at every moment the remapping answers where the folders' renames
   took the path, if and only if none of them, after the first that took it, starts at or above where that
   one took it.
   */
  lemma RemapIsRightThroughoutIff(files: Files, dirs: set<Path>, ordered: seq<Misplaced>, p: Path)
    ensures
      var renamed := HandledAll(Start(files, dirs), ordered).renamed;
      (forall n | 0 <= n <= |renamed| :: Remap(renamed[..n], p) == Final(renamed[..n], p))
      <==> !Disturbs(Rest(renamed, p), Remap(renamed, p))
  {
    RepairMovesSomewhere(Start(files, dirs), ordered);
    RemapIsFinalThroughoutIff(HandledAll(Start(files, dirs), ordered).renamed, p);
  }

  /** In the sorted order the groups' renames all come before the types'. */
  lemma {:induction false} GroupsGoFirst(groups: Groups, start: Progress, ordered: seq<Misplaced>)
    requires start.done == start.renamed == [] && Ordered(groups, ordered)
    ensures
      var p := HandledAll(start, ordered);
      p.renamed <= p.done && ((forall it | it in ordered :: it.kind == Group) ==> p.done == p.renamed)
  {
    if ordered != [] {
      var front, last := ordered[..|ordered| - 1], ordered[|ordered| - 1];
      GroupsGoFirst(groups, start, front);
      if last.kind == Group {
        forall it | it in front ensures it.kind == Group {
          var i :| 0 <= i < |front| && front[i] == it;
          assert NotAfter(groups, ordered[i], ordered[|ordered| - 1]);
        }
      } else {
        assert last in ordered;
      }
    }
  }

  lemma OrderedPrefix(groups: Groups, ordered: seq<Misplaced>, n: nat)
    requires Ordered(groups, ordered) && n <= |ordered|
    ensures Ordered(groups, ordered[..n])
  {
  }

  /** The file of a finding that is acted on, followed from where the repair found it. */
  lemma ActedOnMoves(p: Progress, it: Misplaced)
    requires MoveFor(p, it).Some? && Remap(p.renamed, it.file) != [] && Final(p.done, it.file) == Remap(p.renamed, it.file)
    ensures Final(Handled(p, it).done, it.file) == Remap(p.renamed, it.expectedDir.value) + Base(Remap(p.renamed, it.file))
  {
    var file, m := Remap(p.renamed, it.file), MoveFor(p, it).value;
    HandledMoves(p, it, m);
    FinalSnoc(p.done, m, it.file);
    FolderCarriesFile(file, Remap(p.renamed, it.expectedDir.value));
    FileMovesItself(file, Remap(p.renamed, it.expectedDir.value) + Base(file));
  }

  /** The file of a finding lies in the folder the finding names, wherever that folder went. */
  ghost predicate InItsFolder(files: Files, done: seq<Move>, before: Progress, it: Misplaced, content: Content)
    requires it.expectedDir.Some?
  {
    var place := Final(before.done, it.expectedDir.value) + Base(Remap(before.renamed, it.file));
    Final(done, it.file) == place && place in files && files[place] == content
  }

  /**
   Where a finding that is acted on ends up. In every repair, over every tree and every sorted list of
   findings: a file the remapping still finds is put into the folder its finding names, wherever earlier
   renames took that folder, if no rename after the first that took it starts at or above where it went;
   and, unless a rename ends there again, only if.
   */
  lemma LandsWhereItBelongs(groups: Groups, files: Files, dirs: set<Path>, ordered: seq<Misplaced>, n: nat)
    requires Ordered(groups, ordered) && n < |ordered|
    requires
      var p := HandledAll(Start(files, dirs), ordered[..n]);
      && MoveFor(p, ordered[n]).Some?
      && ordered[n].file in files && Remap(p.renamed, ordered[n].file) != [] && Settled(p, ordered[n].file)
    ensures
      var it, dir := ordered[n], ordered[n].expectedDir.value;
      var p, q := HandledAll(Start(files, dirs), ordered[..n]), HandledAll(Start(files, dirs), ordered[..n + 1]);
      && (Settled(p, dir) ==> InItsFolder(q.files, q.done, p, it, files[it.file]))
      && (!Reused(p, dir) ==> (InItsFolder(q.files, q.done, p, it, files[it.file]) <==> Settled(p, dir)))
  {
    var it, dir := ordered[n], ordered[n].expectedDir.value;
    var p, q := HandledAll(Start(files, dirs), ordered[..n]), HandledAll(Start(files, dirs), ordered[..n + 1]);
    HandledOneMore(Start(files, dirs), ordered, n);
    OrderedPrefix(groups, ordered, n);
    GroupsGoFirst(groups, Start(files, dirs), ordered[..n]);
    SettledIsFound(p, it.file);
    SettledIsFound(p, dir);
    ActedOnMoves(p, it);
    SameFolderIff(Remap(p.renamed, dir), Final(p.done, dir), Base(Remap(p.renamed, it.file)));
    RepairCarries(files, dirs, ordered[..n + 1]);
    assert Final(q.done, it.file) in q.files && q.files[Final(q.done, it.file)] == files[it.file];
  }

  // --- a repair that misplaces a type --------------------------------------------------------------------

  /** The names in a tree: the types folder, the groups G, P inside G and C inside P, C's folder, a type file and a group file. */
  datatype Names = Names(types: string, g: string, p: string, c: string, lower: string, t: string, index: string)
  {
    predicate Distinct() {
      && types != g && types != p && types != lower && g != p && g != t && g != index && p != t && p != index && p != lower && p != c
      && c != lower && c != index && lower != index && t != index
    }

    /** P sits beside its parent G, C inside P in a folder of another name, and C's type outside it. */
    function Tree(): Files {
      map[[types, g, index] := 0, [types, p, index] := 1, [types, p, lower, index] := 2, [types, t] := 3]
    }

    /** What the layout check reports of it, in the order the repair takes them. */
    function Findings(): seq<Misplaced> {
      [Misplaced(Group, p, [types, p, index], Some([types, g, p])),
       Misplaced(Group, c, [types, p, lower, index], Some([types, p, c])),
       Misplaced(Type, t, [types, t], Some([types, p, lower]))]
    }

    /** The renames it asks for: P under G, C's folder to its own name, and the type into the folder C just left. */
    function Rename(n: nat): Move
      requires n < 3
    {
      match n
      case 0 => Move([types, p], [types, g, p])
      case 1 => Move([types, g, p, lower], [types, g, p, c])
      case _ => Move([types, t], [types, g, p, lower, t])
    }

    function Renames(n: nat): seq<Move>
      requires n <= 3
    {
      if n == 0 then [] else Renames(n - 1) + [Rename(n - 1)]
    }

    /** Where the four files lie after the first `n` renames. */
    function Place(n: nat, file: nat): Path
      requires n <= 2 && file < 4
    {
      match (n, file)
      case (_, 0) => [types, g, index]
      case (_, 3) => [types, t]
      case (0, 1) => [types, p, index]
      case (_, 1) => [types, g, p, index]
      case (0, _) => [types, p, lower, index]
      case (1, _) => [types, g, p, lower, index]
      case (_, _) => [types, g, p, c, index]
    }
  }

  lemma Differ(a: Path, b: Path, i: nat)
    requires i < |a| && (|b| <= i || a[i] != b[i])
    ensures !(a <= b)
  {
  }

  lemma TakesAlong(m: Move, path: Path, head: Path, tail: Path)
    requires m.source == head && path == head + tail
    ensures m.source <= path && Moved(m, path) == m.dest + tail
  {
    assert path[|head|..] == tail;
  }

  lemma FirstTakes(x: Names, file: nat)
    requires x.Distinct() && file < 4
    ensures Moved(x.Rename(0), x.Place(0, file)) == x.Place(1, file)
  {
    var m, f := x.Rename(0), x.Place(0, file);
    if file == 0 || file == 3 {
      Differ(m.source, f, 1);
    } else {
      TakesAlong(m, f, [x.types, x.p], f[2..]);
    }
  }

  lemma SecondTakes(x: Names, file: nat)
    requires x.Distinct() && file < 4
    ensures Moved(x.Rename(1), x.Place(1, file)) == x.Place(2, file)
  {
    var m, f := x.Rename(1), x.Place(1, file);
    if file == 2 {
      TakesAlong(m, f, [x.types, x.g, x.p, x.lower], [x.index]);
    } else {
      Differ(m.source, f, if file == 1 then 3 else 2);
    }
  }

  /** Where the first `n` renames took the four files. */
  lemma PlacesOf(x: Names, n: nat, file: nat)
    requires x.Distinct() && n <= 2 && file < 4
    ensures Final(x.Renames(n), x.Place(0, file)) == x.Place(n, file)
  {
    assert x.Renames(0) == [];
    if n >= 1 {
      assert x.Renames(1) == [] + [x.Rename(0)];
      FinalSnoc([], x.Rename(0), x.Place(0, file));
      FirstTakes(x, file);
    }
    if n == 2 {
      assert x.Renames(2) == x.Renames(1) + [x.Rename(1)];
      FinalSnoc(x.Renames(1), x.Rename(1), x.Place(0, file));
      SecondTakes(x, file);
    }
  }

  lemma FileAt(x: Names, q: Path) returns (file: nat)
    requires q in x.Tree()
    ensures file < 4 && x.Place(0, file) == q
  {
    file := x.Tree()[q];
  }

  lemma RenamesOf(x: Names)
    ensures x.Renames(0) == [] && x.Renames(1) == [x.Rename(0)] && x.Renames(2) == [x.Rename(0), x.Rename(1)]
  {
    assert x.Renames(0) == [];
    assert x.Renames(1) == x.Renames(0) + [x.Rename(0)];
    assert x.Renames(2) == x.Renames(1) + [x.Rename(1)];
  }

  /** A place no renamed file lies at or under, deeper than every folder made so far, is free. */
  lemma FreeAfter(x: Names, n: nat, p: Progress, dest: Path)
    requires x.Distinct() && n <= 2 && Carried(x.Tree(), p.files, p.done) && p.done == x.Renames(n)
    requires (forall d | d in p.dirs :: |d| < |dest|) && forall file: nat | file < 4 :: !(dest <= x.Place(n, file))
    ensures !Taken(p.files, p.dirs, dest)
  {
    forall r | r in p.files ensures !(dest <= r) {
      var q :| q in x.Tree() && Final(p.done, q) == r;
      var file := FileAt(x, q);
      PlacesOf(x, n, file);
    }
  }

  lemma SecondRemaps(x: Names)
    requires x.Distinct()
    ensures Remap([x.Rename(0)], [x.types, x.p, x.c]) == [x.types, x.g, x.p, x.c]
    ensures Remap([x.Rename(0)], [x.types, x.p, x.lower, x.index]) == [x.types, x.g, x.p, x.lower, x.index]
    ensures Remap([x.Rename(0)], [x.types, x.p, x.lower]) == [x.types, x.g, x.p, x.lower]
  {
    TakesAlong(x.Rename(0), [x.types, x.p, x.c], [x.types, x.p], [x.c]);
    TakesAlong(x.Rename(0), [x.types, x.p, x.lower, x.index], [x.types, x.p], [x.lower, x.index]);
    TakesAlong(x.Rename(0), [x.types, x.p, x.lower], [x.types, x.p], [x.lower]);
  }

  lemma ThirdRemaps(x: Names)
    requires x.Distinct()
    ensures Remap(x.Renames(2), [x.types, x.p, x.lower]) == [x.types, x.g, x.p, x.lower]
    ensures Remap(x.Renames(2), [x.types, x.t]) == [x.types, x.t]
  {
    var all := x.Renames(2);
    RenamesOf(x);
    TakesAlong(x.Rename(0), [x.types, x.p, x.lower], [x.types, x.p], [x.lower]);
    Differ(x.Rename(0).source, [x.types, x.t], 1);
    Differ(x.Rename(1).source, [x.types, x.t], 2);
    var last := [x.Rename(1)];
    assert all[1..] == last && last[1..] == [];
    assert Remap(last, [x.types, x.t]) == Remap(last[1..], [x.types, x.t]);
  }

  lemma FirstHandled(x: Names, p: Progress)
    requires x.Distinct() && p == Start(x.Tree(), {})
    ensures MoveFor(p, x.Findings()[0]) == Some(x.Rename(0))
  {
    var dest := [x.types, x.g, x.p];
    StartCarries(x.Tree());
    Differ(dest, x.Place(0, 0), 2);
    Differ(dest, x.Place(0, 1), 1);
    Differ(dest, x.Place(0, 2), 1);
    Differ(dest, x.Place(0, 3), 2);
    FreeAfter(x, 0, p, dest);
    assert [x.types, x.p, x.index][..2] == [x.types, x.p];
  }

  lemma SecondHandled(x: Names, p: Progress)
    requires x.Distinct() && Carried(x.Tree(), p.files, p.done) && p.done == p.renamed == x.Renames(1) && forall d | d in p.dirs :: |d| <= 2
    ensures MoveFor(p, x.Findings()[1]) == Some(x.Rename(1))
  {
    var dest := [x.types, x.g, x.p, x.c];
    assert x.Renames(1) == [x.Rename(0)];
    SecondRemaps(x);
    Differ(dest, x.Place(1, 0), 2);
    Differ(dest, x.Place(1, 1), 3);
    Differ(dest, x.Place(1, 2), 3);
    Differ(dest, x.Place(1, 3), 2);
    FreeAfter(x, 1, p, dest);
    assert [x.types, x.g, x.p, x.lower, x.index][..4] == [x.types, x.g, x.p, x.lower];
  }

  lemma ThirdHandled(x: Names, p: Progress)
    requires x.Distinct() && Carried(x.Tree(), p.files, p.done) && p.done == p.renamed == x.Renames(2) && forall d | d in p.dirs :: |d| <= 3
    ensures MoveFor(p, x.Findings()[2]) == Some(x.Rename(2))
  {
    var dest := [x.types, x.g, x.p, x.lower, x.t];
    ThirdRemaps(x);
    Differ(dest, x.Place(2, 0), 2);
    Differ(dest, x.Place(2, 1), 3);
    Differ(dest, x.Place(2, 2), 3);
    Differ(dest, x.Place(2, 3), 2);
    FreeAfter(x, 2, p, dest);
    assert [x.types, x.t][..1] == [x.types] && [x.types, x.g, x.p, x.lower] + [x.t] == dest;
  }

  lemma FoldersMade(dirs: set<Path>, m: Move, n: nat)
    requires (forall d | d in dirs :: |d| <= n) && |m.source| > n && |Dir(m.dest)| <= n
    ensures forall d | d in MovedDirs(dirs + UpTo(Dir(m.dest)), m) :: |d| <= n
  {
  }

  lemma RunsFirst(x: Names)
    requires x.Distinct()
    ensures
      var p := HandledAll(Start(x.Tree(), {}), x.Findings()[..1]);
      p.done == p.renamed == x.Renames(1) && forall d | d in p.dirs :: |d| <= 2
  {
    var start, all := Start(x.Tree(), {}), x.Findings();
    assert all[..0] == [];
    HandledOneMore(start, all, 0);
    FirstHandled(x, start);
    HandledMoves(start, all[0], x.Rename(0));
    RenamesOf(x);
    assert Dir(x.Rename(0).dest) == [x.types, x.g];
    FirstDirs(x, HandledAll(start, all[..1]));
  }

  lemma RunsSecond(x: Names)
    requires x.Distinct()
    ensures
      var p := HandledAll(Start(x.Tree(), {}), x.Findings()[..2]);
      p.done == p.renamed == x.Renames(2) && forall d | d in p.dirs :: |d| <= 3
  {
    var start, all := Start(x.Tree(), {}), x.Findings();
    var p1 := HandledAll(start, all[..1]);
    RunsFirst(x);
    RepairCarries(x.Tree(), {}, all[..1]);
    HandledOneMore(start, all, 1);
    SecondHandled(x, p1);
    HandledMoves(p1, all[1], x.Rename(1));
    FoldersMade(p1.dirs, x.Rename(1), 3);
  }

  lemma RunsThird(x: Names)
    requires x.Distinct()
    ensures
      var p := HandledAll(Start(x.Tree(), {}), x.Findings()[..2]);
      p.done == x.Renames(2) && MoveFor(p, x.Findings()[2]) == Some(x.Rename(2))
  {
    RunsSecond(x);
    RepairCarries(x.Tree(), {}, x.Findings()[..2]);
    ThirdHandled(x, HandledAll(Start(x.Tree(), {}), x.Findings()[..2]));
  }

  lemma FirstDirs(x: Names, p: Progress)
    requires x.Distinct() && p.dirs == MovedDirs({} + UpTo([x.types, x.g]), x.Rename(0))
    ensures forall d | d in p.dirs :: |d| <= 2
  {
    forall d | d in UpTo([x.types, x.g]) ensures |Moved(x.Rename(0), d)| <= 2 {
      var i :| 0 <= i <= 2 && d == [x.types, x.g][..i];
      Differ(x.Rename(0).source, d, 1);
    }
  }

  lemma ThirdTakes(x: Names)
    requires x.Distinct()
    ensures Final(x.Renames(3), [x.types, x.p, x.lower, x.index]) == [x.types, x.g, x.p, x.c, x.index]
    ensures Final(x.Renames(3), [x.types, x.t]) == [x.types, x.g, x.p, x.lower, x.t]
  {
    PlacesOf(x, 2, 2);
    PlacesOf(x, 2, 3);
    FinalSnoc(x.Renames(2), x.Rename(2), [x.types, x.p, x.lower, x.index]);
    FinalSnoc(x.Renames(2), x.Rename(2), [x.types, x.t]);
    Differ(x.Rename(2).source, x.Place(2, 2), 1);
    TakesAlong(x.Rename(2), [x.types, x.t], [x.types, x.t], []);
  }

  lemma RunsThrough(x: Names)
    requires x.Distinct()
    ensures HandledAll(Start(x.Tree(), {}), x.Findings()).done == x.Renames(3)
  {
    var start, all := Start(x.Tree(), {}), x.Findings();
    RunsThird(x);
    HandledOneMore(start, all, 2);
    assert all[..3] == all;
    HandledMoves(HandledAll(start, all[..2]), all[2], x.Rename(2));
  }

  /**
   The repair can put a type where its group no longer is. G is a group, P belongs inside it, C inside P in
   a folder of another name, and a type of C lies outside: P moves under G, C's folder takes C's name there,
   and the type, remapped by the first rename alone, goes into the folder C has just left.
   */
  lemma RepairMisplacesAType(x: Names)
    requires x.Distinct()
    ensures
      var p := HandledAll(Start(x.Tree(), {}), x.Findings());
      var group, place := Final(p.done, [x.types, x.p, x.lower, x.index]), Final(p.done, [x.types, x.t]);
      && p.done == x.Renames(3)
      && group == [x.types, x.g, x.p, x.c, x.index] && place == [x.types, x.g, x.p, x.lower, x.t]
      && group in p.files && p.files[group] == 2 && place in p.files && p.files[place] == 3
  {
    RunsThrough(x);
    ThirdTakes(x);
    RepairCarries(x.Tree(), {}, x.Findings());
    assert [x.types, x.p, x.lower, x.index] in x.Tree() && [x.types, x.t] in x.Tree();
  }

  /** The spec tree on disk; any operation may throw, and `thrown` says whether one did. */
  class Disk {
    var files: Files
    var dirs: set<Path>
    ghost var thrown: bool

    method EnsureDir(p: Path) returns (ok: bool)
      modifies this`dirs, this`thrown
      ensures ok ==> dirs == old(dirs) + UpTo(p)
      ensures thrown == (old(thrown) || !ok)
    {
      ok := *;
      if ok {
        dirs := dirs + UpTo(p);
      } else {
        thrown := true;
      }
    }

    /** `renamePath`: throws on a missing source and on a move into itself. */
    method Rename(m: Move) returns (ok: bool)
      requires FreeFor(files, m)
      modifies this
      ensures files == if ok then AfterMove(old(files), m) else old(files)
      ensures ok ==> dirs == MovedDirs(old(dirs), m)
      ensures ok ==> Taken(old(files), old(dirs), m.source) && !(m.source <= m.dest)
      ensures thrown == (old(thrown) || !ok)
    {
      var free: bool := *;
      ok := free && Taken(files, dirs, m.source) && !(m.source <= m.dest);
      if ok {
        dirs := MovedDirs(dirs, m);
        files := AfterMove(files, m);
      } else {
        thrown := true;
      }
    }

    /** The move loop of `repairGroupPlacement`; `handled` findings were dealt with before anything threw. */
    method Repair(ordered: seq<Misplaced>) returns (handled: nat, done: seq<Move>, renamed: seq<Move>)
      modifies this
      ensures handled <= |ordered|
      ensures
        var p := HandledAll(Start(old(files), old(dirs)), ordered[..handled]);
        files == p.files && done == p.done && renamed == p.renamed
      ensures !old(thrown) ==> (handled == |ordered| <==> !thrown)
    {
      done, renamed := [], [];
      handled := 0;
      while handled < |ordered|
        invariant handled <= |ordered|
        invariant thrown == old(thrown)
        invariant Progress(files, dirs, done, renamed) == HandledAll(Start(old(files), old(dirs)), ordered[..handled])
      {
        HandledOneMore(Start(old(files), old(dirs)), ordered, handled);
        var it := ordered[handled];
        var move := MoveFor(Progress(files, dirs, done, renamed), it);
        if move.Some? {
          HandledMoves(Progress(files, dirs, done, renamed), it, move.value);
          var ok := EnsureDir(Dir(move.value.dest));
          if !ok {
            return;
          }
          ok := Rename(move.value);
          if !ok {
            return;
          }
          done := done + [move.value];
          if it.kind == Group {
            renamed := renamed + [move.value];
          }
        }
        handled := handled + 1;
      }
    }
  }
}
