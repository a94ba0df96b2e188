/**
 What changed since an approval: the per-spec comparison, and the pairing that tells a spec whose
 file only moved from one added and one removed.
 */
module SpecDiff {
  import opened Basics
  import opened ApprovalRecord

  lemma {:induction false} HasLeast(s: set<nat>, x: nat)
    requires x in s
    ensures exists y :: y in s && forall z | z in s :: y <= z
    decreases x
  {
    if y :| y in s && y < x {
      HasLeast(s, y);
    } else {
      assert forall z | z in s :: x <= z;
    }
  }

  function Least(s: set<nat>): (x: nat)
    requires s != {}
    ensures x in s && forall y | y in s :: x <= y
  {
    var some :| some in s;
    HasLeast(s, some);
    var x: nat :| x in s && forall y | y in s :: x <= y;
    x
  }

  /** `Object.keys(…).sort()` */
  function Sorted(s: set<nat>): (r: seq<nat>)
    ensures forall k :: k in r <==> k in s
    ensures forall i, j | 0 <= i < j < |r| :: r[i] < r[j]
  {
    if s == {} then []
    else
      var x := Least(s);
      assert s == (s - {x}) + {x};
      [x] + Sorted(s - {x})
  }

  /** What the record or the tree holds at each of these paths, counted. */
  function Bag(m: Tree, ks: seq<SpecPath>): multiset<Option<Spec>> {
    if ks == [] then multiset{} else Bag(m, ks[..|ks| - 1]) + multiset{Look(m, ks[|ks| - 1])}
  }

  lemma BagSnoc(m: Tree, ks: seq<SpecPath>, k: SpecPath)
    ensures Bag(m, ks + [k]) == Bag(m, ks) + multiset{Look(m, k)}
  {
    assert (ks + [k])[..|ks|] == ks;
  }

  lemma {:induction false} BagWithout(m: Tree, ks: seq<SpecPath>, at: nat)
    requires at < |ks|
    ensures Bag(m, ks) == Bag(m, ks[..at] + ks[at + 1..]) + multiset{Look(m, ks[at])}
  {
    var front, last := ks[..|ks| - 1], ks[|ks| - 1];
    var rest := ks[..at] + ks[at + 1..];
    if at == |ks| - 1 {
      assert rest == front;
    } else {
      BagWithout(m, front, at);
      assert rest == (front[..at] + front[at + 1..]) + [last];
      BagSnoc(m, front[..at] + front[at + 1..], last);
    }
  }

  ghost predicate Carries(m: Tree, ks: seq<SpecPath>, s: Option<Spec>) {
    exists k | k in ks :: Look(m, k) == s
  }

  lemma CarriesSnoc(m: Tree, front: seq<SpecPath>, last: SpecPath, s: Option<Spec>)
    ensures Carries(m, front + [last], s) <==> Carries(m, front, s) || Look(m, last) == s
  {
    if k :| k in front && Look(m, k) == s { assert k in front + [last]; }
    if Look(m, last) == s { assert last in front + [last]; }
  }

  lemma {:induction false} BagMembers(m: Tree, ks: seq<SpecPath>, s: Option<Spec>)
    ensures s in Bag(m, ks) <==> Carries(m, ks, s)
  {
    if ks != [] {
      var front, last := ks[..|ks| - 1], ks[|ks| - 1];
      BagMembers(m, front, s);
      CarriesSnoc(m, front, last, s);
      assert ks == front + [last];
    }
  }

  // --- pairing -----------------------------------------------------------------------------------

  /** Where the pairing stands: what is left on each side, and the pairs, path before against path now. */
  datatype Pairs = Pairs(leftAdded: seq<SpecPath>, leftRemoved: seq<SpecPath>, movedFrom: seq<SpecPath>, movedTo: seq<SpecPath>)
  {
    function Leave(rel: SpecPath): Pairs {
      this.(leftAdded := leftAdded + [rel])
    }

    function Match(rel: SpecPath, at: nat): Pairs
      requires at < |leftRemoved|
    {
      Pairs(leftAdded, leftRemoved[..at] + leftRemoved[at + 1..], movedFrom + [leftRemoved[at]], movedTo + [rel])
    }

    /** Every path is left over or paired. */
    ghost predicate Covers(added: seq<SpecPath>, removed: seq<SpecPath>) {
      && (forall k :: k in added <==> k in leftAdded || k in movedTo)
      && (forall k :: k in removed <==> k in leftRemoved || k in movedFrom)
    }

    /** A pair carries one spec, and what is left on the two sides has nothing in common. */
    ghost predicate Fits(approved: Tree, current: Tree) {
      && |movedFrom| == |movedTo|
      && (forall i | 0 <= i < |movedTo| :: Look(approved, movedFrom[i]) == Look(current, movedTo[i]))
      && (forall a, r | a in leftAdded && r in leftRemoved :: Look(current, a) != Look(approved, r))
    }

    /** Each side is its leftovers and its pairs, spec by spec: no path was used twice. */
    ghost predicate Balances(approved: Tree, current: Tree, added: seq<SpecPath>, removed: seq<SpecPath>) {
      && Bag(current, added) == Bag(current, leftAdded) + Bag(current, movedTo)
      && Bag(approved, removed) == Bag(approved, leftRemoved) + Bag(approved, movedFrom)
    }
  }

  lemma LeaveCovers(p: Pairs, added: seq<SpecPath>, removed: seq<SpecPath>, rel: SpecPath)
    requires p.Covers(added, removed)
    ensures p.Leave(rel).Covers(added + [rel], removed)
  {
  }

  lemma LeaveBalances(p: Pairs, approved: Tree, current: Tree, added: seq<SpecPath>, removed: seq<SpecPath>, rel: SpecPath)
    requires p.Balances(approved, current, added, removed)
    ensures p.Leave(rel).Balances(approved, current, added + [rel], removed)
  {
    BagSnoc(current, added, rel);
    BagSnoc(current, p.leftAdded, rel);
  }

  lemma MatchSplits(p: Pairs, rel: SpecPath, at: nat)
    requires at < |p.leftRemoved|
    ensures forall k :: k in p.leftRemoved <==> k in p.Match(rel, at).leftRemoved || k == p.leftRemoved[at]
  {
    var all := p.leftRemoved;
    assert all == all[..at] + [all[at]] + all[at + 1..];
  }

  lemma MatchCovers(p: Pairs, added: seq<SpecPath>, removed: seq<SpecPath>, rel: SpecPath, at: nat)
    requires p.Covers(added, removed) && at < |p.leftRemoved|
    ensures p.Match(rel, at).Covers(added + [rel], removed)
  {
    MatchSplits(p, rel, at);
  }

  lemma MatchFits(p: Pairs, approved: Tree, current: Tree, rel: SpecPath, at: nat)
    requires p.Fits(approved, current) && at < |p.leftRemoved| && Look(approved, p.leftRemoved[at]) == Look(current, rel)
    ensures p.Match(rel, at).Fits(approved, current)
  {
    MatchSplits(p, rel, at);
  }

  lemma MatchBalances(p: Pairs, approved: Tree, current: Tree, added: seq<SpecPath>, removed: seq<SpecPath>, rel: SpecPath, at: nat)
    requires p.Balances(approved, current, added, removed)
    requires at < |p.leftRemoved| && Look(approved, p.leftRemoved[at]) == Look(current, rel)
    ensures p.Match(rel, at).Balances(approved, current, added + [rel], removed)
  {
    var q := p.Match(rel, at);
    BagSnoc(current, added, rel);
    BagSnoc(current, p.movedTo, rel);
    BagSnoc(approved, p.movedFrom, p.leftRemoved[at]);
    BagWithout(approved, p.leftRemoved, at);
    Reorder(Bag(current, p.leftAdded), Bag(current, p.movedTo), multiset{Look(current, rel)});
    Reorder(Bag(approved, q.leftRemoved), multiset{Look(approved, p.leftRemoved[at])}, Bag(approved, p.movedFrom));
  }

  lemma Reorder<T>(a: multiset<T>, b: multiset<T>, c: multiset<T>)
    ensures a + b + c == a + (b + c) == a + (c + b)
  {
  }

  /** The first place in `unpaired` whose approved spec is `s`, or its length. */
  function IndexSame(approved: Tree, unpaired: seq<SpecPath>, s: Option<Spec>): (at: nat)
    ensures at <= |unpaired|
    ensures at < |unpaired| ==> Look(approved, unpaired[at]) == s
    ensures forall i | 0 <= i < at :: Look(approved, unpaired[i]) != s
  {
    if unpaired == [] || Look(approved, unpaired[0]) == s then 0 else 1 + IndexSame(approved, unpaired[1..], s)
  }

  /** One turn of the pairing: the added path takes the first removed path not yet taken that carried the same spec. */
  function Turn(approved: Tree, current: Tree, p: Pairs, rel: SpecPath): Pairs {
    var at := IndexSame(approved, p.leftRemoved, Look(current, rel));
    if at == |p.leftRemoved| then p.Leave(rel) else p.Match(rel, at)
  }

  function PairUp(approved: Tree, current: Tree, added: seq<SpecPath>, removed: seq<SpecPath>): Pairs {
    if added == [] then Pairs([], removed, [], [])
    else Turn(approved, current, PairUp(approved, current, added[..|added| - 1], removed), added[|added| - 1])
  }

  lemma TurnCovers(p: Pairs, approved: Tree, current: Tree, added: seq<SpecPath>, removed: seq<SpecPath>, rel: SpecPath)
    requires p.Covers(added, removed)
    ensures Turn(approved, current, p, rel).Covers(added + [rel], removed)
  {
    var at := IndexSame(approved, p.leftRemoved, Look(current, rel));
    if at == |p.leftRemoved| {
      LeaveCovers(p, added, removed, rel);
    } else {
      MatchCovers(p, added, removed, rel, at);
    }
  }

  lemma TurnFits(p: Pairs, approved: Tree, current: Tree, rel: SpecPath)
    requires p.Fits(approved, current)
    ensures Turn(approved, current, p, rel).Fits(approved, current)
  {
    var at := IndexSame(approved, p.leftRemoved, Look(current, rel));
    if at == |p.leftRemoved| {
      assert forall k | k in p.leftRemoved :: Look(approved, k) != Look(current, rel);
    } else {
      MatchFits(p, approved, current, rel, at);
    }
  }

  lemma TurnBalances(p: Pairs, approved: Tree, current: Tree, added: seq<SpecPath>, removed: seq<SpecPath>, rel: SpecPath)
    requires p.Balances(approved, current, added, removed)
    ensures Turn(approved, current, p, rel).Balances(approved, current, added + [rel], removed)
  {
    var at := IndexSame(approved, p.leftRemoved, Look(current, rel));
    if at == |p.leftRemoved| {
      LeaveBalances(p, approved, current, added, removed, rel);
    } else {
      MatchBalances(p, approved, current, added, removed, rel, at);
    }
  }

  lemma LastTurn(approved: Tree, current: Tree, front: seq<SpecPath>, last: SpecPath, removed: seq<SpecPath>)
    ensures PairUp(approved, current, front + [last], removed) == Turn(approved, current, PairUp(approved, current, front, removed), last)
  {
    assert (front + [last])[..|front|] == front;
  }

  lemma {:induction false} PairingCovers(approved: Tree, current: Tree, added: seq<SpecPath>, removed: seq<SpecPath>)
    ensures PairUp(approved, current, added, removed).Covers(added, removed)
  {
    if added != [] {
      var front, last := added[..|added| - 1], added[|added| - 1];
      PairingCovers(approved, current, front, removed);
      TurnCovers(PairUp(approved, current, front, removed), approved, current, front, removed, last);
      LastTurn(approved, current, front, last, removed);
      assert added == front + [last];
    }
  }

  lemma {:induction false} PairingFits(approved: Tree, current: Tree, added: seq<SpecPath>, removed: seq<SpecPath>)
    ensures PairUp(approved, current, added, removed).Fits(approved, current)
  {
    if added != [] {
      var front, last := added[..|added| - 1], added[|added| - 1];
      PairingFits(approved, current, front, removed);
      TurnFits(PairUp(approved, current, front, removed), approved, current, last);
      LastTurn(approved, current, front, last, removed);
      assert added == front + [last];
    }
  }

  lemma OneMoreBalances(approved: Tree, current: Tree, front: seq<SpecPath>, last: SpecPath, removed: seq<SpecPath>)
    requires PairUp(approved, current, front, removed).Balances(approved, current, front, removed)
    ensures PairUp(approved, current, front + [last], removed).Balances(approved, current, front + [last], removed)
  {
    LastTurn(approved, current, front, last, removed);
    TurnBalances(PairUp(approved, current, front, removed), approved, current, front, removed, last);
  }

  lemma {:induction false} PairingBalances(approved: Tree, current: Tree, added: seq<SpecPath>, removed: seq<SpecPath>)
    ensures PairUp(approved, current, added, removed).Balances(approved, current, added, removed)
  {
    if added != [] {
      var front, last := added[..|added| - 1], added[|added| - 1];
      assert front + [last] == added;
      PairingBalances(approved, current, front, removed);
      OneMoreBalances(approved, current, front, last, removed);
    }
  }

  /** The pairing uses every path once, pairs only equal specs, and leaves nothing in common on the two sides. */
  lemma PairingIsSound(approved: Tree, current: Tree, added: seq<SpecPath>, removed: seq<SpecPath>)
    ensures PairUp(approved, current, added, removed).Covers(added, removed)
    ensures PairUp(approved, current, added, removed).Fits(approved, current)
    ensures PairUp(approved, current, added, removed).Balances(approved, current, added, removed)
  {
    PairingCovers(approved, current, added, removed);
    PairingFits(approved, current, added, removed);
    PairingBalances(approved, current, added, removed);
  }

  /** The search inside it, `findIndex`. */
  method FindSame(approved: Tree, unpaired: seq<SpecPath>, s: Option<Spec>) returns (at: nat)
    ensures at == IndexSame(approved, unpaired, s)
  {
    at := 0;
    while at < |unpaired| && Look(approved, unpaired[at]) != s
      invariant at <= |unpaired|
      invariant forall j | 0 <= j < at :: Look(approved, unpaired[j]) != s
    {
      at := at + 1;
    }
  }

  /** The pairing loop of the comparison. */
  method PairMoves(approved: Tree, current: Tree, added: seq<SpecPath>, removed: seq<SpecPath>) returns (p: Pairs)
    ensures p == PairUp(approved, current, added, removed)
  {
    p := Pairs([], removed, [], []);
    for i := 0 to |added|
      invariant p == PairUp(approved, current, added[..i], removed)
    {
      assert added[..i + 1][..i] == added[..i];
      var at := FindSame(approved, p.leftRemoved, Look(current, added[i]));
      p := if at == |p.leftRemoved| then p.Leave(added[i]) else p.Match(added[i], at);
    }
    assert added[..|added|] == added;
  }

  lemma {:induction false} ParallelBags(a: Tree, xs: seq<SpecPath>, b: Tree, ys: seq<SpecPath>)
    requires |xs| == |ys| && forall i | 0 <= i < |xs| :: Look(a, xs[i]) == Look(b, ys[i])
    ensures Bag(a, xs) == Bag(b, ys)
  {
    if xs != [] { ParallelBags(a, xs[..|xs| - 1], b, ys[..|ys| - 1]); }
  }

  lemma LeftoversDecide(p: Pairs, approved: Tree, current: Tree)
    requires p.Fits(approved, current)
    ensures |p.leftAdded| + |p.leftRemoved| == 0 <==> Bag(current, p.leftAdded) == Bag(approved, p.leftRemoved)
  {
    if p.leftAdded != [] {
      var a := p.leftAdded[0];
      BagMembers(current, p.leftAdded, Look(current, a));
      BagMembers(approved, p.leftRemoved, Look(current, a));
    } else if p.leftRemoved != [] {
      var r := p.leftRemoved[0];
      BagMembers(approved, p.leftRemoved, Look(approved, r));
      BagMembers(current, p.leftAdded, Look(approved, r));
    }
  }

  lemma Cancel<T>(a: multiset<T>, b: multiset<T>, m: multiset<T>)
    ensures a + m == b + m <==> a == b
  {
    assert a + m - m == a && b + m - m == b;
  }

  /** Nothing is left over exactly when the two sides carried the same specs. */
  lemma PairedDecides(p: Pairs, approved: Tree, current: Tree, added: seq<SpecPath>, removed: seq<SpecPath>)
    requires p.Fits(approved, current) && p.Balances(approved, current, added, removed)
    ensures |p.leftAdded| + |p.leftRemoved| == 0 <==> Bag(current, added) == Bag(approved, removed)
  {
    ParallelBags(approved, p.movedFrom, current, p.movedTo);
    LeftoversDecide(p, approved, current);
    Cancel(Bag(current, p.leftAdded), Bag(approved, p.leftRemoved), Bag(current, p.movedTo));
  }

  // --- the comparison ------------------------------------------------------------------------------

  datatype Diff = Diff(pairs: Pairs, changed: set<SpecPath>)
  {
    /** `diffSize`: a storage move counts for nothing. */
    function Size(): nat { |pairs.leftAdded| + |changed| + |pairs.leftRemoved| }

    /** The paths a scoped lock asks about: changed, added or removed, not merely moved. */
    predicate Touches(p: SpecPath) { p in changed || p in pairs.leftAdded || p in pairs.leftRemoved }
  }

  function Changed(approved: Tree, current: Tree): set<SpecPath> {
    set p | p in current && p in approved && approved[p] != current[p]
  }

  function Added(approved: Tree, current: Tree): seq<SpecPath> {
    Sorted(current.Keys - approved.Keys)
  }

  /** The current tree is the approved one with some spec files stored elsewhere. */
  predicate SameButStorage(approved: Tree, current: Tree) {
    Changed(approved, current) == {} && Bag(current, Added(approved, current)) == Bag(approved, Added(current, approved))
  }

  function DiffOf(approved: Tree, current: Tree): Diff {
    Diff(PairUp(approved, current, Added(approved, current), Added(current, approved)), Changed(approved, current))
  }

  /** `diffAgainstApproval`, on a record that carries per-spec digests. */
  method DiffAgainstApproval(approved: Tree, current: Tree) returns (d: Diff)
    ensures d == DiffOf(approved, current)
    ensures d.Size() == 0 <==> SameButStorage(approved, current)
  {
    var added, removed := Added(approved, current), Added(current, approved);
    var p := PairMoves(approved, current, added, removed);
    d := Diff(p, Changed(approved, current));
    NoDiffIff(approved, current);
  }

  /** The comparison is empty exactly when the current tree is the approved one with files stored elsewhere. */
  lemma NoDiffIff(approved: Tree, current: Tree)
    ensures DiffOf(approved, current).Size() == 0 <==> SameButStorage(approved, current)
  {
    var added, removed := Added(approved, current), Added(current, approved);
    PairingIsSound(approved, current, added, removed);
    PairedDecides(PairUp(approved, current, added, removed), approved, current, added, removed);
  }

  /** Nothing to review means the design is the approved one, wherever its files now lie. */
  lemma NoDiffIsTheSameDesign(approved: Tree, current: Tree)
    requires SameButStorage(approved, current)
    ensures current.Values == approved.Values
  {
    OneWay(approved, current);
    assert Changed(current, approved) == {} by {
      forall p ensures p !in Changed(current, approved) { assert p !in Changed(approved, current); }
    }
    OneWay(current, approved);
  }

  lemma OneWay(approved: Tree, current: Tree)
    requires SameButStorage(approved, current)
    ensures current.Values <= approved.Values
  {
    forall s | s in current.Values ensures s in approved.Values {
      var p :| p in current && current[p] == s;
      if p in approved {
        assert p !in Changed(approved, current);
        assert approved[p] == s;
      } else {
        BagMembers(current, Added(approved, current), Some(s));
        assert Look(current, p) == Some(s);
        BagMembers(approved, Added(current, approved), Some(s));
        var q :| q in Added(current, approved) && Look(approved, q) == Some(s);
        assert approved[q] == s;
      }
    }
  }

  /** A path the comparison does not name, and that was not merely moved, holds what was approved. */
  lemma UntouchedIsAsApproved(approved: Tree, current: Tree, p: SpecPath)
    requires
      var d := DiffOf(approved, current);
      !d.Touches(p) && p !in d.pairs.movedFrom && p !in d.pairs.movedTo
    ensures Look(current, p) == Look(approved, p)
  {
    PairingIsSound(approved, current, Added(approved, current), Added(current, approved));
    assert p !in Added(approved, current) && p !in Added(current, approved);
  }
}
