/**
 Archive entry names as both codecs read them: split at '/', empty and "." segments
 dropped, and the four structural refusals. `Land` is the independent reference: where
 joining a name onto a folder, one segment at a time, ends up.
 */
module ArchivePaths {

  /** One more character in front of a split name. */
  function Prepend(c: char, segs: seq<string>): seq<string>
    requires segs != []
  {
    if c == '/' then [""] + segs else [[c] + segs[0]] + segs[1..]
  }

  /** JavaScript's `p.split('/')`: at least one segment, none holding a slash. */
  function Split(p: string): (segs: seq<string>)
    ensures |segs| >= 1
    ensures forall s | s in segs :: '/' !in s
  {
    if p == "" then [""] else Prepend(p[0], Split(p[1..]))
  }

  /** JavaScript's `segs.join('/')`. */
  function Join(segs: seq<string>): string {
    if segs == [] then ""
    else if |segs| == 1 then segs[0]
    else segs[0] + "/" + Join(segs[1..])
  }

  ghost predicate NoSlash(segs: seq<string>) {
    forall s | s in segs :: '/' !in s
  }

  lemma {:induction false} JoinSplit(p: string)
    ensures Join(Split(p)) == p
  {
    if p != "" {
      JoinSplit(p[1..]);
      var rest := Split(p[1..]);
      if p[0] == '/' {
        assert Split(p)[1..] == rest;
      } else {
        assert Split(p)[1..] == rest[1..];
      }
    }
  }

  lemma {:induction false} SplitOne(s: string)
    requires '/' !in s
    ensures Split(s) == [s]
  {
    if s != "" {
      assert s[0] in s;
      SplitOne(s[1..]);
      assert [s[0]] + s[1..] == s;
    }
  }

  lemma {:induction false} SplitConcat(a: string, b: string)
    ensures Split(a + "/" + b) == Split(a) + Split(b)
  {
    var p := a + "/" + b;
    if a == "" {
      assert p[0] == '/' && p[1..] == b;
    } else {
      SplitConcat(a[1..], b);
      assert p[0] == a[0] && p[1..] == a[1..] + "/" + b;
      PrependConcat(a[0], Split(a[1..]), Split(b));
    }
  }

  lemma PrependConcat(c: char, s: seq<string>, t: seq<string>)
    requires s != []
    ensures Prepend(c, s + t) == Prepend(c, s) + t
  {
    assert (s + t)[0] == s[0] && (s + t)[1..] == s[1..] + t;
  }

  lemma SplitJoinStep(first: string, rest: string, segs: seq<string>)
    requires '/' !in first && Split(rest) == segs
    ensures Split(first + "/" + rest) == [first] + segs
  {
    SplitOne(first);
    SplitConcat(first, rest);
  }

  lemma {:induction false} SplitJoin(segs: seq<string>)
    requires segs != [] && NoSlash(segs)
    ensures Split(Join(segs)) == segs
  {
    assert segs[0] in segs;
    if |segs| == 1 {
      SplitOne(segs[0]);
    } else {
      assert NoSlash(segs[1..]);
      SplitJoin(segs[1..]);
      SplitJoinStep(segs[0], Join(segs[1..]), segs[1..]);
      assert segs == [segs[0]] + segs[1..];
    }
  }

  /** A segment the normaliser keeps. */
  predicate Kept(seg: string) {
    seg != "" && seg != "."
  }

  function Keep(segs: seq<string>): seq<string> {
    if segs == [] then []
    else (if Kept(segs[0]) then [segs[0]] else []) + Keep(segs[1..])
  }

  /** `normalizeRelPath`: the kept segments, joined again. */
  function Normalize(p: string): string {
    Join(Keep(Split(p)))
  }

  lemma {:induction false} KeptOnly(segs: seq<string>)
    ensures forall s | s in Keep(segs) :: s in segs && Kept(s)
  {
    if segs != [] { KeptOnly(segs[1..]); }
  }

  lemma {:induction false} KeepAll(segs: seq<string>)
    requires forall s | s in segs :: Kept(s)
    ensures Keep(segs) == segs
  {
    if segs != [] {
      assert segs[0] in segs;
      KeepAll(segs[1..]);
    }
  }

  /** The segments of a normalised name are the kept ones; the empty name has one empty segment. */
  lemma {:induction false} SegmentsOfNormal(p: string)
    ensures Split(Normalize(p)) == if Keep(Split(p)) == [] then [""] else Keep(Split(p))
  {
    KeptOnly(Split(p));
    var kept := Keep(Split(p));
    if kept != [] {
      assert NoSlash(kept);
      SplitJoin(kept);
    }
  }

  lemma {:induction false} NormalizeIdempotent(p: string)
    ensures Normalize(Normalize(p)) == Normalize(p)
  {
    SegmentsOfNormal(p);
    KeptOnly(Split(p));
    KeepAll(Keep(Split(p)));
  }

  lemma LeadingSlash(p: string)
    ensures |p| > 0 && p[0] == '/' ==> "" in Split(p) && |Split(p)| >= 2
  {
    if |p| > 0 && p[0] == '/' { assert Split(p)[0] == ""; }
  }

  /** A canonical name: nothing for the normaliser to drop. */
  predicate Canonical(p: string) {
    forall s | s in Split(p) :: Kept(s)
  }

  lemma NormalIsFixpoint(p: string)
    ensures Normalize(p) == p <==> p == "" || Canonical(p)
  {
    JoinSplit(p);
    if Canonical(p) {
      KeepAll(Split(p));
    } else if p != "" && Normalize(p) == p {
      SegmentsOfNormal(p);
      KeptOnly(Split(p));
    }
  }

  /** `isStructurallyUnsafePath`: a backslash, a drive letter, an absolute name, or a ".." segment. */
  predicate StructurallyUnsafe(p: string) {
    || '\\' in p
    || DriveLetter(p)
    || (|p| > 0 && p[0] == '/')
    || ".." in Split(p)
  }

  predicate DriveLetter(p: string) {
    |p| >= 2 && p[1] == ':' && ('A' <= p[0] <= 'Z' || 'a' <= p[0] <= 'z')
  }

  /** `escapesDestination` on a normalised name. */
  predicate Escapes(p: string) {
    (|p| > 0 && p[0] == '/') || ".." in Split(p)
  }

  /** `pathDepth`: the non-empty segments. */
  function Depth(p: string): nat {
    NonEmpty(Split(p))
  }

  function NonEmpty(segs: seq<string>): nat {
    if segs == [] then 0 else (if segs[0] != "" then 1 else 0) + NonEmpty(segs[1..])
  }

  /** Where walking `segs` from the folder `at` ends: "" and "." stay, ".." leaves, any other name enters. */
  function Land(at: seq<string>, segs: seq<string>): seq<string>
    decreases |segs|
  {
    if segs == [] then at
    else
      var next :=
        if !Kept(segs[0]) then at
        else if segs[0] == ".." then (if at == [] then [] else at[..|at| - 1])
        else at + [segs[0]];
      Land(next, segs[1..])
  }

  /** With no ".." segment, a name lands at or below the folder it is joined to, at its kept segments. */
  lemma {:induction false} LandBelow(at: seq<string>, segs: seq<string>)
    requires ".." !in segs
    ensures Land(at, segs) == at + Keep(segs)
    decreases |segs|
  {
    if segs != [] {
      assert segs[0] in segs;
      LandBelow(if Kept(segs[0]) then at + [segs[0]] else at, segs[1..]);
    }
  }

  /** Normalising a name with no ".." segment moves nothing: it lands where the raw name lands. */
  lemma NormalLandsAlike(at: seq<string>, p: string)
    requires ".." !in Split(p)
    ensures Land(at, Split(Normalize(p))) == Land(at, Split(p))
    ensures at <= Land(at, Split(p))
  {
    LandBelow(at, Split(p));
    SegmentsOfNormal(p);
    KeptOnly(Split(p));
    LandBelow(at, Split(Normalize(p)));
    KeepAll(Keep(Split(p)));
  }

  // --- the names no codec takes ----------------------------------------------------------------

  /** `seg` stands in the name between slashes, or at an end of it. */
  predicate Between(p: string, front: string, seg: string, back: string) {
    p == front + seg + back && (front == "" || front[|front| - 1] == '/') && (back == "" || back[0] == '/')
  }

  /** The names neither codec will plan, from their characters and segments: a backslash, a drive letter, a leading slash, or a step upwards. */
  ghost predicate Forbidden(p: string) {
    || (exists i :: 0 <= i < |p| && p[i] == '\\')
    || (|p| >= 2 && p[1] == ':' && (('a' <= p[0] <= 'z') || ('A' <= p[0] <= 'Z')))
    || (p != "" && p[0] == '/')
    || (exists front, back :: Between(p, front, "..", back))
  }

  /** A ".." segment of a name is two dots between slashes, or at an end. */
  lemma {:induction false} StepsUpwards(p: string)
    ensures ".." in Split(p)
       <==> exists front, back :: Between(p, front, "..", back)
  {
    if exists front, back :: Between(p, front, "..", back) {
      var front, back :| Between(p, front, "..", back);
      DotsAreASegment(p, front, back);
    }
    if ".." in Split(p) {
      var front, back := SegmentIsBetweenSlashes(p, "..");
      assert Between(p, front, "..", back);
    }
  }

  lemma DotsAreASegment(p: string, front: string, back: string)
    requires Between(p, front, "..", back)
    ensures ".." in Split(p)
  {
    var rest := ".." + back;
    SplitOne("..");
    if back != "" {
      assert rest == ".." + "/" + back[1..];
      SplitConcat("..", back[1..]);
    } else {
      assert rest == "..";
    }
    assert Split(rest)[0] == "..";
    if front != "" {
      var f := front[..|front| - 1];
      assert p == f + "/" + rest;
      SplitConcat(f, rest);
    } else {
      assert p == rest;
    }
  }

  lemma {:induction false} SegmentIsBetweenSlashes(p: string, seg: string) returns (front: string, back: string)
    requires seg in Split(p)
    ensures Between(p, front, seg, back)
    decreases |p|
  {
    front, back := FirstSegment(p);
    if Split(p)[0] == seg {
      back := front;
      front := "";
      assert p == Split(p)[0] + back;
    } else {
      var rest := back;
      var first := Split(p)[0];
      assert front != "";
      assert Split(p) == [first] + Split(rest);
      var f, b := SegmentIsBetweenSlashes(rest, seg);
      front, back := first + "/" + f, b;
    }
  }

  /** A name is its first segment, and then nothing or a slash and the rest. */
  lemma {:induction false} FirstSegment(p: string) returns (after: string, rest: string)
    ensures p == Split(p)[0] + after && (after == "" || (after[0] == '/' && rest == after[1..]))
    ensures if after == "" then Split(p) == [p] else Split(p) == [Split(p)[0]] + Split(rest)
  {
    if p == "" {
      after, rest := "", "";
    } else if p[0] == '/' {
      after, rest := p, p[1..];
    } else {
      after, rest := FirstSegment(p[1..]);
      var segs := Split(p[1..]);
      assert p == [p[0]] + p[1..] && Split(p) == [[p[0]] + segs[0]] + segs[1..];
      if after != "" { assert segs[1..] == Split(rest); }
    }
  }

  /** The zip-slip test of the loop: a name that starts at the root, or holds a step upwards. */
  lemma EscapesIff(p: string)
    ensures Escapes(p) <==> (p != "" && p[0] == '/') || exists front, back :: Between(p, front, "..", back)
  {
    StepsUpwards(p);
  }

  lemma UnsafeIsForbidden(p: string)
    ensures StructurallyUnsafe(p) <==> Forbidden(p)
  {
    StepsUpwards(p);
  }
}
