/**
 What the archive workflows owe one another: prefixes keep roots apart, a build extracts to
 itself, an extraction under a build's envelope writes only that build's files, and building an
 extracted pack again changes nothing.
 */
module RoundTrips {
  import opened Basics
  import opened ArchivePaths
  import opened Codec
  import opened Container
  import opened Manifests
  import opened Orchestrator
  import opened ZipDirectory

  // --- prefixes keep roots apart ---------------------------------------------------------------------

  /** A packed root the prefixing is meant for: the top, or canonical with no ".wai" segment of its own. */
  predicate PlainRoot(root: string) {
    root == "." || (Canonical(root) && ".wai" !in Split(root))
  }

  function RootSegments(root: string): seq<string> {
    if root == "." then [] else Split(root)
  }

  lemma JoinedSegments(root: string, w: string, path: string)
    requires Split(w) == [w]
    ensures Split(w + "/" + path) == [w] + Split(path)
    ensures Split(root + "/" + (w + "/" + path)) == Split(root) + [w] + Split(path)
  {
    var slash := "/";
    SplitConcat(w, path);
    SplitConcat(root, w + slash + path);
    Regrouped(Split(root), [w], Split(path));
  }

  lemma Regrouped(a: seq<string>, b: seq<string>, c: seq<string>)
    ensures a + (b + c) == a + b + c
  {
  }

  lemma PrefixText(root: string, w: string, path: string)
    requires w == ".wai"
    ensures RootPrefix(root) + path == if root == "." then w + "/" + path else root + "/" + (w + "/" + path)
  {
  }

  lemma WaiIsOneSegment(w: string)
    requires w == ".wai"
    ensures Split(w) == [w]
  {
    SplitOne(w);
  }

  lemma PrefixedSegments(root: string, path: string)
    ensures Split(RootPrefix(root) + path) == RootSegments(root) + [".wai"] + Split(path)
  {
    var w := ".wai";
    WaiIsOneSegment(w);
    PrefixText(root, w, path);
    JoinedSegments(root, w, path);
    assert [] + [w] == [w];
  }

  lemma {:induction false} FirstWaiCuts(a: seq<string>, s: seq<string>, b: seq<string>, t: seq<string>)
    requires a + [".wai"] + s == b + [".wai"] + t
    requires ".wai" !in a && ".wai" !in b
    ensures a == b && s == t
    decreases |a|
  {
    var u, v := a + [".wai"] + s, b + [".wai"] + t;
    if a == [] {
      assert v[0] == ".wai";
      assert b == [];
      assert s == u[1..] && t == v[1..];
    } else {
      assert u[0] == a[0];
      assert b != [];
      assert a[1..] + [".wai"] + s == u[1..] && b[1..] + [".wai"] + t == v[1..];
      assert v[0] == b[0] == a[0];
      FirstWaiCuts(a[1..], s, b[1..], t);
      assert a == [a[0]] + a[1..] && b == [b[0]] + b[1..];
    }
  }

  /** Two plain roots never give two files one archive path: the root and the path read back from it. */
  lemma PrefixingIsInjective(r: string, p: string, s: string, q: string)
    requires PlainRoot(r) && PlainRoot(s)
    requires RootPrefix(r) + p == RootPrefix(s) + q
    ensures r == s && p == q
  {
    PrefixedSegments(r, p);
    PrefixedSegments(s, q);
    FirstWaiCuts(RootSegments(r), Split(p), RootSegments(s), Split(q));
    JoinSplit(p);
    JoinSplit(q);
    JoinSplit(r);
    JoinSplit(s);
  }

  /** Without that condition two roots can claim one path. */
  lemma NestedWaiRootsCollide()
    ensures RootPrefix(".") + "x/.wai/y" == RootPrefix(".wai/x") + "y"
    ensures "." != ".wai/x"
  {
    assert RootPrefix(".") + "x/.wai/y" == ".wai/x/.wai/y";
  }

  // --- the tree round trip -----------------------------------------------------------------------------

  /** What a walk of a folder reads: each file once, under a name made of real segments. */
  ghost predicate FolderListing(files: seq<PackFile>) {
    DistinctPaths(files) && forall f | f in files :: Canonical(f.path)
  }

  ghost predicate SoundRoots(roots: seq<TreeRoot>) {
    && (forall r | r in roots :: FolderListing(r.files) && PlainRoot(NormalizeRoot(r.relativePath)))
    && (forall i, j | 0 <= i < j < |roots| :: NormalizeRoot(roots[i].relativePath) != NormalizeRoot(roots[j].relativePath))
  }

  // --- filtering -----------------------------------------------------------------------------------

  lemma {:induction false} FilterMembers(files: seq<PackFile>, keep: PackFile -> bool, f: PackFile)
    ensures f in Filter(files, keep) <==> f in files && keep(f)
  {
    if files != [] {
      var front, last := files[..|files| - 1], files[|files| - 1];
      FilterMembers(front, keep, f);
      assert files == front + [last];
    }
  }

  lemma {:induction false} FilterDistinct(files: seq<PackFile>, keep: PackFile -> bool)
    requires DistinctPaths(files)
    ensures DistinctPaths(Filter(files, keep))
  {
    if files != [] {
      var front, last := files[..|files| - 1], files[|files| - 1];
      FilterDistinct(front, keep);
      forall i | 0 <= i < |Filter(front, keep)| ensures Filter(front, keep)[i].path != last.path {
        var g := Filter(front, keep)[i];
        FilterMembers(front, keep, g);
        var k :| 0 <= k < |front| && front[k] == g;
        assert files[k] == g;
      }
    }
  }

  lemma {:induction false} FilterAll(files: seq<PackFile>, keep: PackFile -> bool)
    requires forall f | f in files :: keep(f)
    ensures Filter(files, keep) == files
  {
    if files != [] {
      var front, last := files[..|files| - 1], files[|files| - 1];
      assert files == front + [last];
      FilterAll(front, keep);
    }
  }

  lemma FilterListing(files: seq<PackFile>, keep: PackFile -> bool)
    requires FolderListing(files)
    ensures FolderListing(Filter(files, keep))
  {
    FilterDistinct(files, keep);
    forall f | f in Filter(files, keep) ensures Canonical(f.path) {
      FilterMembers(files, keep, f);
    }
  }

  lemma WithoutMembers(files: seq<PackFile>, path: string, f: PackFile)
    ensures f in Without(files, path) <==> f in files && f.path != path
  {
    FilterMembers(files, (f: PackFile) => f.path != path, f);
  }

  lemma WithoutAbsent(files: seq<PackFile>, path: string)
    requires forall f | f in files :: f.path != path
    ensures Without(files, path) == files
  {
    FilterAll(files, (f: PackFile) => f.path != path);
  }

  // --- the packed files -------------------------------------------------------------------------------

  /** `f` is a selected file of this root, under the root's prefix. */
  ghost predicate Selected(root: TreeRoot, includeDerived: bool, f: PackFile) {
    exists g | g in SelectTreeFiles(root.files, includeDerived) ::
      f == PackFile(RootPrefix(NormalizeRoot(root.relativePath)) + g.path, g.contents)
  }

  lemma RootFilesAreSelected(root: TreeRoot, includeDerived: bool, f: PackFile)
    ensures f in RootFiles(root, includeDerived) <==> Selected(root, includeDerived, f)
  {
    PrefixedMembers(RootPrefix(NormalizeRoot(root.relativePath)), SelectTreeFiles(root.files, includeDerived), f);
  }

  lemma PrefixedMembers(prefix: string, files: seq<PackFile>, f: PackFile)
    ensures f in Prefixed(prefix, files) <==> exists g | g in files :: f == PackFile(prefix + g.path, g.contents)
  {
    var out := Prefixed(prefix, files);
    if f in out {
      var k :| 0 <= k < |out| && out[k] == f;
      assert files[k] in files;
    }
    forall g | g in files && f == PackFile(prefix + g.path, g.contents) ensures f in out {
      var k :| 0 <= k < |files| && files[k] == g;
      assert out[k] == f;
    }
  }

  lemma PackedStep(roots: seq<TreeRoot>, front: seq<TreeRoot>, last: TreeRoot, includeDerived: bool, f: PackFile)
    requires roots == front + [last]
    ensures f in PackedFiles(roots, includeDerived) <==> f in PackedFiles(front, includeDerived) || f in RootFiles(last, includeDerived)
  {
    assert roots[..|roots| - 1] == front;
  }

  lemma {:induction false} PackedFrom(roots: seq<TreeRoot>, includeDerived: bool, f: PackFile) returns (i: nat)
    requires f in PackedFiles(roots, includeDerived)
    ensures i < |roots| && Selected(roots[i], includeDerived, f)
  {
    var front, last := roots[..|roots| - 1], roots[|roots| - 1];
    PackedStep(roots, front, last, includeDerived, f);
    RootFilesAreSelected(last, includeDerived, f);
    if f in PackedFiles(front, includeDerived) {
      i := PackedFrom(front, includeDerived, f);
    } else {
      i := |roots| - 1;
    }
  }

  lemma {:induction false} SelectedIsPacked(roots: seq<TreeRoot>, includeDerived: bool, f: PackFile, i: nat)
    requires i < |roots| && Selected(roots[i], includeDerived, f)
    ensures f in PackedFiles(roots, includeDerived)
  {
    var front, last := roots[..|roots| - 1], roots[|roots| - 1];
    PackedStep(roots, front, last, includeDerived, f);
    RootFilesAreSelected(last, includeDerived, f);
    if i < |front| { SelectedIsPacked(front, includeDerived, f, i); }
  }

  /** Exactly the selected files of every root are packed, each under its root's prefix. */
  lemma PackedAreSelected(roots: seq<TreeRoot>, includeDerived: bool, f: PackFile)
    ensures f in PackedFiles(roots, includeDerived) <==> exists r | r in roots :: Selected(r, includeDerived, f)
  {
    if f in PackedFiles(roots, includeDerived) {
      var i := PackedFrom(roots, includeDerived, f);
      assert roots[i] in roots;
    }
    forall r | r in roots && Selected(r, includeDerived, f) ensures f in PackedFiles(roots, includeDerived) {
      var i :| 0 <= i < |roots| && roots[i] == r;
      SelectedIsPacked(roots, includeDerived, f, i);
    }
  }

  /** Said of the folders themselves: every file of every root goes in, but a regenerable one only on request. */
  lemma PackedExactly(roots: seq<TreeRoot>, includeDerived: bool, f: PackFile)
    ensures f in PackedFiles(roots, includeDerived)
       <==> exists r, g | r in roots && g in r.files && (includeDerived || !Derived(g.path)) ::
              f == PackFile(RootPrefix(NormalizeRoot(r.relativePath)) + g.path, g.contents)
  {
    PackedAreSelected(roots, includeDerived, f);
    forall r: TreeRoot, g ensures g in SelectTreeFiles(r.files, includeDerived) <==> g in r.files && (includeDerived || !Derived(g.path)) {
      FilterMembers(r.files, (f: PackFile) => !Derived(f.path), g);
    }
  }

  lemma {:induction false} StrippedEnds(p: string)
    ensures !EndsWithSlash(StripTrailingSlashes(p))
    ensures !EndsWithSlash(p) ==> StripTrailingSlashes(p) == p
  {
    if EndsWithSlash(p) { StrippedEnds(p[..|p| - 1]); }
  }

  /** A root's canonical form is its own exactly when it does not start with "./" again: only one is taken off. */
  lemma NormalizedRootTwice(p: string)
    ensures NormalizeRoot(p) != "" && !EndsWithSlash(NormalizeRoot(p))
    ensures NormalizeRoot(NormalizeRoot(p)) == NormalizeRoot(p) <==> !("./" <= NormalizeRoot(p))
  {
    var r := NormalizeRoot(p);
    StrippedEnds(if "./" <= p then p[2..] else p);
    StrippedEnds(if "./" <= r then r[2..] else r);
    if "./" <= r {
      StripIsShorter(r[2..]);
      assert r[0] == '.' && |r| >= 2;
      assert |r| > 2;
    }
  }

  lemma {:induction false} StripIsShorter(p: string)
    ensures |StripTrailingSlashes(p)| <= |p|
  {
    if EndsWithSlash(p) { StripIsShorter(p[..|p| - 1]); }
  }

  lemma SelectedListing(root: TreeRoot, includeDerived: bool)
    requires FolderListing(root.files)
    ensures FolderListing(SelectTreeFiles(root.files, includeDerived))
  {
    FilterListing(root.files, (f: PackFile) => !Derived(f.path));
  }

  lemma PrefixKeepsListing(root: string, files: seq<PackFile>)
    requires FolderListing(files) && PlainRoot(root)
    ensures FolderListing(Prefixed(RootPrefix(root), files))
  {
    var out := Prefixed(RootPrefix(root), files);
    forall k | 0 <= k < |out| ensures Canonical(out[k].path) {
      assert files[k] in files;
      PrefixedIsCanonical(root, files[k].path);
    }
    forall i, j | 0 <= i < j < |out| ensures out[i].path != out[j].path {
      if out[i].path == out[j].path { PrefixingIsInjective(root, files[i].path, root, files[j].path); }
    }
  }

  lemma PrefixedIsCanonical(root: string, path: string)
    requires PlainRoot(root) && Canonical(path)
    ensures Canonical(RootPrefix(root) + path)
  {
    PrefixedSegments(root, path);
    assert Kept(".wai");
  }

  /** Files of different roots never share an archive path. */
  lemma RootsStayApart(r: TreeRoot, s: TreeRoot, includeDerived: bool, f: PackFile, g: PackFile)
    requires PlainRoot(NormalizeRoot(r.relativePath)) && PlainRoot(NormalizeRoot(s.relativePath))
    requires NormalizeRoot(r.relativePath) != NormalizeRoot(s.relativePath)
    requires Selected(r, includeDerived, f) && Selected(s, includeDerived, g)
    ensures f.path != g.path
  {
    var a :| a in SelectTreeFiles(r.files, includeDerived) && f == PackFile(RootPrefix(NormalizeRoot(r.relativePath)) + a.path, a.contents);
    var b :| b in SelectTreeFiles(s.files, includeDerived) && g == PackFile(RootPrefix(NormalizeRoot(s.relativePath)) + b.path, b.contents);
    if f.path == g.path {
      PrefixingIsInjective(NormalizeRoot(r.relativePath), a.path, NormalizeRoot(s.relativePath), b.path);
    }
  }

  lemma {:induction false} PackedListing(roots: seq<TreeRoot>, includeDerived: bool)
    requires SoundRoots(roots)
    ensures FolderListing(PackedFiles(roots, includeDerived))
  {
    if roots != [] {
      var n := |roots| - 1;
      var front, last := roots[..n], roots[n];
      assert roots == front + [last];
      PackedListing(front, includeDerived);
      SelectedListing(last, includeDerived);
      PrefixKeepsListing(NormalizeRoot(last.relativePath), SelectTreeFiles(last.files, includeDerived));
      var before, added := PackedFiles(front, includeDerived), RootFiles(last, includeDerived);
      forall i, j | 0 <= i < |before| && 0 <= j < |added| ensures before[i].path != added[j].path {
        AcrossTheLast(roots, includeDerived, before[i], added[j]);
      }
      ConcatListing(before, added);
    }
  }

  lemma ConcatListing(a: seq<PackFile>, b: seq<PackFile>)
    requires FolderListing(a) && FolderListing(b)
    requires forall i, j | 0 <= i < |a| && 0 <= j < |b| :: a[i].path != b[j].path
    ensures FolderListing(a + b)
  {
  }

  lemma AcrossTheLast(roots: seq<TreeRoot>, includeDerived: bool, f: PackFile, g: PackFile)
    requires SoundRoots(roots) && roots != []
    requires f in PackedFiles(roots[..|roots| - 1], includeDerived) && g in RootFiles(roots[|roots| - 1], includeDerived)
    ensures f.path != g.path
  {
    var n := |roots| - 1;
    var k := PackedFrom(roots[..n], includeDerived, f);
    RootFilesAreSelected(roots[n], includeDerived, g);
    assert roots[k] in roots && roots[n] in roots;
    RootsStayApart(roots[k], roots[n], includeDerived, f, g);
  }

  lemma PackedUnderWai(roots: seq<TreeRoot>, includeDerived: bool, f: PackFile)
    requires f in PackedFiles(roots, includeDerived)
    ensures UnderWaiRoot(f.path) && '/' in f.path
  {
    var i := PackedFrom(roots, includeDerived, f);
    var root := NormalizeRoot(roots[i].relativePath);
    var g :| g in SelectTreeFiles(roots[i].files, includeDerived) && f == PackFile(RootPrefix(root) + g.path, g.contents);
    PrefixedUnderWai(root, g.path);
  }

  lemma PrefixedUnderWai(root: string, path: string)
    ensures UnderWaiRoot(RootPrefix(root) + path) && '/' in RootPrefix(root) + path
  {
    PrefixedSegments(root, path);
    var segs := Split(RootPrefix(root) + path);
    WaiIsFound(RootSegments(root), ".wai", Split(path));
    assert RootPrefix(root)[|RootPrefix(root)| - 1] == '/';
  }

  lemma WaiIsFound(before: seq<string>, w: string, after: seq<string>)
    requires after != []
    ensures 0 <= IndexIn(before + [w] + after, w) <= |before|
  {
    var segs := before + [w] + after;
    assert segs[|before|] == w;
  }

  lemma PackedHoldsNoEnvelope(roots: seq<TreeRoot>, includeDerived: bool, tree: Profile)
    requires tree.Named()
    ensures forall f | f in PackedFiles(roots, includeDerived) :: UnderWaiRoot(f.path) && f.path != tree.envelope
  {
    forall f | f in PackedFiles(roots, includeDerived) ensures UnderWaiRoot(f.path) && f.path != tree.envelope {
      PackedUnderWai(roots, includeDerived, f);
    }
  }

  // --- envelopes ----------------------------------------------------------------------------------------

  lemma NamedIsCanonical(p: Profile)
    requires p.Named()
    ensures Canonical(p.envelope)
  {
    SplitOne(p.envelope);
  }

  lemma {:induction false} FindsLast(files: seq<PackFile>, f: PackFile)
    requires forall g | g in files :: g.path != f.path
    ensures FindFile(files + [f], f.path) == Some(f)
  {
    if files != [] {
      assert files[0] in files;
      FindsLast(files[1..], f);
      assert (files + [f])[1..] == files[1..] + [f];
    }
  }

  lemma {:induction false} FindFileIsThere(files: seq<PackFile>, path: string)
    ensures FindFile(files, path).Some? ==> FindFile(files, path).value in files && FindFile(files, path).value.path == path
    ensures FindFile(files, path).None? ==> forall f | f in files :: f.path != path
  {
    if files != [] {
      FindFileIsThere(files[1..], path);
      assert files == [files[0]] + files[1..];
    }
  }

  /** Putting an envelope beside a listing gives a listing, in which the envelope is the one found. */
  lemma EnvelopedListing(files: seq<PackFile>, envelope: string, contents: Bytes)
    requires FolderListing(files) && Canonical(envelope)
    ensures FolderListing(Enveloped(files, envelope, contents))
    ensures FindFile(Enveloped(files, envelope, contents), envelope) == Some(PackFile(envelope, contents))
  {
    var others := Without(files, envelope);
    FilterListing(files, (f: PackFile) => f.path != envelope);
    forall f | f in others ensures f.path != envelope {
      WithoutMembers(files, envelope, f);
    }
    FindsLast(others, PackFile(envelope, contents));
    ConcatListing(others, [PackFile(envelope, contents)]);
  }

  lemma OwnSealMatches(files: seq<PackFile>, envelope: string, all: seq<PackFile>)
    requires DistinctPaths(files)
    requires forall f | f in all :: f in files || f.path == envelope
    ensures MatchesDigests(all, EntryDigests(files, envelope), envelope)
  {
    DistinctIsConsistent(files, envelope);
    VerifiesExactlyTheSealed(files, all, envelope);
  }

  lemma DistinctIsConsistent(files: seq<PackFile>, envelope: string)
    requires DistinctPaths(files)
    ensures Consistent(files, envelope)
  {
    forall f, g | f in files && g in files && f.path == g.path ensures f == g {
      var i, j :| 0 <= i < |files| && 0 <= j < |files| && files[i] == f && files[j] == g;
    }
  }

  // --- the tree round trip ------------------------------------------------------------------------------

  /** Whether extracting a build is refused although its plan was accepted. */
  predicate Unextractable(req: TreeRequest, refuseExecutable: bool) {
    || req.projectName == ""
    || (refuseExecutable && exists f | f in req.Files() :: Executable(f.path))
  }

  /** The files a build packs, its envelope last. */
  function Whole(req: TreeRequest, stamp: Stamp, text: Text, tree: Profile): seq<PackFile> {
    req.Files() + [PackFile(tree.envelope, SerializeTree(SealedTree(req, stamp, tree), text))]
  }

  lemma BuildIsWhole(req: TreeRequest, stamp: Stamp, text: Text, compress: Bytes -> nat, tree: Profile)
    requires SoundRoots(req.roots) && tree.Named() && req.Files() != []
    ensures
      var whole := Whole(req, stamp, text, tree);
      && FolderListing(whole)
      && TreeBuilt(req, stamp, text, compress, tree)
         == Some(TreeBuild(Archive(Assembled(whole, compress), {}), SealedTree(req, stamp, tree), whole))
  {
    PackedListing(req.roots, req.includeDerived);
    PackedHoldsNoEnvelope(req.roots, req.includeDerived, tree);
    WithoutAbsent(req.Files(), tree.envelope);
    NamedIsCanonical(tree);
    EnvelopedListing(req.Files(), tree.envelope, SerializeTree(SealedTree(req, stamp, tree), text));
  }

  /** The portability guard over a build's plan: only a packed script fails it. */
  lemma PortableBuild(files: seq<PackFile>, whole: seq<PackFile>, paths: seq<string>, envelope: string)
    requires !Executable(envelope) && forall f | f in files :: UnderWaiRoot(f.path)
    requires |whole| == |files| + 1 && whole[|files|].path == envelope && whole[..|files|] == files
    requires |paths| == |whole| && forall i | 0 <= i < |whole| :: paths[i] == whole[i].path
    ensures PortablePaths(paths, envelope) <==> !exists f | f in files :: Executable(f.path)
  {
    forall i | 0 <= i < |files| ensures paths[i] == files[i].path && files[i] in files {
      assert whole[..|files|][i] == files[i];
    }
    assert PortablePath(paths[|files|], envelope);
    if f :| f in files && Executable(f.path) {
      var i :| 0 <= i < |files| && files[i] == f;
      assert paths[i] in paths && !PortablePath(paths[i], envelope);
    } else {
      forall i | 0 <= i < |paths| ensures PortablePath(paths[i], envelope) {
      }
    }
  }

  lemma TreeOpens(req: TreeRequest, stamp: Stamp, text: Text, tree: Profile)
    requires text.Lossless() && SoundRoots(req.roots) && tree.Named() && req.Files() != []
    ensures
      var whole := Whole(req, stamp, text, tree);
      TreeOpened(whole, text, tree)
      == if req.projectName == "" then None else Some(TreeExtraction(SealedTree(req, stamp, tree), whole))
  {
    var m := SealedTree(req, stamp, tree);
    var whole := Whole(req, stamp, text, tree);
    PackedListing(req.roots, req.includeDerived);
    PackedHoldsNoEnvelope(req.roots, req.includeDerived, tree);
    FindsLast(req.Files(), whole[|whole| - 1]);
    TreeManifestRoundTrip(m, text);
    assert req.roots != [] && m.roots != [];
    assert Trunc(1.0) == 1;
    OwnSealMatches(req.Files(), tree.envelope, whole);
  }

  /**
   The tree round trip. Whenever an archive was built from sound roots and its plan is accepted
   under the caller's limits, extracting it returns the very manifest that was sealed and writes
   exactly the selected files, byte for byte, and the envelope; except that a build with an empty
   project name cannot be read back at all, and the portability guard refuses exactly a packed
   script.
   */
  lemma TreeRoundTrip(req: TreeRequest, stamp: Stamp, text: Text, compress: Bytes -> nat, tree: Profile, limits: Option<Limits>, refuseExecutable: bool)
    requires text.Lossless() && SoundRoots(req.roots) && tree.Named()
    requires TreeBuilt(req, stamp, text, compress, tree).Some?
    requires Planned(Listed(TreeBuilt(req, stamp, text, compress, tree).value.archive), ResolveCaps(Or(limits, NO_LIMITS), tree.defaults)).Some?
    ensures
      var b := TreeBuilt(req, stamp, text, compress, tree).value;
      && b.files == req.Files() + [PackFile(tree.envelope, SerializeTree(b.manifest, text))]
      && TreeExtracted(b.archive, limits, refuseExecutable, text, tree)
         == if Unextractable(req, refuseExecutable) then None else Some(TreeExtraction(b.manifest, b.files))
  {
    BuildIsWhole(req, stamp, text, compress, tree);
    var whole := Whole(req, stamp, text, tree);
    var a := Archive(Assembled(whole, compress), {});
    var caps := ResolveCaps(Or(limits, NO_LIMITS), tree.defaults);
    AssembledExtracts(whole, compress, caps);
    PackedHoldsNoEnvelope(req.roots, req.includeDerived, tree);
    PortableBuild(req.Files(), whole, Planned(Listed(a), caps).value.paths, tree.envelope);
    TreeOpens(req, stamp, text, tree);
  }

  // --- tampering ------------------------------------------------------------------------------------------

  /**
   Tampering. Take any archive whatever whose envelope is a build's own: an extraction of it that
   succeeds writes only files of that build, byte for byte. What it cannot tell is that one is gone.
   */
  lemma OnlySealedFilesAreWritten(req: TreeRequest, stamp: Stamp, text: Text, tree: Profile, a: Archive, limits: Option<Limits>, refuseExecutable: bool)
    requires text.Lossless() && SoundRoots(req.roots)
    requires TreeExtracted(a, limits, refuseExecutable, text, tree).Some?
    requires Inflate(a.entries, tree.envelope) == Some(SerializeTree(SealedTree(req, stamp, tree), text))
    ensures
      var x := TreeExtracted(a, limits, refuseExecutable, text, tree).value;
      x.manifest == SealedTree(req, stamp, tree) && forall f | f in x.files && f.path != tree.envelope :: f in req.Files()
  {
    var x := TreeExtracted(a, limits, refuseExecutable, text, tree).value;
    var m := SealedTree(req, stamp, tree);
    EnvelopeIsInflated(a, limits, refuseExecutable, text, tree);
    TreeManifestRoundTrip(m, text);
    PackedListing(req.roots, req.includeDerived);
    DistinctIsConsistent(req.Files(), tree.envelope);
    VerifiesExactlyTheSealed(req.Files(), x.files, tree.envelope);
  }

  lemma EnvelopeIsInflated(a: Archive, limits: Option<Limits>, refuseExecutable: bool, text: Text, tree: Profile)
    requires TreeExtracted(a, limits, refuseExecutable, text, tree).Some?
    requires Inflate(a.entries, tree.envelope).Some?
    ensures
      var x := TreeExtracted(a, limits, refuseExecutable, text, tree).value;
      && ParseTree(Inflate(a.entries, tree.envelope).value, text) == Some(x.manifest)
      && IntegrityHolds(x.manifest.entryDigests, x.files, tree.envelope)
  {
    var x := TreeExtracted(a, limits, refuseExecutable, text, tree).value;
    var plan := Planned(Listed(a), ResolveCaps(Or(limits, NO_LIMITS), tree.defaults)).value;
    InflatedPaths(a.entries, plan.paths);
    FindFileIsThere(x.files, tree.envelope);
    var found := FindFile(x.files, tree.envelope).value;
    var k :| 0 <= k < |x.files| && x.files[k] == found;
  }

  // --- confinement ----------------------------------------------------------------------------------------

  lemma {:induction false} WrittenPlaces(disk: map<Place, Bytes>, dest: Place, files: seq<PackFile>)
    ensures disk.Keys <= Written(disk, dest, files).Keys
    ensures forall p | p in Written(disk, dest, files) ::
              || (p in disk && Written(disk, dest, files)[p] == disk[p])
              || exists f | f in files :: PlaceOf(dest, f.path) == p && f.contents == Written(disk, dest, files)[p]
  {
    if files != [] {
      var front, last := files[..|files| - 1], files[|files| - 1];
      assert files == front + [last] && last in files;
      WrittenPlaces(disk, dest, front);
    }
  }

  /** Every place of `after` either holds what it held, or lies at or below `dest` and holds a vetted regular entry's bytes. */
  ghost predicate Confined(before: map<Place, Bytes>, after: map<Place, Bytes>, dest: Place, a: Archive, caps: Caps) {
    && before.Keys <= after.Keys
    && forall p | p in after ::
         || (p in before && after[p] == before[p])
         || (dest <= p && exists e | e in a.entries ::
               e.bytes == after[p] && PlaceOf(dest, e.name) == p && EntryFits(MetaOf(e, a.links), caps) && KindOf(e.name, a.links) == File)
  }

  lemma WritesAreConfined(before: map<Place, Bytes>, dest: Place, a: Archive, caps: Caps, files: seq<PackFile>)
    requires Planned(Listed(a), caps).Some? && InflateAll(a.entries, Planned(Listed(a), caps).value.paths) == Some(files)
    ensures Confined(before, Written(before, dest, files), dest, a, caps)
  {
    var after := Written(before, dest, files);
    WrittenPlaces(before, dest, files);
    WritesAreVettedEntries(a, caps, files, dest);
    forall p | p in after && !(p in before && after[p] == before[p])
      ensures dest <= p && exists e | e in a.entries ::
                e.bytes == after[p] && PlaceOf(dest, e.name) == p && EntryFits(MetaOf(e, a.links), caps) && KindOf(e.name, a.links) == File
    {
      var f :| f in files && PlaceOf(dest, f.path) == p && f.contents == after[p];
      var i :| 0 <= i < |a.entries| && a.entries[i].name == f.path && a.entries[i].bytes == f.contents
        && Listed(a)[i].kind == File && EntryFits(Listed(a)[i], caps);
      assert a.entries[i] in a.entries && Listed(a)[i] == MetaOf(a.entries[i], a.links);
    }
  }

  /** Confinement of both extractions: wherever they write, over any disk and from any archive. */
  lemma ExtractionsAreConfined(before: map<Place, Bytes>, dest: Place, a: Archive, limits: Option<Limits>, refuseExecutable: bool, text: Text, profile: Profile)
    ensures
      var caps := ResolveCaps(Or(limits, NO_LIMITS), profile.defaults);
      && (TreeExtracted(a, limits, refuseExecutable, text, profile).Some? ==>
            Confined(before, Written(before, dest, TreeExtracted(a, limits, refuseExecutable, text, profile).value.files), dest, a, caps))
      && (PackExtracted(a, limits, text, profile).Some? ==>
            Confined(before, Written(before, dest, PackExtracted(a, limits, text, profile).value.files), dest, a, caps))
  {
    var caps := ResolveCaps(Or(limits, NO_LIMITS), profile.defaults);
    if TreeExtracted(a, limits, refuseExecutable, text, profile).Some? {
      WritesAreConfined(before, dest, a, caps, TreeExtracted(a, limits, refuseExecutable, text, profile).value.files);
    }
    if PackExtracted(a, limits, text, profile).Some? {
      WritesAreConfined(before, dest, a, caps, PackExtracted(a, limits, text, profile).value.files);
    }
  }

  /** Any archive laid out with a unix symbolic link the scan can see is refused by both extractions. */
  lemma LinkedArchiveIsRefused(bytes: Bytes, prefix: Bytes, records: seq<CentralRecord>, end: EndRecord, at: int, decode: Bytes -> string,
                               a: Archive, record: CentralRecord, entry: Stored, limits: Option<Limits>, refuseExecutable: bool,
                               text: Text, profile: Profile)
    requires Layout(bytes, prefix, records, end) && NoLaterSignature(bytes, EndOffset(prefix, records))
    requires IsEocd(bytes, at) && a.links == LinksAt(bytes, at, decode)
    requires record in records && record.IsLink()
    requires entry in a.entries && entry.name == decode(record.name)
    ensures TreeExtracted(a, limits, refuseExecutable, text, profile) == None
    ensures PackExtracted(a, limits, text, profile) == None
  {
    LinksOfLayout(bytes, prefix, records, end, at, decode);
    var i :| 0 <= i < |a.entries| && a.entries[i] == entry;
    assert entry.name in LinkNames(records, decode);
    assert Listed(a)[i] == MetaOf(entry, a.links);
    SymlinkRefusesTheArchive(Listed(a), ResolveCaps(Or(limits, NO_LIMITS), profile.defaults), Listed(a)[i]);
  }

  // --- packs ------------------------------------------------------------------------------------------------

  lemma {:induction false} SealOfOthers(files: seq<PackFile>, envelope: string)
    ensures EntryDigests(Without(files, envelope), envelope) == EntryDigests(files, envelope)
  {
    if files != [] {
      var front, last := files[..|files| - 1], files[|files| - 1];
      SealOfOthers(front, envelope);
      var others := Without(front, envelope);
      var all := Without(files, envelope);
      if last.path == envelope {
        assert all == others;
      } else {
        assert all == others + [last];
        assert all[..|all| - 1] == others;
      }
    }
  }

  lemma SealIgnoresTheEnvelope(files: seq<PackFile>, envelope: string, contents: Bytes)
    ensures EntryDigests(Enveloped(files, envelope, contents), envelope) == EntryDigests(files, envelope)
  {
    var others := Without(files, envelope);
    SealOfOthers(files, envelope);
    assert Enveloped(files, envelope, contents)[..|others|] == others;
  }

  /** What a build that succeeded was built from. */
  lemma PackBuildFacts(files: seq<PackFile>, stamp: Stamp, text: Text, json: Bytes -> Option<Yaml>, compress: Bytes -> nat, pack: Profile)
    requires text.Lossless() && FolderListing(files) && pack.Named()
    requires PackBuilt(files, stamp, text, json, compress, pack).Some?
    ensures
      var b := PackBuilt(files, stamp, text, json, compress, pack).value;
      && ReadablePack(b.manifest) && b.manifest == SealedPack(b.manifest, files, stamp, pack)
      && InnerIdentity(files, b.manifest, text, json) == Some((b.manifest.name, b.manifest.version))
      && b.files == Enveloped(files, pack.envelope, SerializePack(b.manifest, text))
      && b.archive == Archive(Assembled(b.files, compress), {})
      && FolderListing(b.files)
      && FindFile(b.files, pack.envelope) == Some(PackFile(pack.envelope, SerializePack(b.manifest, text)))
      && ParsePack(SerializePack(b.manifest, text), text) == Some(b.manifest)
  {
    var b := PackBuilt(files, stamp, text, json, compress, pack).value;
    ParsedPackIsReadable(FindFile(files, pack.envelope).value.contents, text);
    NamedIsCanonical(pack);
    EnvelopedListing(files, pack.envelope, SerializePack(b.manifest, text));
    PackManifestRoundTrip(b.manifest, text);
  }

  /** Every build of a real folder extracts to its own sealed manifest and files: nothing a build accepts is unreadable. */
  lemma PackRoundTrip(files: seq<PackFile>, stamp: Stamp, text: Text, json: Bytes -> Option<Yaml>, compress: Bytes -> nat, pack: Profile, limits: Option<Limits>)
    requires text.Lossless() && FolderListing(files) && pack.Named()
    requires PackBuilt(files, stamp, text, json, compress, pack).Some?
    requires Planned(Listed(PackBuilt(files, stamp, text, json, compress, pack).value.archive), ResolveCaps(Or(limits, NO_LIMITS), pack.defaults)).Some?
    ensures
      var b := PackBuilt(files, stamp, text, json, compress, pack).value;
      PackExtracted(b.archive, limits, text, pack) == Some(PackExtraction(b.manifest, b.files))
  {
    var b := PackBuilt(files, stamp, text, json, compress, pack).value;
    PackBuildFacts(files, stamp, text, json, compress, pack);
    AssembledExtracts(b.files, compress, ResolveCaps(Or(limits, NO_LIMITS), pack.defaults));
    PackOpens(files, b.manifest, b.files, stamp, text, pack);
  }

  lemma PackOpens(files: seq<PackFile>, m: PackManifest, whole: seq<PackFile>, stamp: Stamp, text: Text, pack: Profile)
    requires FolderListing(files)
    requires m == SealedPack(m, files, stamp, pack) && whole == Enveloped(files, pack.envelope, SerializePack(m, text))
    requires FindFile(whole, pack.envelope) == Some(PackFile(pack.envelope, SerializePack(m, text)))
    requires ParsePack(SerializePack(m, text), text) == Some(m)
    ensures PackOpened(whole, text, pack) == Some(PackExtraction(m, whole))
  {
    forall f | f in whole ensures f in files || f.path == pack.envelope {
      WithoutMembers(files, pack.envelope, f);
    }
    OwnSealMatches(files, pack.envelope, whole);
  }

  lemma {:induction false} FindBeside(files: seq<PackFile>, other: PackFile, path: string)
    requires other.path != path
    ensures FindFile(files + [other], path) == FindFile(files, path)
  {
    if files == [] {
      assert FindFile([other][1..], path) == None;
    } else {
      FindBeside(files[1..], other, path);
      assert (files + [other])[1..] == files[1..] + [other];
    }
  }

  lemma {:induction false} FindAppended(files: seq<PackFile>, last: PackFile, path: string)
    ensures FindFile(files + [last], path)
         == if FindFile(files, path).Some? then FindFile(files, path) else if last.path == path then Some(last) else None
  {
    if files == [] {
      assert FindFile([last][1..], path) == None;
    } else {
      FindAppended(files[1..], last, path);
      assert (files + [last])[1..] == files[1..] + [last];
    }
  }

  lemma {:induction false} FindInOthers(files: seq<PackFile>, envelope: string, path: string)
    requires path != envelope
    ensures FindFile(Without(files, envelope), path) == FindFile(files, path)
  {
    if files != [] {
      var front, last := files[..|files| - 1], files[|files| - 1];
      assert files == front + [last];
      FindInOthers(front, envelope, path);
      FindAppended(front, last, path);
      if last.path == envelope {
        assert Without(files, envelope) == Without(front, envelope);
      } else {
        assert Without(files, envelope) == Without(front, envelope) + [last];
        FindAppended(Without(front, envelope), last, path);
      }
    }
  }

  lemma InnerSurvives(files: seq<PackFile>, m: PackManifest, contents: Bytes, text: Text, json: Bytes -> Option<Yaml>, pack: Profile)
    requires text.Lossless() && FolderListing(files) && pack.Named() && contents == SerializePack(m, text)
    requires InnerIdentity(files, m, text, json) == Some((m.name, m.version))
    ensures InnerIdentity(Enveloped(files, pack.envelope, contents), m, text, json) == Some((m.name, m.version))
  {
    NamedIsCanonical(pack);
    if InnerPath(m) == pack.envelope {
      EnvelopedListing(files, pack.envelope, contents);
      PackFieldsReadBack(m, PackFields(m));
      assert text.load(contents) == Some(Mapping(PackFields(m)));
    } else {
      FindInOthers(files, pack.envelope, InnerPath(m));
      FindBeside(Without(files, pack.envelope), PackFile(pack.envelope, contents), InnerPath(m));
    }
  }

  lemma EnvelopeOnce(files: seq<PackFile>, envelope: string, contents: Bytes)
    ensures Enveloped(Enveloped(files, envelope, contents), envelope, contents) == Enveloped(files, envelope, contents)
  {
    var others := Without(files, envelope);
    var e := PackFile(envelope, contents);
    assert (others + [e])[..|others|] == others;
    forall f | f in others ensures f.path != envelope {
      WithoutMembers(files, envelope, f);
    }
    WithoutAbsent(others, envelope);
    assert Without(others + [e], envelope) == Without(others, envelope);
  }

  /** Building an extracted build again, at the same stamp, gives the same archive: the seal is a fixpoint. */
  lemma RebuildReproduces(files: seq<PackFile>, stamp: Stamp, text: Text, json: Bytes -> Option<Yaml>, compress: Bytes -> nat, pack: Profile)
    requires text.Lossless() && FolderListing(files) && pack.Named()
    requires PackBuilt(files, stamp, text, json, compress, pack).Some?
    ensures
      var b := PackBuilt(files, stamp, text, json, compress, pack).value;
      PackBuilt(b.files, stamp, text, json, compress, pack) == Some(b)
  {
    var b := PackBuilt(files, stamp, text, json, compress, pack).value;
    var contents := SerializePack(b.manifest, text);
    PackBuildFacts(files, stamp, text, json, compress, pack);
    SealIgnoresTheEnvelope(files, pack.envelope, contents);
    InnerSurvives(files, b.manifest, contents, text, json, pack);
    EnvelopeOnce(files, pack.envelope, contents);
  }
}
