/**
 The archive workflows: build and extract, for spec trees and for packs, and what they owe one
 another. A directory walk, the clock and the version stamp are parameters; a thrown refusal is None.
 */
module Orchestrator {
  import opened Basics
  import opened ArchivePaths
  import opened Codec
  import opened Container
  import opened Manifests
  import opened ZipDirectory

  /** What tells the two codecs apart: the envelope's file name, and the default caps. */
  datatype Profile = Profile(envelope: string, defaults: Caps)
  {
    /** All the workflows need of an envelope name: one real segment, and no script's, root's or inner manifest's. */
    predicate Named() {
      && '/' !in envelope && Kept(envelope)
      && envelope != ".wai" && envelope != "package.json" && !Executable(envelope)
    }
  }

  const TREE := Profile("wairon-tree.yaml", TREE_DEFAULTS)
  const PACK := Profile("wairon-pack.yaml", PACK_DEFAULTS)

  lemma ProfilesAreNamed()
    ensures TREE.Named() && PACK.Named()
  {
    SixteenLetters(TREE);
    SixteenLetters(PACK);
  }

  lemma SixteenLetters(p: Profile)
    requires |p.envelope| == 16 && p.envelope[15] == 'l' && forall i | 0 <= i < 16 :: p.envelope[i] != '/'
    ensures p.Named()
  {
    NoScript(p.envelope);
  }

  lemma NoScript(name: string)
    requires |name| == 16 && name[15] == 'l'
    ensures !Executable(name) && name != ".wai" && name != "package.json"
  {
    LastLetterDiffers(name, ".js");
    LastLetterDiffers(name, ".cjs");
    LastLetterDiffers(name, ".mjs");
  }

  lemma LastLetterDiffers(s: string, suffix: string)
    requires s != "" && suffix != "" && Lower(s[|s| - 1]) != suffix[|suffix| - 1]
    ensures !EndsWithFold(s, suffix)
  {
    var i := |suffix| - 1;
    assert |suffix| <= |s| ==> Lower(s[|s| - |suffix| + i]) != suffix[i];
  }

  /** Who seals, and when. */
  datatype Stamp = Stamp(sdkVersion: string, at: string)
  {
    function By(): string { "@wairon/sdk@" + sdkVersion }
  }

  // --- portability ------------------------------------------------------------------------

  /** `selectTreeFiles`' test: the first segment is a regenerable folder. */
  predicate Derived(path: string) {
    Split(path)[0] == "generated" || Split(path)[0] == "docs"
  }

  predicate EndsWithFold(s: string, suffix: string) {
    |suffix| <= |s| && forall i | 0 <= i < |suffix| :: Lower(s[|s| - |suffix| + i]) == suffix[i]
  }

  /** `/\.(c|m)?js$/i` */
  predicate Executable(path: string) {
    EndsWithFold(path, ".js") || EndsWithFold(path, ".cjs") || EndsWithFold(path, ".mjs")
  }

  function IndexIn(segs: seq<string>, seg: string): (i: int)
    ensures i == -1 <==> seg !in segs
    ensures i != -1 ==> 0 <= i < |segs| && segs[i] == seg && forall k | 0 <= k < i :: segs[k] != seg
  {
    if segs == [] then -1
    else if segs[0] == seg then 0
    else
      var rest := IndexIn(segs[1..], seg);
      if rest == -1 then -1 else rest + 1
  }

  /** `isUnderWaiRoot`: a ".wai" segment with content beneath it. */
  predicate UnderWaiRoot(path: string) {
    var at := IndexIn(Split(path), ".wai");
    at >= 0 && at < |Split(path)| - 1
  }

  predicate PortablePath(path: string, envelope: string) {
    !Executable(path) && (path == envelope || UnderWaiRoot(path))
  }

  predicate PortablePaths(paths: seq<string>, envelope: string) {
    forall p | p in paths :: PortablePath(p, envelope)
  }

  /** `assertPortableTreePaths`: false is the thrown refusal. */
  method AssertPortableTreePaths(paths: seq<string>, envelope: string) returns (ok: bool)
    ensures ok <==> PortablePaths(paths, envelope)
  {
    for i := 0 to |paths|
      invariant PortablePaths(paths[..i], envelope)
    {
      assert paths[i] in paths;
      if Executable(paths[i]) {
        return false;
      }
      if paths[i] != envelope && !UnderWaiRoot(paths[i]) {
        return false;
      }
    }
    assert paths[..|paths|] == paths;
    return true;
  }

  function Filter(files: seq<PackFile>, keep: PackFile -> bool): seq<PackFile> {
    if files == [] then []
    else Filter(files[..|files| - 1], keep) + (if keep(files[|files| - 1]) then [files[|files| - 1]] else [])
  }

  function SelectTreeFiles(files: seq<PackFile>, includeDerived: bool): seq<PackFile> {
    if includeDerived then files else Filter(files, (f: PackFile) => !Derived(f.path))
  }

  function Without(files: seq<PackFile>, path: string): seq<PackFile> {
    Filter(files, (f: PackFile) => f.path != path)
  }

  // --- roots ---------------------------------------------------------------------------------

  function StripTrailingSlashes(p: string): string {
    if EndsWithSlash(p) then StripTrailingSlashes(p[..|p| - 1]) else p
  }

  /** `normalizeRootPath` where the path separator is '/'. */
  function NormalizeRoot(relativePath: string): string {
    var p := if "./" <= relativePath then relativePath[2..] else relativePath;
    var stripped := StripTrailingSlashes(p);
    if stripped == "" || stripped == "." then "." else stripped
  }

  /** `treeRootPrefix`, on a normalised root. */
  function RootPrefix(root: string): string {
    if root == "." then ".wai/" else root + "/.wai/"
  }

  /** One root to pack: its project-relative folder, and what a walk of its .wai folder reads. */
  datatype TreeRoot = TreeRoot(relativePath: string, files: seq<PackFile>)

  function Prefixed(prefix: string, files: seq<PackFile>): (out: seq<PackFile>)
    ensures |out| == |files|
    ensures forall i | 0 <= i < |files| :: out[i] == PackFile(prefix + files[i].path, files[i].contents)
  {
    seq(|files|, i requires 0 <= i < |files| => PackFile(prefix + files[i].path, files[i].contents))
  }

  function RootFiles(root: TreeRoot, includeDerived: bool): seq<PackFile> {
    Prefixed(RootPrefix(NormalizeRoot(root.relativePath)), SelectTreeFiles(root.files, includeDerived))
  }

  function PackedFiles(roots: seq<TreeRoot>, includeDerived: bool): seq<PackFile> {
    if roots == [] then []
    else PackedFiles(roots[..|roots| - 1], includeDerived) + RootFiles(roots[|roots| - 1], includeDerived)
  }

  function PackedRoots(roots: seq<TreeRoot>): (out: seq<string>)
    ensures |out| == |roots| && forall i | 0 <= i < |roots| :: out[i] == NormalizeRoot(roots[i].relativePath)
  {
    seq(|roots|, i requires 0 <= i < |roots| => NormalizeRoot(roots[i].relativePath))
  }

  // --- building a tree archive ------------------------------------------------------------------

  datatype TreeBuild = TreeBuild(archive: Archive, manifest: TreeManifest, files: seq<PackFile>)

  /** What the caller asks to be packed. */
  datatype TreeRequest = TreeRequest(roots: seq<TreeRoot>, projectName: string, stateId: Option<string>, includeDerived: bool)
  {
    function Files(): seq<PackFile> { PackedFiles(roots, includeDerived) }
  }

  function SealedTree(req: TreeRequest, stamp: Stamp, tree: Profile): TreeManifest {
    var digests := EntryDigests(req.Files(), tree.envelope);
    TreeManifest(1.0, req.projectName, PackedRoots(req.roots), req.stateId, Some(stamp.sdkVersion), None, Some(req.includeDerived),
                 Some(OfEntries(digests)), Some(digests), Some(stamp.By()), Some(stamp.at))
  }

  function Enveloped(files: seq<PackFile>, envelope: string, contents: Bytes): seq<PackFile> {
    Without(files, envelope) + [PackFile(envelope, contents)]
  }

  function TreeBuilt(req: TreeRequest, stamp: Stamp, text: Text, compress: Bytes -> nat, tree: Profile): Option<TreeBuild> {
    if req.Files() == [] then None
    else
      var sealed := SealedTree(req, stamp, tree);
      var files := Enveloped(req.Files(), tree.envelope, SerializeTree(sealed, text));
      Some(TreeBuild(Archive(Assembled(files, compress), {}), sealed, files))
  }

  lemma PackedSnoc(front: seq<TreeRoot>, last: TreeRoot, includeDerived: bool)
    ensures PackedFiles(front + [last], includeDerived) == PackedFiles(front, includeDerived) + RootFiles(last, includeDerived)
  {
    assert (front + [last])[..|front|] == front;
  }

  lemma PackedRootsSnoc(front: seq<TreeRoot>, last: TreeRoot)
    ensures PackedRoots(front + [last]) == PackedRoots(front) + [NormalizeRoot(last.relativePath)]
  {
  }

  /** The packing loop: each root's portable files under its prefix, and its normalised path. */
  method PackRoots(roots: seq<TreeRoot>, includeDerived: bool) returns (files: seq<PackFile>, packedRoots: seq<string>)
    ensures files == PackedFiles(roots, includeDerived) && packedRoots == PackedRoots(roots)
  {
    files, packedRoots := [], [];
    for i := 0 to |roots|
      invariant files == PackedFiles(roots[..i], includeDerived)
      invariant packedRoots == PackedRoots(roots[..i])
    {
      assert roots[..i + 1] == roots[..i] + [roots[i]];
      PackedSnoc(roots[..i], roots[i], includeDerived);
      PackedRootsSnoc(roots[..i], roots[i]);
      files := files + RootFiles(roots[i], includeDerived);
      packedRoots := packedRoots + [NormalizeRoot(roots[i].relativePath)];
    }
    assert roots[..|roots|] == roots;
  }

  /** `buildTreeArchive` */
  method BuildTreeArchive(req: TreeRequest, stamp: Stamp, text: Text, compress: Bytes -> nat, tree: Profile) returns (built: Option<TreeBuild>)
    ensures built == TreeBuilt(req, stamp, text, compress, tree)
  {
    var files, packedRoots := PackRoots(req.roots, req.includeDerived);
    if |files| == 0 {
      return None;
    }
    var manifest := TreeManifest(1.0, req.projectName, packedRoots, req.stateId, Some(stamp.sdkVersion), None,
                                 Some(req.includeDerived), None, None, None, None);
    var entryDigests, digest := SealEntries(files, tree.envelope);
    var sealed := manifest.(entryDigests := Some(entryDigests), digest := Some(digest),
                            generatedBy := Some(stamp.By()), generatedAt := Some(stamp.at));
    var finalFiles := Without(files, tree.envelope) + [PackFile(tree.envelope, SerializeTree(sealed, text))];
    var archive := AssembleArchive(finalFiles, compress);
    return Some(TreeBuild(archive, sealed, finalFiles));
  }

  // --- extracting a tree archive ------------------------------------------------------------------

  datatype TreeExtraction = TreeExtraction(manifest: TreeManifest, files: seq<PackFile>)

  predicate IntegrityHolds(entryDigests: Option<map<string, Digest>>, files: seq<PackFile>, envelope: string) {
    entryDigests.Some? ==> MatchesDigests(files, entryDigests.value, envelope)
  }

  function TreeOpened(files: seq<PackFile>, text: Text, tree: Profile): Option<TreeExtraction> {
    match FindFile(files, tree.envelope)
    case None => None
    case Some(envelope) =>
      match ParseTree(envelope.contents, text)
      case None => None
      case Some(manifest) =>
        if IntegrityHolds(manifest.entryDigests, files, tree.envelope) then Some(TreeExtraction(manifest, files)) else None
  }

  function TreeExtracted(a: Archive, limits: Option<Limits>, refuseExecutable: bool, text: Text, tree: Profile): Option<TreeExtraction> {
    match Planned(Listed(a), ResolveCaps(Or(limits, NO_LIMITS), tree.defaults))
    case None => None
    case Some(plan) =>
      if refuseExecutable && !PortablePaths(plan.paths, tree.envelope) then None
      else
        match InflateAll(a.entries, plan.paths)
        case None => None
        case Some(files) => TreeOpened(files, text, tree)
  }

  /** `extractTreeArchive`: a refusal writes nothing. */
  method ExtractTreeArchive(disk: Disk, a: Archive, dest: Place, limits: Option<Limits>, refuseExecutable: bool, text: Text, tree: Profile)
    returns (result: Option<TreeExtraction>)
    modifies disk
    ensures result == TreeExtracted(a, limits, refuseExecutable, text, tree)
    ensures disk.files == if result.Some? then Written(old(disk.files), dest, result.value.files) else old(disk.files)
  {
    var entries := ListEntries(a);
    var plan := PlanExtraction(entries, Or(limits, NO_LIMITS), tree.defaults);
    if plan == None {
      return None;
    }
    if refuseExecutable {
      var portable := AssertPortableTreePaths(plan.value.paths, tree.envelope);
      if !portable {
        return None;
      }
    }
    var inflated := InflateApproved(a, plan.value.paths);
    if inflated == None {
      return None;
    }
    var files := inflated.value;
    var envelope := FindFile(files, tree.envelope);
    if envelope == None {
      return None;
    }
    var manifest := ParseTree(envelope.value.contents, text);
    if manifest == None {
      return None;
    }
    var verdict := VerifyIntegrity(manifest.value.entryDigests, files, tree.envelope);
    if verdict == Mismatch {
      return None;
    }
    disk.WriteTree(dest, files);
    return Some(TreeExtraction(manifest.value, files));
  }

  // --- packs ---------------------------------------------------------------------------------------------

  function InnerPath(m: PackManifest): string {
    if m.kind == "code" then "package.json" else m.entry
  }

  /** A document's name and version, where both are strings. */
  function IdentityIn(doc: Option<Yaml>): Option<(string, string)> {
    match doc
    case Some(Mapping(f)) =>
      if TextAt(f, Name).Some? && TextAt(f, Version).Some? then Some((TextAt(f, Name).value, TextAt(f, Version).value)) else None
    case _ => None
  }

  /** `readInnerIdentity`; `json` is JSON.parse of decoded bytes. */
  function InnerIdentity(files: seq<PackFile>, m: PackManifest, text: Text, json: Bytes -> Option<Yaml>): Option<(string, string)> {
    match FindFile(files, InnerPath(m))
    case None => None
    case Some(inner) => IdentityIn(if m.kind == "code" then json(inner.contents) else text.load(inner.contents))
  }

  datatype PackBuild = PackBuild(archive: Archive, manifest: PackManifest, files: seq<PackFile>)

  function SealedPack(m: PackManifest, files: seq<PackFile>, stamp: Stamp, pack: Profile): PackManifest {
    var digests := EntryDigests(files, pack.envelope);
    m.(entryDigests := Some(digests), digest := Some(OfEntries(digests)), generatedBy := Some(stamp.By()), generatedAt := Some(stamp.at))
  }

  function PackBuilt(files: seq<PackFile>, stamp: Stamp, text: Text, json: Bytes -> Option<Yaml>, compress: Bytes -> nat, pack: Profile): Option<PackBuild> {
    match FindFile(files, pack.envelope)
    case None => None
    case Some(envelope) =>
      match ParsePack(envelope.contents, text)
      case None => None
      case Some(m) =>
        if InnerIdentity(files, m, text, json) != Some((m.name, m.version)) then None
        else
          var sealed := SealedPack(m, files, stamp, pack);
          var finalFiles := Enveloped(files, pack.envelope, SerializePack(sealed, text));
          Some(PackBuild(Archive(Assembled(finalFiles, compress), {}), sealed, finalFiles))
  }

  /** `buildPack`, on what the walk of the source folder read. */
  method BuildPack(files: seq<PackFile>, stamp: Stamp, text: Text, json: Bytes -> Option<Yaml>, compress: Bytes -> nat, pack: Profile)
    returns (built: Option<PackBuild>)
    ensures built == PackBuilt(files, stamp, text, json, compress, pack)
  {
    var envelope := FindFile(files, pack.envelope);
    if envelope == None {
      return None;
    }
    var manifest := ParsePack(envelope.value.contents, text);
    if manifest == None {
      return None;
    }
    var identity := InnerIdentity(files, manifest.value, text, json);
    if identity == None || manifest.value.name != identity.value.0 || manifest.value.version != identity.value.1 {
      return None;
    }
    var entryDigests, digest := SealEntries(files, pack.envelope);
    var sealed := manifest.value.(entryDigests := Some(entryDigests), digest := Some(digest),
                                  generatedBy := Some(stamp.By()), generatedAt := Some(stamp.at));
    var finalFiles := Without(files, pack.envelope) + [PackFile(pack.envelope, SerializePack(sealed, text))];
    var archive := AssembleArchive(finalFiles, compress);
    return Some(PackBuild(archive, sealed, finalFiles));
  }

  datatype PackExtraction = PackExtraction(manifest: PackManifest, files: seq<PackFile>)

  function PackOpened(files: seq<PackFile>, text: Text, pack: Profile): Option<PackExtraction> {
    match FindFile(files, pack.envelope)
    case None => None
    case Some(envelope) =>
      match ParsePack(envelope.contents, text)
      case None => None
      case Some(manifest) =>
        if IntegrityHolds(manifest.entryDigests, files, pack.envelope) then Some(PackExtraction(manifest, files)) else None
  }

  function PackExtracted(a: Archive, limits: Option<Limits>, text: Text, pack: Profile): Option<PackExtraction> {
    match Planned(Listed(a), ResolveCaps(Or(limits, NO_LIMITS), pack.defaults))
    case None => None
    case Some(plan) =>
      match InflateAll(a.entries, plan.paths)
      case None => None
      case Some(files) => PackOpened(files, text, pack)
  }

  /** `extractPack`: a refusal writes nothing. */
  method ExtractPack(disk: Disk, a: Archive, dest: Place, limits: Option<Limits>, text: Text, pack: Profile) returns (result: Option<PackExtraction>)
    modifies disk
    ensures result == PackExtracted(a, limits, text, pack)
    ensures disk.files == if result.Some? then Written(old(disk.files), dest, result.value.files) else old(disk.files)
  {
    var entries := ListEntries(a);
    var plan := PlanExtraction(entries, Or(limits, NO_LIMITS), pack.defaults);
    if plan == None {
      return None;
    }
    var inflated := InflateApproved(a, plan.value.paths);
    if inflated == None {
      return None;
    }
    var files := inflated.value;
    var envelope := FindFile(files, pack.envelope);
    if envelope == None {
      return None;
    }
    var manifest := ParsePack(envelope.value.contents, text);
    if manifest == None {
      return None;
    }
    var verdict := VerifyIntegrity(manifest.value.entryDigests, files, pack.envelope);
    if verdict == Mismatch {
      return None;
    }
    disk.WriteTree(dest, files);
    return Some(PackExtraction(manifest.value, files));
  }
}
