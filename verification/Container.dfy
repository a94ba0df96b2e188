/**
 The archive adapter: the zip container as the library shows it, the destination folder, and
 the inflate/write half of extraction that the pack and tree workflows share. Compression is
 a size the caller supplies; names are already decoded.
 */
module Container {
  import opened Basics
  import opened ArchivePaths
  import opened Codec

  /** One stored entry: the bytes it inflates to, and the two sizes its central record declares. */
  datatype Stored = Stored(name: string, bytes: Bytes, compressed: nat, declared: nat)

  /** `links` is what the central-directory scan reports as unix symbolic links. */
  datatype Archive = Archive(entries: seq<Stored>, links: set<string>)

  predicate EndsWithSlash(name: string) {
    |name| > 0 && name[|name| - 1] == '/'
  }

  /** `classifyKind` */
  function KindOf(name: string, links: set<string>): Kind {
    if name in links then Symlink else if EndsWithSlash(name) then Dir else File
  }

  function MetaOf(e: Stored, links: set<string>): EntryMeta {
    EntryMeta(e.name, e.declared, e.compressed, KindOf(e.name, links))
  }

  function Listed(a: Archive): (metas: seq<EntryMeta>)
    ensures |metas| == |a.entries|
    ensures forall i | 0 <= i < |metas| :: metas[i] == MetaOf(a.entries[i], a.links)
  {
    seq(|a.entries|, i requires 0 <= i < |a.entries| => MetaOf(a.entries[i], a.links))
  }

  /** `listEntries`: one meta per stored entry, pushed as the library reports it. */
  method ListEntries(a: Archive) returns (metas: seq<EntryMeta>)
    ensures metas == Listed(a)
  {
    metas := [];
    for i := 0 to |a.entries|
      invariant |metas| == i
      invariant forall j | 0 <= j < i :: metas[j] == MetaOf(a.entries[j], a.links)
    {
      metas := metas + [MetaOf(a.entries[i], a.links)];
    }
  }

  /** `inflateEntry`: a later entry of the same name overwrites an earlier one; None is the thrown miss. */
  function Inflate(entries: seq<Stored>, name: string): Option<Bytes> {
    if entries == [] then None
    else
      var last := entries[|entries| - 1];
      if last.name == name then Some(last.bytes) else Inflate(entries[..|entries| - 1], name)
  }

  function InflateAll(entries: seq<Stored>, paths: seq<string>): Option<seq<PackFile>> {
    if paths == [] then Some([])
    else
      var last := paths[|paths| - 1];
      match (InflateAll(entries, paths[..|paths| - 1]), Inflate(entries, last))
      case (Some(files), Some(bytes)) => Some(files + [PackFile(last, bytes)])
      case _ => None
  }

  /** The inflating loop of `extractPack` / `extractTreeArchive`. */
  method InflateApproved(a: Archive, paths: seq<string>) returns (files: Option<seq<PackFile>>)
    ensures files == InflateAll(a.entries, paths)
  {
    var out: seq<PackFile> := [];
    for i := 0 to |paths|
      invariant InflateAll(a.entries, paths[..i]) == Some(out)
    {
      var contents := Inflate(a.entries, paths[i]);
      assert paths[..i + 1][..i] == paths[..i];
      if contents == None {
        MissStays(a.entries, paths, i + 1);
        return None;
      }
      out := out + [PackFile(paths[i], contents.value)];
    }
    assert paths[..|paths|] == paths;
    return Some(out);
  }

  lemma {:induction false} MissStays(entries: seq<Stored>, paths: seq<string>, n: nat)
    requires n <= |paths| && InflateAll(entries, paths[..n]) == None
    ensures InflateAll(entries, paths) == None
    decreases |paths|
  {
    if n < |paths| {
      var front := paths[..|paths| - 1];
      assert front[..n] == paths[..n];
      MissStays(entries, front, n);
    } else {
      assert paths[..n] == paths;
    }
  }

  lemma {:induction false} InflatedPaths(entries: seq<Stored>, paths: seq<string>)
    requires InflateAll(entries, paths).Some?
    ensures
      var files := InflateAll(entries, paths).value;
      |files| == |paths| && forall i | 0 <= i < |paths| :: files[i].path == paths[i] && Inflate(entries, paths[i]) == Some(files[i].contents)
  {
    if paths != [] { InflatedPaths(entries, paths[..|paths| - 1]); }
  }

  lemma {:induction false} InflatedIsStored(entries: seq<Stored>, name: string)
    requires Inflate(entries, name).Some?
    ensures exists i :: 0 <= i < |entries| && entries[i].name == name && entries[i].bytes == Inflate(entries, name).value
  {
    var last := entries[|entries| - 1];
    if last.name != name { InflatedIsStored(entries[..|entries| - 1], name); }
  }

  function FindFile(files: seq<PackFile>, path: string): Option<PackFile> {
    if files == [] then None
    else if files[0].path == path then Some(files[0])
    else FindFile(files[1..], path)
  }

  // --- writing ---------------------------------------------------------------------------

  type Place = seq<string>

  /** Where `path.join(destDir, file.path)` leads. */
  function PlaceOf(dest: Place, path: string): Place {
    Land(dest, Split(path))
  }

  function Written(disk: map<Place, Bytes>, dest: Place, files: seq<PackFile>): map<Place, Bytes> {
    if files == [] then disk
    else
      var last := files[|files| - 1];
      Written(disk, dest, files[..|files| - 1])[PlaceOf(dest, last.path) := last.contents]
  }

  /** The files of the machine, by place. */
  class Disk {
    var files: map<Place, Bytes>

    /** `writeTree` */
    method WriteTree(dest: Place, tree: seq<PackFile>)
      modifies this
      ensures files == Written(old(files), dest, tree)
    {
      for i := 0 to |tree|
        invariant files == Written(old(files), dest, tree[..i])
      {
        assert tree[..i + 1][..i] == tree[..i];
        files := files[PlaceOf(dest, tree[i].path) := tree[i].contents];
      }
      assert tree[..|tree|] == tree;
    }
  }

  // --- assembling ------------------------------------------------------------------------

  function IndexOf(entries: seq<Stored>, name: string): (i: nat)
    ensures i <= |entries|
    ensures i < |entries| ==> entries[i].name == name
    ensures forall j | 0 <= j < i :: entries[j].name != name
  {
    if entries == [] then 0 else if entries[0].name == name then 0 else 1 + IndexOf(entries[1..], name)
  }

  /** Setting a key of the zippable object: in place when it is there, else at the end. */
  function Store(entries: seq<Stored>, e: Stored): seq<Stored> {
    var i := IndexOf(entries, e.name);
    if i < |entries| then entries[i := e] else entries + [e]
  }

  function StoredAs(f: PackFile, compress: Bytes -> nat): Stored {
    Stored(f.path, f.contents, compress(f.contents), |f.contents|)
  }

  function Assembled(files: seq<PackFile>, compress: Bytes -> nat): seq<Stored> {
    if files == [] then []
    else Store(Assembled(files[..|files| - 1], compress), StoredAs(files[|files| - 1], compress))
  }

  /** `assembleArchive`: the library records no unix host, so nothing it writes scans as a link. */
  method AssembleArchive(files: seq<PackFile>, compress: Bytes -> nat) returns (a: Archive)
    ensures a == Archive(Assembled(files, compress), {})
  {
    var entries: seq<Stored> := [];
    for i := 0 to |files|
      invariant entries == Assembled(files[..i], compress)
    {
      assert files[..i + 1][..i] == files[..i];
      entries := Store(entries, StoredAs(files[i], compress));
    }
    assert files[..|files|] == files;
    a := Archive(entries, {});
  }

  /** What is assembled declares true sizes: every entry's own bytes, as long as they are and as small as they compress. */
  lemma {:induction false} AssembledDeclaresTrueSizes(files: seq<PackFile>, compress: Bytes -> nat)
    ensures forall e | e in Assembled(files, compress) :: e.declared == |e.bytes| && e.compressed == compress(e.bytes)
  {
    if files != [] {
      var front, last := files[..|files| - 1], StoredAs(files[|files| - 1], compress);
      AssembledDeclaresTrueSizes(front, compress);
      var entries := Assembled(front, compress);
      forall e | e in Store(entries, last) ensures e == last || e in entries {
      }
    }
  }

  // --- confinement ------------------------------------------------------------------------

  lemma TrailingSlash(p: string)
    requires EndsWithSlash(p)
    ensures "" in Split(p) && |Split(p)| >= 2
  {
    var q := p[..|p| - 1];
    assert p == q + "/" + "";
    SplitConcat(q, "");
    assert Split(p)[|Split(p)| - 1] == "";
  }

  /** A normalised name is never a directory marker's. */
  lemma NormalIsNoMarker(p: string)
    ensures !EndsWithSlash(Normalize(p))
  {
    SegmentsOfNormal(p);
    KeptOnly(Split(p));
    if EndsWithSlash(Normalize(p)) { TrailingSlash(Normalize(p)); }
  }

  /**
   Confinement. Whatever an extraction goes on to write was approved under a normalised path and
   inflated under that very name, so it is itself the raw name of a listed regular entry that
   passed vetting: no "..", no backslash, no drive prefix, no leading slash, no deeper than the
   cap, and at or below the destination, where its raw name lands.
   */
  lemma WritesAreVettedEntries(a: Archive, caps: Caps, files: seq<PackFile>, dest: Place)
    requires Planned(Listed(a), caps).Some?
    requires InflateAll(a.entries, Planned(Listed(a), caps).value.paths) == Some(files)
    ensures forall f | f in files ::
              && (exists i :: 0 <= i < |a.entries| && a.entries[i].name == f.path && a.entries[i].bytes == f.contents
                   && Listed(a)[i].kind == File && EntryFits(Listed(a)[i], caps))
              && !StructurallyUnsafe(f.path)
              && Depth(f.path) <= caps.maxDepth
              && dest <= PlaceOf(dest, f.path)
  {
    var plan := Planned(Listed(a), caps).value;
    InflatedPaths(a.entries, plan.paths);
    forall k | 0 <= k < |files|
      ensures
        var f := files[k];
        && (exists i :: 0 <= i < |a.entries| && a.entries[i].name == f.path && a.entries[i].bytes == f.contents
             && Listed(a)[i].kind == File && EntryFits(Listed(a)[i], caps))
        && !StructurallyUnsafe(f.path) && Depth(f.path) <= caps.maxDepth && dest <= PlaceOf(dest, f.path)
    {
      var raw := FilesOf(Listed(a))[k].path;
      assert files[k].path == Normalize(raw);
      InflatedIsStored(a.entries, files[k].path);
      var i :| 0 <= i < |a.entries| && a.entries[i].name == files[k].path && a.entries[i].bytes == files[k].contents;
      assert Listed(a)[i] in Listed(a);
      NormalIsNoMarker(raw);
      NormalizeIdempotent(raw);
      LandBelow(dest, Split(files[k].path));
    }
  }

  /** So no name an extraction writes under holds a backslash, a drive letter, a leading slash or a step upwards. */
  lemma WrittenNamesAreAllowed(a: Archive, caps: Caps, files: seq<PackFile>)
    requires Planned(Listed(a), caps).Some?
    requires InflateAll(a.entries, Planned(Listed(a), caps).value.paths) == Some(files)
    ensures forall f | f in files :: !Forbidden(f.path)
  {
    WritesAreVettedEntries(a, caps, files, []);
    forall f | f in files ensures !Forbidden(f.path) {
      UnsafeIsForbidden(f.path);
    }
  }

  lemma DriveNames()
    ensures Split("./c:/x") == [".", "c:", "x"] && Split("c:/x") == ["c:", "x"]
    ensures Normalize("./c:/x") == "c:/x"
  {
    SplitConcat(".", "c:/x");
    SplitConcat("c:", "x");
    assert "./c:/x" == "." + "/" + "c:/x" && "c:/x" == "c:" + "/" + "x";
    SplitOne(".");
    SplitOne("c:");
    SplitOne("x");
    assert [".", "c:", "x"][1..] == ["c:", "x"];
    KeepAll(["c:", "x"]);
    assert Join(["c:", "x"]) == "c:/x";
  }

  /** The plan alone confines nothing: it can approve a drive path that no entry of that name backs. */
  lemma PlanAloneApprovesADrivePath()
    ensures
      var a := Archive([Stored("./c:/x", [7], 1, 1)], {});
      var plan := Planned(Listed(a), PACK_DEFAULTS);
      plan == Some(Plan(["c:/x"], 1)) && DriveLetter("c:/x") && InflateAll(a.entries, plan.value.paths) == None
  {
    var a := Archive([Stored("./c:/x", [7], 1, 1)], {});
    DriveNames();
    var meta := EntryMeta("./c:/x", 1, 1, File);
    DriveFits(meta);
    var metas := Listed(a);
    assert metas == [meta];
    OnlyFile(meta);
    assert PathsOf([meta]) == ["c:/x"];
    assert forall e | e in metas :: e == meta;
    OnlyMiss(a.entries[0], "c:/x");
  }

  lemma DriveFits(meta: EntryMeta)
    requires meta == EntryMeta("./c:/x", 1, 1, File)
    ensures EntryFits(meta, PACK_DEFAULTS)
  {
    DriveNames();
    assert NonEmpty(["c:", "x"]) == 2 by { assert ["c:", "x"][1..] == ["x"] && ["x"][1..] == []; }
    assert meta.uncompressedSize as real / meta.compressedSize as real == 1.0;
  }

  lemma OnlyFile(m: EntryMeta)
    requires m.kind == File
    ensures FilesOf([m]) == [m] && BytesOf([m]) == m.uncompressedSize
  {
    assert [m][..0] == [];
  }

  lemma OnlyMiss(e: Stored, name: string)
    requires e.name != name
    ensures InflateAll([e], [name]) == None
  {
    var entries, paths := [e], [name];
    assert entries[..|entries| - 1] == [] && paths[..|paths| - 1] == [];
    assert Inflate(entries, name) == None;
  }

  // --- size bound --------------------------------------------------------------------------

  /** The bytes of a tree on disk. */
  ghost function TotalBytes(tree: map<Place, Bytes>): nat {
    if tree == map[] then 0
    else
      var p :| p in tree;
      |tree[p]| + TotalBytes(tree - {p})
  }

  lemma {:induction false} TotalWithout(tree: map<Place, Bytes>, p: Place)
    requires p in tree
    ensures TotalBytes(tree) == |tree[p]| + TotalBytes(tree - {p})
  {
    var q :| q in tree && TotalBytes(tree) == |tree[q]| + TotalBytes(tree - {q});
    if q != p {
      TotalWithout(tree - {q}, p);
      TotalWithout(tree - {p}, q);
      assert tree - {q} - {p} == tree - {p} - {q};
    }
  }

  lemma {:induction false} WrittenFrom(dest: Place, files: seq<PackFile>, p: Place) returns (f: PackFile)
    requires p in Written(map[], dest, files)
    ensures f in files && PlaceOf(dest, f.path) == p && f.contents == Written(map[], dest, files)[p]
  {
    var last := files[|files| - 1];
    if PlaceOf(dest, last.path) == p {
      f := last;
    } else {
      f := WrittenFrom(dest, files[..|files| - 1], p);
    }
  }

  /** Every place of the tree is where some regular entry among `metas` lands, and has its size. */
  ghost predicate Backed(tree: map<Place, Bytes>, dest: Place, metas: seq<EntryMeta>) {
    forall p | p in tree :: exists m | m in metas :: m.kind == File && PlaceOf(dest, m.path) == p && m.uncompressedSize == |tree[p]|
  }

  lemma {:induction false} BackedFits(tree: map<Place, Bytes>, dest: Place, metas: seq<EntryMeta>)
    requires Backed(tree, dest, metas)
    ensures TotalBytes(tree) <= BytesOf(metas)
  {
    if metas == [] {
      assert tree.Keys == {};
    } else {
      var front, last := metas[..|metas| - 1], metas[|metas| - 1];
      var place := PlaceOf(dest, last.path);
      assert metas == front + [last];
      if last.kind == File && place in tree && |tree[place]| == last.uncompressedSize {
        TotalWithout(tree, place);
        BackedFits(tree - {place}, dest, front);
      } else {
        BackedFits(tree, dest, front);
      }
    }
  }

  /** The regular entry behind one place of what an extraction leaves. */
  lemma PlaceIsBacked(a: Archive, caps: Caps, files: seq<PackFile>, dest: Place, p: Place) returns (m: EntryMeta)
    requires forall e | e in a.entries :: e.declared == |e.bytes|
    requires Planned(Listed(a), caps).Some?
    requires InflateAll(a.entries, Planned(Listed(a), caps).value.paths) == Some(files)
    requires p in Written(map[], dest, files)
    ensures m in Listed(a) && m.kind == File && PlaceOf(dest, m.path) == p
    ensures m.uncompressedSize == |Written(map[], dest, files)[p]| <= caps.maxEntryBytes
  {
    var f := WrittenFrom(dest, files, p);
    WritesAreVettedEntries(a, caps, files, dest);
    var i :| 0 <= i < |a.entries| && a.entries[i].name == f.path && a.entries[i].bytes == f.contents
      && Listed(a)[i].kind == File && EntryFits(Listed(a)[i], caps);
    m := Listed(a)[i];
  }

  /**
   The size bound. When the central directory declares true sizes, the tree an accepted archive leaves in
   an empty destination totals at most the aggregate cap and holds no file over the per-entry cap, however
   many names repeat, or collide once normalised and joined.
   */
  lemma WrittenTreeIsBounded(a: Archive, caps: Caps, files: seq<PackFile>, dest: Place)
    requires forall e | e in a.entries :: e.declared == |e.bytes|
    requires Planned(Listed(a), caps).Some?
    requires InflateAll(a.entries, Planned(Listed(a), caps).value.paths) == Some(files)
    ensures
      var tree := Written(map[], dest, files);
      TotalBytes(tree) <= caps.maxTotalUncompressedBytes && forall p | p in tree :: |tree[p]| <= caps.maxEntryBytes
  {
    var tree := Written(map[], dest, files);
    forall p | p in tree
      ensures exists m | m in Listed(a) :: m.kind == File && PlaceOf(dest, m.path) == p && m.uncompressedSize == |tree[p]|
      ensures |tree[p]| <= caps.maxEntryBytes
    {
      var m := PlaceIsBacked(a, caps, files, dest, p);
    }
    BackedFits(tree, dest, Listed(a));
  }

  // --- what is assembled extracts to itself ---------------------------------------------------

  ghost predicate DistinctPaths(files: seq<PackFile>) {
    forall i, j | 0 <= i < j < |files| :: files[i].path != files[j].path
  }

  lemma {:induction false} DistinctAssemble(files: seq<PackFile>, compress: Bytes -> nat)
    requires DistinctPaths(files)
    ensures |Assembled(files, compress)| == |files|
    ensures forall i | 0 <= i < |files| :: Assembled(files, compress)[i] == StoredAs(files[i], compress)
  {
    if files != [] { DistinctAssemble(files[..|files| - 1], compress); }
  }

  lemma {:induction false} InflateDistinct(entries: seq<Stored>, i: nat)
    requires i < |entries|
    requires forall j, k | 0 <= j < k < |entries| :: entries[j].name != entries[k].name
    ensures Inflate(entries, entries[i].name) == Some(entries[i].bytes)
  {
    if i < |entries| - 1 {
      InflateDistinct(entries[..|entries| - 1], i);
    }
  }

  lemma CanonicalIsRegular(p: string)
    requires Canonical(p)
    ensures KindOf(p, {}) == File && Normalize(p) == p
  {
    if EndsWithSlash(p) { TrailingSlash(p); }
    NormalIsFixpoint(p);
  }

  lemma {:induction false} AllFilesKept(metas: seq<EntryMeta>)
    requires forall m | m in metas :: m.kind == File
    ensures FilesOf(metas) == metas
  {
    if metas != [] {
      var front := metas[..|metas| - 1];
      assert metas == front + [metas[|metas| - 1]];
      AllFilesKept(front);
    }
  }

  /** Distinct canonical files, assembled: an accepted plan lists exactly their paths, and inflates exactly their bytes. */
  lemma AssembledExtracts(files: seq<PackFile>, compress: Bytes -> nat, caps: Caps)
    requires DistinctPaths(files) && forall f | f in files :: Canonical(f.path)
    requires Planned(Listed(Archive(Assembled(files, compress), {})), caps).Some?
    ensures
      var entries := Assembled(files, compress);
      var plan := Planned(Listed(Archive(entries, {})), caps).value;
      && |plan.paths| == |files|
      && (forall i | 0 <= i < |files| :: plan.paths[i] == files[i].path)
      && InflateAll(entries, plan.paths) == Some(files)
  {
    var entries := Assembled(files, compress);
    var metas := Listed(Archive(entries, {}));
    DistinctAssemble(files, compress);
    forall i | 0 <= i < |files| ensures metas[i].kind == File && Normalize(metas[i].path) == files[i].path {
      assert files[i] in files;
      CanonicalIsRegular(files[i].path);
    }
    AllFilesKept(metas);
    var paths := Planned(metas, caps).value.paths;
    forall i | 0 <= i < |files| ensures Inflate(entries, paths[i]) == Some(files[i].contents) {
      InflateDistinct(entries, i);
    }
    InflateEach(entries, paths, files);
  }

  lemma {:induction false} InflateEach(entries: seq<Stored>, paths: seq<string>, files: seq<PackFile>)
    requires |paths| == |files|
    requires forall i | 0 <= i < |files| :: paths[i] == files[i].path && Inflate(entries, paths[i]) == Some(files[i].contents)
    ensures InflateAll(entries, paths) == Some(files)
  {
    if paths != [] {
      var n := |paths| - 1;
      InflateEach(entries, paths[..n], files[..n]);
      assert files == files[..n] + [PackFile(paths[n], files[n].contents)];
    }
  }
}
