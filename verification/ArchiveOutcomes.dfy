/**
 What the archive code's tests and envelopes say, character by character and field by field: the reference
 the build and extract workflows are held against.
 */
module ArchiveOutcomes {
  import opened Basics
  import opened ArchivePaths
  import opened Codec
  import opened Container
  import opened Manifests
  import opened Orchestrator
  import opened RoundTrips

  // --- names ---------------------------------------------------------------------------------------

  lemma {:induction false} FirstSegmentIs(path: string, seg: string)
    requires '/' !in seg
    ensures Split(path)[0] == seg <==> path == seg || (|seg| < |path| && path[..|seg|] == seg && path[|seg|] == '/')
  {
    var after, rest := FirstSegment(path);
    var first := Split(path)[0];
    assert first in Split(path);
    if after != "" { assert path[..|first|] == first && path[|first|] == '/'; }
    if |seg| < |path| && path[..|seg|] == seg && path[|seg|] == '/' {
      assert path == seg + "/" + path[|seg| + 1..];
      SplitOne(seg);
      SplitConcat(seg, path[|seg| + 1..]);
    }
    if path == seg { SplitOne(seg); }
  }

  /** What a portable archive leaves out unless asked: the folders `generated` and `docs` of a root, and nothing else. */
  lemma DerivedIff(path: string)
    ensures Derived(path) <==> || path == "generated" || (|path| > 9 && path[..9] == "generated" && path[9] == '/')
                               || path == "docs" || (|path| > 4 && path[..4] == "docs" && path[4] == '/')
  {
    NoSlashIn("generated", "docs");
    FirstSegmentIs(path, "generated");
    FirstSegmentIs(path, "docs");
  }

  lemma NoSlashIn(a: string, b: string)
    requires a == "generated" && b == "docs"
    ensures '/' !in a && '/' !in b && |a| == 9 && |b| == 4
  {
  }

  /** A script's name: it ends in .js, .cjs or .mjs, in letters of either case. */
  ghost predicate ScriptName(path: string) {
    var n := |path|;
    && n >= 3 && path[n - 2] in {'j', 'J'} && path[n - 1] in {'s', 'S'}
    && (path[n - 3] == '.' || (n >= 4 && path[n - 4] == '.' && path[n - 3] in {'c', 'C', 'm', 'M'}))
  }

  lemma EndsWith3(path: string, suffix: string)
    requires |suffix| == 3
    ensures EndsWithFold(path, suffix)
       <==> && |path| >= 3
            && Lower(path[|path| - 3]) == suffix[0] && Lower(path[|path| - 2]) == suffix[1] && Lower(path[|path| - 1]) == suffix[2]
  {
    if EndsWithFold(path, suffix) { assert Lower(path[|path| - 3 + 0]) == suffix[0] && Lower(path[|path| - 3 + 1]) == suffix[1]; }
  }

  lemma EndsWith4(path: string, suffix: string)
    requires |suffix| == 4
    ensures EndsWithFold(path, suffix)
       <==> && |path| >= 4 && Lower(path[|path| - 4]) == suffix[0] && Lower(path[|path| - 3]) == suffix[1]
            && Lower(path[|path| - 2]) == suffix[2] && Lower(path[|path| - 1]) == suffix[3]
  {
    if EndsWithFold(path, suffix) {
      assert Lower(path[|path| - 4 + 0]) == suffix[0] && Lower(path[|path| - 4 + 1]) == suffix[1] && Lower(path[|path| - 4 + 2]) == suffix[2];
    }
  }

  lemma ExecutableIff(path: string)
    ensures Executable(path) <==> ScriptName(path)
  {
    EndsWith3(path, ".js");
    EndsWith4(path, ".cjs");
    EndsWith4(path, ".mjs");
  }

  /** A path lies in a spec tree when a ".wai" stands in it between slashes with a slash after it. */
  lemma UnderWaiRootIff(path: string)
    ensures UnderWaiRoot(path) <==> exists front, back :: Between(path, front, ".wai", back) && back != ""
  {
    var w := ".wai";
    WaiIsOneSegment(w);
    if UnderWaiRoot(path) {
      var at := IndexIn(Split(path), w);
      var front, back := SegmentWithMore(path, w, at);
    }
    if exists front, back :: Between(path, front, ".wai", back) && back != "" {
      var front, back :| Between(path, front, w, back) && back != "";
      SegmentsAround(path, front, w, back);
    }
  }

  /** A segment that is not the last has a slash after it. */
  lemma {:induction false} SegmentWithMore(p: string, seg: string, at: nat) returns (front: string, back: string)
    requires at < |Split(p)| - 1 && Split(p)[at] == seg
    ensures Between(p, front, seg, back) && back != ""
    decreases |p|
  {
    var after, rest := FirstSegment(p);
    var first := Split(p)[0];
    if at == 0 {
      front, back := "", after;
    } else {
      assert Split(p) == [first] + Split(rest);
      var f, b := SegmentWithMore(rest, seg, at - 1);
      front, back := first + "/" + f, b;
    }
  }

  lemma SegmentsAround(p: string, front: string, seg: string, back: string)
    requires Between(p, front, seg, back) && back != "" && '/' !in seg
    ensures exists i :: 0 <= i < |Split(p)| - 1 && Split(p)[i] == seg
  {
    var tail := seg + "/" + back[1..];
    assert seg + back == tail;
    SplitOne(seg);
    SplitConcat(seg, back[1..]);
    if front == "" {
      assert p == tail;
      assert Split(p)[0] == seg && |Split(p)| >= 2;
    } else {
      var f := front[..|front| - 1];
      assert p == f + "/" + tail;
      SplitConcat(f, tail);
      assert Split(p)[|Split(f)|] == seg;
    }
  }

  /** Between two slashes, dots and all: what the portability guard lets a planned path be. */
  lemma PortablePathIff(path: string, envelope: string)
    ensures PortablePath(path, envelope)
       <==> !ScriptName(path) && (path == envelope || exists front, back :: Between(path, front, ".wai", back) && back != "")
  {
    ExecutableIff(path);
    UnderWaiRootIff(path);
  }

  /** How deep a name is: its segments with something in them, one for each character that starts one. */
  function Starts(p: string): nat {
    if p == "" then 0
    else Starts(p[..|p| - 1]) + (if p[|p| - 1] != '/' && (|p| == 1 || p[|p| - 2] == '/') then 1 else 0)
  }

  lemma {:induction false} NonEmptyConcat(a: seq<string>, b: seq<string>)
    ensures NonEmpty(a + b) == NonEmpty(a) + NonEmpty(b)
  {
    if a == [] {
      assert a + b == b;
    } else {
      NonEmptyConcat(a[1..], b);
      assert (a + b)[1..] == a[1..] + b;
    }
  }

  lemma {:induction false} DepthIsStarts(p: string)
    ensures Depth(p) == Starts(p)
  {
    if p != "" {
      var front, last := p[..|p| - 1], p[|p| - 1];
      DepthIsStarts(front);
      if last == '/' {
        assert p == front + "/" + "";
        SplitConcat(front, "");
        NonEmptyConcat(Split(front), [""]);
        assert NonEmpty([""]) == NonEmpty([""][1..]);
      } else {
        LastSegmentGrows(front, last);
        var segs := Split(front);
        var before, seg := segs[..|segs| - 1], segs[|segs| - 1];
        assert p == front + [last] && segs == before + [seg];
        NonEmptyConcat(before, [seg]);
        NonEmptyConcat(before, [seg + [last]]);
        OneSegment(seg);
        OneSegment(seg + [last]);
        LastSegmentIsEmpty(front);
      }
    }
  }

  lemma OneSegment(seg: string)
    ensures NonEmpty([seg]) == if seg != "" then 1 else 0
  {
    assert [seg][1..] == [];
  }

  /** A split name with one more character on its last segment. */
  function Grown(segs: seq<string>, c: char): seq<string>
    requires segs != []
  {
    segs[..|segs| - 1] + [segs[|segs| - 1] + [c]]
  }

  lemma PrependGrows(first: char, segs: seq<string>, c: char)
    requires segs != []
    ensures Prepend(first, Grown(segs, c)) == Grown(Prepend(first, segs), c)
  {
    if first != '/' && |segs| == 1 {
      assert [first] + (segs[0] + [c]) == ([first] + segs[0]) + [c];
    }
  }

  lemma {:induction false} LastSegmentGrows(p: string, c: char)
    requires c != '/'
    ensures Split(p + [c]) == Grown(Split(p), c)
  {
    var q := p + [c];
    if p == "" {
      assert q == [c];
      SplitOne(q);
      assert Split(p) == [""];
    } else {
      LastSegmentGrows(p[1..], c);
      assert q[0] == p[0] && q[1..] == p[1..] + [c];
      PrependGrows(p[0], Split(p[1..]), c);
    }
  }

  lemma {:induction false} LastSegmentIsEmpty(p: string)
    ensures Split(p)[|Split(p)| - 1] == "" <==> p == "" || p[|p| - 1] == '/'
  {
    if p != "" {
      var front, last := p[..|p| - 1], p[|p| - 1];
      assert p == front + [last];
      if last == '/' {
        assert p == front + "/" + "";
        SplitConcat(front, "");
      } else {
        LastSegmentGrows(front, last);
      }
    }
  }

  /** A stored name's kind: a link where the directory scan says so, a folder marker where it ends in a slash, else a file. */
  lemma KindIff(name: string, links: set<string>)
    ensures KindOf(name, links) == Symlink <==> name in links
    ensures KindOf(name, links) == Dir <==> name !in links && name != "" && name[|name| - 1] == '/'
  {
  }

  // --- roots ---------------------------------------------------------------------------------------

  /** Slashes and nothing else. */
  predicate AllSlashes(s: string) {
    forall i | 0 <= i < |s| :: s[i] == '/'
  }

  lemma {:induction false} StripsAll(p: string) returns (slashes: string)
    ensures p == StripTrailingSlashes(p) + slashes && AllSlashes(slashes) && !EndsWithSlash(StripTrailingSlashes(p))
  {
    if EndsWithSlash(p) {
      var rest := StripsAll(p[..|p| - 1]);
      slashes := rest + "/";
      assert p == p[..|p| - 1] + "/";
    } else {
      slashes := "";
    }
  }

  /** A root as it is packed: what it was with at most one "./" before it and all slashes after it gone, and "." for nothing. */
  lemma NormalizedRootIs(p: string) returns (root: string, slashes: string)
    ensures !EndsWithSlash(root) && AllSlashes(slashes)
    ensures p == (if |p| >= 2 && p[0] == '.' && p[1] == '/' then "./" else "") + root + slashes
    ensures NormalizeRoot(p) == if root == "" then "." else root
  {
    var rest := if "./" <= p then p[2..] else p;
    slashes := StripsAll(rest);
    root := StripTrailingSlashes(rest);
    if "./" <= p { assert p == "./" + rest; }
  }

  // --- the envelopes --------------------------------------------------------------------------------

  /** Which files a seal covers: every one but the envelope, each under its path. */
  ghost predicate Seals(digests: map<string, Digest>, files: seq<PackFile>, envelope: string) {
    && (forall p :: p in digests <==> p != envelope && exists f | f in files :: f.path == p)
    && (forall p | p in digests :: exists f | f in files :: f.path == p && digests[p] == OfBytes(f.contents))
  }

  /** Field by field, the envelope a tree build seals. */
  lemma TreeEnvelopeSays(req: TreeRequest, stamp: Stamp, text: Text, compress: Bytes -> nat, tree: Profile)
    requires TreeBuilt(req, stamp, text, compress, tree).Some?
    ensures
      var m := TreeBuilt(req, stamp, text, compress, tree).value.manifest;
      && m.formatVersion == 1.0 && m.projectName == req.projectName && m.stateId == req.stateId
      && m.includesDerived == Some(req.includeDerived) && m.waironVersion == Some(stamp.sdkVersion) && m.minWaironVersion == None
      && m.generatedBy == Some("@wairon/sdk@" + stamp.sdkVersion) && m.generatedAt == Some(stamp.at)
      && |m.roots| == |req.roots| && (forall i | 0 <= i < |req.roots| :: m.roots[i] == NormalizeRoot(req.roots[i].relativePath))
      && m.entryDigests.Some? && Seals(m.entryDigests.value, req.Files(), tree.envelope) && m.digest == Some(OfEntries(m.entryDigests.value))
  {
    SealedPaths(req.Files(), tree.envelope);
  }

  /** Field by field, the envelope a pack build seals: what its own envelope says, the seal, and who sealed it when. */
  lemma PackEnvelopeSays(files: seq<PackFile>, stamp: Stamp, text: Text, json: Bytes -> Option<Yaml>, compress: Bytes -> nat, pack: Profile)
    requires PackBuilt(files, stamp, text, json, compress, pack).Some?
    ensures
      var m := PackBuilt(files, stamp, text, json, compress, pack).value.manifest;
      exists f | f in files ::
        && f.path == pack.envelope && ParsePack(f.contents, text).Some?
        && var own := ParsePack(f.contents, text).value;
        && m.formatVersion == own.formatVersion && m.name == own.name && m.version == own.version && m.kind == own.kind
        && m.entry == own.entry && m.minWaironVersion == own.minWaironVersion
        && m.generatedBy == Some("@wairon/sdk@" + stamp.sdkVersion) && m.generatedAt == Some(stamp.at)
        && m.entryDigests.Some? && Seals(m.entryDigests.value, files, pack.envelope) && m.digest == Some(OfEntries(m.entryDigests.value))
  {
    SealedPaths(files, pack.envelope);
    FindFileIsThere(files, pack.envelope);
  }

  /** A lookup answers the first file of that path, or that there is none. */
  lemma {:induction false} FindsTheFirst(files: seq<PackFile>, path: string)
    ensures FindFile(files, path) == None <==> forall f | f in files :: f.path != path
    ensures FindFile(files, path).Some? ==>
              exists i :: 0 <= i < |files| && files[i] == FindFile(files, path).value && files[i].path == path
                       && forall j | 0 <= j < i :: files[j].path != path
  {
    if files != [] && files[0].path != path {
      var rest := files[1..];
      FindsTheFirst(rest, path);
      assert forall f | f in files :: f == files[0] || f in rest;
      if FindFile(rest, path).Some? {
        var i :| 0 <= i < |rest| && rest[i] == FindFile(rest, path).value && rest[i].path == path && forall j | 0 <= j < i :: rest[j].path != path;
        assert files[i + 1] == rest[i];
        forall j | 0 <= j < i + 1 ensures files[j].path != path {
          if j > 0 { assert files[j] == rest[j - 1]; }
        }
      }
    }
  }

  /** When a pack build is refused: no readable envelope, or an inner manifest that is missing or gives another name or version. */
  lemma PackBuildIsRefusedIff(files: seq<PackFile>, stamp: Stamp, text: Text, json: Bytes -> Option<Yaml>, compress: Bytes -> nat, pack: Profile)
    ensures
      PackBuilt(files, stamp, text, json, compress, pack).Some?
      <==> && FindFile(files, pack.envelope).Some?
           && var own := ParsePack(FindFile(files, pack.envelope).value.contents, text);
           && own.Some?
           && var inner := FindFile(files, if own.value.kind == "code" then "package.json" else own.value.entry);
           && inner.Some?
           && var doc := if own.value.kind == "code" then json(inner.value.contents) else text.load(inner.value.contents);
           && doc.Some? && doc.value.Mapping?
           && Name in doc.value.fields && doc.value.fields[Name] == Str(own.value.name)
           && Version in doc.value.fields && doc.value.fields[Version] == Str(own.value.version)
  {
  }

  /** A document a tree envelope's parser takes, field by field, and what it makes of it. */
  lemma TreeEnvelopeIsTakenIff(bytes: Bytes, text: Text)
    ensures
      ParseTree(bytes, text).Some?
      <==> && text.load(bytes).Some? && text.load(bytes).value.Mapping?
           && var f := text.load(bytes).value.fields;
           && FormatVersion in f && f[FormatVersion].Num? && f[FormatVersion].n < 2.0
           && ProjectName in f && f[ProjectName].Str? && f[ProjectName].s != ""
           && Roots in f && f[Roots].List? && f[Roots].items != []
           && forall i | 0 <= i < |f[Roots].items| :: f[Roots].items[i].Str? && f[Roots].items[i].s != ""
  {
    if text.load(bytes).Some? && text.load(bytes).value.Mapping? {
      var f := text.load(bytes).value.fields;
      if FormatVersion in f && f[FormatVersion].Num? { TruncBelowTwo(f[FormatVersion].n); }
      if Roots in f && f[Roots].List? {
        var items := f[Roots].items;
        assert (forall y | y in items :: y.Str? && y.s != "") <==> forall i | 0 <= i < |items| :: items[i].Str? && items[i].s != "";
      }
    }
  }

  lemma TruncBelowTwo(n: real)
    ensures Trunc(n) <= 1 <==> n < 2.0
  {
  }

  /** And a pack envelope's. */
  lemma PackEnvelopeIsTakenIff(bytes: Bytes, text: Text)
    ensures
      ParsePack(bytes, text).Some?
      <==> && text.load(bytes).Some? && text.load(bytes).value.Mapping?
           && var f := text.load(bytes).value.fields;
           && FormatVersion in f && f[FormatVersion].Num? && f[FormatVersion].n < 2.0
           && Name in f && f[Name].Str? && f[Name].s != "" && Version in f && f[Version].Str? && f[Version].s != ""
           && Entry in f && f[Entry].Str? && f[Entry].s != ""
           && KindKey in f && (f[KindKey] == Str("declarative") || f[KindKey] == Str("code"))
  {
    if text.load(bytes).Some? && text.load(bytes).value.Mapping? {
      var f := text.load(bytes).value.fields;
      if FormatVersion in f && f[FormatVersion].Num? { TruncBelowTwo(f[FormatVersion].n); }
    }
  }
}
