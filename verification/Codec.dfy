/**
 The safety and integrity logic both archive codecs share: the vetting loop with its
 per-entry and aggregate caps, and the seal/verify pair. The pack codec and the tree codec
 hold the same code over different default caps and envelope names, so both are this module
 at their own constants.
 */
module Codec {
  import opened Basics
  import opened ArchivePaths

  datatype Kind = File | Dir | Symlink

  /** One enumerated entry, read without inflating it; `path` is the raw stored name. */
  datatype EntryMeta = EntryMeta(path: string, uncompressedSize: nat, compressedSize: nat, kind: Kind)

  /** What a caller overrides; a field left out takes the codec's default. */
  datatype Limits = Limits(
    maxEntries: Option<int>,
    maxTotalUncompressedBytes: Option<int>,
    maxEntryBytes: Option<int>,
    maxCompressionRatio: Option<real>,
    maxDepth: Option<int>)

  datatype Caps = Caps(maxEntries: int, maxTotalUncompressedBytes: int, maxEntryBytes: int, maxCompressionRatio: real, maxDepth: int)

  const PACK_DEFAULTS := Caps(4096, 32 * 1024 * 1024, 8 * 1024 * 1024, 100.0, 16)

  const TREE_DEFAULTS := Caps(20000, 64 * 1024 * 1024, 8 * 1024 * 1024, 100.0, 24)

  const NO_LIMITS := Limits(None, None, None, None, None)

  function Or<T>(o: Option<T>, otherwise: T): T {
    match o
    case Some(v) => v
    case None => otherwise
  }

  function ResolveCaps(limits: Limits, defaults: Caps): Caps {
    Caps(
      Or(limits.maxEntries, defaults.maxEntries),
      Or(limits.maxTotalUncompressedBytes, defaults.maxTotalUncompressedBytes),
      Or(limits.maxEntryBytes, defaults.maxEntryBytes),
      Or(limits.maxCompressionRatio, defaults.maxCompressionRatio),
      Or(limits.maxDepth, defaults.maxDepth))
  }

  /** The approved normalised paths and their inflated total. */
  datatype Plan = Plan(paths: seq<string>, totalUncompressedBytes: nat)

  /** inflated:compressed beyond the cap; an entry inflating out of nothing has an infinite ratio. */
  predicate RatioExceeds(e: EntryMeta, cap: real) {
    if e.compressedSize > 0
    then e.uncompressedSize as real / e.compressedSize as real > cap
    else e.uncompressedSize > 0 || 0.0 > cap
  }

  lemma QuotientExceeds(x: real, y: real, cap: real)
    requires y > 0.0
    ensures x / y > cap <==> x > cap * y
  {
    assert (x / y) * y == x;
    if x / y > cap { assert (x / y - cap) * y > 0.0; }
    if x / y <= cap { assert (cap - x / y) * y >= 0.0; }
  }

  /** An entry exceeds a ratio when it inflates to more than that many times its stored size; to anything, out of nothing. */
  lemma RatioExceedsIff(e: EntryMeta, cap: real)
    ensures RatioExceeds(e, cap)
       <==> if e.compressedSize > 0 then e.uncompressedSize as real > cap * e.compressedSize as real else e.uncompressedSize > 0 || cap < 0.0
  {
    if e.compressedSize > 0 { QuotientExceeds(e.uncompressedSize as real, e.compressedSize as real, cap); }
  }

  // --- what acceptance means, entry by entry ---------------------------------

  /** A directory marker needs only a safe name; a file must also fit every per-entry cap. */
  predicate EntryFits(e: EntryMeta, caps: Caps) {
    && e.kind != Symlink
    && !StructurallyUnsafe(e.path)
    && (e.kind == File ==>
          && Depth(Normalize(e.path)) <= caps.maxDepth
          && e.uncompressedSize <= caps.maxEntryBytes
          && !RatioExceeds(e, caps.maxCompressionRatio))
  }

  function FilesOf(entries: seq<EntryMeta>): (files: seq<EntryMeta>)
  {
    if entries == [] then []
    else
      var last := entries[|entries| - 1];
      FilesOf(entries[..|entries| - 1]) + (if last.kind == File then [last] else [])
  }

  function PathsOf(files: seq<EntryMeta>): (paths: seq<string>)
    ensures |paths| == |files|
    ensures forall i | 0 <= i < |files| :: paths[i] == Normalize(files[i].path)
  {
    seq(|files|, i requires 0 <= i < |files| => Normalize(files[i].path))
  }

  function BytesOf(entries: seq<EntryMeta>): nat {
    if entries == [] then 0
    else
      var last := entries[|entries| - 1];
      BytesOf(entries[..|entries| - 1]) + (if last.kind == File then last.uncompressedSize else 0)
  }

  predicate Acceptable(entries: seq<EntryMeta>, caps: Caps) {
    && (forall e | e in entries :: EntryFits(e, caps))
    && |FilesOf(entries)| <= caps.maxEntries
    && BytesOf(entries) <= caps.maxTotalUncompressedBytes
  }

  function Planned(entries: seq<EntryMeta>, caps: Caps): Option<Plan> {
    if Acceptable(entries, caps) then Some(Plan(PathsOf(FilesOf(entries)), BytesOf(entries))) else None
  }

  lemma {:induction false} FilesAreListed(entries: seq<EntryMeta>)
    ensures forall e :: e in FilesOf(entries) <==> e in entries && e.kind == File
  {
    if entries != [] {
      var front, last := entries[..|entries| - 1], entries[|entries| - 1];
      FilesAreListed(front);
      assert entries == front + [last];
    }
  }

  /** A structurally safe raw name never escapes once normalised: the second check of the loop cannot fire. */
  lemma SafeNamesDoNotEscape(p: string)
    requires !StructurallyUnsafe(p)
    ensures !Escapes(Normalize(p))
  {
    LeadingSlash(Normalize(p));
    SegmentsOfNormal(p);
    KeptOnly(Split(p));
  }

  lemma OneMoreEntry(entries: seq<EntryMeta>, i: nat)
    requires i < |entries|
    ensures FilesOf(entries[..i + 1]) == FilesOf(entries[..i]) + (if entries[i].kind == File then [entries[i]] else [])
    ensures BytesOf(entries[..i + 1]) == BytesOf(entries[..i]) + (if entries[i].kind == File then entries[i].uncompressedSize else 0)
  {
    assert entries[..i + 1][..i] == entries[..i];
  }

  lemma PathsSnoc(files: seq<EntryMeta>, e: EntryMeta)
    ensures PathsOf(files + [e]) == PathsOf(files) + [Normalize(e.path)]
  {
  }

  /** The checks of one turn of the vetting loop, in the order the loop makes them. */
  method VetEntry(entry: EntryMeta, caps: Caps) returns (ok: bool)
    ensures ok <==> EntryFits(entry, caps)
  {
    if entry.kind == Symlink || StructurallyUnsafe(entry.path) {
      return false;
    }
    if entry.kind == Dir {
      return true;
    }
    var normalized := Normalize(entry.path);
    SafeNamesDoNotEscape(entry.path);
    if Escapes(normalized) || Depth(normalized) > caps.maxDepth {
      return false;
    }
    return entry.uncompressedSize <= caps.maxEntryBytes && !RatioExceeds(entry, caps.maxCompressionRatio);
  }

  /**
   `planExtraction` / `planTreeExtraction`: one pass, refusing on the first unsafe entry, the
   aggregate caps judged after it. None is the thrown refusal.
   */
  method PlanExtraction(entries: seq<EntryMeta>, limits: Limits, defaults: Caps) returns (plan: Option<Plan>)
    ensures plan == Planned(entries, ResolveCaps(limits, defaults))
  {
    var caps := ResolveCaps(limits, defaults);
    var approved: seq<string> := [];
    var total: nat := 0;
    for i := 0 to |entries|
      invariant forall e | e in entries[..i] :: EntryFits(e, caps)
      invariant approved == PathsOf(FilesOf(entries[..i]))
      invariant total == BytesOf(entries[..i])
    {
      var entry := entries[i];
      assert entry in entries;
      OneMoreEntry(entries, i);
      PathsSnoc(FilesOf(entries[..i]), entry);
      var ok := VetEntry(entry, caps);
      if !ok {
        return None;
      }
      if entry.kind == File {
        approved := approved + [Normalize(entry.path)];
        total := total + entry.uncompressedSize;
      }
    }
    assert entries[..|entries|] == entries;
    if |approved| > caps.maxEntries || total > caps.maxTotalUncompressedBytes {
      return None;
    }
    return Some(Plan(approved, total));
  }

  ghost predicate NoTighter(a: Caps, b: Caps) {
    && a.maxEntries <= b.maxEntries
    && a.maxTotalUncompressedBytes <= b.maxTotalUncompressedBytes
    && a.maxEntryBytes <= b.maxEntryBytes
    && a.maxCompressionRatio <= b.maxCompressionRatio
    && a.maxDepth <= b.maxDepth
  }

  /** Raising any cap never rejects an accepted archive and never changes its plan. */
  lemma RaisingCapsKeepsThePlan(entries: seq<EntryMeta>, a: Caps, b: Caps)
    requires NoTighter(a, b)
    requires Planned(entries, a).Some?
    ensures Planned(entries, b) == Planned(entries, a)
  {
    forall e | e in entries ensures EntryFits(e, b) {
      assert EntryFits(e, a);
    }
  }

  /** One symlink anywhere in the listing refuses the whole archive, whatever the caps. */
  lemma SymlinkRefusesTheArchive(entries: seq<EntryMeta>, caps: Caps, e: EntryMeta)
    requires e in entries && e.kind == Symlink
    ensures Planned(entries, caps) == None
  {
    assert !EntryFits(e, caps);
  }

  /** One entry of a forbidden name, link, file or folder marker, refuses the whole archive, whatever the caps. */
  lemma ForbiddenNameRefusesTheArchive(entries: seq<EntryMeta>, caps: Caps, e: EntryMeta)
    requires e in entries && Forbidden(e.path)
    ensures Planned(entries, caps) == None
  {
    UnsafeIsForbidden(e.path);
    assert !EntryFits(e, caps);
  }

  /** What each codec accepts without overrides, in figures. */
  lemma DefaultsInFigures(entries: seq<EntryMeta>, tree: bool)
    ensures
      Planned(entries, ResolveCaps(NO_LIMITS, if tree then TREE_DEFAULTS else PACK_DEFAULTS)).Some?
      <==> && (forall e | e in entries ::
                && e.kind != Symlink && !Forbidden(e.path)
                && (e.kind == File ==>
                      && Depth(Normalize(e.path)) <= (if tree then 24 else 16)
                      && e.uncompressedSize <= 8388608
                      && (e.compressedSize == 0 ==> e.uncompressedSize == 0)
                      && (e.compressedSize > 0 ==> e.uncompressedSize as real / e.compressedSize as real <= 100.0)))
           && |FilesOf(entries)| <= (if tree then 20000 else 4096)
           && BytesOf(entries) <= (if tree then 67108864 else 33554432)
  {
    forall e | e in entries ensures !StructurallyUnsafe(e.path) <==> !Forbidden(e.path) {
      UnsafeIsForbidden(e.path);
    }
  }

  // --- integrity ---------------------------------------------------------------

  /** sha256 as an injective function: a digest is the very thing it was taken over. */
  datatype Digest = OfBytes(bytes: Bytes) | OfEntries(entries: map<string, Digest>)

  /** One file of a pack or tree: its archive path and bytes. */
  datatype PackFile = PackFile(path: string, contents: Bytes)

  function EntryDigests(files: seq<PackFile>, envelope: string): map<string, Digest> {
    if files == [] then map[]
    else
      var last := files[|files| - 1];
      var before := EntryDigests(files[..|files| - 1], envelope);
      if last.path == envelope then before else before[last.path := OfBytes(last.contents)]
  }

  /** The hashing loop of `sealIntegrity` / `sealTreeIntegrity`. */
  method SealEntries(files: seq<PackFile>, envelope: string) returns (entryDigests: map<string, Digest>, digest: Digest)
    ensures entryDigests == EntryDigests(files, envelope)
    ensures digest == OfEntries(entryDigests)
  {
    entryDigests := map[];
    for i := 0 to |files|
      invariant entryDigests == EntryDigests(files[..i], envelope)
    {
      assert files[..i + 1][..i] == files[..i];
      if files[i].path == envelope {
        continue;
      }
      entryDigests := entryDigests[files[i].path := OfBytes(files[i].contents)];
    }
    assert files[..|files|] == files;
    digest := OfEntries(entryDigests);
  }

  /** What `verifyIntegrity` answers: true, false when no digests are carried, or the thrown mismatch. */
  datatype Verdict = Verified | NothingCarried | Mismatch

  predicate MatchesDigests(files: seq<PackFile>, digests: map<string, Digest>, envelope: string) {
    forall f | f in files && f.path != envelope :: f.path in digests && digests[f.path] == OfBytes(f.contents)
  }

  /** `verifyIntegrity` / `verifyTreeIntegrity`: walks the files, never the digests. */
  method VerifyIntegrity(entryDigests: Option<map<string, Digest>>, files: seq<PackFile>, envelope: string)
    returns (verdict: Verdict)
    ensures verdict == NothingCarried <==> entryDigests == None
    ensures verdict == Verified <==> entryDigests.Some? && MatchesDigests(files, entryDigests.value, envelope)
  {
    if entryDigests == None {
      return NothingCarried;
    }
    var digests := entryDigests.value;
    for i := 0 to |files|
      invariant MatchesDigests(files[..i], digests, envelope)
    {
      var file := files[i];
      if file.path == envelope {
        continue;
      }
      if !(file.path in digests && OfBytes(file.contents) == digests[file.path]) {
        assert file in files;
        return Mismatch;
      }
    }
    assert files[..|files|] == files;
    return Verified;
  }

  /** No two of these files share a path with different bytes. */
  ghost predicate Consistent(files: seq<PackFile>, envelope: string) {
    forall f, g | f in files && g in files && f.path == g.path && f.path != envelope :: f.contents == g.contents
  }

  lemma {:induction false} SealedPaths(files: seq<PackFile>, envelope: string)
    ensures forall p :: p in EntryDigests(files, envelope) <==> p != envelope && exists f | f in files :: f.path == p
    ensures forall p | p in EntryDigests(files, envelope) ::
              exists f | f in files :: f.path == p && EntryDigests(files, envelope)[p] == OfBytes(f.contents)
  {
    if files != [] {
      var front, last := files[..|files| - 1], files[|files| - 1];
      SealedPaths(front, envelope);
      assert files == front + [last];
      assert last in files;
    }
  }

  /**
   What a seal promises a later verify, both ways: a set of files verifies against a seal exactly
   when every one of them is, byte for byte, what the seal recorded under its path. Files missing
   from the set are never noticed, and a set verifies against its own seal exactly when no path
   in it carries two contents.
   */
  lemma VerifiesExactlyTheSealed(sealed: seq<PackFile>, files: seq<PackFile>, envelope: string)
    requires Consistent(sealed, envelope)
    ensures MatchesDigests(files, EntryDigests(sealed, envelope), envelope)
       <==> forall f | f in files && f.path != envelope :: f in sealed
  {
    SealedPaths(sealed, envelope);
    var digests := EntryDigests(sealed, envelope);
    forall f | f in files && f.path != envelope
      ensures (f.path in digests && digests[f.path] == OfBytes(f.contents)) <==> f in sealed
    {
      if f.path in digests {
        var g :| g in sealed && g.path == f.path && digests[f.path] == OfBytes(g.contents);
        if digests[f.path] == OfBytes(f.contents) { assert f == g; }
      }
    }
  }

  lemma OwnSealVerifies(files: seq<PackFile>, envelope: string)
    ensures MatchesDigests(files, EntryDigests(files, envelope), envelope) <==> Consistent(files, envelope)
  {
    if Consistent(files, envelope) { VerifiesExactlyTheSealed(files, files, envelope); }
  }
}
