/**
 The two envelopes: serialised to a YAML mapping without their absent fields, and validated
 field by field when read back. A YAML document is a value; `Text` is any lossless way of
 putting one into bytes.
 */
module Manifests {
  import opened Basics
  import opened Codec

  /** A mapping key: a field an envelope knows, or the archive path a digest map is keyed by. */
  datatype Key =
    | FormatVersion | ProjectName | Roots | StateIdKey | WaironVersion | MinWaironVersion | IncludesDerived
    | DigestKey | EntryDigestsKey | GeneratedBy | GeneratedAt | Name | Version | KindKey | Entry
    | Path(p: string)

  /** A YAML value; `Hash` is a string holding a sha256 in hex. */
  datatype Yaml =
    | Null
    | Str(s: string)
    | Hash(d: Digest)
    | Num(n: real)
    | Flag(b: bool)
    | List(items: seq<Yaml>)
    | Mapping(fields: map<Key, Yaml>)

  /** yamlDump + TextEncoder, and TextDecoder + yamlLoad (None is a thrown parse error). */
  datatype Text = Text(dump: Yaml -> Bytes, load: Bytes -> Option<Yaml>)
  {
    ghost predicate Lossless() {
      forall y :: load(dump(y)) == Some(y)
    }
  }

  type Fields = map<Key, Yaml>

  /** What is left of an envelope once the fields it does not set are dropped. */
  function Present(keys: set<Key>, value: Key -> Option<Yaml>): Fields {
    map k | k in keys && value(k).Some? :: value(k).value
  }

  function StrField(o: Option<string>): Option<Yaml> {
    match o
    case Some(s) => Some(Str(s))
    case None => None
  }

  function TextAt(fields: Fields, key: Key): Option<string> {
    if key in fields && fields[key].Str? then Some(fields[key].s) else None
  }

  function HashAt(fields: Fields, key: Key): Option<Digest> {
    if key in fields && fields[key].Hash? then Some(fields[key].d) else None
  }

  function FlagAt(fields: Fields, key: Key): Option<bool> {
    if key in fields && fields[key].Flag? then Some(fields[key].b) else None
  }

  function DigestFields(digests: map<string, Digest>): Yaml {
    Mapping(map p | p in digests :: Path(p) := Hash(digests[p]))
  }

  function PathKeys(m: Fields): (paths: set<string>)
    ensures forall p :: p in paths <==> Path(p) in m
  {
    var paths := set k | k in m && k.Path? :: k.p;
    assert forall p | Path(p) in m :: Path(p).p in paths;
    paths
  }

  /** A truthy object is taken as the digest map whatever it holds; a value that is no digest never matches one. */
  function DigestsAt(fields: Fields, key: Key): Option<map<string, Digest>> {
    if key !in fields then None
    else
      match fields[key]
      case Mapping(m) => Some(map p | p in PathKeys(m) && m[Path(p)].Hash? :: m[Path(p)].d)
      case List(_) => Some(map[])
      case _ => None
  }

  function FlagField(o: Option<bool>): Option<Yaml> {
    match o
    case Some(b) => Some(Flag(b))
    case None => None
  }

  function HashField(o: Option<Digest>): Option<Yaml> {
    match o
    case Some(d) => Some(Hash(d))
    case None => None
  }

  function DigestsField(o: Option<map<string, Digest>>): Option<Yaml> {
    match o
    case Some(ds) => Some(DigestFields(ds))
    case None => None
  }

  lemma DigestsReadBack(fields: Fields, key: Key, digests: map<string, Digest>)
    requires key in fields && fields[key] == DigestFields(digests)
    ensures DigestsAt(fields, key) == Some(digests)
  {
    var m := fields[key].fields;
    var read := map p | p in PathKeys(m) && m[Path(p)].Hash? :: m[Path(p)].d;
    assert forall p :: p in read <==> p in digests;
    assert read == digests;
  }

  /** JavaScript's Math.trunc */
  function Trunc(r: real): int {
    if r >= 0.0 then r.Floor else -((-r).Floor)
  }

  /** The highest archive format major either codec reads. */
  const SUPPORTED_FORMAT := 1

  // --- the tree envelope ---------------------------------------------------------------------

  datatype TreeManifest = TreeManifest(
    formatVersion: real, projectName: string, roots: seq<string>,
    stateId: Option<string>, waironVersion: Option<string>, minWaironVersion: Option<string>,
    includesDerived: Option<bool>, digest: Option<Digest>, entryDigests: Option<map<string, Digest>>,
    generatedBy: Option<string>, generatedAt: Option<string>)

  const TREE_KEYS: set<Key> := {
    FormatVersion, ProjectName, Roots, StateIdKey, WaironVersion, MinWaironVersion,
    IncludesDerived, DigestKey, EntryDigestsKey, GeneratedBy, GeneratedAt}

  function TreeField(m: TreeManifest, k: Key): Option<Yaml> {
    match k
    case FormatVersion => Some(Num(m.formatVersion))
    case ProjectName => Some(Str(m.projectName))
    case Roots => Some(List(Strings(m.roots)))
    case StateIdKey => StrField(m.stateId)
    case WaironVersion => StrField(m.waironVersion)
    case MinWaironVersion => StrField(m.minWaironVersion)
    case IncludesDerived => FlagField(m.includesDerived)
    case DigestKey => HashField(m.digest)
    case EntryDigestsKey => DigestsField(m.entryDigests)
    case GeneratedBy => StrField(m.generatedBy)
    case GeneratedAt => StrField(m.generatedAt)
    case _ => None
  }

  function TreeFields(m: TreeManifest): Fields {
    Present(TREE_KEYS, k => TreeField(m, k))
  }

  function Strings(ss: seq<string>): (ys: seq<Yaml>)
    ensures |ys| == |ss| && forall i | 0 <= i < |ss| :: ys[i] == Str(ss[i])
  {
    seq(|ss|, i requires 0 <= i < |ss| => Str(ss[i]))
  }

  /** `serializeTreeManifest` */
  function SerializeTree(m: TreeManifest, text: Text): Bytes {
    text.dump(Mapping(TreeFields(m)))
  }

  /** The roots of an envelope: a non-empty list of non-empty strings, or a refusal. */
  function RootsAt(fields: Fields): Option<seq<string>> {
    if Roots in fields && fields[Roots].List? && fields[Roots].items != []
       && forall y | y in fields[Roots].items :: y.Str? && y.s != ""
    then
      var items := fields[Roots].items;
      Some(seq(|items|, i requires 0 <= i < |items| => assert items[i] in items; items[i].s))
    else None
  }

  /** `parseTreeManifest`: None is any refusal, a newer format major among them. */
  function ParseTree(bytes: Bytes, text: Text): Option<TreeManifest> {
    match text.load(bytes)
    case Some(Mapping(f)) =>
      if FormatVersion in f && f[FormatVersion].Num? && Trunc(f[FormatVersion].n) <= SUPPORTED_FORMAT
         && TextAt(f, ProjectName).Some? && TextAt(f, ProjectName).value != "" && RootsAt(f).Some?
      then Some(TreeManifest(
        f[FormatVersion].n, TextAt(f, ProjectName).value, RootsAt(f).value,
        TextAt(f, StateIdKey), TextAt(f, WaironVersion), TextAt(f, MinWaironVersion),
        FlagAt(f, IncludesDerived), HashAt(f, DigestKey), DigestsAt(f, EntryDigestsKey),
        TextAt(f, GeneratedBy), TextAt(f, GeneratedAt)))
      else None
    case _ => None
  }

  predicate ReadableTree(m: TreeManifest) {
    Trunc(m.formatVersion) <= SUPPORTED_FORMAT && m.projectName != "" && m.roots != [] && "" !in m.roots
  }

  lemma RootsReadBack(f: Fields, roots: seq<string>)
    requires Roots in f && f[Roots] == List(Strings(roots))
    ensures RootsAt(f) == if roots != [] && "" !in roots then Some(roots) else None
  {
    var items := f[Roots].items;
    if roots == [] {
    } else if "" in roots {
      var i :| 0 <= i < |roots| && roots[i] == "";
      assert items[i] in items && items[i].s == "";
    } else {
      forall y | y in items ensures y.Str? && y.s != "" {
        var i :| 0 <= i < |items| && items[i] == y;
        assert y.s == roots[i] && roots[i] in roots;
      }
      assert RootsAt(f).value == roots;
    }
  }

  lemma TreeFieldsReadBack(m: TreeManifest, f: Fields)
    requires f == TreeFields(m)
    ensures TextAt(f, ProjectName) == Some(m.projectName)
    ensures TextAt(f, StateIdKey) == m.stateId && TextAt(f, WaironVersion) == m.waironVersion
    ensures TextAt(f, MinWaironVersion) == m.minWaironVersion && FlagAt(f, IncludesDerived) == m.includesDerived
    ensures HashAt(f, DigestKey) == m.digest && DigestsAt(f, EntryDigestsKey) == m.entryDigests
    ensures TextAt(f, GeneratedBy) == m.generatedBy && TextAt(f, GeneratedAt) == m.generatedAt
    ensures FormatVersion in f && f[FormatVersion] == Num(m.formatVersion)
    ensures Roots in f && f[Roots] == List(Strings(m.roots))
  {
    if m.entryDigests.Some? { DigestsReadBack(f, EntryDigestsKey, m.entryDigests.value); }
  }

  /** A tree envelope reads back as itself exactly when its required fields are filled and its major is known; else it is refused. */
  lemma TreeManifestRoundTrip(m: TreeManifest, text: Text)
    requires text.Lossless()
    ensures ParseTree(SerializeTree(m, text), text) == if ReadableTree(m) then Some(m) else None
  {
    var f := TreeFields(m);
    assert text.load(SerializeTree(m, text)) == Some(Mapping(f));
    TreeFieldsReadBack(m, f);
    RootsReadBack(f, m.roots);
  }

  // --- the pack envelope -----------------------------------------------------------------------

  datatype PackManifest = PackManifest(
    formatVersion: real, name: string, version: string, kind: string, entry: string,
    minWaironVersion: Option<string>, digest: Option<Digest>, entryDigests: Option<map<string, Digest>>,
    generatedBy: Option<string>, generatedAt: Option<string>)

  const PACK_KEYS: set<Key> := {
    FormatVersion, Name, Version, KindKey, Entry, MinWaironVersion, DigestKey, EntryDigestsKey, GeneratedBy, GeneratedAt}

  function PackField(m: PackManifest, k: Key): Option<Yaml> {
    match k
    case FormatVersion => Some(Num(m.formatVersion))
    case Name => Some(Str(m.name))
    case Version => Some(Str(m.version))
    case KindKey => Some(Str(m.kind))
    case Entry => Some(Str(m.entry))
    case MinWaironVersion => StrField(m.minWaironVersion)
    case DigestKey => HashField(m.digest)
    case EntryDigestsKey => DigestsField(m.entryDigests)
    case GeneratedBy => StrField(m.generatedBy)
    case GeneratedAt => StrField(m.generatedAt)
    case _ => None
  }

  function PackFields(m: PackManifest): Fields {
    Present(PACK_KEYS, k => PackField(m, k))
  }

  /** `serializeManifest` */
  function SerializePack(m: PackManifest, text: Text): Bytes {
    text.dump(Mapping(PackFields(m)))
  }

  predicate Filled(f: Fields, key: Key) {
    TextAt(f, key).Some? && TextAt(f, key).value != ""
  }

  /** `parseManifest` */
  function ParsePack(bytes: Bytes, text: Text): Option<PackManifest> {
    match text.load(bytes)
    case Some(Mapping(f)) =>
      if FormatVersion in f && f[FormatVersion].Num? && Trunc(f[FormatVersion].n) <= SUPPORTED_FORMAT
         && Filled(f, Name) && Filled(f, Version) && Filled(f, Entry)
         && TextAt(f, KindKey) in {Some("declarative"), Some("code")}
      then Some(PackManifest(
        f[FormatVersion].n, TextAt(f, Name).value, TextAt(f, Version).value, TextAt(f, KindKey).value, TextAt(f, Entry).value,
        TextAt(f, MinWaironVersion), HashAt(f, DigestKey), DigestsAt(f, EntryDigestsKey),
        TextAt(f, GeneratedBy), TextAt(f, GeneratedAt)))
      else None
    case _ => None
  }

  predicate ReadablePack(m: PackManifest) {
    && Trunc(m.formatVersion) <= SUPPORTED_FORMAT
    && m.name != "" && m.version != "" && m.entry != "" && m.kind in {"declarative", "code"}
  }

  lemma PackFieldsReadBack(m: PackManifest, f: Fields)
    requires f == PackFields(m)
    ensures FormatVersion in f && f[FormatVersion] == Num(m.formatVersion)
    ensures TextAt(f, Name) == Some(m.name) && TextAt(f, Version) == Some(m.version)
    ensures TextAt(f, KindKey) == Some(m.kind) && TextAt(f, Entry) == Some(m.entry)
    ensures TextAt(f, MinWaironVersion) == m.minWaironVersion
    ensures HashAt(f, DigestKey) == m.digest && DigestsAt(f, EntryDigestsKey) == m.entryDigests
    ensures TextAt(f, GeneratedBy) == m.generatedBy && TextAt(f, GeneratedAt) == m.generatedAt
  {
    if m.entryDigests.Some? { DigestsReadBack(f, EntryDigestsKey, m.entryDigests.value); }
  }

  lemma PackManifestRoundTrip(m: PackManifest, text: Text)
    requires text.Lossless()
    ensures ParsePack(SerializePack(m, text), text) == if ReadablePack(m) then Some(m) else None
  {
    var f := PackFields(m);
    assert text.load(SerializePack(m, text)) == Some(Mapping(f));
    PackFieldsReadBack(m, f);
  }

  /** Whatever the parser accepts is readable, so sealing it cannot make it unreadable. */
  lemma ParsedPackIsReadable(bytes: Bytes, text: Text)
    ensures ParsePack(bytes, text).Some? ==> ReadablePack(ParsePack(bytes, text).value)
  {
  }
}
