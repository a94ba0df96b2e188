/**
 Pack registrations of one project as interleaved steps of any number of processes: `pack add` (a
 folder or an archive), `pack use` and `pack bundle` check and write holding the install lock;
 `pack unuse` and `pack remove` read the configuration and save it later without that lock. The lock
 is a mutex here; FileLock says when it is one.
 */
module PackRegistry {
  import opened Basics

  type Name = string

  type Pid = nat

  /** One entry of `extensions.packs`: a pack added by path into .wai/packs, or a selection by name. */
  datatype Entry = PathRef(ref: Name) | Selected(name: Name)

  /** One top-level entry of .wai/packs: the name its own manifest declares, and the bundled versions below it. */
  datatype Pack = Pack(direct: Option<Name>, versions: set<Name>)

  datatype Phase =
    | Idle
    | Adding(ref: Name, name: Name, archive: bool)
    | AddUnselected(ref: Name, name: Name, archive: bool)
    | AddClear(ref: Name, name: Name, archive: bool)
    | AddCopied(ref: Name, name: Name)
    | AddRead(ref: Name, name: Name, config: seq<Entry>)
    | Using(name: Name)
    | UseClear(name: Name)
    | UseRead(name: Name, config: seq<Entry>)
    | Bundling(name: Name, version: Name)
    | BundleClear(name: Name, version: Name)
    | Removing(entry: Entry, config: seq<Entry>)
    | Deleting(ref: Name)

  datatype State = State(config: seq<Entry>, folder: map<Name, Pack>, holder: Option<Pid>, procs: map<Pid, Phase>)

  datatype Act =
    | StartAdd(ref: Name, name: Name, archive: bool)
    | StartUse(name: Name)
    | StartBundle(name: Name, version: Name)
    | Check | Write | ReadConfig | SaveConfig
    | StartRemoval(entry: Entry) | SaveRemoval | Delete

  function At(s: State, p: Pid): Phase {
    if p in s.procs then s.procs[p] else Idle
  }

  function Put(s: State, p: Pid, ph: Phase): State {
    s.(procs := s.procs[p := ph])
  }

  /** The end of a locked section, by refusal or by success. */
  function Release(s: State, p: Pid): State {
    Put(s.(holder := None), p, Idle)
  }

  /** What a path reference loads as. */
  function Direct(folder: map<Name, Pack>, ref: Name): Option<Name> {
    if ref in folder then folder[ref].direct else None
  }

  /** What discovery lists an entry under: its own manifest's name, else its bundled versions' (the folder's). */
  function Discovered(folder: map<Name, Pack>, ref: Name): Option<Name> {
    if ref !in folder then None
    else if folder[ref].direct.Some? then folder[ref].direct
    else if folder[ref].versions != {} then Some(ref) else None
  }

  /** `findPackDeclaring`: some other entry of the folder already lists under this name. */
  predicate Declares(folder: map<Name, Pack>, name: Name, except: Name) {
    exists ref | ref in folder :: ref != except && Discovered(folder, ref) == Some(name)
  }

  /** `pathAddedPack`: by the name it declares, or its file or folder name; `stem` drops a manifest extension. */
  predicate PathAdded(config: seq<Entry>, folder: map<Name, Pack>, stem: Name -> Name, name: Name) {
    exists e | e in config :: e.PathRef? && (stem(e.ref) == name || Direct(folder, e.ref) == Some(name))
  }

  function Drop(config: seq<Entry>, entry: Entry): seq<Entry> {
    if config == [] then []
    else (if config[0] == entry then [] else [config[0]]) + Drop(config[1..], entry)
  }

  /** `withPack`, adding: a selection replaces its namesake and goes last, a path is appended when absent. */
  function With(config: seq<Entry>, entry: Entry): seq<Entry> {
    if entry.Selected? then Drop(config, entry) + [entry]
    else if entry in config then config else config + [entry]
  }

  /** The copy `pack add` makes: an archive replaces the entry, a folder is laid over what is there. */
  function Copied(folder: map<Name, Pack>, ref: Name, name: Name, archive: bool): map<Name, Pack> {
    folder[ref := Pack(Some(name), if archive || ref !in folder then {} else folder[ref].versions)]
  }

  function Bundled(folder: map<Name, Pack>, name: Name, version: Name): map<Name, Pack> {
    folder[name := Pack(Direct(folder, name), (if name in folder then folder[name].versions else {}) + {version})]
  }

  /** One step of one process; a step that does not fit its phase does nothing. */
  function Step(s: State, stem: Name -> Name, p: Pid, act: Act): State {
    match (act, At(s, p))
    case (StartAdd(ref, name, archive), Idle) => if s.holder.None? then Put(s.(holder := Some(p)), p, Adding(ref, name, archive)) else s
    case (StartUse(name), Idle) => if s.holder.None? then Put(s.(holder := Some(p)), p, Using(name)) else s
    case (StartBundle(name, version), Idle) => if s.holder.None? then Put(s.(holder := Some(p)), p, Bundling(name, version)) else s
    case (Check, Adding(ref, name, archive)) =>
      if Selected(name) in s.config || Selected(ref) in s.config then Release(s, p) else Put(s, p, AddUnselected(ref, name, archive))
    case (Check, AddUnselected(ref, name, archive)) =>
      if Declares(s.folder, name, ref) then Release(s, p) else Put(s, p, AddClear(ref, name, archive))
    case (Write, AddClear(ref, name, archive)) =>
      Put(s.(folder := Copied(s.folder, ref, name, archive)), p, AddCopied(ref, name))
    case (ReadConfig, AddCopied(ref, name)) => Put(s, p, AddRead(ref, name, s.config))
    case (SaveConfig, AddRead(ref, _, config)) =>
      Release(if PathRef(ref) in config then s else s.(config := With(config, PathRef(ref))), p)
    case (Check, Using(name)) =>
      if PathAdded(s.config, s.folder, stem, name) then Release(s, p) else Put(s, p, UseClear(name))
    case (ReadConfig, UseClear(name)) => Put(s, p, UseRead(name, s.config))
    case (SaveConfig, UseRead(name, config)) => Release(s.(config := With(config, Selected(name))), p)
    case (Check, Bundling(name, version)) =>
      if Declares(s.folder, name, name) || Direct(s.folder, name).Some? then Release(s, p) else Put(s, p, BundleClear(name, version))
    case (Write, BundleClear(name, version)) => Release(s.(folder := Bundled(s.folder, name, version)), p)
    case (StartRemoval(entry), Idle) => if entry in s.config then Put(s, p, Removing(entry, s.config)) else s
    case (SaveRemoval, Removing(entry, config)) =>
      Put(s.(config := Drop(config, entry)), p, if entry.PathRef? then Deleting(entry.ref) else Idle)
    case (Delete, Deleting(ref)) => Put(s.(folder := s.folder - {ref}), p, Idle)
    case _ => s
  }

  function After(start: State, stem: Name -> Name, run: seq<(Pid, Act)>): State {
    if run == [] then start
    else Step(After(start, stem, run[..|run| - 1]), stem, run[|run| - 1].0, run[|run| - 1].1)
  }

  // --- what the registrations promise ---------------------------------------------------------------

  /** No pack added by path declares a name the project also selects. */
  predicate Exclusive(config: seq<Entry>, folder: map<Name, Pack>) {
    forall e | e in config && e.PathRef? && Direct(folder, e.ref).Some? :: Selected(Direct(folder, e.ref).value) !in config
  }

  /** No two entries of the folder list under one name. */
  ghost predicate Unique(folder: map<Name, Pack>) {
    forall a, b | a in folder && b in folder && a != b && Discovered(folder, a).Some? :: Discovered(folder, a) != Discovered(folder, b)
  }

  /** No path entry of this configuration declares `name`. */
  predicate NoPathDeclares(config: seq<Entry>, folder: map<Name, Pack>, name: Name) {
    forall e | e in config && e.PathRef? :: Direct(folder, e.ref) != Some(name)
  }

  /** What each phase of a locked section has established. */
  ghost predicate Knows(s: State, ph: Phase) {
    match ph
    case AddUnselected(_, name, _) => Selected(name) !in s.config
    case AddClear(ref, name, _) => Selected(name) !in s.config && !Declares(s.folder, name, ref)
    case AddCopied(ref, name) => Selected(name) !in s.config && (Direct(s.folder, ref).None? || Direct(s.folder, ref) == Some(name))
    case AddRead(ref, name, config) =>
      Selected(name) !in config && Exclusive(config, s.folder) && (Direct(s.folder, ref).None? || Direct(s.folder, ref) == Some(name))
    case UseClear(name) => NoPathDeclares(s.config, s.folder, name)
    case UseRead(name, config) => Exclusive(config, s.folder) && NoPathDeclares(config, s.folder, name)
    case BundleClear(name, _) => !Declares(s.folder, name, name) && Direct(s.folder, name).None?
    case _ => true
  }

  predicate InSection(ph: Phase) {
    !ph.Idle? && !ph.Removing? && !ph.Deleting?
  }

  ghost predicate Inv(s: State) {
    && Exclusive(s.config, s.folder) && Unique(s.folder)
    && (forall p | p in s.procs && InSection(s.procs[p]) :: s.holder == Some(p) && Knows(s, s.procs[p]))
  }

  lemma {:induction false} DropMembers(config: seq<Entry>, entry: Entry, e: Entry)
    ensures e in Drop(config, entry) <==> e in config && e != entry
  {
    if config != [] { DropMembers(config[1..], entry, e); }
  }

  lemma WithMembers(config: seq<Entry>, entry: Entry, e: Entry)
    ensures e in With(config, entry) <==> e in config || e == entry
  {
    DropMembers(config, entry, e);
  }

  /** A path registration breaks exclusivity exactly when the configuration it re-read selects the name. */
  lemma PathWriteBreaksIff(config: seq<Entry>, folder: map<Name, Pack>, ref: Name)
    requires Exclusive(config, folder)
    ensures Exclusive(With(config, PathRef(ref)), folder)
       <==> !(Direct(folder, ref).Some? && Selected(Direct(folder, ref).value) in config)
  {
    forall e ensures e in With(config, PathRef(ref)) <==> e in config || e == PathRef(ref) {
      WithMembers(config, PathRef(ref), e);
    }
  }

  /** A selection breaks exclusivity exactly when a path entry of the configuration it re-read declares the name. */
  lemma SelectionBreaksIff(config: seq<Entry>, folder: map<Name, Pack>, name: Name)
    requires Exclusive(config, folder)
    ensures Exclusive(With(config, Selected(name)), folder) <==> NoPathDeclares(config, folder, name)
  {
    var after := With(config, Selected(name));
    forall e ensures e in after <==> e in config || e == Selected(name) {
      WithMembers(config, Selected(name), e);
    }
    if Exclusive(after, folder) {
      forall e | e in config && e.PathRef? ensures Direct(folder, e.ref) != Some(name) {
        assert e in after;
      }
    }
  }

  // --- nothing but the lock holder can break it ---------------------------------------------------------

  /** `t` holds no entry and no pack that `s` does not. */
  ghost predicate Shrinks(s: State, t: State) {
    && (forall e | e in t.config :: e in s.config)
    && (forall ref | ref in t.folder :: ref in s.folder && t.folder[ref] == s.folder[ref])
  }

  lemma ShrinkKeepsKnowledge(s: State, t: State, ph: Phase)
    requires Shrinks(s, t) && Knows(s, ph)
    ensures Knows(t, ph)
  {
  }

  lemma ShrinkKeepsPromises(s: State, t: State)
    requires Shrinks(s, t) && Exclusive(s.config, s.folder) && Unique(s.folder)
    ensures Exclusive(t.config, t.folder) && Unique(t.folder)
  {
  }

  /** A step outside any locked section, of a process that resurrects nothing. */
  lemma OutsideStepKeeps(s: State, t: State, p: Pid, ph: Phase)
    requires Inv(s) && Shrinks(s, t) && t.holder == s.holder && t.procs == s.procs[p := ph] && !InSection(ph) && !InSection(At(s, p))
    ensures Inv(t)
  {
    ShrinkKeepsPromises(s, t);
    forall q | q in t.procs && InSection(t.procs[q]) ensures t.holder == Some(q) && Knows(t, t.procs[q]) {
      ShrinkKeepsKnowledge(s, t, t.procs[q]);
    }
  }

  /** A step of the lock holder: only its own knowledge is to be kept. */
  lemma HolderStepKeeps(s: State, t: State, p: Pid, ph: Phase)
    requires Inv(s) && (s.holder == Some(p) || s.holder.None?) && t.procs == s.procs[p := ph]
    requires Exclusive(t.config, t.folder) && Unique(t.folder)
    requires InSection(ph) ==> t.holder == Some(p) && Knows(t, ph)
    ensures Inv(t)
  {
  }

  lemma CopyKeepsUnique(folder: map<Name, Pack>, ref: Name, name: Name, archive: bool)
    requires Unique(folder) && !Declares(folder, name, ref)
    ensures Unique(Copied(folder, ref, name, archive))
  {
    var after := Copied(folder, ref, name, archive);
    forall a | a in after && a != ref ensures Discovered(after, a) == Discovered(folder, a) && Discovered(after, a) != Some(name) {
    }
  }

  lemma BundleKeepsUnique(folder: map<Name, Pack>, name: Name, version: Name)
    requires Unique(folder) && !Declares(folder, name, name) && Direct(folder, name).None?
    ensures Unique(Bundled(folder, name, version))
  {
    var after := Bundled(folder, name, version);
    forall a | a in after && a != name ensures Discovered(after, a) == Discovered(folder, a) && Discovered(after, a) != Some(name) {
    }
    assert Discovered(after, name) == Some(name);
  }

  lemma CopyKeepsExclusive(config: seq<Entry>, folder: map<Name, Pack>, ref: Name, name: Name, archive: bool)
    requires Exclusive(config, folder) && Selected(name) !in config
    ensures Exclusive(config, Copied(folder, ref, name, archive))
  {
  }

  lemma BundleKeepsExclusive(config: seq<Entry>, folder: map<Name, Pack>, name: Name, version: Name)
    requires Exclusive(config, folder)
    ensures Exclusive(config, Bundled(folder, name, version))
  {
    forall ref ensures Direct(Bundled(folder, name, version), ref) == Direct(folder, ref) {
    }
  }

  lemma NotPathAdded(config: seq<Entry>, folder: map<Name, Pack>, stem: Name -> Name, name: Name)
    requires !PathAdded(config, folder, stem, name)
    ensures NoPathDeclares(config, folder, name)
  {
  }

  lemma AddStepKeeps(s: State, stem: Name -> Name, p: Pid, act: Act)
    requires Inv(s) && (At(s, p).Adding? || At(s, p).AddUnselected? || At(s, p).AddClear?)
    ensures Inv(Step(s, stem, p, act))
  {
    var t := Step(s, stem, p, act);
    if act.Write? && At(s, p).AddClear? {
      var ph := At(s, p);
      CopyKeepsUnique(s.folder, ph.ref, ph.name, ph.archive);
      CopyKeepsExclusive(s.config, s.folder, ph.ref, ph.name, ph.archive);
    }
    if t != s { HolderStepKeeps(s, t, p, At(t, p)); }
  }

  lemma RegisterStepKeeps(s: State, stem: Name -> Name, p: Pid, act: Act)
    requires Inv(s) && (At(s, p).AddCopied? || At(s, p).AddRead?)
    ensures Inv(Step(s, stem, p, act))
  {
    var t := Step(s, stem, p, act);
    if act.SaveConfig? && At(s, p).AddRead? { PathWriteBreaksIff(At(s, p).config, s.folder, At(s, p).ref); }
    if t != s { HolderStepKeeps(s, t, p, At(t, p)); }
  }

  lemma UseStepKeeps(s: State, stem: Name -> Name, p: Pid, act: Act)
    requires Inv(s) && (At(s, p).Using? || At(s, p).UseClear? || At(s, p).UseRead?)
    ensures Inv(Step(s, stem, p, act))
  {
    var t := Step(s, stem, p, act);
    if At(s, p).Using? && !PathAdded(s.config, s.folder, stem, At(s, p).name) { NotPathAdded(s.config, s.folder, stem, At(s, p).name); }
    if act.SaveConfig? && At(s, p).UseRead? { SelectionBreaksIff(At(s, p).config, s.folder, At(s, p).name); }
    if t != s { HolderStepKeeps(s, t, p, At(t, p)); }
  }

  lemma BundleStepKeeps(s: State, stem: Name -> Name, p: Pid, act: Act)
    requires Inv(s) && (At(s, p).Bundling? || At(s, p).BundleClear?)
    ensures Inv(Step(s, stem, p, act))
  {
    var t := Step(s, stem, p, act);
    if act.Write? && At(s, p).BundleClear? {
      BundleKeepsUnique(s.folder, At(s, p).name, At(s, p).version);
      BundleKeepsExclusive(s.config, s.folder, At(s, p).name, At(s, p).version);
    }
    if t != s { HolderStepKeeps(s, t, p, At(t, p)); }
  }

  lemma OtherStepKeeps(s: State, stem: Name -> Name, p: Pid, act: Act)
    requires Inv(s) && !SavesRemoval(s, p, act) && !InSection(At(s, p))
    ensures Inv(Step(s, stem, p, act))
  {
    var t := Step(s, stem, p, act);
    if act.StartAdd? || act.StartUse? || act.StartBundle? {
      if t != s { HolderStepKeeps(s, t, p, At(t, p)); }
    } else if t != s {
      OutsideStepKeeps(s, t, p, At(t, p));
    }
  }

  predicate SavesRemoval(s: State, p: Pid, act: Act) {
    act.SaveRemoval? && At(s, p).Removing?
  }

  lemma StepKeeps(s: State, stem: Name -> Name, p: Pid, act: Act)
    requires Inv(s) && !SavesRemoval(s, p, act)
    ensures Inv(Step(s, stem, p, act))
  {
    match At(s, p) {
      case Adding(_, _, _) => AddStepKeeps(s, stem, p, act);
      case AddUnselected(_, _, _) => AddStepKeeps(s, stem, p, act);
      case AddClear(_, _, _) => AddStepKeeps(s, stem, p, act);
      case AddCopied(_, _) => RegisterStepKeeps(s, stem, p, act);
      case AddRead(_, _, _) => RegisterStepKeeps(s, stem, p, act);
      case Using(_) => UseStepKeeps(s, stem, p, act);
      case UseClear(_) => UseStepKeeps(s, stem, p, act);
      case UseRead(_, _) => UseStepKeeps(s, stem, p, act);
      case Bundling(_, _) => BundleStepKeeps(s, stem, p, act);
      case BundleClear(_, _) => BundleStepKeeps(s, stem, p, act);
      case _ => OtherStepKeeps(s, stem, p, act);
    }
  }

  // --- a removal's save, exactly ------------------------------------------------------------------------

  /** The holder of the install lock has checked that the project does not select this name. */
  predicate TrustsUnselected(s: State, name: Name) {
    && s.holder.Some?
    && match At(s, s.holder.value)
       case AddUnselected(_, checked, _) => checked == name
       case AddClear(_, checked, _) => checked == name
       case AddCopied(_, checked) => checked == name
       case _ => false
  }

  /** The holder of the install lock has checked that no pack added by path declares this name. */
  predicate TrustsUnadded(s: State, name: Name) {
    s.holder.Some? && At(s, s.holder.value) == UseClear(name)
  }

  /** An entry about to be saved clashes with an entry beside it, or with what the holder has already checked. */
  predicate Clashes(s: State, saved: seq<Entry>, e: Entry) {
    match e
    case Selected(name) => !NoPathDeclares(saved, s.folder, name) || TrustsUnselected(s, name)
    case PathRef(ref) =>
      && Direct(s.folder, ref).Some?
      && (Selected(Direct(s.folder, ref).value) in saved || TrustsUnadded(s, Direct(s.folder, ref).value))
  }

  /** The step saves back an entry somebody took out meanwhile, and that entry clashes. */
  predicate Resurrects(s: State, p: Pid, act: Act) {
    && SavesRemoval(s, p, act)
    && var saved := Drop(At(s, p).config, At(s, p).entry);
    && exists e | e in saved :: e !in s.config && Clashes(s, saved, e)
  }

  lemma HarmlessSaveStaysExclusive(s: State, saved: seq<Entry>)
    requires Inv(s) && forall e | e in saved && e !in s.config :: !Clashes(s, saved, e)
    ensures Exclusive(saved, s.folder)
  {
    forall e | e in saved && e.PathRef? && Direct(s.folder, e.ref).Some? ensures Selected(Direct(s.folder, e.ref).value) !in saved {
      var other := Selected(Direct(s.folder, e.ref).value);
      if other in saved {
        assert Clashes(s, saved, e);
        assert !NoPathDeclares(saved, s.folder, other.name);
        assert Clashes(s, saved, other);
      }
    }
  }

  lemma HarmlessSaveKeepsTrust(s: State, saved: seq<Entry>, q: Pid)
    requires Inv(s) && q in s.procs && InSection(s.procs[q])
    requires forall e | e in saved && e !in s.config :: !Clashes(s, saved, e)
    ensures Knows(s.(config := saved), s.procs[q])
  {
    match s.procs[q] {
      case AddUnselected(_, name, _) => assert Selected(name) in saved ==> Selected(name) in s.config || Clashes(s, saved, Selected(name));
      case AddClear(_, name, _) => assert Selected(name) in saved ==> Selected(name) in s.config || Clashes(s, saved, Selected(name));
      case AddCopied(_, name) => assert Selected(name) in saved ==> Selected(name) in s.config || Clashes(s, saved, Selected(name));
      case UseClear(name) =>
        forall e | e in saved && e.PathRef? ensures Direct(s.folder, e.ref) != Some(name) {
          assert Direct(s.folder, e.ref) == Some(name) ==> e in s.config || Clashes(s, saved, e);
        }
      case _ =>
    }
  }

  lemma ClashBreaks(s: State, saved: seq<Entry>, e: Entry, t: State)
    requires Inv(s) && e in saved && Clashes(s, saved, e) && t.config == saved && t.folder == s.folder && t.holder == s.holder
    requires forall q | q in s.procs && InSection(s.procs[q]) :: q in t.procs && t.procs[q] == s.procs[q]
    ensures !Inv(t)
  {
    if s.holder.Some? && InSection(At(s, s.holder.value)) { assert At(t, s.holder.value) == At(s, s.holder.value); }
  }

  /**
   The removal's save, exactly: it keeps what the registrations promise if and only if no entry it saves
   back after somebody took it out clashes with an entry saved beside it, through the folder, or with a
   name the holder of the install lock has already checked.
   */
  lemma RemovalBreaksIff(s: State, stem: Name -> Name, p: Pid)
    requires Inv(s) && At(s, p).Removing?
    ensures Inv(Step(s, stem, p, SaveRemoval)) <==> !Resurrects(s, p, SaveRemoval)
  {
    var t, saved := Step(s, stem, p, SaveRemoval), Drop(At(s, p).config, At(s, p).entry);
    if Resurrects(s, p, SaveRemoval) {
      var e :| e in saved && e !in s.config && Clashes(s, saved, e);
      ClashBreaks(s, saved, e, t);
    } else {
      HarmlessSaveStaysExclusive(s, saved);
      forall q | q in t.procs && InSection(t.procs[q]) ensures t.holder == Some(q) && Knows(t, t.procs[q]) {
        assert q in s.procs && s.procs[q] == t.procs[q];
        HarmlessSaveKeepsTrust(s, saved, q);
        assert Knows(t, t.procs[q]) == Knows(s.(config := saved), s.procs[q]);
      }
    }
  }

  lemma StepKeepsIff(s: State, stem: Name -> Name, p: Pid, act: Act)
    requires Inv(s)
    ensures Inv(Step(s, stem, p, act)) <==> !Resurrects(s, p, act)
  {
    if SavesRemoval(s, p, act) { RemovalBreaksIff(s, stem, p); } else { StepKeeps(s, stem, p, act); }
  }

  lemma AfterOneMore(start: State, stem: Name -> Name, run: seq<(Pid, Act)>, i: nat)
    requires i < |run|
    ensures After(start, stem, run[..i + 1]) == Step(After(start, stem, run[..i]), stem, run[i].0, run[i].1)
  {
    assert run[..i + 1][..i] == run[..i];
  }

  ghost predicate AlwaysInv(start: State, stem: Name -> Name, run: seq<(Pid, Act)>) {
    forall i | 0 <= i <= |run| :: Inv(After(start, stem, run[..i]))
  }

  ghost predicate NothingResurrected(start: State, stem: Name -> Name, run: seq<(Pid, Act)>) {
    forall i | 0 <= i < |run| :: !Resurrects(After(start, stem, run[..i]), run[i].0, run[i].1)
  }

  lemma {:induction false} InvUpTo(start: State, stem: Name -> Name, run: seq<(Pid, Act)>, i: nat)
    requires Inv(start) && NothingResurrected(start, stem, run) && i <= |run|
    ensures Inv(After(start, stem, run[..i]))
  {
    if i == 0 {
      assert run[..0] == [];
    } else {
      InvUpTo(start, stem, run, i - 1);
      AfterOneMore(start, stem, run, i - 1);
      StepKeepsIff(After(start, stem, run[..i - 1]), stem, run[i - 1].0, run[i - 1].1);
    }
  }

  /**
   Pack exclusivity, exactly. In an interleaving of any processes running add, archive add, use, bundle,
   unuse and remove, the configuration never holds a by-path pack declaring a selected name, nor the lock
   holder a check gone stale, if and only if no removal saves back an entry, taken out meanwhile, that clashes.
   */
  lemma RegistrationsStayExclusiveIff(start: State, stem: Name -> Name, run: seq<(Pid, Act)>)
    requires Inv(start)
    ensures AlwaysInv(start, stem, run) <==> NothingResurrected(start, stem, run)
    ensures NothingResurrected(start, stem, run) ==> Exclusive(After(start, stem, run).config, After(start, stem, run).folder)
  {
    if NothingResurrected(start, stem, run) {
      forall i | 0 <= i <= |run| ensures Inv(After(start, stem, run[..i])) {
        InvUpTo(start, stem, run, i);
      }
      assert run[..|run|] == run;
    } else {
      var i :| 0 <= i < |run| && Resurrects(After(start, stem, run[..i]), run[i].0, run[i].1);
      AfterOneMore(start, stem, run, i);
      if Inv(After(start, stem, run[..i])) { StepKeepsIff(After(start, stem, run[..i]), stem, run[i].0, run[i].1); }
    }
  }

  lemma AfterSnoc(start: State, stem: Name -> Name, run: seq<(Pid, Act)>, p: Pid, act: Act)
    ensures After(start, stem, run + [(p, act)]) == Step(After(start, stem, run), stem, p, act)
  {
    assert (run + [(p, act)])[..|run|] == run;
  }

  /** A selection saved under the feet of `pack add`: left alone, it goes on to register the pack twice. */
  lemma StaleAddBreaks(s: State, stem: Name -> Name, p: Pid)
    requires At(s, p).AddClear? && Selected(At(s, p).name) in s.config
    ensures
      var t := Step(Step(Step(s, stem, p, Write), stem, p, ReadConfig), stem, p, SaveConfig);
      !Exclusive(t.config, t.folder)
  {
    var ref, name := At(s, p).ref, At(s, p).name;
    var copied := Step(s, stem, p, Write);
    var read := Step(copied, stem, p, ReadConfig);
    assert At(copied, p) == AddCopied(ref, name) && At(read, p) == AddRead(ref, name, s.config);
    var t := Step(read, stem, p, SaveConfig);
    WithMembers(s.config, PathRef(ref), PathRef(ref));
    WithMembers(s.config, PathRef(ref), Selected(name));
    assert PathRef(ref) in t.config && Selected(name) in t.config && Direct(t.folder, ref) == Some(name);
  }

  /** And the same of a path entry saved under the feet of `pack use`. */
  lemma StaleUseBreaks(s: State, stem: Name -> Name, p: Pid)
    requires At(s, p).UseClear? && !NoPathDeclares(s.config, s.folder, At(s, p).name)
    ensures
      var t := Step(Step(s, stem, p, ReadConfig), stem, p, SaveConfig);
      !Exclusive(t.config, t.folder)
  {
    var name := At(s, p).name;
    var read := Step(s, stem, p, ReadConfig);
    assert At(read, p) == UseRead(name, s.config);
    var t := Step(read, stem, p, SaveConfig);
    var e :| e in s.config && e.PathRef? && Direct(s.folder, e.ref) == Some(name);
    WithMembers(s.config, Selected(name), e);
    WithMembers(s.config, Selected(name), Selected(name));
    assert e in t.config && Selected(name) in t.config;
  }

  // --- and a stale removal does break it ------------------------------------------------------------------

  const A := Selected("a")
  const Z := Selected("z")

  /** Process 1 unuses "z", process 2 unuses "a", process 3 adds a pack declaring "a" by path. */
  function EventAt(n: nat): (Pid, Act)
    requires n < 10
  {
    match n
    case 0 => (1, StartRemoval(Z))
    case 1 => (2, StartRemoval(A))
    case 2 => (2, SaveRemoval)
    case 3 => (3, StartAdd("a", "a", false))
    case 4 => (3, Check)
    case 5 => (3, Check)
    case 6 => (3, Write)
    case 7 => (1, SaveRemoval)
    case 8 => (3, ReadConfig)
    case _ => (3, SaveConfig)
  }

  function Adder(ph: Phase): map<Pid, Phase> {
    map[1 := Removing(Z, [A, Z]), 2 := Idle, 3 := ph]
  }

  function Added(): map<Name, Pack> {
    map["a" := Pack(Some("a"), {})]
  }

  function StateAt(n: nat): State
    requires n <= 10
  {
    match n
    case 0 => State([A, Z], map[], None, map[])
    case 1 => State([A, Z], map[], None, map[1 := Removing(Z, [A, Z])])
    case 2 => State([A, Z], map[], None, map[1 := Removing(Z, [A, Z]), 2 := Removing(A, [A, Z])])
    case 3 => State([Z], map[], None, map[1 := Removing(Z, [A, Z]), 2 := Idle])
    case 4 => State([Z], map[], Some(3), Adder(Adding("a", "a", false)))
    case 5 => State([Z], map[], Some(3), Adder(AddUnselected("a", "a", false)))
    case 6 => State([Z], map[], Some(3), Adder(AddClear("a", "a", false)))
    case 7 => State([Z], Added(), Some(3), Adder(AddCopied("a", "a")))
    case 8 => State([A], Added(), Some(3), map[1 := Idle, 2 := Idle, 3 := AddCopied("a", "a")])
    case 9 => State([A], Added(), Some(3), map[1 := Idle, 2 := Idle, 3 := AddRead("a", "a", [A])])
    case _ => State([A, PathRef("a")], Added(), None, map[1 := Idle, 2 := Idle, 3 := Idle])
  }

  lemma DropOne()
    ensures Drop([A, Z], Z) == [A] && Drop([A, Z], A) == [Z]
  {
    assert [A, Z][1..] == [Z] && [Z][1..] == [];
    assert Drop([Z], Z) == [] && Drop([Z], A) == [Z];
  }

  lemma RemovalsStart(n: nat, stem: Name -> Name)
    requires n < 4
    ensures Step(StateAt(n), stem, EventAt(n).0, EventAt(n).1) == StateAt(n + 1)
  {
    DropOne();
    assert A in [A, Z] && Z in [A, Z] by { assert [A, Z][0] == A && [A, Z][1] == Z; }
  }

  lemma CheckPasses(n: nat, stem: Name -> Name)
    requires 4 <= n < 7
    ensures Step(StateAt(n), stem, EventAt(n).0, EventAt(n).1) == StateAt(n + 1)
  {
  }

  lemma StaleWriteLands(stem: Name -> Name)
    ensures Step(StateAt(7), stem, EventAt(7).0, EventAt(7).1) == StateAt(8)
  {
    DropOne();
  }

  lemma AdderReads(stem: Name -> Name)
    ensures Step(StateAt(8), stem, EventAt(8).0, EventAt(8).1) == StateAt(9)
  {
  }

  lemma AdderSaves(stem: Name -> Name)
    ensures Step(StateAt(9), stem, EventAt(9).0, EventAt(9).1) == StateAt(10)
  {
    assert PathRef("a") !in [A] && [A] + [PathRef("a")] == [A, PathRef("a")];
  }

  lemma {:induction false} RunOf(n: nat, stem: Name -> Name) returns (run: seq<(Pid, Act)>)
    requires n <= 10
    ensures After(StateAt(0), stem, run) == StateAt(n)
  {
    if n == 0 {
      run := [];
    } else {
      var before := RunOf(n - 1, stem);
      run := before + [EventAt(n - 1)];
      assert run[..|run| - 1] == before;
      if n <= 4 { RemovalsStart(n - 1, stem); }
      else if n <= 7 { CheckPasses(n - 1, stem); }
      else if n == 8 { StaleWriteLands(stem); }
      else if n == 9 { AdderReads(stem); }
      else { AdderSaves(stem); }
    }
  }

  /**
   Exclusivity fails of the commands as they are: a removal that read the configuration early writes a
   dropped selection back between the locked check and the locked write, and both end up registered.
   */
  lemma StaleRemovalBreaksExclusivity(stem: Name -> Name) returns (run: seq<(Pid, Act)>)
    ensures Inv(StateAt(0))
    ensures
      var s := After(StateAt(0), stem, run);
      s.config == [A, PathRef("a")] && Direct(s.folder, "a") == Some("a") && !Exclusive(s.config, s.folder)
  {
    run := RunOf(10, stem);
    var config := [A, PathRef("a")];
    assert config[0] in config && config[1] in config;
  }

  // --- the packs folder, over every run -------------------------------------------------------------------

  /** What each phase of a locked section has established of the folder. */
  ghost predicate KnowsFolder(folder: map<Name, Pack>, ph: Phase) {
    match ph
    case AddClear(ref, name, _) => !Declares(folder, name, ref)
    case BundleClear(name, _) => !Declares(folder, name, name) && Direct(folder, name).None?
    case _ => true
  }

  ghost predicate FolderInv(s: State) {
    && Unique(s.folder)
    && forall p | p in s.procs && InSection(s.procs[p]) :: s.holder == Some(p) && KnowsFolder(s.folder, s.procs[p])
  }

  /** A step that writes no pack leaves the folder as it is, or smaller. */
  lemma FolderOnlyShrinks(s: State, stem: Name -> Name, p: Pid, act: Act)
    requires !(act.Write? && (At(s, p).AddClear? || At(s, p).BundleClear?))
    ensures forall ref | ref in Step(s, stem, p, act).folder :: ref in s.folder && Step(s, stem, p, act).folder[ref] == s.folder[ref]
  {
  }

  /** What a step does to the processes: only its own moves, into a locked section only with the lock. */
  lemma SectionsAreHeld(s: State, stem: Name -> Name, p: Pid, act: Act)
    requires FolderInv(s)
    ensures forall q | q in Step(s, stem, p, act).procs && InSection(Step(s, stem, p, act).procs[q]) ::
              && Step(s, stem, p, act).holder == Some(q)
              && (q != p ==> q in s.procs && Step(s, stem, p, act).procs[q] == s.procs[q] && !InSection(At(s, p)))
  {
  }

  lemma OwnKnowledgeHolds(s: State, stem: Name -> Name, p: Pid, act: Act)
    requires FolderInv(s)
    ensures KnowsFolder(Step(s, stem, p, act).folder, At(Step(s, stem, p, act), p))
  {
  }

  lemma FolderStepKeeps(s: State, stem: Name -> Name, p: Pid, act: Act)
    requires FolderInv(s)
    ensures FolderInv(Step(s, stem, p, act))
  {
    var t, ph := Step(s, stem, p, act), At(s, p);
    SectionsAreHeld(s, stem, p, act);
    OwnKnowledgeHolds(s, stem, p, act);
    if act.Write? && ph.AddClear? {
      CopyKeepsUnique(s.folder, ph.ref, ph.name, ph.archive);
    } else if act.Write? && ph.BundleClear? {
      BundleKeepsUnique(s.folder, ph.name, ph.version);
    } else {
      FolderOnlyShrinks(s, stem, p, act);
    }
  }

  /** In every interleaving, whatever removals do, no two entries of the packs folder list under one name. */
  lemma {:induction false} FolderNamesStayUnique(start: State, stem: Name -> Name, run: seq<(Pid, Act)>)
    requires FolderInv(start)
    ensures FolderInv(After(start, stem, run)) && Unique(After(start, stem, run).folder)
  {
    if run != [] {
      var front, last := run[..|run| - 1], run[|run| - 1];
      FolderNamesStayUnique(start, stem, front);
      FolderStepKeeps(After(start, stem, front), stem, last.0, last.1);
    }
  }

  /** No name folder holds both a manifest of its own and bundled versions. */
  predicate NeverBoth(folder: map<Name, Pack>) {
    forall ref | ref in folder :: folder[ref].direct.None? || folder[ref].versions == {}
  }

  /** A folder laid over another keeps them apart exactly when nothing was bundled there: no check of `pack add` looks. */
  lemma FolderAddStaysApartIff(folder: map<Name, Pack>, ref: Name, declared: Name)
    requires NeverBoth(folder)
    ensures NeverBoth(Copied(folder, ref, declared, false)) <==> ref !in folder || folder[ref].versions == {}
  {
    assert ref in Copied(folder, ref, declared, false);
  }

  /** The step copies an added folder over a name folder that holds bundled versions. */
  predicate LaidOverBundle(s: State, p: Pid, act: Act) {
    && act.Write? && At(s, p).AddClear? && !At(s, p).archive
    && At(s, p).ref in s.folder && s.folder[At(s, p).ref].versions != {}
  }

  /** Every other step keeps them apart: a bundle because it checked for a manifest, an archive because it replaces the folder. */
  lemma StepStaysApartIff(s: State, stem: Name -> Name, p: Pid, act: Act)
    requires FolderInv(s) && NeverBoth(s.folder)
    ensures NeverBoth(Step(s, stem, p, act).folder) <==> !LaidOverBundle(s, p, act)
  {
    var ph := At(s, p);
    if act.Write? && ph.AddClear? && !ph.archive { FolderAddStaysApartIff(s.folder, ph.ref, ph.name); }
    if act.Write? && ph.BundleClear? { assert KnowsFolder(s.folder, s.procs[p]); }
  }

  ghost predicate AlwaysApart(start: State, stem: Name -> Name, run: seq<(Pid, Act)>) {
    forall i | 0 <= i <= |run| :: NeverBoth(After(start, stem, run[..i]).folder)
  }

  ghost predicate NothingLaidOver(start: State, stem: Name -> Name, run: seq<(Pid, Act)>) {
    forall i | 0 <= i < |run| :: !LaidOverBundle(After(start, stem, run[..i]), run[i].0, run[i].1)
  }

  lemma {:induction false} ApartUpTo(start: State, stem: Name -> Name, run: seq<(Pid, Act)>, i: nat)
    requires FolderInv(start) && NeverBoth(start.folder) && NothingLaidOver(start, stem, run) && i <= |run|
    ensures NeverBoth(After(start, stem, run[..i]).folder)
  {
    if i == 0 {
      assert run[..0] == [];
    } else {
      ApartUpTo(start, stem, run, i - 1);
      FolderNamesStayUnique(start, stem, run[..i - 1]);
      AfterOneMore(start, stem, run, i - 1);
      StepStaysApartIff(After(start, stem, run[..i - 1]), stem, run[i - 1].0, run[i - 1].1);
    }
  }

  /**
   In an interleaving of any processes, no name folder ever holds both a pack added by path and bundled
   versions if and only if no added folder is copied over a name folder with versions bundled in it.
   */
  lemma BundlesStayApartIff(start: State, stem: Name -> Name, run: seq<(Pid, Act)>)
    requires FolderInv(start) && NeverBoth(start.folder)
    ensures AlwaysApart(start, stem, run) <==> NothingLaidOver(start, stem, run)
  {
    if NothingLaidOver(start, stem, run) {
      forall i | 0 <= i <= |run| ensures NeverBoth(After(start, stem, run[..i]).folder) {
        ApartUpTo(start, stem, run, i);
      }
    } else {
      var i :| 0 <= i < |run| && LaidOverBundle(After(start, stem, run[..i]), run[i].0, run[i].1);
      AfterOneMore(start, stem, run, i);
      FolderNamesStayUnique(start, stem, run[..i]);
      if NeverBoth(After(start, stem, run[..i]).folder) { StepStaysApartIff(After(start, stem, run[..i]), stem, run[i].0, run[i].1); }
    }
  }

  /** `pack bundle`, then `pack unuse`, then `pack add` of a folder of that name, by one process. */
  function OverlayActs(name: Name, version: Name): seq<Act> {
    [StartBundle(name, version), Check, Write, StartRemoval(Selected(name)), SaveRemoval, StartAdd(name, name, false), Check, Check, Write]
  }

  function By(p: Pid, acts: seq<Act>): seq<(Pid, Act)> {
    if acts == [] then [] else By(p, acts[..|acts| - 1]) + [(p, acts[|acts| - 1])]
  }

  lemma ByOneMore(start: State, stem: Name -> Name, p: Pid, acts: seq<Act>, n: nat)
    requires n < |acts|
    ensures After(start, stem, By(p, acts[..n + 1])) == Step(After(start, stem, By(p, acts[..n])), stem, p, acts[n])
  {
    assert acts[..n + 1][..n] == acts[..n];
    AfterSnoc(start, stem, By(p, acts[..n]), p, acts[n]);
  }

  /** The project after `n` of them. */
  function OverlayAt(name: Name, version: Name, n: nat): State
    requires n <= 9
  {
    var selected, none, bundle := [Selected(name)], map[], map[name := Pack(None, {version})];
    match n
    case 0 => State(selected, none, None, map[])
    case 1 => State(selected, none, Some(1), map[1 := Bundling(name, version)])
    case 2 => State(selected, none, Some(1), map[1 := BundleClear(name, version)])
    case 3 => State(selected, bundle, None, map[1 := Idle])
    case 4 => State(selected, bundle, None, map[1 := Removing(Selected(name), selected)])
    case 5 => State([], bundle, None, map[1 := Idle])
    case 6 => State([], bundle, Some(1), map[1 := Adding(name, name, false)])
    case 7 => State([], bundle, Some(1), map[1 := AddUnselected(name, name, false)])
    case 8 => State([], bundle, Some(1), map[1 := AddClear(name, name, false)])
    case _ => State([], map[name := Pack(Some(name), {version})], Some(1), map[1 := AddCopied(name, name)])
  }

  lemma OverlayFolders(name: Name, version: Name)
    ensures Bundled(map[], name, version) == map[name := Pack(None, {version})]
    ensures Copied(map[name := Pack(None, {version})], name, name, false) == map[name := Pack(Some(name), {version})]
  {
    var none: set<Name> := {};
    assert none + {version} == {version};
  }

  lemma OverlayBundles(stem: Name -> Name, name: Name, version: Name, n: nat)
    requires n < 3
    ensures Step(OverlayAt(name, version, n), stem, 1, OverlayActs(name, version)[n]) == OverlayAt(name, version, n + 1)
  {
    OverlayFolders(name, version);
    if n == 0 { assert OverlayActs(name, version)[0] == StartBundle(name, version); }
    else if n == 1 { assert OverlayActs(name, version)[1] == Check; }
    else { assert OverlayActs(name, version)[2] == Write; }
  }

  lemma OverlayUnuses(stem: Name -> Name, name: Name, version: Name, n: nat)
    requires 3 <= n < 5
    ensures Step(OverlayAt(name, version, n), stem, 1, OverlayActs(name, version)[n]) == OverlayAt(name, version, n + 1)
  {
    var config := [Selected(name)];
    assert config[0] in config && config[1..] == [] && Drop(config[1..], Selected(name)) == [];
    if n == 4 { assert OverlayActs(name, version)[4] == SaveRemoval; }
  }

  lemma OverlayChecks(stem: Name -> Name, name: Name, version: Name)
    ensures Step(OverlayAt(name, version, 5), stem, 1, StartAdd(name, name, false)) == OverlayAt(name, version, 6)
    ensures Step(OverlayAt(name, version, 6), stem, 1, Check) == OverlayAt(name, version, 7)
    ensures Step(OverlayAt(name, version, 7), stem, 1, Check) == OverlayAt(name, version, 8)
  {
    assert !Declares(OverlayAt(name, version, 7).folder, name, name);
  }

  lemma OverlayCopies(stem: Name -> Name, name: Name, version: Name)
    ensures Step(OverlayAt(name, version, 8), stem, 1, Write) == OverlayAt(name, version, 9)
  {
    OverlayFolders(name, version);
  }

  lemma {:induction false} OverlayRuns(stem: Name -> Name, name: Name, version: Name, n: nat)
    requires n <= 9
    ensures After(OverlayAt(name, version, 0), stem, By(1, OverlayActs(name, version)[..n])) == OverlayAt(name, version, n)
  {
    if n == 0 {
      assert OverlayActs(name, version)[..0] == [];
    } else {
      OverlayRuns(stem, name, version, n - 1);
      ByOneMore(OverlayAt(name, version, 0), stem, 1, OverlayActs(name, version), n - 1);
      if n <= 3 { OverlayBundles(stem, name, version, n - 1); }
      else if n <= 5 { OverlayUnuses(stem, name, version, n - 1); }
      else if n <= 8 { OverlayChecks(stem, name, version); }
      else { OverlayCopies(stem, name, version); }
    }
  }

  /**
   The folder promise fails of the commands as they are, with nobody else around: the bundle that `pack
   unuse` leaves behind stays below the pack that `pack add` then copies over its folder.
   */
  lemma AddIsLaidOverABundle(stem: Name -> Name, name: Name, version: Name)
    ensures
      var start := State([Selected(name)], map[], None, map[]);
      var t := After(start, stem, By(1, OverlayActs(name, version)));
      Inv(start) && FolderInv(start) && NeverBoth(start.folder)
      && name in t.folder && t.folder[name] == Pack(Some(name), {version}) && !NeverBoth(t.folder)
  {
    OverlayRuns(stem, name, version, 9);
    var acts := OverlayActs(name, version);
    assert acts[..9] == acts;
    var folder := OverlayAt(name, version, 9).folder;
    assert name in folder && version in folder[name].versions;
  }

  // --- each command's steps, left alone ------------------------------------------------------------------

  ghost function AddSteps(s: State, stem: Name -> Name, p: Pid, ref: Name, name: Name, archive: bool): State {
    var checked := Step(Step(Step(s, stem, p, StartAdd(ref, name, archive)), stem, p, Check), stem, p, Check);
    Step(Step(Step(checked, stem, p, Write), stem, p, ReadConfig), stem, p, SaveConfig)
  }

  lemma AddIsChecked(s: State, stem: Name -> Name, p: Pid, ref: Name, name: Name, archive: bool)
    requires At(s, p).Idle? && s.holder.None?
    ensures
      var t := Step(Step(Step(s, stem, p, StartAdd(ref, name, archive)), stem, p, Check), stem, p, Check);
      var refused := Selected(name) in s.config || Selected(ref) in s.config || Declares(s.folder, name, ref);
      && t.config == s.config && t.folder == s.folder
      && At(t, p) == (if refused then Idle else AddClear(ref, name, archive)) && t.holder == (if refused then None else Some(p))
  {
    var started := Step(s, stem, p, StartAdd(ref, name, archive));
    assert At(started, p) == Adding(ref, name, archive);
    var first := Step(started, stem, p, Check);
    if !(Selected(name) in s.config || Selected(ref) in s.config) {
      assert At(first, p) == AddUnselected(ref, name, archive);
    } else {
      assert At(first, p).Idle?;
    }
  }

  lemma ClearAddIsWritten(s: State, stem: Name -> Name, p: Pid)
    requires At(s, p).AddClear?
    ensures
      var t := Step(Step(Step(s, stem, p, Write), stem, p, ReadConfig), stem, p, SaveConfig);
      && At(t, p).Idle? && t.holder.None? && t.folder == Copied(s.folder, At(s, p).ref, At(s, p).name, At(s, p).archive)
      && t.config == With(s.config, PathRef(At(s, p).ref))
  {
    var ref, name := At(s, p).ref, At(s, p).name;
    var copied := Step(s, stem, p, Write);
    assert At(copied, p) == AddCopied(ref, name);
    var read := Step(copied, stem, p, ReadConfig);
    assert At(read, p) == AddRead(ref, name, s.config);
  }

  lemma IdleDoesNothing(s: State, stem: Name -> Name, p: Pid)
    requires At(s, p).Idle?
    ensures Step(s, stem, p, Write) == Step(s, stem, p, ReadConfig) == Step(s, stem, p, SaveConfig) == s
  {
  }

  /** `pack add`, left alone while the lock is free: refused exactly for a selected name or folder name, or a name declared elsewhere. */
  lemma AddAlone(s: State, stem: Name -> Name, p: Pid, ref: Name, name: Name, archive: bool)
    requires At(s, p).Idle? && s.holder.None?
    ensures
      var t := AddSteps(s, stem, p, ref, name, archive);
      var refused := Selected(name) in s.config || Selected(ref) in s.config || exists other | other in s.folder :: other != ref && Discovered(s.folder, other) == Some(name);
      && At(t, p).Idle? && t.holder.None?
      && t.folder == (if refused then s.folder else s.folder[ref := Pack(Some(name), if archive || ref !in s.folder then {} else s.folder[ref].versions)])
      && t.config == (if refused || PathRef(ref) in s.config then s.config else s.config + [PathRef(ref)])
  {
    var checked := Step(Step(Step(s, stem, p, StartAdd(ref, name, archive)), stem, p, Check), stem, p, Check);
    AddIsChecked(s, stem, p, ref, name, archive);
    if At(checked, p).Idle? { IdleDoesNothing(checked, stem, p); } else { ClearAddIsWritten(checked, stem, p); }
  }

  ghost function UseSteps(s: State, stem: Name -> Name, p: Pid, name: Name): State {
    Step(Step(Step(Step(s, stem, p, StartUse(name)), stem, p, Check), stem, p, ReadConfig), stem, p, SaveConfig)
  }

  /** `pack use`, left alone: refused exactly for a name a pack added by path declares or is filed under. */
  lemma UseAlone(s: State, stem: Name -> Name, p: Pid, name: Name)
    requires At(s, p).Idle? && s.holder.None?
    ensures
      var t := UseSteps(s, stem, p, name);
      var refused := exists ref :: PathRef(ref) in s.config && (stem(ref) == name || (ref in s.folder && s.folder[ref].direct == Some(name)));
      && At(t, p).Idle? && t.holder.None? && t.folder == s.folder
      && t.config == if refused then s.config else Drop(s.config, Selected(name)) + [Selected(name)]
  {
    var started := Step(s, stem, p, StartUse(name));
    assert At(started, p) == Using(name);
    var checked := Step(started, stem, p, Check);
    if PathAdded(s.config, s.folder, stem, name) {
      var e :| e in s.config && e.PathRef? && (stem(e.ref) == name || Direct(s.folder, e.ref) == Some(name));
      assert PathRef(e.ref) == e;
      assert At(checked, p).Idle?;
      var t := Step(checked, stem, p, ReadConfig);
      assert t == checked && Step(t, stem, p, SaveConfig) == t;
    } else {
      assert At(checked, p) == UseClear(name);
      assert At(Step(checked, stem, p, ReadConfig), p) == UseRead(name, s.config);
    }
  }

  /** `pack bundle`, left alone: refused exactly for a name declared elsewhere, or a folder with a manifest of its own. */
  lemma BundleAlone(s: State, stem: Name -> Name, p: Pid, name: Name, version: Name)
    requires At(s, p).Idle? && s.holder.None?
    ensures
      var t := Step(Step(Step(s, stem, p, StartBundle(name, version)), stem, p, Check), stem, p, Write);
      var refused :=
        || (exists other | other in s.folder :: other != name && Discovered(s.folder, other) == Some(name))
        || (name in s.folder && s.folder[name].direct.Some?);
      && At(t, p).Idle? && t.holder.None? && t.config == s.config
      && t.folder == if refused then s.folder
                     else s.folder[name := Pack(None, (if name in s.folder then s.folder[name].versions else {}) + {version})]
  {
    var started := Step(s, stem, p, StartBundle(name, version));
    assert At(started, p) == Bundling(name, version);
    var checked := Step(started, stem, p, Check);
    if Declares(s.folder, name, name) || Direct(s.folder, name).Some? {
      assert At(checked, p).Idle?;
    } else {
      assert At(checked, p) == BundleClear(name, version);
    }
  }

  /** `pack unuse` and `pack remove`, left alone: an entry that is there goes, and a vendored pack's files with it. */
  lemma RemovalAlone(s: State, stem: Name -> Name, p: Pid, entry: Entry)
    requires At(s, p).Idle?
    ensures
      var t := Step(Step(Step(s, stem, p, StartRemoval(entry)), stem, p, SaveRemoval), stem, p, Delete);
      && At(t, p).Idle? && t.holder == s.holder
      && t.config == (if entry in s.config then Drop(s.config, entry) else s.config)
      && t.folder == if entry in s.config && entry.PathRef? then s.folder - {entry.ref} else s.folder
  {
    var started := Step(s, stem, p, StartRemoval(entry));
    if entry in s.config {
      assert At(started, p) == Removing(entry, s.config);
      assert At(Step(started, stem, p, SaveRemoval), p) == if entry.PathRef? then Deleting(entry.ref) else Idle;
    }
  }

  /** What an entry of the packs folder lists under: its own manifest's name, else the folder's when versions are bundled there. */
  lemma ListsUnder(folder: map<Name, Pack>, ref: Name, name: Name)
    ensures Discovered(folder, ref) == Some(name)
       <==> ref in folder && (folder[ref].direct == Some(name) || (folder[ref].direct.None? && folder[ref].versions != {} && ref == name))
  {
  }

  // --- the commands themselves, with nothing else going on --------------------------------------------------

  /** One project's pack registrations and packs folder. */
  class Packs {
    var config: seq<Entry>
    var folder: map<Name, Pack>

    ghost predicate Sound()
      reads this
    {
      Exclusive(config, folder) && Unique(folder)
    }

    /** `addPack` and `addPackFromArchive`; false is a refusal, which changes nothing. */
    method Add(ref: Name, name: Name, archive: bool) returns (ok: bool)
      requires Sound()
      modifies this
      ensures Sound()
      ensures ok <==> Selected(name) !in old(config) && Selected(ref) !in old(config) && !Declares(old(folder), name, ref)
      ensures folder == if ok then Copied(old(folder), ref, name, archive) else old(folder)
      ensures config == if ok then With(old(config), PathRef(ref)) else old(config)
    {
      if Selected(name) in config || Selected(ref) in config {
        return false;
      }
      if Declares(folder, name, ref) {
        return false;
      }
      CopyKeepsUnique(folder, ref, name, archive);
      CopyKeepsExclusive(config, folder, ref, name, archive);
      folder := Copied(folder, ref, name, archive);
      PathWriteBreaksIff(config, folder, ref);
      if PathRef(ref) !in config {
        config := config + [PathRef(ref)];
      }
      return true;
    }

    /** `usePack` */
    method Use(name: Name, stem: Name -> Name) returns (ok: bool)
      requires Sound()
      modifies this
      ensures Sound() && folder == old(folder)
      ensures ok <==> forall ref | PathRef(ref) in old(config) :: stem(ref) != name && !(ref in old(folder) && old(folder)[ref].direct == Some(name))
      ensures config == if ok then With(old(config), Selected(name)) else old(config)
    {
      if PathAdded(config, folder, stem, name) {
        return false;
      }
      NotPathAdded(config, folder, stem, name);
      SelectionBreaksIff(config, folder, name);
      config := Drop(config, Selected(name)) + [Selected(name)];
      return true;
    }

    /** `bundlePack`, of one resolved selection. */
    method Bundle(name: Name, version: Name) returns (ok: bool)
      requires Sound()
      modifies this
      ensures Sound() && config == old(config)
      ensures ok <==> !Declares(old(folder), name, name) && Direct(old(folder), name).None?
      ensures folder == if ok then Bundled(old(folder), name, version) else old(folder)
      ensures NeverBoth(old(folder)) ==> NeverBoth(folder)
    {
      if Declares(folder, name, name) || Direct(folder, name).Some? {
        return false;
      }
      BundleKeepsUnique(folder, name, version);
      BundleKeepsExclusive(config, folder, name, version);
      folder := Bundled(folder, name, version);
      return true;
    }

    /** `unusePack` and `removePack`: the entry goes, and a vendored pack's files with it. */
    method Remove(entry: Entry) returns (ok: bool)
      requires Sound()
      modifies this
      ensures Sound()
      ensures ok <==> entry in old(config)
      ensures config == if ok then Drop(old(config), entry) else old(config)
      ensures folder == if ok && entry.PathRef? then old(folder) - {entry.ref} else old(folder)
    {
      if entry !in config {
        return false;
      }
      ghost var before := State(config, folder, None, map[]);
      forall e ensures e in Drop(config, entry) <==> e in config && e != entry {
        DropMembers(config, entry, e);
      }
      config := Drop(config, entry);
      if entry.PathRef? {
        folder := folder - {entry.ref};
      }
      ShrinkKeepsPromises(before, State(config, folder, None, map[]));
      return true;
    }
  }

  /** Taking back: unusing what was just selected, or removing what was just added, leaves the other entries as they were. */
  lemma {:induction false} DropUndoesWith(config: seq<Entry>, entry: Entry)
    requires entry !in config
    ensures Drop(With(config, entry), entry) == config
  {
    DropAbsent(config, entry);
    DropLast(config, entry);
  }

  lemma {:induction false} DropAbsent(config: seq<Entry>, entry: Entry)
    requires entry !in config
    ensures Drop(config, entry) == config
  {
    if config != [] { DropAbsent(config[1..], entry); }
  }

  lemma {:induction false} DropLast(config: seq<Entry>, entry: Entry)
    ensures Drop(config + [entry], entry) == Drop(config, entry)
  {
    if config == [] {
      assert ([entry])[1..] == [];
    } else {
      DropLast(config[1..], entry);
      assert (config + [entry])[1..] == config[1..] + [entry];
    }
  }
}
