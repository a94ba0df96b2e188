# A verified model of wairon's approval, archive and shared-file protocols

wairon keeps a project's design as a tree of spec files, lets a human approve it with a committed
lock record, packs trees and extension packs into zip archives, and shares a few files between
processes. This Dafny project models those protocols and proves what they promise:

* **Family approval** (`ApprovalRecord`, `SpecDiff`, `Family`, `FamilyTheorems`, `Relocks`,
  `FamilyRuns`, `FamilyRaces`, `LockOutcomes`). A family is a tree of projects named by their paths of aliases. A
  project's gate identity covers its own design and inputs and what its direct members have *on
  record*. The model gives the merge gate (`lock-check`), one lock, and whole runs in which edits and
  any number of locks interleave phase by phase.
* **Archives** (`ArchivePaths`, `Codec`, `ZipDirectory`, `Container`, `Manifests`, `Orchestrator`,
  `RoundTrips`, `ArchiveOutcomes`). The central directory is read byte by byte; planning, sealing, building and
  extracting follow the code's branches.
* **Shared state** (`FileLock`, `LockedFile`, `Settings`, `LockRaces`, `PackRegistry`) and **file
  moves that may fail** (`BinarySwap`, `GroupPlacement`).

sha256 is taken as injective, so a digest is the value it was taken over. YAML and JSON texts are
lossless encodings of values. Clocks, the walk of a folder, compressed sizes, the validator's findings
and the answer to a confirmation are parameters; a thrown error is a refusal value. Whether a lock's
holder looks gone is nondeterministic.

## What the code does otherwise than its documentation says

* `restampRelease` writes the identity the caller captured and never re-confirms it. A restamp that
  captured an edit later taken back records that edit as approved (`FamilyRaces`); it is sound exactly
  when the captured design is the surveyed one (`FamilyRuns.RestampNamesTheApprovedDesignIff`).
* A restamp also keeps a project id that moved, so that approval still owes
  (`FamilyTheorems.LockLeavesItApproved`).
* "By path or by selection, never both" is checked under the install lock, but `pack unuse` and
  `pack remove` read and save the configuration without it; a stale save can break the rule
  (`PackRegistry.StaleRemovalBreaksExclusivity`), and exactly which saves do is
  `PackRegistry.RemovalBreaksIff`.
* `pack add` of a folder lays it over the bundle that `pack unuse` leaves behind, so a name folder can
  hold both a pack added by path and bundled versions (`PackRegistry.AddIsLaidOverABundle`).
* The pre-rename check of the file lock misses a reclaim whose end marker a later holder's cleanup
  removed before the lock file (`LockRaces.ReclaimedHolderOverwrites`), and one that comes between the
  check and the rename (`LockRaces.ReclaimedAfterTheCheck`).
* A create of the lock file that throws ends the generation it was for, although another process may
  have created and hold it (`LockRaces.FailedCreateEndsALiveLock`).
* `buildTreeArchive` accepts an empty project name that `parseTreeManifest` then refuses
  (`RoundTrips.TreeRoundTrip`).
* The remapping of `repairGroupPlacement` follows one rename only, so a type can be put where its
  group no longer is (`GroupPlacement.RepairMisplacesAType`).
* Plain lock-check is called optional for a project that never locked, yet a drifted member at any depth
  refuses it even where the root has no record (`FamilyTheorems.PlainRefusesExactly`).
* `normalizeInstanceUrl` is not idempotent on a key such as `"a /"` (`Settings.NormalizedTwice`).

## Model

| member | source | states |
|---|---|---|
| `ArchivePaths.NormalizeIdempotent` | sdk/src/codec.ts:237-242 | normalising an archive path twice is normalising it once, for every string |
| `ArchivePaths.NormalIsFixpoint` | sdk/src/codec.ts:237-242 | the paths normalisation leaves alone are exactly the empty one and those whose segments are all real names |
| `ArchivePaths.NormalLandsAlike` | sdk/src/treecodec.ts:306-315 | without a `..` segment, the normalised path and the raw one land at the same place, at or below the folder they are joined to |
| `Codec.SafeNamesDoNotEscape` | sdk/src/codec.ts:89-99 | a name that passes the structural check never escapes once normalised, so the loop's zip-slip test is implied |
| `ArchivePaths.UnsafeIsForbidden` | sdk/src/codec.ts:230-235 | the structural check refuses exactly a backslash anywhere, a drive letter, a leading slash, and two dots between slashes or at an end |
| `Codec.ForbiddenNameRefusesTheArchive` | sdk/src/codec.ts:91-93 | one entry of such a name, of any kind, refuses the archive under any caps |
| `Codec.DefaultsInFigures` | sdk/src/treecodec.ts:37-43 | what each codec accepts without overrides, in figures |
| `Codec.VetEntry` | sdk/src/codec.ts:87-105 | one turn of the vetting loop passes exactly the entries that fit: no link, safe name, and for a file depth, size and ratio within the caps |
| `Codec.PlanExtraction` | sdk/src/codec.ts:76-117 | the loop accepts exactly when every entry fits and the file count and total fit, and then plans every file's normalised path and the true total |
| `Codec.RaisingCapsKeepsThePlan` | sdk/src/treecodec.ts:114-155 | raising any cap never rejects an accepted archive and never changes its plan |
| `Codec.SealEntries` | sdk/src/codec.ts:153-173 | sealing digests every file but the envelope, a later file of one path winning, and digests that map |
| `Codec.VerifyIntegrity` | sdk/src/treecodec.ts:185-205 | verification answers by its three cases exactly: nothing carried, every file but the envelope as its digest, or a mismatch |
| `Codec.VerifiesExactlyTheSealed` | sdk/src/codec.ts:130-173 | files verify against a seal exactly when each is, byte for byte, one that was sealed; a missing file is never noticed |
| `Codec.OwnSealVerifies` | sdk/src/codec.ts:130-173 | a set of files verifies against its own seal exactly when no path carries two contents |
| `ZipDirectory.FindEocd` | sdk/src/archive.ts:141-148 | the backward search answers the last offset in range holding the end-record signature, or none |
| `ZipDirectory.WalkDirectory` | sdk/src/archive.ts:120-133 | the cursor loop collects the link names of the records it reaches and stops at a wrong signature |
| `ZipDirectory.DetectSymlinkNames` | sdk/src/archive.ts:113-139 | the scan answers the links of the directory that the last end-record signature points at |
| `ZipDirectory.WalkCollectsLinks` | sdk/src/archive.ts:120-133 | over records laid out as APPNOTE.TXT 4.3.12 has them, any name, extra and comment lengths, the walk collects exactly the unix links' names |
| `ZipDirectory.FindsTheTrueEnd` | sdk/src/archive.ts:141-148 | the search finds the true end record (APPNOTE.TXT 4.3.16) if and only if no later offset imitates its signature |
| `ZipDirectory.SymlinkNamesOf` | sdk/src/archive.ts:110-139 | on every such layout the scan answers exactly the names of the records whose host is unix and whose mode is S_IFLNK |
| `ZipDirectory.UnixSymlinksOf` | sdk/src/archive.ts:129-131 | a name is answered if and only if a record of that name is laid out with host 3 and file type 0o12, whatever its permissions and other bits |
| `ZipDirectory.LinkIsUnixSymlink` | sdk/src/archive.ts:129-131 | of the two fields as they are put together from host, version, type, permissions and low half |
| `ZipDirectory.EndIsTheLastSignature` | sdk/src/archive.ts:141-148 | by the bytes alone, the search finds the last "PK", 5, 6 within 22 + 65535 bytes of the end |
| `ZipDirectory.DecoyHidesEveryLink` | sdk/src/archive.ts:141-148 | a 22-byte comment that imitates an empty end record hides every link of any archive |
| `Container.ListEntries` | sdk/src/archive.ts:23-44 | the listing has one meta per stored entry, in order, links first, then directory markers, then files |
| `Container.InflateApproved` | sdk/src/orchestrator.ts:127-133 | inflating the planned paths answers each path's last stored bytes, or refuses on the first that no entry carries |
| `Container.Disk.WriteTree` | sdk/src/archive.ts:77-86 | writing a tree sets exactly the files' places below the destination, later files last |
| `Container.AssembleArchive` | sdk/src/archive.ts:57-64 | assembling stores each path once, a repeated path in its first place with its last contents, and nothing scans as a link |
| `Container.WritesAreVettedEntries` | sdk/src/orchestrator.ts:121-145 | whatever is inflated from a plan is the raw name and bytes of a listed regular entry that itself passed vetting, at or below the destination and no deeper than the cap |
| `Container.WrittenNamesAreAllowed` | sdk/src/orchestrator.ts:121-145 | no name an extraction writes under holds a backslash, a drive letter, a leading slash or a step upwards |
| `Container.PlanAloneApprovesADrivePath` | sdk/src/treecodec.ts:128-143 | the plan alone confines nothing: it approves `c:/x` for a stored `./c:/x`, which no entry then backs |
| `Container.WrittenTreeIsBounded` | sdk/src/codec.ts:101-114 | with true declared sizes what is written into an empty destination totals at most the aggregate cap and holds no file over the entry cap, however names repeat or collide |
| `Container.AssembledExtracts` | sdk/src/archive.ts:46-64 | distinct canonical files, assembled and accepted, inflate to themselves in order |
| `Manifests.TreeManifestRoundTrip` | sdk/src/treecodec.ts:55-87 | a tree envelope reads back as itself exactly when its project name and roots are filled and its major is known, else it is refused |
| `Manifests.PackManifestRoundTrip` | sdk/src/codec.ts:36-67 | the same for a pack envelope and its required fields |
| `ArchiveOutcomes.TreeEnvelopeIsTakenIff` | sdk/src/treecodec.ts:244-275 | the documents the tree parser takes, field by field |
| `ArchiveOutcomes.PackEnvelopeIsTakenIff` | sdk/src/codec.ts:197-224 | and the pack parser's |
| `Orchestrator.ProfilesAreNamed` | sdk/src/treecodec.ts:27 | both envelope names meet every condition the workflow theorems ask of one |
| `Orchestrator.AssertPortableTreePaths` | sdk/src/treecodec.ts:162-182 | the portability guard passes exactly when no path is a script and each is the envelope or has content under a `.wai` segment |
| `ArchiveOutcomes.PortablePathIff` | sdk/src/treecodec.ts:162-182 | a path passes when it ends in no .js, .cjs or .mjs of either case, and is the envelope or has a `.wai` between slashes with a slash after it |
| `ArchiveOutcomes.DerivedIff` | sdk/src/treecodec.ts:281-284 | regenerable is the folder `generated` or `docs` of a root, and nothing that merely starts so |
| `ArchiveOutcomes.DepthIsStarts` | sdk/src/codec.ts:248-250 | the depth of a name is the number of characters that start a segment |
| `ArchiveOutcomes.NormalizedRootIs` | sdk/src/orchestrator.ts:303-306 | a root loses at most one `./` before it and every slash after it, and nothing is `.` |
| `Orchestrator.PackRoots` | sdk/src/orchestrator.ts:170-180 | the packing loop packs each root's selected files under its prefix, in order, and lists each normalised root |
| `Orchestrator.BuildTreeArchive` | sdk/src/orchestrator.ts:162-216 | a tree build refuses an empty tree and otherwise seals, envelopes and assembles what it packed |
| `ArchiveOutcomes.TreeEnvelopeSays` | sdk/src/orchestrator.ts:182-205 | field by field, the envelope a tree build seals: the request's name, roots, state and choice, the sealer and time, and a digest of every file but the envelope |
| `Orchestrator.ExtractTreeArchive` | sdk/src/orchestrator.ts:241-293 | a tree extraction plans, guards, inflates, parses and verifies before it writes; any refusal leaves the disk as it was |
| `Orchestrator.BuildPack` | sdk/src/orchestrator.ts:47-75 | a pack build needs a readable envelope whose name and version the inner manifest repeats |
| `ArchiveOutcomes.PackBuildIsRefusedIff` | sdk/src/orchestrator.ts:312-330 | a pack build goes through exactly with a readable envelope whose name and version its inner manifest, package.json for code, repeats |
| `ArchiveOutcomes.PackEnvelopeSays` | sdk/src/orchestrator.ts:47-75 | field by field, its own envelope's text, resealed |
| `Orchestrator.ExtractPack` | sdk/src/orchestrator.ts:111-157 | the same for a pack extraction, without the portability guard |
| `RoundTrips.PrefixingIsInjective` | sdk/src/orchestrator.ts:297-306 | two roots with no `.wai` segment of their own never give two files one archive path |
| `RoundTrips.NestedWaiRootsCollide` | sdk/src/orchestrator.ts:297-300 | without that condition two roots can claim one archive path |
| `RoundTrips.PackedAreSelected` | sdk/src/orchestrator.ts:170-180 | a file is packed exactly when it is a selected file of some root, under that root's prefix |
| `RoundTrips.PackedExactly` | sdk/src/treecodec.ts:100-111 | said of the folders: every file of every root is packed, a regenerable one only on request, and nothing else |
| `RoundTrips.NormalizedRootTwice` | sdk/src/orchestrator.ts:303-306 | a normalised root is never empty and ends in no slash, and is its own normal form exactly when it does not start with `./` again |
| `RoundTrips.TreeRoundTrip` | sdk/src/orchestrator.ts:162-293 | an accepted build extracts to the sealed manifest and exactly the selected files and the envelope, byte for byte; it is refused exactly when the project name is empty or the guard meets a packed script |
| `RoundTrips.OnlySealedFilesAreWritten` | sdk/src/treecodec.ts:185-205 | any archive carrying a build's envelope, if it extracts, writes only that build's files, byte for byte |
| `RoundTrips.ExtractionsAreConfined` | sdk/src/orchestrator.ts:111-293 | over any disk, both extractions change only places at or below the destination, each to a vetted regular entry's bytes where that entry's own name lands |
| `RoundTrips.LinkedArchiveIsRefused` | sdk/src/archive.ts:110-139 | an archive laid out with a unix link the scan can see is refused by both extractions |
| `RoundTrips.PackRoundTrip` | sdk/src/orchestrator.ts:47-157 | every accepted pack build extracts to its own sealed manifest and files: no build is unreadable |
| `RoundTrips.RebuildReproduces` | sdk/src/orchestrator.ts:47-75 | building an extracted pack again at the same stamp gives the same archive |
| `ApprovalRecord.NothingMovedIff` | src/models/lock.ts:386-390 | no gate part moved exactly when the two identities are one |
| `ApprovalRecord.OnlyReleaseMovedIff` | src/models/lock.ts:381-390 | exactly the release part moved if and only if nothing the project decides differs and the built-in rules do |
| `ApprovalRecord.OnlyDesignMovedIff` | src/models/lock.ts:381-390 | nothing but the design part moved if and only if the payloads agree in everything else |
| `ApprovalRecord.OwnPartsAreUsable` | src/models/lock.ts:338-361 | a record carrying the parts of the identity it certifies is never reported as not breaking it down |
| `LockOutcomes.PartsAreUsableIff` | src/models/lock.ts:338-361 | recorded parts are believed exactly when all seven are there and they agree with the inputs just when the identity does, earlier algorithms apart |
| `ApprovalRecord.EvidenceRefresh` | src/commands/lock.ts:1213-1254 | the refresh answers a record exactly when some evidence moved, then that record with each piece brought up to date, and names each of the five kinds that moved |
| `ApprovalRecord.RefreshKeepsTheApproval` | src/commands/lock.ts:1205-1254 | refreshing keeps the approval, its time, its subject and its restamp trace, and a second refresh finds nothing |
| `SpecDiff.PairingIsSound` | src/core/approval.ts:362-375 | the pairing leaves or pairs every path once, pairs only equal specs, and leaves nothing in common on the two sides |
| `SpecDiff.PairMoves` | src/core/approval.ts:365-375 | the pairing loop takes, for each added path in order, the first removed path still free that carried the same spec |
| `SpecDiff.DiffAgainstApproval` | src/core/approval.ts:328-384 | the comparison answers changed, added, removed and moved paths, and is empty exactly when the tree is the approved one stored elsewhere |
| `SpecDiff.NoDiffIsTheSameDesign` | src/core/approval.ts:362-375 | an empty comparison means the design is the approved one |
| `Family.Workspace.RunLock` | src/commands/lock.ts:1067-1186 | one lock's outcome and the whole family after it, through every refusal, the restamp, the re-confirmation and the settling |
| `LockOutcomes.LockAnswers` | src/commands/lock.ts:1023-1186 | a lock is refused, declined or goes through exactly by the project's fields and its members' states: complete, covered by its scope, and carried over or with nothing in the way, every direct member approved where the composition requires it |
| `LockOutcomes.NewApprovalSays` | src/commands/lock.ts:1141-1163 | field by field, the record of an approval not yet on file |
| `LockOutcomes.RestampSays` | src/commands/lock.ts:965-981 | field by field, the record a restamp leaves |
| `LockOutcomes.MembersStandIff` | src/commands/lock.ts:1002-1016 | the restamp's guard holds exactly when members and parts are the pinned ones and each stands as its pin says |
| `LockOutcomes.PinsAreExactly` | src/models/lock.ts:409-424 | what a lock pins of each direct member and part |
| `LockOutcomes.IdentityIsExactly` | src/core/validation.ts:1459-1547 | an identity moves with exactly the specs wherever they lie, the built-in rules, each input of the configuration, packs, contracts and the members on record |
| `LockOutcomes.CheckAnswers` | src/commands/lock.ts:192-337 | which of the four states a check gives, in every case |
| `FamilyTheorems.StrictMeansTheWholeFamily` | src/commands/lock.ts:192-337 | strict approval at a root holds exactly when its L0 reads, its configuration file is there, and every project at every depth is approved at its own root |
| `FamilyTheorems.PlainRefusesExactly` | src/commands/lock.ts:112-171 | plain lock-check refuses exactly a broken or deleted tree, a drifted member at any depth, and an own approval that no longer covers the project |
| `FamilyTheorems.StrictImpliesPlain` | src/commands/lock.ts:192-337 | whatever passes strict passes plain |
| `FamilyTheorems.StrictDescends` | src/core/family-validation.ts:949-964 | strict approval at a root holds at each member whose own L0 and configuration file are there |
| `FamilyTheorems.UnlockedFamiliesPass` | src/commands/lock.ts:112-116 | in a family with no record the plain gate passes wherever the L0 reads |
| `FamilyTheorems.CarriedExactly` | src/core/family-validation.ts:1042-1088 | a release change carries an approval over exactly when the built-in rules are all that moved, the stamp is no newer, and the re-validation is clean |
| `LockOutcomes.BrokenDownRecordIsJudged` | src/core/family-validation.ts:1042-1088 | of any record whose parts are believed, whether its release moved, and whether that carries |
| `FamilyTheorems.ApprovedExactly` | src/core/family-validation.ts:967-1021 | a project is approved exactly when its inputs are the recorded ones or a carried release change, and its id, external pins and packs are in order |
| `FamilyTheorems.IdentityIsLocal` | src/core/validation.ts:1459-1547 | an identity is decided by the project itself and its direct members' recorded subjects |
| `FamilyTheorems.EditsBelowAreInvisible` | src/commands/lock.ts:200-204 | editing a project short of its record moves no identity but its own |
| `FamilyTheorems.WriteIsLocal` | src/core/validation.ts:1517-1531 | a record write moves no identity but the parent's, and not that when the subject stays |
| `FamilyTheorems.WriteMovesNoOtherState` | src/core/family-validation.ts:967-1021 | nor any other project's approval state |
| `FamilyTheorems.LockLeavesItApproved` | src/commands/lock.ts:1067-1186 | a lock that is not refused leaves its project approved, except exactly when it restamped past an id that moved |
| `FamilyTheorems.ReadyIsNotRefused` | src/commands/lock.ts:1023-1032 | with its direct members approved and nothing owed a lock is never refused |
| `FamilyTheorems.BottomUpConverges` | src/commands/lock.ts:896-905 | locking every project once, members first, is never refused and each stays approved, in every finite family |
| `FamilyTheorems.BottomUpEndsStrictlyApproved` | src/commands/lock.ts:192-260 | and then strict lock-check passes at the root |
| `FamilyTheorems.EveryFamilyHasABottomUpOrder` | src/commands/lock.ts:896-905 | a members-first order exists for every family |
| `Relocks.RelockWritesNothing` | src/commands/lock.ts:1165-1183 | after an ordinary lock, a second lock of an unchanged project by the same approver, over any scope of it, writes nothing |
| `Relocks.RelockAfterARestampKeepsIff` | src/commands/lock.ts:1165-1183 | after a restamp it writes nothing exactly when approver, specs as stored, pins and id are all the ones on file, and else records a new approval |
| `Relocks.LockedAtIsKeptIff` | src/commands/lock.ts:1165-1203 | an ordinary lock keeps the time on record exactly when identity, specs, pins, id and approver are all the ones on file |
| `Relocks.RestampIsInvisible` | src/commands/lock.ts:979-981 | a restamp moves no identity, subject or state anywhere in the family, its parent's included |
| `Relocks.RestampsCommute` | src/commands/lock.ts:950-989 | two restamps give the same family in either order |
| `Relocks.RestampsInAnyOrder` | src/commands/lock.ts:950-989 | any sequence of carried restamps gives the family with exactly those stamps refreshed, whatever the order |
| `Relocks.RestampedFamilyChecksAsLocked` | src/commands/lock.ts:261-278 | once every project is restamped the root checks as locked, strictly |
| `Relocks.ScopedLockConservesTheRest` | src/commands/lock.ts:1290-1346 | a scoped lock keeps the recorded digest of every path outside its scope that did not merely move, and no part but the design differs |
| `Relocks.ScopedLockPassesIff` | src/commands/lock.ts:1320-1345 | a scoped lock may go ahead exactly when nothing but the design moved and every changed, added or removed path lies in the scope |
| `FamilyRuns.OrdinaryLocksAreHonest` | src/commands/lock.ts:1127-1181 | in every interleaving of edits and lock phases with no recurring identity, what an ordinary lock writes names the identity that stood when that very lock captured, validated with no design error, took its digests and re-confirmed; the digests are that design's and no design error is counted |
| `FamilyRuns.RunsAreSound` | src/commands/lock.ts:950-1181 | in every such run every record on file, restamped or not, is proven by such a lock as soon as the project is, then or later, what it certifies, and outright where restamps refresh records they already found |
| `FamilyRuns.StrictApprovalMeansReviewed` | src/commands/lock.ts:200-260 | hence, with no recurring identity alone, strict approval means every project at every depth holds exactly a design that an ordinary lock of it reviewed |
| `FamilyRuns.RestampNamesTheApprovedDesignIff` | src/commands/lock.ts:960-989 | a restamp names the approved design exactly when the design it captured is the one it surveyed, which it never checks |
| `FamilyRuns.SteadyRestampSurveysItsCapture` | src/commands/lock.ts:950-989 | where no identity recurs, a restamp of a record it found on file surveys what it captured |
| `FamilyRuns.EditsAloneNeverFailTheGate` | src/commands/lock.ts:112-116 | no run of edits alone makes the plain gate fail in a family never locked |
| `FamilyRaces.RecurrenceApprovesTheUnvalidated` | src/commands/lock.ts:1127-1140 | an identity that leaves and returns during a lock is approved although another design was validated: strict lock-check passes and no lock reviewed what stands there |
| `FamilyRaces.RestampApprovesTheUnreviewed` | src/commands/lock.ts:960-989 | a restamp racing an edit lets strict lock-check pass over a design the validator rejects and no lock reviewed |
| `FileLock.TopNeverFalls` | src/utils/file-lock.ts:18-21 | no step lowers the highest lock file |
| `FileLock.StepKeeps` | src/utils/file-lock.ts:233-318 | every step of acquire, check and release, a create that throws among them, keeps the lock's invariant |
| `FileLock.ReleaseHandsOver` | src/utils/file-lock.ts:315-319 | from any state, a holder that leaves has ended its generation, and any other idle process then takes the next with nobody judged gone |
| `FileLock.FreeLockIsTaken` | src/utils/file-lock.ts:258-299 | whatever the folder holds, an idle process that finds the top generation over takes the next, having listed every older file to clean up |
| `FileLock.LiveLockIsWaitedFor` | src/utils/file-lock.ts:262-273 | one not over is waited on, unless judged gone, and then ended |
| `FileLock.CheckPassesIff` | src/utils/file-lock.ts:305-312 | the pre-rename check passes exactly over a lock file without a marker |
| `FileLock.CleanupLeavesOneGeneration` | src/utils/file-lock.ts:215-231 | a cleanup none of whose removals fails leaves the holder's own lock file alone |
| `FileLock.ExclusiveUnlessBroken` | src/utils/file-lock.ts:258-299 | in every interleaving two processes hold the lock at once only if the older generation was ended under its holder, by a reclaimer or by a process whose own create of it threw; one generation is never held twice |
| `FileLock.TruthfulIsExclusive` | src/utils/file-lock.ts:175-199 | where no live holder is judged gone, and creates that throw empty-handed only hit generations that are over, at most one process holds the lock |
| `FileLock.CheckMissesOnlyCleanedMarkers` | src/utils/file-lock.ts:301-312 | a reclaimed holder whose check sees no end marker has been overtaken by a later holder whose cleanup removed it |
| `LockedFile.NoLostUpdate` | src/utils/fs.ts:860-872 | in every interleaving where no landing falls between another's read and its rename the file is the landed changes applied in order, whatever the changes, and every read saw one such state |
| `LockedFile.OneChangeLandsIff` | src/utils/fs.ts:860-872 | a change left alone replaces the file with what it makes of it exactly when the lock is still its own and it has something to write |
| `LockedFile.NothingIsLostIff` | src/utils/fs.ts:860-872 | the condition is exact: appending changes lose nothing if and only if it holds |
| `LockedFile.FencedRunsAreSerial` | src/utils/file-lock.ts:301-312 | it holds wherever no rename lands under a generation somebody else ended |
| `LockedFile.TruthfulRunsAreFenced` | src/utils/file-lock.ts:329-338 | right judgements are enough for that |
| `LockRaces.ReclaimedHolderOverwrites` | src/utils/file-lock.ts:305-312 | the pre-rename check can pass over a reclaimed lock, and a landed setting is then lost |
| `LockRaces.ReclaimedAfterTheCheck` | src/utils/fs.ts:860-872 | from any state, a holder that just passed the check can be reclaimed before its rename, which then lands while another process holds the lock |
| `LockRaces.FailedCreateEndsALiveLock` | src/utils/file-lock.ts:277-283 | with nobody judged gone, a create that throws ends the generation another process won, and a third takes the next |
| `Settings.SettingsFile.SetChannelLocked` | src/config/userconfig.ts:66-73 | setting the channel replaces that field of what was loaded |
| `Settings.SettingsFile.SetDisabledAliasesLocked` | src/config/userconfig.ts:87-94 | the same for the disabled aliases |
| `Settings.SettingsFile.SetLastSeenVersionLocked` | src/config/userconfig.ts:103-110 | the same for the last seen version |
| `Settings.OtherFieldsSurvive` | src/config/userconfig.ts:10-14 | a field no setter names keeps its value |
| `Settings.SettersLoseNothing` | src/config/userconfig.ts:60-110 | in every interleaving whose landings are serial each field holds the last value a landed setter gave it, found by looking back from the end, or what it held before |
| `Settings.NormalizedTwice` | src/commands/remotebinding.ts:52-58 | normalising an instance key again changes nothing exactly when taking its trailing slashes off left no white space at the end |
| `Settings.KeyIs` | src/commands/remotebinding.ts:52-58 | a key is the address between white space, without the slashes it then ends in, in lower case |
| `Settings.CredentialFile.UpdateLocked` | src/commands/remotebinding.ts:91-103 | a credential change replaces, removes or leaves one key, and throws on an unreadable store without writing |
| `Settings.CredentialsLoseNothing` | src/commands/remotebinding.ts:85-157 | in every such interleaving an unparsable store is never replaced, and each instance reads the last change of its own |
| `PackRegistry.PathWriteBreaksIff` | src/config/project-config.ts:932-937 | a path registration breaks exclusivity exactly when the configuration it re-read selects the declared name |
| `PackRegistry.SelectionBreaksIff` | src/config/project-config.ts:904-910 | a selection breaks it exactly when a path entry of the configuration it re-read declares the name |
| `PackRegistry.RemovalBreaksIff` | src/config/project-config.ts:911-916 | a removal's save breaks the promise exactly when an entry it saves back after somebody took it out clashes beside it, through the folder, or with a name the lock holder has already checked |
| `PackRegistry.RegistrationsStayExclusiveIff` | src/commands/packs.ts:147-182 | in an interleaving of any processes no name is ever both added by path and selected, nor a check gone stale, if and only if no removal saves back such an entry |
| `PackRegistry.StaleAddBreaks` | src/commands/packs.ts:251-255 | a check gone stale does break it: `pack add`, left alone, goes on to register the pack twice |
| `PackRegistry.StaleUseBreaks` | src/commands/packs.ts:706-710 | and so does `pack use` |
| `PackRegistry.StaleRemovalBreaksExclusivity` | src/config/project-config.ts:911-916 | as coded it fails: an unuse that read early writes a dropped selection back between another command's check and its write |
| `PackRegistry.FolderNamesStayUnique` | src/commands/packs.ts:147-163 | in every interleaving, whatever removals do, no two entries of the packs folder list under one name |
| `PackRegistry.BundlesStayApartIff` | src/commands/packs.ts:937-951 | in an interleaving of any processes no name folder ever holds both a manifest and bundled versions if and only if no added folder is copied over bundled versions |
| `PackRegistry.AddIsLaidOverABundle` | src/commands/packs.ts:251-255 | `pack bundle`, `pack unuse` and `pack add` of a folder, one after another, leave both in one name folder |
| `PackRegistry.Packs.Add` | src/commands/packs.ts:201-360 | adding a pack by path refuses exactly a selected or already declared name, and otherwise copies and registers it |
| `PackRegistry.Packs.Use` | src/commands/packs.ts:668-719 | selecting a pack refuses exactly a name added by path, and otherwise replaces its namesake last |
| `PackRegistry.Packs.Bundle` | src/commands/packs.ts:892-951 | bundling refuses exactly a name declared elsewhere or a folder with a manifest of its own |
| `PackRegistry.Packs.Remove` | src/commands/packs.ts:968-1104 | removing drops exactly that entry, and a vendored pack's files with it |
| `PackRegistry.DropUndoesWith` | src/models/project.ts:902-911 | removing an entry that was just added restores the others in order |
| `PackRegistry.AddAlone` | src/commands/packs.ts:147-182 | the steps of an add left alone: refused exactly for a selected name or folder, or a name declared elsewhere; else copied and registered |
| `PackRegistry.UseAlone` | src/commands/packs.ts:706-747 | those of a use: refused exactly for a name a path entry declares or is filed under |
| `PackRegistry.BundleAlone` | src/commands/packs.ts:937-951 | those of a bundle: refused exactly for a name declared elsewhere or a folder with its own manifest |
| `BinarySwap.CandidatesDiffer` | src/commands/update.ts:483-486 | the candidate names of the search are pairwise different |
| `BinarySwap.Folder.FreeAsideName` | src/commands/update.ts:480-487 | the unbounded search ends, with the plain name where it is free, else the first free candidate |
| `BinarySwap.Folder.CleanStale` | src/commands/update.ts:495-510 | the sweep removes every listed leftover whose removal does not throw, and touches nothing else |
| `BinarySwap.SwapRunningBinary` | src/commands/update.ts:446-477 | it swaps exactly when no copy and no rename threw, throws after one, and leaves the running build aside only after two; at every moment one of the builds is recoverable, no other file moves, and what it put beside the slot is removed unless that threw |
| `GroupPlacement.RemapIsFinalUnchained` | src/commands/doctor.ts:790-795 | remapping answers where a path lies whenever no rename starts at, under or above where an earlier one went |
| `GroupPlacement.RemapIsFinalIff` | src/commands/doctor.ts:790-795 | remapping one path is right when no later rename starts at or above where the first match took it, and, unless one ends there again, only then |
| `GroupPlacement.RemapIsRightThroughoutIff` | src/commands/doctor.ts:789-822 | at every moment of a repair it is right of one path if and only if no folder rename after the first match starts at or above where that one took it |
| `GroupPlacement.RepairMisplacesAType` | src/commands/doctor.ts:789-820 | in a tree of any distinct names, a repair of a group, its child in a misnamed folder and the child's type puts the type into the folder its group has just left |
| `GroupPlacement.Depth` | src/commands/doctor.ts:796-800 | the loop counts the parent chain, stopping at the number of groups |
| `GroupPlacement.AncestorsComeFirst` | src/commands/doctor.ts:796-801 | in the sorted order every misplaced ancestor of a group on an acyclic chain comes before it |
| `GroupPlacement.LandsWhereItBelongs` | src/commands/doctor.ts:803-820 | in every repair, a finding acted on whose file is still found ends, whole, in the folder it names, wherever that folder went, when no later rename started at or above where the first took it, and, unless one ended there again, only then |
| `GroupPlacement.ActedOnIff` | src/commands/doctor.ts:803-820 | which findings are acted on, and by which rename: a folder that can be told, a file not in it, a free place |
| `GroupPlacement.Disk.Repair` | src/commands/doctor.ts:802-822 | the move loop does exactly the renames its findings ask for, in order, and all of them unless an operation threw |
| `GroupPlacement.RepairConserves` | src/commands/doctor.ts:802-822 | however far it gets every file lies whole where the renames took it, none overwritten, none added, the multiset of contents the same |

## Left out

- Compression, the bytes of local file headers and ZIP64: an archive's entries are names, bytes and declared sizes; only the central directory is read as bytes.
- The two decoders an entry name passes through (the link scan's and the zip library's) are one parameter, so a name they decode differently is not modelled.
- Windows path separators and case folding: paths are POSIX, the host separator is `/`.
- Archive inspection and version compatibility checks, the scaffold and suggested file names: they add easy members.
- The printed messages of lock and lock-check and the loops that phrase them (`whatMoved`, `repinOnly`, `memberDriftWords`, `upgradedCheck`): a check is its state and its verdict.
- Lock records of wairon 5 (formats 1 and 2, the content reading, `asRecorded`) and records that cannot be read: they are refused before any of this.
- Members referenced from a git source or a host, and the commit a member or part was read at: members are projects of the same tree; parts are pins of their content.
- The process and disk cache of release verdicts: a verdict is a function of what its key covers.
- The rules of the validator: its findings are a function of the gate payload.
- `Family.Workspace.RunLock`: reads the record, the members, the scope and the configuration at one moment, and `FamilyRuns` surveys at one moment too; in the code the restamp reads the record again and the configuration is loaded just before the confirmation, so a record replaced between those reads is not covered.
- `FileLock.ExclusiveUnlessBroken`: directory listings succeed; the code reads a folder it cannot list as one with no lock.
- Case folding of instance keys beyond the letters A to Z.
- The wait limit and age rules of the file lock: any judgement may come out either way, and a waiter simply looks again.
- `PackRegistry.Packs.Bundle`: the `bundle` flag that `markSelectionsBundled` sets afterwards on existing selections is not modelled.
- `runAliasesDisable`, which reads the alias list before it takes the lock: the no-lost-update claim is about whole-field setters.
- The non-Windows install of a new binary, the download before it and semver comparison: short straight lines and finite case splits.
- How `repairGroupPlacement` sorts its findings: the order is any that its comparison allows.
