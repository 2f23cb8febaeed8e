# The triage tool's shared state, modelled and proved

The client of this tool keeps security reports on the reader's own device. Its
hardest code looks after state that several things change at once: the passkey
vault and what it seals at rest, the caches in front of the disk, the rows that
several reports' findings merge into, the cross-report index, the workspaces
every tab shares, the triage map and its migration, and the comparison of two
bundles. This project models that code in Dafny and proves what it is for.

How the modules are laid out:

- **Rows.** `Closure` says what the equivalence closure of a relation is and when
  a labelling of elements is one. `Forest` holds the mutable union-finds (two-pass
  compression, halving, and one over ids). `WorkspaceRows`, `WorkspaceComponents`,
  `WorkspaceGroups` and `WorkspaceOutput` are `mergeReportGroups` from reports to
  rows; `LinkedGroups` and `RevalidationInputs` are the other two groupings.
  `Buckets` holds the insertion-ordered maps all of them file into.
- **The vault.** `AtRest` is what is on disk and how it is bound to its place;
  `VaultRun` the events, as stretches of code between awaits, and the invariant
  of every run; `VaultTheorems` what follows; `VaultDevice` the code changing its
  module variables in order, each method tied to the events it is.
- **Caches.** `SecureCell` is one key of the secure storage with every
  interleaving of calls, persists, hydrates and migration slots, and
  `SecureStorage` the maps over all keys. `KeptTexts` is the least-lately-read map
  of report texts, `ReportCache` and `ReportTheorems` the store of one tab with
  its write generations, `ReportStore` the code.
- **The finding index.** `FindingBuckets`, `FindingSlots` and `FindingIndex` file
  findings and take them back; `StaleVersions` is what taking back leaves when keys
  do not tell their version; `FindingRows` does so for original rows; `IndexWalk` is
  the walk over the disk with reports changing under it.
- **Workspaces, triage, comparison, codecs, generator.** `Workspaces`,
  `WorkspaceTabs`, `WorkspaceTab`; `TriageEntries`, `IgnoredTriage`, `TriageMaps`,
  `TriageSaves`; `LineDiff`, `Semver`, `VersionMoves`, `BundleDiff`,
  `BundleCompare`; `Base64`, `UriComponent`, `FindingLink`, `Splitting`; `LargeGraph`,
  `LargeGraphMaker`.

A protocol is a datatype of events, a function that applies one, and runs that are
any sequence of them. Code that changes fields is a class whose methods are proved
to do what those functions say, so that what is proved of runs is true of the code.

Where a property does not hold of the code as it is, the code is kept, a lemma
gives an input or a run on which it fails, and another says exactly when it holds.
These are worth knowing:

- A page that closes while disabling strands what is still sealed
  (`CloseWhileDisablingKeepsIff`, `CloseWhileDisablingStrands`); so does a wipe that
  could not remove everything (`WipeKeepsIff`, `PartWipeStrands`). A sibling's event
  heard after the recheck strands a save (`LateEventStrands`), and a disable begun
  before one is heard ends by pairing an old key with a new credential
  (`LateDisableMispairs`).
- A vault sweep that fails in a write can lose the entry it was writing
  (`FailedSweepLosesReport`), and a read under way then keeps its old text for good
  (`FailedSweepStaysStale`, `FailSweepKeepsIff`).
- In the secure storage an open that installs after a whole write came and went
  brings an old value back (`OpenAcrossWriteDiverges`); two failed persists leave a
  value in the cache that was never stored (`TwoFailuresDiverge`); pins compared by
  value let go too early when a value is queued twice (`RepeatedValueUnpins`,
  `SettleKeepsIff`).
- `saveFileBytes` and `deleteFile` forget the kept text before the write only, so a
  read, or a `saveFile`, in between leaves an old text kept for good
  (`ReadDuringByteSaveStaysStale`, `TextSaveUnderByteSaveStaysStale`,
  `FailedByteSaveStaysStale`).
- An index walk that reads a report with no findings while it is overwritten asks
  for no second pass (`EmptyStaleReadIsForgotten`).
- A report that files one key under two versions of a package stays listed under the
  second after it is invalidated (`InvalidatedReportStaysListed`,
  `ListingOutlivesReportIff`).
- Under the upstream lens an App finding without an id that its report marks upstream
  can drop out of its row (`IdlessUpstreamFindingLost`, `NothingLostIff`).
- Moving a report to a workspace that is listed first among its owners does nothing,
  even when others own it too (`MoveOwnsAloneIff`, `MoveToFirstOwnerPasses`).
- A triage entry set with one ignored name twice is taken for an entry that ignores
  that name and another, and dropped (`PatchedIs`, `RepeatedNameSwallowed`).
- A package whose only files on the other side are empty and unchanged is listed as
  the base's alone (`ListedBaseOnlyIff`, `PackageThereListedMissing`); the comment
  above that code says otherwise, and the model follows the code.
- Version numbers past 2 to the 53rd round alike: two such versions compare the same,
  and as prerelease ids each comes after the other (`RightIff`, `DoublesGoWrong`).
- A block that claims to be the last may change nothing (`EmptyBlockHoldsIff`,
  `ClaimsIff`).
- Percent-encoding grows a text past the three to one the code allows for, so a link
  to a long id that is not ASCII does not read back (`LinkRoundTripIff`,
  `LongLinkIsNone`).

## Model

| member | source | states |
|---|---|---|
| Forest.RowForest.FindCompress | common/workspace-groups.js:33-38 | the two-pass find returns the root every node of the tree stands for, ends, and leaves what each node stands for as it was |
| Forest.RowForest.FindHalve | common/linked-workspace-groups.js:11-14 | the halving find does the same, pointing each node it meets at its grandparent |
| Forest.IdForest.Find | common/revalidation-input-groups.js:30-39 | and so does the find over a map of ids |
| Forest.IdForest.Attach | common/revalidation-input-groups.js:43 | pointing one root at another takes the one class into the other and moves nothing else, also when they are the same root |
| WorkspaceRows.BuildRows | common/workspace-groups.js:10-30 | the rows are the groups with what the lens shows, in order, none that shows nothing |
| WorkspaceRows.BuildById | common/workspace-groups.js:45-52 | the id map lists under each id exactly its occurrences in the rows, an App one as such |
| WorkspaceComponents.Components.Union | common/workspace-groups.js:39-44 | a union takes the second class into the first, keeps every other, and keeps `hasApp` of each root true exactly when its class holds an App row |
| WorkspaceComponents.FirstPass | common/workspace-groups.js:53-64 | phase one, in any order of the ids, leaves exactly the closure of sharing an App-carried id or sharing an id within one report |
| WorkspaceComponents.SecondPass | common/workspace-groups.js:65-72 | phase two leaves exactly the closure of phase one with id sharing among rows of App-free components |
| WorkspaceComponents.TestFree | common/workspace-groups.js:68 | the flag of a root met during phase two says whether phase one gave the row an App finding, whatever phase two has joined since |
| WorkspaceComponents.HintPass | common/workspace-groups.js:73-83 | the hints leave exactly the closure of all of it with rows showing two ids of one hint |
| WorkspaceRows.PhaseTwoLeavesAppRows | common/workspace-groups.js:53-72 | along any chain of both phases from a row of an App component, phase two adds nothing |
| WorkspaceRows.SourceRowsNeverBridge | common/workspace-groups.js:53-54 | so source rows never bridge: a row of an App component is with exactly the rows phase one put it with |
| WorkspaceGroups.CombineRow | common/workspace-groups.js:91-125 | a component's row: its findings once an id, hinted ids first, then the authors' orders, then the rest |
| WorkspaceGroups.RowKeepsAll | common/workspace-groups.js:104-125 | that row shows each id once and loses no finding the first-copy rule keeps: it holds exactly those |
| WorkspaceOutput.SplitOutput | common/workspace-groups.js:144-168 | how a row is cut for a lens without the App layer |
| WorkspaceOutput.NoIdLost | common/workspace-groups.js:144-168 | whatever the lens, every id of the row is shown by one of the rows it is cut into |
| WorkspaceOutput.NothingLostIff | common/workspace-groups.js:144-168 | the cut loses nothing exactly when it is not the upstream cut of a row that holds a finding without an id and whose source rows may be split, come apart and have every id of the row |
| WorkspaceOutput.ProjectsIff | common/workspace-groups.js:149-164 | the upstream cut is made exactly when the source rows may be split, some two of their findings are chained by no input lists, and they have every id of the row |
| WorkspaceOutput.OnlyIdlessAppLost | common/workspace-groups.js:17-28 | the one finding a cut can lose is an App finding without an id that its report itself marks upstream, under the upstream lens |
| WorkspaceOutput.NothingAdded | common/workspace-groups.js:144-168 | no finding appears in a cut that was not in the row |
| WorkspaceOutput.MergeReportGroups | common/workspace-groups.js:9-142 | from reports to rows: rows share a component exactly when the closure of all the joins connects them; components come in order of first row, each as its own output; and the ruled-out ids are the refuted or unreachable ones |
| WorkspaceOutput.ShownFindingsReachOutput | common/workspace-groups.js:84-139 | every finding a lens shows comes out of its own component, under its id or, without one, itself, but for an App finding without an id that its report marks upstream, under the upstream lens |
| WorkspaceOutput.IdlessUpstreamFindingLost | common/workspace-groups.js:146-164 | an input on which such a finding is lost |
| LinkedGroups.JoinAll | common/linked-workspace-groups.js:24-34 | the links leave exactly the closure of showing two ids one of which names the other a duplicate, in any order of the ids |
| LinkedGroups.CombineRows | common/linked-workspace-groups.js:42-60 | a combined row stands for its rows' findings key by key, the visible copy where there is one, and its tabs for theirs; its workspace key is that of its first row, or its first finding's own |
| LinkedGroups.CombinedHoldsEachKeyOnce | common/linked-workspace-groups.js:47-58 | every key of the component is in the combined row exactly once, and no other; so for its tabs |
| LinkedGroups.AllApart | common/linked-workspace-groups.js:41 | the early way out, as many components as rows, is taken only when each row stands alone, and the rows then come out in their order |
| LinkedGroups.MergeLinkedWorkspaceGroups | common/linked-workspace-groups.js:9-63 | two rows share an output row exactly when a chain of links connects them, output rows in order of first row, a lone row unchanged |
| LinkedGroups.RowsStayTold | common/linked-workspace-groups.js:59 | rows known by different workspace keys, or by different first findings, come out known by different ones |
| RevalidationInputs.MaySplit | common/revalidation-input-groups.js:6-27 | a split is tried exactly when both layers are there, no App finding survives beside given ones, every source finding has an id, and the input lists name every source id and no other |
| RevalidationInputs.TakeLists | common/revalidation-input-groups.js:29-44 | the lists leave exactly the closure of being in one list |
| RevalidationInputs.FileFindings | common/revalidation-input-groups.js:46-54 | each finding is filed under the root of its id, or of its first input, or by itself |
| RevalidationInputs.SplitRevalidationInputs | common/revalidation-input-groups.js:6-56 | the group unchanged, or its cut into those classes, in order of first finding, each part in the group's order |
| RevalidationInputs.SplitConserves | common/revalidation-input-groups.js:46-55 | no finding is lost or doubled by a split |
| RevalidationInputs.SharePartIffChained | common/revalidation-input-groups.js:40-55 | two source findings share a part exactly when a chain of App input lists connects their ids |
| RevalidationInputs.ApartIff | common/revalidation-input-groups.js:40-55 | a group that may be split comes out in several parts exactly when two of its findings are not together |
| AtRest.SlotRoundTrip | client/storage.js:1294-1298 | the slot the sweep reads back from a bundle's file name is the one it was saved under |
| AtRest.MetaSlotIsReserved | client/storage.js:1294-1298 | no name but the bundle list's own gives the reserved slot |
| AtRest.AadBinds | client/passkey-vault.js:254-282 | equal additional data means the same tag, the same kind and the same slot |
| VaultRun.StepKeeps | client/passkey-vault.js:316-663 | every timely step of any tab keeps: what is sealed opens under the metadata's credential or the disabler's, each entry a sweep has visited is in its new state, no plain entry lands in a vault past its sweep, each save's bytes fit the vault they land in |
| VaultRun.RunKeeps | client/passkey-vault.js:316-663 | and so every timely run from an empty device, in any interleaving, with sweeps failing anywhere and tearing the entry they write |
| VaultTheorems.SealedEntriesOpen | client/storage.js:193-205 | in every timely run each sealed report or bundle opens with the credential in the metadata, or the one the disabler decrypts with, under its own tag and slot |
| VaultTheorems.MovedEntryOpensIff | client/passkey-vault.js:60-73 | a sealed report or bundle, moved anywhere, opens with its own key exactly at its own place and under its own tag |
| VaultTheorems.SlotNamesFile | client/storage.js:1294-1298 | and places told apart by slot alone are one file, stored names holding no slash |
| VaultTheorems.NothingPlainLands | client/storage.js:193-205 | a save that lands has its own text, sealed exactly when the vault is on |
| VaultTheorems.CompletedEnableSealsAll | client/passkey-vault.js:533-560 | a completed enable leaves every swept entry sealed to the credential just registered |
| VaultTheorems.CompletedDisableLeavesPlain | client/passkey-vault.js:593-658 | a completed disable leaves every entry plain, no metadata, no session, and the device not taken for abandoned |
| VaultTheorems.FailedDisableRestores | client/passkey-vault.js:617-636 | a disable whose sweep fails, at any entry, torn or not, and whatever other tabs did meanwhile, puts metadata and session back as they were |
| VaultTheorems.StepsKeepText | client/storage.js:1162-1222 | no step but a save landing, a write failing, a delete or a wipe changes what any entry says, except that a sweep failing in a write may tear the one entry it writes |
| VaultTheorems.FailedSweepLosesReport | client/storage.js:1184-1198 | a run in which it does, and the report is gone with the vault still on |
| VaultTheorems.UnlockedTabReads | client/passkey-vault.js:362-365 | an unlocked tab that has heard its siblings opens every sealed entry |
| VaultTheorems.RecheckKeepsIff | client/storage.js:199-204 | a passing recheck is safe exactly when the key held is the metadata's credential's |
| VaultTheorems.StartDisableKeepsIff | client/passkey-vault.js:585-612 | a disable that starts is safe exactly when the key it takes is the metadata's credential's |
| VaultTheorems.WipeKeepsIff | client/passkey-vault.js:808-864 | a wipe leaves nothing unreadable exactly when what it could not remove, whichever entries those are, holds nothing sealed |
| VaultTheorems.PartWipeStrands | client/passkey-vault.js:808-864 | a run in which it leaves a sealed report |
| VaultTheorems.CloseWhileDisablingKeepsIff | client/passkey-vault.js:610-637 | a page that goes away while disabling strands nothing exactly when nothing sealed is left |
| VaultTheorems.CloseWhileDisablingStrands | client/passkey-vault.js:610-637 | a run in which one closes with a report still sealed |
| VaultTheorems.LateEventStrands | client/passkey-vault.js:951-980 | a run in which a sibling's disable is heard after the recheck: the save lands sealed with a key nothing names |
| VaultTheorems.LateDisableMispairs | client/passkey-vault.js:617-636 | a run from an empty device in which a disable begins before a re-enable is heard: the rollback pairs the old key with the new credential, and the next save strands |
| VaultTheorems.RekeyedIsReached | client/passkey-vault.js:413-560 | the state it starts in, rekeyed behind a tab, is reached from an empty device |
| VaultDevice.Device.HandleStorageEvent | client/passkey-vault.js:951-980 | the storage event handler is the hearing step |
| VaultDevice.Device.BeginSeal | client/storage.js:193-199 | sealing up to its await, aborting exactly when the vault is on and this tab has no key |
| VaultDevice.Device.RecheckSeal | client/storage.js:200-204 | the recheck, aborting exactly when the key has changed |
| VaultDevice.Device.EncryptSweep | client/storage.js:1218-1252 | the encrypting sweep over every entry is a run of its steps; unless it fails, nothing is left to visit; if it fails, at most the entry it was writing is torn |
| VaultDevice.Device.EnableEncryption | client/passkey-vault.js:413-560 | the enabling body: refused exactly for a vault already on or an unacknowledged abandoned one; else on, all sealed unless the sweep failed, every text kept but that of the entry a failing write tore |
| VaultDevice.Device.AskAboutOrphan | client/passkey-vault.js:426-434 | the question about an abandoned vault, asked before the lock is taken |
| VaultDevice.Device.DecryptSweep | client/storage.js:1218-1252 | the decrypting sweep likewise |
| VaultDevice.Device.DisableEncryption | client/passkey-vault.js:579-663 | the disabling body: refused without metadata or key; a failed sweep restores both; a completed one leaves all plain; every text kept but that of the entry a failing write tore |
| SecureCell.StepKeeps | client/secure-storage.js:171-277 | every calm step keeps cache, pin, chain and disk in agreement, and only a call changes the value a key stands for, to what was called |
| SecureCell.ReadsLastWrite | client/secure-storage.js:189-246 | from any state in agreement, while any write is queued, reading gives the last write called, or the one that was queued before |
| SecureCell.EndsAtLastWrite | client/secure-storage.js:189-277 | once none is, the disk holds the last write called, in call order, or what the key stood for before, and a cached value is that one |
| SecureStorage.EachKeyKeepsItsLastWrite | client/secure-storage.js:171-470 | and so for every key at once, over steps of all keys in any interleaving |
| SecureCell.StaysWarm | client/secure-storage.js:303-398 | a right and present cache stays so through every calm step but the clearing at a hydrate's start |
| SecureCell.HydrateWarms | client/secure-storage.js:337-398 | a hydrate's read or install makes it so |
| SecureCell.MigrateKeeps | client/secure-storage.js:424-470 | a migration slot changes how a value is stored and no key's value |
| SecureCell.InstallKeepsIff | client/secure-storage.js:349-357 | an install is safe exactly when what was opened is still what is stored |
| SecureCell.FailKeepsIff | client/secure-storage.js:208-239 | a failed persist is safe exactly when the last write queued behind it is of another value, or, with none behind, the value cached before the call was none or the stored one |
| SecureCell.OpenAcrossWriteDiverges | client/secure-storage.js:349-357 | a run in which a write settles inside one open and the old value comes back |
| SecureCell.TwoFailuresDiverge | client/secure-storage.js:208-239 | a run in which two persists fail and the cache ends at a value never stored |
| SecureCell.RepeatedValueUnpins | client/secure-storage.js:220-230 | a run from an empty cell in which one value queued twice is unpinned while its last write waits, and a hydrate then reads the value between |
| SecureCell.SettleKeepsIff | client/secure-storage.js:220-230 | a persist that settles keeps the pin right exactly when the last write behind it is not of the same value |
| SecureStorage.Storage.SetItem | client/secure-storage.js:189-246 | setting up to its await is the call step for its key and leaves every other key alone; refused when locked or wiping |
| SecureStorage.Storage.RemoveItem | client/secure-storage.js:248-277 | removing likewise, with its own tombstone |
| SecureStorage.Storage.PersistSettled | client/secure-storage.js:220-230 | a persist that settles lets go of the pin only if it is its own value |
| SecureStorage.Storage.PersistFailed | client/secure-storage.js:231-245 | a persist that fails rolls the cache back unless a later write has pinned the key |
| SecureStorage.Storage.InstallKey | client/secure-storage.js:337-398 | an opened value is installed unless the key was pinned since |
| SecureStorage.Storage.EndMigration | client/secure-storage.js:424-446 | a migration writes what it transformed, and the cache where nothing is pinned |
| KeptTexts.ForgetIs | client/storage.js:283-288 | forgetting takes out the name's text and nothing else |
| KeptTexts.TouchIs | client/storage.js:529-535 | a text read again is last, with the same texts in the same number of characters |
| KeptTexts.TrimIsLeast | client/storage.js:278-281 | eviction leaves the longest tail that fits: exactly the least lately read go |
| KeptTexts.KeepIs | client/storage.js:273-282 | after a keep the bound holds, the text is last, and of the others exactly the least lately read that had to go are gone |
| KeptTexts.TextCache.KeepText | client/storage.js:273-282 | the code does that, with the running count always the sum of the kept lengths |
| KeptTexts.TextCache.ForgetText | client/storage.js:283-288 | and so does forgetting |
| ReportCache.StepKeeps | client/storage.js:363-504 | every step of one tab's reads, saves, deletes, quarantines and sweeps, failing or not, that ends with no other text kept keeps all kept texts true of the disk |
| ReportTheorems.KeptIsOnDisk | client/storage.js:269-323 | in every such run a kept text is what its entry decodes to, except between a commit and its own keep; one a name, within the bound |
| ReportTheorems.KeepingReadIsCurrent | client/storage.js:547-634 | a read whose generation still holds has what is on disk, so keeping it is right |
| ReportTheorems.QuarantineTakesOnlyEmpty | client/storage.js:146-166 | a quarantine removes only an entry that is empty at that moment, whatever was saved meanwhile |
| ReportTheorems.SavedTextIsKept | client/storage.js:468-474 | a text saved is served from memory at once exactly when it fits, and is what the disk holds |
| ReportTheorems.FinishKeepsIff | client/storage.js:749-753 | a save of bytes or a removal ends in agreement exactly when nothing else is kept under its name by then |
| ReportTheorems.CatchKeepsIff | client/storage.js:737-748 | a save of bytes that fails ends in agreement exactly when what is kept under its name is what the failure left there |
| ReportTheorems.FailSweepKeepsIff | client/storage.js:1184-1198 | a sweep that loses its entry keeps agreement exactly when no text of it is kept, nor in a read that may keep it |
| ReportTheorems.UndisturbedRunAgrees | client/storage.js:705-820 | runs whose byte saves, removals and sweeps overlap no keeping read and no text save of the name agree throughout |
| ReportTheorems.ReadDuringByteSaveStaysStale | client/storage.js:705-764 | a run in which a read inside a byte save keeps the old text for good |
| ReportTheorems.TextSaveUnderByteSaveStaysStale | client/storage.js:705-764 | a run in which a text save waiting under a byte save does |
| ReportTheorems.FailedByteSaveStaysStale | client/storage.js:705-764 | a run in which a byte save fails, leaves nothing, and the old text is served for good |
| ReportTheorems.FailedSweepStaysStale | client/storage.js:1184-1198 | a run in which a failing sweep does the same |
| ReportStore.Tab.StartRead | client/storage.js:529-547 | reading up to its await is the start step; a kept text is served exactly when there is one |
| ReportStore.Tab.SettleRead | client/storage.js:547-634 | a read keeps its text only if asked to and no write came between |
| ReportStore.Tab.TakeQuarantine | client/storage.js:146-155 | the quarantine under its lock is skipped when a write came between |
| ReportStore.Tab.Call | client/storage.js:363-389 | the heads of saves and deletes bump, forget and queue; an empty text is refused |
| ReportStore.Tab.Finish | client/storage.js:468-483 | a committed write keeps its text if it is one, and bumps again |
| ReportStore.Tab.BeginSweep | client/storage.js:1180-1187 | a sweep at an entry bumps its generation and forgets its text before it writes |
| ReportStore.Tab.EndSweep | client/storage.js:1188-1198 | and does neither again when the write fails, the entry removed if it was truncated |
| FindingBuckets.AddOk | client/bundle-finding-versions.js:90-107 | filing a finding gives the bucket of the links with one more: keys, one finding a key, by file, and contributing reports |
| FindingBuckets.TakeBackOk | client/bundle-finding-versions.js:108-137 | taking one back gives the bucket of the links without it |
| FindingBuckets.SameLinksSame | client/bundle-finding-versions.js:81-137 | any two buckets of the same links hold the same: keys, reports per key, one finding a key, files |
| FindingSlots.TakePackageOk | client/bundle-finding-index.js:368-403 | taking a package contribution back keeps the package, its versions and its repository counts those of what is left, and what is passed over had nothing left |
| FindingIndex.Index.IndexFindingByHash | client/bundle-finding-index.js:234-252 | filing by hash: the slots of one more filing, remembered once, and true exactly when the pair of key and report is new |
| FindingIndex.Index.IndexFindingByPackage | client/bundle-finding-index.js:268-309 | filing by package with its version and repository; remembered every time |
| FindingIndex.Index.IndexFindingByRepo | client/bundle-finding-index.js:321-336 | filing by repository |
| FindingIndex.Index.FileReport | client/bundle-finding-index.js:462-468 | all of a report's findings, each under every index that wants it |
| FindingIndex.Index.InvalidateName | client/bundle-finding-index.js:343-417 | invalidating a report leaves exactly the slots of what all others filed, and answers true exactly when the report had filed under any index |
| FindingIndex.HashesAgree | client/bundle-finding-index.js:343-364 | so after any history each hash slot equals the one built from scratch, and none is empty |
| FindingIndex.PackagesAgree | client/bundle-finding-index.js:368-403 | each package slot too, version by version, with the same repositories |
| FindingIndex.ReposAgree | client/bundle-finding-index.js:406-415 | and each repository slot |
| FindingIndex.UpstreamsExact | client/bundle-finding-index.js:389-400 | a package's repositories are exactly those some finding filed in it still carries |
| StaleVersions.ListingOutlivesReportIff | client/bundle-finding-index.js:368-403 | with no premise on the keys, after a report is invalidated a version slot still lists it under a key exactly when another report files in the package, none of those files the key there, and the report had filed the key under another version first |
| StaleVersions.InvalidatedReportStaysListed | client/bundle-finding-index.js:368-403 | an input: a key filed under two versions, another report in the package |
| StaleVersions.InvalidationKeepsKeys | client/bundle-finding-index.js:368-403 | with no premise either, invalidating leaves each package's own keys and reports those of the other reports |
| FindingRows.Rows.IndexReportRow | client/bundle-finding-rows.js:100-121 | a row indexed: its members by id and its App findings' inputs |
| FindingRows.Rows.DropReportRows | client/bundle-finding-rows.js:128-143 | a report dropped takes exactly what it filed |
| FindingRows.RowsAgree | client/bundle-finding-rows.js:100-143 | so after any history the row maps equal the ones built from scratch |
| FindingRows.EntryIs | client/bundle-finding-rows.js:102-109 | an entry lists exactly the rows of the report the id is met in, with one of their titles |
| IndexWalk.FiledIsOnDisk | client/bundle-finding-index.js:419-515 | with reports saved and deleted at any moment of a walk, once every change to a report is told what is filed of it is what is on disk, and nothing is filed twice or left stale |
| IndexWalk.RolledBackIff | client/bundle-finding-index.js:487-506 | a report invalidated while it is read files nothing, and another pass is due exactly when what was read had findings, or one was due already |
| IndexWalk.EmptyStaleReadIsForgotten | client/bundle-finding-index.js:434-437 | a run in which an overwritten empty report is neither indexed nor due again |
| LargeGraphMaker.MakeLargeGraph | examples/large-graph-sample.js:7-94 | for any random source: an error, or exactly as many files, packages and imports as asked, the stated number of them between packages |
| LargeGraphMaker.DealLevels | examples/large-graph-sample.js:18-32 | every package on one level, every level with one that may import |
| LargeGraphMaker.Shuffle | examples/large-graph-sample.js:22-23 | the shuffle is a permutation of the packages from 5 on |
| LargeGraphMaker.CountFiles | examples/large-graph-sample.js:35-41 | two files a package at least, and exactly as many as asked in all, whatever the rounding |
| LargeGraphMaker.Connect | examples/large-graph-sample.js:57-69 | every file under its package's entry, every package under one a level nearer, and no import that skips a level |
| LargeGraphMaker.FillCross | examples/large-graph-sample.js:80-86 | the imports between packages reach their number without touching those inside |
| LargeGraphMaker.FillInner | examples/large-graph-sample.js:87-92 | and those inside without touching those between |
| LargeGraph.LevelIsDistance | examples/large-graph-sample.js:16-17 | a package's level is its shortest import distance from own source: some path is that long, none is shorter |
| LargeGraph.EveryFileReached | examples/large-graph-sample.js:57-61 | every file is reached by imports from the app's entry |
| Workspaces.AddIs | client/workspaces.js:472-535 | adding changes the target's list alone, by the file |
| Workspaces.RemoveIs | client/workspaces.js:472-535 | removing changes the one workspace's list alone, by the file |
| Workspaces.MoveOwnsAloneIff | client/workspaces.js:474-483 | moving leaves the target the only owner exactly unless it was the first listed of several |
| Workspaces.MoveToFirstOwnerPasses | client/workspaces.js:474-483 | an input on which it was: the second workspace goes on listing the report |
| Workspaces.MoveOutIs | client/workspaces.js:494-503 | moving to no workspace detaches the file everywhere |
| Workspaces.MovesOnlyTheFile | client/workspaces.js:472-535 | no call changes any list but in the file, or anything else of a workspace |
| WorkspaceTabs.StepTells | client/workspaces.js:87-183 | after a step of a tab its `lastSeen` is the list, its listeners heard in that step of every change to it (its own create aside), and no other tab's moved |
| WorkspaceTabs.NoChangeUnheard | client/workspaces.js:132-183 | over any run of any tabs, no difference in what a tab has seen came about without its listeners being told of such a change |
| WorkspaceTabs.NoMissingSnapshot | client/workspaces.js:168-180 | every workspace a membership call marks has been seen: the branch for one without a snapshot is never taken |
| WorkspaceTabs.UpsertSettles | client/workspaces.js:321-372 | an upsert leaves one workspace an id, marks what it wrote, and tells what that changed |
| WorkspaceTab.Tab.Propagate | client/workspaces.js:600-629 | the two loops tell exactly the differences between the view and the list, then take the list for the view |
| WorkspaceTab.Tab.SetMembership | client/workspaces.js:472-535 | the detach and attach loops are the move, telling and marking exactly the affected, field by field |
| TriageEntries.ReportIgnoredIs | client/triage-entry.ts:143-150 | ignoring a report or not changes that report's name under that id only; a name scoped stays scoped while it is ignored |
| TriageEntries.NormalizedIsNormal | client/triage-entry.ts:69-93 | a normalized entry holds only names, scopes only what it ignores and each scoped name once, and otherwise what it held |
| TriageEntries.PatchedIs | client/triage-entry.ts:96-140 | patching one id, or setting its entry, leaves every other entry, keeps the map normal, reports a change when there is one, and holds what was given; the ignored names are those given exactly when the entry is not taken for the one held though it names fewer |
| TriageEntries.RepeatedNameSwallowed | client/triage-entry.ts:96-140 | an input on which it is: a name given twice over an entry with that name and another |
| IgnoredTriage.MigrateIsFullPass | client/ignored-triage.js:46-89 | the migration with its ways out is the two passes over every report: the same map and the same answer |
| IgnoredTriage.MigrateTwice | client/ignored-triage.js:51-89 | a second call changes nothing and says so |
| IgnoredTriage.MigrationSettles | client/ignored-triage.js:46-89 | what it comes to: every legacy ignore promoted or scoped, no name ignored anew, no bucket replaced |
| IgnoredTriage.NothingUnsettles | client/ignored-triage.js:46-50 | neither pass unsettles a settled name, in any report |
| IgnoredTriage.PromoteAllHides | client/ignored-triage.js:67-77 | no App or own-code finding a legacy ignore hid comes out without a shared bucket |
| IgnoredTriage.DependencyActionStaysScoped | client/ignored-triage.js:31-34 | a dependency's ignore or restore touches its own report's scope only and leaves a shared ignore |
| IgnoredTriage.SharedActionKeepsScopes | client/ignored-triage.js:35-40 | a shared ignore or restore leaves every report's own ignore alone |
| TriageMaps.TriageMap.MigrateIgnoredReports | client/ignored-triage.js:51-89 | the loops over the map are that migration |
| TriageMaps.TriageMap.SetReportIgnored | client/triage-entry.ts:143-150 | the code replaces the map's entry as the function says |
| TriageSaves.ReadsLastCall | client/triage.js:262-286 | after a call with something in it, reading gives that snapshot until the next call, in every interleaving of compressions and commits |
| TriageSaves.SettlesOnLastCall | client/triage.js:215-239 | for any last call, stored or not, empty or not: once all saves settle the main key holds its snapshot and nothing is pending, unless that save failed, and then main is as before and pending holds the snapshot if it was stored, else what it held |
| TriageSaves.OvertakenSavesWriteNothing | client/triage.js:215-217 | saves overtaken by a later call write neither key, in any run of commits and failures |
| TriageSaves.ReadsCallIff | client/triage.js:138-239 | after any call, stored or not, empty or not, and any commits and failures until the next, reading gives its snapshot exactly when it was stored with something in it, or has been committed, or is what was read before |
| TriageSaves.Keys.SaveTriage | client/triage.js:138-170 | the code up to its lock is the call |
| TriageSaves.Keys.Land | client/triage.js:215-239 | and the commit is the commit, tried again when the session key has changed, failed when its write is refused |
| LineDiff.BlocksHold | common/line-diff.js:41-56 | the walk with its two positions answers as the predicate over blocks |
| LineDiff.LinesRoundTrip | common/line-diff.js:10-20 | lines and the final newline give the text back |
| LineDiff.TextRoundTrip | common/line-diff.js:10-20 | and lines come back from their text |
| LineDiff.HoldsIff | common/line-diff.js:41-56 | without folding, blocks hold exactly when placed in order, rebuilding the other side's lines, and the texts end alike unless the last line is in a block and no block claims to be the last after a gap |
| LineDiff.Rebuilds | common/line-diff.js:41-56 | blocks that hold rebuild the other text character for character |
| LineDiff.FoldedIsSpaced | common/line-diff.js:21-56 | folding is the same check over the lines with their spacing folded |
| LineDiff.ClaimsIff | common/line-diff.js:41-56 | what a claim to be the last does: blocks hold and each changes a line exactly when they hold without their claims, and a claim after a gap only where the texts end alike or spacing is folded |
| LineDiff.EmptyBlockHoldsIff | common/line-diff.js:41-56 | a block that changes nothing holds exactly when it claims to be the last |
| Semver.CompareIsPrecedence | common/bundle-compare-versions.js:64-97 | comparing two versions' texts is the precedence of section 11 of Semantic Versioning 2.0.0, all three answers, where their numbers keep their order as doubles |
| Semver.RightIff | common/bundle-compare-versions.js:64-97 | for any two versions, the answer is precedence exactly when rounding does no harm to the first core numbers that differ, or, with equal cores, to the first prerelease identifiers that do |
| Semver.AllRightIff | common/bundle-compare-versions.js:64-97 | it is on all versions with numbers up to a bound exactly when no two numbers up to it round alike or out of order |
| Semver.DoublesRightUpTo | common/bundle-compare-versions.js:64-97 | as doubles none do up to 2 to the 53rd |
| Semver.DoublesGoWrong | common/bundle-compare-versions.js:64-97 | and past it there are two versions whose comparison is not their precedence |
| Semver.TextParses | common/bundle-compare-versions.js:47-54 | a version's core and prerelease come out of its text as they went in, build left off |
| Semver.PrecedesOn | common/bundle-compare-versions.js:64-97 | that precedence is transitive |
| Semver.PrecedesOneWay | common/bundle-compare-versions.js:64-97 | and one way: of two versions exactly one is first, or core and prerelease are the same |
| Semver.RoundedIdsOpposeIff | common/bundle-compare-versions.js:88-92 | two different numeric ids compare oppositely exactly when rounding keeps them apart |
| VersionMoves.DirectionIff | common/bundle-compare-versions.js:113-123 | up exactly when everything moved from is older than everything moved to, and there is something on both ends; down the other way round |
| VersionMoves.VersionsOrdered | common/bundle-compare-versions.js:64-97 | compareSemver orders any set of version texts totally, as the two lemmas on direction need |
| VersionMoves.UpIsDownSwapped | common/bundle-compare-versions.js:113-123 | a move is up exactly when its swap is down, and never both |
| BundleCompare.ComputeBundleDiff | common/bundle-compare-diff.js:220-373 | the passes over paths and renames and the cut into package lists, against their specification |
| BundleCompare.FilesConserved | common/bundle-compare-diff.js:249-310 | each side's files are those it alone has, the changed and the unchanged, none lost or counted twice, renames included |
| BundleCompare.ByteDeltaAddsUp | common/bundle-compare-diff.js:292-310 | the byte delta is what only the other has, less what only the base has, and the changes, after renames move rows over |
| BundleCompare.IdenticalIff | common/bundle-compare-diff.js:367 | identical exactly when the laid-out files are the same, content by content, and recorded alike |
| BundleCompare.PackagesConserved | common/bundle-compare-diff.js:320-342 | every package with files has one account, and the lists' bytes sum to each side's total |
| BundleCompare.InClassOnce | common/bundle-compare-diff.js:320-342 | a package is in exactly one list, once |
| BundleCompare.ListedBaseOnlyIff | common/bundle-compare-diff.js:325-329 | a package is listed as the base's alone exactly when all the other bundle has of it is empty files that did not change, and some file of the base's is neither there nor renamed |
| BundleCompare.PackageThereListedMissing | common/bundle-compare-diff.js:325-329 | an input: a package the other bundle has a file of, so listed |
| BundleCompare.LaidOutKeepsAll | common/bundle-compare-diff.js:221-225 | laying the base's files out by an injective map loses none |
| Base64.LengthIff | common/bundle-sources.js:164-174 | a length is given exactly to the canonical spellings, padded or with padding left off, of byte strings of that length (sections 3.2, 3.5 and 4 of RFC 4648) |
| Base64.SextetsRoundTrip | common/bundle-sources.js:156-173 | bytes come back from their sextets, whose number gives their length |
| FindingLink.LinkRoundTripIff | client/finding-link.js:179-258 | any link built reads back as its id and hints, the filler as absent, exactly when its escaped id is within three times the longest id, and else as no link |
| FindingLink.LongLinkIsNone | client/finding-link.js:241-252 | a linkable id, 171 characters of three octets each, whose link is none |
| FindingLink.PlainLinksRoundTrip | client/finding-link.js:179-258 | so every link of a linkable ASCII id does |
| UriComponent.EscapesRoundTrip | client/finding-link.js:179-251 | any text without lone surrogates comes back from its percent-encoded UTF-8 (section 3 of RFC 3629), which is ASCII and holds no separator |
| FindingLink.ExtractFindingRef | client/finding-link.js:216-258 | the loop over the parts reads what the recursive reading does |

## Left out

Stated weaker than the code, or on premises the code alone does not give:

- VaultRun.RunKeeps: on timely runs; a sibling's storage event reaches a tab before its recheck or its own disable, pages do not close while disabling, and a wipe leaves nothing sealed. Exactly when each step is safe without that is `RecheckKeepsIff`, `StartDisableKeepsIff`, `CloseWhileDisablingKeepsIff` and `WipeKeepsIff`. The triage blob and the secure keys are not among its entries, and an entry in local storage is not told from one in the private file system.
- VaultDevice.Device.DisableEncryption: called in a tab that has heard its siblings; where the sweep fails, and whether that write tears its entry, are parameters.
- SecureCell.StepKeeps: on calm steps: a persist that settles or fails does so as `SettleKeepsIff` and `FailKeepsIff` allow, and no open spans a whole write unless `InstallKeepsIff` allows it.
- SecureStorage.Storage.SetItem: the Web Lock that `mutate` takes across tabs, and storage events of other tabs, are not modelled; one tab's maps are.
- ReportCache.StepKeeps: one tab, the private file system only, without the local storage shadow and its fallback; a save of bytes, a removal or a sweep that loses its entry ends with nothing else kept under its name, else `FinishKeepsIff`, `CatchKeepsIff` and `FailSweepKeepsIff`.
- WorkspaceOutput.MergeReportGroups: without `conflicts`, the gap fills of `mergeReportDuplicateFields`, `_reportName` and `workspaceKey`; the copies of one id are taken for one finding.
- LinkedGroups.MergeLinkedWorkspaceGroups: the `ruledOutIds` passed on are left out; visible and retained tabs and the rows' workspace keys are given, and no row is empty.
- RevalidationInputs.SplitRevalidationInputs: the App findings passed in are App findings, as its caller passes them.
- FindingIndex.Index.InvalidateName: its buckets are values the maps hold, so that no two maps share one. A key fixes its finding's file and version, else `ListingOutlivesReportIff`. What package, version and repository a finding is of is given.
- IndexWalk.FiledIsOnDisk: a report's rows and findings are one, and a repository typed in the header is not told as a change.
- WorkspaceTabs.StepTells: a mutation and its marks are one step; a workspace without its arrays reads as one with empty ones; names come cleaned, and `createdAt` is not kept.
- WorkspaceTab.Tab.SetMembership: a tab that has just hydrated, as every mutation does first.
- LargeGraphMaker.MakeLargeGraph: names, sizes and the returned maps aside; imports are a set of pairs of files; arithmetic is over the reals, with the level weights as a parameter for the sine.
- TriageSaves.ReadsLastCall: one tab; compressing and sealing give back what they took; `applyTriageEntries` and the notifiers are not modelled.
- LineDiff.HoldsIff: `changeBlocks` finds the blocks in a library that is not part of this model.
- Semver.CompareIsPrecedence: where reading numbers as doubles keeps their order, else `RightIff`; without the trim, and without the fallback for a core that is no number.
- BundleCompare.ComputeBundleDiff: the layout and the renames are given, injective, a rename within one package; the final sorts and the rows' display fields are left out.
- FindingLink.LinkRoundTripIff: a text with a lone surrogate, which encoding refuses, is no text here; lengths are counted in UTF-16 units.
- WorkspaceGroups.CombineRow: the copies of one id are taken for one finding, so nothing is filled from a later copy and no conflict is found.
- TriageEntries.PatchedIs: what is neither bucket nor ignore is held as it comes, its fields taken for clean; an entry with the older `deleted` mark is not one here.

Not modelled at all:

- WebAuthn, WebCrypto, PBKDF2, gzip and deflate: sealing is a constructor that opens only under its key and additional data.
- The private file system, local storage and Web Locks as interfaces: they are maps, failable steps and the lock conditions of events.
- `computeResolutionDiff`, `comparePackages`, `computeVersionUpdates` and `compareVersionsDesc`: set differences and sorts over what is modelled here, which would only add easy members.
- `readIgnoredReportContexts`, `migrateStoredIgnores`, `buildFindingUrl`, `parseFindingUrl`, `computeLinkHint` and the hint cache: plumbing around the modelled members.
- The libraries for classification, rename finding, layout, hashing and rendering: parameters with the contracts named above.
- The end-to-end server, `risk/`, the build scripts, the command line and the user interface's own state.
