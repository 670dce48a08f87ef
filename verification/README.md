# fc-userscan: a verified model

fc-userscan walks a directory tree with parallel workers, looks for Nix store references in file contents,
caches scan results by inode and ctime, and turns the references into garbage collection roots: a tree of
symbolic links that the Nix garbage collector respects. This project models that program in Dafny and proves
what it is for: whatever the interleaving of the workers and whatever the cache holds, a run registers exactly
what a plain recursive scan finds, and the links on disk afterwards are exactly the ones asked for.

| file | models |
|---|---|
| `StoreRegex.dfy` | the regular expression: its language, greedy matches, all matches of a text |
| `Scanner.dfy` | scanning one entry: match loop, quick check, ZIP archives, symlinks, sorting and deduplication |
| `Output.dfy` | the uncoloured listing |
| `Spelling.dfy` | constants, pattern, listing and paths, spelled out as text |
| `StorePaths.dfy` | entries, failures, scan results |
| `Cache.dfy` | the cache: opening, lookup, insertion, commit, and whole sequences of runs |
| `FileTree.dfy` | an abstract file system and the system calls the registry makes |
| `Registry.dfy` | sweep, link, register, commit |
| `Reconciliation.dfy` | what a commit achieves |
| `Walk.dfy` | the plain scan, and the parallel walk as a step system |
| `PlainScan.dfy` | what the plain scan finds, and when it gives up, in terms of the tree |
| `WalkTheorems.dfy` | invariants and results over all runs |
| `CacheLimits.dfy` | when a limited cache makes a run abort |
| `CacheRuns.dfy` | the cache operations of a run, and what the next run finds in the file |
| `Schedules.dfy` | building runs: a worker visits what it is told to, in a given order |
| `LimitExact.dfy` | exactly which limits let the interleaving decide whether a run aborts |
| `RunOutcome.dfy` | deliveries, counted problems, registered links and exit status of a run |
| `LinkTargets.dfy` | exactly when the interleaving decides where links point |
| `Processing.dfy` | visiting one entry with the shared cache object, tied to the step system |

Conventions:

- Bytes are a newtype, paths are sequences of components, link targets are the text of the path.
- A *run* is any finite sequence of enabled steps: workers take, look up, scan, check, insert, report, send and
  descend in any order; the registry and the statistics receive in any order; then the phases follow.
- The *world* of a statement is the set of entries it concerns. `StampsDetermine` says that among them inode and
  stamp (ctime, nanoseconds modulo 256) determine the scan result; this is what the cache relies on, and it
  includes that the scanner settings are fixed, that the unzip globs do not tell hard links apart, and that inode
  numbers are not shared by several devices. `Sound` says that every line that would hit holds what a fresh scan
  finds.
- Permissions are a set `denied` of paths that must not be changed; every registry operation says when it fails.
- *Needed* entries are those the plain scan comes by that must have a line in the cache. `LimitSuffices` is a condition
  on the start alone: loaded and needed inodes stay below the limit (`Roomy`), or every needed entry hits or finds room
  beside the loaded lines, each hard link counted (`Fits`), or a single worker meets no line that is out of date and
  they do not exceed the limit (`FitsInTurn`). `Hopeless` means that no order of visits can get all needed lines in.
- `FoldersOnly` says that only directories have anything below them, `SameStamps` that entries with the same inode have
  the same stamp; both hold of any directory tree that does not change during a run.
- Privilege changes are no-ops; contents and metadata do not change during a run.

Where the code and its documentation differ, the code is modelled:

- A damaged cache file is treated as an empty map (`src/cachemap.rs:92-99`); the manual page announces an abort.
- `cleanup` removes every link not yet seen, dangling or not (`src/registry.rs:150-158`), and a commit calls it
  before anything was seen.
- A cache that failed to save calls itself clean (`src/storepaths/cache.rs:65`): `FailedSaveBreaksSync`.
- Archive members are scanned in one growing buffer (`src/scan.rs:110-127`), so an archive may be reported to hold
  a reference none of its members holds: `ZipInventsReference`; `ZipIsUnion` says exactly when it does not.
- A full cache rejects an insertion even for an inode it already holds (`src/storepaths/cache.rs:128-130`). So when the
  needed lines reach the limit exactly, the interleaving can decide whether a run aborts: `EveryRunPlainIff` says for
  which limits it never does, `HardLinksDecide` gives the smallest example.
- The registry is chosen by `--register` alone (`src/main.rs:107`), while the commit asks whether `--list` is absent as
  well (`src/main.rs:165`). Here `register` stands for a run with the registry that makes links.

## Model

| member | source | states |
|---|---|---|
| StoreRegex.MatchIsLanguage | src/scan.rs:24-25 | the positional match predicate is membership of the slice in the denoted language of the regular expression |
| StoreRegex.GreedyIsLongest | src/scan.rs:24-25 | the greedy end is that of the longest match at a position |
| StoreRegex.NoOverlap | src/scan.rs:24-25 | no match can begin inside another one |
| StoreRegex.MatchesExact | src/scan.rs:78-81 | the list of matches holds exactly the matching positions with their greedy ends, in order and disjoint |
| StoreRegex.RefsExact | src/scan.rs:78-81 | a reference is listed if and only if some match captures it |
| StoreRegex.RefsWellFormed | src/scan.rs:24-25 | every capture is 32 hash bytes, a dash and at least one name byte |
| StoreRegex.SeparatorSplits | src/scan.rs:24-25 | a byte outside the match alphabet separates the text into independently scanned parts |
| Spelling.Letters | src/scan.rs:24-25 | the constants and both classes of bytes, written out as text |
| Spelling.StartSpelled | src/scan.rs:24-25 | where a match can begin: the text `/nix/store/`, 32 hash bytes, a dash and a name byte |
| Scanner.CapturesIter | src/scan.rs:78-81 | leftmost, greedy, non-overlapping iteration reports every matching position of the text |
| Scanner.FirstCapture | src/scan.rs:143-146 | a symlink target yields the first capture of all, or none |
| Scanner.ScanRegular | src/scan.rs:59-100 | result and error of a regular file; files below 45 bytes are never opened |
| Scanner.MinimumLength | src/scan.rs:28-28 | contents below 45 bytes hold no reference, and 45 bytes can hold one |
| Scanner.QuickcheckRefines | src/scan.rs:66-75 | the quick check gives the full scan or nothing; exactly when it loses references, and that they all start late |
| Scanner.ScanZipArchive | src/scan.rs:103-135 | the archive loop with its growing buffer, stopping at the first unreadable member |
| Scanner.ZipExact | src/scan.rs:118-128 | reported are exactly the members' own references and those of matches straddling a member boundary |
| Scanner.ZipIsUnion | src/scan.rs:118-128 | the report is the union of the members' references if and only if straddling matches capture nothing new; always so if each member ends outside the alphabet |
| Scanner.ZipInventsReference | src/scan.rs:118-128 | two members without references whose archive is reported to hold one |
| Scanner.CanonicalForm | src/scan.rs:220-221 | sorting and deduplicating gives the one strictly sorted list of the elements: equal for two lists if and only if they have the same elements |
| Scanner.LessExact | src/scan.rs:220-220 | references are ordered byte by byte, a proper prefix first |
| Scanner.FindPaths | src/scan.rs:163-224 | scan of an entry by its kind, with the failures of each kind |
| Scanner.FoundRefs | src/scan.rs:215-224 | every scan result is strictly sorted and well-formed |
| Output.WriteStorePaths | src/output.rs:69-81 | the pieces written make up the listing, in both formats |
| Output.PrintThenScan | src/output.rs:69-81 | scanning a listing gives the matches in the file name, then the references in order, then those of what follows |
| Output.ListingLines | src/output.rs:69-81 | one line per file in one-line format, else a line for the name, one per reference and an empty one |
| Output.PrintAllThenScan | src/output.rs:69-81 | the same for the listing of a whole run |
| Spelling.OneLineText | src/output.rs:69-81 | the one-line listing of a file, written out as text |
| Spelling.LinesText | src/output.rs:69-81 | the listing in several lines, written out as text |
| Spelling.PathTextExact | src/output.rs:70-74 | the text of a path splits at its slashes into the components; different paths have different texts |
| Cache.Cache.Open | src/storepaths/cache.rs:38-61 | new state from the file; an undecodable file gives an empty clean map, an empty file a dirty one |
| Cache.Cache.Get | src/storepaths/cache.rs:79-90 | a hit needs inode, metadata and equal stamp; it marks the line as used |
| Cache.Cache.Lookup | src/storepaths/cache.rs:92-120 | directory, hit or miss, with the counters |
| Cache.Cache.Insert | src/storepaths/cache.rs:122-137 | new state and the errors, in the order the code checks them |
| Cache.Cache.Commit | src/storepaths/cache.rs:63-77 | if dirty, unused lines go and the rest is written; the outcome of a failed save |
| Cache.OpenSynced | src/storepaths/cache.rs:47-57 | a freshly opened cache holds the lines of the file, none of them used, and is dirty exactly if the file was empty |
| Cache.OperationsKeepSynced | src/storepaths/cache.rs:63-137 | while clean, the file decodes to the map up to `used`; after a commit exactly if the save succeeded or the remains agree |
| Cache.PlaySynced | src/storepaths/cache.rs:79-137 | in every state an opened cache reaches before its commit, clean means in agreement with the file |
| Cache.FailedSaveBreaksSync | src/storepaths/cache.rs:63-77 | a failed save after which a clean cache and its file differ |
| Cache.SessionsKeepSound | src/storepaths/cache.rs:38-137 | over any number of runs with any save outcomes the file holds only what fresh scans find |
| Cache.HitEqualsFreshScan | src/storepaths/cache.rs:79-90 | every hit of every run equals a fresh scan |
| Cache.UsedIsTouched | src/storepaths/cache.rs:85-85 | the used flags are exactly the inodes hit or inserted in the run |
| Cache.SessionKeepsTouched | src/storepaths/cache.rs:63-77 | a saved dirty run leaves exactly the inodes it touched in the file; a clean one leaves the file alone |
| Cache.DirtyExact | src/storepaths/cache.rs:122-137 | a cache becomes dirty exactly by an insertion of a result that was not cached and for which there was room |
| Cache.SessionExact | src/storepaths/cache.rs:38-77 | a file that was not empty, however damaged, is left alone unless something was inserted, whatever becomes of the save; otherwise a save leaves exactly the inodes touched |
| Cache.SurvivorTouchedInEveryRun | src/storepaths/cache.rs:63-77 | a line that survives several dirty runs was touched in each of them |
| Cache.SizeBounded | src/storepaths/cache.rs:127-130 | with a limit, the map never outgrows both the limit and the loaded size, and loses nothing before the commit |
| Cache.NewInodesBounded | src/storepaths/cache.rs:127-130 | at most limit minus loaded size inodes are ever added |
| FileTree.FileSystem.CreateDirAll | src/registry.rs:174-174 | succeeds exactly if every missing directory may be created and nothing else is in the way; adds just those |
| Registry.RegistryWorker.SweepEntry | src/registry.rs:140-161 | what the sweep does with one entry |
| Registry.RegistryWorker.Sweep | src/registry.rs:136-162 | a pre-order walk that deletes as it goes removes exactly the unseen links and the directories that were empty before; its count and its failure |
| Registry.RegistryWorker.Cleanup | src/registry.rs:132-163 | the sweep, or nothing if the directory does not exist; handled links stay in place |
| Reconciliation.LinkDirInside | src/registry.rs:166-170 | links of scanned paths live under the absolute path of the path's directory, inside `topdir`; different parents have different directories |
| Reconciliation.RelativeAsAbsolute | src/registry.rs:166-170 | a relative scanned path is registered where the absolute path it stands for is, and one without a parent under the current directory |
| Registry.RegistryWorker.CreateLink | src/registry.rs:172-178 | creates missing directories and the link, and remembers it |
| Registry.RegistryWorker.Link | src/registry.rs:183-206 | succeeds exactly if all links handled so far and this one fit together into the tree; the new tree and the count |
| Registry.RegistryWorker.Register | src/registry.rs:209-212 | the same for all references of one path, with the number of links changed |
| Registry.GCRoots.RegisterLoop | src/registry.rs:71-76 | everything received is queued in order, and listed if and only if that was asked for |
| Registry.GCRoots.Commit | src/registry.rs:78-106 | when a commit succeeds, the resulting tree, both counts, what even a failed commit leaves alone, and that the user's directory is created if that is possible |
| Registry.NewGCRoots | src/registry.rs:48-67 | a user name, a current directory and an absolute start directory are needed, asked for in this order; where the links live |
| Registry.PlaceableStep | src/registry.rs:183-206 | a further link can be placed after the others if and only if all of them fit into the original tree |
| Registry.SweepKeepsWanted | src/registry.rs:150-153 | a sweep that spares the handled links keeps them and the directories above them |
| Reconciliation.FirstAsker | src/registry.rs:188-190 | the first queued path that asks for a link name decides where it points |
| Reconciliation.LinkNameExact | src/registry.rs:109-111 | a link is named by the first 32 bytes of the reference, directly inside its directory; for a well-formed reference these are the whole hash |
| Reconciliation.SameNameIff | src/registry.rs:184-186 | two references share a link exactly if directory and first 32 bytes agree |
| Reconciliation.FirstRef | src/registry.rs:183-190 | a path asks for links named by the first 32 bytes of its references, each pointing below `/nix/store/` to the first reference with these bytes |
| Reconciliation.ReconciledExact | src/registry.rs:78-106 | for any wanted links: exactly those below `topdir`; elsewhere nothing is lost and only links and directories above them are new |
| Reconciliation.CommitExact | src/registry.rs:78-106 | for paths below the start directory the links below `topdir` are exactly the wanted ones, nothing else changes outside, and all of them count as new |
| Reconciliation.NamesIgnoreOrder | src/registry.rs:87-91 | the arrival order never affects which links and nodes exist |
| Reconciliation.OrderIrrelevantIff | src/registry.rs:87-91 | the targets are the same for every arrival order if and only if no two queued paths disagree about a name |
| Reconciliation.Confluence | src/registry.rs:78-106 | without disagreement, success and the whole resulting tree do not depend on the arrival order |
| Reconciliation.SweepAndLinkCommute | src/registry.rs:132-206 | sweeping then linking and linking then sweeping leave the same links |
| Reconciliation.SweepHelpsLinking | src/registry.rs:85-91 | whatever can be linked before a sweep can be linked after it |
| Reconciliation.SurvivorsExact | src/registry.rs:132-163 | which nodes survive any number of sweeps: those above something kept for good or deep enough |
| Reconciliation.SweepLowersByOne | src/registry.rs:132-163 | where nothing is kept for good, a sweep removes all links and lowers the tree by exactly one level |
| Reconciliation.SweepsErase | src/registry.rs:132-163 | as many sweeps as there are levels erase the tree, fewer do not |
| Reconciliation.SweepsLeaveKeepers | src/registry.rs:132-163 | in the end exactly the files, seen links and undeletable directories remain, with what is above them |
| Scanner.ScanFailures | src/scan.rs:163-224 | every failure of a scan and exactly when it occurs: each kind of read error, a damaged archive, a broken traversal, an unknown type, and no other |
| Scanner.SymlinkScan | src/scan.rs:137-155 | a readable symlink yields what its leftmost match captures, or nothing exactly if there is no match |
| Scanner.RegularScan | src/scan.rs:59-100 | a readable file yields exactly the captures of its matches, unless no `/nix/store/` ends within the quick check's limit |
| Scanner.ArchiveScan | src/scan.rs:103-135 | a readable archive yields exactly the references of its members and those that straddle their boundaries |
| PlainScan.VisitQuitsIff | src/walk.rs:43-102 | exactly which entries stop the walk; sockets, vanished files, damaged archives and other read errors do not |
| PlainScan.GivesUpExact | src/walk.rs:68-107 | the plain scan gives up exactly if it comes by an error item or an entry that stops the walk |
| Walk.StepShrinks | src/walk.rs:43-135 | every step of a worker, a receiver or the main thread uses up some of the work left |
| Walk.RunsAreBounded | src/walk.rs:68-135 | no run is longer than the work it starts with, so every run ends |
| Walk.NeverStuck | src/walk.rs:112-135 | a state that is not final allows a step |
| Walk.RunsFinish | src/walk.rs:112-135 | every run can be brought to its end |
| Walk.AloneIsRun | src/walk.rs:43-65 | a worker's undisturbed chain of steps, from any position, is one of the interleavings |
| PlainScan.PlainScanReached | src/walk.rs:43-65 | unless it gives up, the plain scan finds exactly what the entries hold that are on the start device and not below something known to be elsewhere |
| PlainScan.PlainScanExact | src/walk.rs:43-65 | unless it gives up, the plain scan of a tree in which only directories with metadata contain anything finds exactly the scan results, not empty, of the entries that, with all entries above them, are on the start device |
| PlainScan.PlainScanCounts | src/walk.rs:43-65 | and each of them once for every place where such an entry occurs |
| PlainScan.ProblemsExact | src/walk.rs:48-99 | what an entry adds to the reported problems: nothing if it vanished or has an unknown type, one if it cannot be read otherwise or its archive is damaged, else one for a partial error and one for a directory without metadata; nothing where a failed scan ends the walk |
| PlainScan.SomethingReported | src/walk.rs:48-99 | problems are reported exactly if the scan comes by an entry that is good for one |
| WalkTheorems.EffectGood | src/walk.rs:43-65 | each step keeps the cache sound and handles only results of fresh scans |
| WalkTheorems.EffectAccounts | src/walk.rs:43-65 | each step hands on exactly the findings it takes, unless it aborts for a reason the plain scan shares or a full cache |
| WalkTheorems.RunDeliversPlainScan | src/walk.rs:43-124 | without an abort the registry receives exactly the findings of the plain uncached scan, in any interleaving |
| RunOutcome.RunDeliversExactly | src/walk.rs:43-124 | without an abort, in any interleaving, the registry receives exactly the scan results, not empty, of the entries that, with all entries above them, are on the start device, once for every place |
| RunOutcome.AbortQuits | src/walk.rs:74-107 | an aborted walk was told to quit, no other was, and after that no worker takes another entry |
| CacheLimits.EffectAborts | src/walk.rs:43-102 | a worker's step aborts only where the plain scan gives up or when a needed line finds no room |
| CacheLimits.RoomyRunAbortsIff | src/storepaths/cache.rs:122-137 | if loaded and needed inodes stay below the limit, a run aborts exactly if the plain scan gives up |
| CacheLimits.FittingRunAbortsIff | src/storepaths/cache.rs:122-137 | the same if every needed entry hits, or the limit leaves room for the loaded lines and one for each that does not, each hard link counted |
| CacheLimits.OverflowingRunAborts | src/storepaths/cache.rs:122-137 | if loaded and needed inodes exceed both the limit and the loaded size, every run aborts |
| CacheLimits.FullRunAbortsIff | src/storepaths/cache.rs:122-137 | if the cache is full from the start, a run aborts exactly if the plain scan gives up or a needed entry does not hit |
| CacheLimits.SingleRunAbortsIff | src/storepaths/cache.rs:122-137 | with one worker, the same if no loaded line is out of date and loaded and needed inodes do not exceed the limit |
| LimitExact.EveryRunPlainIff | src/storepaths/cache.rs:122-137 | a run aborts if and only if the plain scan gives up, in every interleaving, exactly if the plain scan gives up or the limit suffices; otherwise there is a run that aborts all the same |
| LimitExact.SomeRunSucceedsIff | src/storepaths/cache.rs:122-137 | some interleaving does not abort exactly if the plain scan does not give up and the limit is not hopeless |
| LimitExact.InterleavingDecidesIff | src/storepaths/cache.rs:122-137 | the interleaving alone decides whether a run aborts exactly if the plain scan does not give up and the limit neither suffices nor is hopeless |
| LimitExact.HardLinksDecide | src/storepaths/cache.rs:128-130 | an instance: two hard links, two workers, an empty cache with room for one line |
| WalkTheorems.CommitOrder | src/walk.rs:103-131 | an abort is final and nothing on disk changes after it, nor in a run that does not register; the cache file changes only after the links were reconciled |
| WalkTheorems.FindingsHashable | src/registry.rs:109-111 | every list that reaches the registry is strictly sorted and well-formed, so taking the hash never fails |
| WalkTheorems.RunLeavesPlainLinks | src/walk.rs:112-135 | after a registering run the links are those the plain scan asks for |
| LinkTargets.RunLinksExactly | src/walk.rs:112-135 | after a registering run the links are, for each reference that an entry on the start device holds, one in the directory named after the entry's, named by the reference's first 32 bytes and pointing to a reference with these bytes; and no others |
| WalkTheorems.RunsAgree | src/walk.rs:112-135 | two runs over the same tree end with the same links, whatever their interleaving and caches |
| Reconciliation.SuccessIgnoresOrder | src/registry.rs:78-106 | whether a commit succeeds does not depend on the arrival order, even where paths disagree about targets |
| RunOutcome.RunRegistersIff | src/walk.rs:112-135 | with a limit that suffices, a finished run has registered its links exactly if the plain scan does not give up and its findings can be committed |
| RunOutcome.RunCountsProblems | src/statistics.rs:127-138 | without an abort, exactly the problems of the plain scan are counted, whatever the cache and the interleaving |
| RunOutcome.ExitStatusExact | src/main.rs:149-156 | the exit status follows from the tree, the link directory and whether the cache could be saved; it is 1 exactly if the scan comes by an entry that is good for a problem |
| LinkTargets.SameTargetsIff | src/registry.rs:183-206 | where registering runs succeed at all, all of them end with the same links exactly if the findings of the plain scan agree about the target of each name; otherwise two runs from the same start end differently |
| CacheRuns.RunIsPlay | src/storepaths/cache.rs:79-137 | up to its commit the cache of a run, in any interleaving, is that of a sequence of lookups and insertions from the scanner |
| CacheRuns.RunSynced | src/storepaths/cache.rs:63-137 | in every state of a run before the commit, a clean cache agrees with its file |
| CacheRuns.RunKeepsTouched | src/storepaths/cache.rs:63-77 | after a run that ended well, a cache file that was not empty is unchanged if no worker inserted a line; otherwise it holds exactly the inodes some worker hit or inserted |
| CacheRuns.NextRunHits | src/storepaths/cache.rs:63-90 | after a run that ended well, every entry that needs a line hits in the next run over the same tree, which inserts nothing and fits any limit |
| WalkTheorems.RunLeavesSoundCache | src/walk.rs:125-131 | the cache file left by a run is a sound start for the next one |
| WalkTheorems.RunCacheBounded | src/storepaths/cache.rs:127-130 | the size bound holds in every interleaving |
| WalkTheorems.CacheHasOneOwner | src/walk.rs:115-130 | after the walk no copy of its context is left, so both receive loops end; when the cache is committed, the reference handed back by the walk is the only one |
| Processing.ProcessingContext.Store | src/walk.rs:59-64 | what was inserted is sent to the registry exactly if it holds a reference |
| Processing.ProcessingContext.ScanEntry | src/walk.rs:43-65 | visiting an entry with the cache object does to cache, statistics and registry what an undisturbed worker of the step system does; what was found is sent exactly if it is not empty |
| Processing.ProcessingContext.VisitItem | src/walk.rs:69-102 | the same for the walker's callback, with the abort flag, the answer to the walker and the number of problems reported |
| Schedules.AloneIsVisit | src/walk.rs:43-65 | with a sound cache, a worker that nobody disturbs does at an entry what the plain scan does there, and aborts exactly where that gives up or when a needed line finds no room; the cache afterwards |

## Left out

- Scanner.ScanRegular: does not return the number of bytes scanned, which only feeds the statistics' figures.
- Scanner.ScanZipArchive: likewise, no number of bytes scanned.
- Scanner.FindPaths: likewise, and no waiting for a lower system load.
- Output.WriteStorePaths: the output stream takes everything; write errors are not modelled.
- Cache.Cache.Open: errors of creating, opening or locking the cache file are not modelled; such a run does not begin.
- FileTree.FileSystem.CreateDirAll: a symbolic link to a directory counts as an obstacle, where the system call follows it, because path resolution through links is not modelled.
- Registry.RegistryWorker.Sweep: errors of the directory walk itself are not modelled.
- Registry.RegistryWorker.Cleanup: likewise; and a link directory for the scan that is itself a symbolic link is treated like any other link, without asking whether its target exists.
- Reconciliation.CommitExact: requires scanned paths strictly below the start directory; ReconciledExact covers the general case, including a start directory that is itself a file.
- The bytes of the cache file: an image is blank, encodes a map without the `used` flags, or does not decode. In particular the output bound of ten times the compressed size (`src/cachemap.rs:87`), which makes a highly compressible cache unreadable, is not modelled.
- The walker's filters, symbolic-link policy and work stealing: the tree to be walked is given, an unreadable directory shows up as an error item, and any worker may take any pending entry. The sweep visits a directory before its entries, in any order otherwise.
- Failures of single system calls other than for lack of permission or because of what is already there.
- Relative path components `.` and `..`, and the difference between link targets spelled differently but equal as paths.
- The memoised metadata of `StorePaths`: the entry's own metadata are used, which do not change during a run.
- The statistics' figures, progress, logging, colours, hit ratio: of the statistics only the counted problems are modelled.
- The registry that makes no links, privilege changes, command-line options: whether to register and where are parameters.
