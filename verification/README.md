# Verified model of the transfer engine, the filters and the full scans

This project models five parts of the DSX-Connect repository in Dafny and proves what they promise.

**Guarded transfer** (`Policy`, `Transfer*`, `SinkPaths`, `FileTree`). A pool of asynchronous workers copies the files of a
folder to a sink; each file is scanned first, a policy decides, and every decision goes to a buffered audit log, a
checkpoint and a set of counters. `Transfer` is the engine as a transition system: one step is the code between two
`await`s, and the scheduler, the scanner, the sink, the failing disk and the moment of an abort are parameters of the
events. `TransferRuns.Execute` gives the state after any list of events, and the theorems hold for all of them.
`TransferRunner` is the same engine as an object with the source's mutable variables; each of its methods is proved to do
what a step says.

**Include/exclude filters** (`FilterSpec`, `FilterSpelling`, `FileWalk`, `Enumerate`, `EstimateEffect`, `PathFilter`,
`FilterAgreement`, `GlobIncludes`, `PrefixHints`, `HintCoverage`, `PathIncludes`). One filter is answered by a pruned directory
walk, an unpruned asynchronous walk, a predicate on a single path and a bucket listing narrowed by prefix hints. The project
proves what the spellings of a filter mean, what each of the four yields, and exactly where they agree.

**Full scans** (`FullScan`, `FilesystemScan`, `S3Scan`, `AzureScan`, `Paging`). The three enqueuers with batches, limits,
bounded work in flight and failing sends, and the paging of asset discovery.

**Interval overlap** (`Sweep`) and **env files** (`EnvFile`, `EnvFileProofs`, `EnvText`, `EnvRoundTrip`, `EnvRestart`, `EnvExamples`,
`EnvLauncher`, `EnvDesktop`): the sort-and-sweep over scan stages, and the line upsert of env files against its two readers.

What the proofs found in the code:

- An item whose identity is `__proto__` never gets a checkpoint record (`TransferTheorems.CompletedCoversEveryItem`,
  `TransferExamples.ProtoHasNoRecord`).
- A folder sink at `/` refuses every file, because the guard looks for a destination starting with `//`
  (`SinkPaths.GuardIsContainment`, `SinkPaths.ListedDestination`).
- A cancelled transfer can leave a payload at the sink whose item has no outcome (`TransferExamples.AbortDuringCopy`);
  `TransferStranding.PayloadWithoutOutcome` says exactly when.
- A transfer report is handed out, also with a cancellation, only when the audit file and the checkpoint are complete
  (`TransferTheorems.ReportsAreComplete`); after a failed append there is none
  (`TransferTheorems.NoReportAfterFailedAppend`).
- With excludes, the size estimate can change which files the asynchronous walk yields, although its documentation promises
  the same filtering (`FilterAgreement.ExcludesShowTheEstimate`); `EstimateEffect.EstimateAdds` says exactly which.
- Excluding the scanned folder's own name drops its top files in the walk, but not in the single-path predicate
  (`FilterAgreement.OwnNameDropsTopFiles`, `FilterAgreement.AgreementExactlyWhen`).
- Prefix hints are described as safe, yet lose an object whose name is exactly a bare include
  (`PrefixHints.BareIncludeIsLost`, `PrefixHints.HintsLoseOnlyBareNames`).
- A path of folders as an include, such as `a/b`, means the files below that folder to the walk, but to the single-path
  predicate the files whose path ends in it; a bucket listing under that include asks for the objects below the folder and
  then keeps none of them, unless the path comes again at its end (`PathIncludes.PathAgreement`, `PathIncludes.PathListing`).
- The include `a/` does not take all files below a folder in the predicate: it takes those exactly two levels below a folder of
  that name at any depth (`GlobIncludes.SlashAccepts`). The prefix hints for `a/` and `a/**` look only below the folder `a` at
  the top, so that matching objects elsewhere are lost (`HintCoverage.FolderHintFetches`, `HintCoverage.FolderHintLoses`).
- `-v` means the same as `--exclude v` except when `-v` is itself read as a directive, as in `--exclude -include=x`
  (`FilterSpelling.DashSpelling`); an include with a dash in front of its value is an exclude
  (`FilterSpelling.EqualsSpelling`).
- After saving settings, a running connector and a restarted one see different values when the value has outer blanks or
  quotes, or a character other than CR and LF at which `splitlines` ends a line, such as a vertical tab
  (`EnvRestart.RestartAgreesExactlyWhen`, `EnvExamples.QuotesAreLost`, `EnvExamples.VerticalTabIsCut`). Such a character also
  makes the file grow at every save (`EnvRoundTrip.BreaksPileUp`).
- A NUL in a setting is written to the file, but the environment refuses it: saving raises half-way, and a later start stops
  reading the file at that line, so settings after it are lost too (`EnvExamples.NulStopsBoth`,
  `EnvRestart.LoadedUpdate`).
- The launcher drops a blank line from the end of its env file each time it writes it, as long as there are two
  (`EnvLauncher.LauncherTwiceExactlyWhen`, `EnvLauncher.BlankLinesWearAway`); the desktop application takes a carriage return
  off lines that it does not update (`EnvDesktop.UpsertTwiceExactlyWhen`, `EnvDesktop.CrsWearAway`).

## Model

| member | source | states |
|---|---|---|
| Policy.NormalizeVerdict | dsx_transfer_desktop/transfer_runner.js:158-165 | every verdict text is read as one of the five that the action table knows |
| Policy.VerdictsAreFixed | dsx_transfer_desktop/transfer_runner.js:158-165 | each of those five words is read as itself |
| Policy.BenignIsSaid | dsx_transfer_desktop/transfer_runner.js:158-161 | a verdict is benign exactly when its text is that word up to case and outer blanks |
| Policy.VerdictIsSpelled | dsx_transfer_desktop/transfer_runner.js:158-165 | a raw text counts as a verdict exactly when it spells, up to case, outer blanks, and dashes or underscores for blanks, one of the nine texts that stand for it; a text that spells none of them is an error |
| Policy.ExecutableExactlyWhen | dsx_transfer_desktop/transfer_runner.js:197-208 | the test for Windows executables holds exactly for the texts in which one of the four phrases stands anywhere in any case, and for pe and exe up to case and outer blanks |
| Policy.ExecutableBlock | dsx_transfer_desktop/transfer_runner.js:210-219 | with the block on, every file with such a type is blocked whatever the verdict and the table, and the reason says more; for any other type, or with the block off, the decision is that of the verdict policy |
| Policy.DecisionExactly | dsx_transfer_desktop/transfer_runner.js:183-219 | the whole decision: verdict, file type, reason, and the action by block, override and default, where an empty override blocks |
| Policy.AllowedExactlyWhen | dsx_transfer_desktop/transfer_runner.js:183-219 | the final action is allow exactly when the block is off or the file type names no executable, and the table in force, defaults and overrides together, allows the verdict |
| Transfer.WorkerCount | dsx_transfer_desktop/transfer_runner.js:343 | there is at least one worker, and never more than files (one when there are none), than a positive setting, or than four when the setting is missing; a negative setting gives one, and there are fewer than the setting (or four) only when there are fewer files |
| TransferRunner.GuardedTransfer.constructor | dsx_transfer_desktop/transfer_runner.js:329-344 | the fresh variables are the initial state |
| TransferRunner.GuardedTransfer.Flush | dsx_transfer_desktop/transfer_runner.js:410-424 | the buffered lines become one batch at the end of the write chain, and the caller waits for the last batch on it |
| TransferRunner.GuardedTransfer.Count | dsx_transfer_desktop/transfer_runner.js:524-529 | one more completed and one more in the counter of the outcome's state, nothing else |
| TransferRunner.GuardedTransfer.RecordOutcome | dsx_transfer_desktop/transfer_runner.js:512-531 | the checkpoint record is assigned and the outcome counted before the worker waits for its report; the key `__proto__` sets nothing |
| TransferRunner.GuardedTransfer.PushOutcome | dsx_transfer_desktop/transfer_runner.js:507-531 | the outcome and its audit line are pushed together; at 100 buffered lines the worker flushes before it goes on |
| TransferRunner.GuardedTransfer.LoopHead | dsx_transfer_desktop/transfer_runner.js:503-506 | a worker claims the next file and starts its scan, or leaves the loop when there is none or the transfer is aborted |
| TransferRunner.GuardedTransfer.ItemResumes | dsx_transfer_desktop/transfer_runner.js:452-500 | a worker resumed from its scan or its write does what executeItem does next, in every error and abort case |
| TransferRunner.GuardedTransfer.AppendBatch | dsx_transfer_desktop/transfer_runner.js:416-422 | the oldest batch moves from the chain to the end of the file |
| TransferRunner.GuardedTransfer.AppendFails | dsx_transfer_desktop/transfer_runner.js:416-422 | a failed append leaves a prefix of the batch in the file, and nothing queued behind it is ever written |
| TransferRunner.GuardedTransfer.Step | dsx_transfer_desktop/transfer_runner.js:452-565 | every event changes the object's variables as the transition system says |
| TransferRunner.Run | dsx_transfer_desktop/transfer_runner.js:502-565 | the object driven through a run ends in the state of that run |
| TransferInvariants.AuditStep | dsx_transfer_desktop/transfer_runner.js:410-424 | every step keeps file, queued batches and buffered lines equal to the lines of the outcomes in completion order |
| TransferCounting.CountStep | dsx_transfer_desktop/transfer_runner.js:502-533 | every step keeps the equations between cursor, outcomes, workers and counters, state by state |
| TransferOwnership.OwnStep | dsx_transfer_desktop/transfer_runner.js:503-507 | every step keeps each claimed item with exactly one worker or in exactly one outcome |
| TransferGate.GateStep | dsx_transfer_desktop/transfer_runner.js:452-500 | every step keeps the sink's history in line with the scans, the decisions and the outcomes |
| TransferCheckpoint.CheckpointStep | dsx_transfer_desktop/transfer_runner.js:512-523 | every step keeps each outcome in the checkpoint, or owed to it by a worker still at its flush |
| TransferRuns.RunInv | dsx_transfer_desktop/transfer_runner.js:310-565 | every reachable state satisfies all these invariants |
| TransferRuns.EveryRunIsBounded | dsx_transfer_desktop/transfer_runner.js:502-565 | no run takes more than eight steps a file, one a worker and eight more, whatever happens in it |
| TransferTheorems.AuditTrail | dsx_transfer_desktop/transfer_runner.js:410-424 | in every reachable state the audit file is a prefix of the outcomes' lines in completion order, after a failed append too, and the rest is queued or buffered; fewer than 100 lines are buffered |
| TransferTheorems.BatchesAreFull | dsx_transfer_desktop/transfer_runner.js:507-511 | until the workers have settled, the lines handed on for writing are exactly 100 a batch, and the rest is buffered |
| TransferTheorems.Bookkeeping | dsx_transfer_desktop/transfer_runner.js:502-533 | cursor is outcomes plus items in workers' hands, outcomes is completed plus outcomes not yet counted, completed is the sum of the five counters, each claimed item is recorded or held but not both, and none is recorded twice |
| TransferTheorems.ScanGate | dsx_transfer_desktop/transfer_runner.js:158-224 | a payload copy starts only after the item's own scan came back with a final decision to allow, at most once, and never for an executable type while that block is on |
| TransferTheorems.OutcomesTellTheSink | dsx_transfer_desktop/transfer_runner.js:452-500 | allowed is exactly a completed write, blocked and excluded items never touched the sink, every outcome but a failed one carries the decision on the item's own scan, only allowed items have bytes and only failed ones an error; a payload at the sink belongs to an allowed or failed outcome or to a worker still checking it or aborted there |
| TransferTheorems.OutcomeRecordsAnswer | dsx_transfer_desktop/transfer_runner.js:452-500 | in every reachable state, an answer of scanner or sink gives an outcome except in the listed cases, and the outcome has its fields from it: the decision on the item's own scan, the bytes that stat answers or the item's size for an upload, and the message of the error |
| TransferStranding.PayloadWithoutOutcome | dsx_transfer_desktop/transfer_runner.js:32-43 | once the workers have settled, a payload at the sink, complete or not, has no outcome if and only if its worker saw the abort right after the copy or upload, or, while aborted or with an abort-named error, its copy or upload failed and left something or its stat failed |
| TransferStranding.PayloadsRecorded | dsx_transfer_desktop/transfer_runner.js:452-500 | if the caller never aborts and no error is abort-named, every payload at the sink has an outcome once the workers have settled |
| TransferExamples.AbortDuringCopy | dsx_transfer_desktop/transfer_runner.js:36-40 | an abort during the copy of the only file ends in a cancelled run with the payload at the sink and no outcome |
| TransferExamples.FailedWriteLeavesPayload | dsx_transfer_desktop/transfer_runner.js:483-486 | without any abort by the caller, a copy or upload that fails with an error named like an abort and leaves something at the sink ends in a cancelled run with that payload and no outcome |
| TransferTheorems.AbortFreezesCursor | dsx_transfer_desktop/transfer_runner.js:503-505 | after an abort no further file is claimed |
| TransferTheorems.NothingBeginsAfterAbort | dsx_transfer_desktop/transfer_runner.js:32-43 | after an abort, over every continuation: no payload copy and no scan begins, no worker goes on to a further await of a write, no item fails, and the only items still allowed are those whose payload was already being checked |
| TransferTheorems.LostToAbort | dsx_transfer_desktop/transfer_runner.js:236-240 | when all workers have settled, the claimed files without an outcome are those of aborted workers, at most one a worker |
| TransferTheorems.CountsAreSummary | dsx_transfer_desktop/transfer_runner.js:299-308 | once nothing waits to be counted, the running counters are the recount that goes into the report |
| TransferTheorems.ReportsAreComplete | dsx_transfer_desktop/transfer_runner.js:538-565 | a completed or cancelled run that delivers its report has its whole audit trail in the file, every outcome in the saved checkpoint, and counters equal to the report's |
| TransferTheorems.NoReportAfterFailedAppend | dsx_transfer_desktop/transfer_runner.js:410-424 | after a failed append no run ends with a report, completed or cancelled |
| TransferTheorems.CompletedCoversEveryItem | dsx_transfer_desktop/transfer_runner.js:502-565 | a completed run has exactly one outcome per file; every file has a checkpoint record if and only if none is named `__proto__` |
| TransferExamples.ProtoHasNoRecord | dsx_transfer_desktop/transfer_runner.js:512-523 | a transfer of one blocked file named `__proto__` completes with its outcome and an empty checkpoint |
| TransferTheorems.WithoutIoFailures | dsx_transfer_desktop/transfer_runner.js:538-565 | without I/O failures the log never breaks, no worker is rejected by it, and a run that ends is completed or cancelled with a report |
| TransferTheorems.NeverStuck | dsx_transfer_desktop/transfer_runner.js:502-565 | a run that has not ended can take a step |
| TransferDurability.FlushedBeforeCheckpoint | dsx_transfer_desktop/transfer_runner.js:509-523 | a worker that waited for a flush records its checkpoint only once its own audit line is in the file |
| TransferDeterminism.SameAsSequential | dsx_transfer_desktop/transfer_runner.js:452-565 | with the answers of scanner and sink fixed, every schedule and concurrency that ends has completed with the outcomes (as a bag), the checkpoint and the counts of the sequential loop |
| TransferDeterminism.SameSummary | dsx_transfer_desktop/transfer_runner.js:299-308 | the order of the outcomes does not change the summary in the report |
| TransferDeterminism.QuietRunsEnd | dsx_transfer_desktop/transfer_runner.js:502-565 | such a run can always be continued to its end |
| TransferDeterminism.ConcurrencyIsInvisible | dsx_transfer_desktop/transfer_runner.js:343 | two such runs that differ in schedule and in the concurrency setting have the same outcomes as a bag, the same checkpoint and the same six counts |
| FileTree.ListFiles | dsx_transfer_desktop/transfer_runner.js:124-156 | the recursive walk pushes the files in depth-first order |
| FileTree.ListingHasFiles | dsx_transfer_desktop/transfer_runner.js:128-152 | the list holds exactly the files of the folder |
| FileTree.ListingNoRepeats | dsx_transfer_desktop/transfer_runner.js:128-152 | no file is listed twice |
| FileTree.ListingInOrder | dsx_transfer_desktop/transfer_runner.js:128-152 | two listed files stand in the order in which their folders are read, a subfolder as a whole in the place of its entry |
| SinkPaths.GuardIsContainment | dsx_transfer_desktop/transfer_runner.js:32-38 | for every relative path, with `..` or absolute too, the string test passes exactly when the destination is the root or below it segment by segment; below the root `/` it never passes |
| SinkPaths.ListedDestination | dsx_transfer_desktop/transfer_runner.js:32-38 | a listed file goes to its own path below the root, and is refused exactly when the root is `/` |
| SinkPaths.DotsVanish | dsx_transfer_desktop/transfer_runner.js:34-35 | anywhere in the path, empty segments and dots make no difference to the resolved destination |
| SinkPaths.UpCancels | dsx_transfer_desktop/transfer_runner.js:34-35 | anywhere in the path, a name followed by two dots makes no difference either, nor two dots at the root folder |
| SinkPaths.ClimbingDestination | dsx_transfer_desktop/transfer_runner.js:34-35 | each pair of dots in front climbs one folder above the sink root, at most to `/`, and an absolute path is resolved as it is |
| SinkPaths.ListedObjectName | dsx_transfer_desktop/transfer_runner.js:79-85 | a listed file's object name is accepted unless the prefix or the path holds a NUL character |
| SinkPaths.NoOverwrites | dsx_transfer_desktop/transfer_runner.js:20-45 | two listed files never share an identity, a destination path or an object name |
| SinkPaths.ListedIdentitiesAreDistinct | dsx_transfer_desktop/transfer_runner.js:124-156 | the identities that listFiles hands out are distinct, as the transfer theorems require |
| FilterSpec.ExpandDirectivesLoop | shared/file_ops.py:129-146 | the index loop rewrites `--exclude` and `--include` in all spellings to the short form, and drops a trailing one without value |
| FilterSpec.CollectTokens | shared/file_ops.py:149-219 | tokens with a dash become excludes and the others includes, in order, normalised |
| FilterSpec.ParseFilterSpec | shared/file_ops.py:190-221 | the loops compute the parsed filter from the shell-split tokens |
| FilterSpec.SplitExcludes | shared/file_ops.py:228-239 | excludes are split into bare names and patterns |
| FilterSpelling.ParseConcat | shared/file_ops.py:129-221 | unless it breaks off after a directive, a filter is read piece by piece: includes and excludes of the whole are those of its parts in order |
| FilterSpelling.DanglingIsIgnored | shared/file_ops.py:133-138 | a directive at the end without its value changes nothing |
| FilterSpelling.EqualsSpelling | shared/file_ops.py:129-146 | amid any other tokens `--exclude v` and `--exclude=v` parse the same, `--include v` and `--include=v` too, and `--include -v` is `--exclude v` |
| FilterSpelling.DashSpelling | shared/file_ops.py:129-146 | `--exclude v` and `-v` parse the same amid all other tokens if and only if `-v` is not itself a directive |
| FilterSpelling.PlainSpelling | shared/file_ops.py:129-146 | `--include v` and `v` parse the same amid all other tokens if and only if `v` is not itself a directive |
| FilterSpelling.ExcludeAdds | shared/file_ops.py:165-172 | an exclude, blanks behind it aside, adds its value to the excludes, and its subtree too when it has no slash and no glob character; it adds no include |
| FilterSpelling.IncludeAdds | shared/file_ops.py:149-163 | an include, outer blanks and inside of them outer plus signs aside, adds its value to the includes and no exclude |
| FilterSpelling.HollowAddsNothing | shared/file_ops.py:149-163 | an include of a dot or of nothing, within blanks and plus signs, adds nothing |
| FilterSpelling.DashesAddNothing | shared/file_ops.py:165-168 | dashes alone exclude nothing and include nothing |
| FileWalk.Prune | shared/file_ops.py:333-339 | the in-place pruning keeps exactly the subfolders that are not skipped |
| FileWalk.WalkPruned | shared/file_ops.py:331-349 | the worklist walk adds the files of the recursive specification, each path once |
| FileWalk.WalkReaches | shared/file_ops.py:321-396 | for every tree and every pattern test, the walk yields exactly the files with no skipped folder strictly below its root that are not excluded by their path or their parent's name |
| Enumerate.LookupMeans | shared/file_ops.py:361-370 | for a path of any length, the files below the folder that it leads to are exactly the files of the tree whose path starts with it; a file has nothing below it and a missing entry no files |
| Enumerate.GlobWalks | shared/file_ops.py:410-420 | under a general pattern both enumerations yield, of the files that rglob finds, exactly those that no exclude pattern matches and whose folder is not excluded by name |
| Enumerate.IterFiles | shared/file_ops.py:305-420 | the loop over the include tokens yields the files of all tokens, each path once |
| Enumerate.FilePathsAsync | shared/file_ops.py:735-929 | below the threshold the result is iter_files', above it that of the unpruned walk |
| Enumerate.TopLevelOnlyExactlyWhen | shared/file_ops.py:217-221 | the top-level flag is set exactly when the set of includes is the star alone, and then the enumeration is exactly the files at the top |
| Enumerate.AsyncContainsSync | shared/file_ops.py:735-929 | whatever the size estimate, the asynchronous enumeration yields every file that iter_files yields |
| Enumerate.EstimateIsInvisible | shared/file_ops.py:735-929 | without excludes both yield the same files whatever the estimate, and none twice |
| Enumerate.PruningDifference | shared/file_ops.py:812-832 | one walk of one folder: the unpruned walk has, beyond the pruned one, exactly the files that pass their own test below a skipped folder |
| EstimateEffect.EstimateAdds | shared/file_ops.py:735-929 | for every filter and tree, a large estimate adds a file to the enumeration if and only if some token asks for it and every token that asks for it walks a subtree and skips a folder strictly between its root and the file |
| EstimateEffect.EstimateInvisibleExactlyWhen | shared/file_ops.py:750-756 | the estimate does not change the enumerated files of a tree if and only if no file of the tree is of that kind |
| FilterAgreement.WalkAgainstPredicate | shared/file_ops.py:305-420 | on plain filters, from the token list on, iter_files yields a path exactly when it is a file that relpath_matches_filter accepts, except top files when the folder's own name is excluded and no `*` asks for them |
| FilterAgreement.AcceptsTop | shared/file_ops.py:614-633 | the predicate accepts a top file exactly when there are no includes, `*` is one, or its name is one |
| FilterAgreement.AgreementExactlyWhen | shared/file_ops.py:587-633 | the two agree on the whole tree if and only if the folder's own name is not excluded, or `*` is included, or every top file is left unasked: there are includes and none is its name; nothing is yielded twice |
| FilterAgreement.OwnNameDropsTopFiles | shared/file_ops.py:331-350 | in a folder that excludes its own name the predicate accepts every top file and the walk yields none |
| FilterAgreement.UnprunedUnderExcludes | shared/file_ops.py:812-832 | on plain filters without includes the unpruned walk looks only at the name of the folder right above a file |
| FilterAgreement.ExcludesShowTheEstimate | shared/file_ops.py:735-832 | under the filter `-a` a file like a/b/f, below a folder a but not directly in one, is yielded by the unpruned walk and not by the pruned one |
| GlobIncludes.MatchIsCover | shared/file_ops.py:242-244 | a segment matches a pattern if and only if it can be cut into one piece a character of the pattern: any text for `*`, one character for `?`, the character itself otherwise |
| GlobIncludes.PatternAccepts | shared/file_ops.py:614-633 | an include with a slash or a glob character accepts exactly the paths whose last segments its segments cover one by one, and two stars in front of a single name also the files at the top that the name covers |
| GlobIncludes.NameGlobAccepts | shared/file_ops.py:614-633 | a glob name accepts exactly the files whose own name it covers, at any depth |
| GlobIncludes.DeepGlobAccepts | shared/file_ops.py:627-631 | with two stars and a slash in front it accepts the same files, top files included |
| GlobIncludes.SuffixAccepts | shared/file_ops.py:614-633 | `*s` and `**/*s` accept exactly the files whose own name ends in s |
| GlobIncludes.StarAccepts | shared/file_ops.py:614-633 | `x*y` accepts exactly the files whose own name starts with x and, after that, ends in y |
| GlobIncludes.QuestionAccepts | shared/file_ops.py:614-633 | `x?y` accepts exactly the files whose own name has one character between x and y |
| GlobIncludes.GlobExcludeDrops | shared/file_ops.py:602-606 | an exclude with a slash or a glob character rejects exactly the paths whose last segments it covers |
| GlobIncludes.SlashAccepts | shared/file_ops.py:182-188 | `s/` accepts exactly the files two levels below a folder s, wherever that folder is |
| GlobIncludes.StarsAccept | shared/file_ops.py:182-196 | `s/**` accepts those and the files directly in the folder s at the top |
| GlobIncludes.ChildrenAccept | shared/file_ops.py:617-621 | a folder path with a slash and a star accepts exactly the files directly in that folder, slashes around the path do not matter, and `/*` alone accepts the files at the top |
| PathIncludes.PathAccepts | shared/file_ops.py:614-633 | a path of two or more folders accepts exactly the paths that end in it |
| PathIncludes.PathWalks | shared/file_ops.py:361-396 | under the same include the walk yields exactly the files whose path starts with it |
| PathIncludes.PathAgreement | shared/file_ops.py:305-633 | walk and predicate agree on a file under such an include if and only if its path both starts and ends in the folder path, or does neither |
| PathIncludes.PatternAgreement | shared/file_ops.py:410-420 | if rglob finds the files whose last segments the pattern covers, walk and predicate agree on every file under a glob pattern that does not begin with two stars, whatever the estimate |
| PrefixHints.ComputePrefixHints | shared/file_ops.py:636-678 | the loop collects the folders of the includes, or nothing as soon as one include gives no hint |
| PrefixHints.Keys | connectors/aws_s3/aws_s3_client.py:189-242 | the paginated listing emits each key once, and exactly the keys under a hint (or under the base prefix) that pass the final filter |
| PrefixHints.EmitPages | connectors/google_cloud_storage/gcs_client.py:63-71 | one listing adds to the seen set exactly its keys that pass, without repeats |
| PrefixHints.BasePrefixHasOneSlash | connectors/aws_s3/aws_s3_client.py:201-204 | the base prefix ends in exactly one slash however many slashes surround it, and is empty when there is nothing else |
| PrefixHints.ObjectEmitted | connectors/aws_s3/aws_s3_client.py:206-225 | an object under the base prefix is emitted exactly when there is no filter or its relative path is accepted |
| PrefixHints.FolderKeyEmitted | connectors/aws_s3/aws_s3_client.py:214-225 | a key that ends in a slash is dropped by the clients that skip folders, and treated like the path before the slash by the others |
| PrefixHints.NoKeyForBase | connectors/aws_s3/aws_s3_client.py:214-219 | the empty key is never emitted, and the key of the base prefix itself not by the clients that skip folders |
| PrefixHints.HintsLoseOnlyBareNames | shared/file_ops.py:636-678 | for exclude-free filters of bare names and folder stars, a matching key is fetched if and only if its relative name is not itself a bare include |
| PrefixHints.BareIncludeIsLost | shared/file_ops.py:636-678 | with a bare name as the only include, the object of that name matches the filter and is under no hint |
| PrefixHints.NarrowedListing | connectors/aws_s3/aws_s3_client.py:227-242 | the narrowed listing emits what the full filtered listing emits except for exactly those objects, and with folder stars only the two are equal |
| HintCoverage.GivesUpExactlyWhen | shared/file_ops.py:652-671 | hints are given up for an include exactly when it is empty, a star, or has a glob character outside a final `/*`, `/**` or `/**/*` |
| HintCoverage.HintIsRoot | shared/file_ops.py:652-668 | the hint of any other include is its folder, without the stars and slashes at its end, and a slash; two stars below the root folder give none |
| HintCoverage.WideFilterMissesNothing | connectors/aws_s3/aws_s3_client.py:189-242 | with an exclude, without includes, or with such an include, the listing emits every key under the base prefix that passes the final filter |
| HintCoverage.FolderHintFetches | shared/file_ops.py:654-666 | of the keys that `s/` or `s/**` matches, the hint fetches exactly those below the folder s at the top |
| HintCoverage.FolderHintLoses | shared/file_ops.py:654-666 | the object top/s/a/b matches both includes and is fetched under neither |
| PathIncludes.PathListing | connectors/aws_s3/aws_s3_client.py:189-242 | under a folder path include the listing asks for exactly the keys below the folder, and keeps exactly those of them that also end in the folder path |
| FullScan.EffectiveSize | connectors/filesystem/filesystem_connector.py:311-314 | the batch size is at least one and at most what the core allows: the requested one when that is in range, the largest when it is above, the default when none is requested, and one where the core allows or offers less |
| FullScan.AcceptedIsCount | connectors/filesystem/filesystem_connector.py:345-365 | the count of single sends is the number of those that the core accepted |
| FullScan.AcceptedOrRefused | connectors/filesystem/filesystem_connector.py:324-343 | the count of batch mode is all items of the batches but those of the refused ones |
| FilesystemScan.EligibleExactlyWhen | connectors/filesystem/filesystem_connector.py:372-375 | the files that are sent are those that no quarantine folder is, or contains at any depth |
| FilesystemScan.Scan.FlushBatch | connectors/filesystem/filesystem_connector.py:324-343 | the buffered items become one batch, counted if accepted and failed otherwise |
| FilesystemScan.Scan.CollectDone | connectors/filesystem/filesystem_connector.py:354-365 | finished tasks leave the pending set and each is counted by its own result |
| FilesystemScan.Scan.Submit | connectors/filesystem/filesystem_connector.py:382-394 | after every file seen is counted plus failed plus pending plus buffered, fewer than the allowed sends are in flight and no batch is over its size |
| FilesystemScan.Scan.Finish | connectors/filesystem/filesystem_connector.py:403-406 | nothing stays pending or buffered |
| FilesystemScan.FullScanRun | connectors/filesystem/filesystem_connector.py:369-406 | whatever sends fail and whatever order tasks finish in, the items sent are the first files outside quarantine up to the limit, in order and each once, in batches of at most the size; the count is exactly the accepted ones |
| S3Scan.Scan.FlushBatch | connectors/aws_s3/aws_s3_connector.py:261-273 | the buffer is emptied before the send, so a failed batch is lost and not counted |
| S3Scan.Scan.Add | connectors/aws_s3/aws_s3_connector.py:282-285 | count plus buffer never exceeds a positive limit, and is below it unless the limit is reached with nothing buffered |
| S3Scan.BatchScan | connectors/aws_s3/aws_s3_connector.py:275-294 | whatever batches fail, no key is in two batches, all matched keys are taken unless the limit is reached, the count never exceeds a positive limit, and it is the smaller of limit and keys when all batches are accepted |
| S3Scan.SingleScan | connectors/aws_s3/aws_s3_connector.py:275-292 | one key at a time, the scan stops at the send that brings the count of accepted sends to the limit, and not before |
| AzureScan.Tasks.Turn | connectors/azure_blob_storage/azure_blob_storage_connector.py:201-214 | in every move of the event loop at most the configured number of sends is inside the semaphore, and each finished task is counted once |
| AzureScan.Tasks.Gather | connectors/azure_blob_storage/azure_blob_storage_connector.py:231-233 | the gather ends with no task left and a count of exactly the accepted sends |
| AzureScan.SingleScan | connectors/azure_blob_storage/azure_blob_storage_connector.py:227-242 | never more than 200 tasks wait, and the scan takes all keys or stops at the first multiple of 200 sends at which the limit is reached |
| AzureScan.CountWhenAllAccepted | connectors/azure_blob_storage/azure_blob_storage_connector.py:227-235 | when all sends are accepted the count is the smaller of the number of keys and the limit rounded up to a multiple of 200 |
| AzureScan.BatchScan | connectors/azure_blob_storage/azure_blob_storage_connector.py:217-238 | in batch mode a positive limit is never exceeded whatever batches fail; keys are left out only when the accepted batches and the last one add up to the limit; the count is the smaller of limit and keys when all are accepted |
| Paging.SamePages | connectors/filesystem/filesystem_connector.py:509-516 | for every cursor the filesystem and the S3 way of cutting a page give the same page and next cursor |
| Paging.PagesJoin | connectors/aws_s3/aws_s3_connector.py:493-528 | following the next cursor ends, and the pages joined are the assets from the cursor on, none repeated and none skipped |
| Paging.PagesFrom | connectors/aws_s3/aws_s3_connector.py:493-503 | a missing, unreadable, zero or negative cursor starts at the front, one past the end finds nothing |
| Paging.PagesAreFull | connectors/aws_s3/aws_s3_connector.py:511-514 | every page but the last holds as many assets as the limit, and no page but the only one is empty |
| Paging.FirstPageSizes | connectors/filesystem/filesystem_connector.py:472 | the first page has 100 assets by default, one for a negative limit, the limit otherwise, and for buckets at most 1000 |
| Paging.BucketsListedOnce | connectors/aws_s3/aws_s3_connector.py:504-528 | with the configured bucket moved to the front, the pages list it first and every bucket exactly once |
| Sweep.Overlap | scripts/validate_ng_batch_proxy_reader.py:242-260 | the sweep returns the largest number of stages open at one time, over all times, and some start attains it when it is positive |
| Sweep.SameBag | scripts/validate_ng_batch_proxy_reader.py:256 | sums over the events up to a time do not depend on their order |
| Sweep.PeakIsOpen | scripts/validate_ng_batch_proxy_reader.py:254-260 | the running maximum is the number of stages open at the start that set it, touching and empty stages included |
| EnvFile.UpsertLines | connectors/filesystem/config.py:192-207 | the two loops rewrite the lines of updated keys in place and append the keys that had none |
| EnvFile.ReadEnvMap | connectors/framework/local_gui.py:146-156 | the reader's dictionary holds for each key the value of its last line |
| EnvFile.ReadEnvValues | dsx_connect_desktop/main.js:716-728 | the JavaScript reader's object holds for each key the value of its last line, except that `__proto__` is never set |
| EnvFile.LoadDevenv | shared/dev_env.py:63-74 | the loader sets a variable from its lines while it is unset or empty, up to the first line it would set and os.environ refuses because of a NUL; there it ends silently |
| EnvFile.StopIsFirst | shared/dev_env.py:71-91 | a load gets exactly to the first line that raises |
| EnvFileProofs.ReadersSeeWritersKey | connectors/framework/local_gui.py:146-173 | readers and writers, which strip and cut in different orders, see an entry on the same lines and for the same key |
| EnvFileProofs.LineReadsExactlyWhen | connectors/framework/local_gui.py:146-173 | a line reads as an assignment of v to k if and only if, blanks around key, equals sign and value aside, it is k, an equals sign and v, without an equals sign in k and without a hash sign in front; the writer then sees the same key |
| Text.SpacesDiffer | connectors/framework/local_gui.py:151-168 | the readers and writers in Python and in JavaScript trim the same characters, except five that only Python takes off and one that only JavaScript does |
| EnvFileProofs.CodecIsFaithful | connectors/framework/local_gui.py:146-173 | a well-formed key with its value, written as one line, reads back as that key and the trimmed value |
| EnvFileProofs.UnquoteTakesOff | shared/dev_env.py:71 | any double quotes outside and, inside of them, any single quotes come off a loaded value |
| EnvFileProofs.UnquoteKeepsInner | shared/dev_env.py:71 | double quotes inside of single ones stay |
| EnvFileProofs.UpsertThenRead | connectors/framework/local_gui.py:151-173 | on lists of lines: after the upsert an updated key reads as the new trimmed value under the last-wins reader and, from an unset variable and while nothing is refused, as that value without quotes under the other; every other key reads as before |
| EnvFileProofs.UpsertKeepsOthers | connectors/framework/local_gui.py:161-180 | on lists of lines: lines of other keys, comments and blanks keep their content and order |
| EnvFileProofs.UpsertIsIdempotent | connectors/framework/local_gui.py:161-180 | on lists of lines: a second upsert of the same values changes nothing |
| EnvText.EnvStore.PersistRuntimeOverrides | connectors/filesystem/config.py:162-215 | nothing changes when the file is missing or no key is supported; otherwise the whole file is written, and the environment takes the updates in order up to the first that it refuses, where the call raises |
| EnvText.ExportHas | connectors/filesystem/config.py:211-213 | the environment has an update exactly when neither it nor one before it holds a NUL or an equals sign in its key; the call raises exactly when some update does |
| EnvText.EnvStore.Reload | shared/dev_env.py:63-74 | reloading sets the variables that were unset or empty from the file's text, up to the first refused line |
| EnvText.CleanedKeys | connectors/filesystem/config.py:175-183 | an accepted key is well-formed for the file exactly when it has no equals sign, and its value holds no line break characters CR or LF |
| EnvText.CleanedExactly | connectors/filesystem/config.py:175-183 | of the updates, exactly the keys with the prefix are accepted, each with its last value, in which every CR and LF has become a blank |
| EnvText.CleanedKeepsPlaces | connectors/filesystem/config.py:175-183 | each accepted key stands once, in the place of its first update |
| EnvText.SplitLinesSteps | connectors/filesystem/config.py:188 | the file's text falls into lines at each break, CR LF being one break, and a last line needs none and is not blank |
| EnvText.BreakCharacters | connectors/filesystem/config.py:188 | the ten characters at which `splitlines` ends a line, all of them blanks to `strip` |
| EnvText.CleanedIsStorable | connectors/filesystem/config.py:175-183 | accepted updates whose keys have no equals sign and no line break can be read back from the file as far as their values are single lines |
| EnvRoundTrip.PersistThenRead | connectors/filesystem/config.py:188-209 | on the file's text, for keys the file can hold: under the last-wins reader updated keys have their new trimmed value and other keys their old one, other lines are unchanged and persisting again writes the same file, all this if and only if every value is a single line to `splitlines` |
| EnvRoundTrip.BreaksPileUp | connectors/filesystem/config.py:188-209 | a value with a break in it makes the file longer at every persist |
| EnvRestart.RestartAgreesExactlyWhen | connectors/filesystem/config.py:188-213 | unless another value smuggles in a line for the key, the new value is in force in the running and in a restarted process if and only if the environment takes the update (or had that value before), the value is a single line to `splitlines` without outer blanks or quotes, it holds no NUL, and no line that a load refuses comes before the key's first line |
| EnvRestart.RestartReadsFirst | connectors/filesystem/config.py:188-213 | for all updates, smuggled lines included: once the environment has taken an update, running and restarted process agree if and only if the first non-empty value that the load meets for the key is the new one |
| EnvRestart.LoadedUpdate | shared/dev_env.py:63-74 | a load gives an updated variable that is not set its new value without outer blanks and quotes if and only if it holds no NUL and no refused line comes before its first line |
| EnvRestart.LoadedOther | shared/dev_env.py:63-74 | a variable that is not updated loads from the new file as from the old one if and only if no line between the ends of the two loads would change it |
| EnvRestart.CleanFileLoads | shared/dev_env.py:63-74 | without a NUL in the file's entries and in the updates, every updated variable that is not set loads its new value and every other one loads as before |
| EnvRestart.BrokenValueIsLost | shared/dev_env.py:63-74 | a value with a break in it is never what a restarted process reads, whatever else is updated |
| EnvExamples.SmuggledLineWins | connectors/filesystem/config.py:188-209 | a value with a vertical tab and a line for another key after it: a restart reads that line instead of the other key's own value |
| EnvExamples.VerticalTabIsABreak | connectors/filesystem/config.py:180-183 | a value with a vertical tab inside is kept by the store, needs no trimming, and is two lines |
| EnvExamples.VerticalTabIsCut | connectors/filesystem/config.py:188-209 | persisted into an empty file, such a value is read after a restart up to the tab |
| EnvExamples.QuotesAreLost | shared/dev_env.py:71 | a quoted value persisted into any file without NULs is read after a restart without its quotes |
| EnvExamples.NulStopsBoth | connectors/filesystem/config.py:209-213 | a value with a NUL and a second update: both are in the file, the call raises before either is in the environment, and a restart loads neither |
| EnvLauncher.UpsertEnvValues | connectors/framework/local_gui.py:159-185 | the launcher writes the upserted lines, with a line feed at the end unless the last line is blank |
| EnvLauncher.LauncherTextReads | connectors/framework/local_gui.py:159-185 | the launcher's text reads, under both readers, as the lines it was made from |
| EnvLauncher.LauncherLines | connectors/framework/local_gui.py:159-185 | the launcher's text splits into the lines it was made from, without the last one if that is blank |
| EnvLauncher.LauncherKeepsOthers | connectors/framework/local_gui.py:159-185 | lines of other keys, comments and blanks keep content and order in the file, but for that one blank line |
| EnvLauncher.LauncherTwiceExactlyWhen | connectors/framework/local_gui.py:159-185 | launching twice writes the same file as launching once if and only if the upserted lines do not end in two blank lines |
| EnvLauncher.BlankLinesWearAway | connectors/framework/local_gui.py:159-185 | an up-to-date line with two blank lines after it: the first launch drops one of them and the second the other |
| EnvDesktop.UpsertEnvValues | dsx_connect_desktop/main.js:684-714 | the desktop application writes the upserted lines of the file, or of none when it is missing, with a line feed at the end unless the last line is blank |
| EnvDesktop.ReadEnvFile | dsx_connect_desktop/main.js:716-728 | reading the file gives each key the value of its last line, except `__proto__` |
| EnvDesktop.UpsertThenReadText | dsx_connect_desktop/main.js:684-728 | on the file's text: updated keys read back trimmed and other keys as before; other lines keep content and order, but for one carriage return at the end of a line and a final blank line |
| EnvDesktop.UpsertTwiceExactlyWhen | dsx_connect_desktop/main.js:684-714 | upserting twice writes the same file as upserting once if and only if no line without an update ends in a carriage return |
| EnvDesktop.CrsWearAway | dsx_connect_desktop/main.js:684-714 | a comment line that ends in two carriage returns before its break loses one of them at each upsert |

## Left out

- Transfer: performance logging, memory snapshots, timestamps and progress throttling; only a worker or the main function rejected by them is modelled.
- Transfer: failures before the workers start (creating the sink, listing the folder, the first log line), and retry or backpressure inside the cloud SDK.
- Transfer: the `localeCompare` order of the outcomes in the report; outcomes are compared as a bag and by identity.
- Transfer: HTTP details of the scan request and the fields scan_guid, policy_id and details of a decision.
- Paths: Windows path rules, drive letters and symbolic links; all paths are POSIX paths.
- Text: lower-casing beyond ASCII, and Unicode normalisation.
- FilterSpec.ParseFilterSpec: starts after the shell-style tokenisation of the filter string.
- Filters: `[...]` character classes are read literally, a pattern without segments matches nothing instead of raising an error, and `..` or absolute include tokens are not resolved.
- Filters: what `rglob` finds for a general pattern is a parameter; the agreement theorems are about plain filters, outside of which the implementations differ.
- Filters: path_matches_filter, the single-file case of get_filepaths, and how the size estimate is made (the estimate is a parameter).
- PathIncludes.PatternAgreement: what rglob finds is a hypothesis, and patterns that begin with two stars are left out, since `**` means any depth to rglob and one segment to the predicate.
- PrefixHints.Keys: takes the hints in collection order, while the clients sort them; the emitted set does not depend on it. For Azure the variant without the trailing-slash test is a flag.
- Full scans: exceptions raised by a send (they end the scan), logging, size hints, and the framework's enqueue counters.
- FilesystemScan.FullScanRun: a negative limit, which the code treats as a limit of one, is included; the file enumeration itself is a parameter here.
- S3Scan.BatchScan: for a negative limit, which the code accepts and which stops after the first matched key, only the general clauses are stated.
- Paging: the text form of the cursor, asset filters, and changes of the inventory between two requests.
- Sweep: time zones, and the exception on a timestamp that cannot be parsed; a timestamp is an integer, missing or present.
- EnvRoundTrip.PersistThenRead: for keys without equals signs, outer blanks or line breaks, since the file format cannot hold others.
- EnvRestart.RestartAgreesExactlyWhen: for updates in which no other value smuggles in a line for the key; EnvRestart.RestartReadsFirst covers those too, and EnvExamples.SmuggledLineWins shows one.
- EnvRestart.LoadedOther: for single-line values; what broken values do to the file is in EnvRoundTrip.
- EnvText.EnvStore.PersistRuntimeOverrides: lone surrogates, which the text encoding refuses, are no characters here, and an operating system error on writing is not modelled.
- EnvDesktop.UpsertTwiceExactlyWhen: for keys that the file can hold, and keys and values without line feeds.
- EnvLauncher.LauncherTwiceExactlyWhen: for well-formed keys and single-line values, since the launcher writes values as they are.
- Env files: the tests for a disabled or non-local settings file, and how load_devenv finds its file.
- Connectors for SharePoint, OneDrive, M365 and Google Workspace, the NG pipeline, user interfaces and process launching.
