# bc-seek: a verified model of its search core

bc-seek walks directory trees and prints the paths that satisfy a predicate. It has two walkers, one
sequential and one parallel, over one predicate engine. This project models both walkers, the engine,
the output stream and the number parsers of the command line in Dafny, and proves what they print.

## How it is built

* `FileSystem` is the kernel's side: directories are numbered, an entry carries its `d_type` and what
  `lstat`, `stat` and the two ways of opening it answer. The directory graph may be cyclic.
* `Listing` is the specification: `List` gives, in pre-order, the candidates under a directory, and
  `Matches` the paths the filter accepts. `Route` is an independent reading of it, said without the
  walk's own tests. `Pruning` proves that pruning by depth and by path length cuts away nothing that
  would have been printed, `Following` that following links is walking the tree without links, and
  `Confinement` what `--one-file-system` means for each walker. `Slashes` does the same for roots
  with trailing slashes.
* `Filter` holds the short-circuit evaluator, proved against the plain conjunction of its conditions;
  `FilterLaws` compares it with a filter that always stats first, for entries and for roots, and says
  when it stats.
* `SequentialWalk` holds the recursive walker over one 4096-byte buffer. Each method is proved equal
  to a function on `Run`, the state of a run, which holds a log of every call with its answer. Stop
  signals and failing opens, reads and device checks are oracles indexed by the number of calls made,
  so the laws hold for every pattern of them. `RunLaws` relates what a run prints to the listing,
  `ExitStatus` says what status 0 and the descriptor tell of it, `SilentLoss` holds two runs that
  lose output with status 0, `StatLaws` bounds the stat calls, `StatCost` gives their exact number,
  `StatNeeds` says which entries they are for, `StopLaws` how soon a run stops and in which order it
  makes its calls, and `OpenLaws` which directories it opens.
* `Output` is the buffered writer: what has reached the descriptor, what waits in 64 KiB, and an
  oracle for what becomes of each flush, the one at close included.
* `ParallelWalk` holds the callbacks and a state machine of the walk engine; `ParallelLaws` and
  `Agreement` prove, for every schedule, that the records printed are those of the sequential walk,
  and after a stop no others. `Merge` gathers the buffers and writes them with `writev`; `FullArray`
  reaches states whose buffers do not all fit; `TornRecords` follows the buffers when memory runs out;
  `RootDevice` is the publication of the root device.
* `EndToEnd` puts the two streams side by side. `Application` runs each walker from options to exit
  status and delivered bytes.
* `CliParsers` holds the bounded parsers, and compares `--size` and `--mtime` with the rounding of the
  POSIX.1-2017 `find` utility (OPERANDS section).

Bytes are modelled as characters. `fnmatch` is an arbitrary predicate on pattern, subject and the
case flag. The clock is a parameter.

## What is assumed

* Entry names are not empty, hold no slash and no NUL, and are not "." or "..", which the directory
  reader leaves out. Stat answers do not change during a run; a known `d_type` agrees with `lstat`,
  and `stat` never reports a link.
* The walk engine of the bc-io library is not part of this model; its contract is the step relation
  `Apply`. It visits each entry of each directory it takes once (hidden ones are skipped unless asked
  for) and offers it for descent once, with the facts `lstat` gives, queues each accepted directory
  once, joins paths as the sequential walker does, and has joined before the next root starts. A
  directory it cannot open contributes nothing. After a stop a worker may quit what it holds and
  queued directories may be discarded; the next root is still handled.
* The walkers are compared with links not followed, no confinement to one file system (`Confinement`
  says what it changes in each), roots without trailing slashes (with them, the parallel walker
  prints what the sequential one prints for the stripped roots: `SlashedScheduleAgrees`), entries
  whose `lstat` succeeds and, when `--type` is given, reports a file, directory or link, and paths of
  at most 4095 bytes. The code differs otherwise: for example the sequential walker emits a directory
  of another device, and the parallel one does not.
* With `--one-file-system` the state machine uses one fixed device; `CallbacksSeeTheFirstRoot` is
  why that is what the callbacks read.
* The buffered writer of the bc-core library is not part of this model; its contract is `Written`. It
  appends to a buffer of 65536 bytes, flushes first when bytes do not fit, and writes larger data at
  once. A flush that fails delivers a proper prefix of what is pending and keeps or drops the rest.
* The error collector keeps every error. A stop signal, once raised, stays raised.
* Growing a worker's buffer may fail (`Memory`). The state machine takes the steps in which it does
  not (`VisitWithPlenty`); `TornRecords` is about all of them.

## Where the code and its promises part

* Exit status 0 of the sequential walker does not mean that everything was printed. The status shows
  a failed write only for a root or an entry directly under one (`StatusIsZeroIff`): deeper, it ends
  just its directory, and the flush at close is not looked at. `DeepWriteLosesSilently` and
  `CloseLosesEverything` are such runs. With status 0 the descriptor holds exactly the expected
  output if and only if every flush delivered, the last one included (`DeliveredIffFlushed`).
* The parallel walker does see a failed write (`RunParallel`), but more than 256 buffers with content
  are not all written, and nothing says so (`MergeIsCompleteIffRoom`). That cannot happen exactly when
  there are fewer than 256 workers (`ArrayIsEnoughIff`, `FullArrayLosesRecords`).
* When a worker's buffer has room for a path but not for its separator, the path is not taken back.
  The buffer holds whole records exactly when that never happens to an accepted path
  (`BufferIsWholeIff`), and the merged stream is read back exactly when no such path is followed by a
  whole record, of its own buffer or a later one (`MergedStreamIsWholeIff`).
* A worker whose slot is missing, or cannot be reserved, loses the record and reports nothing
  (`SilentRefusalIff`); the answer of the walk engine is not looked at.
* A root that is neither file, directory nor link is stat'd again under `--type`, by its basename in
  the working directory, so another file may decide (`RootVerdictIsItsOwnIff`).
* With followed links, `--type` looks at the link and every other test at its target
  (`LazyIsEagerIff`).
* CHANGELOG.md promises no stat call when no predicate needs one. Every root costs one all the same, and
  so do an entry of unknown type, a link that is followed, and, with `--one-file-system`, every directory
  that is opened. `EntryStatCost` is exact for an entry; for a whole run `StatsAreCounted` gives the number
  of calls and says exactly when it is one per root. `ConfinementCostsAStat` is a run that makes one more.
* `--size` and `--mtime` round as `find` does only for `+N` and `-N` respectively; the other forms
  compare unrounded values (`SizeOtherwiseMatchesFindIff`, `MtimeOtherwiseMatchesFindIff`).

## Model

| member | source | states |
|---|---|---|
| Paths.AppendPath | src/discovery/bc_seek_discovery_walk_sequential.c:50-67 | Succeeds exactly when the joined path and its NUL fit; then the buffer holds them; the bytes before the old length never change, and on failure none do |
| Paths.Truncate | src/discovery/bc_seek_discovery_walk_sequential.c:69-73 | Ends the path at the given length and changes no other byte |
| Paths.Basename | src/discovery/bc_seek_discovery_walk_parallel.c:109-119 | The backward scan finds the longest slash-free tail |
| Paths.BasenameOfJoin | src/discovery/bc_seek_discovery_walk_parallel.c:144-145 | The basename recovered from a delivered path is the entry name it was joined with |
| Paths.JoinIsTight | src/discovery/bc_seek_discovery_walk_sequential.c:50-67 | A joined path is the directory's path and the name, with a slash between them exactly when the first is not empty and does not end in one |
| Paths.CStringStopsAtNul | src/discovery/bc_seek_discovery_walk_sequential.c:64-66 | A C function reading the buffer sees the path and nothing after it |
| Filter.Candidate.PopulateStat | src/filter/bc_seek_filter.c:116-141 | Fails without a change, or fills the facts and rewrites the type only if it was unknown or links are followed |
| Filter.Evaluate | src/filter/bc_seek_filter.c:235-290 | For every predicate and candidate the short-circuit order decides what the plain conjunction decides, stats at most once and exactly when needed, and asks the caller to stat only when the predicate forgot to require it |
| Filter.BuiltPredicateDecides | src/filter/bc_seek_filter.c:73-114 | A predicate made from options is never answered with "stat required" |
| FilterLaws.LazyIsEager | src/filter/bc_seek_filter.c:235-290 | For every set of options, lazy evaluation accepts what a filter that stats first and tests everything accepts |
| FilterLaws.LazyIsEagerIff | src/filter/bc_seek_filter.c:154-163 | The two agree on all predicates if and only if the entry is not a link that is being followed |
| FilterLaws.UnstatableIsAcceptedIff | src/filter/bc_seek_filter.c:246-270 | An entry whose stat fails is accepted exactly when no active test needed the stat |
| FilterLaws.StatIsLastResort | src/filter/bc_seek_filter.c:246-270 | With no type to learn, the filter stats if and only if it has a stat test, the facts are not there, and the same options without the stat tests accept the candidate; with one to learn, if and only if the depth is within bounds |
| FilterLaws.RootIsJudgedEagerly | src/discovery/bc_seek_discovery_walk_sequential.c:281-305 | A root is accepted if and only if every test holds of its path, the part after the last slash, depth 0 and its own size, time, mode and type, or, for a special file under a type test, those of its basename in the working directory |
| FilterLaws.RootVerdictIsItsOwnIff | src/filter/bc_seek_filter.c:116-141 | A root's verdict depends on nothing but its own stat if and only if its kind is known or no type is asked for |
| Listing.IgnoredDirectoryName | src/filter/bc_seek_filter.c:17-36 | The table scan answers membership in the list of ignored names |
| Listing.ListedIffReachable | src/discovery/bc_seek_discovery_walk_sequential.c:151-236 | A candidate is listed exactly when a route leads to it of entries that fit and are not hidden, each but the last a directory by d_type or stat, within the depth limit, not ignored, and opened on the right device; its path joins the names on that route |
| Listing.RootListedIff | src/discovery/bc_seek_discovery_walk_sequential.c:244-327 | A root lists itself when the stat that follows links, or not, as asked, succeeds and it fits, and what is reachable in the directory it opens, unless the depth limit is 0 |
| Listing.EachPathOnce | src/discovery/bc_seek_discovery_walk_sequential.c:151-236 | When no directory holds a name twice, no path is listed twice, also across cycles |
| Listing.RootListsEachPathOnce | src/discovery/bc_seek_discovery_walk_sequential.c:244-327 | The same for a root and everything under it |
| Listing.NestingIsBounded | src/discovery/bc_seek_discovery_walk_sequential.c:50-67 | However directories are linked, nothing is nested deeper than half the buffer: at most 2047 levels |
| Listing.DepthCostsTwoBytes | src/discovery/bc_seek_discovery_walk_sequential.c:50-67 | Every level below the first costs a separator and a name |
| Pruning.MaxDepthIsAFilter | src/discovery/bc_seek_discovery_walk_sequential.c:111-124 | The output with a maximum depth is the unlimited output restricted to that depth, for either descent rule, any minimum depth and any roots |
| Pruning.DepthPruningKeepsMatches | src/discovery/bc_seek_discovery_walk_sequential.c:114-116 | Under either descent rule, what the filter keeps of the pruned listing is what it keeps of the unlimited one |
| Pruning.DescentRulesAgree | src/discovery/bc_seek_discovery_walk_parallel.c:183-185 | The two walkers' different depth tests, with their special cases for roots, give the same output |
| Pruning.CutoffIsExact | src/discovery/bc_seek_discovery_walk_sequential.c:183-186 | Skipping what does not fit the buffer drops exactly the paths that are too long |
| Pruning.CutoffKeepsWhatFits | src/discovery/bc_seek_discovery_walk_sequential.c:183-186 | The same below any one directory |
| Following.FollowingIsResolving | src/discovery/bc_seek_discovery_walk_sequential.c:204-216 | Below a directory, following links lists the paths listed without following them on the tree in which every link is replaced by what it leads to; and prints the same ones, when no type is asked for |
| Following.FollowedRootIsResolved | src/discovery/bc_seek_discovery_walk_sequential.c:244-263 | The same for a root |
| Confinement.ConfinedListingIsSealed | src/discovery/bc_seek_discovery_walk_sequential.c:136-146 | A confined walk lists what an unconfined one lists of the tree in which no directory of another device opens |
| Confinement.ConfinedRootIsSealed | src/discovery/bc_seek_discovery_walk_sequential.c:244-327 | The same for a root and everything under it |
| SequentialWalk.DescentIgnoresFilter | src/discovery/bc_seek_discovery_walk_sequential.c:204-216 | Whether an entry counts as a directory is the same for every predicate, whether evaluation called stat, failed to, or did not try |
| SequentialWalk.Walker.ShouldStop | src/discovery/bc_seek_discovery_walk_sequential.c:35-48 | The stop flag is latched, and once set the handler is not asked again |
| SequentialWalk.Walker.EmitMatch | src/discovery/bc_seek_discovery_walk_sequential.c:102-109 | Emits the bytes at the buffer's pointer exactly when the filter accepts, leaves the buffer alone, and reports a failed write |
| SequentialWalk.Walker.ShouldDescendDirectory | src/discovery/bc_seek_discovery_walk_sequential.c:111-124 | Depth, ignored names and hidden names, nothing else, stop a descent |
| SequentialWalk.Walker.OpenOrRecord | src/discovery/bc_seek_discovery_walk_sequential.c:126-149 | A subdirectory is opened on the right device, or the error is recorded under its path |
| SequentialWalk.Walker.CandidateInBuffer | src/discovery/bc_seek_discovery_walk_sequential.c:188-202 | The candidate read back from the buffer has the joined path and exactly the entry name |
| SequentialWalk.Walker.FindIsDirectory | src/discovery/bc_seek_discovery_walk_sequential.c:209-214 | The check after the filter, with its second stat |
| SequentialWalk.Walker.VisitEntry | src/discovery/bc_seek_discovery_walk_sequential.c:188-214 | Candidate, filter, emission and type of one entry together; the directory answer is the one that does not depend on the filter |
| SequentialWalk.Walker.DescendInto | src/discovery/bc_seek_discovery_walk_sequential.c:216-229 | A failing subdirectory does not end its parent unless a stop is pending; the path in the buffer survives the recursion |
| SequentialWalk.Walker.ProcessAppended | src/discovery/bc_seek_discovery_walk_sequential.c:188-229 | The entry whose path has been appended is visited and entered, and its path survives in the buffer |
| SequentialWalk.Walker.ProcessEntry | src/discovery/bc_seek_discovery_walk_sequential.c:178-231 | One turn of the loop, with the buffer before the directory's path unchanged on every way out |
| SequentialWalk.Walker.NextEntry | src/discovery/bc_seek_discovery_walk_sequential.c:162-177 | The stop check comes before the reader, and a read error is recorded under the directory's path; `StopIsHeeded` is what the check is for |
| SequentialWalk.Walker.ReadEntries | src/discovery/bc_seek_discovery_walk_sequential.c:161-232 | The reader loop computes the run function for any entries left to read |
| SequentialWalk.Walker.IterateEntries | src/discovery/bc_seek_discovery_walk_sequential.c:151-242 | The recursive walk over the shared buffer computes the run function, leaves the caller's bytes unchanged even when it fails or breaks without truncating, and terminates on cyclic graphs |
| SequentialWalk.Walker.VisitRoot | src/discovery/bc_seek_discovery_walk_sequential.c:244-327 | The root is stat'd, fixes the device if it is the first, is filtered, and is walked if it is a directory that opens |
| SequentialWalk.Walker.VisitStatedRoot | src/discovery/bc_seek_discovery_walk_sequential.c:268-327 | The length check, the copy into a buffer, the filter and the walk, in that order |
| SequentialWalk.Walker.EmitRoot | src/discovery/bc_seek_discovery_walk_sequential.c:281-305 | The root's candidate carries the facts already stat'd, the basename after the last slash, and depth 0 |
| SequentialWalk.Walker.EnterRoot | src/discovery/bc_seek_discovery_walk_sequential.c:315-326 | A root that does not open is an error; one that opens is walked at depth 0 |
| SequentialWalk.Walker.WalkSequential | src/discovery/bc_seek_discovery_walk_sequential.c:329-362 | The root loop with its stop check, the default root and the conjunction of the roots' answers |
| RunLaws.NextIsSilent | src/discovery/bc_seek_discovery_walk_sequential.c:162-177 | Reading on prints nothing; it goes on exactly when the reader answered and no stop came, and a failed read is the one error recorded |
| RunLaws.OpenSubdirIsSilent | src/discovery/bc_seek_discovery_walk_sequential.c:126-149 | Opening a subdirectory prints nothing; one that does not open leaves one error, and if no fault is to blame the listing does not enter it either |
| RunLaws.EmitOutcome | src/discovery/bc_seek_discovery_walk_sequential.c:102-109 | One candidate prints what the conjunction accepts of it, with one more call in the log, and the answer is false exactly when a flush failed |
| RunLaws.EntriesOutcome | src/discovery/bc_seek_discovery_walk_sequential.c:151-236 | For every directory and every pattern of faults and stops: the records printed are a subsequence of the listing's matches, a prefix if no fault was met, all of them if there was no stop either, and fewer if a write failed; the new errors are the paths of the new calls that failed; the stream grew by the framing of the records unless a flush failed |
| RunLaws.DescendOutcome | src/discovery/bc_seek_discovery_walk_sequential.c:216-229 | The same for entering a subdirectory; its parent goes on exactly when no stop is pending |
| RunLaws.RunOutcome | src/discovery/bc_seek_discovery_walk_sequential.c:329-362 | The same for a whole run over all roots |
| StopLaws.StopIsHeeded | src/discovery/bc_seek_discovery_walk_sequential.c:162-165 | In any run, from the call at which the stop signal is first up at most six calls more are made; none of them reads an entry and at most one writes a record |
| StopLaws.CallsAreOrderly | src/discovery/bc_seek_discovery_walk_sequential.c:126-173 | In any run, the paths stat'd first are the roots' and their length is checked right after; a device check follows the opening of the same path, a reader follows that, and entries are read only from readers that were created, each under the directory's own path |
| OpenLaws.OpenedAreListed | src/discovery/bc_seek_discovery_walk_sequential.c:216-222 | In any run, the directories tried are, in order, among the listed ones that are directories, within the maximum depth and not ignored; in a run without fault or stop they are all of those |
| ExitStatus.EntriesShow | src/discovery/bc_seek_discovery_walk_sequential.c:161-242 | Without a stop or an error, a directory's answer is true exactly when no write for its own entries failed; deeper writes do not show |
| ExitStatus.FaultsOnlyOmit | src/discovery/bc_seek_discovery_walk_sequential.c:154-173 | Whatever fails, the output is the expected one with records left out, in order; the errors are the paths of the failed calls, one each and in order; and if every flush delivered, the descriptor holds whole records |
| ExitStatus.SoundEnvironmentIsQuiet | src/discovery/bc_seek_discovery_walk_sequential.c:329-362 | When every oracle answers well, a run meets no fault |
| ExitStatus.InterruptionLeavesPrefix | src/discovery/bc_seek_discovery_walk_sequential.c:352-360 | When nothing fails, whenever the stop signal first reads true, the descriptor ends up with a prefix of the full run's records, and with all of them if it never does |
| ExitStatus.StatusIsZeroIff | src/bc_seek_main.c:122-137 | An uninterrupted run has status 0 if and only if no error was recorded and no write failed for a root or an entry directly under one |
| ExitStatus.DeliveredIffFlushed | src/bc_seek_main.c:140-147 | After an uninterrupted run without errors, the descriptor holds exactly the expected output if and only if every flush delivered, the one at close included |
| SilentLoss.CloseLosesEverything | src/output/bc_seek_output.c:65-79 | One file is listed, the flush at close fails, nothing is delivered, and the status is 0 |
| SilentLoss.DeepWriteLosesSilently | src/discovery/bc_seek_discovery_walk_sequential.c:221-228 | A tree whose output exceeds the buffer and whose first flush fails two levels down: output is lost and the status is 0 |
| StatLaws.EntryStatCost | src/discovery/bc_seek_discovery_walk_sequential.c:126-149 | Everything done for one entry makes no stat call exactly when no test needs one, its type is known, it is no link to follow and it is not opened under a device check; at most two calls otherwise |
| StatLaws.StatsAreLazy | src/filter/bc_seek_filter.c:246-270 | Over a whole run, whatever fails, at most two calls per entry visited and one per root; and, unless confined to one file system, at most one successful call per entry and one per root |
| StatCost.DirectorySpends | src/discovery/bc_seek_discovery_walk_sequential.c:151-242 | The walk of a directory makes at most the stat calls the tree below it costs, and exactly those when it meets no fault and no stop; the same for the successful ones |
| StatCost.CostIsZeroIff | src/discovery/bc_seek_discovery_walk_sequential.c:204-216 | A tree costs no stat call if and only if no listed candidate needs one and no directory in it is opened under a device check |
| StatCost.StatsAreCounted | src/discovery/bc_seek_discovery_walk_sequential.c:329-362 | The stat calls of a whole run, roots and device checks included: never more than the tree costs, exactly that in a run without fault or stop, and one per root, the least there can be, if and only if nothing listed needs one |
| StatCost.FreeWalkStatsRootsOnly | CHANGELOG.md:20-21 | With no stat test, known types, links not followed and no confinement, only the roots are stat'd |
| StatCost.ConfinementCostsAStat | src/discovery/bc_seek_discovery_walk_sequential.c:136-146 | With no test at all and every type known, a confined walk over one root and one directory makes two stat calls, and an unconfined one makes one |
| StatNeeds.CostIsBounded | src/filter/bc_seek_filter.c:246-270 | A tree costs at most two stat calls for each listed entry whose type is open or which everything but the stat tests accepts, and one for each directory of a confined walk |
| StatNeeds.StatsAreForMatches | src/filter/bc_seek_filter.c:254-270 | Over a whole run with known types, unconfined and without followed links: at most one call per root and one per listed entry that everything but the stat tests accepts, and exactly those in a run without fault or stop |
| Application.RunSequential | src/bc_seek_main.c:88-157 | From options to exit status and delivered bytes: 130 exactly when the signal is raised after the walk, 0 exactly when no stop came, no call failed and no shallow write failed; then the delivered bytes are the expected ones if and only if every flush delivered |
| Application.RunParallel | src/discovery/bc_seek_discovery_walk_parallel.c:429-451 | From the joined buffers to the exit status: 130 exactly when the signal is raised at the end, 0 exactly when it is not, there is no error and the descriptor got every gathered byte; with fewer than 256 workers, or when the buffers fit, those are the sequential records, with their number |
| Output.FlushKeepsBytes | src/output/bc_seek_output.c:65-70 | A flush delivers everything pending, or fails and leaves at least one byte behind; nothing else ever reaches the descriptor |
| Output.WriteAddsBytes | src/output/bc_seek_output.c:49-59 | A write adds its bytes at the end of the stream, and fails exactly when a flush it made did |
| Output.EmitAddsOneRecord | src/output/bc_seek_output.c:44-63 | Both branches add path and separator as one record and count it; or a flush failed, the record is not counted, and no byte beyond its own is delivered |
| Output.Output.FlushBuffer | src/output/bc_seek_output.c:65-70 | The flush of the specification, on the writer's fields |
| Output.Output.WriteRecord | src/output/bc_seek_output.c:44-60 | The stack copy and the two-write branch both write the caller's bytes and the separator, and leave the caller's array alone |
| Output.Output.Emit | src/output/bc_seek_output.c:44-63 | Counts the record exactly when it was written; the stream stays the framing of the records emitted for as long as no flush fails |
| Output.Output.Close | src/output/bc_seek_output.c:65-79 | What is pending is flushed, and the records stay as they were |
| Output.FramingRoundTrips | src/output/bc_seek_output.c:13-18 | Splitting the stream gives the records back if and only if none contains the separator |
| ParallelWalk.WorkerSlot.Ensure | src/discovery/bc_seek_discovery_walk_parallel.c:64-81 | A slot is emptied on its first use and kept afterwards; a missing slot and a failed reserve are refused, and a failed reserve leaves the slot unused |
| ParallelWalk.WorkerSlot.AppendMatch | src/discovery/bc_seek_discovery_walk_parallel.c:52-62 | Path and separator are appended, or the first append that finds no room ends it and the path stays |
| ParallelWalk.WorkerSlot.Visit | src/discovery/bc_seek_discovery_walk_parallel.c:123-175 | The callback appends and counts the record exactly when the device is not foreign, the conjunction holds and there is room, records an error when there is none, and answers false only when the worker has no usable slot |
| ParallelWalk.VisitWithPlenty | src/discovery/bc_seek_discovery_walk_parallel.c:123-175 | With memory to spare, the callback appends one framed record to a slot that is ready, counts it, answers true and reports nothing |
| Agreement.VisitIsJudgedEagerly | src/discovery/bc_seek_discovery_walk_parallel.c:144-166 | A delivered path is printed if and only if the entry is not foreign and every test holds of the path, the part after its last slash, its depth and the facts the engine gives, or those of its basename in the working directory where they leave the type open |
| ParallelWalk.ShouldDescendCallback | src/discovery/bc_seek_discovery_walk_parallel.c:179-202 | The descent test of the state machine |
| ParallelWalk.StripSlashes | src/discovery/bc_seek_discovery_walk_parallel.c:296-298 | Drops trailing slashes and keeps the first byte |
| Agreement.StrippedDropsSlashesOnly | src/discovery/bc_seek_discovery_walk_parallel.c:296-298 | What is left is a beginning of the path, without anything but slashes dropped, that ends in no slash unless it is one byte, and is empty only if the path was |
| ParallelWalk.EmitRoot | src/discovery/bc_seek_discovery_walk_parallel.c:317-343 | The stripped root path is appended to the main buffer exactly when the conjunction holds and there is room; the lack of room is one error under the root's own path |
| Agreement.RootEventIsJudgedEagerly | src/discovery/bc_seek_discovery_walk_parallel.c:317-343 | The stripped root path is printed if and only if the root can be stat'd and every test holds of that path, the part after its last slash, depth 0 and the facts it is judged by |
| ParallelWalk.HandleRoot | src/discovery/bc_seek_discovery_walk_parallel.c:280-374 | The first root that can be stat'd publishes its device; the root is filtered into the main buffer, its directory is handed over when it is to be walked, and a root that cannot be stat'd or stored leaves one error |
| ParallelWalk.StartRootIsHandled | src/discovery/bc_seek_discovery_walk_parallel.c:280-374 | With memory to spare, handling a root is the root step of the state machine, and only a root that cannot be stat'd leaves an error |
| RootDevice.PublishingIsConfining | src/discovery/bc_seek_discovery_walk_parallel.c:309-315 | A root publishes exactly the device that the sequential walk would be confined to from that root on |
| RootDevice.RootsPublishTheFirstDevice | src/discovery/bc_seek_discovery_walk_parallel.c:421-426 | Handling all roots publishes the device of the first one that was stat'd |
| ParallelLaws.StepAdvances | src/discovery/bc_seek_discovery_walk_parallel.c:123-202 | Every step turns one planned event into one logged event, however events are weighed |
| ParallelLaws.AbandoningLoses | src/discovery/bc_seek_discovery_walk_parallel.c:269-278 | A worker that quits and a directory that is discarded only lose planned events, and log none |
| ParallelLaws.ExpandKeepsPlan | src/discovery/bc_seek_discovery_walk_parallel.c:352-372 | Reading a directory turns its plan into the plans of its entries, and keeps the path-length hypothesis |
| ParallelLaws.StepKeepsInv | src/discovery/bc_seek_discovery_walk_parallel.c:123-175 | After every step each buffer is the framing of the records logged for it, with their number |
| ParallelLaws.ScheduleConserves | src/discovery/bc_seek_discovery_walk_parallel.c:421-426 | Along every schedule without a stop, printed plus still to come is constant, and every step uses up one planned event |
| ParallelLaws.ScheduleNeverGains | src/discovery/bc_seek_discovery_walk_parallel.c:421-426 | Along every schedule, stops included, printed plus still to come never grows |
| ParallelLaws.NoDeadlock | src/discovery/bc_seek_discovery_walk_parallel.c:421-426 | A walk that is not finished has a step to take |
| ParallelLaws.FinishedIffNothingOutstanding | src/discovery/bc_seek_discovery_walk_parallel.c:421-426 | The walk is finished exactly when no planned event is left |
| Agreement.VisitAgrees | src/discovery/bc_seek_discovery_walk_parallel.c:144-166 | A visit prints the path exactly when the sequential walker's lazy evaluation accepts it |
| Agreement.DescentAgrees | src/discovery/bc_seek_discovery_walk_parallel.c:179-202 | The callback queues exactly the directory the listing enters |
| Agreement.PlanIsListing | src/discovery/bc_seek_discovery_walk_parallel.c:123-202 | For any record, a directory's plan holds it as often as its listing matches it |
| Agreement.StrippedIffPlain | src/discovery/bc_seek_discovery_walk_parallel.c:296-298 | Dropping slashes changes a root path exactly when it has more than one byte and ends in a slash |
| Agreement.FitsIffNothingIsCut | src/discovery/bc_seek_discovery_walk_sequential.c:183-186 | The hypothesis on path lengths holds exactly when no larger buffer would make the walk list a path longer than 4095 bytes |
| Agreement.EveryScheduleStaysWithin | src/discovery/bc_seek_discovery_walk_parallel.c:421-426 | At every point of every schedule, also when a stop abandons work and later roots are still handled, nothing is printed that the sequential walk does not print, nor more often |
| Agreement.RecordIsConserved | src/discovery/bc_seek_discovery_walk_parallel.c:376-451 | For any record and any schedule without a stop, printed so far plus still to come is its number in the sequential output |
| Agreement.EveryScheduleAgrees | src/discovery/bc_seek_discovery_walk_parallel.c:376-451 | For every number of workers and every schedule without a stop, a finished walk has printed the sequential records as a multiset; all such schedules have the same length and none is longer |
| Confinement.CallbacksStayHome | src/discovery/bc_seek_discovery_walk_parallel.c:127-132 | Confined, a callback takes nothing of another device and changes nothing for it, and treats an entry of the root device as it would without confinement |
| Confinement.ConfinedScheduleAgrees | src/discovery/bc_seek_discovery_walk_parallel.c:197-200 | Under every schedule a confined walk prints nothing but what the sequential walker prints of the tree without the entries of other devices, and exactly that when it finishes without a stop |
| Confinement.WorkersStayHome | src/discovery/bc_seek_discovery_walk_parallel.c:127-132 | Under every schedule, stops included, each record of a worker is the path of an entry on the root device |
| Slashes.SlashedScheduleAgrees | src/discovery/bc_seek_discovery_walk_parallel.c:296-298 | Roots with trailing slashes: under every schedule nothing is printed but what the sequential walk prints for the stripped roots, and exactly that when the walk finishes without a stop |
| Merge.IovecBuilder.Collect | src/discovery/bc_seek_discovery_walk_parallel.c:221-233 | A buffer with content is added if there is room, otherwise the array is left alone |
| Merge.IovecBuilder.CollectAll | src/discovery/bc_seek_discovery_walk_parallel.c:429-437 | The array holds the main buffer and the slots, in order, up to 256, none of them empty |
| Merge.MergeKeepsRecordsWhole | src/discovery/bc_seek_discovery_walk_parallel.c:221-233 | The merged stream is a concatenation of whole records with each buffer's order kept, and the count added is their number |
| Merge.MergeIsCompleteIffRoom | src/discovery/bc_seek_discovery_walk_parallel.c:226-228 | Records are complete when the buffers with content fit the array, and some are lost otherwise |
| Merge.FewWorkersFit | src/discovery/bc_seek_discovery_walk_parallel.c:429-437 | However a walk is scheduled, it fills at most one buffer per worker and the main one, so fewer than 256 workers always fit |
| FullArray.FullArrayLosesRecords | src/discovery/bc_seek_discovery_walk_parallel.c:429-437 | For 256 workers or more and as many roots there is a schedule that finishes with more than 256 buffers in use, and the merge then counts fewer records than the sequential walk prints |
| FullArray.ArrayIsEnoughIff | src/discovery/bc_seek_discovery_walk_parallel.c:226-228 | Every schedule of every run leaves buffers that fit the array if and only if there are fewer than 256 workers |
| TornRecords.BufferIsWholeIff | src/discovery/bc_seek_discovery_walk_parallel.c:52-62 | After any callbacks with any answers of the allocator, a buffer is the framing of the records it counts if and only if no accepted path found room without its separator; a reader gets them back if and only if no such path is followed by a whole record |
| TornRecords.FailedSeparatorGluesRecords | src/discovery/bc_seek_discovery_walk_parallel.c:168-174 | Two accepted visits, the first without room for its separator: one record counted, one error, and a reader sees both paths as one record |
| TornRecords.SilentRefusalIff | src/discovery/bc_seek_discovery_walk_parallel.c:139-142 | An accepted record is neither counted nor reported if and only if the slot is missing or cannot be reserved, and then the callback answers false |
| TornRecords.VisitsAccount | src/discovery/bc_seek_discovery_walk_parallel.c:123-175 | Over any callbacks, the accepted records are, as multisets, those counted, those reported and those refused |
| TornRecords.NothingSilentlyLostIff | src/discovery/bc_seek_discovery_walk_parallel.c:123-175 | Counted and reported records add up to the accepted ones if and only if none met an unusable slot |
| TornRecords.RootAddsPiece | src/discovery/bc_seek_discovery_walk_parallel.c:336-343 | A root leaves a whole record, a torn path or nothing in the main buffer |
| TornRecords.MergedStreamIsWholeIff | src/discovery/bc_seek_discovery_walk_parallel.c:429-446 | The merged stream is the framing of the counted records if and only if no gathered buffer holds a torn path, and is read back if and only if no torn path is followed by a whole record of the same or a later buffer |
| TornRecords.TornTailRunsOnIff | src/discovery/bc_seek_discovery_walk_parallel.c:221-233 | Two buffers that each read back alone read back together if and only if the first has no torn end or the second no whole record |
| Merge.Advance | src/discovery/bc_seek_discovery_walk_parallel.c:246-257 | Moving the iovecs in place drops exactly the bytes written and keeps every length positive |
| Merge.TurnKeepsData | src/discovery/bc_seek_discovery_walk_parallel.c:247-257 | One turn of the inner loop drops the first iovec whole or shortens it, and the bytes that remain are the same |
| Merge.WriteAllIovec | src/discovery/bc_seek_discovery_walk_parallel.c:235-260 | For every sequence of short writes and interruptions the descriptor receives a prefix of the data, and all of it exactly when the answer is true; it terminates when interruptions end |
| EndToEnd.WriteMerged | src/discovery/bc_seek_discovery_walk_parallel.c:429-446 | Gathering, flushing and writing together, with the count added whether or not the write succeeds |
| EndToEnd.RecordsAreNulFree | src/output/bc_seek_output.c:18 | In NUL mode the separator occurs in no record |
| EndToEnd.NulStreamSplits | src/output/bc_seek_output.c:44-79 | In NUL mode, whatever else happened, a reader of the descriptor recovers the records printed if every flush delivered |
| EndToEnd.MergedStreamHoldsExpected | src/discovery/bc_seek_discovery_walk_parallel.c:429-446 | With fewer than 256 workers, the merged stream of a finished walk holds exactly the records expected of the sequential walk, and the count is their number; with more, whenever the buffers fit |
| EndToEnd.WalkersPrintTheSame | tests/test_bc_seek_end_to_end.c:437-465 | Splitting what reaches the two descriptors gives the same multiset, for every tree within the hypotheses, every schedule, and every sequential run without a fault or stop, unreadable directories included; the cited test compares one tree |
| RootDevice.StepKeepsInv | src/discovery/bc_seek_discovery_walk_parallel.c:309-315 | Every interleaving of exchange, store and loads keeps the first root's device on its way to the callbacks |
| RootDevice.CallbacksSeeTheFirstRoot | src/discovery/bc_seek_discovery_walk_parallel.c:127-132 | In every run every callback acts on flag 1 and the device of the first root that was stat'd |
| CliParsers.ParseUnsigned | src/cli/bc_seek_cli_parsers.c:14-33 | Accepts exactly the non-empty digit strings whose value fits 64 bits, with that value; no step wraps around |
| CliParsers.ValueGrows | src/cli/bc_seek_cli_parsers.c:26-29 | Once a prefix is out of range, more digits do not bring it back |
| CliParsers.UnitOfSuffix | src/cli/bc_seek_cli_parsers.c:76-112 | The unit table, with 512-byte blocks when there is no suffix |
| CliParsers.ParseSizeFilter | src/cli/bc_seek_cli_parsers.c:52-124 | Computes the meaning of a size text, in 64-bit arithmetic that never wraps |
| CliParsers.SizeTextMeans | src/cli/bc_seek_cli_parsers.c:52-124 | Every optional sign, digits and optional unit is accepted exactly when the product fits 64 bits, with that product |
| CliParsers.MeaningfulSizeIsText | src/cli/bc_seek_cli_parsers.c:52-124 | Nothing else is accepted |
| CliParsers.PrintedSizeParses | src/cli/bc_seek_cli_parsers.c:52-124 | Parsing inverts printing |
| CliParsers.UnitsAreWorth | src/cli/bc_seek_cli_parsers.c:76-112 | A byte, a word, a block, which is also what no unit means, and powers of 1024 |
| CliParsers.UnitsAreThese | src/cli/bc_seek_cli_parsers.c:76-112 | An accepted text ends in a digit or in one of the eight units |
| CliParsers.LeadingZeros | src/cli/bc_seek_cli_parsers.c:20-30 | Any number of leading zeros leaves the value as it is |
| CliParsers.ProductFits | src/cli/bc_seek_cli_parsers.c:118-120 | The division guard passes exactly the products that fit |
| CliParsers.ParseMtimeFilter | src/cli/bc_seek_cli_parsers.c:126-154 | Accepts exactly an optional sign and digits worth at most 2^63-1 |
| CliParsers.BindMtime | src/cli/bc_seek_cli_spec.c:334-347 | Days become seconds exactly when the product fits 64 bits, which it never overflows |
| CliParsers.PrintedMtimeBinds | src/cli/bc_seek_cli_spec.c:334-347 | Binding inverts printing, for every number of days |
| CliParsers.MtimeTextMeans | src/cli/bc_seek_cli_spec.c:334-347 | Any sign, zeros and number of days is accepted exactly when its seconds fit 63 bits, with those seconds |
| CliParsers.MeaningfulMtimeIsText | src/cli/bc_seek_cli_parsers.c:126-154 | Nothing else is accepted |
| CliParsers.ParsePermFilter | src/cli/bc_seek_cli_parsers.c:156-178 | Accepts exactly the octal strings worth at most 07777, with any number of leading zeros |
| CliParsers.PermTextMeans | src/cli/bc_seek_cli_parsers.c:156-178 | Zeros and a number printed in octal are accepted exactly when the number is at most 4095, as that number |
| CliParsers.MeaningfulPermIsText | src/cli/bc_seek_cli_parsers.c:156-178 | Nothing else is accepted |
| CliParsers.SizePlusMatchesFind | src/filter/bc_seek_filter.c:184-195 | `--size +N` accepts exactly the sizes whose number of units, rounded up, exceeds N |
| CliParsers.SizeOtherwiseMatchesFindIff | src/filter/bc_seek_filter.c:184-195 | The other forms do what find does exactly for sizes not strictly between N-1 and N units |
| CliParsers.MtimeMinusMatchesFind | src/filter/bc_seek_filter.c:197-209 | `--mtime -N` accepts exactly the ages of less than N whole days |
| CliParsers.MtimeOtherwiseMatchesFindIff | src/filter/bc_seek_filter.c:197-209 | The other forms do what find does exactly for ages not strictly between N and N+1 days |

## Left out

- Equality of the walkers with followed links, `--one-file-system`, trailing slashes or special files: the code differs there. What each prints is stated instead (`Following`, `Confinement`, `Slashes`, `VisitIsJudgedEagerly`).
- Allocation failures in the parallel state machine: its steps are those with memory to spare; sequences of callbacks with failing buffers, and their merge, are modelled apart from it.
- The walk engine, its queue, its worker pool and its termination counter: only the contract above.
- C memory ordering beyond interleaved atomic steps, cache-line padding and memory contexts.
- The errno values recorded, descriptor numbers and open flags other than following links.
- Opening and closing the output's descriptor.
- Application.RunParallel: the schedule and the errors of the engine are parameters, so it starts where the engine has joined.
- Stat calls of the walk engine: those counted are the sequential walker's.
- `fnmatch` patterns: a libc call, kept as an arbitrary predicate.
- The option table, help text, messages, the config store, the check that the minimum depth does not exceed the maximum, and the choice of thread count.
- `--type` and `--threads` parsing: finite case lists over library calls.
- Filter.Evaluate: the difference of two 64-bit times is taken over unbounded integers, so an age outside 64 bits is not modelled.
- Two roots that overlap: each is walked on its own, so `RootListsEachPathOnce` is about one root.
