# fs-synchronizer: a verified model of the walk

This project models `FileSynchronizer`, the one class of the library. It
walks a directory tree from a root. It classifies every file it meets as
included or excluded by an ordered list of glob rules. It dispatches a `file`
or `excluded-file` event per file and one `end` event. The walk is bounded by
a maximum depth and can be cancelled with an abort signal.

The model has three parts:

- **Configuration** (`synchronizer.dfy`, `rules.dfy`). `FileSynchronizer.New`
  is the throwing constructor. It returns a `Result` and performs the three
  checks in the source's order. It compiles the patterns in order and computes
  `defaultInclude` once. The configuration fields are `const`.
- **Rule evaluation** (`rules.dfy`). `ShouldInclude` is first-match-wins over
  the compiled rules and falls back to `defaultInclude`. A compiled glob is an
  opaque `string -> bool`, and the glob compiler is a parameter.
- **Traversal** (`traversal.dfy`, `synchronizer.dfy`). `Walk` and
  `ScanDirectory` (with `ScanEntry`, one iteration of its loop) are imperative
  methods. They append to the `events` field,
  which stands for everything dispatched to the listeners. They are proved
  equal to a specification in two layers:
  - `EntryTrace`, `ListingTrace` and `WalkTrace` give the steps of a walk
    without cancellation. A step is an abort check, an event, or an I/O fault.
  - `Replay` runs those steps against an abort signal. It stops at the first
    fault, or at the first check point that finds the signal set.

Modelling choices:

- The file system is an in-memory tree. An `Entry` is a `File`, a `Dir` with
  its `Listing`, or a `Broken` entry whose metadata cannot be read. A
  `Listing` is either `Readable(entries)` or `Unreadable`. The root is looked
  up by its path in a map. A missing root is `Unreadable`.
- The abort signal is `AbortAfter(k)`: a listener sets it once the walk has
  dispatched `k` events. `k = 0` means the signal is set before `walk` is
  called. `None` means there is no signal.
- `maxDepth` arrives as a JavaScript number: finite, +Infinity, -Infinity or
  NaN. It is kept as a `Limit`, either `Unbounded` or `AtMost(n)`.

The lemmas in `replay_facts.dfy`, `trace_facts.dfy` and `walk_properties.dfy`
prove these properties:

- A walk's events are a prefix of the complete walk's events.
- A walk completes exactly when the part of the tree it reaches is sound and
  no check point finds the signal set.
- A completed walk dispatches one classified event per reachable file, in walk
  order, then `end` exactly once.
- On a sound tree with `n` reachable files, cancellation after the `k`-th
  event with `k < n` leaves exactly `k` events and no `end`.
- With `k = n`, a listener of the last file sets the signal. The walk then
  completes with every event and `end` exactly when the last entry it reaches
  is that file. Otherwise the next check point sees the signal, and the walk
  is rejected after all `n` events and without `end`.
- The reachable files are exactly the files at most `maxDepth` levels below
  the root.

Edge cases the model keeps as the code has them:

- An empty root string is accepted. Only `undefined` is rejected
  (src/FileSynchronizer.ts:35).
- Negative integer depths pass `Number.isInteger` (src/FileSynchronizer.ts:38).
  They stop all descent (src/FileSynchronizer.ts:82), so only the root's own
  entries are scanned.
- The root directory is scanned at depth 0 whatever the limit
  (src/FileSynchronizer.ts:63).
- Any entry that is not a directory is handled as a file
  (src/FileSynchronizer.ts:85).

## Model

| member | source | states |
|---|---|---|
| `Synchronizer.FileSynchronizer.New` | src/FileSynchronizer.ts:28-56 | Fails with an error whose `ConfigMessage` is "root is undefined" exactly when root is undefined (an empty root passes). Fails with "maxDepth should be an integer" exactly when a given maxDepth is neither an integer nor +Infinity (negative integers pass). Fails with "patterns should be an array" exactly when the earlier checks pass and patterns is not an array. On success the object is fresh, has no events, is unbounded exactly when maxDepth was omitted or +Infinity and otherwise keeps the given integer, and has its rules compiled in order with `defaultInclude` computed from the supplied patterns (none when omitted). |
| `Synchronizer.FileSynchronizer.Init` | src/FileSynchronizer.ts:45-55 | The fields are the root, the limit, the compiled patterns and `defaultInclude`, and nothing has been dispatched. |
| `Synchronizer.FileSynchronizer.Walk` | src/FileSynchronizer.ts:58-65 | Appends to the dispatched events exactly the log of `WalkRun` for the root's listing, and resolves or rejects with that run's error. |
| `Synchronizer.FileSynchronizer.ScanDirectory` | src/FileSynchronizer.ts:67-100 | Appends exactly the events of replaying the directory's trace from the number of events already dispatched in this walk, and returns that replay's error. |
| `Synchronizer.FileSynchronizer.ScanEntry` | src/FileSynchronizer.ts:74-98 | One loop iteration: appends exactly the events of replaying that entry's trace (none after an abort or a failed metadata read, one classified event for a file, the subdirectory's events when it is within the depth limit) and returns that replay's error. |
| `Rules.CompilePatterns` | src/FileSynchronizer.ts:48-53 | One rule per pattern, in the supplied order: the rule at index i has the kind of pattern i and the matcher compiled from its glob. |
| `Rules.DefaultInclude` | src/FileSynchronizer.ts:55 | True exactly when no supplied pattern is an include pattern. |
| `Rules.ShouldInclude` | src/FileSynchronizer.ts:102-113 | If rule i is the first rule matching the file name, the answer is whether rule i is an include rule. If no rule matches, the answer is `defaultInclude`. |
| `Rules.LaterRulesIrrelevant` | src/FileSynchronizer.ts:103-111 | Once some rule of a list matches, appending more rules does not change the answer. |
| `Rules.UnmatchedPrefixIrrelevant` | src/FileSynchronizer.ts:103-110 | Rules in front that do not match the file name can be dropped without changing the answer. |
| `Rules.OrderDecides` | src/FileSynchronizer.ts:103-111 | If two rules of different kinds both match a name, the one in front decides, so swapping them flips the answer. |
| `Rules.NoRulesIncludeEverything` | src/FileSynchronizer.ts:55 | With the default empty pattern list, every file is included. |
| `Rules.ExcludeOnly` | src/FileSynchronizer.ts:102-113 | With only exclude patterns, a file is included exactly when no rule matches it. |
| `Rules.IncludeOnly` | src/FileSynchronizer.ts:102-113 | With a non-empty list of only include patterns, a file is included exactly when some rule matches it. |
| `Rules.UnmatchedExcludedOnceIncludeRuleExists` | src/FileSynchronizer.ts:55 | If any include pattern exists, a file that no rule matches is excluded. |
| `ReplayFacts.ReplayOutcome` | src/FileSynchronizer.ts:73-76 | A run's events are a prefix of the trace's events. The run completes exactly when the trace has no fault and no check point finds the signal set, and it then dispatches every event. An I/O error implies a fault. A cancellation implies a check point that found the signal set. |
| `ReplayFacts.ReplayAppend` | src/FileSynchronizer.ts:73-99 | Running a concatenation is running the first part, then, unless it failed, the second part with the first part's events counted. |
| `ReplayFacts.ReplayStopsAfter` | src/FileSynchronizer.ts:73-76 | In a fault-free trace whose events each follow a check point, a signal set after the k-th event, with more events to come, stops the run with exactly the first k events. |
| `ReplayFacts.ReplayAtLast` | src/FileSynchronizer.ts:73-76 | In a fault-free trace, a signal set once all of the trace's events have been dispatched lets every event through. The run is cancelled exactly when a check point comes after the last event. |
| `ReplayFacts.ReplayUnreached` | src/FileSynchronizer.ts:73-76 | In a fault-free trace, a signal set only after more events than the trace holds is never observed, and the run dispatches every event. |
| `TraceFacts.EntryReplay` | src/FileSynchronizer.ts:74-98 | One entry: a set signal fails before the entry is read. Otherwise a failed stat is an I/O error, a file dispatches one event classified by its bare name, and a directory is scanned at depth + 1 only when the depth is below the limit. |
| `TraceFacts.EntriesStep` | src/FileSynchronizer.ts:73 | Scanning the first i + 1 entries is scanning the first i, then, unless that failed, entry i. |
| `TraceFacts.EntriesStopped` | src/FileSynchronizer.ts:73-76 | After an error, the remaining entries of the directory are not looked at. |
| `TraceFacts.ListingGuarded` | src/FileSynchronizer.ts:73-98 | Every file event of a scan comes right after a check of the signal. |
| `TraceFacts.ListingFault` | src/FileSynchronizer.ts:72-79 | A scan meets an I/O fault exactly when a directory it opens is unreadable or an entry it reaches cannot be stat'ed. |
| `TraceFacts.ListingEmits` | src/FileSynchronizer.ts:81-97 | Without interruption, a scan dispatches exactly one event per reachable file, in walk order, each classified by the rules. |
| `TraceFacts.EntryEmits` | src/FileSynchronizer.ts:77-97 | Without interruption, one entry dispatches the classified files it contributes: itself if it is a file, the subdirectory's reachable files if it is a directory below the limit, and nothing otherwise. |
| `TraceFacts.ListingEndsOnEmit` | src/FileSynchronizer.ts:73-98 | A scan's last step is an event exactly when the last entry it reaches is a file (`EndsWithFile`). An empty, unreadable or unentered directory at the end breaks this, and so does a failed stat at the end. |
| `TraceFacts.AllFilesBelow` | src/FileSynchronizer.ts:77-89 | Every file of a tree has a path that extends the directory's path, and its name is the last component of that path. |
| `TraceFacts.VisibleWithinLimit` | src/FileSynchronizer.ts:81-84 | The files a scan reaches are the tree's files, in order, that lie in a directory scanned at a depth no greater than the larger of the starting depth and the limit. |
| `WalkProperties.WalkEmits` | src/FileSynchronizer.ts:58-65 | An uninterrupted walk dispatches the classified reachable files, then `end`. |
| `WalkProperties.WalkCompletion` | src/FileSynchronizer.ts:58-76 | A walk completes exactly when the reachable tree is sound and no check point finds the signal set. It then dispatches every reachable file's event in order, followed by `end`, which occurs nowhere earlier. |
| `WalkProperties.WalkFailure` | src/FileSynchronizer.ts:58-76 | A failed walk has dispatched a prefix of the complete walk's file events and never `end`. An I/O error implies an unsound tree. A cancellation implies a check point that found the signal set. |
| `WalkProperties.WalkAbortedUpFront` | src/FileSynchronizer.ts:59-61 | A signal already set fails the walk with no events. The error's `ErrorMessage` is "operation was aborted". |
| `WalkProperties.WalkMissingRoot` | src/FileSynchronizer.ts:63-72 | A root that cannot be opened fails the walk with an I/O error and no events. |
| `WalkProperties.WalkAbortedAfter` | src/FileSynchronizer.ts:74-76 | On a sound tree with n reachable files, a signal set after the k-th event, with k < n, fails the walk with exactly the first k events. |
| `WalkProperties.WalkAbortedTooLate` | src/FileSynchronizer.ts:74-76 | On a sound tree with n reachable files, a signal set only after more than n events leaves the walk complete, with every event and `end`. |
| `WalkProperties.WalkAbortedAtLastFile` | src/FileSynchronizer.ts:58-76 | On a sound tree with n reachable files, a signal set by a listener of the n-th event gives one of two outcomes. If the last entry the walk reaches is a file, the walk completes with every event and `end`. Otherwise it is rejected as aborted after every file event and without `end`. |
| `WalkProperties.WalkDepthBound` | src/FileSynchronizer.ts:81-84 | A file is reached exactly when it is in the tree and lies at most max(0, maxDepth) levels below the root. Each reached file is named by the last component of its path. |
| `WalkProperties.WalkUnbounded` | src/FileSynchronizer.ts:30 | Without a limit, a walk reaches every file of the tree, in order. |
| `Fixtures.FourFilesThreeRules` | src/__tests__/FileSynchronizer.test.ts:126-140 | For files a.txt to d.txt and rules [exclude a*, include [cd]*, exclude b*], a walk dispatches excluded a, excluded b, included c, included d, then `end`. |
| `Fixtures.AbortedAfterLastFile` | src/__tests__/FileSynchronizer.test.ts:232-250 | Four files, no patterns, and an abort from the fourth file's listener. The walk is not rejected: it dispatches the four included files, then `end`. |
| `Fixtures.AbortedBeforeTrailingDirectory` | src/FileSynchronizer.ts:73-76 | One file followed by an empty directory, with an abort from the file's listener. The directory's check point sees the signal, so the walk is rejected after the one event and without `end`. |

## Left out

- File system I/O. `opendir` and `stat` are replaced by the `Listing` and
  `Entry` tree. Every I/O failure becomes one `IoError`. Its
  message is a generic "I/O error". The file system's own codes (ENOENT for
  a missing root, ENOTDIR, EACCES) are not told apart.
- The glob library. Its matching is an opaque `string -> bool`. Its
  construction errors (a pattern that is not a string, or one that is too
  long) are not modelled.
- File metadata. The absolute path, extension, size, birth and modification
  times and the `Stats` object are library and OS data. `FileInfo` keeps the
  path below the root as a sequence of names, plus the bare file name. The
  source's `relativePath` also starts with the root path, and `join` is not
  modelled.
- Listeners. An event dispatch appends to `events`. A listener that throws,
  which would reject the walk, is not modelled.
- Asynchrony. Promise timing is not modelled. "`end` fires before the
  promise settles" is modelled as `end` being the last event appended before
  `Walk` returns. Overlapping walks on one object are not modelled.
- Abort timing. The signal can only become set right after an event
  dispatched by this walk. An abort from elsewhere (a timer firing while a
  `stat` is pending) is not expressible when no event lies between the two
  check points.
- Floating point. `maxDepth` is an exact real, so large or imprecise doubles
  are not modelled. `null` and other non-number values are not modelled.
- Pattern kinds. A pattern `type` is `Include` or `Exclude`. The source, when
  called from untyped code, treats any other value as exclude.
- Root type. A root that is neither a string nor undefined (`null`) is not
  modelled.
