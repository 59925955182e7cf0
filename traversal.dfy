/**
 * What one walk does, as a specification.
 *
 * The walk of a tree is first described without cancellation, as the
 * sequence of steps it goes through: a check of the abort signal before each
 * directory entry (and once before the walk), the dispatch of an event, or
 * an I/O fault. `Replay` then runs such a trace against an abort signal: it
 * stops at the first fault, or at the first check point that finds the
 * signal set, and collects the events dispatched before that.
 */
module Traversal {
  import opened Wrappers
  import opened Rules
  import opened FileTree

  /** The depth limit: none, or the number of levels below the root that may be entered. */
  datatype Limit = Unbounded | AtMost(levels: int)

  /** A directory met at `depth` is entered only when `depth` is below the limit. */
  predicate Descends(limit: Limit, depth: int)
  {
    limit.Unbounded? || depth < limit.levels
  }

  /** The configuration a walk reads: depth limit, compiled rules and default. */
  datatype Config = Config(maxDepth: Limit, rules: seq<Rule>, defaultInclude: bool)

  /**
   * An abort signal whose `abort()` is called once the walk has dispatched
   * `dispatched` events (0: before the walk starts). The flag only goes
   * from unset to set.
   */
  datatype Signal = AbortAfter(dispatched: nat)

  predicate IsAborted(signal: Option<Signal>, dispatched: nat)
  {
    signal.Some? && signal.value.dispatched <= dispatched
  }

  datatype WalkError = OperationAborted | IoError

  /**
   * The message the walk's promise is rejected with. An I/O failure carries
   * the file system's own message, which the model does not tell apart.
   */
  function ErrorMessage(e: WalkError): string
  {
    match e
    case OperationAborted => "operation was aborted"
    case IoError => "I/O error"
  }

  /** The events dispatched, and the error the walk failed with, if any. */
  datatype Run = Run(log: seq<Event>, error: Option<WalkError>)

  /** The event for one file: classified by its bare name only. */
  function Classify(cfg: Config, info: FileInfo): Event
  {
    if ShouldInclude(cfg.rules, cfg.defaultInclude, info.filename) then Included(info) else Excluded(info)
  }

  /** The events for a sequence of files, in the same order. */
  function Dispatch(cfg: Config, files: seq<FileInfo>): (events: seq<Event>)
  {
    seq(|files|, i requires 0 <= i < |files| => Classify(cfg, files[i]))
  }

  datatype Step = Check | Emit(event: Event) | Fault

  /** The steps of scanning a directory found at `depth`, whose path below the root is `path`. */
  function ListingTrace(cfg: Config, listing: Listing, depth: int, path: seq<string>): seq<Step>
    decreases listing
  {
    match listing
    case Unreadable => [Fault]
    case Readable(entries) => EntriesTrace(cfg, entries, depth, path)
  }

  function EntriesTrace(cfg: Config, entries: seq<Entry>, depth: int, path: seq<string>): seq<Step>
    decreases entries
  {
    if entries == [] then []
    else EntryTrace(cfg, entries[0], depth, path) + EntriesTrace(cfg, entries[1..], depth, path)
  }

  /** One entry: the abort check, then the metadata read, then a recursion or an event. */
  function EntryTrace(cfg: Config, entry: Entry, depth: int, path: seq<string>): seq<Step>
    decreases entry
  {
    [Check] +
    match entry
    case Broken(_) => [Fault]
    case File(name) => [Emit(Classify(cfg, FileInfo(path + [name], name)))]
    case Dir(name, listing) =>
      if Descends(cfg.maxDepth, depth) then ListingTrace(cfg, listing, depth + 1, path + [name]) else []
  }

  /** A whole walk: the check before it, the root at depth 0, then `end`. */
  function WalkTrace(cfg: Config, root: Listing): seq<Step>
  {
    [Check] + ListingTrace(cfg, root, 0, []) + [Emit(End)]
  }

  /** The events a trace dispatches when nothing stops it. */
  function Emits(steps: seq<Step>): seq<Event>
  {
    if steps == [] then []
    else (if steps[0].Emit? then [steps[0].event] else []) + Emits(steps[1..])
  }

  /**
   * Runs a trace against a signal, `dispatched` events having been
   * dispatched before it in the same walk.
   */
  function Replay(steps: seq<Step>, signal: Option<Signal>, dispatched: nat): Run
  {
    if steps == [] then Run([], None)
    else
      match steps[0]
      case Check =>
        if IsAborted(signal, dispatched) then Run([], Some(OperationAborted))
        else Replay(steps[1..], signal, dispatched)
      case Fault => Run([], Some(IoError))
      case Emit(event) =>
        var rest := Replay(steps[1..], signal, dispatched + 1);
        Run([event] + rest.log, rest.error)
  }

  /** The result of walking the tree `root` with configuration `cfg`. */
  function WalkRun(cfg: Config, root: Listing, signal: Option<Signal>): Run
  {
    Replay(WalkTrace(cfg, root), signal, 0)
  }

  // ---------------------------------------------------------------------
  // The tree itself, independently of the walk

  /** Every file of the tree, depth first, in listing order (unreadable parts hold none). */
  function AllFiles(listing: Listing, path: seq<string>): seq<FileInfo>
    decreases listing
  {
    match listing
    case Unreadable => []
    case Readable(entries) => AllFilesOf(entries, path)
  }

  function AllFilesOf(entries: seq<Entry>, path: seq<string>): seq<FileInfo>
    decreases entries
  {
    if entries == [] then []
    else
      match entries[0]
      case File(name) => [FileInfo(path + [name], name)] + AllFilesOf(entries[1..], path)
      case Broken(_) => AllFilesOf(entries[1..], path)
      case Dir(name, listing) => AllFiles(listing, path + [name]) + AllFilesOf(entries[1..], path)
  }

  /**
   * A file below a directory scanned at `depth` with path `path` lies within
   * the limit: the directory holding it was scanned at a depth no greater
   * than the larger of `depth` and the limit.
   */
  predicate WithinLimit(limit: Limit, depth: int, path: seq<string>, f: FileInfo)
  {
    limit.AtMost? ==> depth + (|f.relativePath| - |path| - 1) <= Max(depth, limit.levels)
  }

  function Max(a: int, b: int): int
  {
    if a < b then b else a
  }

  function KeepWithin(limit: Limit, depth: int, path: seq<string>, files: seq<FileInfo>): seq<FileInfo>
  {
    if files == [] then []
    else (if WithinLimit(limit, depth, path, files[0]) then [files[0]] else [])
         + KeepWithin(limit, depth, path, files[1..])
  }

  /** The files a walk reaches under a depth limit. */
  function Visible(limit: Limit, listing: Listing, depth: int, path: seq<string>): seq<FileInfo>
    decreases listing
  {
    match listing
    case Unreadable => []
    case Readable(entries) => VisibleOf(limit, entries, depth, path)
  }

  function VisibleOf(limit: Limit, entries: seq<Entry>, depth: int, path: seq<string>): seq<FileInfo>
    decreases entries
  {
    if entries == [] then []
    else
      match entries[0]
      case File(name) => [FileInfo(path + [name], name)] + VisibleOf(limit, entries[1..], depth, path)
      case Broken(_) => VisibleOf(limit, entries[1..], depth, path)
      case Dir(name, listing) =>
        (if Descends(limit, depth) then Visible(limit, listing, depth + 1, path + [name]) else [])
        + VisibleOf(limit, entries[1..], depth, path)
  }

  /**
   * The last entry a scan reaches is a file: after the last file it
   * dispatches, the scan reaches no further entry (an empty or unreadable
   * directory holds no such last file).
   */
  predicate EndsWithFile(limit: Limit, listing: Listing, depth: int)
    decreases listing
  {
    match listing
    case Unreadable => false
    case Readable(entries) => entries != [] && EntryEndsWithFile(limit, entries[|entries| - 1], depth)
  }

  predicate EntryEndsWithFile(limit: Limit, entry: Entry, depth: int)
    decreases entry
  {
    match entry
    case File(_) => true
    case Broken(_) => false
    case Dir(_, listing) => Descends(limit, depth) && EndsWithFile(limit, listing, depth + 1)
  }

  /** Every directory the walk opens is readable and every entry it reaches can be stat'ed. */
  ghost predicate Sound(limit: Limit, listing: Listing, depth: int)
    decreases listing
  {
    match listing
    case Unreadable => false
    case Readable(entries) => SoundOf(limit, entries, depth)
  }

  ghost predicate SoundOf(limit: Limit, entries: seq<Entry>, depth: int)
    decreases entries
  {
    entries != [] ==>
      && (match entries[0]
          case File(_) => true
          case Broken(_) => false
          case Dir(_, listing) => Descends(limit, depth) ==> Sound(limit, listing, depth + 1))
      && SoundOf(limit, entries[1..], depth)
  }
}
