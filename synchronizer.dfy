/**
 * The `FileSynchronizer` class (src/FileSynchronizer.ts): configuration
 * checked and compiled once, then any number of walks, each of which
 * dispatches events to the listeners.
 *
 * The event emitter is modelled by the `events` field: the sequence of every
 * event dispatched so far. The file system is a map from a path to what
 * opening the directory at that path yields; the walk opens only the root
 * by path, and finds its subdirectories' listings inside the tree.
 */
module Synchronizer {
  import opened Wrappers
  import opened Rules
  import opened FileTree
  import opened Traversal
  import opened ReplayFacts
  import opened TraceFacts

  /** A JavaScript number, as far as the `maxDepth` check tells numbers apart. */
  datatype JsNumber = Finite(value: real) | PositiveInfinity | NegativeInfinity | NaN

  /** `Number.isInteger`: finite and without a fractional part. */
  predicate IsInteger(x: JsNumber)
  {
    x.Finite? && x.value.Floor as real == x.value
  }

  /** The `patterns` option as it may arrive at run time. */
  datatype PatternsOption = Omitted | Given(list: seq<Pattern>) | NotAnArray

  /** The constructor's argument; `None` is an omitted (undefined) property. */
  datatype SyncOptions = SyncOptions(root: Option<string>, maxDepth: Option<JsNumber>, patterns: PatternsOption)

  datatype ConfigError = RootUndefined | MaxDepthNotInteger | PatternsNotArray

  /** The message of the `TypeError` the constructor throws. */
  function ConfigMessage(e: ConfigError): string
  {
    match e
    case RootUndefined => "root is undefined"
    case MaxDepthNotInteger => "maxDepth should be an integer"
    case PatternsNotArray => "patterns should be an array"
  }

  /** How the promise returned by `walk` settles. */
  datatype Outcome = Resolved | Rejected(error: WalkError)

  class FileSynchronizer {
    const root: string
    const maxDepth: Limit
    const patterns: seq<Rule>
    const defaultInclude: bool

    /** Every event dispatched to the listeners so far, in order. */
    var events: seq<Event>

    /** The configuration every walk reads. */
    function Settings(): Config
    {
      Config(maxDepth, patterns, defaultInclude)
    }

    /** What opening the root yields: its listing, or an error when there is no such directory. */
    function RootListing(disk: map<string, Listing>): Listing
    {
      if root in disk then disk[root] else Unreadable
    }

    /** The field assignments of the constructor, once its checks have passed. */
    constructor Init(root: string, maxDepth: Limit, patterns: seq<Pattern>, compile: string -> Matcher)
      ensures this.root == root && this.maxDepth == maxDepth
      ensures this.patterns == CompilePatterns(patterns, compile)
      ensures defaultInclude == DefaultInclude(patterns)
      ensures events == []
    {
      this.root := root;
      this.maxDepth := maxDepth;
      this.patterns := CompilePatterns(patterns, compile);
      this.defaultInclude := DefaultInclude(patterns);
      events := [];
    }

    /**
     * The constructor: rejects an undefined root, a `maxDepth` that is
     * neither an integer nor +Infinity (omitted means +Infinity), and a
     * `patterns` value that is not an array, in that order.
     */
    static method New(options: SyncOptions, compile: string -> Matcher) returns (r: Result<FileSynchronizer, ConfigError>)
      ensures r == Failure(RootUndefined) <==> options.root.None?
      ensures r == Failure(MaxDepthNotInteger)
              <==> options.root.Some? && options.maxDepth.Some?
                   && !IsInteger(options.maxDepth.value) && options.maxDepth.value != PositiveInfinity
      ensures r == Failure(PatternsNotArray)
              <==> options.root.Some? && options.patterns.NotAnArray?
                   && (options.maxDepth.Some? ==> IsInteger(options.maxDepth.value) || options.maxDepth.value == PositiveInfinity)
      ensures r.Failure? && ConfigMessage(r.error) == "root is undefined" <==> options.root.None?
      ensures r.Failure? && ConfigMessage(r.error) == "maxDepth should be an integer"
              <==> r == Failure(MaxDepthNotInteger)
      ensures r.Failure? && ConfigMessage(r.error) == "patterns should be an array"
              <==> r == Failure(PatternsNotArray)
      ensures r.Success? ==>
                && fresh(r.value)
                && r.value.root == options.root.value
                && (r.value.maxDepth.Unbounded? <==> options.maxDepth.None? || options.maxDepth == Some(PositiveInfinity))
                && (r.value.maxDepth.AtMost? ==> options.maxDepth == Some(Finite(r.value.maxDepth.levels as real)))
                && r.value.events == []
                && var supplied := if options.patterns.Given? then options.patterns.list else [];
                   && r.value.patterns == CompilePatterns(supplied, compile)
                   && r.value.defaultInclude == DefaultInclude(supplied)
    {
      var maxDepth := if options.maxDepth.Some? then options.maxDepth.value else PositiveInfinity;
      var patterns := if options.patterns.Given? then options.patterns.list else [];
      if options.root.None? {
        return Failure(RootUndefined);
      }
      if !IsInteger(maxDepth) && maxDepth != PositiveInfinity {
        return Failure(MaxDepthNotInteger);
      }
      if options.patterns.NotAnArray? {
        return Failure(PatternsNotArray);
      }
      var limit := if maxDepth == PositiveInfinity then Unbounded else AtMost(maxDepth.value.Floor);
      var s := new FileSynchronizer.Init(options.root.value, limit, patterns, compile);
      return Success(s);
    }

    /**
     * `walk`: fails at once if the signal is already set, scans the root at
     * depth 0, then dispatches `end`. The events dispatched and the outcome
     * are those of the walk's specification.
     */
    method Walk(disk: map<string, Listing>, signal: Option<Signal>) returns (outcome: Outcome)
      modifies this
      ensures var run := WalkRun(Settings(), RootListing(disk), signal);
              && events == old(events) + run.log
              && outcome == if run.error.None? then Resolved else Rejected(run.error.value)
    {
      var scan := ListingTrace(Settings(), RootListing(disk), 0, []);
      assert WalkTrace(Settings(), RootListing(disk)) == [Check] + scan + [Emit(End)];
      ReplayAppend([Check] + scan, [Emit(End)], signal, 0);
      assert ([Check] + scan)[1..] == scan;
      if IsAborted(signal, 0) {
        return Rejected(OperationAborted);
      }
      var error := ScanDirectory(RootListing(disk), 0, [], signal, |events|);
      if error.Some? {
        return Rejected(error.value);
      }
      events := events + [End];
      return Resolved;
    }

    /**
     * `scanDirectory`: opens the directory, then visits its entries in
     * order until one of them fails. `walkStart` is the number of events
     * dispatched before the current walk began.
     */
    method ScanDirectory(listing: Listing, depth: int, path: seq<string>, signal: Option<Signal>, walkStart: nat)
      returns (error: Option<WalkError>)
      requires walkStart <= |events|
      modifies this
      ensures var run := Replay(ListingTrace(Settings(), listing, depth, path), signal, |old(events)| - walkStart);
              events == old(events) + run.log && error == run.error
      decreases listing
    {
      match listing
      case Unreadable =>
        error := Some(IoError);
      case Readable(entries) =>
        ghost var before := events;
        ghost var prior := |events| - walkStart;
        ghost var log: seq<Event> := [];
        error := None;
        var i := 0;
        while i < |entries| && error.None?
          invariant 0 <= i <= |entries|
          invariant events == before + log
          invariant Run(log, error) == Replay(EntriesTrace(Settings(), entries[..i], depth, path), signal, prior)
          decreases |entries| - i
        {
          EntriesStep(Settings(), entries, i, depth, path, signal, prior);
          ghost var n := prior + |log|;
          error := ScanEntry(entries[i], depth, path, signal, walkStart);
          log := log + Replay(EntryTrace(Settings(), entries[i], depth, path), signal, n).log;
          i := i + 1;
        }
        if error.Some? {
          EntriesStopped(Settings(), entries, i, depth, path, signal, prior);
        } else {
          assert entries[..i] == entries;
        }
    }

    /**
     * One iteration of `scanDirectory`'s loop: checks the signal, reads the
     * entry's metadata, enters a directory only below the depth limit, and
     * dispatches one event for every other entry.
     */
    method ScanEntry(entry: Entry, depth: int, path: seq<string>, signal: Option<Signal>, walkStart: nat)
      returns (error: Option<WalkError>)
      requires walkStart <= |events|
      modifies this
      ensures var run := Replay(EntryTrace(Settings(), entry, depth, path), signal, |old(events)| - walkStart);
              events == old(events) + run.log && error == run.error
      decreases entry
    {
      EntryReplay(Settings(), entry, depth, path, signal, |events| - walkStart);
      if IsAborted(signal, |events| - walkStart) {
        return Some(OperationAborted);
      }
      match entry
      case Broken(_) =>
        error := Some(IoError);
      case Dir(name, sub) =>
        error := None;
        if Descends(maxDepth, depth) {
          error := ScanDirectory(sub, depth + 1, path + [name], signal, walkStart);
        }
      case File(name) =>
        var info := FileInfo(path + [name], name);
        var event := if ShouldInclude(patterns, defaultInclude, name) then Included(info) else Excluded(info);
        events := events + [event];
        error := None;
    }
  }
}
