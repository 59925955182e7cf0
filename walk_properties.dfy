/**
 * What a whole walk guarantees: which events it dispatches and in which
 * order, where `end` goes, how far below the root it looks, and how the
 * abort signal and I/O errors end it.
 */
module WalkProperties {
  import opened Wrappers
  import opened FileTree
  import opened Traversal
  import opened ReplayFacts
  import opened TraceFacts

  /** The events of a walk that nothing stops: every reachable file, classified, then `end`. */
  lemma WalkEmits(cfg: Config, root: Listing)
    ensures Emits(WalkTrace(cfg, root)) == Dispatch(cfg, Visible(cfg.maxDepth, root, 0, [])) + [End]
    ensures Emits([Check] + ListingTrace(cfg, root, 0, [])) == Dispatch(cfg, Visible(cfg.maxDepth, root, 0, []))
  {
    var scan := ListingTrace(cfg, root, 0, []);
    ListingEmits(cfg, root, 0, []);
    EmitsAppend([Check], scan);
    EmitsAppend([Check] + scan, [Emit(End)]);
  }

  lemma DispatchHasNoEnd(cfg: Config, files: seq<FileInfo>)
    ensures End !in Dispatch(cfg, files)
  {
  }

  /**
   * A walk completes exactly when every directory it opens is readable,
   * every entry it reaches can be stat'ed, and no check point finds the
   * signal set. It then has dispatched one event per reachable file, in
   * walk order and classified by the rules, followed by `end` exactly once.
   */
  lemma WalkCompletion(cfg: Config, root: Listing, signal: Option<Signal>)
    ensures WalkRun(cfg, root, signal).error.None?
            <==> Sound(cfg.maxDepth, root, 0) && forall i :: !ObservesAbort(WalkTrace(cfg, root), signal, 0, i)
    ensures WalkRun(cfg, root, signal).error.None? ==>
              && WalkRun(cfg, root, signal).log == Dispatch(cfg, Visible(cfg.maxDepth, root, 0, [])) + [End]
              && End !in WalkRun(cfg, root, signal).log[..|WalkRun(cfg, root, signal).log| - 1]
  {
    var trace := WalkTrace(cfg, root);
    var files := Visible(cfg.maxDepth, root, 0, []);
    ReplayOutcome(trace, signal, 0);
    WalkEmits(cfg, root);
    ListingFault(cfg, root, 0, []);
    assert Fault in trace <==> Fault in ListingTrace(cfg, root, 0, []);
    DispatchHasNoEnd(cfg, files);
    assert (Dispatch(cfg, files) + [End])[..|files|] == Dispatch(cfg, files);
  }

  /**
   * A walk that fails has dispatched a prefix of the events of a complete
   * walk and never `end`; an I/O error means the reachable tree is not
   * sound, and a cancellation means some check point found the signal set.
   */
  lemma WalkFailure(cfg: Config, root: Listing, signal: Option<Signal>)
    requires WalkRun(cfg, root, signal).error.Some?
    ensures WalkRun(cfg, root, signal).log <= Dispatch(cfg, Visible(cfg.maxDepth, root, 0, []))
    ensures End !in WalkRun(cfg, root, signal).log
    ensures WalkRun(cfg, root, signal).error == Some(IoError) ==> !Sound(cfg.maxDepth, root, 0)
    ensures WalkRun(cfg, root, signal).error == Some(OperationAborted)
            ==> exists i :: ObservesAbort(WalkTrace(cfg, root), signal, 0, i)
  {
    var scan := [Check] + ListingTrace(cfg, root, 0, []);
    var files := Visible(cfg.maxDepth, root, 0, []);
    ReplayAppend(scan, [Emit(End)], signal, 0);
    ReplayOutcome(scan, signal, 0);
    ReplayOutcome(WalkTrace(cfg, root), signal, 0);
    WalkEmits(cfg, root);
    ListingFault(cfg, root, 0, []);
    DispatchHasNoEnd(cfg, files);
    assert Fault in WalkTrace(cfg, root) <==> Fault in ListingTrace(cfg, root, 0, []);
  }

  /** A signal already set when `walk` is called fails it before anything is dispatched. */
  lemma WalkAbortedUpFront(cfg: Config, root: Listing, signal: Option<Signal>)
    requires IsAborted(signal, 0)
    ensures WalkRun(cfg, root, signal) == Run([], Some(OperationAborted))
    ensures ErrorMessage(WalkRun(cfg, root, signal).error.value) == "operation was aborted"
  {
  }

  /** A root that cannot be opened fails the walk with an I/O error before anything is dispatched. */
  lemma WalkMissingRoot(cfg: Config, signal: Option<Signal>)
    requires !IsAborted(signal, 0)
    ensures WalkRun(cfg, Unreadable, signal) == Run([], Some(IoError))
  {
    var steps := WalkTrace(cfg, Unreadable);
    assert steps == [Check, Fault, Emit(End)];
    assert steps[1..] == [Fault, Emit(End)];
    assert Replay(steps[1..], signal, 0) == Run([], Some(IoError));
    assert Replay(steps, signal, 0) == Replay(steps[1..], signal, 0);
  }

  /**
   * On a sound tree holding `n` reachable files, a signal set by a listener
   * of the `k`-th event with `k < n` fails the walk with exactly the first
   * `k` events dispatched.
   */
  lemma WalkAbortedAfter(cfg: Config, root: Listing, k: nat)
    requires Sound(cfg.maxDepth, root, 0)
    requires k < |Visible(cfg.maxDepth, root, 0, [])|
    ensures WalkRun(cfg, root, Some(AbortAfter(k)))
            == Run(Dispatch(cfg, Visible(cfg.maxDepth, root, 0, []))[..k], Some(OperationAborted))
  {
    var scan := [Check] + ListingTrace(cfg, root, 0, []);
    ListingGuarded(cfg, root, 0, []);
    GuardedAppend([Check], ListingTrace(cfg, root, 0, []));
    ListingFault(cfg, root, 0, []);
    WalkEmits(cfg, root);
    ReplayStopsAfter(scan, k, 0);
    ReplayAppend(scan, [Emit(End)], Some(AbortAfter(k)), 0);
  }

  /**
   * On a sound tree holding `n` reachable files, a signal set only once
   * more than `n` events were dispatched is never observed: the walk
   * completes.
   */
  lemma WalkAbortedTooLate(cfg: Config, root: Listing, k: nat)
    requires Sound(cfg.maxDepth, root, 0)
    requires |Visible(cfg.maxDepth, root, 0, [])| < k
    ensures WalkRun(cfg, root, Some(AbortAfter(k)))
            == Run(Dispatch(cfg, Visible(cfg.maxDepth, root, 0, [])) + [End], None)
  {
    var scan := [Check] + ListingTrace(cfg, root, 0, []);
    ListingFault(cfg, root, 0, []);
    WalkEmits(cfg, root);
    ReplayUnreached(scan, k, 0);
    ReplayAppend(scan, [Emit(End)], Some(AbortAfter(k)), 0);
  }

  /**
   * On a sound tree holding `n` reachable files, a signal set by a listener
   * of the last file (`k == n`) is seen only at a check point after that
   * file: the walk completes with every event and `end` exactly when the
   * last entry it reaches is that file, and otherwise fails with every
   * event but `end`.
   */
  lemma WalkAbortedAtLastFile(cfg: Config, root: Listing)
    requires Sound(cfg.maxDepth, root, 0)
    ensures var events := Dispatch(cfg, Visible(cfg.maxDepth, root, 0, []));
            WalkRun(cfg, root, Some(AbortAfter(|events|)))
            == if EndsWithFile(cfg.maxDepth, root, 0) then Run(events + [End], None)
               else Run(events, Some(OperationAborted))
  {
    var scan := [Check] + ListingTrace(cfg, root, 0, []);
    var events := Dispatch(cfg, Visible(cfg.maxDepth, root, 0, []));
    ListingFault(cfg, root, 0, []);
    WalkEmits(cfg, root);
    ListingEndsOnEmit(cfg, root, 0, []);
    assert EndsOnEmit(scan) <==> EndsOnEmit(ListingTrace(cfg, root, 0, []));
    ReplayAtLast(scan, 0);
    ReplayAppend(scan, [Emit(End)], Some(AbortAfter(|events|)), 0);
  }

  /**
   * The files a walk reaches are the files of the tree at most `maxDepth`
   * levels below the root (the root's own files always), each named by the
   * last component of its path.
   */
  lemma WalkDepthBound(limit: Limit, root: Listing)
    ensures forall f :: f in Visible(limit, root, 0, [])
                        <==> f in AllFiles(root, []) && (limit.AtMost? ==> |f.relativePath| - 1 <= Max(0, limit.levels))
    ensures forall f | f in Visible(limit, root, 0, []) ::
              1 <= |f.relativePath| && f.filename == f.relativePath[|f.relativePath| - 1]
  {
    VisibleWithinLimit(limit, root, 0, []);
    KeepWithinMembers(limit, 0, [], AllFiles(root, []));
    AllFilesBelow(root, []);
  }

  /** Without a depth limit, a walk reaches every file of the tree, in order. */
  lemma WalkUnbounded(root: Listing)
    ensures Visible(Unbounded, root, 0, []) == AllFiles(root, [])
  {
    VisibleWithinLimit(Unbounded, root, 0, []);
    KeepAll(0, [], AllFiles(root, []));
  }

  lemma {:induction false} KeepAll(depth: int, path: seq<string>, files: seq<FileInfo>)
    ensures KeepWithin(Unbounded, depth, path, files) == files
  {
    if files != [] {
      KeepAll(depth, path, files[1..]);
      assert files == [files[0]] + files[1..];
    }
  }
}
