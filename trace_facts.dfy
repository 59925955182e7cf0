/**
 * Facts connecting the trace of a walk to the tree it walks: which files
 * produce events, in which order, at which depth, and when I/O faults occur.
 */
module TraceFacts {
  import opened Wrappers
  import opened FileTree
  import opened Traversal
  import opened ReplayFacts

  lemma {:induction false} EntriesTraceAppend(cfg: Config, a: seq<Entry>, b: seq<Entry>, depth: int, path: seq<string>)
    ensures EntriesTrace(cfg, a + b, depth, path) == EntriesTrace(cfg, a, depth, path) + EntriesTrace(cfg, b, depth, path)
  {
    if a == [] {
      assert a + b == b;
    } else {
      assert (a + b)[0] == a[0];
      assert (a + b)[1..] == a[1..] + b;
      EntriesTraceAppend(cfg, a[1..], b, depth, path);
    }
  }

  /** Scanning one entry more: the run so far, continued by the entry's own steps. */
  lemma EntriesStep(cfg: Config, entries: seq<Entry>, i: nat, depth: int, path: seq<string>, signal: Option<Signal>, dispatched: nat)
    requires i < |entries|
    ensures var done := Replay(EntriesTrace(cfg, entries[..i], depth, path), signal, dispatched);
            Replay(EntriesTrace(cfg, entries[..i + 1], depth, path), signal, dispatched) ==
              if done.error.Some? then done
              else
                var step := Replay(EntryTrace(cfg, entries[i], depth, path), signal, dispatched + |done.log|);
                Run(done.log + step.log, step.error)
  {
    assert entries[..i + 1] == entries[..i] + [entries[i]];
    EntriesTraceAppend(cfg, entries[..i], [entries[i]], depth, path);
    assert EntriesTrace(cfg, [entries[i]], depth, path) == EntryTrace(cfg, entries[i], depth, path);
    ReplayAppend(EntriesTrace(cfg, entries[..i], depth, path), EntryTrace(cfg, entries[i], depth, path), signal, dispatched);
  }

  /** A scan stopped by an error after some entries ignores the entries that follow. */
  lemma EntriesStopped(cfg: Config, entries: seq<Entry>, i: nat, depth: int, path: seq<string>, signal: Option<Signal>, dispatched: nat)
    requires i <= |entries|
    requires Replay(EntriesTrace(cfg, entries[..i], depth, path), signal, dispatched).error.Some?
    ensures Replay(EntriesTrace(cfg, entries, depth, path), signal, dispatched)
            == Replay(EntriesTrace(cfg, entries[..i], depth, path), signal, dispatched)
  {
    assert entries[..i] + entries[i..] == entries;
    EntriesTraceAppend(cfg, entries[..i], entries[i..], depth, path);
    ReplayAppend(EntriesTrace(cfg, entries[..i], depth, path), EntriesTrace(cfg, entries[i..], depth, path), signal, dispatched);
  }

  /**
   * One entry: a set signal stops the scan before the entry is looked at;
   * otherwise a failed metadata read is an I/O error, a file dispatches its
   * event, and a directory is scanned only below the depth limit.
   */
  lemma EntryReplay(cfg: Config, entry: Entry, depth: int, path: seq<string>, signal: Option<Signal>, dispatched: nat)
    ensures Replay(EntryTrace(cfg, entry, depth, path), signal, dispatched) ==
              if IsAborted(signal, dispatched) then Run([], Some(OperationAborted))
              else match entry
                case Broken(_) => Run([], Some(IoError))
                case File(name) => Run([Classify(cfg, FileInfo(path + [name], name))], None)
                case Dir(name, listing) =>
                  if Descends(cfg.maxDepth, depth) then Replay(ListingTrace(cfg, listing, depth + 1, path + [name]), signal, dispatched)
                  else Run([], None)
  {
    var steps := EntryTrace(cfg, entry, depth, path);
    if !IsAborted(signal, dispatched) {
      match entry
      case Broken(_) =>
        assert steps[1..] == [Fault];
      case File(name) =>
        var event := Classify(cfg, FileInfo(path + [name], name));
        assert steps[1..] == [Emit(event)];
        assert steps[1..][1..] == [];
        assert Replay(steps[1..], signal, dispatched) == Run([event], None);
      case Dir(name, listing) =>
        assert steps[1..] == if Descends(cfg.maxDepth, depth) then ListingTrace(cfg, listing, depth + 1, path + [name]) else [];
    }
  }

  lemma DispatchAppend(cfg: Config, a: seq<FileInfo>, b: seq<FileInfo>)
    ensures Dispatch(cfg, a + b) == Dispatch(cfg, a) + Dispatch(cfg, b)
  {
  }

  /** Every file event of a scan comes right after a check point. */
  lemma {:induction false} ListingGuarded(cfg: Config, listing: Listing, depth: int, path: seq<string>)
    ensures Guarded(ListingTrace(cfg, listing, depth, path))
    decreases listing
  {
    if listing.Readable? {
      EntriesGuarded(cfg, listing.entries, depth, path);
    }
  }

  lemma {:induction false} EntriesGuarded(cfg: Config, entries: seq<Entry>, depth: int, path: seq<string>)
    ensures Guarded(EntriesTrace(cfg, entries, depth, path))
    decreases entries
  {
    if entries != [] {
      EntryGuarded(cfg, entries[0], depth, path);
      EntriesGuarded(cfg, entries[1..], depth, path);
      GuardedAppend(EntryTrace(cfg, entries[0], depth, path), EntriesTrace(cfg, entries[1..], depth, path));
    }
  }

  lemma {:induction false} EntryGuarded(cfg: Config, entry: Entry, depth: int, path: seq<string>)
    ensures Guarded(EntryTrace(cfg, entry, depth, path))
    decreases entry
  {
    match entry
    case Broken(_) =>
    case File(_) =>
    case Dir(name, listing) =>
      if Descends(cfg.maxDepth, depth) {
        ListingGuarded(cfg, listing, depth + 1, path + [name]);
        GuardedAppend([Check], ListingTrace(cfg, listing, depth + 1, path + [name]));
      }
  }

  /** A scan meets an I/O fault exactly when the part of the tree it reaches is not sound. */
  lemma {:induction false} ListingFault(cfg: Config, listing: Listing, depth: int, path: seq<string>)
    ensures Fault in ListingTrace(cfg, listing, depth, path) <==> !Sound(cfg.maxDepth, listing, depth)
    decreases listing
  {
    if listing.Readable? {
      EntriesFault(cfg, listing.entries, depth, path);
    }
  }

  lemma {:induction false} EntriesFault(cfg: Config, entries: seq<Entry>, depth: int, path: seq<string>)
    ensures Fault in EntriesTrace(cfg, entries, depth, path) <==> !SoundOf(cfg.maxDepth, entries, depth)
    decreases entries
  {
    if entries != [] {
      EntriesFault(cfg, entries[1..], depth, path);
      match entries[0]
      case Broken(_) =>
      case File(_) =>
      case Dir(name, listing) =>
        if Descends(cfg.maxDepth, depth) {
          ListingFault(cfg, listing, depth + 1, path + [name]);
        }
    }
  }

  /**
   * The events a scan dispatches, when nothing stops it, are the classified
   * files it reaches, in the same order.
   */
  lemma {:induction false} ListingEmits(cfg: Config, listing: Listing, depth: int, path: seq<string>)
    ensures Emits(ListingTrace(cfg, listing, depth, path)) == Dispatch(cfg, Visible(cfg.maxDepth, listing, depth, path))
    decreases listing
  {
    if listing.Readable? {
      EntriesEmits(cfg, listing.entries, depth, path);
    }
  }

  lemma {:induction false} EntriesEmits(cfg: Config, entries: seq<Entry>, depth: int, path: seq<string>)
    ensures Emits(EntriesTrace(cfg, entries, depth, path)) == Dispatch(cfg, VisibleOf(cfg.maxDepth, entries, depth, path))
    decreases entries
  {
    if entries != [] {
      var head := EntryTrace(cfg, entries[0], depth, path);
      var rest := EntriesTrace(cfg, entries[1..], depth, path);
      EntriesEmits(cfg, entries[1..], depth, path);
      EmitsAppend(head, rest);
      EntryEmits(cfg, entries[0], depth, path);
      DispatchAppend(cfg, EntryVisible(cfg.maxDepth, entries[0], depth, path),
                     VisibleOf(cfg.maxDepth, entries[1..], depth, path));
    }
  }

  /** The files one entry contributes to a scan that reaches it. */
  function EntryVisible(limit: Limit, entry: Entry, depth: int, path: seq<string>): seq<FileInfo>
  {
    match entry
    case File(name) => [FileInfo(path + [name], name)]
    case Broken(_) => []
    case Dir(name, listing) => if Descends(limit, depth) then Visible(limit, listing, depth + 1, path + [name]) else []
  }

  lemma {:induction false} EntryEmits(cfg: Config, entry: Entry, depth: int, path: seq<string>)
    ensures Emits(EntryTrace(cfg, entry, depth, path)) == Dispatch(cfg, EntryVisible(cfg.maxDepth, entry, depth, path))
    decreases entry
  {
    var head := EntryTrace(cfg, entry, depth, path);
    match entry
    case Broken(_) =>
      assert head == [Check, Fault] && head[1..] == [Fault] && head[1..][1..] == [];
      assert Emits(head[1..]) == [];
    case File(name) =>
      var event := Classify(cfg, FileInfo(path + [name], name));
      assert head == [Check, Emit(event)] && head[1..] == [Emit(event)] && head[1..][1..] == [];
      assert Emits(head[1..]) == [event];
    case Dir(name, listing) =>
      if Descends(cfg.maxDepth, depth) {
        ListingEmits(cfg, listing, depth + 1, path + [name]);
        EmitsAppend([Check], ListingTrace(cfg, listing, depth + 1, path + [name]));
      } else {
        assert Emits(head) == [];
      }
  }

  /**
   * A scan's last step is an event exactly when the last entry it reaches
   * is a file.
   */
  lemma {:induction false} ListingEndsOnEmit(cfg: Config, listing: Listing, depth: int, path: seq<string>)
    ensures EndsOnEmit(ListingTrace(cfg, listing, depth, path)) <==> EndsWithFile(cfg.maxDepth, listing, depth)
    decreases listing
  {
    match listing
    case Unreadable =>
    case Readable(entries) =>
      EntriesEndOnEmit(cfg, entries, depth, path);
      if entries != [] {
        EntryEndsOnEmit(cfg, entries[|entries| - 1], depth, path);
      }
  }

  lemma {:induction false} EntriesEndOnEmit(cfg: Config, entries: seq<Entry>, depth: int, path: seq<string>)
    ensures EndsOnEmit(EntriesTrace(cfg, entries, depth, path))
            <==> entries != [] && EndsOnEmit(EntryTrace(cfg, entries[|entries| - 1], depth, path))
    decreases entries
  {
    if entries != [] {
      var head := EntryTrace(cfg, entries[0], depth, path);
      var tail := EntriesTrace(cfg, entries[1..], depth, path);
      if entries[1..] == [] {
        assert head + tail == head;
      } else {
        EntriesEndOnEmit(cfg, entries[1..], depth, path);
        assert tail[0] == Check;
        assert (head + tail)[|head + tail| - 1] == tail[|tail| - 1];
        assert entries[1..][|entries[1..]| - 1] == entries[|entries| - 1];
      }
    }
  }

  lemma {:induction false} EntryEndsOnEmit(cfg: Config, entry: Entry, depth: int, path: seq<string>)
    ensures EndsOnEmit(EntryTrace(cfg, entry, depth, path)) <==> EntryEndsWithFile(cfg.maxDepth, entry, depth)
    decreases entry
  {
    match entry
    case Broken(_) =>
    case File(_) =>
    case Dir(name, listing) =>
      if Descends(cfg.maxDepth, depth) {
        ListingEndsOnEmit(cfg, listing, depth + 1, path + [name]);
      }
  }

  /** Every file of a tree lies strictly below the tree's path and is named by its last component. */
  ghost predicate Below(path: seq<string>, f: FileInfo)
  {
    && |path| < |f.relativePath|
    && f.relativePath[..|path|] == path
    && f.filename == f.relativePath[|f.relativePath| - 1]
  }

  lemma {:induction false} AllFilesBelow(listing: Listing, path: seq<string>)
    ensures forall f | f in AllFiles(listing, path) :: Below(path, f)
    decreases listing
  {
    if listing.Readable? {
      AllFilesOfBelow(listing.entries, path);
    }
  }

  lemma {:induction false} AllFilesOfBelow(entries: seq<Entry>, path: seq<string>)
    ensures forall f | f in AllFilesOf(entries, path) :: Below(path, f)
    decreases entries
  {
    if entries != [] {
      AllFilesOfBelow(entries[1..], path);
      match entries[0]
      case Broken(_) =>
      case File(name) =>
        assert (path + [name])[..|path|] == path;
      case Dir(name, listing) =>
        AllFilesBelow(listing, path + [name]);
        forall f | f in AllFiles(listing, path + [name]) ensures Below(path, f) {
          assert f.relativePath[..|path|] == f.relativePath[..|path| + 1][..|path|];
        }
    }
  }

  lemma {:induction false} KeepWithinAppend(limit: Limit, depth: int, path: seq<string>, a: seq<FileInfo>, b: seq<FileInfo>)
    ensures KeepWithin(limit, depth, path, a + b) == KeepWithin(limit, depth, path, a) + KeepWithin(limit, depth, path, b)
  {
    if a == [] {
      assert a + b == b;
    } else {
      assert (a + b)[0] == a[0];
      assert (a + b)[1..] == a[1..] + b;
      KeepWithinAppend(limit, depth, path, a[1..], b);
      var keep := if WithinLimit(limit, depth, path, a[0]) then [a[0]] else [];
      assert KeepWithin(limit, depth, path, a + b) == keep + KeepWithin(limit, depth, path, a[1..] + b);
      assert KeepWithin(limit, depth, path, a) == keep + KeepWithin(limit, depth, path, a[1..]);
    }
  }

  lemma {:induction false} KeepWithinMembers(limit: Limit, depth: int, path: seq<string>, files: seq<FileInfo>)
    ensures forall f :: f in KeepWithin(limit, depth, path, files) <==> f in files && WithinLimit(limit, depth, path, f)
  {
    if files != [] {
      KeepWithinMembers(limit, depth, path, files[1..]);
      assert files == [files[0]] + files[1..];
    }
  }

  /** Filtering with two tests that agree on every file gives the same files. */
  lemma {:induction false} KeepWithinAgree(limit: Limit, depth: int, path: seq<string>, depth': int, path': seq<string>, files: seq<FileInfo>)
    requires forall f | f in files :: WithinLimit(limit, depth, path, f) == WithinLimit(limit, depth', path', f)
    ensures KeepWithin(limit, depth, path, files) == KeepWithin(limit, depth', path', files)
  {
    if files != [] {
      KeepWithinAgree(limit, depth, path, depth', path', files[1..]);
    }
  }

  lemma {:induction false} KeepWithinNone(limit: Limit, depth: int, path: seq<string>, files: seq<FileInfo>)
    requires forall f | f in files :: !WithinLimit(limit, depth, path, f)
    ensures KeepWithin(limit, depth, path, files) == []
  {
    if files != [] {
      KeepWithinNone(limit, depth, path, files[1..]);
    }
  }

  /**
   * The files a scan reaches are exactly the files of the tree, in the same
   * order, that lie within the depth limit.
   */
  lemma {:induction false} VisibleWithinLimit(limit: Limit, listing: Listing, depth: int, path: seq<string>)
    ensures Visible(limit, listing, depth, path) == KeepWithin(limit, depth, path, AllFiles(listing, path))
    decreases listing
  {
    if listing.Readable? {
      VisibleOfWithinLimit(limit, listing.entries, depth, path);
    }
  }

  lemma {:induction false} VisibleOfWithinLimit(limit: Limit, entries: seq<Entry>, depth: int, path: seq<string>)
    ensures VisibleOf(limit, entries, depth, path) == KeepWithin(limit, depth, path, AllFilesOf(entries, path))
    decreases entries
  {
    if entries != [] {
      VisibleOfWithinLimit(limit, entries[1..], depth, path);
      var rest := AllFilesOf(entries[1..], path);
      match entries[0]
      case Broken(_) =>
      case File(name) =>
        var info := FileInfo(path + [name], name);
        assert WithinLimit(limit, depth, path, info);
        KeepWithinAppend(limit, depth, path, [info], rest);
      case Dir(name, listing) =>
        var sub := AllFiles(listing, path + [name]);
        KeepWithinAppend(limit, depth, path, sub, rest);
        AllFilesBelow(listing, path + [name]);
        if Descends(limit, depth) {
          VisibleWithinLimit(limit, listing, depth + 1, path + [name]);
          KeepWithinAgree(limit, depth, path, depth + 1, path + [name], sub);
        } else {
          KeepWithinNone(limit, depth, path, sub);
        }
    }
  }
}
