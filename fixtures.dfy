/**
 * The example of four files and three rules, worked through a whole walk:
 * a glob compiler that knows only the three patterns involved stands in for
 * the glob library.
 */
module Fixtures {
  import opened Wrappers
  import opened Rules
  import opened FileTree
  import opened Traversal
  import opened WalkProperties

  /** Matches a name starting with `a`, with `b`, or with `c` or `d`. */
  function ExampleGlobs(glob: string): Matcher
  {
    if glob == "a*" then f => |f| > 0 && f[0] == 'a'
    else if glob == "b*" then f => |f| > 0 && f[0] == 'b'
    else if glob == "[cd]*" then f => |f| > 0 && (f[0] == 'c' || f[0] == 'd')
    else f => false
  }

  function Info(name: string): FileInfo { FileInfo([name], name) }

  function ExamplePatterns(): seq<Pattern>
  {
    [Pattern(Exclude, "a*"), Pattern(Include, "[cd]*"), Pattern(Exclude, "b*")]
  }

  function ExampleConfig(): Config
  {
    Config(Unbounded, CompilePatterns(ExamplePatterns(), ExampleGlobs), DefaultInclude(ExamplePatterns()))
  }

  function ExampleRoot(): Listing
  {
    Readable([File("a.txt"), File("b.txt"), File("c.txt"), File("d.txt")])
  }

  lemma ExampleClassified()
    ensures Dispatch(ExampleConfig(), [Info("a.txt"), Info("b.txt"), Info("c.txt"), Info("d.txt")])
            == [Excluded(Info("a.txt")), Excluded(Info("b.txt")), Included(Info("c.txt")), Included(Info("d.txt"))]
  {
  }

  lemma ExampleVisible()
    ensures Sound(Unbounded, ExampleRoot(), 0)
    ensures Visible(Unbounded, ExampleRoot(), 0, []) == [Info("a.txt"), Info("b.txt"), Info("c.txt"), Info("d.txt")]
  {
    var entries := ExampleRoot().entries;
    var top: seq<string> := [];
    assert top + ["a.txt"] == ["a.txt"] && top + ["b.txt"] == ["b.txt"];
    assert top + ["c.txt"] == ["c.txt"] && top + ["d.txt"] == ["d.txt"];
    assert SoundOf(Unbounded, entries[4..], 0) && VisibleOf(Unbounded, entries[4..], 0, []) == [];
    assert SoundOf(Unbounded, entries[3..], 0) && VisibleOf(Unbounded, entries[3..], 0, []) == [Info("d.txt")];
    assert SoundOf(Unbounded, entries[2..], 0) && VisibleOf(Unbounded, entries[2..], 0, []) == [Info("c.txt"), Info("d.txt")];
    assert SoundOf(Unbounded, entries[1..], 0) && VisibleOf(Unbounded, entries[1..], 0, []) == [Info("b.txt"), Info("c.txt"), Info("d.txt")];
  }

  lemma FourFilesThreeRules()
    ensures WalkRun(ExampleConfig(), ExampleRoot(), None)
            == Run([Excluded(Info("a.txt")), Excluded(Info("b.txt")), Included(Info("c.txt")), Included(Info("d.txt")), End], None)
  {
    ExampleVisible();
    ExampleClassified();
    WalkCompletion(ExampleConfig(), ExampleRoot(), None);
  }

  /** The default options: no patterns, so every file is included. */
  function NoRulesConfig(): Config
  {
    Config(Unbounded, CompilePatterns([], ExampleGlobs), DefaultInclude([]))
  }

  /**
   * Aborting from the listener of the fourth and last file does not reject
   * the walk: no entry follows that file, so no check point sees the signal.
   */
  lemma AbortedAfterLastFile()
    ensures WalkRun(NoRulesConfig(), ExampleRoot(), Some(AbortAfter(4)))
            == Run([Included(Info("a.txt")), Included(Info("b.txt")), Included(Info("c.txt")), Included(Info("d.txt")), End], None)
  {
    ExampleVisible();
    WalkAbortedAtLastFile(NoRulesConfig(), ExampleRoot());
  }

  /**
   * With an empty directory listed after the last file, the same abort is
   * seen at that directory's check point: the walk is rejected and `end` is
   * never dispatched.
   */
  lemma AbortedBeforeTrailingDirectory()
    ensures WalkRun(NoRulesConfig(), Readable([File("a.txt"), Dir("d", Readable([]))]), Some(AbortAfter(1)))
            == Run([Included(Info("a.txt"))], Some(OperationAborted))
  {
    var root := Readable([File("a.txt"), Dir("d", Readable([]))]);
    var entries := root.entries;
    var top: seq<string> := [];
    assert top + ["a.txt"] == ["a.txt"];
    assert SoundOf(Unbounded, entries[2..], 0) && VisibleOf(Unbounded, entries[2..], 0, []) == [];
    assert Sound(Unbounded, Readable([]), 1) && Visible(Unbounded, Readable([]), 1, top + ["d"]) == [];
    assert SoundOf(Unbounded, entries[1..], 0) && VisibleOf(Unbounded, entries[1..], 0, []) == [];
    assert !EndsWithFile(Unbounded, root, 0);
    WalkAbortedAtLastFile(NoRulesConfig(), root);
  }
}
