/**
 * Pattern compilation and rule evaluation of the synchronizer
 * (src/FileSynchronizer.ts: the `patterns` and `defaultInclude` fields set by
 * the constructor, and `shouldInclude`).
 *
 * The glob library is not modelled: a compiled pattern is an opaque predicate
 * on file names, and the compiler is a parameter.
 */
module Rules {

  datatype PatternType = Include | Exclude

  /** A rule as the caller supplies it: a kind and an uncompiled glob. */
  datatype Pattern = Pattern(kind: PatternType, glob: string)

  /** A compiled glob: answers whether a file name matches. */
  type Matcher = string -> bool

  /** A rule as the synchronizer keeps it: the kind and the compiled glob. */
  datatype Rule = Rule(kind: PatternType, matcher: Matcher)

  /** Compiles every pattern, keeping the supplied order and kinds. */
  function CompilePatterns(patterns: seq<Pattern>, compile: string -> Matcher): (rules: seq<Rule>)
    ensures |rules| == |patterns|
    ensures forall i | 0 <= i < |patterns| ::
              rules[i].kind == patterns[i].kind && rules[i].matcher == compile(patterns[i].glob)
  {
    if patterns == [] then []
    else [Rule(patterns[0].kind, compile(patterns[0].glob))] + CompilePatterns(patterns[1..], compile)
  }

  /** Files that no rule matches are included exactly when no rule is an include rule. */
  function DefaultInclude(patterns: seq<Pattern>): (r: bool)
    ensures r <==> forall i | 0 <= i < |patterns| :: patterns[i].kind != Include
  {
    if patterns == [] then true
    else patterns[0].kind != Include && DefaultInclude(patterns[1..])
  }

  /** Rule `i` is the first rule whose matcher accepts `filename`. */
  ghost predicate FirstMatchAt(rules: seq<Rule>, filename: string, i: int)
  {
    && 0 <= i < |rules|
    && rules[i].matcher(filename)
    && forall j | 0 <= j < i :: !rules[j].matcher(filename)
  }

  /** No rule accepts `filename`. */
  ghost predicate NoMatch(rules: seq<Rule>, filename: string)
  {
    forall j | 0 <= j < |rules| :: !rules[j].matcher(filename)
  }

  /**
   * First match wins: the kind of the first rule whose matcher accepts the
   * bare file name decides; when none does, `defaultInclude` decides.
   */
  function ShouldInclude(rules: seq<Rule>, defaultInclude: bool, filename: string): (r: bool)
    ensures forall i | FirstMatchAt(rules, filename, i) :: r == (rules[i].kind == Include)
    ensures NoMatch(rules, filename) ==> r == defaultInclude
  {
    if rules == [] then defaultInclude
    else if rules[0].matcher(filename) then rules[0].kind == Include
    else
      assert forall i | FirstMatchAt(rules, filename, i) :: i > 0 && FirstMatchAt(rules[1..], filename, i - 1);
      ShouldInclude(rules[1..], defaultInclude, filename)
  }

  /** Every file name has either a first matching rule or none at all. */
  lemma {:induction false} FirstMatchOrNone(rules: seq<Rule>, filename: string)
    ensures (exists i :: FirstMatchAt(rules, filename, i)) || NoMatch(rules, filename)
  {
    if rules != [] && !rules[0].matcher(filename) {
      FirstMatchOrNone(rules[1..], filename);
      if i :| FirstMatchAt(rules[1..], filename, i) {
        assert FirstMatchAt(rules, filename, i + 1);
      }
    } else if rules != [] {
      assert FirstMatchAt(rules, filename, 0);
    }
  }

  /** Rules after a matching rule do not affect the outcome. */
  lemma {:induction false} LaterRulesIrrelevant(rules: seq<Rule>, more: seq<Rule>, defaultInclude: bool, filename: string)
    requires exists i | 0 <= i < |rules| :: rules[i].matcher(filename)
    ensures ShouldInclude(rules + more, defaultInclude, filename) == ShouldInclude(rules, defaultInclude, filename)
  {
    if !rules[0].matcher(filename) {
      assert (rules + more)[1..] == rules[1..] + more;
      var i :| 0 <= i < |rules| && rules[i].matcher(filename);
      assert rules[1..][i - 1] == rules[i];
      LaterRulesIrrelevant(rules[1..], more, defaultInclude, filename);
    }
  }

  /** Rules that do not match a file name can be dropped from the front. */
  lemma {:induction false} UnmatchedPrefixIrrelevant(skipped: seq<Rule>, rules: seq<Rule>, defaultInclude: bool, filename: string)
    requires NoMatch(skipped, filename)
    ensures ShouldInclude(skipped + rules, defaultInclude, filename) == ShouldInclude(rules, defaultInclude, filename)
  {
    if skipped != [] {
      var all := skipped + rules;
      assert all[0] == skipped[0] && !all[0].matcher(filename);
      assert all[1..] == skipped[1..] + rules;
      assert NoMatch(skipped[1..], filename) by {
        forall j | 0 <= j < |skipped| - 1 ensures !skipped[1..][j].matcher(filename) {
          assert skipped[1..][j] == skipped[j + 1];
        }
      }
      UnmatchedPrefixIrrelevant(skipped[1..], rules, defaultInclude, filename);
    } else {
      assert skipped + rules == rules;
    }
  }

  /**
   * Order matters: when two rules of different kinds both match a file name,
   * swapping them flips the outcome, whatever follows.
   */
  lemma OrderDecides(a: Rule, b: Rule, rest: seq<Rule>, defaultInclude: bool, filename: string)
    requires a.matcher(filename) && b.matcher(filename) && a.kind != b.kind
    ensures ShouldInclude([a, b] + rest, defaultInclude, filename) == (a.kind == Include)
    ensures ShouldInclude([b, a] + rest, defaultInclude, filename) == (b.kind == Include)
    ensures ShouldInclude([a, b] + rest, defaultInclude, filename) != ShouldInclude([b, a] + rest, defaultInclude, filename)
  {
  }

  /** With no rules at all every file is included. */
  lemma NoRulesIncludeEverything(compile: string -> Matcher, filename: string)
    ensures ShouldInclude(CompilePatterns([], compile), DefaultInclude([]), filename)
  {
  }

  /** With only exclude rules, a file is included exactly when no rule matches it. */
  lemma {:induction false} ExcludeOnly(patterns: seq<Pattern>, compile: string -> Matcher, filename: string)
    requires forall i | 0 <= i < |patterns| :: patterns[i].kind == Exclude
    ensures ShouldInclude(CompilePatterns(patterns, compile), DefaultInclude(patterns), filename)
            <==> NoMatch(CompilePatterns(patterns, compile), filename)
  {
    var rules := CompilePatterns(patterns, compile);
    var defaultInclude := DefaultInclude(patterns);
    assert defaultInclude;
    FirstMatchOrNone(rules, filename);
    if i :| FirstMatchAt(rules, filename, i) {
      assert rules[i].kind == Exclude && rules[i].matcher(filename);
      assert !ShouldInclude(rules, defaultInclude, filename);
    }
  }

  /** With only include rules, a file is included exactly when some rule matches it. */
  lemma {:induction false} IncludeOnly(patterns: seq<Pattern>, compile: string -> Matcher, filename: string)
    requires patterns != []
    requires forall i | 0 <= i < |patterns| :: patterns[i].kind == Include
    ensures ShouldInclude(CompilePatterns(patterns, compile), DefaultInclude(patterns), filename)
            <==> !NoMatch(CompilePatterns(patterns, compile), filename)
  {
    var rules := CompilePatterns(patterns, compile);
    FirstMatchOrNone(rules, filename);
  }

  /** As soon as one include rule is present, unmatched files are excluded. */
  lemma UnmatchedExcludedOnceIncludeRuleExists(patterns: seq<Pattern>, compile: string -> Matcher, filename: string)
    requires exists i | 0 <= i < |patterns| :: patterns[i].kind == Include
    requires NoMatch(CompilePatterns(patterns, compile), filename)
    ensures !ShouldInclude(CompilePatterns(patterns, compile), DefaultInclude(patterns), filename)
  {
  }
}
