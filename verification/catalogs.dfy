/** The two rule catalogs: `PATTERNS` of code-review/scripts/check_style.py (16 style
    rules) and `PATTERNS` of code-review/scripts/find_memory_leaks.py (11 leak rules).
    Patterns are kept as the regular-expression text; their meaning is left to the
    `Matcher`. */
module Catalogs {
  import opened Wrappers
  import opened Text
  import opened Findings

  /** The style checker's `PATTERNS`, in table order. */
  const StyleCatalog: seq<Rule> := [
    Rule("Magic Number", @"(return|if|while|for|==|!=|<|>|<=|>=)\s+[\d]+[^\d;]", Some(@"(//|\*)"),
         "MEDIUM", "Magic number without constant definition"),
    Rule("String concatenation in log", LogConcatPattern, None,
         "MEDIUM", "String concatenation in log call - use parameterized logging"),
    Rule("Broad exception catch", @"catch\s*\(\s*Exception\s+\w+\s*\)", None,
         "HIGH", "Catching broad Exception - catch specific exceptions"),
    Rule("Print stack trace", @"\.printStackTrace\(\)", Some("//"),
         "HIGH", "Using printStackTrace() - use logger"),
    Rule("Empty catch block", @"catch\s*\([^)]*\)\s*\{\s*\}", Some("//"),
         "HIGH", "Empty catch block - log or handle exception"),
    Rule("Return null in catch", @"catch\s*\([^)]*\)\s*\{[^}]*return\s+null", Some("//"),
         "MEDIUM", "Returning null in catch block - throw exception or return default"),
    Rule("Hardcoded password", @"(password|pwd|secret)\s*=\s*""[^""]+""", Some("(//|// TODO|FIXME)"),
         "CRITICAL", "Hardcoded password or secret"),
    Rule("System.out.println", @"System\.out\.println\(", Some("(//|// TODO|FIXME)"),
         "MEDIUM", "Using System.out.println - use logger"),
    Rule("System.err.println", @"System\.err\.println\(", Some("(//|// TODO|FIXME)"),
         "MEDIUM", "Using System.err.println - use logger"),
    Rule("String comparison with ==", @"(String\s+\w+)\s*==\s*", Some("(//|// TODO|FIXME)"),
         "MEDIUM", "String comparison with == - use equals()"),
    Rule("Long method (potential)", @"public\s+(?!class|interface|enum)[^{]+\{.*\{.*\{.*\{", None,
         "LOW", "Method with deep nesting - consider refactoring"),
    Rule("TODO without owner", "TODO(?!:)", Some(@"TODO:\s*\w+:"),
         "LOW", "TODO without owner and date"),
    Rule("SQL injection risk (string concat)", @"(SELECT|INSERT|UPDATE|DELETE)\s+[^;]*\s*\+\s*\w+", Some(@"(//|\*)"),
         "CRITICAL", "SQL query with string concatenation - use parameterized queries"),
    Rule("Empty line count", @"\n\s*\n\s*\n", None,
         "LOW", "Multiple empty lines - remove extra blank lines"),
    Rule("Trailing whitespace", @"[ \t]+\n", None,
         "LOW", "Trailing whitespace - remove spaces at end of line"),
    Rule("Star import", @"^import\s+[\w.]+\.(\*|\*)\s*;", None,
         "MEDIUM", "Star import - import specific classes")
  ]

  /** The pattern of "String concatenation in log", as written, assembled from its
      parts: `(log\.(info|debug|warn|error|trace)\s*\(\s*"[^"]*\s*\+\s*`. */
  const LogConcatPattern: string :=
    @"(log\." + @"(info|" + @"debug|" + @"warn|" + @"error|" + @"trace)" + @"\s*\(\s*" + @"""[^""]*" + @"\s*\+\s*"

  /** The same pattern with its first group closed at the end. */
  const IntendedLogConcatPattern: string := LogConcatPattern + ")"

  /** The leak finder's `PATTERNS`, in table order. */
  const LeakCatalog: seq<Rule> := [
    Rule("Unclosed InputStream", @"(InputStream|FileInputStream|BufferedInputStream)\s+\w+\s*=\s*new\s+",
         Some(@"try\s*\(\s*"), "CRITICAL", "InputStream not wrapped in try-with-resources"),
    Rule("Unclosed OutputStream", @"(OutputStream|FileOutputStream|BufferedOutputStream)\s+\w+\s*=\s*new\s+",
         Some(@"try\s*\(\s*"), "CRITICAL", "OutputStream not wrapped in try-with-resources"),
    Rule("Unclosed Reader/Writer", @"(BufferedReader|BufferedWriter|FileReader|FileWriter)\s+\w+\s*=\s*new\s+",
         Some(@"try\s*\(\s*"), "CRITICAL", "Reader/Writer not wrapped in try-with-resources"),
    Rule("Unclosed Connection", @"Connection\s+\w+\s*=\s*[^;]*getConnection\(\)",
         Some(@"try\s*\(\s*Connection"), "CRITICAL", "JDBC Connection not wrapped in try-with-resources"),
    Rule("Unclosed Statement", @"(Statement|PreparedStatement)\s+\w+\s*=\s*[^;]*create",
         Some(@"try\s*\(\s*(Statement|PreparedStatement)"), "CRITICAL", "JDBC Statement not wrapped in try-with-resources"),
    Rule("Unclosed ResultSet", @"ResultSet\s+\w+\s*=\s*[^;]*execute",
         Some(@"try\s*\(\s*ResultSet"), "CRITICAL", "JDBC ResultSet not wrapped in try-with-resources"),
    Rule("Static Collection", @"(private|public|protected)\s+static\s+(Map|List|Set|Collection)\s+",
         Some("(final|MAX_SIZE|MAX_COUNT)"), "HIGH", "Static collection may grow indefinitely"),
    Rule("Unclosed Socket", @"Socket\s+\w+\s*=\s*new\s+",
         Some(@"try\s*\(\s*Socket"), "CRITICAL", "Socket not wrapped in try-with-resources"),
    Rule("ThreadLocal without remove", "ThreadLocal<",
         Some(@"remove\(\)"), "HIGH", "ThreadLocal may not be cleaned up"),
    Rule("ExecutorService without shutdown", @"ExecutorService\s+\w+\s*=\s*",
         Some(@"shutdown\(\)"), "HIGH", "ExecutorService may not have shutdown logic"),
    Rule("String concatenation in loop", @"(for|while)\s*\([^)]*\)\s*\{[^}]*\+\s*=.*\+",
         Some("StringBuilder|StringBuffer"), "MEDIUM", "String concatenation in loop - use StringBuilder")
  ]

  /** The style catalog as evidently intended: the first group of the
      "String concatenation in log" pattern closed at its end. */
  const IntendedStyleCatalog: seq<Rule> := StyleCatalog[1 := StyleCatalog[1].(pattern := IntendedLogConcatPattern)]

  /** `re` rejects `p` when `p` leaves a group open. */
  predicate RejectsUnclosed(compiles: Compiles, p: string)
  {
    GroupBalance(p, false) > 0 ==> !compiles(p)
  }

  /** Groups of the parts of the log pattern, each scanned on its own. */
  lemma LogConcatPartsHead()
    ensures GroupBalance(@"(log\.", false) == 1 && EndsOutside(@"(log\.", false)
    ensures GroupBalance(@"(info|", false) == 1 && EndsOutside(@"(info|", false)
    ensures GroupBalance(@"debug|", false) == 0 && EndsOutside(@"debug|", false)
  {
  }

  lemma LogConcatPartsMiddle()
    ensures GroupBalance(@"warn|", false) == 0 && EndsOutside(@"warn|", false)
    ensures GroupBalance(@"error|", false) == 0 && EndsOutside(@"error|", false)
    ensures GroupBalance(@"trace)", false) == -1 && EndsOutside(@"trace)", false)
  {
  }

  lemma LogConcatPartsTail()
    ensures GroupBalance(@"\s*\(\s*", false) == 0 && EndsOutside(@"\s*\(\s*", false)
    ensures GroupBalance(@"""[^""]*", false) == 0 && EndsOutside(@"""[^""]*", false)
    ensures GroupBalance(@"\s*\+\s*", false) == 0 && EndsOutside(@"\s*\+\s*", false)
    ensures GroupBalance(")", false) == -1
  {
  }

  /** The "String concatenation in log" pattern opens the group `(log...` and never
      closes it; the intended pattern closes every group it opens. */
  lemma LogConcatUnclosed()
    ensures GroupBalance(LogConcatPattern, false) == 1
    ensures GroupBalance(IntendedLogConcatPattern, false) == 0
  {
    LogConcatPartsHead();
    LogConcatPartsMiddle();
    LogConcatPartsTail();
    var p1 := @"(log\." + @"(info|";
    BalanceAppend(@"(log\.", @"(info|", false);
    var p2 := p1 + @"debug|";
    BalanceAppend(p1, @"debug|", false);
    var p3 := p2 + @"warn|";
    BalanceAppend(p2, @"warn|", false);
    var p4 := p3 + @"error|";
    BalanceAppend(p3, @"error|", false);
    var p5 := p4 + @"trace)";
    BalanceAppend(p4, @"trace)", false);
    var p6 := p5 + @"\s*\(\s*";
    BalanceAppend(p5, @"\s*\(\s*", false);
    var p7 := p6 + @"""[^""]*";
    BalanceAppend(p6, @"""[^""]*", false);
    BalanceAppend(p7, @"\s*\+\s*", false);
    BalanceAppend(LogConcatPattern, ")", false);
  }

  /** As written, the style checker's `check_file` reports "Magic Number" findings
      only: the next rule's pattern leaves a group open, so `re` raises on it
      (every file has at least one line) and the scan ends before any later rule. */
  lemma StyleCheckStopsAtLogConcat(search: Matcher, compiles: Compiles, file: string, content: string)
    requires compiles(StyleCatalog[0].pattern) && compiles(StyleCatalog[0].exclusion.value)
    requires RejectsUnclosed(compiles, StyleCatalog[1].pattern)
    ensures FileHits(search, compiles, StyleCatalog, file, Split(content, '\n'))
            == RuleHits(search, StyleCatalog[0], file, Split(content, '\n'), |Split(content, '\n')|)
  {
    var lines := Split(content, '\n');
    LogConcatUnclosed();
    assert Raises(search, compiles, StyleCatalog[1], lines);
    FirstRaiseIs(search, compiles, StyleCatalog, lines, 1);
    assert StyleCatalog[..1] == [StyleCatalog[0]];
    assert CatalogHits(search, [StyleCatalog[0]], file, lines)
           == CatalogHits(search, [], file, lines) + RuleHits(search, StyleCatalog[0], file, lines, |lines|);
  }

  /** Once every regular expression of the intended catalog compiles, its
      `check_file` tries all sixteen rules on every line. */
  lemma IntendedStyleRunsAll(search: Matcher, compiles: Compiles, file: string, lines: seq<string>)
    requires AllCompile(compiles, IntendedStyleCatalog)
    ensures FileHits(search, compiles, IntendedStyleCatalog, file, lines)
            == CatalogHits(search, IntendedStyleCatalog, file, lines)
    ensures |IntendedStyleCatalog| == 16
  {
    AllCompileRunsAll(search, compiles, IntendedStyleCatalog, file, lines);
  }

  /** The matcher finds `p` only in text that contains a newline, as a regular
      expression with a literal `\n` that every match must cover does. */
  ghost predicate NeedsNewline(search: Matcher, p: string)
  {
    forall line :: search(p, line) ==> '\n' in line
  }

  /** A rule whose pattern needs a newline reports nothing on lines split at '\n':
      every finding `check_file` returns carries the name of some other rule. */
  lemma NewlineRuleSilent(search: Matcher, compiles: Compiles, rules: seq<Rule>, k: nat, file: string, content: string)
    requires k < |rules| && NeedsNewline(search, rules[k].pattern)
    ensures forall f :: f in FileHits(search, compiles, rules, file, Split(content, '\n')) ==>
              exists j :: 0 <= j < |rules| && j != k && f.name == rules[j].name
  {
    var lines := Split(content, '\n');
    FileHitsSound(search, compiles, rules, file, lines);
    forall f | f in FileHits(search, compiles, rules, file, lines)
      ensures exists j :: 0 <= j < |rules| && j != k && f.name == rules[j].name
    {
      var j :| 0 <= j < |rules| && f == RuleFinding(rules[j], file, f.line, lines[f.line - 1])
               && Fires(search, rules[j], lines[f.line - 1]);
      assert '\n' !in lines[f.line - 1];
    }
  }

  /** Lines come from splitting at '\n', so the "Empty line count" and "Trailing
      whitespace" rules, whose patterns need a newline, would report nothing even
      if the catalog were tried in full: no finding of the intended catalog
      carries either name. */
  lemma NewlineRulesSilent(search: Matcher, compiles: Compiles, file: string, content: string)
    requires NeedsNewline(search, StyleCatalog[13].pattern) && NeedsNewline(search, StyleCatalog[14].pattern)
    ensures forall f :: f in FileHits(search, compiles, IntendedStyleCatalog, file, Split(content, '\n')) ==>
              f.name != "Empty line count" && f.name != "Trailing whitespace"
  {
    assert IntendedStyleCatalog[13] == StyleCatalog[13] && IntendedStyleCatalog[14] == StyleCatalog[14];
    NewlineRuleSilent(search, compiles, IntendedStyleCatalog, 13, file, content);
    NewlineRuleSilent(search, compiles, IntendedStyleCatalog, 14, file, content);
    StyleNamesDistinct();
  }

  /** The style rules' names are pairwise distinct where it matters here. */
  lemma StyleNamesDistinct()
    ensures IntendedStyleCatalog[13].name == "Empty line count" && IntendedStyleCatalog[14].name == "Trailing whitespace"
    ensures forall j :: 0 <= j < |IntendedStyleCatalog| && j != 13 ==> IntendedStyleCatalog[j].name != "Empty line count"
    ensures forall j :: 0 <= j < |IntendedStyleCatalog| && j != 14 ==> IntendedStyleCatalog[j].name != "Trailing whitespace"
  {
  }

  /** Every rule of the leak catalog carries a non-empty exclusion, so a leak rule
      reports a line exactly when its pattern matches and its exclusion does not. */
  lemma LeakRulesAlwaysExclude(search: Matcher, k: nat, line: string)
    requires k < |LeakCatalog|
    ensures LeakCatalog[k].exclusion.Some? && LeakCatalog[k].exclusion.value != ""
    ensures Fires(search, LeakCatalog[k], line)
            <==> search(LeakCatalog[k].pattern, line) && !search(LeakCatalog[k].exclusion.value, line)
  {
  }

  /** `InputStream in = new FileInputStream(f);` as the only line of a file, for a
      matcher that, like Python's `re`, finds the first leak pattern there and no
      other, and for a `re` that compiles the leak catalog: one CRITICAL
      "Unclosed InputStream" finding on line 1 unless the try-with-resources
      exclusion also matches, and none if it does. */
  lemma UnclosedInputStreamScenario(search: Matcher, compiles: Compiles, file: string)
    requires AllCompile(compiles, LeakCatalog)
    requires search(LeakCatalog[0].pattern, "InputStream in = new FileInputStream(f);")
    requires forall k :: 1 <= k < |LeakCatalog| ==> !search(LeakCatalog[k].pattern, "InputStream in = new FileInputStream(f);")
    ensures !search(@"try\s*\(\s*", "InputStream in = new FileInputStream(f);") ==>
              FileHits(search, compiles, LeakCatalog, file, ["InputStream in = new FileInputStream(f);"])
              == [Finding(1, file, "CRITICAL", "Unclosed InputStream", "InputStream not wrapped in try-with-resources",
                          "InputStream in = new FileInputStream(f);")]
    ensures search(@"try\s*\(\s*", "InputStream in = new FileInputStream(f);") ==>
              FileHits(search, compiles, LeakCatalog, file, ["InputStream in = new FileInputStream(f);"]) == []
  {
    var line := "InputStream in = new FileInputStream(f);";
    var rule := LeakCatalog[0];
    assert rule == Rule("Unclosed InputStream", rule.pattern, Some(@"try\s*\(\s*"),
                        "CRITICAL", "InputStream not wrapped in try-with-resources");
    StripKeepsTrimmed(line);
    AllCompileRunsAll(search, compiles, LeakCatalog, file, [line]);
    OnlyRuleFires(search, LeakCatalog, 0, file, line);
  }

  /** The same declaration opened in a try-with-resources header,
      `try (InputStream in = new FileInputStream(f)) {`, as the only line of a file,
      for a matcher under which the InputStream pattern and its exclusion both
      match it and no other leak pattern does: no finding, whether or not the
      leak catalog compiles. */
  lemma TryWithResourcesScenario(search: Matcher, compiles: Compiles, file: string)
    requires search(LeakCatalog[0].pattern, "try (InputStream in = new FileInputStream(f)) {")
    requires search(@"try\s*\(\s*", "try (InputStream in = new FileInputStream(f)) {")
    requires forall k :: 1 <= k < |LeakCatalog| ==>
               !search(LeakCatalog[k].pattern, "try (InputStream in = new FileInputStream(f)) {")
    ensures FileHits(search, compiles, LeakCatalog, file, ["try (InputStream in = new FileInputStream(f)) {"]) == []
  {
    var lines := ["try (InputStream in = new FileInputStream(f)) {"];
    assert LeakCatalog[0].exclusion == Some(@"try\s*\(\s*");
    OnlyRuleFires(search, LeakCatalog, 0, file, lines[0]);
    FileHitsPrefix(search, compiles, LeakCatalog, file, lines);
  }

  /** As written, a one-line file that "Magic Number" does not match gets no style
      finding at all. */
  lemma AsWrittenOneLine(search: Matcher, compiles: Compiles, file: string, line: string)
    requires compiles(StyleCatalog[0].pattern) && compiles(StyleCatalog[0].exclusion.value)
    requires RejectsUnclosed(compiles, StyleCatalog[1].pattern)
    requires '\n' !in line && !search(StyleCatalog[0].pattern, line)
    ensures FileHits(search, compiles, StyleCatalog, file, [line]) == []
  {
    SplitWithoutSeparator(line, '\n');
    StyleCheckStopsAtLogConcat(search, compiles, file, line);
    SilentRule(search, StyleCatalog[0], file, [line], 1);
  }

  /** With the intended catalog, a one-line file on which only rule `k`'s pattern
      matches gets that rule's report, unless its exclusion matches too. */
  lemma IntendedOnlyRule(search: Matcher, compiles: Compiles, k: nat, file: string, line: string)
    requires AllCompile(compiles, IntendedStyleCatalog)
    requires k < |IntendedStyleCatalog| && search(IntendedStyleCatalog[k].pattern, line)
    requires forall j :: 0 <= j < |IntendedStyleCatalog| && j != k ==> !search(IntendedStyleCatalog[j].pattern, line)
    ensures FileHits(search, compiles, IntendedStyleCatalog, file, [line])
            == if Excluded(search, IntendedStyleCatalog[k], line) then []
               else [RuleFinding(IntendedStyleCatalog[k], file, 1, line)]
  {
    IntendedStyleRunsAll(search, compiles, file, [line]);
    OnlyRuleFires(search, IntendedStyleCatalog, k, file, line);
  }

  /** `catch (Exception e) {` as the only line of a file, for a matcher that finds
      only the "Broad exception catch" pattern there. As written the scan stops at
      the unclosed log pattern and the line goes unreported; with the intended
      catalog it gets one HIGH finding. */
  lemma BroadCatchScenario(search: Matcher, compiles: Compiles, file: string)
    requires compiles(StyleCatalog[0].pattern) && compiles(StyleCatalog[0].exclusion.value)
    requires RejectsUnclosed(compiles, StyleCatalog[1].pattern)
    requires AllCompile(compiles, IntendedStyleCatalog)
    requires search(StyleCatalog[2].pattern, "catch (Exception e) {")
    requires forall k :: 0 <= k < |IntendedStyleCatalog| && k != 2 ==>
               !search(IntendedStyleCatalog[k].pattern, "catch (Exception e) {")
    ensures FileHits(search, compiles, StyleCatalog, file, ["catch (Exception e) {"]) == []
    ensures FileHits(search, compiles, IntendedStyleCatalog, file, ["catch (Exception e) {"])
            == [Finding(1, file, "HIGH", "Broad exception catch", "Catching broad Exception - catch specific exceptions",
                        "catch (Exception e) {")]
  {
    assert IntendedStyleCatalog[0] == StyleCatalog[0];
    AsWrittenOneLine(search, compiles, file, "catch (Exception e) {");
    BroadCatchIntended(search, compiles, file);
  }

  lemma BroadCatchIntended(search: Matcher, compiles: Compiles, file: string)
    requires AllCompile(compiles, IntendedStyleCatalog)
    requires search(StyleCatalog[2].pattern, "catch (Exception e) {")
    requires forall k :: 0 <= k < |IntendedStyleCatalog| && k != 2 ==>
               !search(IntendedStyleCatalog[k].pattern, "catch (Exception e) {")
    ensures FileHits(search, compiles, IntendedStyleCatalog, file, ["catch (Exception e) {"])
            == [Finding(1, file, "HIGH", "Broad exception catch", "Catching broad Exception - catch specific exceptions",
                        "catch (Exception e) {")]
  {
    var line := "catch (Exception e) {";
    var rule := StyleCatalog[2];
    assert IntendedStyleCatalog[2] == rule;
    assert rule == Rule("Broad exception catch", rule.pattern, None,
                        "HIGH", "Catching broad Exception - catch specific exceptions");
    StripKeepsTrimmed(line);
    IntendedOnlyRule(search, compiles, 2, file, line);
  }

  /** `password = "s3cr3t";` as the only line of a file, and the same line
      commented out with `// `, for a matcher that finds only the "Hardcoded
      password" pattern there and its exclusion exactly on the commented line. As
      written neither line is reported; with the intended catalog the first gets
      one CRITICAL finding and the commented one none. */
  lemma HardcodedPasswordScenario(search: Matcher, compiles: Compiles, file: string, line: string)
    requires line == "password = \"s3cr3t\";" || line == "// password = \"s3cr3t\";"
    requires compiles(StyleCatalog[0].pattern) && compiles(StyleCatalog[0].exclusion.value)
    requires RejectsUnclosed(compiles, StyleCatalog[1].pattern)
    requires AllCompile(compiles, IntendedStyleCatalog)
    requires search(StyleCatalog[6].pattern, line)
    requires search(StyleCatalog[6].exclusion.value, line) <==> line[0] == '/'
    requires forall k :: 0 <= k < |IntendedStyleCatalog| && k != 6 ==> !search(IntendedStyleCatalog[k].pattern, line)
    ensures FileHits(search, compiles, StyleCatalog, file, [line]) == []
    ensures line[0] != '/' ==>
              FileHits(search, compiles, IntendedStyleCatalog, file, [line])
              == [Finding(1, file, "CRITICAL", "Hardcoded password", "Hardcoded password or secret", line)]
    ensures line[0] == '/' ==> FileHits(search, compiles, IntendedStyleCatalog, file, [line]) == []
  {
    assert IntendedStyleCatalog[0] == StyleCatalog[0];
    AsWrittenOneLine(search, compiles, file, line);
    HardcodedPasswordIntended(search, compiles, file, line);
  }

  lemma HardcodedPasswordIntended(search: Matcher, compiles: Compiles, file: string, line: string)
    requires line == "password = \"s3cr3t\";" || line == "// password = \"s3cr3t\";"
    requires AllCompile(compiles, IntendedStyleCatalog)
    requires search(StyleCatalog[6].pattern, line)
    requires search(StyleCatalog[6].exclusion.value, line) <==> line[0] == '/'
    requires forall k :: 0 <= k < |IntendedStyleCatalog| && k != 6 ==> !search(IntendedStyleCatalog[k].pattern, line)
    ensures line[0] != '/' ==>
              FileHits(search, compiles, IntendedStyleCatalog, file, [line])
              == [Finding(1, file, "CRITICAL", "Hardcoded password", "Hardcoded password or secret", line)]
    ensures line[0] == '/' ==> FileHits(search, compiles, IntendedStyleCatalog, file, [line]) == []
  {
    var rule := StyleCatalog[6];
    assert IntendedStyleCatalog[6] == rule;
    assert rule == Rule("Hardcoded password", rule.pattern, rule.exclusion, "CRITICAL", "Hardcoded password or secret");
    assert rule.exclusion.Some? && rule.exclusion.value != "";
    StripKeepsTrimmed(line);
    IntendedOnlyRule(search, compiles, 6, file, line);
  }

  /** A catalog none of whose patterns matches any line reports nothing. */
  lemma {:induction false} NothingFires(search: Matcher, rules: seq<Rule>, file: string, lines: seq<string>)
    requires forall k, m :: 0 <= k < |rules| && 0 <= m < |lines| ==> !search(rules[k].pattern, lines[m])
    ensures CatalogHits(search, rules, file, lines) == []
  {
    if rules != [] {
      var init, last := rules[..|rules| - 1], rules[|rules| - 1];
      NothingFires(search, init, file, lines);
      SilentRule(search, last, file, lines, |lines|);
      assert CatalogHits(search, rules, file, lines)
             == CatalogHits(search, init, file, lines) + RuleHits(search, last, file, lines, |lines|);
    }
  }

  /** A one-line file on which only the pattern of rule `k` matches gets that
      rule's report, unless its exclusion matches too. */
  lemma OnlyRuleFires(search: Matcher, rules: seq<Rule>, k: nat, file: string, line: string)
    requires k < |rules|
    requires search(rules[k].pattern, line)
    requires forall j :: 0 <= j < |rules| && j != k ==> !search(rules[j].pattern, line)
    ensures CatalogHits(search, rules, file, [line])
            == if Excluded(search, rules[k], line) then [] else [RuleFinding(rules[k], file, 1, line)]
  {
    var lines := [line];
    var before, after := rules[..k], rules[k + 1..];
    assert rules == before + ([rules[k]] + after);
    RuleMajor(search, before, [rules[k]] + after, file, lines);
    RuleMajor(search, [rules[k]], after, file, lines);
    forall j, m | 0 <= j < |before| && 0 <= m < |lines|
      ensures !search(before[j].pattern, lines[m])
    {
      assert before[j] == rules[j];
    }
    NothingFires(search, before, file, lines);
    forall j, m | 0 <= j < |after| && 0 <= m < |lines|
      ensures !search(after[j].pattern, lines[m])
    {
      assert after[j] == rules[k + 1 + j];
    }
    NothingFires(search, after, file, lines);
    assert CatalogHits(search, [rules[k]], file, lines) == CatalogHits(search, [], file, lines) + RuleHits(search, rules[k], file, lines, 1);
    assert RuleHits(search, rules[k], file, lines, 1)
           == RuleHits(search, rules[k], file, lines, 0) + if Fires(search, rules[k], line) then [RuleFinding(rules[k], file, 1, line)] else [];
  }
}
