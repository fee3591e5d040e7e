/** The drivers of the two scanners: `scan_directory` and the target dispatch of
    `main` in code-review/scripts/check_style.py and
    code-review/scripts/find_memory_leaks.py. The directory walk is not modelled:
    a directory is given as the list of its `*.java` files in the order the walk
    yields them. The file-level functions take the rule table as `rules`; the two
    `main` methods pass `StyleCatalog` and `LeakCatalog`, as the scripts use their
    module-level `PATTERNS`. */
module Scan {
  import opened Wrappers
  import opened Text
  import opened Findings
  import opened Complexity
  import opened Catalogs

  /** A scanned file: its path and its text, `None` when it cannot be read or
      decoded as UTF-8. */
  datatype SourceFile = SourceFile(path: string, content: Option<string>)

  /** The command-line argument: an existing regular file of any name (`main` checks
      only `os.path.isfile`, not the `.java` suffix), an existing directory (its
      `*.java` files), or neither. */
  datatype Target = File(file: SourceFile) | Directory(javaFiles: seq<SourceFile>) | Invalid

  /** The style findings of one file: its rule findings, then its complexity
      findings. */
  function StyleOfFile(search: Matcher, compiles: Compiles, rules: seq<Rule>, isSignature: LineTest, hasKeyword: LineTest, f: SourceFile): seq<Finding>
  {
    if f.content.None? then []
    else
      var lines := Split(f.content.value, '\n');
      FileHits(search, compiles, rules, f.path, lines) + Run(isSignature, hasKeyword, f.path, lines, |lines|).issues
  }

  /** `check_file` followed by `check_complexity` on one file. */
  method CheckStyle(search: Matcher, compiles: Compiles, rules: seq<Rule>, isSignature: LineTest, hasKeyword: LineTest, f: SourceFile)
    returns (issues: seq<Finding>)
    ensures issues == StyleOfFile(search, compiles, rules, isSignature, hasKeyword, f)
  {
    var styleIssues := CheckFile(search, compiles, rules, f.path, f.content);
    var complexityIssues := CheckComplexity(isSignature, hasKeyword, f.path, f.content);
    issues := styleIssues + complexityIssues;
  }

  function StyleOfFiles(search: Matcher, compiles: Compiles, rules: seq<Rule>, isSignature: LineTest, hasKeyword: LineTest, files: seq<SourceFile>): seq<Finding>
  {
    if files == [] then []
    else StyleOfFiles(search, compiles, rules, isSignature, hasKeyword, files[..|files| - 1])
         + StyleOfFile(search, compiles, rules, isSignature, hasKeyword, files[|files| - 1])
  }

  /** The leak findings of one file. */
  function LeakOfFile(search: Matcher, compiles: Compiles, rules: seq<Rule>, f: SourceFile): seq<Finding>
  {
    if f.content.None? then [] else FileHits(search, compiles, rules, f.path, Split(f.content.value, '\n'))
  }

  function LeakOfFiles(search: Matcher, compiles: Compiles, rules: seq<Rule>, files: seq<SourceFile>): seq<Finding>
  {
    if files == [] then [] else LeakOfFiles(search, compiles, rules, files[..|files| - 1]) + LeakOfFile(search, compiles, rules, files[|files| - 1])
  }

  /** `scan_directory` of the style checker: file by file, rule findings then
      complexity findings. */
  method ScanStyle(search: Matcher, compiles: Compiles, rules: seq<Rule>, isSignature: LineTest, hasKeyword: LineTest, files: seq<SourceFile>)
    returns (issues: seq<Finding>)
    ensures issues == StyleOfFiles(search, compiles, rules, isSignature, hasKeyword, files)
  {
    issues := [];
    for i := 0 to |files|
      invariant issues == StyleOfFiles(search, compiles, rules, isSignature, hasKeyword, files[..i])
    {
      var fileIssues := CheckStyle(search, compiles, rules, isSignature, hasKeyword, files[i]);
      issues := issues + fileIssues;
      assert files[..i + 1][..i] == files[..i];
    }
    assert files[..|files|] == files;
  }

  /** `scan_directory` of the leak finder: the leak catalog, file by file. */
  method ScanLeaks(search: Matcher, compiles: Compiles, rules: seq<Rule>, files: seq<SourceFile>) returns (issues: seq<Finding>)
    ensures issues == LeakOfFiles(search, compiles, rules, files)
  {
    issues := [];
    for i := 0 to |files|
      invariant issues == LeakOfFiles(search, compiles, rules, files[..i])
    {
      var fileIssues := CheckFile(search, compiles, rules, files[i].path, files[i].content);
      issues := issues + fileIssues;
      assert files[..i + 1][..i] == files[..i];
    }
    assert files[..|files|] == files;
  }

  /** `main` of the style checker, up to `print_issues`: a file is scanned on its
      own, a directory file by file; anything else is an error (`None`, exit 1). */
  method StyleMain(search: Matcher, compiles: Compiles, isSignature: LineTest, hasKeyword: LineTest, target: Target)
    returns (r: Option<seq<Finding>>)
    ensures target.Invalid? <==> r.None?
    ensures target.File? ==> r == Some(StyleOfFile(search, compiles, StyleCatalog, isSignature, hasKeyword, target.file))
    ensures target.Directory? ==> r == Some(StyleOfFiles(search, compiles, StyleCatalog, isSignature, hasKeyword, target.javaFiles))
  {
    match target
    case File(f) =>
      var issues := CheckStyle(search, compiles, StyleCatalog, isSignature, hasKeyword, f);
      r := Some(issues);
    case Directory(files) =>
      var issues := ScanStyle(search, compiles, StyleCatalog, isSignature, hasKeyword, files);
      r := Some(issues);
    case Invalid =>
      r := None;
  }

  /** `main` of the leak finder, up to `print_issues`. */
  method LeakMain(search: Matcher, compiles: Compiles, target: Target) returns (r: Option<seq<Finding>>)
    ensures target.Invalid? <==> r.None?
    ensures target.File? ==> r == Some(LeakOfFile(search, compiles, LeakCatalog, target.file))
    ensures target.Directory? ==> r == Some(LeakOfFiles(search, compiles, LeakCatalog, target.javaFiles))
  {
    match target
    case File(f) =>
      var issues := CheckFile(search, compiles, LeakCatalog, f.path, f.content);
      r := Some(issues);
    case Directory(files) =>
      var issues := ScanLeaks(search, compiles, LeakCatalog, files);
      r := Some(issues);
    case Invalid =>
      r := None;
  }

  /** As written, the style findings of a readable file are its "Magic Number"
      findings followed by its complexity findings: the scan of the catalog ends
      at the log pattern that leaves a group open. */
  lemma StyleOfFileAsWritten(search: Matcher, compiles: Compiles, isSignature: LineTest, hasKeyword: LineTest, f: SourceFile)
    requires compiles(StyleCatalog[0].pattern) && compiles(StyleCatalog[0].exclusion.value)
    requires RejectsUnclosed(compiles, StyleCatalog[1].pattern)
    ensures f.content.None? ==> StyleOfFile(search, compiles, StyleCatalog, isSignature, hasKeyword, f) == []
    ensures f.content.Some? ==>
              var lines := Split(f.content.value, '\n');
              StyleOfFile(search, compiles, StyleCatalog, isSignature, hasKeyword, f)
              == RuleHits(search, StyleCatalog[0], f.path, lines, |lines|) + Run(isSignature, hasKeyword, f.path, lines, |lines|).issues
  {
    if f.content.Some? {
      StyleCheckStopsAtLogConcat(search, compiles, f.path, f.content.value);
    }
  }

  /** As written, every finding the style checker prints is a "Magic Number" or a
      "High Cyclomatic Complexity" finding, whatever the files hold. */
  lemma {:induction false} StyleOfFilesAsWritten(search: Matcher, compiles: Compiles, isSignature: LineTest, hasKeyword: LineTest,
                                                 files: seq<SourceFile>)
    requires compiles(StyleCatalog[0].pattern) && compiles(StyleCatalog[0].exclusion.value)
    requires RejectsUnclosed(compiles, StyleCatalog[1].pattern)
    ensures forall f :: f in StyleOfFiles(search, compiles, StyleCatalog, isSignature, hasKeyword, files) ==>
              f.name == "Magic Number" || f.name == "High Cyclomatic Complexity"
  {
    if files != [] {
      var init, last := files[..|files| - 1], files[|files| - 1];
      StyleOfFilesAsWritten(search, compiles, isSignature, hasKeyword, init);
      StyleOfFileAsWritten(search, compiles, isSignature, hasKeyword, last);
      if last.content.Some? {
        var lines := Split(last.content.value, '\n');
        var magic := RuleHits(search, StyleCatalog[0], last.path, lines, |lines|);
        var complexity := Run(isSignature, hasKeyword, last.path, lines, |lines|).issues;
        RuleHitsSound(search, StyleCatalog[0], last.path, lines, |lines|);
        ComplexityFindingsOrdered(isSignature, hasKeyword, last.path, lines, |lines|);
        assert StyleCatalog[0].name == "Magic Number";
        forall f: Finding | f in magic + complexity
          ensures f.name == "Magic Number" || f.name == "High Cyclomatic Complexity"
        {
          if f in magic {
            var i :| 0 <= i < |magic| && magic[i] == f;
          } else {
            var j :| 0 <= j < |complexity| && complexity[j] == f;
          }
        }
      }
    }
  }

  /** Scanning one more file appends its findings. */
  lemma StyleOfFilesSnoc(search: Matcher, compiles: Compiles, rules: seq<Rule>, isSignature: LineTest, hasKeyword: LineTest,
                         files: seq<SourceFile>, f: SourceFile)
    ensures StyleOfFiles(search, compiles, rules, isSignature, hasKeyword, files + [f])
            == StyleOfFiles(search, compiles, rules, isSignature, hasKeyword, files) + StyleOfFile(search, compiles, rules, isSignature, hasKeyword, f)
  {
    var all := files + [f];
    assert all[..|all| - 1] == files;
  }

  /** Scanning two lists of files one after the other gives the findings of
      scanning them together. */
  lemma {:induction false} StyleOfFilesAppend(search: Matcher, compiles: Compiles, rules: seq<Rule>, isSignature: LineTest, hasKeyword: LineTest,
                                              a: seq<SourceFile>, b: seq<SourceFile>)
    ensures StyleOfFiles(search, compiles, rules, isSignature, hasKeyword, a + b)
            == StyleOfFiles(search, compiles, rules, isSignature, hasKeyword, a) + StyleOfFiles(search, compiles, rules, isSignature, hasKeyword, b)
  {
    if b == [] {
      assert a + b == a;
    } else {
      var b', x := b[..|b| - 1], b[|b| - 1];
      assert a + b == (a + b') + [x] && b == b' + [x];
      StyleOfFilesAppend(search, compiles, rules, isSignature, hasKeyword, a, b');
      StyleOfFilesSnoc(search, compiles, rules, isSignature, hasKeyword, a + b', x);
      StyleOfFilesSnoc(search, compiles, rules, isSignature, hasKeyword, b', x);
      AppendAssoc(StyleOfFiles(search, compiles, rules, isSignature, hasKeyword, a), StyleOfFiles(search, compiles, rules, isSignature, hasKeyword, b'),
                  StyleOfFile(search, compiles, rules, isSignature, hasKeyword, x));
    }
  }

  /** Scanning one more file appends its findings. */
  lemma LeakOfFilesSnoc(search: Matcher, compiles: Compiles, rules: seq<Rule>, files: seq<SourceFile>, f: SourceFile)
    ensures LeakOfFiles(search, compiles, rules, files + [f]) == LeakOfFiles(search, compiles, rules, files) + LeakOfFile(search, compiles, rules, f)
  {
    var all := files + [f];
    assert all[..|all| - 1] == files;
  }

  lemma {:induction false} LeakOfFilesAppend(search: Matcher, compiles: Compiles, rules: seq<Rule>, a: seq<SourceFile>, b: seq<SourceFile>)
    ensures LeakOfFiles(search, compiles, rules, a + b) == LeakOfFiles(search, compiles, rules, a) + LeakOfFiles(search, compiles, rules, b)
  {
    if b == [] {
      assert a + b == a;
    } else {
      var b', x := b[..|b| - 1], b[|b| - 1];
      assert a + b == (a + b') + [x] && b == b' + [x];
      LeakOfFilesAppend(search, compiles, rules, a, b');
      LeakOfFilesSnoc(search, compiles, rules, a + b', x);
      LeakOfFilesSnoc(search, compiles, rules, b', x);
      AppendAssoc(LeakOfFiles(search, compiles, rules, a), LeakOfFiles(search, compiles, rules, b'), LeakOfFile(search, compiles, rules, x));
    }
  }

  lemma AppendAssoc(x: seq<Finding>, y: seq<Finding>, z: seq<Finding>)
    ensures (x + y) + z == x + (y + z)
  {
  }

  /** `f` is a finding about one of `files`: a readable file whose path it carries,
      reported there by a rule of `rules`. */
  predicate FromCatalog(search: Matcher, rules: seq<Rule>, files: seq<SourceFile>, f: Finding)
  {
    exists i :: 0 <= i < |files| && files[i].content.Some? && f.file == files[i].path
                && ReportedByCatalog(search, rules, files[i].path, Split(files[i].content.value, '\n'), f)
  }

  /** Every leak finding is a leak-catalog rule's report of a line of a readable
      file, so an unreadable file contributes nothing. */
  lemma {:induction false} LeakFindingsSound(search: Matcher, compiles: Compiles, rules: seq<Rule>, files: seq<SourceFile>)
    ensures forall f :: f in LeakOfFiles(search, compiles, rules, files) ==> FromCatalog(search, rules, files, f)
  {
    if files != [] {
      var init := files[..|files| - 1];
      var last := files[|files| - 1];
      LeakFindingsSound(search, compiles, rules, init);
      forall f | f in LeakOfFiles(search, compiles, rules, files)
        ensures FromCatalog(search, rules, files, f)
      {
        if f in LeakOfFiles(search, compiles, rules, init) {
          var i :| 0 <= i < |init| && init[i].content.Some? && f.file == init[i].path
                   && ReportedByCatalog(search, rules, init[i].path, Split(init[i].content.value, '\n'), f);
          assert files[i] == init[i];
        } else {
          FileHitsSound(search, compiles, rules, last.path, Split(last.content.value, '\n'));
          assert files[|files| - 1] == last;
        }
      }
    }
  }

  /** Every style finding is either a style-catalog rule's report of a line of a
      readable file, or a MEDIUM "High Cyclomatic Complexity" finding on a
      signature line of a readable file. */
  predicate StyleFinding(search: Matcher, rules: seq<Rule>, isSignature: LineTest, files: seq<SourceFile>, f: Finding)
  {
    FromCatalog(search, rules, files, f)
    || exists i :: 0 <= i < |files| && files[i].content.Some? && f.file == files[i].path
                   && SignatureReport(isSignature, Split(files[i].content.value, '\n'),
                                      |Split(files[i].content.value, '\n')|, f)
  }

  lemma {:induction false} StyleFindingsSound(search: Matcher, compiles: Compiles, rules: seq<Rule>, isSignature: LineTest, hasKeyword: LineTest,
                                              files: seq<SourceFile>)
    ensures forall f :: f in StyleOfFiles(search, compiles, rules, isSignature, hasKeyword, files) ==>
              StyleFinding(search, rules, isSignature, files, f)
  {
    if files != [] {
      var init := files[..|files| - 1];
      var last := files[|files| - 1];
      StyleFindingsSound(search, compiles, rules, isSignature, hasKeyword, init);
      forall f | f in StyleOfFiles(search, compiles, rules, isSignature, hasKeyword, files)
        ensures StyleFinding(search, rules, isSignature, files, f)
      {
        if f in StyleOfFiles(search, compiles, rules, isSignature, hasKeyword, init) {
          if FromCatalog(search, rules, init, f) {
            var i :| 0 <= i < |init| && init[i].content.Some? && f.file == init[i].path
                     && ReportedByCatalog(search, rules, init[i].path, Split(init[i].content.value, '\n'), f);
            assert files[i] == init[i];
          } else {
            var i :| 0 <= i < |init| && init[i].content.Some? && f.file == init[i].path
                     && SignatureReport(isSignature, Split(init[i].content.value, '\n'),
                                        |Split(init[i].content.value, '\n')|, f);
            assert files[i] == init[i];
          }
        } else {
          var lines := Split(last.content.value, '\n');
          assert files[|files| - 1] == last;
          if f in FileHits(search, compiles, rules, last.path, lines) {
            FileHitsSound(search, compiles, rules, last.path, lines);
          } else {
            var complexity := Run(isSignature, hasKeyword, last.path, lines, |lines|).issues;
            ComplexityFindingsOrdered(isSignature, hasKeyword, last.path, lines, |lines|);
            ComplexityFindingsCarryFile(isSignature, hasKeyword, last.path, lines, |lines|);
            var j :| 0 <= j < |complexity| && complexity[j] == f;
          }
        }
      }
    }
  }
}
