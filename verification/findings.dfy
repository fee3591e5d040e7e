/** The rule-table line matcher shared by the style checker
    (code-review/scripts/check_style.py) and the memory-leak finder
    (code-review/scripts/find_memory_leaks.py): both `check_file` functions
    take the rules of a catalog one after the other and try each on every line
    of a file, until a rule raises because a regular expression it needs does
    not compile; the exception is caught and the findings gathered until then
    are returned. */
module Findings {
  import opened Wrappers
  import opened Text

  /** `re.search(pattern, line)`: whether the regular expression `pattern` matches
      somewhere in `line`. Regular-expression semantics are not modelled; every
      statement below holds for any such matcher. */
  type Matcher = (string, string) -> bool

  /** Whether Python's `re` compiles a regular expression. `re.search` compiles its
      pattern when it is first used and raises `re.error` when it cannot. */
  type Compiles = string -> bool

  /** Net count of group parentheses in a regular expression: `(` opens, `)`
      closes; a character after `\` and everything inside a `[...]` class
      (`inClass`) is literal (a `]` right after the opening `[` is not treated
      specially; no catalog pattern has one). A pattern whose count is positive
      has a group that is never closed. */
  function GroupBalance(p: string, inClass: bool): int
  {
    if p == [] then 0
    else if p[0] == '\\' then (if |p| == 1 then 0 else GroupBalance(p[2..], inClass))
    else if inClass then (if p[0] == ']' then GroupBalance(p[1..], false) else GroupBalance(p[1..], true))
    else if p[0] == '[' then GroupBalance(p[1..], true)
    else if p[0] == '(' then 1 + GroupBalance(p[1..], false)
    else if p[0] == ')' then GroupBalance(p[1..], false) - 1
    else GroupBalance(p[1..], false)
  }

  /** Scanning `p` ends outside any class and not inside an escape, so what follows
      is scanned afresh. */
  predicate EndsOutside(p: string, inClass: bool)
  {
    if p == [] then !inClass
    else if p[0] == '\\' then |p| >= 2 && EndsOutside(p[2..], inClass)
    else if inClass then (if p[0] == ']' then EndsOutside(p[1..], false) else EndsOutside(p[1..], true))
    else if p[0] == '[' then EndsOutside(p[1..], true)
    else EndsOutside(p[1..], false)
  }

  /** The groups of a concatenation are those of its parts, when the first part
      ends cleanly. */
  lemma {:induction false} BalanceAppend(a: string, b: string, inClass: bool)
    requires EndsOutside(a, inClass)
    ensures GroupBalance(a + b, inClass) == GroupBalance(a, inClass) + GroupBalance(b, false)
    ensures EndsOutside(a + b, inClass) == EndsOutside(b, false)
    decreases |a|
  {
    if a != [] {
      var ab := a + b;
      assert ab[0] == a[0];
      if a[0] == '\\' {
        assert ab[2..] == a[2..] + b;
        BalanceAppend(a[2..], b, inClass);
      } else {
        assert ab[1..] == a[1..] + b;
        BalanceAppend(a[1..], b, if inClass then a[0] != ']' else a[0] == '[');
      }
    } else {
      assert a + b == b;
    }
  }

  /** One catalog entry: `name`, `pattern`, `exclusion` (`None` when absent),
      `severity` and `description`. */
  datatype Rule = Rule(name: string, pattern: string, exclusion: Option<string>,
                       severity: string, description: string)

  /** One reported issue: 1-based `line`, `file`, `severity`, rule `name`,
      `description` and the stripped source line as `code`. */
  datatype Finding = Finding(line: nat, file: string, severity: string, name: string,
                             description: string, code: string)

  /** The exclusion is present, non-empty (so truthy) and matches the line. */
  predicate Excluded(search: Matcher, rule: Rule, line: string)
  {
    rule.exclusion.Some? && rule.exclusion.value != "" && search(rule.exclusion.value, line)
  }

  /** The rule reports the line: its pattern matches and its exclusion does not. */
  predicate Fires(search: Matcher, rule: Rule, line: string)
  {
    search(rule.pattern, line) && !Excluded(search, rule, line)
  }

  /** The finding a rule produces for line number `lineNo` with text `line`. */
  function RuleFinding(rule: Rule, file: string, lineNo: nat, line: string): Finding
  {
    Finding(lineNo, file, rule.severity, rule.name, rule.description, Strip(line))
  }

  /** Findings of one rule over the first `n` lines, in line order. */
  function RuleHits(search: Matcher, rule: Rule, file: string, lines: seq<string>, n: nat): seq<Finding>
    requires n <= |lines|
  {
    if n == 0 then []
    else
      RuleHits(search, rule, file, lines, n - 1)
      + (if Fires(search, rule, lines[n - 1]) then [RuleFinding(rule, file, n, lines[n - 1])] else [])
  }

  /** Each of `hits` is `rule`'s report of a line among the first `n` on which it
      fires, and the line numbers strictly increase. */
  predicate ReportsOf(search: Matcher, rule: Rule, file: string, lines: seq<string>, n: nat, hits: seq<Finding>)
    requires n <= |lines|
  {
    (forall i :: 0 <= i < |hits| ==>
       1 <= hits[i].line <= n
       && hits[i] == RuleFinding(rule, file, hits[i].line, lines[hits[i].line - 1])
       && Fires(search, rule, lines[hits[i].line - 1]))
    && (forall i, j :: 0 <= i < j < |hits| ==> hits[i].line < hits[j].line)
  }

  /** Every finding of one rule over the first `n` lines is that rule's report of a
      line on which it fires, and the line numbers strictly increase from 1. */
  lemma {:induction false} RuleHitsSound(search: Matcher, rule: Rule, file: string, lines: seq<string>, n: nat)
    requires n <= |lines|
    ensures ReportsOf(search, rule, file, lines, n, RuleHits(search, rule, file, lines, n))
  {
    if n > 0 {
      var before := RuleHits(search, rule, file, lines, n - 1);
      RuleHitsSound(search, rule, file, lines, n - 1);
      var extra := if Fires(search, rule, lines[n - 1]) then [RuleFinding(rule, file, n, lines[n - 1])] else [];
      var hits := before + extra;
      assert hits == RuleHits(search, rule, file, lines, n);
      forall i | 0 <= i < |hits|
        ensures 1 <= hits[i].line <= n
        ensures hits[i] == RuleFinding(rule, file, hits[i].line, lines[hits[i].line - 1])
        ensures Fires(search, rule, lines[hits[i].line - 1])
      {
        if i < |before| {
          assert hits[i] == before[i];
        } else {
          assert hits[i] == extra[0];
        }
      }
      forall i, j | 0 <= i < j < |hits|
        ensures hits[i].line < hits[j].line
      {
        if j < |before| {
          assert hits[i] == before[i] && hits[j] == before[j];
        } else {
          assert hits[i] == before[i] && hits[j] == extra[0];
        }
      }
    }
  }

  /** Every line among the first `n` on which the rule fires is reported. */
  lemma {:induction false} RuleHitsComplete(search: Matcher, rule: Rule, file: string, lines: seq<string>, n: nat)
    requires n <= |lines|
    ensures forall m :: 0 <= m < n && Fires(search, rule, lines[m]) ==>
              RuleFinding(rule, file, m + 1, lines[m]) in RuleHits(search, rule, file, lines, n)
  {
    if n > 0 {
      RuleHitsComplete(search, rule, file, lines, n - 1);
    }
  }

  /** Findings of a whole catalog over `lines`, rule after rule. */
  function CatalogHits(search: Matcher, rules: seq<Rule>, file: string, lines: seq<string>): seq<Finding>
  {
    if rules == [] then []
    else CatalogHits(search, rules[..|rules| - 1], file, lines)
         + RuleHits(search, rules[|rules| - 1], file, lines, |lines|)
  }

  /** Trying `rule` on every line of `lines` raises: its pattern does not compile
      (it is tried on the first line already), or its exclusion is consulted and
      does not compile; the exclusion is first consulted on the first line the
      pattern matches. */
  predicate Raises(search: Matcher, compiles: Compiles, rule: Rule, lines: seq<string>)
  {
    |lines| > 0
    && (!compiles(rule.pattern)
        || (rule.exclusion.Some? && rule.exclusion.value != "" && !compiles(rule.exclusion.value)
            && exists m :: 0 <= m < |lines| && search(rule.pattern, lines[m])))
  }

  /** The index of the first rule from `k` on that raises, or `|rules|` when none
      does: `check_file` completes the rules before it and stops there. */
  function FirstRaise(search: Matcher, compiles: Compiles, rules: seq<Rule>, lines: seq<string>, k: nat): (c: nat)
    requires k <= |rules|
    ensures k <= c <= |rules|
    ensures forall j :: k <= j < c ==> !Raises(search, compiles, rules[j], lines)
    ensures c < |rules| ==> Raises(search, compiles, rules[c], lines)
    decreases |rules| - k
  {
    if k == |rules| || Raises(search, compiles, rules[k], lines) then k
    else FirstRaise(search, compiles, rules, lines, k + 1)
  }

  /** The findings `check_file` returns for a readable file: those of the rules
      before the first one that raises. That rule adds nothing, since it raises
      before its first report. */
  function FileHits(search: Matcher, compiles: Compiles, rules: seq<Rule>, file: string, lines: seq<string>): seq<Finding>
  {
    CatalogHits(search, rules[..FirstRaise(search, compiles, rules, lines, 0)], file, lines)
  }

  /** The first raising rule is determined by which rules raise. */
  lemma FirstRaiseIs(search: Matcher, compiles: Compiles, rules: seq<Rule>, lines: seq<string>, c: nat)
    requires c <= |rules|
    requires forall j :: 0 <= j < c ==> !Raises(search, compiles, rules[j], lines)
    requires c < |rules| ==> Raises(search, compiles, rules[c], lines)
    ensures FirstRaise(search, compiles, rules, lines, 0) == c
  {
  }

  /** Every regular expression `check_file` may try, each pattern and each present,
      non-empty exclusion, compiles. */
  predicate AllCompile(compiles: Compiles, rules: seq<Rule>)
  {
    forall k :: 0 <= k < |rules| ==>
      compiles(rules[k].pattern)
      && (rules[k].exclusion.Some? && rules[k].exclusion.value != "" ==> compiles(rules[k].exclusion.value))
  }

  /** When every regular expression of the catalog compiles, `check_file` tries
      every rule on every line. */
  lemma AllCompileRunsAll(search: Matcher, compiles: Compiles, rules: seq<Rule>, file: string, lines: seq<string>)
    requires AllCompile(compiles, rules)
    ensures FileHits(search, compiles, rules, file, lines) == CatalogHits(search, rules, file, lines)
  {
    FirstRaiseIs(search, compiles, rules, lines, |rules|);
    assert rules[..|rules|] == rules;
  }

  /** The findings `check_file` returns are a prefix of those of the whole
      catalog: the rules it does not complete only add findings after them. */
  lemma FileHitsPrefix(search: Matcher, compiles: Compiles, rules: seq<Rule>, file: string, lines: seq<string>)
    ensures FileHits(search, compiles, rules, file, lines)
            + CatalogHits(search, rules[FirstRaise(search, compiles, rules, lines, 0)..], file, lines)
            == CatalogHits(search, rules, file, lines)
  {
    var c := FirstRaise(search, compiles, rules, lines, 0);
    RuleMajor(search, rules[..c], rules[c..], file, lines);
    assert rules[..c] + rules[c..] == rules;
  }

  /** A rule whose pattern matches none of the first `n` lines reports nothing there. */
  lemma {:induction false} SilentRule(search: Matcher, rule: Rule, file: string, lines: seq<string>, n: nat)
    requires n <= |lines|
    requires forall m :: 0 <= m < n ==> !search(rule.pattern, lines[m])
    ensures RuleHits(search, rule, file, lines, n) == []
  {
    if n > 0 {
      SilentRule(search, rule, file, lines, n - 1);
    }
  }

  /** `check_file`: reads the file, splits it at '\n' and tries each rule on each
      line; a regular expression that does not compile raises, which ends the
      scan, and the findings gathered so far are returned. A file that cannot be
      read or decoded (`content == None`) yields no findings. */
  method CheckFile(search: Matcher, compiles: Compiles, rules: seq<Rule>, file: string, content: Option<string>)
    returns (issues: seq<Finding>)
    ensures content.None? ==> issues == []
    ensures content.Some? ==> issues == FileHits(search, compiles, rules, file, Split(content.value, '\n'))
  {
    issues := [];
    if content.None? {
      return;
    }
    var lines := Split(content.value, '\n');
    var k := 0;
    while k < |rules|
      invariant k <= |rules|
      invariant forall j :: 0 <= j < k ==> !Raises(search, compiles, rules[j], lines)
      invariant issues == CatalogHits(search, rules[..k], file, lines)
    {
      var rule := rules[k];
      var n := 0;
      while n < |lines|
        invariant n <= |lines|
        invariant n > 0 ==> compiles(rule.pattern)
        invariant rule.exclusion.Some? && rule.exclusion.value != "" && !compiles(rule.exclusion.value) ==>
                    forall m :: 0 <= m < n ==> !search(rule.pattern, lines[m])
        invariant issues == CatalogHits(search, rules[..k], file, lines) + RuleHits(search, rule, file, lines, n)
      {
        var line := lines[n];
        if !compiles(rule.pattern) {
          // `re.error` from the pattern, caught by the `except` clause
          FirstRaiseIs(search, compiles, rules, lines, k);
          return;
        }
        if search(rule.pattern, line) {
          var exclusion := rule.exclusion;
          if exclusion.Some? && exclusion.value != "" && !compiles(exclusion.value) {
            // `re.error` from the exclusion, caught by the `except` clause
            SilentRule(search, rule, file, lines, n);
            FirstRaiseIs(search, compiles, rules, lines, k);
            return;
          }
          if !(exclusion.Some? && exclusion.value != "" && search(exclusion.value, line)) {
            issues := issues + [Finding(n + 1, file, rule.severity, rule.name, rule.description, Strip(line))];
          }
        }
        n := n + 1;
      }
      assert rules[..k + 1][..k] == rules[..k];
      k := k + 1;
    }
    FirstRaiseIs(search, compiles, rules, lines, |rules|);
    assert rules[..k] == rules;
  }

  /** Rule-major order: the findings of a catalog are those of its first rules
      followed by those of the remaining rules. */
  lemma {:induction false} RuleMajor(search: Matcher, first: seq<Rule>, rest: seq<Rule>, file: string, lines: seq<string>)
    ensures CatalogHits(search, first + rest, file, lines)
            == CatalogHits(search, first, file, lines) + CatalogHits(search, rest, file, lines)
  {
    if rest == [] {
      assert first + rest == first;
    } else {
      var all := first + rest;
      assert all[..|all| - 1] == first + rest[..|rest| - 1];
      assert all[|all| - 1] == rest[|rest| - 1];
      RuleMajor(search, first, rest[..|rest| - 1], file, lines);
    }
  }

  /** A rule reports a line exactly when its pattern matches it and its exclusion
      is absent, empty, or does not match that same line: the exclusion always wins. */
  lemma {:induction false} ExclusionWins(search: Matcher, rules: seq<Rule>, file: string, lines: seq<string>, k: nat, m: nat)
    requires k < |rules| && 1 <= m <= |lines|
    ensures RuleFinding(rules[k], file, m, lines[m - 1]) in RuleHits(search, rules[k], file, lines, |lines|)
            <==> search(rules[k].pattern, lines[m - 1])
                 && (rules[k].exclusion.None? || rules[k].exclusion.value == ""
                     || !search(rules[k].exclusion.value, lines[m - 1]))
  {
    var hits := RuleHits(search, rules[k], file, lines, |lines|);
    RuleHitsSound(search, rules[k], file, lines, |lines|);
    RuleHitsComplete(search, rules[k], file, lines, |lines|);
    if RuleFinding(rules[k], file, m, lines[m - 1]) in hits {
      var i :| 0 <= i < |hits| && hits[i] == RuleFinding(rules[k], file, m, lines[m - 1]);
      assert hits[i].line == m;
    }
  }

  /** `f` is the report, by one of `rules`, of a line on which that rule fires. */
  predicate ReportedByCatalog(search: Matcher, rules: seq<Rule>, file: string, lines: seq<string>, f: Finding)
  {
    1 <= f.line <= |lines|
    && exists k :: 0 <= k < |rules| && f == RuleFinding(rules[k], file, f.line, lines[f.line - 1])
                   && Fires(search, rules[k], lines[f.line - 1])
  }

  /** Every finding of a catalog is the report of one of its rules on a line where
      that rule fires. */
  lemma {:induction false} CatalogHitsSound(search: Matcher, rules: seq<Rule>, file: string, lines: seq<string>)
    ensures forall f :: f in CatalogHits(search, rules, file, lines) ==>
              ReportedByCatalog(search, rules, file, lines, f)
  {
    if rules != [] {
      var init := rules[..|rules| - 1];
      var last := rules[|rules| - 1];
      CatalogHitsSound(search, init, file, lines);
      var hits := RuleHits(search, last, file, lines, |lines|);
      RuleHitsSound(search, last, file, lines, |lines|);
      assert CatalogHits(search, rules, file, lines) == CatalogHits(search, init, file, lines) + hits;
      forall f | f in CatalogHits(search, rules, file, lines)
        ensures ReportedByCatalog(search, rules, file, lines, f)
      {
        if f in CatalogHits(search, init, file, lines) {
          assert ReportedByCatalog(search, init, file, lines, f);
          var k :| 0 <= k < |init| && f == RuleFinding(init[k], file, f.line, lines[f.line - 1])
                   && Fires(search, init[k], lines[f.line - 1]);
          assert rules[k] == init[k];
        } else {
          var i :| 0 <= i < |hits| && hits[i] == f;
          assert 1 <= f.line <= |lines|;
          assert f == RuleFinding(rules[|rules| - 1], file, f.line, lines[f.line - 1]);
        }
      }
    }
  }

  /** Every line on which a rule of the catalog fires is reported by that rule. */
  lemma {:induction false} CatalogHitsComplete(search: Matcher, rules: seq<Rule>, file: string, lines: seq<string>)
    ensures forall k, m :: 0 <= k < |rules| && 0 <= m < |lines| && Fires(search, rules[k], lines[m]) ==>
              RuleFinding(rules[k], file, m + 1, lines[m]) in CatalogHits(search, rules, file, lines)
  {
    if rules != [] {
      var init := rules[..|rules| - 1];
      var last := rules[|rules| - 1];
      CatalogHitsComplete(search, init, file, lines);
      RuleHitsComplete(search, last, file, lines, |lines|);
      forall k, m | 0 <= k < |rules| && 0 <= m < |lines| && Fires(search, rules[k], lines[m])
        ensures RuleFinding(rules[k], file, m + 1, lines[m]) in CatalogHits(search, rules, file, lines)
      {
        if k < |init| {
          assert rules[k] == init[k];
        }
      }
    }
  }

  /** Every finding `check_file` returns is the report of one of the catalog's
      rules on a line where that rule fires. */
  lemma FileHitsSound(search: Matcher, compiles: Compiles, rules: seq<Rule>, file: string, lines: seq<string>)
    ensures forall f :: f in FileHits(search, compiles, rules, file, lines) ==>
              ReportedByCatalog(search, rules, file, lines, f)
  {
    var done := rules[..FirstRaise(search, compiles, rules, lines, 0)];
    CatalogHitsSound(search, done, file, lines);
    forall f | f in FileHits(search, compiles, rules, file, lines)
      ensures ReportedByCatalog(search, rules, file, lines, f)
    {
      var k :| 0 <= k < |done| && f == RuleFinding(done[k], file, f.line, lines[f.line - 1])
               && Fires(search, done[k], lines[f.line - 1]);
      assert done[k] == rules[k];
    }
  }

  /** Every line on which a rule before the first raising one fires is reported by
      `check_file`. */
  lemma FileHitsComplete(search: Matcher, compiles: Compiles, rules: seq<Rule>, file: string, lines: seq<string>)
    ensures forall k, m :: 0 <= k < FirstRaise(search, compiles, rules, lines, 0) && 0 <= m < |lines|
                           && Fires(search, rules[k], lines[m]) ==>
              RuleFinding(rules[k], file, m + 1, lines[m]) in FileHits(search, compiles, rules, file, lines)
  {
    var done := rules[..FirstRaise(search, compiles, rules, lines, 0)];
    CatalogHitsComplete(search, done, file, lines);
    forall k, m | 0 <= k < |done| && 0 <= m < |lines| && Fires(search, rules[k], lines[m])
      ensures RuleFinding(rules[k], file, m + 1, lines[m]) in FileHits(search, compiles, rules, file, lines)
    {
      assert done[k] == rules[k];
    }
  }
}
