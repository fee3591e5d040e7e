/** `check_complexity` of code-review/scripts/check_style.py: one left-to-right pass
    over a file's lines that recognises a method by its signature line, follows its
    body by counting braces, and scores it by counting the lines that hold a
    decision keyword. */
module Complexity {
  import opened Wrappers
  import opened Text
  import opened Findings

  /** A test on a stripped line whose regular expression is not modelled: the
      signature test (`re.match` of the method-signature pattern) and the keyword
      test (`re.search` of `\b(if|else|case|default|for|while|catch|switch)\b`). */
  type LineTest = string -> bool

  /** The pass's variables `in_method`, `method_start`, `brace_count`, `complexity`. */
  datatype Tracker = Tracker(inMethod: bool, methodStart: nat, braceCount: int, complexity: nat)

  /** The pass's state before the first line. */
  const Outside := Tracker(false, 0, 0, 1)

  /** The tracker and the findings after some lines. */
  datatype Pass = Pass(tracker: Tracker, issues: seq<Finding>)

  /** `s[:n]`. */
  function Take(s: string, n: nat): (r: string)
    ensures |r| <= n && |r| <= |s| && r == s[..|r|]
    ensures |s| <= n ==> r == s
  {
    if |s| <= n then s else s[..n]
  }

  /** The finding for a method whose signature is on line `start` and whose score is
      `score`; the code shown is the stripped signature line cut to 80 characters. */
  function ComplexityFinding(file: string, lines: seq<string>, start: nat, score: nat): Finding
    requires 1 <= start <= |lines|
  {
    Finding(start, file, "MEDIUM", "High Cyclomatic Complexity",
            "Method has complexity " + NatToString(score) + " (recommended: < 10)",
            Take(Strip(lines[start - 1]), 80))
  }

  /** The tracker after line number `lineNo`, whose stripped text is `stripped`, and
      the score of the method that closes on that line, if one does. */
  function Step(isSignature: LineTest, hasKeyword: LineTest, t: Tracker, lineNo: nat, stripped: string)
    : (r: (Tracker, Option<nat>))
    ensures r.1.Some? ==> t.inMethod && !isSignature(stripped) && !r.0.inMethod
  {
    if isSignature(stripped) then
      (if t.inMethod then t else Tracker(true, lineNo, 1, 1), None)
    else if t.inMethod then
      var braces := t.braceCount + Count(stripped, '{') - Count(stripped, '}');
      var score := t.complexity + (if hasKeyword(stripped) then 1 else 0);
      if braces == 0 then (Tracker(false, t.methodStart, braces, 1), Some(score))
      else (Tracker(true, t.methodStart, braces, score), None)
    else (t, None)
  }

  /** The pass after reading line number `n + 1` (index `n`) on top of `p`. */
  function Advance(isSignature: LineTest, hasKeyword: LineTest, file: string, lines: seq<string>, n: nat, p: Pass)
    : (q: Pass)
    requires n < |lines|
    requires p.tracker.inMethod ==> 1 <= p.tracker.methodStart <= n
    ensures q.tracker.inMethod ==> 1 <= q.tracker.methodStart <= n + 1
  {
    var t := p.tracker;
    var (next, closed) := Step(isSignature, hasKeyword, t, n + 1, Strip(lines[n]));
    Pass(next, p.issues
               + if closed.Some? && closed.value > 10
                 then [ComplexityFinding(file, lines, t.methodStart, closed.value)] else [])
  }

  /** The pass over the first `n` lines. */
  function Run(isSignature: LineTest, hasKeyword: LineTest, file: string, lines: seq<string>, n: nat): (p: Pass)
    requires n <= |lines|
    ensures p.tracker.inMethod ==> 1 <= p.tracker.methodStart <= n
  {
    if n == 0 then Pass(Outside, [])
    else Advance(isSignature, hasKeyword, file, lines, n - 1, Run(isSignature, hasKeyword, file, lines, n - 1))
  }

  /** `check_complexity`: the complexity findings of one file, in the order the
      methods close. A file that cannot be read or decoded yields none. */
  method CheckComplexity(isSignature: LineTest, hasKeyword: LineTest, file: string, content: Option<string>)
    returns (issues: seq<Finding>)
    ensures content.None? ==> issues == []
    ensures content.Some? ==>
              var lines := Split(content.value, '\n');
              issues == Run(isSignature, hasKeyword, file, lines, |lines|).issues
  {
    issues := [];
    if content.None? {
      return;
    }
    var lines := Split(content.value, '\n');
    var t := Outside;
    var n := 0;
    while n < |lines|
      invariant n <= |lines|
      invariant Run(isSignature, hasKeyword, file, lines, n) == Pass(t, issues)
    {
      t, issues := ReadLine(isSignature, hasKeyword, file, lines, n, t, issues);
      n := n + 1;
    }
  }

  /** One iteration of the pass: line number `n + 1`, with the method-tracking
      variables `t` and the findings so far. */
  method ReadLine(isSignature: LineTest, hasKeyword: LineTest, file: string, lines: seq<string>, n: nat,
                  t: Tracker, issues: seq<Finding>)
    returns (t': Tracker, issues': seq<Finding>)
    requires n < |lines|
    requires t.inMethod ==> 1 <= t.methodStart <= n
    ensures Pass(t', issues') == Advance(isSignature, hasKeyword, file, lines, n, Pass(t, issues))
  {
    t', issues' := t, issues;
    var stripped := Strip(lines[n]);
    if isSignature(stripped) {
      if !t.inMethod {
        t' := Tracker(true, n + 1, 1, 1);
      }
    } else if t.inMethod {
      t' := t'.(braceCount := t'.braceCount + Count(stripped, '{'));
      t' := t'.(braceCount := t'.braceCount - Count(stripped, '}'));
      if hasKeyword(stripped) {
        t' := t'.(complexity := t'.complexity + 1);
      }
      if t'.braceCount == 0 {
        t' := t'.(inMethod := false);
        if t'.complexity > 10 {
          issues' := issues' + [ComplexityFinding(file, lines, t'.methodStart, t'.complexity)];
        }
        t' := t'.(complexity := 1);
      }
    }
  }

  /** Number of lines with index in [a, b) that are not signature lines and hold a
      decision keyword (each such line counts once, whatever it holds). */
  function KeywordLines(isSignature: LineTest, hasKeyword: LineTest, lines: seq<string>, a: nat, b: nat): nat
    requires b <= |lines|
    decreases b
  {
    if b <= a then 0
    else KeywordLines(isSignature, hasKeyword, lines, a, b - 1)
         + (if !isSignature(Strip(lines[b - 1])) && hasKeyword(Strip(lines[b - 1])) then 1 else 0)
  }

  /** Opening minus closing braces over the lines with index in [a, b) that are not
      signature lines. */
  function NetBraces(isSignature: LineTest, lines: seq<string>, a: nat, b: nat): int
    requires b <= |lines|
    decreases b
  {
    if b <= a then 0
    else NetBraces(isSignature, lines, a, b - 1)
         + (if !isSignature(Strip(lines[b - 1]))
            then Count(Strip(lines[b - 1]), '{') - Count(Strip(lines[b - 1]), '}') else 0)
  }

  /** While a method is open, it began on a signature line, its brace count is 1
      plus the net braces of the body lines read so far and has not been 0 after
      any of them, and its score is 1 plus the number of body lines holding a
      keyword. */
  predicate OpenMethod(isSignature: LineTest, hasKeyword: LineTest, lines: seq<string>, n: nat, t: Tracker)
    requires n <= |lines|
  {
    t.inMethod ==>
      1 <= t.methodStart <= n
      && isSignature(Strip(lines[t.methodStart - 1]))
      && t.braceCount == 1 + NetBraces(isSignature, lines, t.methodStart, n)
      && t.complexity == 1 + KeywordLines(isSignature, hasKeyword, lines, t.methodStart, n)
      && (forall p :: t.methodStart <= p <= n ==> 1 + NetBraces(isSignature, lines, t.methodStart, p) != 0)
  }

  /** Reading one more line keeps `OpenMethod`. */
  lemma StepKeepsOpenMethod(isSignature: LineTest, hasKeyword: LineTest, lines: seq<string>, n: nat, t: Tracker)
    requires n < |lines|
    requires OpenMethod(isSignature, hasKeyword, lines, n, t)
    ensures OpenMethod(isSignature, hasKeyword, lines, n + 1, Step(isSignature, hasKeyword, t, n + 1, Strip(lines[n])).0)
  {
    var s := Strip(lines[n]);
    var t' := Step(isSignature, hasKeyword, t, n + 1, s).0;
    if t'.inMethod {
      var ms := t'.methodStart;
      if t.inMethod {
        assert ms == t.methodStart;
        assert NetBraces(isSignature, lines, ms, n + 1)
               == NetBraces(isSignature, lines, ms, n) + (if !isSignature(s) then Count(s, '{') - Count(s, '}') else 0);
        assert KeywordLines(isSignature, hasKeyword, lines, ms, n + 1)
               == KeywordLines(isSignature, hasKeyword, lines, ms, n) + (if !isSignature(s) && hasKeyword(s) then 1 else 0);
        assert t'.braceCount == 1 + NetBraces(isSignature, lines, ms, n + 1);
      } else {
        assert ms == n + 1;
        assert NetBraces(isSignature, lines, ms, n + 1) == 0;
        assert KeywordLines(isSignature, hasKeyword, lines, ms, n + 1) == 0;
      }
    }
  }

  /** A method stays open with the same `methodStart`, or opens on the line read. */
  lemma StepStart(isSignature: LineTest, hasKeyword: LineTest, t: Tracker, lineNo: nat, stripped: string)
    ensures var t' := Step(isSignature, hasKeyword, t, lineNo, stripped).0;
            t'.inMethod ==> if t.inMethod then t'.methodStart == t.methodStart else t'.methodStart == lineNo
  {
  }

  /** The tracker after line `n` is one step on from the tracker before it. */
  lemma RunTracker(isSignature: LineTest, hasKeyword: LineTest, file: string, lines: seq<string>, n: nat)
    requires 0 < n <= |lines|
    ensures Run(isSignature, hasKeyword, file, lines, n).tracker
            == Step(isSignature, hasKeyword, Run(isSignature, hasKeyword, file, lines, n - 1).tracker, n, Strip(lines[n - 1])).0
  {
  }

  /** An open method's `methodStart` is the line on which it opened: no method was
      open after the line before it. */
  predicate OpenedAfterClosed(isSignature: LineTest, hasKeyword: LineTest, file: string, lines: seq<string>, n: nat)
    requires n <= |lines|
  {
    var t := Run(isSignature, hasKeyword, file, lines, n).tracker;
    t.inMethod ==> !Run(isSignature, hasKeyword, file, lines, t.methodStart - 1).tracker.inMethod
  }

  /** Reading line `n` keeps `OpenedAfterClosed`. */
  lemma OpenedAfterClosedStep(isSignature: LineTest, hasKeyword: LineTest, file: string, lines: seq<string>, n: nat)
    requires 0 < n <= |lines|
    requires OpenedAfterClosed(isSignature, hasKeyword, file, lines, n - 1)
    ensures OpenedAfterClosed(isSignature, hasKeyword, file, lines, n)
  {
    var before := Run(isSignature, hasKeyword, file, lines, n - 1).tracker;
    var t := Run(isSignature, hasKeyword, file, lines, n).tracker;
    RunTracker(isSignature, hasKeyword, file, lines, n);
    StepStart(isSignature, hasKeyword, before, n, Strip(lines[n - 1]));
    if t.inMethod {
      var k: nat := t.methodStart - 1;
      if before.inMethod {
        assert k == before.methodStart - 1;
        assert !Run(isSignature, hasKeyword, file, lines, k).tracker.inMethod;
      } else {
        assert k == n - 1;
        assert !Run(isSignature, hasKeyword, file, lines, k).tracker.inMethod;
      }
    }
  }

  lemma {:induction false} OpenedAt(isSignature: LineTest, hasKeyword: LineTest, file: string, lines: seq<string>, n: nat)
    requires n <= |lines|
    ensures OpenedAfterClosed(isSignature, hasKeyword, file, lines, n)
  {
    if n > 0 {
      OpenedAt(isSignature, hasKeyword, file, lines, n - 1);
      OpenedAfterClosedStep(isSignature, hasKeyword, file, lines, n);
    }
  }

  /** The tracker after the first `n` lines keeps `OpenMethod`. */
  lemma {:induction false} OpenMethodKept(isSignature: LineTest, hasKeyword: LineTest, file: string, lines: seq<string>, n: nat)
    requires n <= |lines|
    ensures OpenMethod(isSignature, hasKeyword, lines, n, Run(isSignature, hasKeyword, file, lines, n).tracker)
  {
    if n > 0 {
      OpenMethodKept(isSignature, hasKeyword, file, lines, n - 1);
      StepKeepsOpenMethod(isSignature, hasKeyword, lines, n - 1, Run(isSignature, hasKeyword, file, lines, n - 1).tracker);
    }
  }

  /** The tracker after the first `n` lines keeps `OpenMethod`, and an open
      method's `methodStart` is the line on which it opened. */
  lemma TrackerMeaning(isSignature: LineTest, hasKeyword: LineTest, file: string, lines: seq<string>, n: nat)
    requires n <= |lines|
    ensures OpenMethod(isSignature, hasKeyword, lines, n, Run(isSignature, hasKeyword, file, lines, n).tracker)
    ensures OpenedAfterClosed(isSignature, hasKeyword, file, lines, n)
  {
    OpenMethodKept(isSignature, hasKeyword, file, lines, n);
    OpenedAt(isSignature, hasKeyword, file, lines, n);
  }

  /** A method closes on line n + 1 exactly when a method is open, line n + 1 is not
      a signature line and it brings the net braces of the body to -1; a finding is
      added exactly when, in addition, the score (1 plus the keyword lines of the
      body) exceeds 10, and it reports that score and the line on which the method
      opened (no method was open before it). */
  lemma ClosingLine(isSignature: LineTest, hasKeyword: LineTest, file: string, lines: seq<string>, n: nat)
    requires n < |lines|
    ensures var t := Run(isSignature, hasKeyword, file, lines, n).tracker;
            var closes := t.inMethod && !isSignature(Strip(lines[n]))
                          && 1 + NetBraces(isSignature, lines, t.methodStart, n + 1) == 0;
            var score := 1 + KeywordLines(isSignature, hasKeyword, lines, t.methodStart, n + 1);
            OpenedAfterClosed(isSignature, hasKeyword, file, lines, n)
            && (Run(isSignature, hasKeyword, file, lines, n + 1).tracker.inMethod <==> (t.inMethod || isSignature(Strip(lines[n]))) && !closes)
            && Run(isSignature, hasKeyword, file, lines, n + 1).issues
               == Run(isSignature, hasKeyword, file, lines, n).issues
                  + if closes && score > 10 then [ComplexityFinding(file, lines, t.methodStart, score)] else []
  {
    var p := Run(isSignature, hasKeyword, file, lines, n);
    var t := p.tracker;
    var s := Strip(lines[n]);
    TrackerMeaning(isSignature, hasKeyword, file, lines, n);
    assert Run(isSignature, hasKeyword, file, lines, n + 1) == Advance(isSignature, hasKeyword, file, lines, n, p);
    if t.inMethod && !isSignature(s) {
      assert NetBraces(isSignature, lines, t.methodStart, n + 1)
             == NetBraces(isSignature, lines, t.methodStart, n) + Count(s, '{') - Count(s, '}');
      assert KeywordLines(isSignature, hasKeyword, lines, t.methodStart, n + 1)
             == KeywordLines(isSignature, hasKeyword, lines, t.methodStart, n) + (if hasKeyword(s) then 1 else 0);
    }
  }

  /** A complexity finding for a method that began on a signature line among the
      first `n` lines. */
  predicate SignatureReport(isSignature: LineTest, lines: seq<string>, n: nat, f: Finding)
    requires n <= |lines|
  {
    1 <= f.line <= n && isSignature(Strip(lines[f.line - 1]))
    && f.severity == "MEDIUM" && f.name == "High Cyclomatic Complexity"
  }

  /** Every complexity finding reports a signature line; their line numbers strictly
      increase; while a method is open every finding so far lies before its
      signature line. */
  predicate OrderedReports(isSignature: LineTest, lines: seq<string>, n: nat, p: Pass)
    requires n <= |lines|
  {
    (p.tracker.inMethod ==> 1 <= p.tracker.methodStart <= n)
    && (forall i :: 0 <= i < |p.issues| ==> SignatureReport(isSignature, lines, n, p.issues[i]))
    && (forall i, j :: 0 <= i < j < |p.issues| ==> p.issues[i].line < p.issues[j].line)
    && (p.tracker.inMethod ==>
          isSignature(Strip(lines[p.tracker.methodStart - 1]))
          && forall i :: 0 <= i < |p.issues| ==> p.issues[i].line < p.tracker.methodStart)
  }

  /** Reading one more line keeps `OrderedReports`. */
  lemma AdvanceKeepsOrder(isSignature: LineTest, hasKeyword: LineTest, file: string, lines: seq<string>, n: nat, p: Pass)
    requires n < |lines|
    requires OrderedReports(isSignature, lines, n, p)
    ensures OrderedReports(isSignature, lines, n + 1, Advance(isSignature, hasKeyword, file, lines, n, p))
  {
    var q := Advance(isSignature, hasKeyword, file, lines, n, p);
    var t := p.tracker;
    var step := Step(isSignature, hasKeyword, t, n + 1, Strip(lines[n]));
    assert q.tracker == step.0;
    forall i | 0 <= i < |p.issues|
      ensures SignatureReport(isSignature, lines, n + 1, p.issues[i])
    {
      assert SignatureReport(isSignature, lines, n, p.issues[i]);
    }
    if step.1.Some? && step.1.value > 10 {
      var f := ComplexityFinding(file, lines, t.methodStart, step.1.value);
      assert q.issues == p.issues + [f];
      assert SignatureReport(isSignature, lines, n + 1, f);
    } else {
      assert q.issues == p.issues;
    }
  }

  lemma {:induction false} ComplexityFindingsOrdered(isSignature: LineTest, hasKeyword: LineTest, file: string, lines: seq<string>, n: nat)
    requires n <= |lines|
    ensures OrderedReports(isSignature, lines, n, Run(isSignature, hasKeyword, file, lines, n))
  {
    if n > 0 {
      ComplexityFindingsOrdered(isSignature, hasKeyword, file, lines, n - 1);
      AdvanceKeepsOrder(isSignature, hasKeyword, file, lines, n - 1, Run(isSignature, hasKeyword, file, lines, n - 1));
    }
  }

  /** Every complexity finding names the file it was computed for. */
  lemma {:induction false} ComplexityFindingsCarryFile(isSignature: LineTest, hasKeyword: LineTest, file: string,
                                                       lines: seq<string>, n: nat)
    requires n <= |lines|
    ensures forall f :: f in Run(isSignature, hasKeyword, file, lines, n).issues ==> f.file == file
  {
    if n > 0 {
      ComplexityFindingsCarryFile(isSignature, hasKeyword, file, lines, n - 1);
    }
  }

  /** A method whose signature line is followed by `body` (lines that are not
      signatures, hold a keyword and balance their braces) and a closing line (no
      signature, no keyword, one more `}` than `{`) scores `|body| + 1`; it is
      reported exactly when that exceeds 10. */
  lemma BalancedMethodScore(isSignature: LineTest, hasKeyword: LineTest, file: string,
                            signature: string, body: seq<string>, close: string)
    requires isSignature(Strip(signature))
    requires forall i :: 0 <= i < |body| ==>
               !isSignature(Strip(body[i])) && hasKeyword(Strip(body[i]))
               && Count(Strip(body[i]), '{') == Count(Strip(body[i]), '}')
    requires !isSignature(Strip(close)) && !hasKeyword(Strip(close))
    requires Count(Strip(close), '}') == Count(Strip(close), '{') + 1
    ensures var lines := [signature] + body + [close];
            Run(isSignature, hasKeyword, file, lines, |lines|)
            == Pass(Tracker(false, 1, 0, 1),
                    if |body| + 1 > 10 then [ComplexityFinding(file, lines, 1, |body| + 1)] else [])
  {
    var lines := [signature] + body + [close];
    BodyKeepsMethodOpen(isSignature, hasKeyword, file, lines, |body|);
  }

  lemma {:induction false} BodyKeepsMethodOpen(isSignature: LineTest, hasKeyword: LineTest, file: string,
                                               lines: seq<string>, j: nat)
    requires 1 + j <= |lines|
    requires isSignature(Strip(lines[0]))
    requires forall i :: 1 <= i <= j ==>
               !isSignature(Strip(lines[i])) && hasKeyword(Strip(lines[i]))
               && Count(Strip(lines[i]), '{') == Count(Strip(lines[i]), '}')
    ensures Run(isSignature, hasKeyword, file, lines, 1 + j) == Pass(Tracker(true, 1, 1, 1 + j), [])
  {
    if j > 0 {
      BodyKeepsMethodOpen(isSignature, hasKeyword, file, lines, j - 1);
    }
  }

  /** Eleven `if` lines in a balanced method: one finding, "complexity 12". */
  lemma ElevenBranches(isSignature: LineTest, hasKeyword: LineTest, file: string,
                       signature: string, body: seq<string>, close: string)
    requires |body| == 11
    requires isSignature(Strip(signature))
    requires forall i :: 0 <= i < |body| ==>
               !isSignature(Strip(body[i])) && hasKeyword(Strip(body[i]))
               && Count(Strip(body[i]), '{') == Count(Strip(body[i]), '}')
    requires !isSignature(Strip(close)) && !hasKeyword(Strip(close))
    requires Count(Strip(close), '}') == Count(Strip(close), '{') + 1
    ensures var lines := [signature] + body + [close];
            var issues := Run(isSignature, hasKeyword, file, lines, |lines|).issues;
            |issues| == 1 && issues[0].line == 1
            && issues[0].description == "Method has complexity 12 (recommended: < 10)"
  {
    var lines := [signature] + body + [close];
    BalancedMethodScore(isSignature, hasKeyword, file, signature, body, close);
    assert Run(isSignature, hasKeyword, file, lines, |lines|).issues == [ComplexityFinding(file, lines, 1, 12)];
    TwelveDescription();
  }

  /** The description of a method scoring 12. */
  lemma TwelveDescription()
    ensures "Method has complexity " + NatToString(12) + " (recommended: < 10)"
            == "Method has complexity 12 (recommended: < 10)"
  {
    assert NatToString(12) == NatToString(1) + "2" == "12";
  }
}
