/** The ordering and tallying part of `print_issues`, identical in
    code-review/scripts/check_style.py and code-review/scripts/find_memory_leaks.py:
    the issues are sorted in place by severity rank with a stable sort, then
    counted per severity. */
module Report {
  import opened Findings

  /** `severity_order`. */
  const SeverityOrder: map<string, nat> := map["CRITICAL" := 0, "HIGH" := 1, "MEDIUM" := 2, "LOW" := 3]

  /** `severity_order.get(severity, 4)`. */
  function Rank(severity: string): nat
  {
    if severity in SeverityOrder then SeverityOrder[severity] else 4
  }

  lemma RankTable(severity: string)
    ensures Rank(severity) <= 4
    ensures Rank(severity) == 4 <==> severity !in ["CRITICAL", "HIGH", "MEDIUM", "LOW"]
    ensures Rank("CRITICAL") < Rank("HIGH") < Rank("MEDIUM") < Rank("LOW") < Rank("UNKNOWN")
  {
  }

  predicate RankSorted(s: seq<Finding>)
  {
    forall i, j :: 0 <= i < j < |s| ==> Rank(s[i].severity) <= Rank(s[j].severity)
  }

  /** The findings of `s` whose severity has rank `r`, in their order in `s`. */
  function OfRank(s: seq<Finding>, r: nat): seq<Finding>
  {
    if s == [] then []
    else OfRank(s[..|s| - 1], r) + if Rank(s[|s| - 1].severity) == r then [s[|s| - 1]] else []
  }

  /** `f` placed after every element of `t` whose rank does not exceed its own,
      scanning from the end. */
  function Insert(t: seq<Finding>, f: Finding): seq<Finding>
  {
    if t == [] || Rank(t[|t| - 1].severity) <= Rank(f.severity) then t + [f]
    else Insert(t[..|t| - 1], f) + [t[|t| - 1]]
  }

  /** The order `issues.sort(key=rank)` leaves: each element inserted in turn. */
  function SortSpec(s: seq<Finding>): seq<Finding>
  {
    if s == [] then [] else Insert(SortSpec(s[..|s| - 1]), s[|s| - 1])
  }

  lemma {:induction false} InsertPermutes(t: seq<Finding>, f: Finding)
    ensures multiset(Insert(t, f)) == multiset(t) + multiset{f}
  {
    if t != [] && Rank(t[|t| - 1].severity) > Rank(f.severity) {
      InsertPermutes(t[..|t| - 1], f);
      assert t == t[..|t| - 1] + [t[|t| - 1]];
    }
  }

  lemma {:induction false} InsertSorted(t: seq<Finding>, f: Finding)
    requires RankSorted(t)
    ensures RankSorted(Insert(t, f))
  {
    if t != [] && Rank(t[|t| - 1].severity) > Rank(f.severity) {
      var t' := t[..|t| - 1];
      var last := t[|t| - 1];
      InsertSorted(t', f);
      InsertPermutes(t', f);
      var u := Insert(t', f);
      forall i | 0 <= i < |u|
        ensures Rank(u[i].severity) <= Rank(last.severity)
      {
        assert u[i] in multiset(u);
        if u[i] != f {
          assert u[i] in multiset(t');
          var k :| 0 <= k < |t'| && t'[k] == u[i];
          assert t[k] == u[i];
        }
      }
    }
  }

  lemma {:induction false} InsertOfRank(t: seq<Finding>, f: Finding, r: nat)
    ensures OfRank(Insert(t, f), r) == OfRank(t, r) + if Rank(f.severity) == r then [f] else []
  {
    if t == [] || Rank(t[|t| - 1].severity) <= Rank(f.severity) {
      OfRankSnoc(t, f, r);
    } else {
      var t' := t[..|t| - 1];
      var last := t[|t| - 1];
      InsertOfRank(t', f, r);
      OfRankSnoc(Insert(t', f), last, r);
      assert t == t' + [last];
      OfRankSnoc(t', last, r);
      SwapEmpty(OfRank(t', r), if Rank(f.severity) == r then [f] else [], if Rank(last.severity) == r then [last] else []);
    }
  }

  lemma OfRankSnoc(u: seq<Finding>, x: Finding, r: nat)
    ensures OfRank(u + [x], r) == OfRank(u, r) + if Rank(x.severity) == r then [x] else []
  {
    assert (u + [x])[..|u + [x]| - 1] == u;
  }

  lemma SwapEmpty(a: seq<Finding>, x: seq<Finding>, y: seq<Finding>)
    requires x == [] || y == []
    ensures a + x + y == a + y + x
  {
    if x == [] {
      assert a + x == a;
      assert a + y + x == a + y;
    } else {
      assert a + x + y == a + x;
      assert a + y == a;
    }
  }

  /** The sorted issues are ordered by rank. */
  lemma {:induction false} SortSpecSorted(s: seq<Finding>)
    ensures RankSorted(SortSpec(s))
  {
    if s != [] {
      SortSpecSorted(s[..|s| - 1]);
      InsertSorted(SortSpec(s[..|s| - 1]), s[|s| - 1]);
    }
  }

  /** Sorting neither loses nor adds an issue. */
  lemma {:induction false} SortSpecPermutes(s: seq<Finding>)
    ensures multiset(SortSpec(s)) == multiset(s)
  {
    if s != [] {
      SortSpecPermutes(s[..|s| - 1]);
      InsertPermutes(SortSpec(s[..|s| - 1]), s[|s| - 1]);
      assert s == s[..|s| - 1] + [s[|s| - 1]];
    }
  }

  /** The sort is stable: the issues of each rank keep their original order. */
  lemma {:induction false} SortSpecStable(s: seq<Finding>, r: nat)
    ensures OfRank(SortSpec(s), r) == OfRank(s, r)
  {
    if s != [] {
      SortSpecStable(s[..|s| - 1], r);
      InsertOfRank(SortSpec(s[..|s| - 1]), s[|s| - 1], r);
    }
  }

  /** Inserting before a run of higher-ranked elements leaves that run after `f`. */
  lemma {:induction false} InsertSkipsRun(t: seq<Finding>, f: Finding, j: nat)
    requires j <= |t|
    requires forall k :: j <= k < |t| ==> Rank(t[k].severity) > Rank(f.severity)
    ensures Insert(t, f) == Insert(t[..j], f) + t[j..]
  {
    if j < |t| {
      var t' := t[..|t| - 1];
      assert Insert(t, f) == Insert(t', f) + [t[|t| - 1]];
      assert t'[..j] == t[..j];
      InsertSkipsRun(t', f, j);
      calc {
        Insert(t, f);
        Insert(t', f) + [t[|t| - 1]];
        (Insert(t[..j], f) + t'[j..]) + [t[|t| - 1]];
        { assert t[j..] == t'[j..] + [t[|t| - 1]]; }
        Insert(t[..j], f) + t[j..];
      }
    } else {
      assert t[..j] == t && t[j..] == [];
    }
  }

  /** `f` lands where the scan from the end stops: after `t[..j]`, whose last
      element does not outrank it, and before a run of elements that all do. */
  lemma InsertAt(t: seq<Finding>, f: Finding, j: nat)
    requires j <= |t|
    requires j == 0 || Rank(t[j - 1].severity) <= Rank(f.severity)
    requires forall k :: j <= k < |t| ==> Rank(t[k].severity) > Rank(f.severity)
    ensures Insert(t, f) == t[..j] + [f] + t[j..]
  {
    InsertSkipsRun(t, f, j);
    assert Insert(t[..j], f) == t[..j] + [f];
  }

  /** `issues.sort(key=lambda x: severity_order.get(x['severity'], 4))`, done in
      place by insertion, which is stable like the original's sort. */
  method SortIssues(a: array<Finding>)
    modifies a
    ensures a[..] == SortSpec(old(a[..]))
  {
    ghost var s := a[..];
    var i := 0;
    while i < a.Length
      invariant 0 <= i <= a.Length
      invariant a[..i] == SortSpec(s[..i])
      invariant forall k :: i <= k < a.Length ==> a[k] == s[k]
    {
      assert s[..i + 1][..i] == s[..i];
      assert SortSpec(s[..i + 1]) == Insert(SortSpec(s[..i]), s[i]);
      InsertLast(a, i);
      i := i + 1;
    }
    assert a[..] == a[..a.Length] && s == s[..a.Length];
  }

  /** One pass of insertion: moves `a[i]` left past the higher-ranked elements
      before it. */
  method InsertLast(a: array<Finding>, i: nat)
    requires i < a.Length
    modifies a
    ensures a[..i + 1] == Insert(old(a[..i]), old(a[i]))
    ensures forall k :: i < k < a.Length ==> a[k] == old(a[k])
  {
    ghost var t := a[..i];
    var key := a[i];
    var j := ShiftRun(a, i, key);
    a[j] := key;
    assert a[..i + 1] == t[..j] + [key] + t[j..] by {
      forall k | 0 <= k < i + 1
        ensures a[k] == (t[..j] + [key] + t[j..])[k]
      {
      }
    }
    InsertAt(t, key, j);
  }

  /** The inner loop of the insertion: moves each element of `a[..i]` that
      outranks `key` one place to the right, scanning down from `i - 1`, and
      returns the position left free. */
  method ShiftRun(a: array<Finding>, i: nat, key: Finding) returns (j: nat)
    requires i < a.Length
    modifies a
    ensures j <= i
    ensures j == 0 || Rank(old(a[j - 1]).severity) <= Rank(key.severity)
    ensures forall k :: j <= k < i ==> Rank(old(a[k]).severity) > Rank(key.severity)
    ensures forall k :: 0 <= k < j ==> a[k] == old(a[k])
    ensures forall k :: j < k <= i ==> a[k] == old(a[k - 1])
    ensures forall k :: i < k < a.Length ==> a[k] == old(a[k])
  {
    j := i;
    while j > 0 && Rank(a[j - 1].severity) > Rank(key.severity)
      invariant 0 <= j <= i
      invariant forall k :: 0 <= k < j ==> a[k] == old(a[k])
      invariant forall k :: j < k <= i ==> a[k] == old(a[k - 1])
      invariant forall k :: i < k < a.Length ==> a[k] == old(a[k])
      invariant forall k :: j <= k < i ==> Rank(old(a[k]).severity) > Rank(key.severity)
    {
      a[j] := a[j - 1];
      j := j - 1;
    }
  }

  /** The severity of each issue, in order. */
  function Severities(s: seq<Finding>): (r: seq<string>)
    ensures |r| == |s|
  {
    if s == [] then [] else Severities(s[..|s| - 1]) + [s[|s| - 1].severity]
  }

  /** The `severity_counts` dictionary after counting the first issues of `s`. */
  function Tally(s: seq<Finding>): map<string, nat>
  {
    if s == [] then map[]
    else
      var counts := Tally(s[..|s| - 1]);
      var sev := s[|s| - 1].severity;
      counts[sev := (if sev in counts then counts[sev] else 0) + 1]
  }

  /** `severity_counts`: one entry per severity that occurs, holding how many
      issues have it. */
  method CountBySeverity(issues: seq<Finding>) returns (counts: map<string, nat>)
    ensures counts == Tally(issues)
    ensures forall sev :: sev in counts <==> sev in Severities(issues)
  {
    counts := map[];
    var i := 0;
    while i < |issues|
      invariant i <= |issues|
      invariant counts == Tally(issues[..i])
    {
      var sev := issues[i].severity;
      counts := counts[sev := (if sev in counts then counts[sev] else 0) + 1];
      assert issues[..i + 1][..i] == issues[..i];
      i := i + 1;
    }
    assert issues[..i] == issues;
    TallyCounts(issues);
    forall sev
      ensures sev in counts <==> sev in Severities(issues)
    {
      assert sev in Severities(issues) <==> sev in multiset(Severities(issues));
    }
  }

  /** Each count is the number of issues with that severity; a severity that no
      issue has gets no entry. */
  lemma {:induction false} TallyCounts(s: seq<Finding>)
    ensures forall sev :: (sev in Tally(s) <==> multiset(Severities(s))[sev] > 0)
                          && (sev in Tally(s) ==> Tally(s)[sev] == multiset(Severities(s))[sev])
  {
    if s != [] {
      TallyCounts(s[..|s| - 1]);
      assert Severities(s) == Severities(s[..|s| - 1]) + [s[|s| - 1].severity];
    }
  }

  /** `severity_counts.get(sev, 0)`. */
  function CountOf(counts: map<string, nat>, sev: string): nat
  {
    if sev in counts then counts[sev] else 0
  }

  /** The counts of the severities in `keys`, added up. */
  function SumCounts(counts: map<string, nat>, keys: seq<string>): nat
  {
    if keys == [] then 0 else CountOf(counts, keys[0]) + SumCounts(counts, keys[1..])
  }

  predicate Distinct(keys: seq<string>)
  {
    forall i, j :: 0 <= i < j < |keys| ==> keys[i] != keys[j]
  }

  /** The per-severity counts add up to the number of issues when `keys` lists
      every severity that occurs once, as the four severities that
      `print_issues` prints do when no issue has another severity. */
  lemma {:induction false} TallySumsToTotal(s: seq<Finding>, keys: seq<string>)
    requires Distinct(keys)
    requires forall i :: 0 <= i < |s| ==> s[i].severity in keys
    ensures SumCounts(Tally(s), keys) == |s|
  {
    if s == [] {
      ZeroCounts(keys);
    } else {
      var t := s[..|s| - 1];
      TallySumsToTotal(t, keys);
      CountBump(Tally(t), s[|s| - 1].severity, keys);
    }
  }

  lemma {:induction false} ZeroCounts(keys: seq<string>)
    ensures SumCounts(map[], keys) == 0
  {
    if keys != [] {
      ZeroCounts(keys[1..]);
    }
  }

  /** Counting one more issue of severity `sev` adds one to the sum. */
  lemma {:induction false} CountBump(counts: map<string, nat>, sev: string, keys: seq<string>)
    requires Distinct(keys) && sev in keys
    ensures SumCounts(counts[sev := CountOf(counts, sev) + 1], keys) == SumCounts(counts, keys) + 1
  {
    var bumped := counts[sev := CountOf(counts, sev) + 1];
    if keys[0] == sev {
      assert sev !in keys[1..];
      CountUntouched(counts, sev, CountOf(counts, sev) + 1, keys[1..]);
    } else {
      CountBump(counts, sev, keys[1..]);
    }
  }

  /** Changing the count of a severity outside `keys` leaves the sum alone. */
  lemma {:induction false} CountUntouched(counts: map<string, nat>, sev: string, v: nat, keys: seq<string>)
    requires sev !in keys
    ensures SumCounts(counts[sev := v], keys) == SumCounts(counts, keys)
  {
    if keys != [] {
      CountUntouched(counts, sev, v, keys[1..]);
    }
  }

  lemma SeveritiesSnoc(t: seq<Finding>, f: Finding)
    ensures Severities(t + [f]) == Severities(t) + [f.severity]
  {
    assert (t + [f])[..|t + [f]| - 1] == t;
  }

  lemma {:induction false} InsertKeepsSeverities(t: seq<Finding>, f: Finding)
    ensures multiset(Severities(Insert(t, f))) == multiset(Severities(t)) + multiset{f.severity}
  {
    if t != [] && Rank(t[|t| - 1].severity) > Rank(f.severity) {
      var t', last := t[..|t| - 1], t[|t| - 1];
      InsertKeepsSeverities(t', f);
      assert Insert(t, f) == Insert(t', f) + [last];
      assert t == t' + [last];
      AppendKeepsSeverities(Insert(t', f), t', last, f);
    } else {
      SeveritiesSnoc(t, f);
    }
  }

  /** Appending the same finding to `u` and to `t` keeps the severities of `u`
      those of `t` plus `f`'s. */
  lemma AppendKeepsSeverities(u: seq<Finding>, t: seq<Finding>, last: Finding, f: Finding)
    requires multiset(Severities(u)) == multiset(Severities(t)) + multiset{f.severity}
    ensures multiset(Severities(u + [last])) == multiset(Severities(t + [last])) + multiset{f.severity}
  {
    SeveritiesSnoc(u, last);
    SeveritiesSnoc(t, last);
  }

  lemma {:induction false} SortKeepsSeverities(s: seq<Finding>)
    ensures multiset(Severities(SortSpec(s))) == multiset(Severities(s))
  {
    if s != [] {
      SortKeepsSeverities(s[..|s| - 1]);
      InsertKeepsSeverities(SortSpec(s[..|s| - 1]), s[|s| - 1]);
    }
  }

  /** The counts depend only on how often each severity occurs. */
  lemma TallyBySeverities(x: seq<Finding>, y: seq<Finding>)
    requires multiset(Severities(x)) == multiset(Severities(y))
    ensures Tally(x) == Tally(y)
  {
    var cx, cy := Tally(x), Tally(y);
    TallyCounts(x);
    TallyCounts(y);
    forall sev
      ensures sev in cx <==> sev in cy
    {
    }
    forall sev | sev in cx
      ensures cx[sev] == cy[sev]
    {
    }
  }

  /** Sorting first, as `print_issues` does, does not change the counts. */
  lemma SortKeepsTally(s: seq<Finding>)
    ensures Tally(SortSpec(s)) == Tally(s)
  {
    SortKeepsSeverities(s);
    TallyBySeverities(SortSpec(s), s);
  }
}
