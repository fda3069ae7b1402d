/** The mock inline-suggestion engine: a fixed table of regular-expression
    rules and a double-space detector produce `Issue` ranges over the text,
    sorted by their start; a suggestion is applied by splicing it over its
    range. */
module EnglishAnalyzer {
  import opened Wrappers
  import opened Text
  import Seqs

  /** A suggested change: the range [start, end) of the content, the text
      found there, the replacement and the explanation shown to the user. */
  datatype Issue = Issue(start: nat, end: nat, text: string, suggestion: string, reason: string)

  /** A regular expression of the shape `\b(P1|P2|...)\b`, where each phrase
      Pi is a list of literal words joined by `\s+`; `ci` is the `i` flag.
      Every rule of the table, and both rewrites of the Revise button, have
      this shape. */
  datatype Pattern = Pattern(alternatives: seq<seq<string>>, ci: bool)

  /** Every phrase starts with a non-empty word, so a match is never empty
      and a global scan always advances. */
  predicate WellFormedPattern(p: Pattern) {
    forall i :: 0 <= i < |p.alternatives| ==> PhraseStartsWithWord(p.alternatives[i])
  }

  predicate PhraseStartsWithWord(a: seq<string>) {
    |a| > 0 && |a[0]| > 0
  }

  type WellFormed = p: Pattern | WellFormedPattern(p) witness Pattern([], false)

  datatype Rule = Rule(pattern: WellFormed, suggestion: string, reason: string)

  const VeryGood: WellFormed := Pattern([["very", "good"]], true)
  const VeryGoodRule: Rule := Rule(VeryGood, "great", "Stronger, more natural word choice")

  /** The rule table of `pseudoAnalyze`, in its order. */
  const Rules: seq<Rule> := [
    Rule(Pattern([["exprience"]], true), "experience", "Spelling: experience"),
    Rule(Pattern([["informations"]], true), "information", "Uncountable noun: information (no plural)"),
    Rule(Pattern([["it's means"]], true), "it means", "Remove apostrophe for possessive/verb form confusion"),
    VeryGoodRule,
    Rule(Pattern([["i am", "very", "happy"]], true), "I'm delighted", "Natural, concise tone"),
    Rule(Pattern([["I have did"]], true), "I have done", "Present perfect: have + past participle")
  ]

  const DoubleSpace: string := "  "
  const DoubleSpaceReason: string := "Double space → single space"

  // ---------------------------------------------------------------------
  // Matching one pattern at one position
  // ---------------------------------------------------------------------

  /** `\b` at position k: exactly one of the characters around k is a word character. */
  predicate IsBoundary(s: string, k: nat) {
    (0 < k <= |s| && IsWordChar(s[k - 1])) != (k < |s| && IsWordChar(s[k]))
  }

  /** The literal word `w` occurs at i, ignoring ASCII case when `ci`. */
  predicate LiteralAt(s: string, i: nat, w: string, ci: bool) {
    i + |w| <= |s| &&
    if ci then Lower(s[i..i + |w|]) == Lower(w) else s[i..i + |w|] == w
  }

  /** The end of the maximal run of `\s` starting at j (what greedy `\s+` consumes). */
  function SkipSpaces(s: string, j: nat): (k: nat)
    requires j <= |s|
    ensures j <= k <= |s|
    ensures forall m :: j <= m < k ==> IsSpace(s[m])
    ensures k == |s| || !IsSpace(s[k])
    decreases |s| - j
  {
    if j < |s| && IsSpace(s[j]) then SkipSpaces(s, j + 1) else j
  }

  /** Where the phrase `w1 \s+ w2 ... \s+ wn` ends if it matches at i. */
  function MatchPhrase(s: string, i: nat, words: seq<string>, ci: bool): (r: Option<nat>)
    requires i <= |s| && |words| > 0
    ensures r.Some? ==> i + |words[0]| <= r.value <= |s|
    decreases |words|
  {
    if !LiteralAt(s, i, words[0], ci) then None
    else
      var j := i + |words[0]|;
      if |words| == 1 then Some(j)
      else
        var k := SkipSpaces(s, j);
        if k == j then None else MatchPhrase(s, k, words[1..], ci)
  }

  /** The first alternative that matches at i and is followed by `\b`. */
  function MatchAlternatives(s: string, i: nat, alts: seq<seq<string>>, ci: bool): (r: Option<nat>)
    requires i <= |s|
    requires forall i :: 0 <= i < |alts| ==> PhraseStartsWithWord(alts[i])
    ensures r.Some? ==> i < r.value <= |s| && IsBoundary(s, r.value)
    decreases |alts|
  {
    if alts == [] then None
    else
      assert PhraseStartsWithWord(alts[0]);
      match MatchPhrase(s, i, alts[0], ci)
      case Some(e) =>
        if IsBoundary(s, e) then Some(e) else MatchAlternatives(s, i, alts[1..], ci)
      case None => MatchAlternatives(s, i, alts[1..], ci)
  }

  /** The end of the match of `p` at position i, if there is one. */
  function MatchAt(p: WellFormed, s: string, i: nat): (r: Option<nat>)
    requires i <= |s|
    ensures r.Some? ==> i < r.value <= |s| && IsBoundary(s, i) && IsBoundary(s, r.value)
  {
    if IsBoundary(s, i) then MatchAlternatives(s, i, p.alternatives, p.ci) else None
  }

  /** `exec` with `lastIndex == from`: the leftmost position at or after
      `from` where `p` matches. */
  function NextMatch(p: WellFormed, s: string, from: nat): (r: Option<nat>)
    requires from <= |s|
    ensures r.Some? ==> from <= r.value <= |s| && MatchAt(p, s, r.value).Some?
    ensures forall j :: from <= j <= |s| && (r.None? || j < r.value) ==> MatchAt(p, s, j).None?
    decreases |s| - from
  {
    if MatchAt(p, s, from).Some? then Some(from)
    else if from == |s| then None
    else NextMatch(p, s, from + 1)
  }

  // ---------------------------------------------------------------------
  // Issue lists
  // ---------------------------------------------------------------------

  /** The issue's range lies in `s`, is non-empty and holds the issue's text. */
  predicate ValidIn(s: string, x: Issue) {
    x.start < x.end <= |s| && x.text == s[x.start..x.end]
  }

  /** The suggestion and reason come from the rule table or are the double-space fix. */
  predicate FromTable(x: Issue) {
    (exists k :: 0 <= k < |Rules| && x.suggestion == Rules[k].suggestion && x.reason == Rules[k].reason) ||
    (x.suggestion == " " && x.reason == DoubleSpaceReason)
  }

  /** Every issue ends before the next one starts (so they are also sorted). */
  predicate NonOverlapping(xs: seq<Issue>) {
    forall i, j :: 0 <= i < j < |xs| ==> xs[i].end <= xs[j].start
  }

  /** Non-overlapping ranges that all lie within `s`. */
  predicate Placed(s: string, xs: seq<Issue>) {
    NonOverlapping(xs) && forall k :: 0 <= k < |xs| ==> xs[k].start <= xs[k].end <= |s|
  }

  predicate SortedByStart(xs: seq<Issue>) {
    forall i, j :: 0 <= i < j < |xs| ==> xs[i].start <= xs[j].start
  }

  /** The issues one rule's global `exec` loop pushes, starting at `lastIndex == from`. */
  function ScanRule(r: Rule, s: string, from: nat): (xs: seq<Issue>)
    requires from <= |s|
    ensures forall k :: 0 <= k < |xs| ==> ValidIn(s, xs[k]) && from <= xs[k].start
    ensures forall k :: 0 <= k < |xs| ==> xs[k].suggestion == r.suggestion && xs[k].reason == r.reason
    ensures NonOverlapping(xs)
    decreases |s| - from
  {
    match NextMatch(r.pattern, s, from)
    case None => []
    case Some(i) =>
      var e := MatchAt(r.pattern, s, i).value;
      [Issue(i, e, s[i..e], r.suggestion, r.reason)] + ScanRule(r, s, e)
  }

  /** The issues of the first n rules of the table, in table order. */
  function ScanRules(n: nat, s: string): (xs: seq<Issue>)
    requires n <= |Rules|
    ensures forall k :: 0 <= k < |xs| ==> ValidIn(s, xs[k]) && FromTable(xs[k])
  {
    if n == 0 then []
    else
      var last := ScanRule(Rules[n - 1], s, 0);
      assert forall k :: 0 <= k < |last| ==> FromTable(last[k]) by {
        forall k | 0 <= k < |last| ensures FromTable(last[k]) {
          assert last[k].suggestion == Rules[n - 1].suggestion;
        }
      }
      ScanRules(n - 1, s) + last
  }

  /** The issues the `indexOf("  ", i)` loop pushes, starting at i == from. */
  function DoubleSpaces(s: string, from: nat): seq<Issue>
    decreases |s| - from
  {
    match IndexOf(s, DoubleSpace, from)
    case None => []
    case Some(i) => [Issue(i, i + 2, DoubleSpace, " ", DoubleSpaceReason)] + DoubleSpaces(s, i + 2)
  }

  /** One round of the double-space loop: the space pair found at j is
      pushed and the scan resumes at j + 2. */
  lemma DoubleSpacesStep(s: string, i: nat, j: nat)
    requires IndexOf(s, DoubleSpace, i) == Some(j)
    ensures i <= j && j + 2 <= |s|
    ensures DoubleSpaces(s, i) == [Issue(j, j + 2, DoubleSpace, " ", DoubleSpaceReason)] + DoubleSpaces(s, j + 2)
  {
  }

  /** Double-space issues lie in the text at or after `from`, hold "  "
      and suggest " ". */
  lemma {:induction false} DoubleSpacesValid(s: string, from: nat)
    ensures forall k :: 0 <= k < |DoubleSpaces(s, from)| ==>
      ValidIn(s, DoubleSpaces(s, from)[k]) && from <= DoubleSpaces(s, from)[k].start
    ensures forall k :: 0 <= k < |DoubleSpaces(s, from)| ==>
      var x := DoubleSpaces(s, from)[k];
      x.text == DoubleSpace && x.suggestion == " " && x.reason == DoubleSpaceReason
    decreases |s| - from
  {
    if IndexOf(s, DoubleSpace, from).Some? {
      var i := IndexOf(s, DoubleSpace, from).value;
      DoubleSpacesStep(s, from, i);
      DoubleSpacesValid(s, i + 2);
      var rest := DoubleSpaces(s, i + 2);
      var xs := DoubleSpaces(s, from);
      forall k | 0 <= k < |xs|
        ensures ValidIn(s, xs[k]) && from <= xs[k].start
        ensures xs[k].text == DoubleSpace && xs[k].suggestion == " " && xs[k].reason == DoubleSpaceReason
      {
        if k > 0 { assert xs[k] == rest[k - 1]; }
      }
    }
  }

  /** Double-space issues do not overlap, because the scan resumes at i + 2. */
  lemma {:induction false} DoubleSpacesDisjoint(s: string, from: nat)
    ensures NonOverlapping(DoubleSpaces(s, from))
    decreases |s| - from
  {
    if IndexOf(s, DoubleSpace, from).Some? {
      var i := IndexOf(s, DoubleSpace, from).value;
      DoubleSpacesStep(s, from, i);
      DoubleSpacesDisjoint(s, i + 2);
      DoubleSpacesValid(s, i + 2);
      ConsNonOverlapping(Issue(i, i + 2, DoubleSpace, " ", DoubleSpaceReason), DoubleSpaces(s, i + 2));
    }
  }

  /** An issue ending before every issue of a non-overlapping list extends it. */
  lemma ConsNonOverlapping(x: Issue, t: seq<Issue>)
    requires NonOverlapping(t)
    requires forall k :: 0 <= k < |t| ==> x.end <= t[k].start
    ensures NonOverlapping([x] + t)
  {
    var r := [x] + t;
    forall i, j | 0 <= i < j < |r| ensures r[i].end <= r[j].start {
      assert r[j] == t[j - 1];
      if i > 0 { assert r[i] == t[i - 1]; }
    }
  }

  /** Everything `pseudoAnalyze` pushes, before sorting: the rules in table
      order, then the double spaces. */
  function RawIssues(s: string): (xs: seq<Issue>)
    ensures forall k :: 0 <= k < |xs| ==> ValidIn(s, xs[k]) && FromTable(xs[k])
  {
    DoubleSpacesValid(s, 0);
    ScanRules(|Rules|, s) + DoubleSpaces(s, 0)
  }

  // ---------------------------------------------------------------------
  // Stable sort by start (Array.prototype.sort is stable)
  // ---------------------------------------------------------------------

  /** Inserts x before the first element that does not start before it. */
  function InsertByStart(x: Issue, t: seq<Issue>): (r: seq<Issue>)
    ensures multiset(r) == multiset(t) + multiset{x}
    ensures forall k :: 0 <= k < |r| ==> r[k] == x || r[k] in t
    decreases |t|
  {
    if t == [] || x.start <= t[0].start then [x] + t
    else
      assert t == [t[0]] + t[1..];
      [t[0]] + InsertByStart(x, t[1..])
  }

  /** A lower bound on every start survives the insertion of an issue that respects it. */
  lemma {:induction false} InsertKeepsLowerBound(x: Issue, t: seq<Issue>, lo: nat)
    requires lo <= x.start
    requires forall k :: 0 <= k < |t| ==> lo <= t[k].start
    ensures forall k :: 0 <= k < |InsertByStart(x, t)| ==> lo <= InsertByStart(x, t)[k].start
    decreases |t|
  {
    if t != [] && x.start > t[0].start {
      InsertKeepsLowerBound(x, t[1..], lo);
    }
  }

  /** An issue followed by a sorted list it does not start after is sorted. */
  lemma ConsSorted(x: Issue, t: seq<Issue>)
    requires SortedByStart(t)
    requires forall k :: 0 <= k < |t| ==> x.start <= t[k].start
    ensures SortedByStart([x] + t)
  {
    var r := [x] + t;
    forall i, j | 0 <= i < j < |r| ensures r[i].start <= r[j].start {
      assert r[j] == t[j - 1];
      if i > 0 { assert r[i] == t[i - 1]; }
    }
  }

  lemma {:induction false} InsertKeepsSorted(x: Issue, t: seq<Issue>)
    requires SortedByStart(t)
    ensures SortedByStart(InsertByStart(x, t))
    decreases |t|
  {
    if t == [] || x.start <= t[0].start {
      ConsSorted(x, t);
    } else {
      var rest := InsertByStart(x, t[1..]);
      assert SortedByStart(t[1..]);
      InsertKeepsSorted(x, t[1..]);
      InsertKeepsLowerBound(x, t[1..], t[0].start);
      ConsSorted(t[0], rest);
    }
  }

  /** `issues.sort((a, b) => a.start - b.start)` */
  function SortByStart(s: seq<Issue>): (r: seq<Issue>)
    ensures multiset(r) == multiset(s)
    ensures SortedByStart(r)
    decreases |s|
  {
    if s == [] then []
    else
      assert s == [s[0]] + s[1..];
      InsertKeepsSorted(s[0], SortByStart(s[1..]));
      InsertByStart(s[0], SortByStart(s[1..]))
  }

  /** The issues starting at k, in order. */
  function StartingAt(s: seq<Issue>, k: nat): seq<Issue>
    decreases |s|
  {
    if s == [] then [] else (if s[0].start == k then [s[0]] else []) + StartingAt(s[1..], k)
  }

  /** Inserting x puts it first among the issues with its start; the lists
      of other starts are unaffected. Since the sort inserts earlier-pushed
      issues last, this keeps ties in their pushed order. */
  lemma {:induction false} InsertKeepsTies(x: Issue, t: seq<Issue>, k: nat)
    ensures StartingAt(InsertByStart(x, t), k) == (if x.start == k then [x] else []) + StartingAt(t, k)
    decreases |t|
  {
    if t == [] || x.start <= t[0].start {
      assert ([x] + t)[1..] == t;
    } else {
      var rest := InsertByStart(x, t[1..]);
      InsertKeepsTies(x, t[1..], k);
      assert InsertByStart(x, t) == [t[0]] + rest;
      assert ([t[0]] + rest)[1..] == rest;
    }
  }

  /** The sort is stable: issues with the same start keep their relative order. */
  lemma {:induction false} SortIsStable(s: seq<Issue>, k: nat)
    ensures StartingAt(SortByStart(s), k) == StartingAt(s, k)
    decreases |s|
  {
    if s != [] {
      SortIsStable(s[1..], k);
      InsertKeepsTies(s[0], SortByStart(s[1..]), k);
    }
  }

  /** The issues `pseudoAnalyze` returns. */
  function Analysis(s: string): (xs: seq<Issue>)
    ensures SortedByStart(xs) && multiset(xs) == multiset(RawIssues(s))
  {
    SortByStart(RawIssues(s))
  }

  /** Every returned issue lies in the text, holds the text of its range and
      takes its suggestion from the table or the double-space fix. */
  lemma AnalysisFacts(s: string)
    ensures forall k :: 0 <= k < |Analysis(s)| ==> ValidIn(s, Analysis(s)[k]) && FromTable(Analysis(s)[k])
  {
    var raw := RawIssues(s);
    var xs := Analysis(s);
    forall k | 0 <= k < |xs| ensures ValidIn(s, xs[k]) && FromTable(xs[k]) {
      assert xs[k] in multiset(raw);
      var m :| 0 <= m < |raw| && raw[m] == xs[k];
    }
  }

  /** One rule's global `exec` loop: push an issue per match, resuming at
      the end of the previous match. */
  method ExecRule(rule: Rule, content: string) returns (found: seq<Issue>)
    ensures found == ScanRule(rule, content, 0)
  {
    found := [];
    var pos := 0;
    var m := NextMatch(rule.pattern, content, pos);
    while m.Some?
      invariant pos <= |content|
      invariant m == NextMatch(rule.pattern, content, pos)
      invariant found + ScanRule(rule, content, pos) == ScanRule(rule, content, 0)
      decreases |content| - pos
    {
      var start := m.value;
      var end := MatchAt(rule.pattern, content, start).value;
      var issue := Issue(start, end, content[start..end], rule.suggestion, rule.reason);
      assert ScanRule(rule, content, pos) == [issue] + ScanRule(rule, content, end);
      assert found + ScanRule(rule, content, pos) == (found + [issue]) + ScanRule(rule, content, end);
      found := found + [issue];
      pos := end;
      m := NextMatch(rule.pattern, content, pos);
    }
  }

  /** The `indexOf("  ", i)` loop: push an issue per double space and
      resume right after it. */
  method ExecDoubleSpaces(content: string) returns (found: seq<Issue>)
    ensures found == DoubleSpaces(content, 0)
  {
    found := [];
    var i := 0;
    var next := IndexOf(content, DoubleSpace, i);
    while next.Some?
      invariant next == IndexOf(content, DoubleSpace, i)
      invariant found + DoubleSpaces(content, i) == DoubleSpaces(content, 0)
      decreases |content| - i
    {
      var j := next.value;
      DoubleSpacesStep(content, i, j);
      var issue := Issue(j, j + 2, DoubleSpace, " ", DoubleSpaceReason);
      assert found + DoubleSpaces(content, i) == (found + [issue]) + DoubleSpaces(content, j + 2);
      found := found + [issue];
      i := j + 2;
      next := IndexOf(content, DoubleSpace, i);
    }
    assert DoubleSpaces(content, i) == [];
  }

  /** The model of `pseudoAnalyze(content)`: each rule's `exec` loop, the
      double-space `indexOf` loop, then the stable sort by start. */
  method PseudoAnalyze(content: string) returns (issues: seq<Issue>)
    ensures issues == Analysis(content)
    ensures SortedByStart(issues)
    ensures multiset(issues) == multiset(RawIssues(content))
    ensures forall k :: 0 <= k < |issues| ==> ValidIn(content, issues[k]) && FromTable(issues[k])
  {
    var raw: seq<Issue> := [];
    for r := 0 to |Rules|
      invariant raw == ScanRules(r, content)
    {
      var found := ExecRule(Rules[r], content);
      assert ScanRules(r + 1, content) == ScanRules(r, content) + ScanRule(Rules[r], content, 0);
      raw := raw + found;
    }
    var doubles := ExecDoubleSpaces(content);
    raw := raw + doubles;
    assert raw == RawIssues(content);
    issues := SortByStart(raw);
    AnalysisFacts(content);
  }

  /** The words of the "very good" rule are already lower case. */
  lemma VeryGoodWordsAreLower()
    ensures Lower("very") == "very" && Lower("good") == "good"
  {
    assert Lower("very")[0] == 'v' && Lower("good")[0] == 'g';
  }

  /** Both words of the "very good" rule occur in "very  good", two spaces apart. */
  lemma VeryGoodWordsAt(s: string)
    requires s == "very  good"
    ensures LiteralAt(s, 0, "very", true) && LiteralAt(s, 6, "good", true)
    ensures SkipSpaces(s, 4) == 6
  {
    VeryGoodWordsAreLower();
    assert s[0..4] == "very" && s[6..10] == "good";
    assert SkipSpaces(s, 6) == 6;
    assert SkipSpaces(s, 5) == 6;
  }

  lemma VeryGoodMatchesAtStart(s: string)
    requires s == "very  good"
    ensures MatchAt(VeryGood, s, 0) == Some(10)
  {
    VeryGoodWordsAt(s);
    assert MatchPhrase(s, 6, ["good"], true) == Some(10);
    assert ["very", "good"][1..] == ["good"];
    assert MatchPhrase(s, 0, ["very", "good"], true) == Some(10);
  }

  lemma VeryGoodMatchesOnce(s: string)
    requires s == "very  good"
    ensures ScanRule(VeryGoodRule, s, 0) == [Issue(0, 10, s, "great", "Stronger, more natural word choice")]
  {
    VeryGoodMatchesAtStart(s);
    assert NextMatch(VeryGood, s, 0) == Some(0);
    assert MatchAt(VeryGood, s, 10) == None by {
      assert !LiteralAt(s, 10, "very", true);
    }
    assert NextMatch(VeryGood, s, 10) == None;
    assert ScanRule(VeryGoodRule, s, 10) == [];
    assert s[0..10] == s;
  }

  lemma DoubleSpaceInVeryGood(s: string)
    requires s == "very  good"
    ensures Issue(4, 6, DoubleSpace, " ", DoubleSpaceReason) in DoubleSpaces(s, 0)
  {
    assert s[0] == 'v' && s[1] == 'e' && s[2] == 'r' && s[3] == 'y' && s[4] == ' ';
    assert s[0..2] != DoubleSpace && s[1..3] != DoubleSpace;
    assert s[2..4] != DoubleSpace && s[3..5] != DoubleSpace;
    assert OccursAt(s, DoubleSpace, 4);
    assert IndexOf(s, DoubleSpace, 3) == Some(4);
    assert IndexOf(s, DoubleSpace, 2) == Some(4);
    assert IndexOf(s, DoubleSpace, 1) == Some(4);
    assert IndexOf(s, DoubleSpace, 0) == Some(4);
  }

  /** An issue of any one rule is among the issues of every longer prefix of the table. */
  lemma {:induction false} ScanRulesIncludes(n: nat, m: nat, s: string, x: Issue)
    requires 1 <= n <= m <= |Rules|
    requires x in ScanRule(Rules[n - 1], s, 0)
    ensures x in ScanRules(m, s)
    decreases m
  {
    if m > n {
      ScanRulesIncludes(n, m - 1, s, x);
    }
  }

  /** Every pushed issue is among the sorted result. */
  lemma RawInAnalysis(s: string, x: Issue)
    requires x in RawIssues(s)
    ensures x in Analysis(s)
  {
    assert x in multiset(Analysis(s));
  }

  /** An issue of rule n of the table is among the pushed issues. */
  lemma RuleIssueInRaw(s: string, n: nat, x: Issue)
    requires 1 <= n <= |Rules| && x in ScanRule(Rules[n - 1], s, 0)
    ensures x in RawIssues(s)
  {
    ScanRulesIncludes(n, |Rules|, s, x);
  }

  /** The "very good" rule's issue on "very  good" is returned. */
  lemma VeryGoodIssueReturned(s: string)
    requires s == "very  good"
    ensures Issue(0, 10, s, "great", "Stronger, more natural word choice") in Analysis(s)
  {
    var a := Issue(0, 10, s, "great", "Stronger, more natural word choice");
    VeryGoodMatchesOnce(s);
    assert Rules[3] == VeryGoodRule;
    RuleIssueInRaw(s, 4, a);
    RawInAnalysis(s, a);
  }

  /** The double space of "very  good" is returned. */
  lemma DoubleSpaceIssueReturned(s: string)
    requires s == "very  good"
    ensures Issue(4, 6, DoubleSpace, " ", DoubleSpaceReason) in Analysis(s)
  {
    DoubleSpaceInVeryGood(s);
    RawInAnalysis(s, Issue(4, 6, DoubleSpace, " ", DoubleSpaceReason));
  }

  /** The double spaces of "very  good" lie inside the "very good" rule's
      match: the analysis can return overlapping issues. */
  lemma RulesMayOverlap(s: string)
    requires s == "very  good"
    ensures Issue(0, 10, s, "great", "Stronger, more natural word choice") in Analysis(s)
    ensures Issue(4, 6, DoubleSpace, " ", DoubleSpaceReason) in Analysis(s)
  {
    VeryGoodIssueReturned(s);
    DoubleSpaceIssueReturned(s);
  }

  // ---------------------------------------------------------------------
  // Applying suggestions
  // ---------------------------------------------------------------------

  /** `applySuggestion`: `content.slice(0, start) + suggestion + content.slice(end)`. */
  function ApplySuggestion(content: string, x: Issue): (r: string)
    ensures x.start <= x.end <= |content| ==>
      && |r| == |content| - (x.end - x.start) + |x.suggestion|
      && r[..x.start] == content[..x.start]
      && r[x.start..x.start + |x.suggestion|] == x.suggestion
      && r[x.start + |x.suggestion|..] == content[x.end..]
  {
    Slice(content, 0, x.start) + x.suggestion + SliceFrom(content, x.end)
  }
}
