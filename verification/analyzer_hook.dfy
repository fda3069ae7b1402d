/** The `useEnglishAnalyzer` hook: single and "apply all" splicing of the
    current issues, the highlighted preview split into plain and marked
    segments, and the mock Revise button built from two global replaces. */
module AnalyzerHook {
  import opened Wrappers
  import opened Text
  import opened EnglishAnalyzer

  /** `handleApplySingle(idx)`: `undefined` when there is no issue at idx,
      otherwise the content with that issue's suggestion spliced in. */
  function ApplySingle(content: string, issues: seq<Issue>, idx: int): (r: Option<string>)
    ensures r.None? <==> !(0 <= idx < |issues|)
    ensures r.Some? && issues[idx].start <= issues[idx].end <= |content| ==>
      r.value == content[..issues[idx].start] + issues[idx].suggestion + content[issues[idx].end..]
  {
    if 0 <= idx < |issues| then
      ApplyInRange(content, issues[idx]);
      Some(ApplySuggestion(content, issues[idx]))
    else None
  }

  /** The `updated` string after the back-to-front loop of "apply all":
      the last issue is spliced first. */
  function ApplyBackToFront(s: string, xs: seq<Issue>): string
    decreases |xs|
  {
    if xs == [] then s
    else ApplyBackToFront(ApplySuggestion(s, xs[|xs| - 1]), xs[..|xs| - 1])
  }

  /** The left-to-right rebuild: the gap before each issue, its suggestion,
      and finally the tail after the last issue. */
  function Rebuild(s: string, xs: seq<Issue>, from: nat): string
    decreases |xs|
  {
    if xs == [] then SliceFrom(s, from)
    else Slice(s, from, xs[0].start) + xs[0].suggestion + Rebuild(s, xs[1..], xs[0].end)
  }

  lemma ApplyInRange(s: string, x: Issue)
    ensures x.start <= x.end <= |s| ==> ApplySuggestion(s, x) == s[..x.start] + x.suggestion + s[x.end..]
  {
  }

  /** Text after every issue's range is carried along unchanged. */
  lemma {:induction false} BackToFrontKeepsSuffix(t: string, u: string, xs: seq<Issue>)
    requires Placed(t, xs)
    ensures ApplyBackToFront(t + u, xs) == ApplyBackToFront(t, xs) + u
    decreases |xs|
  {
    if xs != [] {
      var y := xs[|xs| - 1];
      var q := xs[..|xs| - 1];
      assert (t + u)[..y.start] == t[..y.start];
      assert (t + u)[y.end..] == t[y.end..] + u;
      ApplyInRange(t + u, y);
      ApplyInRange(t, y);
      assert ApplySuggestion(t + u, y) == ApplySuggestion(t, y) + u;
      assert Placed(ApplySuggestion(t, y), q) by {
        forall k | 0 <= k < |q| ensures q[k].end <= y.start {
          assert xs[k].end <= xs[|xs| - 1].start;
        }
      }
      BackToFrontKeepsSuffix(ApplySuggestion(t, y), u, q);
    }
  }

  lemma SliceOfPrefix(s: string, a: nat, b: nat, c: nat)
    requires b <= c <= |s|
    ensures Slice(s, a, b) == Slice(s[..c], a, b)
    ensures Slice(s, a, c) == SliceFrom(s[..c], a)
  {
  }

  /** Rebuilding up to the last issue only reads the text before it. */
  lemma {:induction false} RebuildSplitLast(s: string, q: seq<Issue>, x: Issue, from: nat)
    requires x.start <= x.end <= |s|
    requires forall k :: 0 <= k < |q| ==> q[k].start <= q[k].end <= x.start
    ensures Rebuild(s, q + [x], from) == Rebuild(s[..x.start], q, from) + x.suggestion + SliceFrom(s, x.end)
    decreases |q|
  {
    if q == [] {
      assert ([] + [x])[1..] == [];
      SliceOfPrefix(s, from, x.start, x.start);
    } else {
      var y := q[0];
      assert (q + [x])[0] == y;
      assert (q + [x])[1..] == q[1..] + [x];
      RebuildSplitLast(s, q[1..], x, y.end);
      SliceOfPrefix(s, from, y.start, x.start);
    }
  }

  /** Without its last issue, a placed list is placed in the text before
      that issue, and every remaining issue ends before it starts. */
  lemma PlacedInit(s: string, xs: seq<Issue>)
    requires Placed(s, xs) && xs != []
    ensures var x, q := xs[|xs| - 1], xs[..|xs| - 1];
      && x.start <= x.end <= |s|
      && (forall k :: 0 <= k < |q| ==> q[k].start <= q[k].end <= x.start)
      && Placed(s[..x.start], q)
  {
    var x, q := xs[|xs| - 1], xs[..|xs| - 1];
    forall k | 0 <= k < |q| ensures q[k].start <= q[k].end <= x.start {
      assert q[k] == xs[k];
      assert xs[k].end <= xs[|xs| - 1].start;
    }
  }

  /** Splicing the last issue first leaves the text before it to the
      remaining splices, followed by its suggestion and the rest. */
  lemma BackToFrontLast(s: string, xs: seq<Issue>)
    requires Placed(s, xs) && xs != []
    ensures var x, q := xs[|xs| - 1], xs[..|xs| - 1];
      ApplyBackToFront(s, xs) == ApplyBackToFront(s[..x.start], q) + (x.suggestion + s[x.end..])
  {
    var x, q := xs[|xs| - 1], xs[..|xs| - 1];
    PlacedInit(s, xs);
    var t, u := s[..x.start], x.suggestion + s[x.end..];
    ApplyInRange(s, x);
    assert ApplySuggestion(s, x) == t + u;
    BackToFrontKeepsSuffix(t, u, q);
  }

  /** The rebuild ends with the last issue's suggestion and the rest of the text. */
  lemma RebuildLast(s: string, xs: seq<Issue>)
    requires Placed(s, xs) && xs != []
    ensures var x, q := xs[|xs| - 1], xs[..|xs| - 1];
      Rebuild(s, xs, 0) == Rebuild(s[..x.start], q, 0) + (x.suggestion + s[x.end..])
  {
    var x, q := xs[|xs| - 1], xs[..|xs| - 1];
    PlacedInit(s, xs);
    assert xs == q + [x];
    RebuildSplitLast(s, q, x, 0);
  }

  /** "Apply all" back to front equals the left-to-right rebuild when the
      issues lie in the text and do not overlap: no splice shifts an index
      still to be used. */
  lemma {:induction false} BackToFrontIsRebuild(s: string, xs: seq<Issue>)
    requires Placed(s, xs)
    ensures ApplyBackToFront(s, xs) == Rebuild(s, xs, 0)
    decreases |xs|
  {
    if xs != [] {
      var x, q := xs[|xs| - 1], xs[..|xs| - 1];
      PlacedInit(s, xs);
      BackToFrontLast(s, xs);
      RebuildLast(s, xs);
      BackToFrontIsRebuild(s[..x.start], q);
    }
  }

  // ---------------------------------------------------------------------
  // Global replace (String.prototype.replace with the g flag)
  // ---------------------------------------------------------------------

  /** `s.replace(p, repl)` with `p` global, continuing from `from`. */
  function ReplaceAll(p: WellFormed, s: string, repl: string, from: nat): (r: string)
    requires from <= |s|
    ensures NextMatch(p, s, from).None? ==> r == s[from..]
    ensures NextMatch(p, s, from).Some? ==> s[from..NextMatch(p, s, from).value] + repl <= r
    decreases |s| - from
  {
    match NextMatch(p, s, from)
    case None => s[from..]
    case Some(i) => s[from..i] + repl + ReplaceAll(p, s, repl, MatchAt(p, s, i).value)
  }

  /** A global replace is the left-to-right rebuild over the issues a rule
      with that pattern and replacement would report. */
  lemma {:induction false} ReplaceAllIsRebuild(p: WellFormed, s: string, repl: string, reason: string, from: nat)
    requires from <= |s|
    ensures ReplaceAll(p, s, repl, from) == Rebuild(s, ScanRule(Rule(p, repl, reason), s, from), from)
    decreases |s| - from
  {
    var xs := ScanRule(Rule(p, repl, reason), s, from);
    match NextMatch(p, s, from)
    case None =>
    case Some(i) =>
      var e := MatchAt(p, s, i).value;
      assert xs[1..] == ScanRule(Rule(p, repl, reason), s, e);
      ReplaceAllIsRebuild(p, s, repl, reason, e);
  }

  /** `handleApplyAll`: walks a reversed copy of the issues and splices each
      suggestion into `updated`. */
  method ApplyAll(content: string, issues: seq<Issue>) returns (updated: string)
    ensures updated == ApplyBackToFront(content, issues)
    ensures issues == [] ==> updated == content
    ensures Placed(content, issues) ==> updated == Rebuild(content, issues, 0)
  {
    updated := content;
    var k := |issues|;
    assert issues[..k] == issues;
    while k > 0
      invariant 0 <= k <= |issues|
      invariant ApplyBackToFront(updated, issues[..k]) == ApplyBackToFront(content, issues)
    {
      var iss := issues[k - 1];
      assert issues[..k][..k - 1] == issues[..k - 1];
      updated := Slice(updated, 0, iss.start) + iss.suggestion + SliceFrom(updated, iss.end);
      k := k - 1;
    }
    if Placed(content, issues) {
      BackToFrontIsRebuild(content, issues);
    }
  }

  // ---------------------------------------------------------------------
  // Highlighted preview
  // ---------------------------------------------------------------------

  /** A span of the preview: plain text, or highlighted text with the
      issue's reason as its tooltip. */
  datatype Segment = Plain(text: string) | Marked(text: string, reason: string)

  /** The spans pushed for the issues, starting with `last == from`, and the tail. */
  function Segments(s: string, xs: seq<Issue>, from: nat): seq<Segment>
    decreases |xs|
  {
    if xs == [] then [Plain(SliceFrom(s, from))]
    else
      [Plain(Slice(s, from, xs[0].start)), Marked(Slice(s, xs[0].start, xs[0].end), xs[0].reason)]
      + Segments(s, xs[1..], xs[0].end)
  }

  /** The text the preview shows, span after span. */
  function Shown(parts: seq<Segment>): string
    decreases |parts|
  {
    if parts == [] then [] else parts[0].text + Shown(parts[1..])
  }

  /** The `highlighted` memo: a single plain span when there are no issues,
      otherwise a gap and a highlighted span per issue and the tail. */
  method Highlight(content: string, issues: seq<Issue>) returns (parts: seq<Segment>)
    ensures parts == Segments(content, issues, 0)
    ensures |parts| == 2 * |issues| + 1
  {
    if |issues| == 0 {
      return [Plain(content)];
    }
    parts := [];
    var last := 0;
    for idx := 0 to |issues|
      invariant |parts| == 2 * idx
      invariant parts + Segments(content, issues[idx..], last) == Segments(content, issues, 0)
    {
      var iss := issues[idx];
      assert issues[idx..][1..] == issues[idx + 1..];
      parts := parts + [Plain(Slice(content, last, iss.start))];
      parts := parts + [Marked(Slice(content, iss.start, iss.end), iss.reason)];
      last := iss.end;
    }
    assert issues[|issues|..] == [];
    parts := parts + [Plain(SliceFrom(content, last))];
    SegmentCount(content, issues, 0);
  }

  lemma {:induction false} SegmentCount(s: string, xs: seq<Issue>, from: nat)
    ensures |Segments(s, xs, from)| == 2 * |xs| + 1
    decreases |xs|
  {
    if xs != [] {
      SegmentCount(s, xs[1..], xs[0].end);
    }
  }

  lemma {:induction false} ShownAppend(a: seq<Segment>, b: seq<Segment>)
    ensures Shown(a + b) == Shown(a) + Shown(b)
    decreases |a|
  {
    if a == [] {
      assert a + b == b;
    } else {
      assert (a + b)[1..] == a[1..] + b;
      ShownAppend(a[1..], b);
    }
  }

  /** Dropping the first issue of a placed list leaves a placed list that
      starts after the first issue ends. */
  lemma PlacedTail(s: string, xs: seq<Issue>)
    requires Placed(s, xs) && xs != []
    ensures Placed(s, xs[1..])
    ensures |xs| > 1 ==> xs[0].end <= xs[1].start
  {
    var rest := xs[1..];
    forall i, j | 0 <= i < j < |rest| ensures rest[i].end <= rest[j].start {
      assert rest[i] == xs[i + 1] && rest[j] == xs[j + 1];
    }
  }

  /** A span list shows its first span's text and then the rest. */
  lemma ShownCons(p: Segment, rest: seq<Segment>)
    ensures Shown([p] + rest) == p.text + Shown(rest)
  {
    assert ([p] + rest)[1..] == rest;
  }

  /** One issue's worth of spans: the gap before it and its highlighted text. */
  lemma SegmentsUnfold(s: string, xs: seq<Issue>, from: nat)
    requires xs != []
    ensures Segments(s, xs, from)
         == [Plain(Slice(s, from, xs[0].start)), Marked(Slice(s, xs[0].start, xs[0].end), xs[0].reason)]
          + Segments(s, xs[1..], xs[0].end)
  {
  }

  lemma ShownTwo(p: Segment, q: Segment, rest: seq<Segment>)
    ensures Shown([p, q] + rest) == p.text + q.text + Shown(rest)
  {
    ShownCons(p, [q] + rest);
    ShownCons(q, rest);
    assert [p, q] + rest == [p] + ([q] + rest);
  }

  /** The first gap and highlighted span show the text up to the first issue's end. */
  lemma SegmentsHead(s: string, xs: seq<Issue>, from: nat)
    requires xs != [] && from <= xs[0].start <= xs[0].end <= |s|
    ensures Shown(Segments(s, xs, from)) == s[from..xs[0].end] + Shown(Segments(s, xs[1..], xs[0].end))
  {
    var x := xs[0];
    SegmentsUnfold(s, xs, from);
    ShownTwo(Plain(Slice(s, from, x.start)), Marked(Slice(s, x.start, x.end), x.reason), Segments(s, xs[1..], x.end));
    assert s[from..x.end] == s[from..x.start] + s[x.start..x.end];
  }

  /** For issues in order, within the text and not overlapping, the preview
      shows exactly the text from `from` on. */
  lemma {:induction false} SegmentsCoverText(s: string, xs: seq<Issue>, from: nat)
    requires Placed(s, xs) && from <= |s|
    requires xs != [] ==> from <= xs[0].start
    ensures Shown(Segments(s, xs, from)) == s[from..]
    decreases |xs|
  {
    if xs == [] {
      assert Shown([Plain(s[from..])]) == s[from..] + Shown([]);
    } else {
      var x := xs[0];
      PlacedTail(s, xs);
      SegmentsCoverText(s, xs[1..], x.end);
      SegmentsHead(s, xs, from);
      assert s[from..] == s[from..x.end] + s[x.end..];
    }
  }

  /** The highlighted preview of sorted, disjoint issues reassembles the content. */
  lemma PreviewIsContent(s: string, xs: seq<Issue>)
    requires Placed(s, xs)
    ensures Shown(Segments(s, xs, 0)) == s
  {
    SegmentsCoverText(s, xs, 0);
  }

  /** The k-th highlighted span shows the k-th issue's own text and reason. */
  lemma {:induction false} MarkedSpan(s: string, xs: seq<Issue>, from: nat, k: nat)
    requires k < |xs| && ValidIn(s, xs[k])
    ensures 2 * k + 1 < |Segments(s, xs, from)|
    ensures Segments(s, xs, from)[2 * k + 1] == Marked(xs[k].text, xs[k].reason)
    decreases k
  {
    SegmentCount(s, xs, from);
    if k > 0 {
      MarkedSpan(s, xs[1..], xs[0].end, k - 1);
    }
  }

  /** The spans of the two overlapping issues of "very  good": an empty
      gap, the whole text, an empty gap (the second issue starts before
      the first ends), the double space and the tail after it. */
  lemma OverlapSegments(s: string, a: Issue, b: Issue)
    requires s == "very  good"
    requires a == Issue(0, 10, s, "great", "Stronger, more natural word choice")
    requires b == Issue(4, 6, DoubleSpace, " ", DoubleSpaceReason)
    ensures Segments(s, [a, b], 0)
         == [Plain([]), Marked(s, a.reason), Plain([]), Marked("  ", b.reason), Plain("good")]
  {
    assert Slice(s, 10, 4) == [];
    assert Slice(s, 4, 6) == "  ";
    assert SliceFrom(s, 6) == "good";
    assert Slice(s, 0, 0) == [] && Slice(s, 0, 10) == s;
    assert [a, b][1..] == [b];
    assert [b][1..] == [];
    assert Segments(s, [], 6) == [Plain("good")];
    assert Segments(s, [b], 10) == [Plain([]), Marked("  ", b.reason), Plain("good")];
  }

  /** Overlapping issues, such as the two that "very  good" yields, make the
      preview repeat text: the gap after the first is empty and the second
      is shown again. */
  lemma PreviewRepeatsOverlap(s: string)
    requires s == "very  good"
    ensures Shown(Segments(s, [Issue(0, 10, s, "great", "Stronger, more natural word choice"),
                               Issue(4, 6, DoubleSpace, " ", DoubleSpaceReason)], 0))
         == "very  good  good"
  {
    var a := Issue(0, 10, s, "great", "Stronger, more natural word choice");
    var b := Issue(4, 6, DoubleSpace, " ", DoubleSpaceReason);
    OverlapSegments(s, a, b);
    var good := Plain("good");
    var space := Marked("  ", b.reason);
    ShownCons(good, []);
    ShownCons(space, [good]);
    ShownCons(Plain([]), [space, good]);
    ShownCons(Marked(s, a.reason), [Plain([]), space, good]);
    ShownCons(Plain([]), [Marked(s, a.reason), Plain([]), space, good]);
  }

  // ---------------------------------------------------------------------
  // Revise button (mock)
  // ---------------------------------------------------------------------

  /** `/\b(I am|I'm)\b/g` */
  const IAm: WellFormed := Pattern([["I am"], ["I'm"]], false)
  const CompletionMarker: string := "\n\n[AI revision completed]"

  /** `handleRevise`: both global replaces, then the completion marker. */
  function Revise(content: string): (r: string)
    ensures |r| >= |CompletionMarker|
    ensures r[|r| - |CompletionMarker|..] == CompletionMarker
  {
    var once := ReplaceAll(IAm, content, "I am", 0);
    ReplaceAll(VeryGood, once, "great", 0) + CompletionMarker
  }
}
