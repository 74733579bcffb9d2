/**
 * The progress and table-of-contents logic of src/components/ReportViewer.tsx:
 * graph events move the timeline step forward through a fixed table, and
 * markdown headers of the finished report become table-of-contents items
 * whose ids are slugs of their titles.
 */
module Viewer {
  import opened Wrappers
  import Text

  // ------------------------------------------------------------ progress

  /** The step ids, in order, that the step update compares by position. */
  const Steps: seq<string> := ["plan_report", "search_web", "write_section", "compile_report"]

  /** `xs.indexOf(x)`: the first position of `x`, or -1. */
  function IndexOf(xs: seq<string>, x: string): (i: int)
    ensures -1 <= i < |xs|
    ensures i >= 0 ==> xs[i] == x && forall j :: 0 <= j < i ==> xs[j] != x
    ensures i == -1 <==> x !in xs
  {
    if |xs| == 0 then -1
    else if xs[0] == x then 0
    else
      var j := IndexOf(xs[1..], x);
      if j == -1 then -1 else j + 1
  }

  /** `s.split('.').pop()`: the text after the last `.`, or all of `s`. */
  function LastSegment(s: string): (r: string)
    ensures '.' !in r
    ensures |r| <= |s| && r == s[|s| - |r|..]
    ensures |r| == |s| || s[|s| - |r| - 1] == '.'
  {
    if |s| == 0 || s[|s| - 1] == '.' then ""
    else
      var r := LastSegment(s[..|s| - 1]);
      SuffixSnoc(s, r);
      r + [s[|s| - 1]]
  }

  /** A suffix of `s` without its last character, followed by that character, is a suffix of `s`. */
  lemma SuffixSnoc(s: string, r: string)
    requires |s| > 0 && |r| < |s| && r == s[..|s| - 1][|s| - 1 - |r|..]
    ensures r + [s[|s| - 1]] == s[|s| - 1 - |r|..]
    ensures |r| + 1 < |s| ==> s[..|s| - 1][|s| - 2 - |r|] == s[|s| - 2 - |r|]
  {
  }

  /** The fixed node-to-step table; any other node maps to no step. */
  function StepFor(node: string): (r: Option<string>)
    ensures r == Some("search_web") <==> node == "plan_report"
    ensures r == Some("write_section") <==> node == "search_web"
    ensures r == Some("compile_report") <==> node == "write_section"
    ensures r == Some("complete") <==> node == "compile_report"
    ensures r.None? <==> node !in Steps
  {
    if node == "plan_report" then Some("search_web")
    else if node == "search_web" then Some("write_section")
    else if node == "write_section" then Some("compile_report")
    else if node == "compile_report" then Some("complete")
    else None
  }

  /** The functional step update: move to `next` only if it lies further along `Steps`. */
  function NextStep(prev: string, next: string): (r: string)
    ensures r == next || r == prev
    ensures r == next <==> IndexOf(Steps, next) > IndexOf(Steps, prev) || next == prev
  {
    if IndexOf(Steps, next) > IndexOf(Steps, prev) then next else prev
  }

  /** The update never moves backwards along `Steps`. */
  lemma NextStepMonotone(prev: string, next: string)
    ensures IndexOf(Steps, NextStep(prev, next)) >= IndexOf(Steps, prev)
    ensures prev in Steps ==> NextStep(prev, next) in Steps
  {
  }

  /** `'complete'` is not in `Steps`, so the update never produces it from another step. */
  lemma NextStepNeverCompletes(prev: string, next: string)
    requires prev != "complete"
    ensures NextStep(prev, next) != "complete"
  {
    assert IndexOf(Steps, "complete") == -1;
  }

  /** What the viewer keeps between events. */
  datatype ViewerState = ViewerState(
    report: Option<string>,
    isLoading: bool,
    timelineStep: string,
    completionScheduled: bool,
    closed: bool)

  /** The state when a new topic starts streaming, given the app's current step. */
  function StartViewing(timelineStep: string): (v: ViewerState)
    ensures v.report.None? && v.isLoading && !v.closed && !v.completionScheduled
    ensures v.timelineStep == timelineStep
  {
    ViewerState(None, true, timelineStep, false, false)
  }

  /** `diff.finished_report` is truthy: present and not empty. */
  predicate Truthy(finishedReport: Option<string>)
  {
    finishedReport.Some? && finishedReport.value != ""
  }

  /**
   * One `step` event. A closed stream delivers nothing. The mapped step goes
   * through the monotone update; then the exact, un-prefixed node
   * `compile_report` carrying a report shows it, stops loading, sets the
   * step to `compile_report`, schedules `complete` and closes the stream.
   */
  function OnStep(v: ViewerState, node: string, finishedReport: Option<string>): (r: ViewerState)
    ensures v.closed ==> r == v
    ensures !v.closed && !(node == "compile_report" && Truthy(finishedReport)) ==>
      r == v.(timelineStep := match StepFor(LastSegment(node))
                              case Some(next) => NextStep(v.timelineStep, next)
                              case None => v.timelineStep)
    ensures !v.closed && node == "compile_report" && Truthy(finishedReport) ==>
      r == v.(report := finishedReport, isLoading := false, timelineStep := "compile_report",
              completionScheduled := true, closed := true)
  {
    if v.closed then v
    else
      var stepped := match StepFor(LastSegment(node))
        case Some(next) => v.(timelineStep := NextStep(v.timelineStep, next))
        case None => v;
      if node == "compile_report" && Truthy(finishedReport) then
        stepped.(report := finishedReport, isLoading := false, timelineStep := "compile_report",
                 completionScheduled := true, closed := true)
      else stepped
  }

  /** The zero-delay timeout: the scheduled `complete` step. */
  function OnTimeout(v: ViewerState): (r: ViewerState)
    ensures v.completionScheduled ==> r == v.(timelineStep := "complete", completionScheduled := false)
    ensures !v.completionScheduled ==> r == v
  {
    if v.completionScheduled then v.(timelineStep := "complete", completionScheduled := false) else v
  }

  /**
   * Events other than the final report only move the step forward along
   * `Steps` and never reach `complete`.
   */
  lemma OnStepAdvances(v: ViewerState, node: string, finishedReport: Option<string>)
    requires v.timelineStep != "complete"
    requires !(node == "compile_report" && Truthy(finishedReport))
    ensures IndexOf(Steps, OnStep(v, node, finishedReport).timelineStep) >= IndexOf(Steps, v.timelineStep)
    ensures OnStep(v, node, finishedReport).timelineStep != "complete"
    ensures OnStep(v, node, finishedReport).report == v.report
  {
    match StepFor(LastSegment(node))
    case Some(next) =>
      NextStepMonotone(v.timelineStep, next);
      NextStepNeverCompletes(v.timelineStep, next);
    case None =>
  }

  /** A sub-graph node such as `build_section.write_section` moves the step, but never delivers the report. */
  lemma PrefixedNodeDoesNotFinish(v: ViewerState, prefix: string, finishedReport: Option<string>)
    requires !v.closed
    ensures var r := OnStep(v, prefix + ".compile_report", finishedReport);
      r.report == v.report && !r.closed && r.timelineStep == NextStep(v.timelineStep, "complete")
  {
    var node := prefix + ".compile_report";
    assert node[|prefix|] == '.';
    assert node != "compile_report" by {
      assert |node| > |"compile_report"|;
    }
    assert node[|node| - |"compile_report"|..] == "compile_report";
    LastSegmentAfterDot(node, |prefix|);
  }

  /** If `s[i]` is the last `.`, the last segment is what follows it. */
  lemma {:induction false} LastSegmentAfterDot(s: string, i: nat)
    requires i < |s| && s[i] == '.' && '.' !in s[i + 1..]
    ensures LastSegment(s) == s[i + 1..]
    decreases |s|
  {
    if i < |s| - 1 {
      var p := s[..|s| - 1];
      assert s[|s| - 1] != '.' by {
        assert s[i + 1..][|s| - 1 - (i + 1)] == s[|s| - 1];
      }
      assert p[i] == '.' && p[i + 1..] + [s[|s| - 1]] == s[i + 1..];
      assert '.' !in p[i + 1..] by {
        assert p[i + 1..] == s[i + 1..][..|s| - 1 - (i + 1)];
      }
      LastSegmentAfterDot(p, i);
    }
  }

  /**
   * The final report: starting from any step, delivering it and the
   * timeout leave the report shown, loading stopped, the stream closed
   * and the step `complete`.
   */
  lemma FinalReportCompletes(v: ViewerState, report: string)
    requires !v.closed && report != ""
    ensures var r := OnTimeout(OnStep(v, "compile_report", Some(report)));
      r.report == Some(report) && !r.isLoading && r.closed && r.timelineStep == "complete"
  {
  }

  // ---------------------------------------------------- table of contents

  /** One entry of the table of contents (src/types.ts). */
  datatype TableOfContentsItem = TableOfContentsItem(id: string, title: string, level: int)

  /** A line terminator for JavaScript regular expressions. */
  predicate IsLineTerminator(c: char)
  {
    c == '\n' || c == '\r' || c == '\U{2028}' || c == '\U{2029}'
  }

  /** `\s` in a JavaScript regular expression; also what `trim` removes. */
  predicate IsJsSpace(c: char)
  {
    c == '\t' || c == '\n' || c == '\U{0B}' || c == '\U{0C}' || c == '\r' || c == ' '
    || c == '\U{A0}' || c == '\U{1680}' || ('\U{2000}' <= c <= '\U{200A}')
    || c == '\U{2028}' || c == '\U{2029}' || c == '\U{202F}' || c == '\U{205F}'
    || c == '\U{3000}' || c == '\U{FEFF}'
  }

  /** `\w` without the `u` flag: ASCII letters, digits and `_`. */
  predicate IsWordChar(c: char)
  {
    ('a' <= c <= 'z') || ('A' <= c <= 'Z') || ('0' <= c <= '9') || c == '_'
  }

  /** `^` under the `m` flag. */
  predicate LineStart(s: string, p: nat)
    requires p <= |s|
  {
    p == 0 || IsLineTerminator(s[p - 1])
  }

  /** The number of `#` from `p` on. */
  function HashRun(s: string, p: nat): (n: nat)
    requires p <= |s|
    ensures p + n <= |s|
    decreases |s| - p
  {
    if p == |s| || s[p] != '#' then 0 else 1 + HashRun(s, p + 1)
  }

  /** `HashRun` counts exactly the `#` run. */
  lemma {:induction false} HashRunFacts(s: string, p: nat)
    requires p <= |s|
    ensures forall k :: p <= k < p + HashRun(s, p) ==> s[k] == '#'
    ensures p + HashRun(s, p) == |s| || s[p + HashRun(s, p)] != '#'
    decreases |s| - p
  {
    if p < |s| && s[p] == '#' {
      HashRunFacts(s, p + 1);
    }
  }

  /** The end of the run of `\s` characters from `p` on. */
  function SpaceEnd(s: string, p: nat): (e: nat)
    requires p <= |s|
    ensures p <= e <= |s|
    decreases |s| - p
  {
    if p == |s| || !IsJsSpace(s[p]) then p else SpaceEnd(s, p + 1)
  }

  /** `SpaceEnd` stops at the first character that is not whitespace. */
  lemma {:induction false} SpaceEndFacts(s: string, p: nat)
    requires p <= |s|
    ensures forall k :: p <= k < SpaceEnd(s, p) ==> IsJsSpace(s[k])
    ensures SpaceEnd(s, p) == |s| || !IsJsSpace(s[SpaceEnd(s, p)])
    decreases |s| - p
  {
    if p < |s| && IsJsSpace(s[p]) {
      SpaceEndFacts(s, p + 1);
    }
  }

  /** Where `$` first holds from `p` on: the next line terminator or the end. */
  function LineEnd(s: string, p: nat): (e: nat)
    requires p <= |s|
    ensures p <= e <= |s|
    decreases |s| - p
  {
    if p == |s| || IsLineTerminator(s[p]) then p else LineEnd(s, p + 1)
  }

  /** `LineEnd` stops at the first line terminator. */
  lemma {:induction false} LineEndFacts(s: string, p: nat)
    requires p <= |s|
    ensures forall k :: p <= k < LineEnd(s, p) ==> !IsLineTerminator(s[k])
    ensures LineEnd(s, p) == |s| || IsLineTerminator(s[LineEnd(s, p)])
    decreases |s| - p
  {
    if p < |s| && !IsLineTerminator(s[p]) {
      LineEndFacts(s, p + 1);
    }
  }

  /**
   * The backtracking of the greedy `\s+` before `(.+)`: the largest title
   * start in `lo + 1 .. q` whose character `.` can match.
   */
  function LastTitleStart(s: string, lo: nat, q: nat): (r: Option<nat>)
    requires lo <= q <= |s|
    ensures r.Some? ==> lo < r.value <= q && r.value < |s|
    decreases q
  {
    if q <= lo then None
    else if q < |s| && !IsLineTerminator(s[q]) then Some(q)
    else LastTitleStart(s, lo, q - 1)
  }

  /** `LastTitleStart` finds the largest such start, and none exists when it finds nothing. */
  lemma {:induction false} LastTitleStartFacts(s: string, lo: nat, q: nat)
    requires lo <= q <= |s|
    ensures var r := LastTitleStart(s, lo, q);
      (r.Some? ==> !IsLineTerminator(s[r.value]))
      && (r.Some? ==> forall k :: r.value < k <= q && k < |s| ==> IsLineTerminator(s[k]))
      && (r.None? ==> forall k :: lo < k <= q && k < |s| ==> IsLineTerminator(s[k]))
    decreases q
  {
    if lo < q && !(q < |s| && !IsLineTerminator(s[q])) {
      LastTitleStartFacts(s, lo, q - 1);
    }
  }

  /** A match of `/^(#{1,3})\s+(.+)$/m`: where it starts, the `#` count, and the title's span. */
  datatype Match = Match(start: nat, level: nat, titleStart: nat, end: nat)

  /**
   * The match of the header pattern at `p`, if any. More than three `#`
   * cannot match, since fewer `#` leave a `#` where `\s` is needed. The
   * whitespace may run over line breaks; the title runs to the line's end.
   */
  function MatchAt(s: string, p: nat): (r: Option<Match>)
    requires p <= |s|
    ensures r.Some? ==> (r.value.start == p && 1 <= r.value.level <= 3
      && p + r.value.level < r.value.titleStart < r.value.end <= |s|)
  {
    if !LineStart(s, p) then None
    else
      var h := HashRun(s, p);
      if h == 0 || h > 3 || p + h == |s| || !IsJsSpace(s[p + h]) then None
      else
        var e := SpaceEnd(s, p + h);
        match LastTitleStart(s, p + h, e)
        case None => None
        case Some(q) =>
          LastTitleStartFacts(s, p + h, e);
          Some(Match(p, h, q, LineEnd(s, q)))
  }

  /**
   * What a match is: at a line start, one to three `#`, a whitespace run
   * (possibly over line breaks), then a title of at least one character
   * running to the end of its line.
   */
  lemma MatchAtShape(s: string, p: nat)
    requires p <= |s| && MatchAt(s, p).Some?
    ensures var m := MatchAt(s, p).value;
      LineStart(s, p)
      && (forall k :: p <= k < p + m.level ==> s[k] == '#')
      && (p + m.level == |s| || s[p + m.level] != '#')
      && (forall k :: p + m.level <= k < m.titleStart ==> IsJsSpace(s[k]))
      && (forall k :: m.titleStart <= k < m.end ==> !IsLineTerminator(s[k]))
      && (m.end == |s| || IsLineTerminator(s[m.end]))
  {
    var h := HashRun(s, p);
    HashRunFacts(s, p);
    SpaceEndFacts(s, p + h);
    LastTitleStartFacts(s, p + h, SpaceEnd(s, p + h));
    LineEndFacts(s, MatchAt(s, p).value.titleStart);
  }

  /** Four `#` in a row never start a header. */
  lemma FourHashesNoMatch(s: string, p: nat)
    requires p + 4 <= |s| && s[p] == '#' && s[p + 1] == '#' && s[p + 2] == '#' && s[p + 3] == '#'
    ensures MatchAt(s, p).None?
  {
    if LineStart(s, p) {
      var h := HashRun(s, p);
      HashRunFacts(s, p);
      assert h >= 4;
    }
  }

  /** `exec` from `lastIndex`: the first position from there on where the pattern matches. */
  function NextMatch(s: string, from: nat): (r: Option<Match>)
    requires from <= |s|
    ensures r.Some? ==> from <= r.value.start <= |s| && MatchAt(s, r.value.start) == r
    decreases |s| - from
  {
    if MatchAt(s, from).Some? then MatchAt(s, from)
    else if from == |s| then None
    else NextMatch(s, from + 1)
  }

  /** `exec` finds the first match: none starts between `from` and the one it returns. */
  lemma {:induction false} NextMatchFirst(s: string, from: nat, p: nat)
    requires from <= p <= |s| && MatchAt(s, p).Some?
    ensures NextMatch(s, from).Some? && NextMatch(s, from).value.start <= p
    decreases |s| - from
  {
    if MatchAt(s, from).None? {
      assert from != p;
      NextMatchFirst(s, from + 1, p);
    }
  }

  /** Every match the `exec` loop finds from `from` on, in order. */
  function Matches(s: string, from: nat): (ms: seq<Match>)
    requires from <= |s|
    ensures forall i :: 0 <= i < |ms| ==>
      from <= ms[i].start < ms[i].titleStart < ms[i].end <= |s| && 1 <= ms[i].level <= 3
    ensures forall i :: 0 <= i < |ms| ==> MatchAt(s, ms[i].start) == Some(ms[i])
    decreases |s| - from
  {
    match NextMatch(s, from)
    case None => []
    case Some(m) => [m] + Matches(s, m.end)
  }

  /** `trim`: drops leading and trailing `\s` characters. */
  function JsTrim(s: string): (r: string)
    ensures r == "" || (!IsJsSpace(r[0]) && !IsJsSpace(r[|r| - 1]))
    ensures |r| <= |s|
    decreases |s|
  {
    if |s| == 0 then s
    else if IsJsSpace(s[0]) then JsTrim(s[1..])
    else if IsJsSpace(s[|s| - 1]) then JsTrim(s[..|s| - 1])
    else s
  }

  /** `r` is `s[a..b]`, and every character of `s` outside that slice is whitespace. */
  predicate SliceBetweenSpace(s: string, r: string, a: nat, b: nat)
  {
    a <= b <= |s| && r == s[a..b]
    && (forall k :: 0 <= k < a ==> IsJsSpace(s[k]))
    && (forall k :: b <= k < |s| ==> IsJsSpace(s[k]))
  }

  /**
   * `trim` removes exactly the whitespace around the text: the result is a
   * slice of the input with only whitespace before and after it (and, by
   * JsTrim's own contract, no whitespace at either end of its own).
   */
  lemma {:induction false} JsTrimSlice(s: string)
    ensures exists a: nat, b: nat :: SliceBetweenSpace(s, JsTrim(s), a, b)
    decreases |s|
  {
    if |s| == 0 {
      assert SliceBetweenSpace(s, JsTrim(s), 0, 0);
    } else if IsJsSpace(s[0]) {
      JsTrimSlice(s[1..]);
      var a: nat, b: nat :| SliceBetweenSpace(s[1..], JsTrim(s[1..]), a, b);
      SliceAfterSpace(s, JsTrim(s), a, b);
    } else if IsJsSpace(s[|s| - 1]) {
      JsTrimSlice(s[..|s| - 1]);
      var a: nat, b: nat :| SliceBetweenSpace(s[..|s| - 1], JsTrim(s[..|s| - 1]), a, b);
      SliceBeforeSpace(s, JsTrim(s), a, b);
    } else {
      assert SliceBetweenSpace(s, JsTrim(s), 0, |s|);
    }
  }

  /** Putting whitespace in front of the text shifts the slice by one. */
  lemma SliceAfterSpace(s: string, r: string, a: nat, b: nat)
    requires |s| > 0 && IsJsSpace(s[0]) && SliceBetweenSpace(s[1..], r, a, b)
    ensures SliceBetweenSpace(s, r, a + 1, b + 1)
  {
    var t := s[1..];
    assert t[a..b] == s[a + 1..b + 1];
    forall k | 0 <= k < a + 1 ensures IsJsSpace(s[k]) {
      if k > 0 {
        assert s[k] == t[k - 1];
      }
    }
    forall k | b + 1 <= k < |s| ensures IsJsSpace(s[k]) {
      assert s[k] == t[k - 1];
    }
  }

  /** Putting whitespace after the text keeps the slice where it is. */
  lemma SliceBeforeSpace(s: string, r: string, a: nat, b: nat)
    requires |s| > 0 && IsJsSpace(s[|s| - 1]) && SliceBetweenSpace(s[..|s| - 1], r, a, b)
    ensures SliceBetweenSpace(s, r, a, b)
  {
    var t := s[..|s| - 1];
    assert t[a..b] == s[a..b];
    forall k | 0 <= k < a ensures IsJsSpace(s[k]) {
      assert s[k] == t[k];
    }
    forall k | b <= k < |s| ensures IsJsSpace(s[k]) {
      if k < |t| {
        assert s[k] == t[k];
      }
    }
  }

  /** ASCII `toLowerCase`. */
  function Lower(s: string): (r: string)
    ensures |r| == |s|
    ensures forall i :: 0 <= i < |s| ==>
      r[i] == if 'A' <= s[i] <= 'Z' then (s[i] as int + 32) as char else s[i]
  {
    seq(|s|, i requires 0 <= i < |s| => if 'A' <= s[i] <= 'Z' then (s[i] as int + 32) as char else s[i])
  }

  /** `.replace(/[^\w\s]/g, '')`: keeps word characters and whitespace, in order. */
  function KeepWordAndSpace(s: string): (r: string)
    ensures forall i :: 0 <= i < |r| ==> IsWordChar(r[i]) || IsJsSpace(r[i])
    ensures |r| <= |s|
  {
    if |s| == 0 then ""
    else KeepWordAndSpace(s[..|s| - 1]) + (if IsWordChar(s[|s| - 1]) || IsJsSpace(s[|s| - 1]) then [s[|s| - 1]] else [])
  }

  /** The symbol filter works character by character: it distributes over concatenation. */
  lemma {:induction false} KeepWordAndSpaceAppend(a: string, b: string)
    ensures KeepWordAndSpace(a + b) == KeepWordAndSpace(a) + KeepWordAndSpace(b)
    decreases |b|
  {
    if |b| == 0 {
      assert a + b == a;
    } else {
      var init := b[..|b| - 1];
      var c := b[|b| - 1];
      assert (a + b)[..|a + b| - 1] == a + init;
      assert (a + b)[|a + b| - 1] == c;
      KeepWordAndSpaceAppend(a, init);
      assert b == init + [c];
      var kc: string := if IsWordChar(c) || IsJsSpace(c) then [c] else [];
      assert KeepWordAndSpace(b) == KeepWordAndSpace(init) + kc by {
        assert b[..|b| - 1] == init;
      }
      Text.AppendAssoc(KeepWordAndSpace(a), KeepWordAndSpace(init), kc);
    }
  }

  /** One character is kept exactly when it is a word character or whitespace. */
  lemma KeepWordAndSpaceChar(c: char)
    ensures KeepWordAndSpace([c]) == if IsWordChar(c) || IsJsSpace(c) then [c] else []
  {
    assert [c][..0] == [];
  }

  /**
   * `.replace(/\s+/g, '-')` from a point where the previous character was
   * (`afterSpace`) or was not whitespace: each whitespace run becomes one `-`.
   */
  function CollapseSpaces(s: string, afterSpace: bool): string
  {
    if |s| == 0 then ""
    else if IsJsSpace(s[0]) then (if afterSpace then "" else "-") + CollapseSpaces(s[1..], true)
    else [s[0]] + CollapseSpaces(s[1..], false)
  }

  /** The id a title gets: lowercased, stripped of symbols, with `-` for each whitespace run. */
  function Slug(title: string): string
  {
    CollapseSpaces(KeepWordAndSpace(Lower(title)), false)
  }

  /** No character of `r` is whitespace. */
  predicate NoSpace(r: string)
  {
    forall i :: 0 <= i < |r| ==> !IsJsSpace(r[i])
  }

  /** Every character of `r` is whitespace. */
  predicate AllSpace(r: string)
  {
    forall i :: 0 <= i < |r| ==> IsJsSpace(r[i])
  }

  /**
   * Text without whitespace is copied unchanged, and a non-empty word in
   * front of more text is copied and leaves the rest to start afresh.
   */
  lemma {:induction false} CollapseSpacesWord(w: string, rest: string, afterSpace: bool)
    requires NoSpace(w)
    ensures CollapseSpaces(w, afterSpace) == w
    ensures |w| > 0 ==> CollapseSpaces(w + rest, afterSpace) == w + CollapseSpaces(rest, false)
    decreases |w|
  {
    if |w| > 0 {
      var tail := w[1..];
      assert NoSpace(tail) by {
        forall i | 0 <= i < |tail| ensures !IsJsSpace(tail[i]) {
          assert tail[i] == w[i + 1];
        }
      }
      assert !IsJsSpace(w[0]);
      CollapseSpacesWord(tail, rest, false);
      assert w == [w[0]] + tail;
      assert (w + rest)[0] == w[0] && (w + rest)[1..] == tail + rest;
      if |tail| == 0 {
        assert tail + rest == rest;
      }
      Text.AppendAssoc([w[0]], tail, CollapseSpaces(rest, false));
    }
  }

  /** A non-empty whitespace run becomes one `-`, or nothing right after whitespace. */
  lemma {:induction false} CollapseSpacesRun(sp: string, rest: string, afterSpace: bool)
    requires |sp| > 0 && AllSpace(sp)
    ensures CollapseSpaces(sp + rest, afterSpace)
         == (if afterSpace then "" else "-") + CollapseSpaces(rest, true)
    decreases |sp|
  {
    var tail := sp[1..];
    assert (sp + rest)[0] == sp[0] && (sp + rest)[1..] == tail + rest;
    if |tail| == 0 {
      assert tail + rest == rest;
    } else {
      assert AllSpace(tail) by {
        forall i | 0 <= i < |tail| ensures IsJsSpace(tail[i]) {
          assert tail[i] == sp[i + 1];
        }
      }
      CollapseSpacesRun(tail, rest, true);
    }
  }

  /** No two dashes stand next to each other in `r`. */
  predicate NoDoubleDash(r: string)
  {
    forall i :: 0 <= i && i + 1 < |r| ==> !(r[i] == '-' && r[i + 1] == '-')
  }

  /** Every character of `r` is a dash or occurs in `s`. */
  predicate DashOrFrom(r: string, s: string)
  {
    forall i :: 0 <= i < |r| ==> r[i] == '-' || r[i] in s
  }

  /** A dash-free text collapses to one without whitespace or doubled dashes, built from its own characters. */
  lemma {:induction false} CollapseSpacesShape(s: string, afterSpace: bool)
    requires '-' !in s
    ensures NoSpace(CollapseSpaces(s, afterSpace))
    ensures NoDoubleDash(CollapseSpaces(s, afterSpace))
    ensures DashOrFrom(CollapseSpaces(s, afterSpace), s)
    ensures afterSpace && |CollapseSpaces(s, afterSpace)| > 0 ==> CollapseSpaces(s, afterSpace)[0] != '-'
  {
    if |s| > 0 {
      var tail := s[1..];
      assert '-' !in tail;
      CollapseSpacesShape(tail, IsJsSpace(s[0]));
      var rest := CollapseSpaces(tail, IsJsSpace(s[0]));
      var r := CollapseSpaces(s, afterSpace);
      assert forall c :: c in tail ==> c in s;
      if IsJsSpace(s[0]) {
        if afterSpace {
          assert r == rest;
        } else {
          assert r == "-" + rest;
          assert forall i :: 1 <= i < |r| ==> r[i] == rest[i - 1];
        }
      } else {
        assert r == [s[0]] + rest;
        assert forall i :: 1 <= i < |r| ==> r[i] == rest[i - 1];
      }
    }
  }

  /**
   * A slug holds no whitespace and no two dashes in a row; every
   * character is a dash or an ASCII word character other than a capital.
   */
  lemma SlugShape(title: string)
    ensures NoSpace(Slug(title)) && NoDoubleDash(Slug(title))
    ensures forall i :: 0 <= i < |Slug(title)| ==>
      Slug(title)[i] == '-' || (IsWordChar(Slug(title)[i]) && !('A' <= Slug(title)[i] <= 'Z'))
  {
    var lowered := Lower(title);
    var kept := KeepWordAndSpace(lowered);
    KeptFrom(lowered);
    CollapseSpacesShape(kept, false);
    var r := CollapseSpaces(kept, false);
    assert DashOrFrom(r, kept);
    forall i | 0 <= i < |r| && r[i] != '-' ensures IsWordChar(r[i]) && !('A' <= r[i] <= 'Z') {
      assert r[i] in kept;
    }
  }

  /** What the symbol filter keeps comes from its input and is a word character or whitespace. */
  lemma {:induction false} KeptFrom(s: string)
    requires forall i :: 0 <= i < |s| ==> !('A' <= s[i] <= 'Z')
    ensures forall c :: c in KeepWordAndSpace(s) ==> (IsWordChar(c) || IsJsSpace(c)) && !('A' <= c <= 'Z') && c != '-'
  {
    if |s| > 0 {
      KeptFrom(s[..|s| - 1]);
    }
  }

  /** The item a match gives: the trimmed title, its slug and the `#` count. */
  function ItemFor(s: string, m: Match): (item: TableOfContentsItem)
    requires m.titleStart <= m.end <= |s|
  {
    var title := JsTrim(s[m.titleStart..m.end]);
    TableOfContentsItem(Slug(title), title, m.level)
  }

  /** The items of a run of matches, in order. */
  function ItemsOf(s: string, ms: seq<Match>): (items: seq<TableOfContentsItem>)
    requires forall i :: 0 <= i < |ms| ==> ms[i].titleStart <= ms[i].end <= |s|
    ensures |items| == |ms|
  {
    if |ms| == 0 then [] else [ItemFor(s, ms[0])] + ItemsOf(s, ms[1..])
  }

  /** Each item is the one its match gives. */
  lemma {:induction false} ItemsOfAt(s: string, ms: seq<Match>, i: nat)
    requires forall i :: 0 <= i < |ms| ==> ms[i].titleStart <= ms[i].end <= |s|
    requires i < |ms|
    ensures ItemsOf(s, ms)[i] == ItemFor(s, ms[i])
  {
    if i > 0 {
      ItemsOfAt(s, ms[1..], i - 1);
    }
  }

  /** The items of the matches from `from` on. */
  function TocFrom(report: string, from: nat): seq<TableOfContentsItem>
    requires from <= |report|
  {
    ItemsOf(report, Matches(report, from))
  }

  /** The table of contents of a report: one item per match, in document order. */
  function TocItems(report: string): seq<TableOfContentsItem>
  {
    TocFrom(report, 0)
  }

  /** The matches from `from` on: the next one, then those after it. */
  lemma MatchesStep(s: string, from: nat)
    requires from <= |s|
    ensures NextMatch(s, from).None? ==> Matches(s, from) == []
    ensures NextMatch(s, from).Some? ==>
      Matches(s, from) == [NextMatch(s, from).value] + Matches(s, NextMatch(s, from).value.end)
  {
  }

  /** The items from `from` on: the next match's item, then the items after it; none without a match. */
  lemma TocFromStep(s: string, from: nat)
    requires from <= |s|
    ensures NextMatch(s, from).None? ==> TocFrom(s, from) == []
    ensures NextMatch(s, from).Some? ==>
      TocFrom(s, from) == [ItemFor(s, NextMatch(s, from).value)] + TocFrom(s, NextMatch(s, from).value.end)
  {
    MatchesStep(s, from);
    if NextMatch(s, from).Some? {
      var m := NextMatch(s, from).value;
      ItemsOfCons(s, m, Matches(s, m.end));
    }
  }

  /** The items of a match followed by more matches: its item, then theirs. */
  lemma ItemsOfCons(s: string, m: Match, rest: seq<Match>)
    requires m.titleStart <= m.end <= |s|
    requires forall i :: 0 <= i < |rest| ==> rest[i].titleStart <= rest[i].end <= |s|
    ensures ItemsOf(s, [m] + rest) == [ItemFor(s, m)] + ItemsOf(s, rest)
  {
    assert ([m] + rest)[1..] == rest;
  }

  /** The `exec` loop of the table-of-contents effect. */
  method ExtractToc(report: string) returns (items: seq<TableOfContentsItem>)
    ensures items == TocItems(report)
  {
    items := [];
    var lastIndex := 0;
    var found := NextMatch(report, lastIndex);
    while found.Some?
      invariant lastIndex <= |report| && found == NextMatch(report, lastIndex)
      invariant items + TocFrom(report, lastIndex) == TocItems(report)
      decreases |report| - lastIndex
    {
      var m := found.value;
      TocFromStep(report, lastIndex);
      var level := m.level;
      var title := JsTrim(report[m.titleStart..m.end]);
      var id := Slug(title);
      items := items + [TableOfContentsItem(id, title, level)];
      lastIndex := m.end;
      found := NextMatch(report, lastIndex);
    }
    TocFromStep(report, lastIndex);
  }

  /** Each match ends before the next one starts. */
  predicate Ordered(ms: seq<Match>)
  {
    forall i, j :: 0 <= i < j < |ms| ==> ms[i].end <= ms[j].start
  }

  /** Some match spans position `p`. */
  predicate Covers(ms: seq<Match>, p: int)
  {
    exists i :: 0 <= i < |ms| && ms[i].start <= p < ms[i].end
  }

  /** A match ending before an ordered run starts keeps the run ordered. */
  lemma OrderedCons(m: Match, rest: seq<Match>)
    requires Ordered(rest) && forall j :: 0 <= j < |rest| ==> m.end <= rest[j].start
    ensures Ordered([m] + rest)
  {
    var ms := [m] + rest;
    forall i, j | 0 <= i < j < |ms| ensures ms[i].end <= ms[j].start {
      assert ms[j] == rest[j - 1];
      if i > 0 {
        assert ms[i] == rest[i - 1];
      }
    }
  }

  /** A position spanned by the first match or by one of the rest is spanned by the run. */
  lemma CoversCons(m: Match, rest: seq<Match>, p: int)
    requires (m.start <= p < m.end) || Covers(rest, p)
    ensures Covers([m] + rest, p)
  {
    var ms := [m] + rest;
    if m.start <= p < m.end {
      assert ms[0] == m;
    } else {
      var i :| 0 <= i < |rest| && rest[i].start <= p < rest[i].end;
      assert ms[i + 1] == rest[i];
    }
  }

  /** The matches are in document order and do not overlap. */
  lemma {:induction false} MatchesOrdered(s: string, from: nat)
    requires from <= |s|
    ensures Ordered(Matches(s, from))
    decreases |s| - from
  {
    MatchesStep(s, from);
    match NextMatch(s, from)
    case None =>
    case Some(m) =>
      MatchesOrdered(s, m.end);
      OrderedCons(m, Matches(s, m.end));
  }

  /**
   * Nothing is skipped: every position from `from` on where the pattern
   * matches either starts a found match or lies inside one (the `\s+` may
   * run into the next lines).
   */
  lemma {:induction false} MatchesComplete(s: string, from: nat, p: nat)
    requires from <= p <= |s| && MatchAt(s, p).Some?
    ensures Covers(Matches(s, from), p)
    decreases |s| - from
  {
    NextMatchFirst(s, from, p);
    MatchesStep(s, from);
    var m := NextMatch(s, from).value;
    if m.end <= p {
      MatchesComplete(s, m.end, p);
    }
    CoversCons(m, Matches(s, m.end), p);
  }

  /**
   * The i-th item comes from the i-th match, which is the pattern's match
   * at its start: its level is the `#` count, its title the trimmed captured
   * text, and its id the slug of that title.
   */
  lemma TocItemsShape(report: string)
    ensures var items := TocItems(report); var ms := Matches(report, 0);
      |items| == |ms|
      && forall i :: 0 <= i < |items| ==>
        MatchAt(report, ms[i].start) == Some(ms[i])
        && items[i].level == ms[i].level && 1 <= items[i].level <= 3
        && items[i].title == JsTrim(report[ms[i].titleStart..ms[i].end])
        && (items[i].title == "" || (!IsJsSpace(items[i].title[0]) && !IsJsSpace(items[i].title[|items[i].title| - 1])))
        && items[i].id == Slug(items[i].title)
  {
    var ms := Matches(report, 0);
    var items := TocItems(report);
    forall i | 0 <= i < |items| ensures items[i] == ItemFor(report, ms[i]) {
      ItemsOfAt(report, ms, i);
    }
  }

  /** `n` hash signs. */
  function Hashes(n: nat): (r: string)
    ensures |r| == n && forall i :: 0 <= i < n ==> r[i] == '#'
  {
    if n == 0 then "" else Hashes(n - 1) + "#"
  }

  /** A header line matches at its start, with the title running to the end. */
  lemma HeaderLineMatch(level: nat, title: string)
    requires 1 <= level <= 3
    requires |title| > 0 && !IsJsSpace(title[0])
    requires forall k :: 0 <= k < |title| ==> !IsLineTerminator(title[k])
    ensures var s := Hashes(level) + " " + title;
      MatchAt(s, 0) == Some(Match(0, level, level + 1, |s|)) && s[level + 1..] == title
  {
    var s := Hashes(level) + " " + title;
    assert s[level] == ' ' && s[level + 1] == title[0];
    assert HashRun(s, 0) == level by {
      HashRunFacts(s, 0);
    }
    assert SpaceEnd(s, level) == level + 1 by {
      assert SpaceEnd(s, level + 1) == level + 1;
    }
    assert LastTitleStart(s, level, level + 1) == Some(level + 1);
    LineEndFacts(s, level + 1);
    var e := LineEnd(s, level + 1);
    assert e == |s|;
    assert s[level + 1..] == title;
  }

  /** Nothing matches at the very end of the text: no `#` is left to read. */
  lemma TocAtEnd(s: string)
    ensures TocFrom(s, |s|) == []
  {
    HashRunFacts(s, |s|);
    assert MatchAt(s, |s|).None?;
    TocFromStep(s, |s|);
  }

  /** A text that matches at 0 up to its end yields the one item of that match. */
  lemma TocOfWholeMatch(s: string, m: Match)
    requires MatchAt(s, 0) == Some(m) && m.end == |s|
    ensures TocItems(s) == [ItemFor(s, m)]
  {
    assert NextMatch(s, 0) == Some(m);
    TocFromStep(s, 0);
    TocAtEnd(s);
  }

  /** A report that is one header line gives exactly its item. */
  lemma SingleHeader(level: nat, title: string)
    requires 1 <= level <= 3
    requires |title| > 0 && !IsJsSpace(title[0])
    requires forall k :: 0 <= k < |title| ==> !IsLineTerminator(title[k])
    ensures TocItems(Hashes(level) + " " + title)
         == [TableOfContentsItem(Slug(JsTrim(title)), JsTrim(title), level)]
  {
    var s := Hashes(level) + " " + title;
    HeaderLineMatch(level, title);
    var m := Match(0, level, level + 1, |s|);
    TocOfWholeMatch(s, m);
    assert s[m.titleStart..m.end] == title;
  }

  /** The effect on `report`: a present, non-empty report replaces the table of contents. */
  method UpdateToc(report: Option<string>, toc: seq<TableOfContentsItem>) returns (r: seq<TableOfContentsItem>)
    ensures Truthy(report) ==> r == TocItems(report.value)
    ensures !Truthy(report) ==> r == toc
  {
    r := toc;
    if Truthy(report) {
      r := ExtractToc(report.value);
    }
  }
}
