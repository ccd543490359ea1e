/**
 Spans of a text turned into marks of its lines (`marks` of `bins/gui/src/doc.rs`), one on
 every line a span touches. Texts are their UTF-8 bytes.
 */
module Marks {
  import opened Prelude
  import opened Highlight

  const NEWLINE: Byte := 10

  datatype Severity = SError | SWarning | SHint
  datatype Problem = Problem(severity: Severity, span: Option<(nat, nat)>)

  // ---- lines of a text

  /** The number of the line position `p` is on. */
  function LineOf(text: Line, p: nat): nat
    requires p <= |text|
  {
    if p == 0 then 0 else LineOf(text, p - 1) + (if text[p - 1] == NEWLINE then 1 else 0)
  }

  /** Where the line of position `p` starts. */
  function StartOf(text: Line, p: nat): (s: nat)
    requires p <= |text|
    ensures s <= p
    ensures s > 0 ==> text[s - 1] == NEWLINE
    ensures forall k :: s <= k < p ==> text[k] != NEWLINE
  {
    if p == 0 then 0 else if text[p - 1] == NEWLINE then p else StartOf(text, p - 1)
  }

  /** Where the line of position `p` ends: at its newline, or with the text. */
  function EndOf(text: Line, p: nat): (e: nat)
    requires p <= |text|
    ensures p <= e <= |text|
    ensures e < |text| ==> text[e] == NEWLINE
    ensures forall k :: p <= k < e ==> text[k] != NEWLINE
    decreases |text| - p
  {
    if p == |text| || text[p] == NEWLINE then p else EndOf(text, p + 1)
  }

  /** Position `p` of the text is column `col` of line `n`. */
  ghost predicate IsAt(text: Line, p: nat, n: nat, col: nat) {
    p < |text| && LineOf(text, p) == n && p - StartOf(text, p) == col
  }

  lemma {:induction false} SameLine(text: Line, p: nat, q: nat)
    requires p <= q <= |text| && forall k :: p <= k < q ==> text[k] != NEWLINE
    ensures LineOf(text, q) == LineOf(text, p) && StartOf(text, q) == StartOf(text, p)
    decreases q - p
  {
    if p < q {
      SameLine(text, p, q - 1);
    }
  }

  // ---- the marks of one span

  /** A mark on each line from `start` to `end`. */
  function SpanMarks(text: Line, start: nat, end: nat, error: bool): seq<Mark>
    requires start <= end <= |text|
    decreases |text| - start
  {
    var lineEnd := EndOf(text, start);
    if lineEnd >= end then [FirstOf(text, start, end, error)]
    else [FirstOf(text, start, end, error)] + SpanMarks(text, lineEnd + 1, end, error)
  }

  function FirstOf(text: Line, start: nat, end: nat, error: bool): Mark
    requires start <= end <= |text|
  {
    var s := StartOf(text, start);
    Mark(LineOf(text, start), start - s, Min(end, EndOf(text, start)) - s, error)
  }

  /** The mark covers the byte at `p`. */
  ghost predicate Covers(text: Line, m: Mark, p: nat) {
    exists col :: m.lo <= col < m.hi && IsAt(text, p, m.line, col)
  }

  ghost predicate Covered(text: Line, ms: seq<Mark>, p: nat) {
    exists k :: 0 <= k < |ms| && Covers(text, ms[k], p)
  }

  /** The mark is on the line of position `p`, and within it. */
  ghost predicate WithinLine(text: Line, m: Mark, p: nat)
    requires p <= |text|
  {
    m.line == LineOf(text, p) && m.lo <= m.hi <= EndOf(text, p) - StartOf(text, p)
  }

  /** The first mark is within its line and covers what the span has there. */
  lemma FirstMark(text: Line, start: nat, end: nat, error: bool, p: nat)
    requires start <= end <= |text|
    ensures WithinLine(text, FirstOf(text, start, end, error), start)
    ensures Covers(text, FirstOf(text, start, end, error), p) <==> start <= p < Min(end, EndOf(text, start))
  {
    var m := FirstOf(text, start, end, error);
    var s := StartOf(text, start);
    var lineEnd := EndOf(text, start);
    SameLine(text, s, start);
    SameLine(text, start, lineEnd);
    if start <= p < Min(end, lineEnd) {
      SameLine(text, start, p);
      assert IsAt(text, p, m.line, p - s);
    }
    if Covers(text, m, p) {
      var col :| m.lo <= col < m.hi && IsAt(text, p, m.line, col);
      SameLineSameStart(text, p, start);
    }
  }

  lemma {:induction false} LinesRise(text: Line, p: nat, q: nat)
    requires p <= q <= |text|
    ensures LineOf(text, p) <= LineOf(text, q)
    ensures (exists k :: p <= k < q && text[k] == NEWLINE) ==> LineOf(text, p) < LineOf(text, q)
    decreases q - p
  {
    if p < q {
      LinesRise(text, p, q - 1);
    }
  }

  /** Two positions on one line have one line start. */
  lemma SameLineSameStart(text: Line, p: nat, q: nat)
    requires p <= |text| && q <= |text| && LineOf(text, p) == LineOf(text, q)
    ensures StartOf(text, p) == StartOf(text, q)
  {
    var a, b := if p <= q then p else q, if p <= q then q else p;
    LinesRise(text, a, b);
    SameLine(text, a, b);
  }

  /** The marks are on consecutive lines from the one of position `p` on, each within its line. */
  ghost predicate OnLines(text: Line, ms: seq<Mark>, p: nat, error: bool)
    requires p <= |text|
    decreases |ms|
  {
    ms == [] ||
    (ms[0].error == error && WithinLine(text, ms[0], p) &&
     (ms[1..] == [] || (EndOf(text, p) < |text| && OnLines(text, ms[1..], EndOf(text, p) + 1, error))))
  }

  /** A span's marks are on consecutive lines from the one it starts on, each within its line. */
  lemma {:induction false} MarksAreOnLines(text: Line, start: nat, end: nat, error: bool)
    requires start <= end <= |text|
    ensures OnLines(text, SpanMarks(text, start, end, error), start, error)
    decreases |text| - start
  {
    var ms, first := SpanMarks(text, start, end, error), FirstOf(text, start, end, error);
    var lineEnd := EndOf(text, start);
    FirstMark(text, start, end, error, start);
    if lineEnd < end {
      var rest := SpanMarks(text, lineEnd + 1, end, error);
      MarksAreOnLines(text, lineEnd + 1, end, error);
      assert ms == [first] + rest && ms[1..] == rest;
    } else {
      assert ms == [first] && ms[1..] == [];
    }
  }

  /** Marks conserve spans: the bytes a span's marks cover are exactly the span's that are not newlines. */
  lemma {:induction false} MarksCoverTheSpan(text: Line, start: nat, end: nat, error: bool, p: nat)
    requires start <= end <= |text|
    ensures Covered(text, SpanMarks(text, start, end, error), p) <==> start <= p < end && text[p] != NEWLINE
    decreases |text| - start
  {
    CoveredStep(text, start, end, error, p);
    if EndOf(text, start) < end {
      MarksCoverTheSpan(text, EndOf(text, start) + 1, end, error, p);
    }
  }

  /** The marks of the lines after the first. */
  function RestOf(text: Line, start: nat, end: nat, error: bool): seq<Mark>
    requires start <= end <= |text|
  {
    if EndOf(text, start) >= end then [] else SpanMarks(text, EndOf(text, start) + 1, end, error)
  }

  lemma CoveredStep(text: Line, start: nat, end: nat, error: bool, p: nat)
    requires start <= end <= |text|
    ensures Covered(text, SpanMarks(text, start, end, error), p) <==>
              start <= p < Min(end, EndOf(text, start)) || Covered(text, RestOf(text, start, end, error), p)
    ensures EndOf(text, start) >= end ==> !Covered(text, RestOf(text, start, end, error), p)
  {
    FirstMark(text, start, end, error, p);
    assert SpanMarks(text, start, end, error) == [FirstOf(text, start, end, error)] + RestOf(text, start, end, error);
    CoveredSplit(text, FirstOf(text, start, end, error), RestOf(text, start, end, error), p);
  }

  lemma CoveredSplit(text: Line, first: Mark, rest: seq<Mark>, p: nat)
    ensures Covered(text, [first] + rest, p) <==> Covers(text, first, p) || Covered(text, rest, p)
  {
    var ms := [first] + rest;
    assert ms[0] == first;
    if Covered(text, rest, p) {
      var k :| 0 <= k < |rest| && Covers(text, rest[k], p);
      assert ms[k + 1] == rest[k];
    }
    if Covered(text, ms, p) {
      var k :| 0 <= k < |ms| && Covers(text, ms[k], p);
      assert k > 0 ==> rest[k - 1] == ms[k];
    }
  }

  // ---- the code

  function Clipped(text: Line, span: (nat, nat)): (nat, nat) {
    (Min(span.0, |text|), Min(span.1, |text|))
  }

  function MarksOf(text: Line, problems: seq<Problem>): seq<Mark> {
    if problems == [] then []
    else MarksOf(text, problems[..|problems| - 1]) + ProblemMarks(text, problems[|problems| - 1])
  }

  function ProblemMarks(text: Line, p: Problem): seq<Mark> {
    if p.severity.SHint? || p.span.None? then []
    else
      var (start, end) := Clipped(text, p.span.value);
      if start >= end then [] else SpanMarks(text, start, end, p.severity.SError?)
  }

  /** `text[..start].matches('\n').count()`: slicing inside a character would panic. */
  method CountLines(text: Line, start: nat) returns (n: nat)
    requires start <= |text| && Boundary(text, start)
    ensures n == LineOf(text, start)
  {
    n := 0;
    for k := 0 to start
      invariant n == LineOf(text, k)
    {
      if text[k] == NEWLINE {
        n := n + 1;
      }
    }
  }

  lemma NextLine(text: Line, start: nat)
    requires start <= |text| && EndOf(text, start) < |text|
    ensures LineOf(text, EndOf(text, start) + 1) == LineOf(text, start) + 1
    ensures IsText(text) ==> Boundary(text, EndOf(text, start) + 1)
  {
    SameLine(text, start, EndOf(text, start));
  }

  /** The lines of a span before the one of `start` have their marks. */
  ghost predicate MarkedUpTo(text: Line, from: nat, start: nat, end: nat, error: bool, ms: seq<Mark>) {
    from <= start <= end <= |text| && ms + SpanMarks(text, start, end, error) == SpanMarks(text, from, end, error)
  }

  lemma MarkNone(text: Line, from: nat, end: nat, error: bool)
    requires from <= end <= |text|
    ensures MarkedUpTo(text, from, from, end, error, [])
  {
  }

  lemma MarkLine(text: Line, from: nat, start: nat, end: nat, error: bool, ms: seq<Mark>)
    requires MarkedUpTo(text, from, start, end, error, ms) && EndOf(text, start) < end
    ensures MarkedUpTo(text, from, EndOf(text, start) + 1, end, error, ms + [FirstOf(text, start, end, error)])
  {
    var first, next := FirstOf(text, start, end, error), EndOf(text, start) + 1;
    assert SpanMarks(text, start, end, error) == [first] + SpanMarks(text, next, end, error);
    Regroup(ms, [first], SpanMarks(text, next, end, error));
  }

  /** The mark on the line of `start`, and where that line ends. */
  method LineMark(text: Line, start: nat, end: nat, line: nat, error: bool) returns (m: Mark, lineEnd: nat)
    requires start <= end <= |text| && Boundary(text, start) && line == LineOf(text, start)
    ensures m == FirstOf(text, start, end, error) && lineEnd == EndOf(text, start)
  {
    lineEnd := EndOf(text, start);
    var lineStart := StartOf(text, start);
    m := Mark(line, start - lineStart, Min(end, lineEnd) - lineStart, error);
  }

  /** A span's marks: the loop that moves from line to line, never slicing inside a character. */
  method MarkSpan(text: Line, from: nat, end: nat, error: bool) returns (ms: seq<Mark>)
    requires IsText(text) && from < end <= |text| && Boundary(text, from)
    ensures ms == SpanMarks(text, from, end, error)
  {
    ms := [];
    var line := CountLines(text, from);
    var start: nat := from;
    MarkNone(text, from, end, error);
    while true
      invariant MarkedUpTo(text, from, start, end, error, ms) && Boundary(text, start) && line == LineOf(text, start)
      decreases end - start
    {
      var m, lineEnd := LineMark(text, start, end, line, error);
      if lineEnd >= end {
        ms := ms + [m];
        break;
      }
      MarkLine(text, from, start, end, error, ms);
      NextLine(text, start);
      ms, start, line := ms + [m], lineEnd + 1, line + 1;
    }
  }

  /** A mark of that severity covers the byte at `p`. */
  ghost predicate CoveredAs(text: Line, ms: seq<Mark>, p: nat, error: bool) {
    exists k :: 0 <= k < |ms| && ms[k].error == error && Covers(text, ms[k], p)
  }

  /** The byte at `p` is no newline, and a problem of that severity is there. */
  ghost predicate IsProblem(text: Line, problem: Problem, p: nat, error: bool) {
    && problem.severity == (if error then SError else SWarning) && problem.span.Some?
    && problem.span.value.0 <= p < problem.span.value.1 && p < |text| && text[p] != NEWLINE
  }

  lemma CoveredAsJoins(text: Line, a: seq<Mark>, b: seq<Mark>, p: nat, error: bool)
    ensures CoveredAs(text, a + b, p, error) <==> CoveredAs(text, a, p, error) || CoveredAs(text, b, p, error)
  {
    var all := a + b;
    if k :| 0 <= k < |a| && a[k].error == error && Covers(text, a[k], p) {
      assert all[k] == a[k];
    }
    if k :| 0 <= k < |b| && b[k].error == error && Covers(text, b[k], p) {
      assert all[|a| + k] == b[k];
    }
    if k :| 0 <= k < |all| && all[k].error == error && Covers(text, all[k], p) {
      assert k < |a| ==> all[k] == a[k];
      assert k >= |a| ==> all[k] == b[k - |a|];
    }
  }

  lemma {:induction false} SpanMarksAre(text: Line, start: nat, end: nat, error: bool)
    requires start <= end <= |text|
    ensures forall m :: m in SpanMarks(text, start, end, error) ==> m.error == error
    decreases |text| - start
  {
    if EndOf(text, start) < end {
      SpanMarksAre(text, EndOf(text, start) + 1, end, error);
    }
  }

  /** The marks of one problem cover, as its severity, exactly what it is about. */
  lemma ProblemMarksCover(text: Line, problem: Problem, p: nat, error: bool)
    ensures CoveredAs(text, ProblemMarks(text, problem), p, error) <==> IsProblem(text, problem, p, error)
  {
    if IsMarked(text, problem) {
      var (start, end) := Clipped(text, problem.span.value);
      var ms := ProblemMarks(text, problem);
      SpanMarksAre(text, start, end, problem.severity.SError?);
      MarksCoverTheSpan(text, start, end, problem.severity.SError?, p);
      if Covered(text, ms, p) && problem.severity.SError? == error {
        var k :| 0 <= k < |ms| && Covers(text, ms[k], p);
        assert ms[k].error == error;
      }
    }
  }

  /** All the marks cover, as errors and as warnings, exactly the bytes that errors and warnings are about. */
  lemma {:induction false} MarksCoverTheProblems(text: Line, problems: seq<Problem>, p: nat, error: bool)
    ensures CoveredAs(text, MarksOf(text, problems), p, error) <==>
            exists i :: 0 <= i < |problems| && IsProblem(text, problems[i], p, error)
  {
    if problems != [] {
      var n := |problems| - 1;
      var init := problems[..n];
      MarksCoverTheProblems(text, init, p, error);
      ProblemMarksCover(text, problems[n], p, error);
      CoveredAsJoins(text, MarksOf(text, init), ProblemMarks(text, problems[n]), p, error);
      if i :| 0 <= i < n && IsProblem(text, init[i], p, error) {
        assert IsProblem(text, problems[i], p, error);
      }
      if i :| 0 <= i <= n && IsProblem(text, problems[i], p, error) {
        assert i < n ==> IsProblem(text, init[i], p, error);
      }
    }
  }

  /** The problem has something to mark: it is no hint, and its span is not empty in this text. */
  predicate IsMarked(text: Line, p: Problem) {
    !p.severity.SHint? && p.span.Some? && Clipped(text, p.span.value).0 < Clipped(text, p.span.value).1
  }

  /** The marks of all problems in turn. Where there is something to mark, it starts between characters. */
  method AllMarks(text: Line, problems: seq<Problem>) returns (ms: seq<Mark>)
    requires IsText(text)
    requires forall i :: 0 <= i < |problems| && IsMarked(text, problems[i]) ==>
               Boundary(text, Clipped(text, problems[i].span.value).0)
    ensures ms == MarksOf(text, problems)
  {
    ms := [];
    for i := 0 to |problems|
      invariant ms == MarksOf(text, problems[..i])
    {
      assert problems[..i + 1][..i] == problems[..i];
      var p := problems[i];
      var more := [];
      if !p.severity.SHint? && p.span.Some? {
        var (start, end) := Clipped(text, p.span.value);
        if start < end {
          more := MarkSpan(text, start, end, p.severity.SError?);
        }
      }
      assert more == ProblemMarks(text, p);
      ms := ms + more;
    }
    assert problems[..|problems|] == problems;
  }
}
