/**
 * Head and tail excerpts that leave no untrusted-data frame open
 * (internal/agent/tool_results.go).
 */
module Excerpts {
  import opened Wrappers
  import opened Frames

  // ---- where the head ends and the tail starts ----

  predicate RuneStart(c: char) {
    !('\U{80}' <= c < '\U{C0}')
  }

  predicate Lead(c: char) {
    c >= '\U{C0}'
  }

  // A continuation byte follows a lead byte within its sequence.
  predicate Continues(s: string, i: nat)
    requires i < |s|
  {
    || (i >= 1 && Lead(s[i - 1]))
    || (i >= 2 && !RuneStart(s[i - 1]) && Lead(s[i - 2]))
    || (i >= 3 && !RuneStart(s[i - 1]) && !RuneStart(s[i - 2]) && Lead(s[i - 3]))
  }

  // As in valid UTF-8.
  ghost predicate WellEncoded(s: string) {
    forall i :: 0 <= i < |s| ==> RuneStart(s[i]) || Continues(s, i)
  }

  predicate RuneBoundary(s: string, cut: nat)
    requires cut <= |s|
  {
    cut == 0 || cut == |s| || !(0x80 <= s[cut] as int < 0xC0)
  }

  function Clamp(s: string, limit: int): (cut: nat)
    ensures cut <= |s|
  {
    if limit < 0 then 0 else if limit < |s| then limit else |s|
  }

  function RuneBack(s: string, cut: nat, steps: nat): (start: nat)
    requires cut <= |s|
    ensures start <= cut
  {
    if steps > 0 && 0 < cut < |s| && !RuneStart(s[cut]) then RuneBack(s, cut - 1, steps - 1) else cut
  }

  function RuneForward(s: string, cut: nat, steps: nat): (end: nat)
    requires cut <= |s|
    ensures cut <= end <= |s|
    decreases steps
  {
    if steps > 0 && cut < |s| && !RuneStart(s[cut]) then RuneForward(s, cut + 1, steps - 1) else cut
  }

  predicate Splits(line: Line, cut: nat) {
    line.start < cut < line.end
  }

  // A delimiter line of content, whole.
  ghost predicate WholeLine(content: string, line: Line) {
    && line.start < line.end <= |content| && content[line.start] == '['
    && (line.start == 0 || content[line.start - 1] == '\n')
    && (line.end < |content| ==> content[line.end] == '\n')
    && forall k :: line.start <= k < line.end ==> content[k] != '\n'
  }

  ghost predicate WholeLines(content: string, spans: seq<Span>) {
    forall i :: 0 <= i < |spans| ==> WholeLine(content, spans[i].begin) && WholeLine(content, spans[i].end)
  }

  ghost predicate Unsplit(spans: seq<Span>, cut: nat) {
    forall i :: 0 <= i < |spans| ==> !Splits(spans[i].begin, cut) && !Splits(spans[i].end, cut)
  }

  function Before(line: Line, cut: nat): (c: nat)
    ensures c <= cut
  {
    if Splits(line, cut) then line.start else cut
  }

  function BeforeDelimiters(spans: seq<Span>, cut: nat): (c: nat)
    ensures c <= cut
  {
    if spans == [] then cut
    else
      var n := |spans| - 1;
      Before(spans[n].end, Before(spans[n].begin, BeforeDelimiters(spans[..n], cut)))
  }

  function After(content: string, line: Line, cut: nat): nat {
    if !Splits(line, cut) then cut else if line.end + 1 < |content| then line.end + 1 else |content|
  }

  function AfterDelimiters(content: string, spans: seq<Span>, cut: nat): nat {
    if spans == [] then cut
    else
      var n := |spans| - 1;
      After(content, spans[n].end, After(content, spans[n].begin, AfterDelimiters(content, spans[..n], cut)))
  }

  function SkipBrackets(content: string, cut: nat): (c: nat)
    requires cut <= |content|
    ensures cut <= c <= |content|
    ensures 0 < c < |content| && content[c] == '[' ==> content[c - 1] == '\n'
    decreases |content| - cut
  {
    if 0 < cut < |content| && content[cut - 1] != '\n' && content[cut] == '[' then SkipBrackets(content, cut + 1)
    else cut
  }

  ghost predicate AtLineStart(content: string, cut: nat)
    requires cut <= |content|
  {
    cut == 0 || cut == |content| || content[cut - 1] == '\n'
  }

  lemma {:induction false} LineStartUnsplit(content: string, spans: seq<Span>, cut: nat)
    requires cut <= |content| && WholeLines(content, spans) && AtLineStart(content, cut)
    ensures Unsplit(spans, cut)
  {
    forall i | 0 <= i < |spans|
      ensures !Splits(spans[i].begin, cut) && !Splits(spans[i].end, cut)
    {
      assert WholeLine(content, spans[i].begin) && WholeLine(content, spans[i].end);
    }
  }

  lemma {:induction false} UnsplitLast(spans: seq<Span>, cut: nat)
    requires spans != [] && Unsplit(spans[..|spans| - 1], cut)
    requires !Splits(spans[|spans| - 1].begin, cut) && !Splits(spans[|spans| - 1].end, cut)
    ensures Unsplit(spans, cut)
  {
    assert spans == spans[..|spans| - 1] + [spans[|spans| - 1]];
  }

  // A cut inside a delimiter line moves to the line's start.
  lemma {:induction false} BeforeUnsplit(content: string, spans: seq<Span>, cut: nat)
    requires cut <= |content| && WholeLines(content, spans)
    ensures var c := BeforeDelimiters(spans, cut);
            && Unsplit(spans, c)
            && (c == cut || (c < |content| && content[c] == '[' && AtLineStart(content, c)))
  {
    if spans != [] {
      hide WholeLine, AtLineStart, Unsplit, Before, Splits;
      var n := |spans| - 1;
      BeforeUnsplit(content, spans[..n], cut);
      BeforeStep(content, spans[n], cut, BeforeDelimiters(spans[..n], cut));
      var c := BeforeDelimiters(spans, cut);
      if AtLineStart(content, c) {
        LineStartUnsplit(content, spans, c);
      } else {
        UnsplitLast(spans, c);
      }
    }
  }

  lemma {:induction false} BeforeStep(content: string, span: Span, cut: nat, c: nat)
    requires c <= cut <= |content| && WholeLine(content, span.begin) && WholeLine(content, span.end)
    requires c == cut || (c < |content| && content[c] == '[' && AtLineStart(content, c))
    ensures var d := Before(span.end, Before(span.begin, c));
            || (d < |content| && content[d] == '[' && AtLineStart(content, d))
            || (d == c == cut && !Splits(span.begin, d) && !Splits(span.end, d))
  {
  }

  // A cut inside a delimiter line moves past the line.
  lemma {:induction false} AfterUnsplit(content: string, spans: seq<Span>, cut: nat)
    requires cut <= |content| && WholeLines(content, spans)
    ensures var c := AfterDelimiters(content, spans, cut);
            && cut <= c <= |content| && Unsplit(spans, c) && (c == cut || AtLineStart(content, c))
  {
    if spans != [] {
      hide WholeLine, AtLineStart, Unsplit, After, Splits;
      var n := |spans| - 1;
      AfterUnsplit(content, spans[..n], cut);
      AfterStep(content, spans[n], cut, AfterDelimiters(content, spans[..n], cut));
      var c := AfterDelimiters(content, spans, cut);
      if AtLineStart(content, c) {
        LineStartUnsplit(content, spans, c);
      } else {
        UnsplitLast(spans, c);
      }
    }
  }

  lemma {:induction false} AfterStep(content: string, span: Span, cut: nat, c: nat)
    requires cut <= c <= |content| && WholeLine(content, span.begin) && WholeLine(content, span.end)
    requires c == cut || AtLineStart(content, c)
    ensures var d := After(content, span.end, After(content, span.begin, c));
            && cut <= d <= |content|
            && (AtLineStart(content, d) || (d == c == cut && !Splits(span.begin, d) && !Splits(span.end, d)))
  {
  }

  lemma {:induction false} SkipUnsplit(content: string, spans: seq<Span>, cut: nat)
    requires cut <= |content| && WholeLines(content, spans) && Unsplit(spans, cut)
    ensures Unsplit(spans, SkipBrackets(content, cut))
    decreases |content| - cut
  {
    if 0 < cut < |content| && content[cut - 1] != '\n' && content[cut] == '[' {
      forall i | 0 <= i < |spans|
        ensures !Splits(spans[i].begin, cut + 1) && !Splits(spans[i].end, cut + 1)
      {
        assert WholeLine(content, spans[i].begin) && WholeLine(content, spans[i].end);
      }
      SkipUnsplit(content, spans, cut + 1);
    }
  }

  function HeadCutAt(content: string, spans: seq<Span>, limit: int): (cut: nat)
    ensures cut <= |content| && (limit >= 0 ==> cut <= limit)
  {
    BeforeDelimiters(spans, RuneBack(content, Clamp(content, limit), 3))
  }

  function TailCutAt(content: string, spans: seq<Span>, from: int): nat
    requires WholeLines(content, spans)
  {
    AfterUnsplit(content, spans, RuneForward(content, Clamp(content, from), 3));
    SkipBrackets(content, AfterDelimiters(content, spans, RuneForward(content, Clamp(content, from), 3)))
  }

  method HeadCut(content: string, spans: seq<Span>, limit: int) returns (cut: nat)
    ensures cut == HeadCutAt(content, spans, limit)
  {
    cut := Clamp(content, limit);
    var i := 0;
    while i < 3 && 0 < cut < |content| && !RuneStart(content[cut])
      invariant 0 <= i <= 3 && cut <= |content|
      invariant RuneBack(content, Clamp(content, limit), 3) == RuneBack(content, cut, 3 - i)
    {
      cut := cut - 1;
      i := i + 1;
    }
    ghost var start := cut;
    for k := 0 to |spans|
      invariant cut == BeforeDelimiters(spans[..k], start)
    {
      assert spans[..k + 1][..k] == spans[..k];
      if Splits(spans[k].begin, cut) {
        cut := spans[k].begin.start;
      }
      if Splits(spans[k].end, cut) {
        cut := spans[k].end.start;
      }
    }
    assert spans[..|spans|] == spans;
  }

  method TailCut(content: string, spans: seq<Span>, from: int) returns (cut: nat)
    requires WholeLines(content, spans)
    ensures cut == TailCutAt(content, spans, from)
  {
    cut := Clamp(content, from);
    var i := 0;
    while i < 3 && cut < |content| && !RuneStart(content[cut])
      invariant 0 <= i <= 3 && cut <= |content|
      invariant RuneForward(content, Clamp(content, from), 3) == RuneForward(content, cut, 3 - i)
    {
      cut := cut + 1;
      i := i + 1;
    }
    AfterUnsplit(content, spans, cut);
    hide AfterDelimiters, Unsplit, WholeLines;
    cut := PastDelimiters(content, spans, cut);
    cut := PastBrackets(content, cut);
  }

  // tailCut's second loop: past every delimiter line the cut would split.
  method PastDelimiters(content: string, spans: seq<Span>, start: nat) returns (cut: nat)
    ensures cut == AfterDelimiters(content, spans, start)
  {
    cut := start;
    for k := 0 to |spans|
      invariant cut == AfterDelimiters(content, spans[..k], start)
    {
      assert spans[..k + 1][..k] == spans[..k];
      if Splits(spans[k].begin, cut) {
        cut := Clamp(content, spans[k].begin.end + 1);
      }
      if Splits(spans[k].end, cut) {
        cut := Clamp(content, spans[k].end.end + 1);
      }
    }
    assert spans[..|spans|] == spans;
  }

  // tailCut's third loop: past brackets that are not at a line's start.
  method PastBrackets(content: string, start: nat) returns (cut: nat)
    requires start <= |content|
    ensures cut == SkipBrackets(content, start)
  {
    cut := start;
    while 0 < cut < |content| && content[cut - 1] != '\n' && content[cut] == '['
      invariant cut <= |content| && SkipBrackets(content, start) == SkipBrackets(content, cut)
      decreases |content| - cut
    {
      cut := cut + 1;
    }
  }

  // The head ends at or before the limit and splits no rune and no
  // delimiter line.
  lemma {:induction false} HeadCutIsSafe(content: string, spans: seq<Span>, limit: int)
    requires WholeLines(content, spans)
    ensures var cut := HeadCutAt(content, spans, limit);
            Unsplit(spans, cut) && (WellEncoded(content) ==> RuneBoundary(content, cut))
  {
    BeforeUnsplit(content, spans, RuneBack(content, Clamp(content, limit), 3));
    if WellEncoded(content) {
      RuneBackBoundary(content, Clamp(content, limit));
    }
  }

  // The tail starts at or after its bound, splits no rune and no delimiter
  // line, and starts with a bracket only at the start of a line.
  lemma {:induction false} TailCutIsSafe(content: string, spans: seq<Span>, from: int)
    requires WholeLines(content, spans)
    ensures var cut := TailCutAt(content, spans, from);
            && cut <= |content| && (from <= |content| ==> from <= cut) && TailSafe(content, cut)
            && Unsplit(spans, cut) && (WellEncoded(content) ==> RuneBoundary(content, cut))
  {
    hide WholeLines, WellEncoded, Unsplit;
    var s := RuneForward(content, Clamp(content, from), 3);
    AfterUnsplit(content, spans, s);
    var c := AfterDelimiters(content, spans, s);
    SkipUnsplit(content, spans, c);
    if WellEncoded(content) {
      RuneForwardBoundary(content, Clamp(content, from));
      LineStartBoundary(content, c);
      SkipBoundary(content, c);
    }
  }

  // Inside a rune or a delimiter line, where no head may end.
  ghost predicate Splitting(content: string, spans: seq<Span>, cut: nat)
    requires cut <= |content|
  {
    || !RuneBoundary(content, cut)
    || exists i :: 0 <= i < |spans| && (spans[i].begin.start < cut < spans[i].begin.end || spans[i].end.start < cut < spans[i].end.end)
  }

  // Inside a rune, inside or at the end of a delimiter line, or at a bracket
  // in mid-line, where no tail may start.
  ghost predicate Joining(content: string, spans: seq<Span>, cut: nat)
    requires cut <= |content|
  {
    || !RuneBoundary(content, cut)
    || (exists i :: 0 <= i < |spans| && (spans[i].begin.start < cut <= spans[i].begin.end || spans[i].end.start < cut <= spans[i].end.end))
    || (0 < cut < |content| && content[cut] == '[' && content[cut - 1] != '\n')
  }

  // The head is the longest of its kind.
  lemma {:induction false} HeadCutIsGreatest(content: string, spans: seq<Span>, limit: int, cut: nat)
    requires HeadCutAt(content, spans, limit) < cut <= |content| && cut <= limit
    ensures Splitting(content, spans, cut)
  {
    var start := RuneBack(content, Clamp(content, limit), 3);
    if cut <= start {
      BeforeSplits(spans, start, cut);
    } else {
      RuneBackSplits(content, Clamp(content, limit), 3, cut);
    }
  }

  lemma {:induction false} BeforeSplits(spans: seq<Span>, from: nat, cut: nat)
    requires BeforeDelimiters(spans, from) < cut <= from
    ensures exists i :: 0 <= i < |spans| && (spans[i].begin.start < cut < spans[i].begin.end || spans[i].end.start < cut < spans[i].end.end)
  {
    var n := |spans| - 1;
    var c := BeforeDelimiters(spans[..n], from);
    if c < cut {
      BeforeSplits(spans[..n], from, cut);
      var i :| 0 <= i < n && (spans[..n][i].begin.start < cut < spans[..n][i].begin.end || spans[..n][i].end.start < cut < spans[..n][i].end.end);
      assert spans[i] == spans[..n][i];
    } else {
      assert spans[n].begin.start < cut < spans[n].begin.end || spans[n].end.start < cut < spans[n].end.end;
    }
  }

  lemma {:induction false} RuneBackSplits(s: string, from: nat, steps: nat, cut: nat)
    requires from <= |s| && RuneBack(s, from, steps) < cut <= from
    ensures cut < |s| && !RuneBoundary(s, cut)
  {
    if cut < from {
      RuneBackSplits(s, from - 1, steps - 1, cut);
    }
  }

  // So is the tail.
  lemma {:induction false} TailCutIsGreatest(content: string, spans: seq<Span>, from: int, cut: nat)
    requires WellEncoded(content) && WholeLines(content, spans)
    requires from <= cut < TailCutAt(content, spans, from) <= |content|
    ensures Joining(content, spans, cut)
  {
    hide WholeLines;
    var bound := Clamp(content, from);
    var start := RuneForward(content, bound, 3);
    var past := AfterDelimiters(content, spans, start);
    AfterUnsplit(content, spans, start);
    if past <= cut {
      SkipsBrackets(content, past, cut);
    } else if start <= cut {
      AfterSplits(content, spans, start, cut);
    } else {
      RuneForwardSplits(content, bound, 3, cut);
      RuneStartsFirst(content);
    }
  }

  lemma {:induction false} RuneStartsFirst(s: string)
    requires WellEncoded(s) && s != ""
    ensures RuneStart(s[0])
  {
  }

  lemma {:induction false} SkipsBrackets(content: string, from: nat, cut: nat)
    requires from <= cut <= |content| && cut < SkipBrackets(content, from)
    ensures cut > 0 && content[cut] == '[' && content[cut - 1] != '\n'
    decreases |content| - from
  {
    if from < cut {
      SkipsBrackets(content, from + 1, cut);
    }
  }

  lemma {:induction false} AfterSplits(content: string, spans: seq<Span>, from: nat, cut: nat)
    requires from <= cut < AfterDelimiters(content, spans, from)
    ensures exists i :: 0 <= i < |spans| && (spans[i].begin.start < cut <= spans[i].begin.end || spans[i].end.start < cut <= spans[i].end.end)
  {
    var n := |spans| - 1;
    var c := AfterDelimiters(content, spans[..n], from);
    if cut < c {
      AfterSplits(content, spans[..n], from, cut);
      var i :| 0 <= i < n && (spans[..n][i].begin.start < cut <= spans[..n][i].begin.end || spans[..n][i].end.start < cut <= spans[..n][i].end.end);
      assert spans[i] == spans[..n][i];
    } else {
      assert spans[n].begin.start < cut <= spans[n].begin.end || spans[n].end.start < cut <= spans[n].end.end;
    }
  }

  lemma {:induction false} RuneForwardSplits(s: string, from: nat, steps: nat, cut: nat)
    requires from <= cut <= |s| && cut < RuneForward(s, from, steps)
    ensures cut < |s| && !RuneStart(s[cut])
    decreases steps
  {
    if from < cut {
      RuneForwardSplits(s, from + 1, steps - 1, cut);
    }
  }

  lemma {:induction false} LineStartBoundary(s: string, cut: nat)
    requires cut <= |s| && WellEncoded(s)
    ensures AtLineStart(s, cut) ==> RuneBoundary(s, cut)
  {
    if cut < |s| {
      assert RuneStart(s[cut]) || Continues(s, cut);
    }
  }

  predicate TailSafe(content: string, cut: nat)
    requires cut <= |content|
  {
    0 < cut < |content| && content[cut] == '[' ==> content[cut - 1] == '\n'
  }

  lemma {:induction false} RuneBackBoundary(s: string, cut: nat)
    requires cut <= |s| && WellEncoded(s)
    ensures RuneBoundary(s, RuneBack(s, cut, 3))
  {
    if 0 < cut < |s| && !RuneStart(s[cut]) {
      assert RuneBack(s, cut, 3) == RuneBack(s, cut - 1, 2);
      if 1 < cut && !RuneStart(s[cut - 1]) {
        assert RuneBack(s, cut - 1, 2) == RuneBack(s, cut - 2, 1);
      }
    }
  }

  lemma {:induction false} RuneForwardBoundary(s: string, cut: nat)
    requires cut <= |s| && WellEncoded(s)
    ensures RuneBoundary(s, RuneForward(s, cut, 3))
  {
    if cut < |s| && !RuneStart(s[cut]) {
      assert RuneForward(s, cut, 3) == RuneForward(s, cut + 1, 2);
      if cut + 1 < |s| && !RuneStart(s[cut + 1]) {
        assert RuneForward(s, cut + 1, 2) == RuneForward(s, cut + 2, 1);
        if cut + 2 < |s| && !RuneStart(s[cut + 2]) {
          assert RuneForward(s, cut + 2, 1) == cut + 3;
        }
      }
    }
  }

  lemma {:induction false} SkipBoundary(s: string, cut: nat)
    requires cut <= |s| && WellEncoded(s) && RuneBoundary(s, cut)
    ensures RuneBoundary(s, SkipBrackets(s, cut))
    decreases |s| - cut
  {
    if cut + 1 < |s| {
      assert RuneStart(s[cut + 1]) || Continues(s, cut + 1);
    }
    if 0 < cut < |s| && s[cut - 1] != '\n' && s[cut] == '[' {
      SkipBoundary(s, cut + 1);
    }
  }

  // ---- the frames a cut leaves open ----

  // The frames open at a cut, in the order the scan closes them.
  function OpenAt(spans: seq<Span>, cut: nat): seq<Span> {
    if spans == [] then []
    else
      var n := |spans| - 1;
      OpenAt(spans[..n], cut) + (if spans[n].begin.end <= cut <= spans[n].end.start then [spans[n]] else [])
  }

  // Open lines of content, each a whole begin line that ends by the bound.
  ghost predicate Opened(content: string, open: seq<Line>, bound: nat) {
    && (forall i :: 0 <= i < |open| ==>
          WholeLine(content, open[i]) && IsBegin(Text(content, open[i])) && open[i].end <= bound)
    && forall i, j :: 0 <= i < j < |open| ==> open[i].end < open[j].start
  }

  lemma {:induction false} OpenAtSplit(a: seq<Span>, b: seq<Span>, cut: nat)
    ensures OpenAt(a + b, cut) == OpenAt(a, cut) + OpenAt(b, cut)
  {
    if b == [] {
      assert a + b == a;
    } else {
      var n := |b| - 1;
      assert (a + b)[..|a + b| - 1] == a + b[..n];
      OpenAtSplit(a, b[..n], cut);
    }
  }

  lemma {:induction false} RunSplit(a: seq<string>, b: seq<string>, open: seq<string>)
    ensures Run(a + b, open) == if Run(a, open).None? then None else Run(b, Run(a, open).value)
  {
    hide DelimitersPair, HasPrefix, HasSuffix;
    if a == [] {
      assert a + b == b;
    } else if Step(a[0], open).Some? {
      assert (a + b)[1..] == a[1..] + b;
      RunSplit(a[1..], b, Step(a[0], open).value);
    }
  }

  lemma {:induction false} DelimiterIsWhole(content: string, start: nat)
    requires start < |content| && AtLineStart(content, start)
    ensures var line := LineAt(content, start);
            LooksDelimiter(Text(content, line)) ==> WholeLine(content, line)
  {
    var text := Text(content, LineAt(content, start));
    DelimiterBracket(text);
  }

  ghost predicate Strict(content: string, start: nat, open: seq<Line>)
    requires start <= |content|
  {
    Run(Lines(content[start..]), Texts(content, open)) == Some([])
  }

  lemma {:induction false} ScanAtLine(content: string, start: nat, open: seq<Line>)
    requires start < |content| && Strict(content, start, open)
    ensures var line := LineAt(content, start);
            var left := LeftBy(content, line, open);
            && Scan(content, start, open) == ClosedBy(content, line, open) + Scan(content, NextLine(content, start), left)
            && Step(Text(content, line), Texts(content, open)) == Some(Texts(content, left))
            && Strict(content, NextLine(content, start), left)
    ensures var text := Text(content, LineAt(content, start));
            && (LooksBegin(text) ==> IsBegin(text))
            && (LooksEnd(text) ==> IsEnd(text) && open != [] && DelimitersPair(Text(content, open[|open| - 1]), text))
            && !(LooksBegin(text) && LooksEnd(text))
  {
    hide Lines, Run, Scan, Step, ScanLine, Texts, LeftBy, ClosedBy, LooksBegin, LooksEnd, IsBegin, IsEnd, DelimitersPair;
    var line := LineAt(content, start);
    LinesAtNext(content, start);
    ScanCons(content, start, open);
    RunCons(Text(content, line), Lines(content[NextLine(content, start)..]), Texts(content, open));
    StepAgrees(content, line, open);
  }

  lemma {:induction false} EndsBefore(content: string, line: Line, start: nat)
    requires WholeLine(content, line) && line.end <= start < |content| && AtLineStart(content, start)
    ensures line.end < start
  {
  }

  lemma {:induction false} OpenedNext(content: string, start: nat, open: seq<Line>)
    requires start < |content| && AtLineStart(content, start) && Opened(content, open, start)
    requires Strict(content, start, open)
    ensures Opened(content, LeftBy(content, LineAt(content, start), open), IndexNewline(content, start))
    ensures AtLineStart(content, NextLine(content, start))
  {
    hide Strict, Text, WholeLine, IsBegin, IsEnd, LooksBegin, LooksEnd, DelimitersPair;
    ScanAtLine(content, start, open);
    DelimiterIsWhole(content, start);
    OpenedKeep(content, open, start, IndexNewline(content, start));
    var line := LineAt(content, start);
    if LooksBegin(Text(content, line)) {
      assert LooksDelimiter(Text(content, line));
      OpenedPush(content, open, line);
    }
  }

  lemma {:induction false} OpenedKeep(content: string, open: seq<Line>, bound: nat, more: nat)
    requires Opened(content, open, bound) && bound <= more
    ensures Opened(content, open, more)
    ensures open != [] ==> Opened(content, open[..|open| - 1], more)
  {
  }

  lemma {:induction false} OpenedPush(content: string, open: seq<Line>, line: Line)
    requires line.start < |content| && AtLineStart(content, line.start) && Opened(content, open, line.start)
    requires WholeLine(content, line) && IsBegin(Text(content, line))
    ensures Opened(content, open + [line], line.end)
  {
    hide WholeLine, Text, IsBegin;
    forall i | 0 <= i < |open|
      ensures open[i].end < line.start
    {
      EndsBefore(content, open[i], line.start);
    }
    WholeLineOrder(content, line);
  }

  lemma {:induction false} WholeLineOrder(content: string, line: Line)
    requires WholeLine(content, line)
    ensures line.start < line.end <= |content|
  {
  }

  // A closing span of an open line.
  ghost predicate Closes(content: string, span: Span, line: Line) {
    && span.begin == line && WholeLine(content, span.end) && IsEnd(Text(content, span.end))
    && DelimitersPair(Text(content, line), Text(content, span.end))
  }

  lemma {:induction false} StrictAtEnd(content: string, open: seq<Line>)
    ensures Strict(content, |content|, open) <==> open == []
  {
    assert content[|content|..] == "";
    assert |Texts(content, open)| == |open|;
  }

  lemma {:induction false} OpenAtOne(spans: seq<Span>, cut: nat)
    requires |spans| <= 1
    ensures OpenAt(spans, cut) ==
              if spans != [] && spans[0].begin.end <= cut <= spans[0].end.start then spans else []
  {
  }

  ghost predicate ClosedInOrder(content: string, spans: seq<Span>, open: seq<Line>) {
    |spans| == |open| && forall i :: 0 <= i < |open| ==> Closes(content, spans[i], open[|open| - 1 - i])
  }

  // The open lines that end by the cut are the first k.
  ghost predicate OpenBy(open: seq<Line>, cut: nat, k: nat) {
    k <= |open| && forall i :: 0 <= i < |open| ==> (open[i].end <= cut <==> i < k)
  }

  // What one line adds to the frames open at an earlier cut: nothing, unless
  // it closes the last of the lines open there.
  lemma {:induction false} CloserAt(content: string, start: nat, open: seq<Line>, cut: nat, k: nat) returns (m: nat)
    requires cut <= start < |content| && AtLineStart(content, start) && Opened(content, open, start)
    requires Strict(content, start, open) && OpenBy(open, cut, k)
    ensures var line := LineAt(content, start);
            var closed, left := OpenAt(ClosedBy(content, line, open), cut), LeftBy(content, line, open);
            && m <= k <= |open| && OpenBy(left, cut, m) && m <= |left| && left[..m] == open[..m]
            && (m == k ==> closed == [])
            && (m < k ==> m == k - 1 && |closed| == 1 && Closes(content, closed[0], open[k - 1]))
  {
    hide Strict, Opened, Scan, OpenAt, Text, IsEnd, DelimitersPair, LooksBegin, LooksEnd, IsBegin;
    var line := LineAt(content, start);
    ScanAtLine(content, start, open);
    OpenedNext(content, start, open);
    DelimiterIsWhole(content, start);
    OpenAtOne(ClosedBy(content, line, open), cut);
    m := if ClosedBy(content, line, open) != [] && |open| == k then k - 1 else k;
  }

  // The frames open at a cut are the open lines before it, closed innermost
  // first.
  lemma {:induction false} Closers(content: string, start: nat, open: seq<Line>, cut: nat, k: nat)
    requires cut <= start <= |content| && AtLineStart(content, start) && Opened(content, open, start)
    requires Strict(content, start, open) && OpenBy(open, cut, k)
    ensures ClosedInOrder(content, OpenAt(Scan(content, start, open), cut), open[..k])
    decreases |content| - start
  {
    hide *;
    if start == |content| {
      NothingCloses(content, open, cut, k);
    } else {
      var line := LineAt(content, start);
      var left := LeftBy(content, line, open);
      var m := CloserAt(content, start, open, cut, k);
      NextLineAt(content, start, open);
      Closers(content, NextLine(content, start), left, cut, m);
      JoinClosers(content, OpenAt(ClosedBy(content, line, open), cut), OpenAt(Scan(content, NextLine(content, start), left), cut),
                  open, left, k, m);
      OpenAtSplit(ClosedBy(content, line, open), Scan(content, NextLine(content, start), left), cut);
    }
  }

  lemma {:induction false} NothingCloses(content: string, open: seq<Line>, cut: nat, k: nat)
    requires Strict(content, |content|, open) && OpenBy(open, cut, k)
    ensures ClosedInOrder(content, OpenAt(Scan(content, |content|, open), cut), open[..k])
  {
    hide Scan, OpenAt;
    StrictAtEnd(content, open);
    ScanAtEnd(content, open);
    OpenAtOne([], cut);
  }

  // What the reading keeps from one line to the next.
  lemma {:induction false} NextLineAt(content: string, start: nat, open: seq<Line>)
    requires start < |content| && AtLineStart(content, start) && Opened(content, open, start) && Strict(content, start, open)
    ensures var line, next := LineAt(content, start), NextLine(content, start);
            var left := LeftBy(content, line, open);
            && AtLineStart(content, next) && Opened(content, left, next) && Strict(content, next, left)
            && Scan(content, start, open) == ClosedBy(content, line, open) + Scan(content, next, left)
  {
    hide Strict, Opened, Scan, AtLineStart, LeftBy, ClosedBy;
    ScanAtLine(content, start, open);
    OpenedNext(content, start, open);
    OpenedKeep(content, LeftBy(content, LineAt(content, start), open), IndexNewline(content, start), NextLine(content, start));
  }

  lemma {:induction false} JoinClosers(content: string, closed: seq<Span>, frames: seq<Span>, open: seq<Line>, left: seq<Line>,
                                       k: nat, m: nat)
    requires m <= k <= |open| && m <= |left| && left[..m] == open[..m] && ClosedInOrder(content, frames, left[..m])
    requires m == k ==> closed == []
    requires m < k ==> m == k - 1 && |closed| == 1 && Closes(content, closed[0], open[k - 1])
    ensures ClosedInOrder(content, closed + frames, open[..k])
  {
    hide ClosedInOrder, Closes;
    var known := open[..k];
    if m < k {
      assert known[k - 1] == open[k - 1] && known[..k - 1] == left[..m];
      ClosedFirst(content, closed[0], frames, known);
      assert closed + frames == [closed[0]] + frames;
    } else {
      assert known == left[..m];
      assert closed + frames == frames;
    }
  }

  lemma {:induction false} ClosedFirst(content: string, span: Span, spans: seq<Span>, open: seq<Line>)
    requires open != [] && Closes(content, span, open[|open| - 1])
    requires ClosedInOrder(content, spans, open[..|open| - 1])
    ensures ClosedInOrder(content, [span] + spans, open)
  {
    hide Closes;
  }

  lemma {:induction false} UnsplitOpen(spans: seq<Span>, cut: nat, at: nat)
    requires Unsplit(spans, cut)
    ensures Unsplit(OpenAt(spans, at), cut)
  {
    if spans != [] {
      UnsplitOpen(spans[..|spans| - 1], cut, at);
    }
  }

  // A cut that splits no frame delimiter splits no line that looks like one.
  lemma {:induction false} UnsplitLine(content: string, start: nat, open: seq<Line>, cut: nat)
    requires start < |content| && AtLineStart(content, start) && Opened(content, open, start)
    requires Strict(content, start, open) && Unsplit(Scan(content, start, open), cut)
    ensures LooksDelimiter(Text(content, LineAt(content, start))) ==> !Splits(LineAt(content, start), cut)
    ensures Unsplit(Scan(content, NextLine(content, start), LeftBy(content, LineAt(content, start), open)), cut)
  {
    hide Strict, Opened, Text, WholeLine, IsBegin, LooksBegin, LooksEnd, IsEnd, DelimitersPair, Scan, OpenAt;
    var line := LineAt(content, start);
    var left := LeftBy(content, line, open);
    var next := NextLine(content, start);
    ScanAtLine(content, start, open);
    var closed := ClosedBy(content, line, open);
    var rest := Scan(content, next, left);
    forall i | 0 <= i < |rest|
      ensures !Splits(rest[i].begin, cut) && !Splits(rest[i].end, cut)
    {
      assert (closed + rest)[|closed| + i] == rest[i];
    }
    if LooksBegin(Text(content, line)) {
      OpenedNext(content, start, open);
      OpenedKeep(content, left, line.end, next);
      AllOpenBy(content, left, next);
      Closers(content, next, left, next, |left|);
      UnsplitOpen(rest, cut, next);
      assert left[..|left|] == left;
      assert Closes(content, OpenAt(rest, next)[0], line);
    } else if LooksEnd(Text(content, line)) {
      assert (closed + rest)[0] == closed[0];
    }
  }

  lemma {:induction false} AllOpenBy(content: string, open: seq<Line>, bound: nat)
    requires Opened(content, open, bound)
    ensures OpenBy(open, bound, |open|)
  {
  }

  // Where a cut leaves the scan: the next whole line, and the frames open there.
  ghost predicate CutLeaves(content: string, start: nat, open: seq<Line>, cut: nat, next: nat, left: seq<Line>)
    requires start <= cut <= |content|
  {
    && cut <= next <= |content| && AtLineStart(content, next)
    && Opened(content, left, cut) && Strict(content, next, left)
    && OpenAt(Scan(content, start, open), cut) == OpenAt(Scan(content, next, left), cut)
    && Run(Lines(content[start..cut]), Texts(content, open)) == Some(Texts(content, left))
    && (TailSafe(content, cut) ==> Strict(content, cut, left))
  }

  lemma {:induction false} CutState(content: string, start: nat, open: seq<Line>, cut: nat)
    returns (next: nat, left: seq<Line>)
    requires start <= cut <= |content| && AtLineStart(content, start) && Opened(content, open, start)
    requires Strict(content, start, open) && Unsplit(Scan(content, start, open), cut)
    ensures CutLeaves(content, start, open, cut, next, left)
    decreases |content| - start
  {
    hide Strict, Opened, Text, WholeLine, IsBegin, LooksBegin, LooksEnd, IsEnd, DelimitersPair, Scan, OpenAt, Run, Lines,
      Unsplit;
    if cut == start {
      next, left := start, open;
      EmptyRun(content, start, open);
    } else {
      var line := LineAt(content, start);
      var after := LeftBy(content, line, open);
      UnsplitLine(content, start, open, cut);
      ScanAtLine(content, start, open);
      OpenedNext(content, start, open);
      OpenedKeep(content, after, line.end, NextLine(content, start));
      SpanBehind(content, start, open, cut);
      if line.end < cut {
        next, left := CutState(content, NextLine(content, start), after, cut);
        RunLine(content, start, open, cut);
      } else {
        next, left := NextLine(content, start), after;
        OpenedKeep(content, open, start, cut);
        CutInLine(content, start, open, cut);
      }
    }
  }

  lemma {:induction false} EmptyRun(content: string, start: nat, open: seq<Line>)
    requires start <= |content|
    ensures Run(Lines(content[start..start]), Texts(content, open)) == Some(Texts(content, open))
  {
    assert content[start..start] == "";
  }

  // A frame closed by a line before the cut is not open at the cut.
  lemma {:induction false} SpanBehind(content: string, start: nat, open: seq<Line>, cut: nat)
    requires start < |content| && start < cut && Strict(content, start, open)
    ensures OpenAt(Scan(content, start, open), cut)
            == OpenAt(Scan(content, NextLine(content, start), LeftBy(content, LineAt(content, start), open)), cut)
  {
    hide Strict, Text, LooksBegin, LooksEnd, DelimitersPair, Scan;
    var line := LineAt(content, start);
    ScanAtLine(content, start, open);
    var closed := ClosedBy(content, line, open);
    OpenAtSplit(closed, Scan(content, NextLine(content, start), LeftBy(content, line, open)), cut);
    OpenAtOne(closed, cut);
  }

  lemma {:induction false} RunLine(content: string, start: nat, open: seq<Line>, cut: nat)
    requires start < |content| && IndexNewline(content, start) < cut <= |content| && Strict(content, start, open)
    ensures Run(Lines(content[start..cut]), Texts(content, open))
            == Run(Lines(content[NextLine(content, start)..cut]),
                   Texts(content, LeftBy(content, LineAt(content, start), open)))
  {
    hide Strict, LooksBegin, LooksEnd, DelimitersPair, Scan, Step, Lines;
    ScanAtLine(content, start, open);
    LinesFrom(content, start, cut);
    var lines := Lines(content[start..cut]);
    assert lines[1..] == Lines(content[NextLine(content, start)..cut]);
  }

  // A cut in a line that is no delimiter, or at a line's end.
  lemma {:induction false} CutInLine(content: string, start: nat, open: seq<Line>, cut: nat)
    requires start < |content| && start < cut <= IndexNewline(content, start) && Strict(content, start, open)
    requires LooksDelimiter(Text(content, LineAt(content, start))) ==> !Splits(LineAt(content, start), cut)
    ensures var left := LeftBy(content, LineAt(content, start), open);
            && Run(Lines(content[start..cut]), Texts(content, open)) == Some(Texts(content, left))
            && (TailSafe(content, cut) ==> Strict(content, cut, left))
  {
    hide Strict, DelimitersPair, Scan, Lines;
    var line := LineAt(content, start);
    var left := LeftBy(content, line, open);
    ScanAtLine(content, start, open);
    LinesFrom(content, start, cut);
    assert Lines(content[start..cut]) == [content[start..cut]];
    assert Text(content, line) == content[start..line.end];
    if LooksDelimiter(Text(content, line)) {
      assert cut == line.end;
    } else {
      PrefixIsPlain(Text(content, line), cut - start);
      SlicePrefix(content, start, cut, line.end);
    }
    if TailSafe(content, cut) {
      TailInLine(content, start, cut, left);
    }
  }

  lemma {:induction false} SlicePrefix(s: string, a: nat, b: nat, c: nat)
    requires a <= b <= c <= |s|
    ensures s[a..b] == s[a..c][..b - a]
  {
    hide *;
    assert forall k :: a <= k < b ==> s[a..b][k - a] == s[k] == s[a..c][k - a];
  }

  lemma {:induction false} PrefixIsPlain(line: string, n: nat)
    requires n <= |line| && !LooksDelimiter(line)
    ensures !LooksDelimiter(line[..n])
  {
    if n >= 7 {
      assert line[..n][..7] == line[..7];
    }
    if n >= 5 {
      assert line[..n][..5] == line[..5];
    }
  }

  lemma {:induction false} DelimiterBracket(line: string)
    ensures LooksDelimiter(line) ==> line[0] == '['
  {
    assert LooksBegin(line) ==> line[..7][0] == '[';
    assert LooksEnd(line) ==> line[..5][0] == '[';
  }

  lemma {:induction false} TailInLine(content: string, start: nat, cut: nat, left: seq<Line>)
    requires start < |content| && start < cut <= IndexNewline(content, start) && TailSafe(content, cut)
    requires Strict(content, NextLine(content, start), left)
    ensures Strict(content, cut, left)
  {
    hide DelimitersPair, Scan, Lines;
    var end := IndexNewline(content, start);
    if cut < |content| {
      assert IndexNewline(content, cut) == end;
      LinesAtNext(content, cut);
      var tail := content[cut..end];
      DelimiterBracket(tail);
      assert !LooksDelimiter(tail) by {
        if cut < end {
          assert tail[0] == content[cut] != '[';
        }
      }
      var lines := Lines(content[cut..]);
      assert lines[0] == tail && lines[1..] == Lines(content[NextLine(content, start)..]);
    }
  }
}
