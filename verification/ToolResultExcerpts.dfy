/**
 * The excerpt a request shows of a long tool result: within its limit, and
 * with every untrusted-data frame it cuts closed and reopened
 * (internal/agent/tool_results.go).
 */
module ToolResultExcerpts {
  import opened Wrappers
  import opened Frames
  import opened Excerpts

  // ---- closeOpenFrames and reopenFrames ----

  function Insert(span: Span, spans: seq<Span>, descending: bool): seq<Span> {
    if spans == [] || (if descending then spans[0].begin.start <= span.begin.start
                       else span.begin.start <= spans[0].begin.start)
    then [span] + spans
    else [spans[0]] + Insert(span, spans[1..], descending)
  }

  // slices.SortFunc by where the frames begin.
  function Sorted(spans: seq<Span>, descending: bool): seq<Span> {
    if spans == [] then [] else Insert(spans[0], Sorted(spans[1..], descending), descending)
  }

  predicate Broken(content: string, cut: nat)
    requires cut <= |content|
  {
    cut > 0 && content[cut - 1] != '\n'
  }

  function CloseText(content: string, frames: seq<Span>, broken: bool): string {
    if frames == [] then ""
    else
      var n := |frames| - 1;
      var closing := CloseText(content, frames[..n], broken);
      closing + (if |closing| > 0 || broken then "\n" else "") + Text(content, frames[n].end)
  }

  function OpenText(content: string, frames: seq<Span>): string {
    if frames == [] then ""
    else
      var n := |frames| - 1;
      OpenText(content, frames[..n]) + Text(content, frames[n].begin) + "\n"
  }

  function ClosingAt(content: string, spans: seq<Span>, cut: nat): string
    requires cut <= |content|
  {
    CloseText(content, Sorted(OpenAt(spans, cut), true), Broken(content, cut))
  }

  function OpeningAt(content: string, spans: seq<Span>, cut: nat): string {
    OpenText(content, Sorted(OpenAt(spans, cut), false))
  }

  method OpenFrames(spans: seq<Span>, cut: nat) returns (open: seq<Span>)
    ensures open == OpenAt(spans, cut)
  {
    open := [];
    for i := 0 to |spans|
      invariant open == OpenAt(spans[..i], cut)
    {
      assert spans[..i + 1][..i] == spans[..i];
      if spans[i].begin.end <= cut && cut <= spans[i].end.start {
        open := open + [spans[i]];
      }
    }
    assert spans[..|spans|] == spans;
  }

  method CloseOpenFrames(content: string, spans: seq<Span>, headEnd: nat) returns (closing: string)
    requires headEnd <= |content|
    ensures closing == ClosingAt(content, spans, headEnd)
  {
    hide OpenAt, Sorted, Text;
    var open := OpenFrames(spans, headEnd);
    open := Sorted(open, true);
    closing := "";
    for i := 0 to |open|
      invariant closing == CloseText(content, open[..i], Broken(content, headEnd))
    {
      assert open[..i + 1][..i] == open[..i];
      if |closing| > 0 || (headEnd > 0 && content[headEnd - 1] != '\n') {
        closing := closing + "\n";
      }
      closing := closing + Text(content, open[i].end);
    }
    assert open[..|open|] == open;
  }

  method ReopenFrames(content: string, spans: seq<Span>, tailStart: nat) returns (opening: string)
    ensures opening == OpeningAt(content, spans, tailStart)
  {
    hide OpenAt, Sorted, Text;
    var open := OpenFrames(spans, tailStart);
    open := Sorted(open, false);
    opening := "";
    for i := 0 to |open|
      invariant opening == OpenText(content, open[..i])
    {
      assert open[..i + 1][..i] == open[..i];
      opening := opening + Text(content, open[i].begin) + "\n";
    }
    assert open[..|open|] == open;
  }

  // ---- sorting the open frames ----

  ghost predicate InnermostFirst(spans: seq<Span>) {
    forall i, j :: 0 <= i < j < |spans| ==> spans[j].begin.start < spans[i].begin.start
  }

  function Reversed(spans: seq<Span>): seq<Span> {
    if spans == [] then [] else Reversed(spans[1..]) + [spans[0]]
  }

  lemma {:induction false} SortedInnermostFirst(spans: seq<Span>)
    requires InnermostFirst(spans)
    ensures Sorted(spans, true) == spans
    ensures Sorted(spans, false) == Reversed(spans)
  {
    if spans != [] {
      SortedInnermostFirst(spans[1..]);
      ReversedMembers(spans[1..]);
      InsertLast(spans[0], Reversed(spans[1..]));
    }
  }

  lemma {:induction false} ReversedMembers(spans: seq<Span>)
    ensures |Reversed(spans)| == |spans|
    ensures forall i :: 0 <= i < |spans| ==> Reversed(spans)[i] == spans[|spans| - 1 - i]
  {
    if spans != [] {
      ReversedMembers(spans[1..]);
    }
  }

  lemma {:induction false} InsertLast(span: Span, spans: seq<Span>)
    requires forall i :: 0 <= i < |spans| ==> spans[i].begin.start < span.begin.start
    ensures Insert(span, spans, false) == spans + [span]
  {
    if spans != [] {
      InsertLast(span, spans[1..]);
    }
  }

  // ---- lines of joined text ----

  lemma {:induction false} LinesBreak(x: string, y: string)
    requires x != ""
    ensures Lines(x + (if x[|x| - 1] == '\n' then "" else "\n") + y) == Lines(x) + Lines(y)
  {
    hide *;
    var end := IndexNewline(x, 0);
    var joined := x + (if x[|x| - 1] == '\n' then "" else "\n") + y;
    FirstLine(x, end);
    FirstLine(joined, end);
    assert joined[..end] == x[..end];
    if end == |x| {
      assert joined[end + 1..] == y;
    } else if end + 1 == |x| {
      LinesOfNothing();
      assert x[end + 1..] == "";
      assert joined[end + 1..] == y;
    } else {
      var rest := x[end + 1..];
      LinesBreak(rest, y);
      assert rest[|rest| - 1] == x[|x| - 1];
      assert joined[end + 1..] == rest + (if rest[|rest| - 1] == '\n' then "" else "\n") + y;
    }
  }

  lemma {:induction false} LinesOfLine(line: string)
    requires line != "" && '\n' !in line
    ensures Lines(line) == [line]
  {
    FirstLine(line, |line|);
    assert line[..|line|] == line;
  }

  // Text that is well framed stays so beside other well-framed text.
  lemma {:induction false} FramedJoin(x: string, y: string)
    requires WellFramed(x) && WellFramed(y)
    ensures WellFramed(x + "\n" + y)
  {
    hide Lines, DelimitersPair;
    var blank := "\n" + y;
    FirstLine(blank, 0);
    assert blank[..0] == "" && blank[1..] == y;
    RunSplit([""], Lines(y), []);
    if x == "" {
      assert x + "\n" + y == blank;
    } else if x[|x| - 1] == '\n' {
      LinesBreak(x, blank);
      assert x + "" + blank == x + "\n" + y;
      RunSplit(Lines(x), Lines(blank), []);
    } else {
      LinesBreak(x, y);
      RunSplit(Lines(x), Lines(y), []);
    }
  }

  lemma {:induction false} FramedLine(line: string)
    requires line != "" && '\n' !in line && !LooksDelimiter(line)
    ensures WellFramed(line)
  {
    LinesOfLine(line);
  }

  // ---- a cut leaves no frame open ----

  function EndTexts(content: string, frames: seq<Span>): (texts: seq<string>)
    ensures |texts| == |frames|
  {
    seq(|frames|, i requires 0 <= i < |frames| => Text(content, frames[i].end))
  }

  // The end lines of whole frames, one to a line.
  lemma {:induction false} ClosingLines(content: string, frames: seq<Span>)
    requires frames != []
    requires forall i :: 0 <= i < |frames| ==> WholeLine(content, frames[i].end)
    ensures var closing := CloseText(content, frames, false);
            closing != "" && closing[|closing| - 1] != '\n' && Lines(closing) == EndTexts(content, frames)
    ensures CloseText(content, frames, true) == "\n" + CloseText(content, frames, false)
  {
    hide *;
    var n := |frames| - 1;
    var text := Text(content, frames[n].end);
    WholeText(content, frames[n].end);
    LinesOfLine(text);
    CloseTextLast(content, frames, false);
    CloseTextLast(content, frames, true);
    EndTextsLast(content, frames);
    if n > 0 {
      var closing := CloseText(content, frames[..n], false);
      ClosingLines(content, frames[..n]);
      LinesBreak(closing, text);
      assert CloseText(content, frames, false) == closing + "\n" + text;
    } else {
      CloseTextNone(content, frames[..n]);
      assert CloseText(content, frames, false) == text;
    }
  }

  lemma {:induction false} CloseTextLast(content: string, frames: seq<Span>, broken: bool)
    requires frames != []
    ensures var n := |frames| - 1;
            var closing := CloseText(content, frames[..n], broken);
            CloseText(content, frames, broken)
            == closing + (if |closing| > 0 || broken then "\n" else "") + Text(content, frames[n].end)
  {
  }

  lemma {:induction false} CloseTextNone(content: string, frames: seq<Span>)
    requires frames == []
    ensures CloseText(content, frames, true) == CloseText(content, frames, false) == ""
    ensures EndTexts(content, frames) == []
  {
  }

  lemma {:induction false} EndTextsLast(content: string, frames: seq<Span>)
    requires frames != []
    ensures var n := |frames| - 1;
            EndTexts(content, frames) == EndTexts(content, frames[..n]) + [Text(content, frames[n].end)]
  {
  }

  lemma {:induction false} WholeText(content: string, line: Line)
    requires WholeLine(content, line)
    ensures var text := Text(content, line); text != "" && '\n' !in text && text[|text| - 1] != '\n'
  {
  }

  // End lines that close the open frames innermost first leave none open.
  lemma {:induction false} ClosersRun(content: string, frames: seq<Span>, open: seq<Line>)
    requires ClosedInOrder(content, frames, open)
    ensures Run(EndTexts(content, frames), Texts(content, open)) == Some([])
  {
    hide Text, LooksBegin, LooksEnd, IsEnd, DelimitersPair, ClosedInOrder;
    ClosedRest(content, frames, open);
    if frames == [] {
      assert Texts(content, open) == [];
    } else {
      var k := |open| - 1;
      BeginIsNotEnd(Text(content, frames[0].end));
      assert Texts(content, open)[..k] == Texts(content, open[..k]);
      assert EndTexts(content, frames)[1..] == EndTexts(content, frames[1..]);
      ClosersRun(content, frames[1..], open[..k]);
    }
  }

  lemma {:induction false} ClosedRest(content: string, frames: seq<Span>, open: seq<Line>)
    requires ClosedInOrder(content, frames, open)
    ensures |frames| == |open|
    ensures frames != [] ==>
              && ClosedInOrder(content, frames[1..], open[..|open| - 1])
              && LooksEnd(Text(content, frames[0].end)) && IsEnd(Text(content, frames[0].end))
              && DelimitersPair(Text(content, open[|open| - 1]), Text(content, frames[0].end))
  {
    hide Text, WholeLine, DelimitersPair;
    if frames != [] {
      assert Closes(content, frames[0], open[|open| - 1]);
      var k := |open| - 1;
      forall i | 0 <= i < k
        ensures Closes(content, frames[1..][i], open[..k][k - 1 - i])
      {
        assert Closes(content, frames[i + 1], open[|open| - 1 - (i + 1)]);
      }
    }
  }

  // What a cut of well-framed content leaves open.
  lemma {:induction false} OpenAtCut(content: string, cut: nat) returns (left: seq<Line>)
    requires cut <= |content| && WellFramed(content) && Unsplit(Scan(content, 0, []), cut)
    ensures Opened(content, left, cut)
    ensures ClosedInOrder(content, OpenAt(Scan(content, 0, []), cut), left)
    ensures Run(Lines(content[..cut]), []) == Some(Texts(content, left))
    ensures TailSafe(content, cut) ==> Run(Lines(content[cut..]), Texts(content, left)) == Some([])
  {
    hide Run, Lines, Scan, OpenAt, Unsplit;
    assert content[0..] == content && content[0..cut] == content[..cut];
    assert Texts(content, []) == [];
    var next;
    next, left := CutState(content, 0, [], cut);
    OpenedKeep(content, left, cut, next);
    AllOpenBy(content, left, cut);
    Closers(content, next, left, cut, |left|);
    assert left[..|left|] == left;
  }

  lemma {:induction false} OpenFramesNest(content: string, frames: seq<Span>, left: seq<Line>, bound: nat)
    requires Opened(content, left, bound) && ClosedInOrder(content, frames, left)
    ensures InnermostFirst(frames)
    ensures forall i :: 0 <= i < |frames| ==> WholeLine(content, frames[i].end)
  {
    hide Text, IsBegin, IsEnd, DelimitersPair, Closes;
    forall i | 0 <= i < |frames|
      ensures frames[i].begin == left[|frames| - 1 - i] && WholeLine(content, frames[i].end)
    {
      assert Closes(content, frames[i], left[|frames| - 1 - i]);
      ClosesBegin(content, frames[i], left[|frames| - 1 - i]);
    }
  }

  // However it is cut, the head with its closing lines leaves no frame open.
  lemma {:induction false} HeadFramed(content: string, cut: nat)
    requires cut <= |content| && WellFramed(content) && Unsplit(Scan(content, 0, []), cut)
    ensures WellFramed(content[..cut] + ClosingAt(content, Scan(content, 0, []), cut))
  {
    hide Run, Lines, Scan, OpenAt, Unsplit, Text, Opened, ClosedInOrder, DelimitersPair;
    var frames := OpenAt(Scan(content, 0, []), cut);
    var left := OpenAtCut(content, cut);
    OpenFramesNest(content, frames, left, cut);
    SortedInnermostFirst(frames);
    ClosersRun(content, frames, left);
    var head := content[..cut];
    RunSplit(Lines(head), EndTexts(content, frames), []);
    HeadLines(content, cut, frames);
  }

  lemma {:induction false} HeadLines(content: string, cut: nat, frames: seq<Span>)
    requires cut <= |content|
    requires forall i :: 0 <= i < |frames| ==> WholeLine(content, frames[i].end)
    ensures Lines(content[..cut] + CloseText(content, frames, Broken(content, cut)))
            == Lines(content[..cut]) + EndTexts(content, frames)
  {
    hide Run, Lines, Scan, OpenAt, Unsplit, Text, Opened, ClosedInOrder, DelimitersPair, WholeLine;
    var head := content[..cut];
    if frames == [] {
      assert head + "" == head;
    } else {
      var closing := CloseText(content, frames, false);
      ClosingLines(content, frames);
      if head == "" {
        LinesOfNothing();
        assert head + closing == closing;
      } else {
        assert head[|head| - 1] == content[cut - 1];
        LinesBreak(head, closing);
        assert head + "\n" + closing == head + ("\n" + closing);
        assert head + "" + closing == head + closing;
      }
    }
  }

  // However it is cut, the tail with its opening lines closes only frames it opens.
  lemma {:induction false} TailFramed(content: string, cut: nat)
    requires cut <= |content| && WellFramed(content) && Unsplit(Scan(content, 0, []), cut) && TailSafe(content, cut)
    ensures WellFramed(OpeningAt(content, Scan(content, 0, []), cut) + content[cut..])
  {
    hide Run, Lines, Scan, OpenAt, Unsplit, Text, Opened, ClosedInOrder, DelimitersPair;
    var frames := OpenAt(Scan(content, 0, []), cut);
    var left := OpenAtCut(content, cut);
    OpenFramesNest(content, frames, left, cut);
    SortedInnermostFirst(frames);
    ReversedBegins(content, frames, left);
    OpeningRun(content, Reversed(frames), left, content[cut..], cut);
  }

  lemma {:induction false} ReversedBegins(content: string, frames: seq<Span>, left: seq<Line>)
    requires ClosedInOrder(content, frames, left)
    ensures |Reversed(frames)| == |left|
    ensures forall i :: 0 <= i < |left| ==> Reversed(frames)[i].begin == left[i]
  {
    hide Closes;
    ReversedMembers(frames);
    forall i | 0 <= i < |left|
      ensures Reversed(frames)[i].begin == left[i]
    {
      assert Closes(content, frames[|left| - 1 - i], left[i]);
      ClosesBegin(content, frames[|left| - 1 - i], left[i]);
    }
  }

  lemma {:induction false} ClosesBegin(content: string, span: Span, line: Line)
    requires Closes(content, span, line)
    ensures span.begin == line && WholeLine(content, span.end)
  {
  }

  lemma {:induction false} OpeningRun(content: string, frames: seq<Span>, left: seq<Line>, tail: string, bound: nat)
    requires Opened(content, left, bound) && |frames| == |left|
    requires forall i :: 0 <= i < |left| ==> frames[i].begin == left[i]
    ensures Run(Lines(OpenText(content, frames) + tail), []) == Run(Lines(tail), Texts(content, left))
  {
    hide Lines, Run, Text, DelimitersPair, WholeLine, Opened, IsBegin;
    if frames == [] {
      assert "" + tail == tail;
      assert Texts(content, left) == [];
    } else {
      var n := |frames| - 1;
      var text := Text(content, left[n]);
      OpenedText(content, left, bound);
      var rest := text + "\n" + tail;
      OpeningRun(content, frames[..n], left[..n], rest, bound);
      assert OpenText(content, frames) + tail == OpenText(content, frames[..n]) + rest;
      LinesBreak(text, tail);
      LinesOfLine(text);
      RunSplit([text], Lines(tail), Texts(content, left[..n]));
      RunBegin(text, Texts(content, left[..n]));
      assert Texts(content, left) == Texts(content, left[..n]) + [text];
    }
  }

  lemma {:induction false} OpenedText(content: string, left: seq<Line>, bound: nat)
    requires Opened(content, left, bound) && left != []
    ensures var text := Text(content, left[|left| - 1]);
            IsBegin(text) && text != "" && '\n' !in text && text[|text| - 1] != '\n'
    ensures Opened(content, left[..|left| - 1], bound)
  {
    WholeText(content, left[|left| - 1]);
  }

  lemma {:induction false} RunBegin(line: string, open: seq<string>)
    requires IsBegin(line)
    ensures Run([line], open) == Some(open + [line])
  {
  }

  // ---- frameSafeHeadTail ----

  datatype Cut = Cut(headEnd: nat, tailStart: nat)

  function CutAt(content: string, spans: seq<Span>, budget: nat): (c: Cut)
    requires WholeLines(content, spans)
    ensures c.headEnd <= c.tailStart <= |content|
  {
    var headBudget := (budget + 1) / 2;
    var headEnd := HeadCutAt(content, spans, headBudget);
    TailCutIsSafe(content, spans, |content| - (budget - headBudget));
    var tailStart := TailCutAt(content, spans, |content| - (budget - headBudget));
    Cut(headEnd, if headEnd < tailStart then tailStart else headEnd)
  }

  function ShownBytes(content: string, spans: seq<Span>, c: Cut): nat
    requires c.headEnd <= c.tailStart <= |content|
  {
    c.headEnd + |ClosingAt(content, spans, c.headEnd)| + |OpeningAt(content, spans, c.tailStart)|
    + |content| - c.tailStart
  }

  // The first budget, shrinking by each excess, at which the parts fit.
  function FittingBudget(content: string, spans: seq<Span>, available: nat, budget: nat): (b: nat)
    requires WholeLines(content, spans) && budget <= available
    ensures b <= budget
    ensures b == 0 || ShownBytes(content, spans, CutAt(content, spans, b)) <= available
    decreases budget
  {
    var size := ShownBytes(content, spans, CutAt(content, spans, budget));
    if size <= available || budget == 0 then budget
    else FittingBudget(content, spans, available, if budget < size - available then 0 else budget - (size - available))
  }

  // With nothing to show, nothing is shown.
  lemma {:induction false} EmptyCut(content: string)
    ensures AtLineStart(content, 0) && WholeLines(content, Scan(content, 0, []))
    ensures var spans := Scan(content, 0, []);
            CutAt(content, spans, 0) == Cut(0, |content|) && ShownBytes(content, spans, Cut(0, |content|)) == 0
  {
    assert AtLineStart(content, 0);
    hide *;
    var spans := Scan(content, 0, []);
    ScanWhole(content, 0, []);
    NothingShown(content, spans);
  }

  lemma {:induction false} NothingShown(content: string, spans: seq<Span>)
    requires WholeLines(content, spans)
    ensures CutAt(content, spans, 0) == Cut(0, |content|) && ShownBytes(content, spans, Cut(0, |content|)) == 0
  {
    hide WholeLines, HeadCutAt, TailCutAt, OpenAt, Unsplit, WellEncoded;
    TailCutIsSafe(content, spans, |content|);
    OpenAtEdges(content, spans);
    assert HeadCutAt(content, spans, 0) == 0;
    assert ClosingAt(content, spans, 0) == "" && OpeningAt(content, spans, |content|) == "";
  }

  lemma {:induction false} ScanWhole(content: string, start: nat, open: seq<Line>)
    requires start <= |content| && AtLineStart(content, start)
    requires forall i :: 0 <= i < |open| ==> WholeLine(content, open[i])
    ensures WholeLines(content, Scan(content, start, open))
    decreases |content| - start
  {
    hide Text, IsBegin, IsEnd, WholeLine, DelimitersPair;
    if start < |content| {
      var line := LineAt(content, start);
      var (closed, left) := ScanLine(content, line, open);
      DelimiterIsWhole(content, start);
      DelimiterKinds(Text(content, line));
      LineStartNext(content, start);
      ScanWhole(content, NextLine(content, start), left);
    }
  }

  lemma {:induction false} DelimiterKinds(line: string)
    ensures IsBegin(line) || IsEnd(line) ==> LooksDelimiter(line)
  {
  }

  lemma {:induction false} LineStartNext(content: string, start: nat)
    requires start < |content|
    ensures AtLineStart(content, NextLine(content, start))
  {
  }

  lemma {:induction false} OpenAtEdges(content: string, spans: seq<Span>)
    requires WholeLines(content, spans)
    ensures OpenAt(spans, 0) == [] && OpenAt(spans, |content|) == []
  {
    if spans != [] {
      var n := |spans| - 1;
      assert WholeLine(content, spans[n].begin) && WholeLine(content, spans[n].end);
      OpenAtEdges(content, spans[..n]);
    }
  }

  // The excerpt's parts show a head and a tail of the content within
  // available bytes, each complete in itself.
  lemma {:induction false} CutIsSafe(content: string, available: nat)
    ensures WholeLines(content, Scan(content, 0, []))
    ensures var spans := Scan(content, 0, []);
            var c := CutAt(content, spans, FittingBudget(content, spans, available, available));
            && ShownBytes(content, spans, c) <= available
            && (WellEncoded(content) ==> RuneBoundary(content, c.headEnd) && RuneBoundary(content, c.tailStart))
            && (WellFramed(content) && available <= |content| ==>
                  && WellFramed(content[..c.headEnd] + ClosingAt(content, spans, c.headEnd))
                  && WellFramed(OpeningAt(content, spans, c.tailStart) + content[c.tailStart..]))
  {
    hide WellFramed, Scan, WellEncoded, WholeLines, Unsplit, HeadCutAt, TailCutAt, ClosingAt, OpeningAt, ShownBytes;
    var spans := Scan(content, 0, []);
    EmptyCut(content);
    var b := FittingBudget(content, spans, available, available);
    var c := CutAt(content, spans, b);
    HeadCutIsSafe(content, spans, (b + 1) / 2);
    TailCutIsSafe(content, spans, |content| - (b - (b + 1) / 2));
    if WellFramed(content) && available <= |content| {
      HeadFramed(content, c.headEnd);
      TailFramed(content, c.tailStart);
    }
  }

  lemma {:induction false} FittingStep(content: string, spans: seq<Span>, available: nat, budget: nat)
    requires WholeLines(content, spans) && budget <= available
    ensures var headEnd := HeadCutAt(content, spans, (budget + 1) / 2);
            var from := TailCutAt(content, spans, |content| - (budget - (budget + 1) / 2));
            var tailStart := if from < headEnd then headEnd else from;
            && headEnd <= tailStart <= |content|
            && CutAt(content, spans, budget) == Cut(headEnd, tailStart)
            && var size := headEnd + |ClosingAt(content, spans, headEnd)| + |OpeningAt(content, spans, tailStart)|
                           + |content| - tailStart;
               && (budget == 0 ==> size == 0)
               && FittingBudget(content, spans, available, budget)
               == if size <= available || budget == 0 then budget
                  else FittingBudget(content, spans, available,
                                     if budget < size - available then 0 else budget - (size - available))
  {
    hide WholeLines, HeadCutAt, TailCutAt, ClosingAt, OpeningAt, Unsplit, WellEncoded;
    TailCutIsSafe(content, spans, |content| - (budget - (budget + 1) / 2));
    NothingShown(content, spans);
  }

  // The budget is what is available, or one that did not fit less its excess.
  ghost predicate Shrunk(content: string, spans: seq<Span>, available: nat, budget: nat, b: nat)
    requires WholeLines(content, spans)
  {
    || b == budget
    || exists p: nat, excess: nat :: b < p <= budget && excess > 0 && Exceeds(content, spans, available, p, excess)
                                     && b == if p < excess then 0 else p - excess
  }

  ghost predicate Exceeds(content: string, spans: seq<Span>, available: nat, budget: nat, excess: nat)
    requires WholeLines(content, spans)
  {
    ShownBytes(content, spans, CutAt(content, spans, budget)) == available + excess
  }

  lemma {:induction false} BudgetIsShrunk(content: string, spans: seq<Span>, available: nat, budget: nat)
    requires WholeLines(content, spans) && budget <= available
    ensures Shrunk(content, spans, available, budget, FittingBudget(content, spans, available, budget))
    decreases budget
  {
    hide WholeLines, CutAt, ShownBytes;
    var size := ShownBytes(content, spans, CutAt(content, spans, budget));
    if size > available && budget != 0 {
      var next := if budget < size - available then 0 else budget - (size - available);
      BudgetIsShrunk(content, spans, available, next);
      assert Exceeds(content, spans, available, budget, size - available);
    }
  }

  method FrameSafeHeadTail(content: string, spans: seq<Span>, available: nat)
    returns (head: string, tail: string, headEnd: nat, tailStart: nat)
    requires spans == Scan(content, 0, [])
    ensures headEnd <= tailStart <= |content|
    ensures head == content[..headEnd] + ClosingAt(content, spans, headEnd)
    ensures tail == OpeningAt(content, spans, tailStart) + content[tailStart..]
    ensures |head| + |tail| <= available
    ensures WholeLines(content, spans)
    ensures Cut(headEnd, tailStart) == CutAt(content, spans, FittingBudget(content, spans, available, available))
  {
    EmptyCut(content);
    hide *;
    var budget: nat := available;
    while true
      invariant 0 <= budget <= available
      invariant FittingBudget(content, spans, available, available) == FittingBudget(content, spans, available, budget)
      decreases budget
    {
      var headBudget := (budget + 1) / 2;
      headEnd := HeadCut(content, spans, headBudget);
      tailStart := TailCut(content, spans, |content| - (budget - headBudget));
      if tailStart < headEnd {
        tailStart := headEnd;
      }
      FittingStep(content, spans, available, budget);
      var closing := CloseOpenFrames(content, spans, headEnd);
      var opening := ReopenFrames(content, spans, tailStart);
      var size := headEnd + |closing| + |opening| + |content| - tailStart;
      if size <= available || budget == 0 {
        return content[..headEnd] + closing, opening + content[tailStart..], headEnd, tailStart;
      }
      budget := if budget < size - available then 0 else budget - (size - available);
    }
  }

  // ---- toolResultExcerpt ----

  function Decimal(n: nat): (digits: string)
    ensures digits != "" && '\n' !in digits
  {
    var digit := ['0' + (n % 10) as char];
    if n < 10 then digit else Decimal(n / 10) + digit
  }

  function DecimalValue(digits: string): int {
    if digits == "" then 0
    else 10 * DecimalValue(digits[..|digits| - 1]) + (digits[|digits| - 1] as int - '0' as int)
  }

  // The offsets an excerpt prints read back as themselves.
  lemma {:induction false} DecimalReads(n: nat)
    ensures DecimalValue(Decimal(n)) == n
  {
    var digits := Decimal(n);
    assert digits[|digits| - 1] == '0' + (n % 10) as char;
    if n < 10 {
      assert digits[..|digits| - 1] == "";
    } else {
      DecimalReads(n / 10);
      assert digits[..|digits| - 1] == Decimal(n / 10);
    }
  }

  lemma {:induction false} DecimalGrows(m: nat, n: nat)
    requires m <= n
    ensures |Decimal(m)| <= |Decimal(n)|
  {
    if m >= 10 {
      DecimalGrows(m / 10, n / 10);
    }
  }

  // The durable event an excerpt names, with its content's digest.
  datatype Source = Source(eventId: string, digest: string)

  const HEAD_MARKER := "\n<head>\n"
  const TAIL_MARKER := "\n<tail>\n"

  const LABEL_START := "[tool result excerpt: event_id="

  function Label(source: Source, size: nat, reason: string, head: nat, tail: nat): string {
    LABEL_START + LabelRest(source, size, reason, head, tail)
  }

  function LabelRest(source: Source, size: nat, reason: string, head: nat, tail: nat): string {
    Origin(source, size, reason) + Ranges(size, head, tail) + Advice(source, head)
  }

  function Origin(source: Source, size: nat, reason: string): string {
    (source.eventId + " original_bytes=" + Decimal(size)) + (" sha256=" + source.digest + " reason=" + reason)
  }

  function Ranges(size: nat, head: nat, tail: nat): string {
    (" shown=0-" + Decimal(head) + ",") + (Decimal(tail) + "-" + Decimal(size))
  }

  const ADVICE := "; read the omitted bytes " + READ_WITH
  const READ_WITH := "with read_tool_result event_id="

  function Advice(source: Source, head: nat): string {
    (ADVICE + source.eventId) + (" offset=" + Decimal(head) + "]")
  }

  function Overhead(source: Source, size: nat, reason: string): nat {
    |Label(source, size, reason, size, size)| + |HEAD_MARKER| + |TAIL_MARKER|
  }

  lemma {:induction false} LabelFits(source: Source, size: nat, reason: string, head: nat, tail: nat)
    requires head <= size && tail <= size
    ensures |Label(source, size, reason, head, tail)| <= |Label(source, size, reason, size, size)|
  {
    DecimalGrows(head, size);
    DecimalGrows(tail, size);
  }

  // The head and the tail of the content that an excerpt shows.
  datatype Shown = LabelOnly | Parts(headEnd: nat, tailStart: nat)

  function LabelWithin(named: string, limit: int): string {
    if limit <= 0 then "" else if |named| <= limit then named else ValidPrefix(named, limit)
  }

  function ShownOf(content: string, source: Source, limit: int, reason: string): (shown: Shown)
    ensures shown.Parts? ==> shown.headEnd <= shown.tailStart <= |content|
  {
    var available := limit - Overhead(source, |content|, reason);
    if available < 0 then LabelOnly
    else
      EmptyCut(content);
      var spans := Scan(content, 0, []);
      var c := CutAt(content, spans, FittingBudget(content, spans, available, available));
      Parts(c.headEnd, c.tailStart)
  }

  // What an excerpt within the limit reads.
  function ExcerptOf(content: string, source: Source, limit: int, reason: string): string {
    match ShownOf(content, source, limit, reason)
    case LabelOnly => LabelWithin(Label(source, |content|, reason, 0, |content|), limit)
    case Parts(headEnd, tailStart) =>
      var spans := Scan(content, 0, []);
      Label(source, |content|, reason, headEnd, tailStart)
      + HEAD_MARKER + (content[..headEnd] + ClosingAt(content, spans, headEnd))
      + TAIL_MARKER + (OpeningAt(content, spans, tailStart) + content[tailStart..])
  }

  method ToolResultExcerpt(content: string, source: Source, limit: int, reason: string) returns (excerpt: string)
    requires limit < |content|
    ensures excerpt == ExcerptOf(content, source, limit, reason)
  {
    hide CutAt, FittingBudget, Label, Scan, ClosingAt, OpeningAt;
    var available := limit - Overhead(source, |content|, reason);
    if available < 0 {
      return LabelWithin(Label(source, |content|, reason, 0, |content|), limit);
    }
    var spans := UntrustedFrameSpans(content);
    var head, tail, headEnd, tailStart := FrameSafeHeadTail(content, spans, available);
    return Label(source, |content|, reason, headEnd, tailStart) + HEAD_MARKER + head + TAIL_MARKER + tail;
  }

  // An excerpt never exceeds its limit, splits no rune, and leaves no frame
  // open or orphaned for any limit.
  lemma {:induction false} ExcerptIsSafe(content: string, source: Source, limit: int, reason: string)
    requires 0 <= limit < |content|
    ensures |ExcerptOf(content, source, limit, reason)| <= limit
    ensures var shown := ShownOf(content, source, limit, reason);
            && (shown.LabelOnly? <==> limit < Overhead(source, |content|, reason))
            && (shown.Parts? && WellEncoded(content) ==>
                  RuneBoundary(content, shown.headEnd) && RuneBoundary(content, shown.tailStart))
            && (shown.Parts? && WellFramed(content) && OneLine(source, reason) ==>
                  WellFramed(ExcerptOf(content, source, limit, reason)))
  {
    hide CutAt, FittingBudget, Label, Scan, ClosingAt, OpeningAt, WellFramed, WellEncoded;
    var available := limit - Overhead(source, |content|, reason);
    if available >= 0 {
      CutIsSafe(content, available);
      var shown := ShownOf(content, source, limit, reason);
      LabelFits(source, |content|, reason, shown.headEnd, shown.tailStart);
      var spans := Scan(content, 0, []);
      var head := content[..shown.headEnd] + ClosingAt(content, spans, shown.headEnd);
      var tail := OpeningAt(content, spans, shown.tailStart) + content[shown.tailStart..];
      ShownLength(content, spans, shown.headEnd, shown.tailStart);
      if WellFramed(content) && OneLine(source, reason) {
        ExcerptFramed(source, |content|, reason, shown.headEnd, shown.tailStart, head, tail);
      }
    }
  }

  // An excerpt shows as much as its budget lets it: the head reaches its half
  // and the tail starts at the other half, but for a cut through a rune or a
  // delimiter line, or before a bracket; and the budget is all the limit
  // leaves but for the delimiter lines that are emitted again.
  lemma {:induction false} ShownIsGreatest(content: string, source: Source, limit: int, reason: string) returns (budget: nat)
    requires Overhead(source, |content|, reason) <= limit < |content| && WellEncoded(content)
    ensures WholeLines(content, Scan(content, 0, []))
    ensures Shrunk(content, Scan(content, 0, []), limit - Overhead(source, |content|, reason),
                   limit - Overhead(source, |content|, reason), budget)
    ensures var spans := Scan(content, 0, []);
            var shown := ShownOf(content, source, limit, reason);
            && shown.Parts?
            && shown.headEnd <= (budget + 1) / 2
            && |content| - budget / 2 <= shown.tailStart
            && (forall c: nat :: shown.headEnd < c <= (budget + 1) / 2 && c <= |content| ==> Splitting(content, spans, c))
            && forall c: nat :: |content| - budget / 2 <= c < shown.tailStart ==> Joining(content, spans, c)
  {
    var available: nat := limit - Overhead(source, |content|, reason);
    var spans := Scan(content, 0, []);
    EmptyCut(content);
    hide Overhead, Scan, WholeLines, WellEncoded, Splitting, Joining, Shrunk, FittingBudget;
    budget := FittingBudget(content, spans, available, available);
    BudgetIsShrunk(content, spans, available, available);
    CutIsGreatest(content, spans, budget);
  }

  lemma {:induction false} CutIsGreatest(content: string, spans: seq<Span>, budget: nat)
    requires WholeLines(content, spans) && WellEncoded(content) && budget < |content|
    ensures var cut := CutAt(content, spans, budget);
            && cut.headEnd <= (budget + 1) / 2 && |content| - budget / 2 <= cut.tailStart
            && (forall c: nat :: cut.headEnd < c <= (budget + 1) / 2 && c <= |content| ==> Splitting(content, spans, c))
            && forall c: nat :: |content| - budget / 2 <= c < cut.tailStart ==> Joining(content, spans, c)
  {
    hide HeadCutAt, TailCutAt, WholeLines, WellEncoded, Splitting, Joining, Unsplit;
    var half, from := (budget + 1) / 2, |content| - budget / 2;
    assert budget - half == budget / 2;
    TailCutIsSafe(content, spans, from);
    var cut := CutAt(content, spans, budget);
    forall c: nat | cut.headEnd < c <= half && c <= |content|
      ensures Splitting(content, spans, c)
    {
      HeadCutIsGreatest(content, spans, half, c);
    }
    forall c: nat | from <= c < cut.tailStart
      ensures Joining(content, spans, c)
    {
      TailCutIsGreatest(content, spans, from, c);
    }
  }

  // Inside a rune, or at a bracket in mid-line.
  ghost predicate InRuneOrBracket(content: string, c: nat)
    requires c <= |content|
  {
    !RuneBoundary(content, c) || (0 < c < |content| && content[c] == '[' && content[c - 1] != '\n')
  }

  // Without frames the budget is all that the limit leaves.
  lemma {:induction false} PlainExcerptShowsAll(content: string, source: Source, limit: int, reason: string)
    requires Overhead(source, |content|, reason) <= limit < |content| && WellEncoded(content)
    requires Scan(content, 0, []) == []
    ensures var available, shown := limit - Overhead(source, |content|, reason), ShownOf(content, source, limit, reason);
            && shown.Parts?
            && (available + 1) / 2 - 3 <= shown.headEnd <= (available + 1) / 2
            && (forall c: nat :: shown.headEnd < c <= (available + 1) / 2 ==> c <= |content| && !RuneBoundary(content, c))
            && |content| - available / 2 <= shown.tailStart
            && forall c: nat :: |content| - available / 2 <= c < shown.tailStart ==> InRuneOrBracket(content, c)
  {
    hide *;
    var available: nat := limit - Overhead(source, |content|, reason);
    EmptyCut(content);
    PlainCutFits(content, available);
    ShownOfPlain(content, source, limit, reason);
    PlainCut(content, available);
  }

  lemma {:induction false} ShownOfPlain(content: string, source: Source, limit: int, reason: string)
    requires Overhead(source, |content|, reason) <= limit && Scan(content, 0, []) == [] && WholeLines(content, [])
    ensures var available: nat := limit - Overhead(source, |content|, reason);
            FittingBudget(content, [], available, available) == available ==>
              var c := CutAt(content, [], available); ShownOf(content, source, limit, reason) == Parts(c.headEnd, c.tailStart)
  {
    hide Overhead, Scan, FittingBudget, CutAt, WholeLines;
  }

  lemma {:induction false} PlainCut(content: string, budget: nat)
    requires WholeLines(content, []) && WellEncoded(content) && budget < |content|
    ensures var cut := CutAt(content, [], budget);
            && (budget + 1) / 2 - 3 <= cut.headEnd <= (budget + 1) / 2
            && (forall c: nat :: cut.headEnd < c <= (budget + 1) / 2 ==> c <= |content| && !RuneBoundary(content, c))
            && |content| - budget / 2 <= cut.tailStart <= |content|
            && forall c: nat :: |content| - budget / 2 <= c < cut.tailStart ==> InRuneOrBracket(content, c)
  {
    hide CutAt, WholeLines, WellEncoded, RuneBoundary;
    CutIsGreatest(content, [], budget);
    PlainHead(content, budget);
    var cut := CutAt(content, [], budget);
    forall c: nat | cut.headEnd < c <= (budget + 1) / 2
      ensures c <= |content| && !RuneBoundary(content, c)
    {
      assert Splitting(content, [], c);
    }
    forall c: nat | |content| - budget / 2 <= c < cut.tailStart
      ensures InRuneOrBracket(content, c)
    {
      assert Joining(content, [], c);
    }
  }

  lemma {:induction false} PlainHead(content: string, budget: nat)
    requires WholeLines(content, []) && budget < |content|
    ensures CutAt(content, [], budget).headEnd >= (budget + 1) / 2 - 3
  {
    RuneBackSteps(content, (budget + 1) / 2, 3);
  }

  lemma {:induction false} RuneBackSteps(s: string, cut: nat, steps: nat)
    requires cut <= |s|
    ensures RuneBack(s, cut, steps) >= cut - steps
  {
    if steps > 0 && 0 < cut < |s| && !RuneStart(s[cut]) {
      RuneBackSteps(s, cut - 1, steps - 1);
    }
  }

  lemma {:induction false} PlainCutFits(content: string, available: nat)
    requires WholeLines(content, []) && available < |content|
    ensures FittingBudget(content, [], available, available) == available
  {
    hide HeadCutAt, TailCutAt, WellEncoded;
    TailCutIsSafe(content, [], |content| - available / 2);
    assert available - (available + 1) / 2 == available / 2;
    assert OpenAt([], CutAt(content, [], available).headEnd) == [] == OpenAt([], CutAt(content, [], available).tailStart);
  }

  // The excerpt names its event and the offsets of what it leaves out, and
  // carries the content's own first and last bytes, each with nothing but
  // copied delimiter lines beside it: none where the content has no frames.
  lemma {:induction false} ExcerptReads(content: string, source: Source, limit: int, reason: string)
    returns (closing: string, opening: string)
    requires ShownOf(content, source, limit, reason).Parts?
    ensures var h, t, n := ShownOf(content, source, limit, reason).headEnd, ShownOf(content, source, limit, reason).tailStart, |content|;
            ExcerptOf(content, source, limit, reason)
            == "[tool result excerpt: event_id="
               + ((source.eventId + " original_bytes=" + Decimal(n)) + (" sha256=" + source.digest + " reason=" + reason)
                  + ((" shown=0-" + Decimal(h) + ",") + (Decimal(t) + "-" + Decimal(n)))
                  + ((("; read the omitted bytes " + "with read_tool_result event_id=") + source.eventId) + (" offset=" + Decimal(h) + "]")))
               + "\n<head>\n" + content[..h] + closing + "\n<tail>\n" + opening + content[t..]
    ensures Scan(content, 0, []) == [] ==> closing == "" && opening == ""
  {
    var h, t, n := ShownOf(content, source, limit, reason).headEnd, ShownOf(content, source, limit, reason).tailStart, |content|;
    closing, opening := ClosingAt(content, Scan(content, 0, []), h), OpeningAt(content, Scan(content, 0, []), t);
    NoneToClose(content, h, t);
    LabelReads(source, n, reason, h, t);
    hide *;
    ExcerptParts(content, source, limit, reason);
  }

  lemma {:induction false} NoneToClose(content: string, h: nat, t: nat)
    requires h <= |content|
    ensures ClosingAt(content, [], h) == "" && OpeningAt(content, [], t) == ""
  {
  }

  lemma {:induction false} LabelReads(source: Source, n: nat, reason: string, h: nat, t: nat)
    ensures Label(source, n, reason, h, t)
            == "[tool result excerpt: event_id="
               + ((source.eventId + " original_bytes=" + Decimal(n)) + (" sha256=" + source.digest + " reason=" + reason)
                  + ((" shown=0-" + Decimal(h) + ",") + (Decimal(t) + "-" + Decimal(n)))
                  + ((("; read the omitted bytes " + "with read_tool_result event_id=") + source.eventId) + (" offset=" + Decimal(h) + "]")))
  {
    hide Decimal;
  }

  lemma {:induction false} ExcerptParts(content: string, source: Source, limit: int, reason: string)
    requires ShownOf(content, source, limit, reason).Parts?
    ensures var shown := ShownOf(content, source, limit, reason);
            var spans := Scan(content, 0, []);
            ExcerptOf(content, source, limit, reason)
            == Label(source, |content|, reason, shown.headEnd, shown.tailStart)
               + "\n<head>\n" + content[..shown.headEnd] + ClosingAt(content, spans, shown.headEnd)
               + "\n<tail>\n" + OpeningAt(content, spans, shown.tailStart) + content[shown.tailStart..]
  {
    hide ShownOf, Label, Scan, ClosingAt, OpeningAt;
  }

  lemma {:induction false} ShownLength(content: string, spans: seq<Span>, headEnd: nat, tailStart: nat)
    requires headEnd <= tailStart <= |content|
    ensures ShownBytes(content, spans, Cut(headEnd, tailStart))
            == |content[..headEnd] + ClosingAt(content, spans, headEnd)|
               + |OpeningAt(content, spans, tailStart) + content[tailStart..]|
  {
  }

  // The longest prefix within limit that ends no rune short; the label is
  // ASCII unless the event's identity is not.
  function ValidPrefix(value: string, limit: nat): (prefix: string)
    requires limit <= |value|
    ensures prefix <= value && |prefix| <= limit
    decreases limit
  {
    if limit == 0 || limit == |value| || RuneStart(value[limit]) then value[..limit] else ValidPrefix(value, limit - 1)
  }

  ghost predicate OneLine(source: Source, reason: string) {
    '\n' !in source.eventId && '\n' !in source.digest && '\n' !in reason
  }

  lemma {:induction false} ExcerptFramed(source: Source, size: nat, reason: string, headEnd: nat, tailStart: nat, head: string, tail: string)
    requires OneLine(source, reason) && WellFramed(head) && WellFramed(tail)
    ensures WellFramed(Label(source, size, reason, headEnd, tailStart) + HEAD_MARKER + head + TAIL_MARKER + tail)
  {
    hide WellFramed, Decimal;
    var named := Label(source, size, reason, headEnd, tailStart);
    LabelOneLine(source, size, reason, headEnd, tailStart);
    assert named[0] == LABEL_START[0] && named[1] == LABEL_START[1];
    NotDelimiter(named);
    NotDelimiter("<head>");
    NotDelimiter("<tail>");
    FramedLine(named);
    FramedLine("<head>");
    FramedLine("<tail>");
    FramedJoin("<tail>", tail);
    FramedJoin(head, "<tail>" + "\n" + tail);
    FramedJoin("<head>", head + "\n" + ("<tail>" + "\n" + tail));
    FramedJoin(named, "<head>" + "\n" + (head + "\n" + ("<tail>" + "\n" + tail)));
    assert named + HEAD_MARKER + head + TAIL_MARKER + tail
        == named + "\n" + ("<head>" + "\n" + (head + "\n" + ("<tail>" + "\n" + tail)));
  }

  lemma {:induction false} LabelOneLine(source: Source, size: nat, reason: string, headEnd: nat, tailStart: nat)
    requires OneLine(source, reason)
    ensures '\n' !in Label(source, size, reason, headEnd, tailStart)
  {
    hide Origin, Ranges, Advice;
    OriginOneLine(source, size, reason);
    RangesOneLine(size, headEnd, tailStart);
    AdviceOneLine(source, reason, headEnd);
  }

  lemma {:induction false} OriginOneLine(source: Source, size: nat, reason: string)
    requires OneLine(source, reason)
    ensures '\n' !in Origin(source, size, reason)
  {
    hide Decimal;
  }

  lemma {:induction false} RangesOneLine(size: nat, headEnd: nat, tailStart: nat)
    ensures '\n' !in Ranges(size, headEnd, tailStart)
  {
    hide Decimal;
  }

  lemma {:induction false} AdviceOneLine(source: Source, reason: string, headEnd: nat)
    requires OneLine(source, reason)
    ensures '\n' !in Advice(source, headEnd)
  {
    hide Decimal;
    assert '\n' !in READ_WITH;
  }

  lemma {:induction false} NotDelimiter(line: string)
    requires |line| > 1 && (line[0] != '[' || (line[1] != 'b' && line[1] != 'e'))
    ensures !LooksDelimiter(line)
  {
    assert "[begin "[0] == '[' && "[begin "[1] == 'b' && "[end "[0] == '[' && "[end "[1] == 'e';
    if |line| >= 7 {
      assert line[..7][0] == line[0] && line[..7][1] == line[1];
    }
    if |line| >= 5 {
      assert line[..5][0] == line[0] && line[..5][1] == line[1];
    }
  }
}
