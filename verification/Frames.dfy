/**
 * Untrusted-data frames and the head and tail excerpt of a tool result
 * (internal/agent/tool_results.go). A Go string is a sequence of bytes, held
 * here as characters below 256.
 */
module Frames {
  import opened Wrappers

  // One line of content: [start, end) excludes its newline.
  datatype Line = Line(start: nat, end: nat)

  datatype Span = Span(begin: Line, end: Line)

  function HasPrefix(s: string, prefix: string): bool {
    |prefix| <= |s| && s[..|prefix|] == prefix
  }

  function HasSuffix(s: string, suffix: string): bool {
    |suffix| <= |s| && s[|s| - |suffix|..] == suffix
  }

  function TrimPrefix(s: string, prefix: string): string {
    if HasPrefix(s, prefix) then s[|prefix|..] else s
  }

  function TrimSuffix(s: string, suffix: string): string {
    if HasSuffix(s, suffix) then s[..|s| - |suffix|] else s
  }

  // The first newline at or after from, or the end of s.
  function IndexNewline(s: string, from: nat): (i: nat)
    requires from <= |s|
    ensures from <= i <= |s| && (i < |s| ==> s[i] == '\n')
    ensures forall k :: from <= k < i ==> s[k] != '\n'
    decreases |s| - from
  {
    if from == |s| || s[from] == '\n' then from else IndexNewline(s, from + 1)
  }

  // ---- delimiter lines ----

  predicate LooksBegin(line: string) {
    HasPrefix(line, "[begin ")
  }

  predicate LooksEnd(line: string) {
    HasPrefix(line, "[end ")
  }

  predicate LooksDelimiter(line: string) {
    LooksBegin(line) || LooksEnd(line)
  }

  predicate IsBegin(line: string) {
    LooksBegin(line) && HasSuffix(line, "]")
  }

  predicate IsEnd(line: string) {
    LooksEnd(line) && HasSuffix(line, "]")
  }

  // How many digits s ends with.
  function TrailingDigits(s: string): (n: nat)
    ensures n <= |s|
  {
    if s == "" || !('0' <= s[|s| - 1] <= '9') then 0 else 1 + TrailingDigits(s[..|s| - 1])
  }

  // The match of " #[0-9]+$", or nothing.
  function NumberSuffix(kind: string): (number: string)
    ensures HasSuffix(kind, number)
  {
    var n := TrailingDigits(kind);
    if n > 0 && |kind| >= n + 2 && kind[|kind| - n - 2..|kind| - n] == " #" then kind[|kind| - n - 2..] else ""
  }

  predicate DelimitersPair(begin: string, end: string) {
    var numbered := TrimSuffix(TrimPrefix(end, "[end "), "]");
    var number := NumberSuffix(numbered);
    var kind := TrimSuffix(numbered, number);
    var body := TrimSuffix(TrimPrefix(begin, "[begin "), "]");
    && kind != "" && HasPrefix(body, kind) && (|body| > |kind| ==> body[|kind|] == ' ')
    && (number == "" || HasSuffix(body, number))
  }

  // ---- which delimiters pair ----

  ghost predicate Digits(s: string) {
    s != "" && forall k :: 0 <= k < |s| ==> '0' <= s[k] <= '9'
  }

  lemma {:induction false} TrailingIs(s: string, number: string)
    requires s == "" || !('0' <= s[|s| - 1] <= '9')
    requires forall k :: 0 <= k < |number| ==> '0' <= number[k] <= '9'
    ensures TrailingDigits(s + number) == |number|
  {
    var whole := s + number;
    if number == "" {
      assert whole == s;
    } else {
      TrailingIs(s, number[..|number| - 1]);
      assert whole[..|whole| - 1] == s + number[..|number| - 1];
    }
  }

  lemma {:induction false} NumberIs(kind: string, number: string)
    requires Digits(number)
    ensures NumberSuffix(kind + " #" + number) == " #" + number
  {
    var numbered := kind + " #" + number;
    TrailingIs(kind + " #", number);
    assert numbered[|numbered| - |number| - 2..|numbered| - |number|] == " #";
    assert numbered[|numbered| - |number| - 2..] == " #" + number;
  }

  // "[begin kind note]" and "[end tail]" pair when tail's kind starts the
  // first and its number ends it.
  lemma {:induction false} PairParts(body: string, tail: string)
    ensures DelimitersPair("[begin " + body + "]", "[end " + tail + "]") <==>
              var number := NumberSuffix(tail);
              var kind := TrimSuffix(tail, number);
              && kind != "" && HasPrefix(body, kind) && (|body| > |kind| ==> body[|kind|] == ' ')
              && (number == "" || HasSuffix(body, number))
  {
    var begin, end := "[begin " + body + "]", "[end " + tail + "]";
    assert begin[..7] == "[begin " && begin[7..] == body + "]";
    assert end[..5] == "[end " && end[5..] == tail + "]";
    assert (body + "]")[|body|..] == "]" && (body + "]")[..|body|] == body;
    assert (tail + "]")[|tail|..] == "]" && (tail + "]")[..|tail|] == tail;
  }

  lemma {:induction false} PairNumbered(kind: string, rest: string, number: string)
    requires kind != "" && number != "" && rest != "" && rest[0] == ' ' && NumberSuffix(kind + number) == number
    ensures DelimitersPair("[begin " + (kind + rest) + "]", "[end " + (kind + number) + "]") <==> HasSuffix(kind + rest, number)
  {
    PairParts(kind + rest, kind + number);
    TrimsEnd(kind, number);
    StartsWith(kind, rest);
    hide *;
  }

  // Frames of a kind pair by their numbers.
  lemma {:induction false} NumberedFramesPair(kind: string, note: string, m: string, n: string)
    requires kind != "" && (note == "" || note[0] == ' ') && Digits(m) && Digits(n)
    ensures DelimitersPair("[begin " + (kind + note + " #" + m) + "]", "[end " + (kind + " #" + n) + "]") <==> m == n
  {
    hide *;
    NumberIs(kind, n);
    NumberEnds(kind + note, m, n);
    FirstSpace(note, m);
    Regroup(kind, "", n);
    Regroup(kind, note, m);
    PairNumbered(kind, note + " #" + m, " #" + n);
  }

  lemma {:induction false} Regroup(kind: string, note: string, n: string)
    ensures kind + note + " #" + n == kind + (note + " #" + n)
    ensures note == "" ==> kind + " #" + n == kind + (" #" + n)
  {
  }

  lemma {:induction false} FirstSpace(note: string, m: string)
    requires note == "" || note[0] == ' '
    ensures (note + " #" + m)[0] == ' '
  {
  }

  lemma {:induction false} TrimsEnd(s: string, suffix: string)
    ensures TrimSuffix(s + suffix, suffix) == s && HasSuffix(s + suffix, suffix)
  {
    var whole := s + suffix;
    assert whole[|whole| - |suffix|..] == suffix && whole[..|whole| - |suffix|] == s;
  }

  lemma {:induction false} StartsWith(s: string, rest: string)
    ensures HasPrefix(s + rest, s) && (rest != "" ==> (s + rest)[|s|] == rest[0])
  {
    assert (s + rest)[..|s|] == s;
  }

  lemma {:induction false} NumberEnds(s: string, m: string, n: string)
    requires Digits(m) && Digits(n)
    ensures HasSuffix(s + " #" + m, " #" + n) <==> m == n
  {
    hide TrailingDigits, Digits, HasSuffix;
    TrimsEnd(s, " #" + n);
    assert s + (" #" + n) == s + " #" + n;
    if HasSuffix(s + " #" + m, " #" + n) {
      SameNumber(s, m, n);
    }
  }

  lemma {:induction false} SameNumber(s: string, m: string, n: string)
    requires Digits(m) && Digits(n) && HasSuffix(s + " #" + m, " #" + n)
    ensures m == n
  {
    var body := s + " #" + m;
    var x := body[..|body| - |n| - 2] + " #";
    EndsIn(body, " #" + n);
    assert body == x + n;
    TrailingIs(s + " #", m);
    TrailingIs(x, n);
    hide *;
    assert body[|body| - |m|..] == m && (x + n)[|x|..] == n;
  }

  lemma {:induction false} EndsIn(body: string, suffix: string)
    requires HasSuffix(body, suffix)
    ensures |suffix| <= |body| && body == body[..|body| - |suffix|] + suffix
  {
  }

  // Unnumbered frames pair by their kinds.
  lemma {:induction false} FramesPairByKind(kind: string, note: string, other: string)
    requires kind != "" && other != "" && ' ' !in kind && ' ' !in other && (note == "" || note[0] == ' ')
    ensures DelimitersPair("[begin " + (kind + note) + "]", "[end " + other + "]") <==> kind == other
  {
    PairParts(kind + note, other);
    NoNumber(other);
    hide *;
    TrimsEnd(other, "");
    assert other + "" == other;
    StartsWith(kind, note);
    FirstWord(kind, note, other);
  }

  // A word starts text before its first space only when it is all of it.
  lemma {:induction false} FirstWord(kind: string, note: string, other: string)
    requires ' ' !in kind && ' ' !in other && (note == "" || note[0] == ' ')
    ensures HasPrefix(kind + note, other) && (|kind + note| > |other| ==> (kind + note)[|other|] == ' ') ==> kind == other
  {
    var body := kind + note;
    assert forall k :: 0 <= k < |kind| ==> body[k] == kind[k];
    assert note != "" ==> body[|kind|] == ' ';
    if HasPrefix(body, other) {
      assert forall k :: 0 <= k < |other| ==> other[k] == body[..|other|][k];
    }
  }

  lemma {:induction false} NoNumber(kind: string)
    requires ' ' !in kind
    ensures NumberSuffix(kind) == ""
  {
    var n := TrailingDigits(kind);
    if |kind| >= n + 2 {
      assert kind[|kind| - n - 2..|kind| - n][0] == kind[|kind| - n - 2];
    }
  }

  // ---- untrustedFrameSpans ----

  function Text(content: string, line: Line): string {
    if line.start <= line.end <= |content| then content[line.start..line.end] else ""
  }

  function LineAt(content: string, start: nat): Line
    requires start < |content|
  {
    Line(start, IndexNewline(content, start))
  }

  // Where the next line starts, or the end of content.
  function NextLine(content: string, start: nat): (next: nat)
    requires start < |content|
    ensures start < next <= |content|
  {
    var end := IndexNewline(content, start);
    if end < |content| then end + 1 else end
  }

  // The innermost open line that an end line closes, or -1.
  function Innermost(content: string, open: seq<Line>, end: string): (i: int)
    ensures -1 <= i < |open|
  {
    if open == [] then -1
    else if DelimitersPair(Text(content, open[|open| - 1]), end) then |open| - 1
    else Innermost(content, open[..|open| - 1], end)
  }

  // What one line closes, and the frames it leaves open.
  function ScanLine(content: string, line: Line, open: seq<Line>): (seq<Span>, seq<Line>) {
    var text := Text(content, line);
    if IsBegin(text) then ([], open + [line])
    else if IsEnd(text) then
      var i := Innermost(content, open, text);
      if i >= 0 then ([Span(open[i], line)], open[..i]) else ([], open)
    else ([], open)
  }

  // The frames closed from start on, when open are open there.
  function Scan(content: string, start: nat, open: seq<Line>): seq<Span>
    requires start <= |content|
    decreases |content| - start
  {
    if start == |content| then []
    else
      var (closed, left) := ScanLine(content, LineAt(content, start), open);
      closed + Scan(content, NextLine(content, start), left)
  }

  method FindInnermost(content: string, open: seq<Line>, end: string) returns (i: int)
    ensures i == Innermost(content, open, end)
  {
    hide DelimitersPair, HasPrefix;
    assert open[..|open|] == open;
    i := |open| - 1;
    while i >= 0 && !DelimitersPair(Text(content, open[i]), end)
      invariant -1 <= i < |open|
      invariant Innermost(content, open, end) == Innermost(content, open[..i + 1], end)
    {
      assert open[..i + 1][..i] == open[..i];
      i := i - 1;
    }
  }

  method UntrustedFrameSpans(content: string) returns (spans: seq<Span>)
    ensures spans == Scan(content, 0, [])
  {
    hide *;
    var open: seq<Line> := [];
    spans := [];
    var start := 0;
    ScanAtEnd(content, open);
    while start < |content|
      invariant Scan(content, 0, []) == spans + (if start < |content| then Scan(content, start, open) else [])
    {
      var line := Line(start, IndexNewline(content, start));
      var text := content[start..line.end];
      ScanNext(content, start, open);
      ghost var at := Innermost(content, open, text);
      ghost var closed := if !IsBegin(text) && IsEnd(text) && at >= 0 then [Span(open[at], line)] else [];
      JoinSpans(spans, closed, Scan(content, start, open));
      if IsBegin(text) {
        open := open + [line];
      } else if IsEnd(text) {
        var i := FindInnermost(content, open, text);
        if i >= 0 {
          spans := spans + [Span(open[i], line)];
          open := open[..i];
        }
      }
      start := line.end + 1;
    }
  }

  lemma {:induction false} JoinSpans(spans: seq<Span>, closed: seq<Span>, found: seq<Span>)
    requires closed <= found
    ensures spans + found == (spans + closed) + found[|closed|..]
    ensures spans + [] == spans
  {
  }

  lemma {:induction false} ScanAtEnd(content: string, open: seq<Line>)
    ensures Scan(content, |content|, open) == []
  {
  }

  lemma {:induction false} ScanNext(content: string, start: nat, open: seq<Line>)
    requires start < |content|
    ensures var line := Line(start, IndexNewline(content, start));
            var text := content[start..line.end];
            var i := Innermost(content, open, text);
            var paired := !IsBegin(text) && IsEnd(text) && i >= 0;
            var left := if IsBegin(text) then open + [line] else if paired then open[..i] else open;
            Scan(content, start, open)
            == (if paired then [Span(open[i], line)] else [])
               + (if line.end + 1 < |content| then Scan(content, line.end + 1, left) else [])
  {
    hide Scan, IsBegin, IsEnd, Innermost;
    assert Text(content, LineAt(content, start)) == content[start..IndexNewline(content, start)];
    ScanCons(content, start, open);
    var next := IndexNewline(content, start) + 1;
    if next >= |content| {
      ScanAtEnd(content, ScanLine(content, LineAt(content, start), open).1);
    }
  }

  lemma {:induction false} ScanCons(content: string, start: nat, open: seq<Line>)
    requires start < |content|
    ensures var (closed, left) := ScanLine(content, LineAt(content, start), open);
            Scan(content, start, open) == closed + Scan(content, NextLine(content, start), left)
  {
    hide ScanLine;
  }

  // ---- what it means for every delimiter line to be paired ----

  function Lines(s: string): seq<string> {
    if s == "" then []
    else
      var end := IndexNewline(s, 0);
      [s[..end]] + (if end < |s| then Lines(s[end + 1..]) else [])
  }

  // The open begin lines after a line, unless the line is an unpaired delimiter.
  function Step(line: string, open: seq<string>): Option<seq<string>> {
    if LooksBegin(line) then
      if IsBegin(line) then Some(open + [line]) else None
    else if LooksEnd(line) then
      if IsEnd(line) && open != [] && DelimitersPair(open[|open| - 1], line) then Some(open[..|open| - 1]) else None
    else Some(open)
  }

  function Run(lines: seq<string>, open: seq<string>): Option<seq<string>> {
    if lines == [] then Some(open)
    else
      var next := Step(lines[0], open);
      if next.None? then None else Run(lines[1..], next.value)
  }

  // Every line that starts like a delimiter is one, and the frames nest.
  predicate WellFramed(s: string) {
    Run(Lines(s), []) == Some([])
  }

  function Delimiters(lines: seq<string>): nat {
    if lines == [] then 0 else (if LooksDelimiter(lines[0]) then 1 else 0) + Delimiters(lines[1..])
  }

  function Texts(content: string, open: seq<Line>): (texts: seq<string>)
    ensures |texts| == |open|
  {
    seq(|open|, i requires 0 <= i < |open| => Text(content, open[i]))
  }

  lemma {:induction false} LinesUnfold(s: string)
    requires s != ""
    ensures var end := IndexNewline(s, 0); Lines(s) == [s[..end]] + (if end < |s| then Lines(s[end + 1..]) else [])
  {
  }

  // A first line ends at any newline that no other precedes.
  lemma {:induction false} FirstLine(s: string, end: nat)
    requires s != "" && end <= |s| && (end < |s| ==> s[end] == '\n')
    requires forall k :: 0 <= k < end ==> s[k] != '\n'
    ensures Lines(s) == [s[..end]] + (if end < |s| then Lines(s[end + 1..]) else [])
  {
    hide *;
    NewlineIs(s, end);
    LinesUnfold(s);
  }

  lemma {:induction false} NewlineIs(s: string, end: nat)
    requires end <= |s| && (end < |s| ==> s[end] == '\n')
    requires forall k :: 0 <= k < end ==> s[k] != '\n'
    ensures IndexNewline(s, 0) == end
  {
    hide *;
    var i := IndexNewline(s, 0);
    assert i < |s| ==> s[i] == '\n';
    assert end < |s| ==> s[end] == '\n';
  }

  lemma {:induction false} LinesFrom(content: string, start: nat, to: nat)
    requires start < to <= |content|
    ensures var end := IndexNewline(content, start);
            Lines(content[start..to]) ==
              if end < to then [content[start..end]] + Lines(content[end + 1..to]) else [content[start..to]]
  {
    hide *;
    var end := IndexNewline(content, start);
    var s := content[start..to];
    if end < to {
      assert forall k :: 0 <= k < end - start ==> s[k] == content[start + k];
      FirstLine(s, end - start);
      assert s[..end - start] == content[start..end];
      assert s[end - start + 1..] == content[end + 1..to];
    } else {
      assert forall k :: 0 <= k < |s| ==> s[k] == content[start + k];
      FirstLine(s, |s|);
      assert s[..|s|] == s;
    }
  }

  lemma {:induction false} LinesOfNothing()
    ensures Lines("") == []
  {
  }

  lemma {:induction false} LinesAtNext(content: string, start: nat)
    requires start < |content|
    ensures Lines(content[start..]) ==
              [Text(content, LineAt(content, start))] + Lines(content[NextLine(content, start)..])
  {
    hide Lines;
    LinesOfNothing();
    LinesFrom(content, start, |content|);
    assert content[start..|content|] == content[start..];
    var next := NextLine(content, start);
    assert content[next..|content|] == content[next..];
  }

  // What a line closes and leaves open when every delimiter pairs.
  function ClosedBy(content: string, line: Line, open: seq<Line>): seq<Span> {
    if LooksEnd(Text(content, line)) && open != [] then [Span(open[|open| - 1], line)] else []
  }

  function LeftBy(content: string, line: Line, open: seq<Line>): seq<Line> {
    if LooksBegin(Text(content, line)) then open + [line]
    else if LooksEnd(Text(content, line)) && open != [] then open[..|open| - 1]
    else open
  }

  lemma {:induction false} BeginIsNotEnd(line: string)
    ensures LooksBegin(line) ==> !LooksEnd(line)
  {
    if LooksBegin(line) {
      assert line[..7][1] == line[1] == 'b';
      assert line[..5][1] == 'b' && "[end "[1] == 'e';
    }
  }

  // Where the strict reading goes on, the scan closes the same frame.
  lemma {:induction false} StepAgrees(content: string, line: Line, open: seq<Line>)
    requires Step(Text(content, line), Texts(content, open)).Some?
    ensures Step(Text(content, line), Texts(content, open)) == Some(Texts(content, LeftBy(content, line, open)))
    ensures ScanLine(content, line, open) == (ClosedBy(content, line, open), LeftBy(content, line, open))
    ensures var text := Text(content, line);
            && (LooksBegin(text) ==> IsBegin(text))
            && (LooksEnd(text) ==> IsEnd(text) && open != [] && DelimitersPair(Text(content, open[|open| - 1]), text))
            && !(LooksBegin(text) && LooksEnd(text))
  {
    hide DelimitersPair, LooksBegin, LooksEnd;
    var text := Text(content, line);
    BeginIsNotEnd(text);
    if IsBegin(text) {
      assert Texts(content, open) + [text] == Texts(content, open + [line]);
    } else if LooksEnd(text) {
      assert DelimitersPair(Text(content, open[|open| - 1]), text);
      assert Texts(content, open)[..|open| - 1] == Texts(content, open[..|open| - 1]);
    }
  }

  // A line closes at most the open frames it ends, and accounts for itself
  // exactly when the strict reading goes on.
  lemma {:induction false} StepPairs(content: string, line: Line, open: seq<Line>)
    ensures var text := Text(content, line);
            var (closed, left) := ScanLine(content, line, open);
            var looks := if LooksDelimiter(text) then 1 else 0;
            && 2 * |closed| + |left| <= looks + |open|
            && (2 * |closed| + |left| == looks + |open| <==> Step(text, Texts(content, open)).Some?)
  {
    hide DelimitersPair, HasPrefix, HasSuffix;
    BeginIsNotEnd(Text(content, line));
  }

  lemma {:induction false} RunCons(line: string, rest: seq<string>, open: seq<string>)
    ensures Run([line] + rest, open) == if Step(line, open).None? then None else Run(rest, Step(line, open).value)
    ensures Delimiters([line] + rest) == (if LooksDelimiter(line) then 1 else 0) + Delimiters(rest)
  {
    hide DelimitersPair, HasPrefix, HasSuffix, Step;
    var lines := [line] + rest;
    assert lines[0] == line && lines[1..] == rest;
  }

  // The scan pairs at most the delimiter lines and the open ones, and pairs
  // them all exactly when the content is well framed.
  lemma {:induction false} PairsAll(content: string, start: nat, open: seq<Line>)
    requires start <= |content|
    ensures var rest := Lines(content[start..]);
            && 2 * |Scan(content, start, open)| <= Delimiters(rest) + |open|
            && (2 * |Scan(content, start, open)| == Delimiters(rest) + |open|
                <==> Run(rest, Texts(content, open)) == Some([]))
    decreases |content| - start
  {
    if start == |content| {
      assert content[start..] == "";
    } else {
      hide *;
      var line := LineAt(content, start);
      var (closed, left) := ScanLine(content, line, open);
      LinesAtNext(content, start);
      ScanCons(content, start, open);
      RunCons(Text(content, line), Lines(content[NextLine(content, start)..]), Texts(content, open));
      PairsAll(content, NextLine(content, start), left);
      StepPairs(content, line, open);
      if Step(Text(content, line), Texts(content, open)).Some? {
        StepAgrees(content, line, open);
      }
    }
  }

  lemma {:induction false} WellFramedPairsAll(content: string)
    ensures WellFramed(content) <==> 2 * |Scan(content, 0, [])| == Delimiters(Lines(content))
  {
    PairsAll(content, 0, []);
    assert content[0..] == content;
    assert Texts(content, []) == [];
  }
}
