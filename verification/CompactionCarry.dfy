/**
 * Carrying a prior summary's sections into the next generation
 * (internal/agent/compaction_carry.go, internal/memory/event.go).
 */
module CompactionCarry {
  import opened Wrappers

  const HEADINGS: seq<string> := [
    "Goal / criteria / constraints",
    "Current state / completed actions",
    "Decisions / discoveries",
    DURABLE + OUTCOMES,
    "Unresolved questions / blockers / risks",
    "Next steps",
    "User preferences / commitments"]

  const DURABLE := "Durable paths / IDs / "
  const OUTCOMES := "artifacts / tool outcomes"

  const RESOLVABLE: set<nat> := {4, 5}
  const SUMMARY_MAX_BYTES := 16 * 1024

  datatype Kind = Substantive | EmptySection | Reference

  datatype CarryError = InvalidPrior | InvalidGenerated | InvalidCarried

  // How text is read: whether a line is blank, and a section's kind.
  datatype Reader = Reader(blank: string -> bool, classify: seq<string> -> Kind)

  // ---- lines ----

  // strings.Split by newline.
  function Split(s: string): (lines: seq<string>)
    ensures lines != []
  {
    if s == "" then [""]
    else if s[0] == '\n' then [""] + Split(s[1..])
    else
      var rest := Split(s[1..]);
      [[s[0]] + rest[0]] + rest[1..]
  }

  function Join(lines: seq<string>): string {
    if lines == [] then "" else if |lines| == 1 then lines[0] else lines[0] + "\n" + Join(lines[1..])
  }

  ghost predicate OneLined(lines: seq<string>) {
    forall k :: 0 <= k < |lines| ==> '\n' !in lines[k]
  }

  lemma {:induction false} SplitLine(line: string, rest: string)
    requires '\n' !in line
    ensures Split(line + "\n" + rest) == [line] + Split(rest)
    ensures Split(line) == [line]
  {
    if line == "" {
      assert line + "\n" + rest == "\n" + rest;
      assert ("\n" + rest)[1..] == rest;
    } else {
      SplitLine(line[1..], rest);
      assert (line + "\n" + rest)[1..] == line[1..] + "\n" + rest;
      assert [line[0]] + line[1..] == line;
    }
  }

  // Splitting joined lines gives them back.
  lemma {:induction false} SplitJoined(lines: seq<string>)
    requires lines != [] && OneLined(lines)
    ensures Split(Join(lines)) == lines
  {
    if |lines| == 1 {
      SplitLine(lines[0], "");
    } else {
      SplitJoined(lines[1..]);
      SplitLine(lines[0], Join(lines[1..]));
    }
  }

  lemma {:induction false} SplitOneLined(s: string)
    ensures OneLined(Split(s))
  {
    if s != "" {
      SplitOneLined(s[1..]);
    }
  }

  // ---- validated summaries ----

  predicate IsHeading(line: string, i: nat)
    requires i < |HEADINGS|
  {
    (if |line| > 0 && line[|line| - 1] == '\r' then line[..|line| - 1] else line) == "## " + HEADINGS[i]
  }

  // Heading i stands on line k and nowhere else.
  ghost predicate OnlyAt(lines: seq<string>, i: nat, k: int)
    requires i < |HEADINGS|
  {
    && 0 <= k < |lines| && IsHeading(lines[k], i)
    && forall m :: 0 <= m < |lines| && IsHeading(lines[m], i) ==> m == k
  }

  ghost predicate Sections(lines: seq<string>, positions: seq<int>) {
    && |positions| == |HEADINGS|
    && (forall i :: 0 <= i < |positions| ==> OnlyAt(lines, i, positions[i]))
    && forall i, j :: 0 <= i < j < |positions| ==> positions[i] < positions[j]
  }

  function Body(lines: seq<string>, positions: seq<int>, i: nat): seq<string>
    requires i < |positions|
  {
    var end := if i + 1 < |positions| then positions[i + 1] else |lines|;
    if 0 <= positions[i] + 1 <= end <= |lines| then lines[positions[i] + 1..end] else []
  }

  predicate Blank(reader: Reader, body: seq<string>) {
    forall k :: 0 <= k < |body| ==> reader.blank(body[k])
  }

  // memory.ValidateContextCompactionSummary: each heading exactly once, in
  // order, over a body that is not blank, within the size limit.
  ghost predicate ValidSummary(reader: Reader, summary: string, positions: seq<int>) {
    && |summary| <= SUMMARY_MAX_BYTES && Sections(Split(summary), positions)
    && forall i :: 0 <= i < |positions| ==> !Blank(reader, Body(Split(summary), positions, i))
  }

  ghost predicate IsValid(reader: Reader, summary: string) {
    exists positions :: ValidSummary(reader, summary, positions)
  }

  // ---- a summary as it is asked for ----

  // The headings of the first n sections over these bodies.
  function Written(bodies: seq<seq<string>>, n: nat): seq<string>
    requires n <= |bodies| == 7
  {
    if n == 0 then [] else Written(bodies, n - 1) + ["## " + HEADINGS[n - 1]] + bodies[n - 1]
  }

  ghost predicate NoHeadings(body: seq<string>) {
    forall k, i :: 0 <= k < |body| && 0 <= i < 7 ==> body[k] != "## " + HEADINGS[i] && body[k] != "## " + HEADINGS[i] + "\r"
  }

  function WrittenAt(bodies: seq<seq<string>>): seq<int>
    requires |bodies| == 7
  {
    seq(7, i requires 0 <= i < 7 => |Written(bodies, i)|)
  }

  lemma {:induction false} HeadingLine(line: string, i: nat)
    requires i < 7
    ensures IsHeading(line, i) <==> line == "## " + HEADINGS[i] || line == "## " + HEADINGS[i] + "\r"
  {
    var heading := "## " + HEADINGS[i];
    assert heading[|heading| - 1] == HEADINGS[i][|HEADINGS[i]| - 1] != '\r';
    if line != "" && line[|line| - 1] == '\r' {
      assert line == line[..|line| - 1] + "\r";
    }
  }

  lemma {:induction false} HeadingSizes()
    ensures |HEADINGS| == 7
    ensures |HEADINGS[0]| == 29 && |HEADINGS[1]| == 33 && |HEADINGS[2]| == 23 && |HEADINGS[3]| == 47
    ensures |HEADINGS[4]| == 39 && |HEADINGS[5]| == 10 && |HEADINGS[6]| == 30
  {
  }

  lemma {:induction false} HeadingsDiffer(i: nat, j: nat)
    requires i < 7 && j < 7 && IsHeading("## " + HEADINGS[j], i)
    ensures i == j
  {
    var heading := "## " + HEADINGS[j];
    HeadingLine(heading, i);
    assert heading[|heading| - 1] == HEADINGS[j][|HEADINGS[j]| - 1] != '\r';
    HeadingSizes();
    hide *;
    var marked := "## " + HEADINGS[i] + "\r";
    assert marked[|marked| - 1] == '\r';
    assert heading == "## " + HEADINGS[i];
    assert |HEADINGS[i]| == |HEADINGS[j]|;
  }

  lemma {:induction false} HeadingOneLined(i: nat)
    requires i < 7
    ensures '\n' !in "## " + HEADINGS[i]
  {
    FirstHeadingsOneLined();
    LastHeadingsOneLined();
    assert HEADINGS[3] == DURABLE + OUTCOMES;
    hide *;
  }

  lemma {:induction false} FirstHeadingsOneLined()
    ensures '\n' !in HEADINGS[0] && '\n' !in HEADINGS[1] && '\n' !in HEADINGS[2] && '\n' !in DURABLE && '\n' !in OUTCOMES
  {
    assert '\n' !in HEADINGS[0];
    assert '\n' !in HEADINGS[1];
    assert '\n' !in HEADINGS[2];
  }

  lemma {:induction false} LastHeadingsOneLined()
    ensures '\n' !in HEADINGS[4] && '\n' !in HEADINGS[5] && '\n' !in HEADINGS[6]
  {
    assert '\n' !in HEADINGS[4];
    assert '\n' !in HEADINGS[5];
  }

  lemma {:induction false} WrittenHeadings(bodies: seq<seq<string>>, n: nat, m: nat, i: nat)
    requires n <= |bodies| == 7 && m < |Written(bodies, n)| && i < 7 && forall k :: 0 <= k < 7 ==> NoHeadings(bodies[k])
    ensures IsHeading(Written(bodies, n)[m], i) <==> i < n && m == |Written(bodies, i)|
  {
    hide IsHeading;
    var before := Written(bodies, n - 1);
    WrittenGrows(bodies, i, if i < n then n - 1 else i);
    if m < |before| {
      WrittenHeadings(bodies, n - 1, m, i);
    } else if m == |before| {
      HeadingLine("## " + HEADINGS[n - 1], i);
      if IsHeading("## " + HEADINGS[n - 1], i) {
        HeadingsDiffer(i, n - 1);
      }
      if i < n - 1 {
        WrittenGrows(bodies, i + 1, n - 1);
      }
    } else {
      HeadingLine(Written(bodies, n)[m], i);
      assert Written(bodies, n)[m] == bodies[n - 1][m - |before| - 1];
    }
  }

  lemma {:induction false} WrittenGrows(bodies: seq<seq<string>>, i: nat, n: nat)
    requires i <= n <= |bodies| == 7
    ensures Written(bodies, i) <= Written(bodies, n)
  {
    if i < n {
      WrittenGrows(bodies, i, n - 1);
    }
  }

  // Seven sections as asked for, none blank and none quoting a heading, are a
  // valid summary within its size, and each body reads back.
  lemma {:induction false} WrittenIsValid(reader: Reader, bodies: seq<seq<string>>)
    requires |bodies| == 7 && forall k :: 0 <= k < 7 ==> OneLined(bodies[k]) && NoHeadings(bodies[k])
    requires forall k :: 0 <= k < 7 ==> exists n :: 0 <= n < |bodies[k]| && !reader.blank(bodies[k][n])
    requires |Join(Written(bodies, 7))| <= 16 * 1024
    ensures ValidSummary(reader, Join(Written(bodies, 7)), WrittenAt(bodies))
    ensures forall i :: 0 <= i < 7 ==> Body(Split(Join(Written(bodies, 7))), WrittenAt(bodies), i) == bodies[i]
  {
    hide Join, Split, IsHeading, NoHeadings, OneLined, OnlyAt, Body, Written;
    WrittenOneLined(bodies, 7);
    var lines, at := Written(bodies, 7), WrittenAt(bodies);
    SplitJoined(lines);
    forall i | 0 <= i < 7
      ensures OnlyAt(lines, i, at[i]) && Body(lines, at, i) == bodies[i]
      ensures forall j :: i < j < 7 ==> at[i] < at[j]
    {
      WrittenAtSection(bodies, i);
    }
  }

  // The i-th heading, with a line below it, before the next, that is not blank.
  ghost predicate SectionAt(reader: Reader, lines: seq<string>, i: nat, at: int, end: int)
    requires i < 7
  {
    && 0 <= at < end <= |lines| && (lines[at] == "## " + HEADINGS[i] || lines[at] == "## " + HEADINGS[i] + "\r")
    && exists k :: at < k < end && !reader.blank(lines[k])
  }

  // A valid summary is within its size and has its seven sections in order.
  lemma {:induction false} ValidSays(reader: Reader, summary: string, positions: seq<int>)
    requires ValidSummary(reader, summary, positions)
    ensures |summary| <= 16 * 1024 && |positions| == 7
    ensures forall i :: 0 <= i < 6 ==> SectionAt(reader, Split(summary), i, positions[i], positions[i + 1])
    ensures SectionAt(reader, Split(summary), 6, positions[6], |Split(summary)|)
  {
    hide Split, OnlyAt, IsHeading, SectionAt;
    forall i | 0 <= i < 7
      ensures SectionAt(reader, Split(summary), i, positions[i], if i < 6 then positions[i + 1] else |Split(summary)|)
    {
      SectionSays(reader, Split(summary), positions, i);
    }
    SectionSays(reader, Split(summary), positions, 6);
  }

  lemma {:induction false} SectionSays(reader: Reader, lines: seq<string>, positions: seq<int>, i: nat)
    requires Sections(lines, positions) && i < 7 && !Blank(reader, Body(lines, positions, i))
    ensures SectionAt(reader, lines, i, positions[i], if i < 6 then positions[i + 1] else |lines|)
  {
    hide IsHeading;
    HeadingInLines(lines, positions, i);
    assert OnlyAt(lines, i, positions[i]);
    HeadingLine(lines[positions[i]], i);
    var body := Body(lines, positions, i);
    var n :| 0 <= n < |body| && !reader.blank(body[n]);
    assert body[n] == lines[positions[i] + 1 + n];
  }

  lemma {:induction false} WrittenAtSection(bodies: seq<seq<string>>, i: nat)
    requires i < |bodies| == 7 && forall k :: 0 <= k < 7 ==> NoHeadings(bodies[k])
    ensures OnlyAt(Written(bodies, 7), i, |Written(bodies, i)|)
    ensures Body(Written(bodies, 7), WrittenAt(bodies), i) == bodies[i]
    ensures forall j :: i < j < 7 ==> |Written(bodies, i)| < |Written(bodies, j)|
  {
    hide IsHeading, NoHeadings, OnlyAt, Body, WrittenAt, Written;
    WrittenBody(bodies, i);
    WrittenGrows(bodies, i + 1, 7);
    forall m: nat | m < |Written(bodies, 7)|
      ensures IsHeading(Written(bodies, 7)[m], i) <==> m == |Written(bodies, i)|
    {
      WrittenHeadings(bodies, 7, m, i);
    }
    WrittenNext(bodies, i);
    OnlyWhere(Written(bodies, 7), i, |Written(bodies, i)|);
    forall j | i < j < 7
      ensures |Written(bodies, i)| < |Written(bodies, j)|
    {
      WrittenGrows(bodies, i + 1, j);
    }
  }

  lemma {:induction false} OnlyWhere(lines: seq<string>, i: nat, at: nat)
    requires i < 7 && at < |lines| && forall m: nat :: m < |lines| ==> (IsHeading(lines[m], i) <==> m == at)
    ensures OnlyAt(lines, i, at)
  {
    hide IsHeading;
  }

  lemma {:induction false} WrittenNext(bodies: seq<seq<string>>, i: nat)
    requires i < |bodies| == 7
    ensures Written(bodies, i + 1) == Written(bodies, i) + ["## " + HEADINGS[i]] + bodies[i]
  {
  }

  lemma {:induction false} WrittenBody(bodies: seq<seq<string>>, i: nat)
    requires i < |bodies| == 7
    ensures Body(Written(bodies, 7), WrittenAt(bodies), i) == bodies[i]
  {
    hide Written;
    var lines, next, at := Written(bodies, 7), Written(bodies, i + 1), |Written(bodies, i)|;
    WrittenNext(bodies, i);
    WrittenGrows(bodies, i + 1, 7);
    SlicePrefix(lines, next, at + 1, |next|);
    assert next[at + 1..|next|] == bodies[i];
  }

  lemma {:induction false} WrittenOneLined(bodies: seq<seq<string>>, n: nat)
    requires n <= |bodies| == 7 && forall k :: 0 <= k < 7 ==> OneLined(bodies[k])
    ensures OneLined(Written(bodies, n)) && (n > 0 ==> Written(bodies, n) != [])
  {
    if n > 0 {
      WrittenOneLined(bodies, n - 1);
      HeadingOneLined(n - 1);
    }
  }

  // The line heading i stands on, or -1 when it is missing or repeated.
  method FindHeading(lines: seq<string>, i: nat) returns (k: int)
    requires i < |HEADINGS|
    ensures k >= 0 ==> OnlyAt(lines, i, k)
    ensures k < 0 ==> forall at :: !OnlyAt(lines, i, at)
  {
    hide IsHeading;
    k := -1;
    for m := 0 to |lines|
      invariant k == -1 || (0 <= k < m && IsHeading(lines[k], i))
      invariant forall j :: 0 <= j < m && IsHeading(lines[j], i) ==> j == k
    {
      if IsHeading(lines[m], i) {
        if k >= 0 {
          return -1;
        }
        k := m;
      }
    }
  }

  lemma {:induction false} HeadingInLines(lines: seq<string>, positions: seq<int>, i: nat)
    requires Sections(lines, positions) && i < |HEADINGS|
    ensures 0 <= positions[i] < |lines|
  {
    assert OnlyAt(lines, i, positions[i]);
  }

  lemma {:induction false} OnlyOne(lines: seq<string>, i: nat, a: int, b: int)
    requires i < |HEADINGS| && OnlyAt(lines, i, a) && OnlyAt(lines, i, b)
    ensures a == b
  {
  }

  lemma {:induction false} SectionsUnique(lines: seq<string>, a: seq<int>, b: seq<int>)
    requires Sections(lines, a) && Sections(lines, b)
    ensures a == b
  {
    hide OnlyAt;
    forall i | 0 <= i < |HEADINGS|
      ensures a[i] == b[i]
    {
      OnlyOne(lines, i, a[i], b[i]);
    }
  }

  method HeadingPositions(lines: seq<string>) returns (found: Option<seq<int>>)
    ensures found.Some? ==> Sections(lines, found.value)
    ensures found.None? ==> forall other :: !Sections(lines, other)
  {
    hide OnlyAt, IsHeading;
    var positions: seq<int> := [];
    for i := 0 to |HEADINGS|
      invariant |positions| == i && forall j :: 0 <= j < i ==> OnlyAt(lines, j, positions[j])
      invariant forall j, k :: 0 <= j < k < i ==> positions[j] < positions[k]
    {
      var at := FindHeading(lines, i);
      if at < 0 {
        forall other
          ensures !Sections(lines, other)
        {
          assert |other| == |HEADINGS| ==> !OnlyAt(lines, i, other[i]);
        }
        return None;
      }
      if i > 0 && at <= positions[i - 1] {
        forall other
          ensures !Sections(lines, other)
        {
          if Sections(lines, other) {
            OnlyOne(lines, i, at, other[i]);
            OnlyOne(lines, i - 1, positions[i - 1], other[i - 1]);
          }
        }
        return None;
      }
      positions := positions + [at];
    }
    return Some(positions);
  }

  // The lines of a validated summary and where its headings stand.
  method CompactionSectionLines(reader: Reader, summary: string) returns (r: Option<(seq<string>, seq<int>)>)
    ensures r.Some? ==> r.value.0 == Split(summary) && ValidSummary(reader, summary, r.value.1)
    ensures r.Some? <==> IsValid(reader, summary)
  {
    hide OnlyAt, Split, Body, Blank;
    var lines := Split(summary);
    if |summary| > SUMMARY_MAX_BYTES {
      return None;
    }
    var found := HeadingPositions(lines);
    if found.None? {
      return None;
    }
    var positions := found.value;
    for i := 0 to |HEADINGS|
      invariant forall j :: 0 <= j < i ==> !Blank(reader, Body(lines, positions, j))
    {
      if Blank(reader, Body(lines, positions, i)) {
        forall other
          ensures !ValidSummary(reader, summary, other)
        {
          if Sections(lines, other) {
            SectionsUnique(lines, positions, other);
          }
        }
        return None;
      }
    }
    return Some((lines, positions));
  }

  // ---- carryForwardCompactionSections ----

  // A body without the blank lines it ends with.
  function Trimmed(reader: Reader, body: seq<string>): (t: seq<string>)
    ensures t <= body && forall k :: |t| <= k < |body| ==> reader.blank(body[k])
    ensures t == [] || !reader.blank(t[|t| - 1])
  {
    if body != [] && reader.blank(body[|body| - 1]) then Trimmed(reader, body[..|body| - 1]) else body
  }

  // The body a section keeps: its own, unless it stands in for substantive
  // prior content.
  function Chosen(reader: Reader, i: nat, body: seq<string>, prior: seq<string>): seq<string> {
    if reader.classify(prior) != Substantive then body
    else match reader.classify(body)
      case Reference => Trimmed(reader, prior) + body
      case EmptySection => if i in RESOLVABLE then body else prior
      case Substantive => body
  }

  predicate Carries(reader: Reader, i: nat, body: seq<string>, prior: seq<string>) {
    && reader.classify(prior) == Substantive
    && (reader.classify(body) == Reference || (reader.classify(body) == EmptySection && i !in RESOLVABLE))
  }

  function Bodies(lines: seq<string>, positions: seq<int>): (bodies: seq<seq<string>>)
    ensures |bodies| == |positions|
  {
    seq(|positions|, i requires 0 <= i < |positions| => Body(lines, positions, i))
  }

  function ChosenBodies(reader: Reader, bodies: seq<seq<string>>, priors: seq<seq<string>>): (chosen: seq<seq<string>>)
    requires |priors| == |bodies|
    ensures |chosen| == |bodies|
  {
    seq(|bodies|, i requires 0 <= i < |bodies| => Chosen(reader, i, bodies[i], priors[i]))
  }

  // The first n sections with these bodies, through the next heading.
  ghost function Assembled(lines: seq<string>, positions: seq<int>, bodies: seq<seq<string>>, n: nat): seq<string>
    requires Sections(lines, positions) && |bodies| == |positions| && n <= |positions|
  {
    if n == 0 then lines[..positions[0] + 1]
    else Assembled(lines, positions, bodies, n - 1) + bodies[n - 1] + (if n < |positions| then [lines[positions[n]]] else [])
  }

  method TrimBlank(reader: Reader, body: seq<string>) returns (restored: seq<string>)
    ensures restored == Trimmed(reader, body)
  {
    restored := body;
    while |restored| > 0 && reader.blank(restored[|restored| - 1])
      invariant Trimmed(reader, body) == Trimmed(reader, restored)
      decreases |restored|
    {
      restored := restored[..|restored| - 1];
    }
  }

  method ChooseBody(reader: Reader, i: nat, body: seq<string>, priorBody: seq<string>)
    returns (chosen: seq<string>, carried: bool)
    ensures chosen == Chosen(reader, i, body, priorBody) && carried == Carries(reader, i, body, priorBody)
  {
    chosen, carried := body, false;
    if reader.classify(priorBody) == Substantive {
      match reader.classify(body)
      case Reference =>
        var restored := TrimBlank(reader, priorBody);
        chosen, carried := restored + body, true;
      case EmptySection =>
        if i !in RESOLVABLE {
          chosen, carried := priorBody, true;
        }
      case Substantive =>
    }
  }

  ghost predicate AnyCarried(reader: Reader, bodies: seq<seq<string>>, priors: seq<seq<string>>)
    requires |priors| == |bodies|
  {
    exists k: nat :: k < |bodies| && Carries(reader, k, bodies[k], priors[k])
  }

  // The generated summary, or the joining of its sections with the chosen
  // bodies when one is carried, which must be valid again.
  ghost function Carried(reader: Reader, prior: string, generated: string, priorPositions: seq<int>, positions: seq<int>):
    Result<string, CarryError>
    requires Sections(Split(prior), priorPositions) && Sections(Split(generated), positions)
  {
    var bodies, priors := Bodies(Split(generated), positions), Bodies(Split(prior), priorPositions);
    var joined := Join(Assembled(Split(generated), positions, ChosenBodies(reader, bodies, priors), |HEADINGS|));
    if !AnyCarried(reader, bodies, priors) then Ok(generated)
    else if IsValid(reader, joined) then Ok(joined)
    else Err(InvalidCarried)
  }

  // Every section of the generated summary, with the body it keeps.
  method CarrySections(reader: Reader, lines: seq<string>, at: seq<int>, priorLines: seq<string>, priorAt: seq<int>)
    returns (out: seq<string>, carried: bool)
    requires Sections(lines, at) && Sections(priorLines, priorAt)
    ensures out == Assembled(lines, at, ChosenBodies(reader, Bodies(lines, at), Bodies(priorLines, priorAt)), |HEADINGS|)
    ensures carried == AnyCarried(reader, Bodies(lines, at), Bodies(priorLines, priorAt))
  {
    hide Body, Chosen, Carries, OnlyAt, IsHeading;
    ghost var bodies, priors := Bodies(lines, at), Bodies(priorLines, priorAt);
    ghost var chosen := ChosenBodies(reader, bodies, priors);
    carried := false;
    HeadingInLines(lines, at, 0);
    out := lines[..at[0] + 1];
    for i := 0 to |HEADINGS|
      invariant out == Assembled(lines, at, chosen, i)
      invariant carried <==> exists k: nat :: k < i && Carries(reader, k, bodies[k], priors[k])
    {
      var body, replaced := ChooseBody(reader, i, Body(lines, at, i), Body(priorLines, priorAt, i));
      carried := carried || replaced;
      assert body == chosen[i] && replaced == Carries(reader, i, bodies[i], priors[i]);
      out := out + body;
      if i + 1 < |HEADINGS| {
        HeadingInLines(lines, at, i + 1);
        out := out + [lines[at[i + 1]]];
      } else {
        assert out == out + [];
      }
    }
  }

  method CarryForwardCompactionSections(reader: Reader, prior: string, generated: string)
    returns (r: Result<string, CarryError>, ghost priorPositions: seq<int>, ghost positions: seq<int>)
    ensures prior == "" ==> r == Ok(generated)
    ensures prior != "" && !IsValid(reader, prior) ==> r == Err(InvalidPrior)
    ensures prior != "" && IsValid(reader, prior) && !IsValid(reader, generated) ==> r == Err(InvalidGenerated)
    ensures prior != "" && IsValid(reader, prior) && IsValid(reader, generated) ==>
              && ValidSummary(reader, prior, priorPositions) && ValidSummary(reader, generated, positions)
              && r == Carried(reader, prior, generated, priorPositions, positions)
    ensures prior != "" && r.Ok? ==> IsValid(reader, r.value)
  {
    hide Split, Join, ChosenBodies, Bodies, AnyCarried, Assembled, OnlyAt, Blank;
    priorPositions, positions := [], [];
    if prior == "" {
      return Ok(generated), [], [];
    }
    var old' := CompactionSectionLines(reader, prior);
    if old'.None? {
      return Err(InvalidPrior), [], [];
    }
    var new' := CompactionSectionLines(reader, generated);
    if new'.None? {
      return Err(InvalidGenerated), [], [];
    }
    var (priorLines, priorAt) := old'.value;
    var (lines, at) := new'.value;
    priorPositions, positions := priorAt, at;
    var out, carried := CarrySections(reader, lines, at, priorLines, priorAt);
    if !carried {
      return Ok(generated), priorAt, at;
    }
    var result := Join(out);
    var valid := CompactionSectionLines(reader, result);
    if valid.None? {
      return Err(InvalidCarried), priorAt, at;
    }
    return Ok(result), priorAt, at;
  }

  // ---- splitting the result ----

  lemma {:induction false} AssembledPrefix(lines: seq<string>, positions: seq<int>, bodies: seq<seq<string>>, i: nat, n: nat)
    requires Sections(lines, positions) && |bodies| == |positions| && i <= n <= |positions|
    ensures Assembled(lines, positions, bodies, i) <= Assembled(lines, positions, bodies, n)
  {
    if i < n {
      AssembledPrefix(lines, positions, bodies, i, n - 1);
    }
  }

  // Each heading ends the part before its body.
  lemma {:induction false} HeadingEnds(lines: seq<string>, positions: seq<int>, bodies: seq<seq<string>>, i: nat)
    requires Sections(lines, positions) && |bodies| == |positions| && i < |positions|
    ensures var part := Assembled(lines, positions, bodies, i);
            part != [] && IsHeading(part[|part| - 1], i)
  {
    hide IsHeading;
    assert OnlyAt(lines, i, positions[i]);
  }

  lemma {:induction false} AssembledStep(lines: seq<string>, positions: seq<int>, bodies: seq<seq<string>>, i: nat)
    requires Sections(lines, positions) && |bodies| == |positions| && i < |positions|
    ensures var part, next := Assembled(lines, positions, bodies, i), Assembled(lines, positions, bodies, i + 1);
            && |next| == |part| + |bodies[i]| + (if i + 1 < |positions| then 1 else 0)
            && next[|part|..|part| + |bodies[i]|] == bodies[i]
  {
    assert OnlyAt(lines, i, positions[i]);
  }

  // In the assembled lines each heading stands where its part ends.
  lemma {:induction false} FoundWhere(lines: seq<string>, positions: seq<int>, bodies: seq<seq<string>>, found: seq<int>, i: nat)
    requires Sections(lines, positions) && |bodies| == |positions| && i < |positions|
    requires Sections(Assembled(lines, positions, bodies, |HEADINGS|), found)
    ensures found[i] == |Assembled(lines, positions, bodies, i)| - 1
  {
    var out, part := Assembled(lines, positions, bodies, |HEADINGS|), Assembled(lines, positions, bodies, i);
    HeadingEnds(lines, positions, bodies, i);
    AssembledPrefix(lines, positions, bodies, i, |HEADINGS|);
    hide Assembled, IsHeading;
    assert OnlyAt(out, i, found[i]);
    assert out[|part| - 1] == part[|part| - 1];
  }

  // In the assembled lines every section has its body.
  lemma {:induction false} AssembledSections(lines: seq<string>, positions: seq<int>, bodies: seq<seq<string>>, found: seq<int>)
    requires Sections(lines, positions) && |bodies| == |positions|
    requires Sections(Assembled(lines, positions, bodies, |HEADINGS|), found)
    ensures Bodies(Assembled(lines, positions, bodies, |HEADINGS|), found) == bodies
  {
    hide Assembled, OnlyAt, IsHeading;
    var out, n := Assembled(lines, positions, bodies, |HEADINGS|), |HEADINGS|;
    forall i | 0 <= i < n
      ensures Body(out, found, i) == bodies[i]
    {
      FoundWhere(lines, positions, bodies, found, i);
      AssembledStep(lines, positions, bodies, i);
      AssembledPrefix(lines, positions, bodies, i + 1, n);
      var part, next := Assembled(lines, positions, bodies, i), Assembled(lines, positions, bodies, i + 1);
      HeadingInLines(out, found, i);
      if i + 1 < n {
        FoundWhere(lines, positions, bodies, found, i + 1);
      }
      SlicePrefix(out, next, |part|, |part| + |bodies[i]|);
    }
  }

  lemma {:induction false} SlicePrefix(whole: seq<string>, part: seq<string>, a: nat, b: nat)
    requires part <= whole && a <= b <= |part|
    ensures whole[a..b] == part[a..b]
  {
  }

  lemma {:induction false} AssembledOneLined(lines: seq<string>, positions: seq<int>, bodies: seq<seq<string>>, n: nat)
    requires Sections(lines, positions) && |bodies| == |positions| && n <= |positions|
    requires OneLined(lines) && forall i :: 0 <= i < |bodies| ==> OneLined(bodies[i])
    ensures OneLined(Assembled(lines, positions, bodies, n)) && Assembled(lines, positions, bodies, n) != []
  {
    hide IsHeading, OnlyAt;
    if n == 0 {
      HeadingInLines(lines, positions, 0);
    } else {
      AssembledOneLined(lines, positions, bodies, n - 1);
      if n < |positions| {
        HeadingInLines(lines, positions, n);
      }
    }
  }

  lemma {:induction false} ChosenOneLined(reader: Reader, lines: seq<string>, positions: seq<int>, priorLines: seq<string>,
                                          priorPositions: seq<int>)
    requires OneLined(lines) && OneLined(priorLines) && |positions| == |priorPositions|
    ensures var chosen := ChosenBodies(reader, Bodies(lines, positions), Bodies(priorLines, priorPositions));
            forall i :: 0 <= i < |chosen| ==> OneLined(chosen[i])
  {
    var chosen := ChosenBodies(reader, Bodies(lines, positions), Bodies(priorLines, priorPositions));
    forall i | 0 <= i < |chosen|
      ensures OneLined(chosen[i])
    {
      assert OneLined(Body(lines, positions, i)) && OneLined(Body(priorLines, priorPositions, i));
      var restored := Trimmed(reader, Body(priorLines, priorPositions, i));
      assert OneLined(restored);
    }
  }

  lemma {:induction false} CarriedChosen(reader: Reader, prior: string, generated: string, priorPositions: seq<int>,
                                         positions: seq<int>, result: string, found: seq<int>)
    requires Sections(Split(prior), priorPositions) && ValidSummary(reader, generated, positions)
    requires Carried(reader, prior, generated, priorPositions, positions) == Ok(result) && ValidSummary(reader, result, found)
    ensures Bodies(Split(result), found)
            == ChosenBodies(reader, Bodies(Split(generated), positions), Bodies(Split(prior), priorPositions))
  {
    hide Assembled, Split, Join;
    var lines := Split(generated);
    var bodies, priors := Bodies(lines, positions), Bodies(Split(prior), priorPositions);
    var chosen := ChosenBodies(reader, bodies, priors);
    if AnyCarried(reader, bodies, priors) {
      SplitOneLined(generated);
      SplitOneLined(prior);
      ChosenOneLined(reader, lines, positions, Split(prior), priorPositions);
      AssembledOneLined(lines, positions, chosen, |HEADINGS|);
      SplitJoined(Assembled(lines, positions, chosen, |HEADINGS|));
      AssembledSections(lines, positions, chosen, found);
    } else {
      SectionsUnique(lines, positions, found);
      NothingCarried(reader, bodies, priors);
    }
  }

  // The body a section ends up with. Nothing is carried from a prior section
  // without substance. A back-reference follows the prior body, without the
  // blank lines that ends with. An empty section stays empty in questions and
  // next steps and otherwise keeps the prior body. Any other body stands.
  ghost predicate KeepsBody(reader: Reader, i: nat, body: seq<string>, prior: seq<string>, kept: seq<string>) {
    if reader.classify(prior) != Substantive || reader.classify(body) == Substantive then kept == body
    else if reader.classify(body) == EmptySection then kept == if i == 4 || i == 5 then body else prior
    else
      var n := |kept| - |body|;
      && 0 <= n <= |prior| && kept == prior[..n] + body
      && (n > 0 ==> !reader.blank(prior[n - 1]))
      && forall k :: n <= k < |prior| ==> reader.blank(prior[k])
  }

  lemma {:induction false} ChosenKeeps(reader: Reader, i: nat, body: seq<string>, prior: seq<string>)
    ensures KeepsBody(reader, i, body, prior, Chosen(reader, i, body, prior))
  {
    var restored := Trimmed(reader, prior);
    assert prior[..|restored|] == restored;
  }

  // Splitting a carried-forward summary returns, under each heading in order,
  // the body that section keeps.
  lemma {:induction false} CarriedBodies(reader: Reader, prior: string, generated: string, priorPositions: seq<int>,
                                         positions: seq<int>, result: string, found: seq<int>)
    requires Sections(Split(prior), priorPositions) && ValidSummary(reader, generated, positions)
    requires Carried(reader, prior, generated, priorPositions, positions) == Ok(result) && ValidSummary(reader, result, found)
    ensures forall i :: 0 <= i < 7 ==>
              KeepsBody(reader, i, Body(Split(generated), positions, i), Body(Split(prior), priorPositions, i), Body(Split(result), found, i))
  {
    hide Split, Carried, Chosen, KeepsBody, OnlyAt, Body, Blank;
    CarriedChosen(reader, prior, generated, priorPositions, positions, result, found);
    var bodies, priors := Bodies(Split(generated), positions), Bodies(Split(prior), priorPositions);
    var kept := Bodies(Split(result), found);
    forall i | 0 <= i < 7
      ensures KeepsBody(reader, i, Body(Split(generated), positions, i), Body(Split(prior), priorPositions, i), Body(Split(result), found, i))
    {
      ChosenKeeps(reader, i, bodies[i], priors[i]);
      assert kept[i] == Body(Split(result), found, i);
    }
  }

  lemma {:induction false} NothingCarried(reader: Reader, bodies: seq<seq<string>>, priors: seq<seq<string>>)
    requires |priors| == |bodies| && !AnyCarried(reader, bodies, priors)
    ensures ChosenBodies(reader, bodies, priors) == bodies
  {
    forall k: nat | k < |bodies|
      ensures Chosen(reader, k, bodies[k], priors[k]) == bodies[k]
    {
      assert !Carries(reader, k, bodies[k], priors[k]);
    }
  }
}
