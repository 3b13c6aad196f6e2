/**
 * What a request shows of each complete tool-result group
 * (internal/agent/tool_results.go, internal/agent/history.go).
 */
module ToolResultLimits {
  import opened Wrappers
  import opened Events
  import opened History
  import opened Allocation
  import X = ToolResultExcerpts
  import TC = TurnCompaction

  // The results of one complete group, by index, and the tools they called.
  datatype Group = Group(resultIndexes: seq<nat>, names: seq<string>)

  datatype LimitError = Invalid(history: HistoryError) | OutOfOrder | Overflowing

  // ---- completeToolResultGroups ----

  // Group i's results before n, in order.
  function ResultsBefore(events: seq<Event>, i: nat, n: nat): seq<nat>
    requires n <= |events|
  {
    if n == 0 then []
    else ResultsBefore(events, i, n - 1) + (if InGroup(events, i, n - 1) then [n - 1] else [])
  }

  function Results(events: seq<Event>, i: nat): seq<nat> {
    ResultsBefore(events, i, |events|)
  }

  // The results so far answer the first calls, in order.
  predicate Answers(events: seq<Event>, results: seq<nat>, calls: seq<ToolCall>) {
    && |results| <= |calls|
    && forall k :: 0 <= k < |results| ==> results[k] < |events| && ResultId(events[results[k]]) == calls[k].id
  }

  // A complete group's results answer its calls in order.
  predicate Ordered(events: seq<Event>, i: nat)
    requires i < |events|
  {
    |Results(events, i)| == |Calls(events[i])| && Answers(events, Results(events, i), Calls(events[i]))
  }

  function Names(calls: seq<ToolCall>): (names: seq<string>)
    ensures |names| == |calls|
  {
    seq(|calls|, k requires 0 <= k < |calls| => calls[k].name)
  }

  ghost predicate IsGroup(events: seq<Event>, i: nat) {
    Opens(events, i) && Complete(events, i)
  }

  ghost function GroupsBefore(events: seq<Event>, n: nat): seq<Group>
    requires n <= |events|
  {
    if n == 0 then []
    else GroupsBefore(events, n - 1)
         + (if IsGroup(events, n - 1) then [Group(Results(events, n - 1), Names(Calls(events[n - 1])))] else [])
  }

  ghost function Groups(events: seq<Event>): seq<Group> {
    GroupsBefore(events, |events|)
  }

  ghost predicate AllOrdered(events: seq<Event>, n: nat) {
    forall i: nat :: i < n && IsGroup(events, i) ==> i < |events| && Ordered(events, i)
  }

  method CompleteToolResultGroups(events: seq<Event>) returns (r: Result<seq<Group>, LimitError>)
    ensures r.Ok? <==> ValidHistory(events) && AllOrdered(events, |events|)
    ensures r.Ok? ==> r.value == Groups(events)
  {
    var omit := IncompleteToolGroupEvents(events);
    if omit.Err? {
      return Err(Invalid(omit.error));
    }
    var groups: seq<Group> := [];
    for i := 0 to |events|
      invariant groups == GroupsBefore(events, i) && AllOrdered(events, i)
    {
      assert ValidAt(events, i);
      if events[i].etype.AssistantMessage? && i !in omit.value && Calls(events[i]) != [] {
        var results := GroupResults(events, i, omit.value);
        if results.Err? {
          return Err(results.error);
        }
        groups := groups + [Group(results.value, Names(Calls(events[i])))];
      }
    }
    return Ok(groups);
  }

  method GroupResults(events: seq<Event>, i: nat, omit: set<nat>) returns (r: Result<seq<nat>, LimitError>)
    requires ValidHistory(events) && omit == Omissions(events) && IsGroup(events, i)
    ensures r.Ok? <==> Ordered(events, i)
    ensures r.Ok? ==> r.value == Results(events, i)
  {
    var calls := Calls(events[i]);
    var results: seq<nat> := [];
    var j := i + 1;
    NoResultsYet(events, i);
    AllResults(events, i);
    AnswersNothing(events, calls);
    hide *;
    while j < |events| && !EndsGroup(events[j])
      invariant i < j <= |events| && PrevBoundary(events, j) == i
      invariant results == ResultsBefore(events, i, j) && Answers(events, results, calls)
    {
      ResultStep(events, i, j);
      if j !in omit && IsToolResult(events[j]) {
        AnswersNext(events, results, calls, j);
        if |results| >= |calls| || ResultId(events[j]) != calls[|results|].id {
          PrefixOfResults(events, i, j + 1, |events|);
          AnswersPrefix(events, i, results + [j]);
          assert !Ordered(events, i);
          return Err(OutOfOrder);
        }
        results := results + [j];
      }
      j := j + 1;
    }
    GroupEndsBy(events, i, j);
    ResultsStay(events, i, j, |events|);
    AnswersOrdered(events, i, results);
    if |results| != |calls| {
      return Err(OutOfOrder);
    }
    return Ok(results);
  }

  lemma {:induction false} AllResults(events: seq<Event>, i: nat)
    ensures Results(events, i) == ResultsBefore(events, i, |events|)
  {
  }

  lemma {:induction false} AnswersNothing(events: seq<Event>, calls: seq<ToolCall>)
    ensures Answers(events, [], calls)
  {
  }

  lemma {:induction false} AnswersNext(events: seq<Event>, results: seq<nat>, calls: seq<ToolCall>, j: nat)
    requires Answers(events, results, calls) && j < |events|
    ensures Answers(events, results + [j], calls) <==> |results| < |calls| && ResultId(events[j]) == calls[|results|].id
    ensures |results| <= |calls|
  {
    var next := results + [j];
    assert next[|results|] == j;
  }

  lemma {:induction false} AnswersPrefix(events: seq<Event>, i: nat, results: seq<nat>)
    requires i < |events| && results <= Results(events, i)
    ensures Ordered(events, i) ==> Answers(events, results, Calls(events[i]))
  {
  }

  lemma {:induction false} AnswersOrdered(events: seq<Event>, i: nat, results: seq<nat>)
    requires i < |events| && results == Results(events, i) && Answers(events, results, Calls(events[i]))
    ensures Ordered(events, i) <==> |results| == |Calls(events[i])|
  {
  }

  lemma {:induction false} NoResultsYet(events: seq<Event>, i: nat)
    requires i < |events| && Opens(events, i)
    ensures ResultsBefore(events, i, i + 1) == [] && PrevBoundary(events, i + 1) == i
  {
    ResultsStay(events, i, 0, i + 1);
  }

  // A complete group's results are not left out of the request.
  lemma {:induction false} ResultStep(events: seq<Event>, i: nat, j: nat)
    requires IsGroup(events, i) && i < j < |events| && PrevBoundary(events, j) == i
    ensures ResultsBefore(events, i, j + 1) == ResultsBefore(events, i, j) + (if IsToolResult(events[j]) then [j] else [])
    ensures IsToolResult(events[j]) ==> j !in Omissions(events)
    ensures !EndsGroup(events[j]) ==> PrevBoundary(events, j + 1) == i
  {
    assert InGroup(events, i, j) <==> IsToolResult(events[j]);
  }

  lemma {:induction false} PrefixOfResults(events: seq<Event>, i: nat, j: nat, n: nat)
    requires j <= n <= |events|
    ensures ResultsBefore(events, i, j) <= ResultsBefore(events, i, n)
  {
    if j < n {
      PrefixOfResults(events, i, j, n - 1);
    }
  }

  lemma {:induction false} ResultsStay(events: seq<Event>, i: nat, j: nat, n: nat)
    requires j <= n <= |events| && forall k: nat :: j <= k < n ==> !InGroup(events, i, k)
    ensures ResultsBefore(events, i, n) == ResultsBefore(events, i, j)
  {
    if j < n {
      ResultsStay(events, i, j, n - 1);
    }
  }

  // ---- applyModelToolResultLimits ----

  const MODEL_TOOL_RESULT_BYTES: nat := 32 * 1024
  const SKILL_TOOL := "skill"
  const PROTECTED_NAMES: seq<string> := ["read_tool_result", "delegate_research", "delegate_explore",
                                         "read_subagent_report", "continue_research", "skill"]
  const PROTECTED_PREFIXES: seq<string> := ["memory_", "todo_", "delegate_"]

  predicate IsProtected(name: string) {
    name in PROTECTED_NAMES || exists k :: 0 <= k < |PROTECTED_PREFIXES| && PROTECTED_PREFIXES[k] < name
  }

  // The group without the results that a request shows whole.
  function WithoutWhole(g: Group): (w: Group)
    requires |g.names| == |g.resultIndexes|
    ensures |w.names| == |w.resultIndexes| <= |g.names|
    decreases |g.names|
  {
    if g.names == [] then g
    else
      var n := |g.names| - 1;
      var w := WithoutWhole(Group(g.resultIndexes[..n], g.names[..n]));
      if g.names[n] == SKILL_TOOL then w else Group(w.resultIndexes + [g.resultIndexes[n]], w.names + [g.names[n]])
  }

  predicate InRange(events: seq<Event>, g: Group) {
    |g.names| == |g.resultIndexes| && forall k :: 0 <= k < |g.resultIndexes| ==> g.resultIndexes[k] < |events|
  }

  function Protected(g: Group): (p: seq<bool>)
    ensures |p| == |g.names|
  {
    seq(|g.names|, k requires 0 <= k < |g.names| => IsProtected(g.names[k]))
  }

  function SizeOf(e: Event, protected: bool): nat {
    if protected then |e.content| else Min(|e.content|, MODEL_TOOL_RESULT_BYTES) as nat
  }

  function Sizes(events: seq<Event>, g: Group): (sizes: seq<nat>)
    requires InRange(events, g)
    ensures |sizes| == |g.names|
  {
    seq(|g.names|, k requires 0 <= k < |g.names| => SizeOf(events[g.resultIndexes[k]], IsProtected(g.names[k])))
  }

  function SourceOf(e: Event, digest: string -> string): X.Source {
    X.Source(e.id, digest(e.content))
  }

  function Minimums(events: seq<Event>, g: Group, digest: string -> string): (minimums: seq<nat>)
    requires InRange(events, g)
    ensures |minimums| == |g.names|
  {
    seq(|g.names|, k requires 0 <= k < |g.names| =>
      var e := events[g.resultIndexes[k]];
      Min(SizeOf(e, IsProtected(g.names[k])), X.Overhead(SourceOf(e, digest), |e.content|, "protected_group_limit")) as nat)
  }

  // The bytes each result of a group may show.
  ghost predicate IsShare(a: seq<nat>, sizes: seq<nat>, protected: seq<bool>, minimums: seq<nat>)
    requires |protected| == |minimums| == |sizes|
  {
    if Sum(sizes) <= MODEL_TOOL_RESULT_GROUP_BYTES then a == sizes
    else
      && |a| == |sizes|
      && (ProtectedFit(sizes, protected, minimums) ==> forall i :: 0 <= i < |sizes| && protected[i] ==> a[i] == sizes[i])
      && exists level: nat :: IsGroupFill(a, sizes, protected, minimums, level)
  }

  // A group's shares depend on nothing but the group.
  lemma {:induction false} ShareIsUnique(a: seq<nat>, b: seq<nat>, sizes: seq<nat>, protected: seq<bool>, minimums: seq<nat>)
    requires |protected| == |minimums| == |sizes|
    requires IsShare(a, sizes, protected, minimums) && IsShare(b, sizes, protected, minimums)
    ensures a == b
  {
    if Sum(sizes) > MODEL_TOOL_RESULT_GROUP_BYTES {
      var la: nat :| IsGroupFill(a, sizes, protected, minimums, la);
      var lb: nat :| IsGroupFill(b, sizes, protected, minimums, lb);
      UnprotectedLength(sizes, minimums, protected);
      if ProtectedFit(sizes, protected, minimums) {
        var remaining := MODEL_TOOL_RESULT_GROUP_BYTES - ProtectedBytes(sizes, protected);
        var others, otherMinimums := Unprotected(sizes, protected), Unprotected(minimums, protected);
        WaterFillIsUnique(Unprotected(a, protected), Unprotected(b, protected), others,
                          ChosenFloors(others, otherMinimums, remaining), remaining, la, lb);
        EqualParts(a, b, protected);
      } else {
        WaterFillIsUnique(a, b, sizes, ChosenFloors(sizes, minimums, MODEL_TOOL_RESULT_GROUP_BYTES),
                          MODEL_TOOL_RESULT_GROUP_BYTES, la, lb);
      }
    }
  }

  lemma {:induction false} EqualParts(a: seq<nat>, b: seq<nat>, protected: seq<bool>)
    requires |protected| == |a| == |b| && Unprotected(a, protected) == Unprotected(b, protected)
    requires forall i :: 0 <= i < |a| && protected[i] ==> a[i] == b[i]
    ensures a == b
  {
    if a != [] {
      var n := |a| - 1;
      var ra, rb := Unprotected(a[..n], protected[..n]), Unprotected(b[..n], protected[..n]);
      UnprotectedLength(a[..n], b[..n], protected[..n]);
      if !protected[n] {
        assert Unprotected(a, protected)[|ra|] == a[n] && Unprotected(b, protected)[|rb|] == b[n];
        assert ra == Unprotected(a, protected)[..|ra|] && rb == Unprotected(b, protected)[..|rb|];
      } else {
        assert Unprotected(a, protected) == ra && Unprotected(b, protected) == rb;
      }
      assert ra == rb;
      hide Unprotected;
      EqualParts(a[..n], b[..n], protected[..n]);
      assert a == a[..n] + [a[n]] && b == b[..n] + [b[n]];
    }
  }

  function Reason(protected: bool, share: nat, size: nat): string {
    if protected then "protected_group_limit" else if share < size then "group_limit" else "result_limit"
  }

  function ShownContent(e: Event, digest: string -> string, protected: bool, share: nat): string {
    if share >= |e.content| then e.content
    else X.ExcerptOf(e.content, SourceOf(e, digest), share, Reason(protected, share, SizeOf(e, protected)))
  }

  // Result k of a group as it shows its share.
  function ShownEvent(events: seq<Event>, digest: string -> string, g: Group, a: seq<nat>, k: nat): Event
    requires InRange(events, g) && |a| == |g.names| && k < |g.names|
  {
    var e := events[g.resultIndexes[k]];
    e.(content := ShownContent(e, digest, IsProtected(g.names[k]), a[k]))
  }

  // The group's results show their shares in `shown`.
  ghost predicate ShowsShares(events: seq<Event>, shown: seq<Event>, digest: string -> string, g: Group, a: seq<nat>)
    requires InRange(events, g) && |shown| == |events|
  {
    && IsShare(a, Sizes(events, g), Protected(g), Minimums(events, g, digest)) && |a| == |g.names|
    && forall k :: 0 <= k < |g.names| ==> shown[g.resultIndexes[k]] == ShownEvent(events, digest, g, a, k)
  }

  ghost predicate GroupLimited(events: seq<Event>, shown: seq<Event>, digest: string -> string, g: Group)
    requires InRange(events, g) && |shown| == |events|
  {
    exists a :: ShowsShares(events, shown, digest, g, a)
  }

  // What a request shows of each group, a function of the group alone.
  ghost predicate Limited(events: seq<Event>, shown: seq<Event>, digest: string -> string) {
    |shown| == |events| && forall i: nat :: i < |events| && IsGroup(events, i) ==> LimitedAt(events, shown, digest, i)
  }

  function GroupAt(events: seq<Event>, i: nat): (g: Group)
    requires i < |events|
    ensures Ordered(events, i) ==> |g.names| == |g.resultIndexes|
  {
    Group(Results(events, i), Names(Calls(events[i])))
  }

  // The events that open the complete groups before n.
  ghost function Openers(events: seq<Event>, n: nat): seq<nat>
    requires n <= |events|
  {
    if n == 0 then [] else Openers(events, n - 1) + (if IsGroup(events, n - 1) then [n - 1] else [])
  }

  lemma {:induction false} OpenersOpen(events: seq<Event>, n: nat)
    requires n <= |events|
    ensures var o, g := Openers(events, n), GroupsBefore(events, n);
            && |o| == |g| && (forall k :: 0 <= k < |o| ==> o[k] < n)
            && (forall k :: 0 <= k < |o| ==> IsGroup(events, o[k]) && g[k] == GroupAt(events, o[k]))
            && (forall k, m :: 0 <= k < m < |o| ==> o[k] < o[m])
    ensures forall i: nat :: i < n && IsGroup(events, i) ==> i in Openers(events, n)
  {
    if n > 0 {
      OpenersOpen(events, n - 1);
      var o, g := Openers(events, n - 1), GroupsBefore(events, n - 1);
      if IsGroup(events, n - 1) {
        assert Openers(events, n) == o + [n - 1] && GroupsBefore(events, n) == g + [GroupAt(events, n - 1)];
      } else {
        assert Openers(events, n) == o && GroupsBefore(events, n) == g;
      }
    }
  }

  function ShownGroup(events: seq<Event>, i: nat): Group
    requires i < |events| && Ordered(events, i)
  {
    WithoutWhole(GroupAt(events, i))
  }

  ghost predicate Ascending(indexes: seq<nat>) {
    forall k, m :: 0 <= k < m < |indexes| ==> indexes[k] < indexes[m]
  }

  ghost predicate AllIn(events: seq<Event>, i: nat, indexes: seq<nat>) {
    forall k :: 0 <= k < |indexes| ==> indexes[k] < |events| && InGroup(events, i, indexes[k])
  }

  lemma {:induction false} WithoutWholeIn(events: seq<Event>, i: nat, g: Group)
    requires |g.names| == |g.resultIndexes| && AllIn(events, i, g.resultIndexes) && Ascending(g.resultIndexes)
    ensures var w := WithoutWhole(g); InRange(events, w) && AllIn(events, i, w.resultIndexes) && Ascending(w.resultIndexes)
    ensures forall j :: j in WithoutWhole(g).resultIndexes ==> j in g.resultIndexes
    decreases |g.names|
  {
    if g.names != [] {
      var n := |g.names| - 1;
      var rest := Group(g.resultIndexes[..n], g.names[..n]);
      WithoutWholeIn(events, i, rest);
      var kept := WithoutWhole(rest).resultIndexes;
      forall k | 0 <= k < |kept|
        ensures kept[k] < g.resultIndexes[n]
      {
        assert kept[k] in rest.resultIndexes;
      }
      AscendsNext(kept, g.resultIndexes[n]);
    }
  }

  lemma {:induction false} ResultsAscend(events: seq<Event>, i: nat, n: nat)
    requires n <= |events|
    ensures Ascending(ResultsBefore(events, i, n)) && AllIn(events, i, ResultsBefore(events, i, n))
    ensures AllBelow(ResultsBefore(events, i, n), n)
  {
    if n > 0 {
      ResultsAscend(events, i, n - 1);
      hide InGroup;
      AscendsNext(ResultsBefore(events, i, n - 1), n - 1);
    }
  }

  ghost predicate AllBelow(indexes: seq<nat>, n: nat) {
    forall k :: 0 <= k < |indexes| ==> indexes[k] < n
  }

  lemma {:induction false} AscendsNext(indexes: seq<nat>, n: nat)
    requires Ascending(indexes) && AllBelow(indexes, n)
    ensures Ascending(indexes + [n]) && AllBelow(indexes + [n], n + 1) && AllBelow(indexes, n + 1)
  {
  }

  lemma {:induction false} ShownGroupIn(events: seq<Event>, i: nat)
    requires i < |events| && Ordered(events, i)
    ensures var w := ShownGroup(events, i);
            InRange(events, w) && AllIn(events, i, w.resultIndexes) && Ascending(w.resultIndexes)
  {
    ResultsAscend(events, i, |events|);
    WithoutWholeIn(events, i, GroupAt(events, i));
  }

  // The group can be shared out: it fits, or its floors do.
  ghost predicate Shareable(events: seq<Event>, w: Group, digest: string -> string)
    requires InRange(events, w)
  {
    var sizes, protected, minimums := Sizes(events, w), Protected(w), Minimums(events, w, digest);
    || Sum(sizes) <= MODEL_TOOL_RESULT_GROUP_BYTES
    || ProtectedFit(sizes, protected, minimums)
    || FloorsFit(sizes, minimums, MODEL_TOOL_RESULT_GROUP_BYTES)
  }

  method ShareOf(events: seq<Event>, w: Group, digest: string -> string) returns (a: Option<seq<nat>>)
    requires InRange(events, w)
    ensures a.Some? <==> Shareable(events, w, digest)
    ensures a.Some? ==> IsShare(a.value, Sizes(events, w), Protected(w), Minimums(events, w, digest))
    ensures a.Some? ==> |a.value| == |w.names|
  {
    SharesFit(events, w, digest);
    assert Shareable(events, w, digest) <==>
      || Sum(Sizes(events, w)) <= MODEL_TOOL_RESULT_GROUP_BYTES
      || ProtectedFit(Sizes(events, w), Protected(w), Minimums(events, w, digest))
      || FloorsFit(Sizes(events, w), Minimums(events, w, digest), MODEL_TOOL_RESULT_GROUP_BYTES);
    hide *;
    var sizes, protected, minimums := Sizes(events, w), Protected(w), Minimums(events, w, digest);
    var r := ModelGroupAllocations(sizes, protected, minimums);
    if r.Err? {
      return None;
    }
    SharesFrom(r.value, sizes, protected, minimums);
    return Some(r.value);
  }

  lemma {:induction false} SharesFrom(a: seq<nat>, sizes: seq<nat>, protected: seq<bool>, minimums: seq<nat>)
    requires |protected| == |minimums| == |sizes| == |a|
    requires Sum(a) == Min(Sum(sizes), MODEL_TOOL_RESULT_GROUP_BYTES)
    requires forall i :: 0 <= i < |sizes| ==> a[i] <= sizes[i]
    requires ProtectedFit(sizes, protected, minimums) ==> forall i :: 0 <= i < |sizes| && protected[i] ==> a[i] == sizes[i]
    requires Sum(sizes) > MODEL_TOOL_RESULT_GROUP_BYTES ==> exists level: nat :: IsGroupFill(a, sizes, protected, minimums, level)
    ensures IsShare(a, sizes, protected, minimums)
  {
    hide ProtectedFit, IsGroupFill, Sum;
    if Sum(sizes) <= MODEL_TOOL_RESULT_GROUP_BYTES {
      EqualSums(a, sizes);
    }
  }

  lemma {:induction false} EqualSums(a: seq<nat>, b: seq<nat>)
    requires |a| == |b| && Sum(a) == Sum(b) && forall i :: 0 <= i < |a| ==> a[i] <= b[i]
    ensures a == b
  {
    if a != [] {
      var n := |a| - 1;
      SumPointwise(a[..n], b[..n]);
      EqualSums(a[..n], b[..n]);
      assert a == a[..n] + [a[n]] && b == b[..n] + [b[n]];
    }
  }

  // The first n groups show their shares, and nothing else has changed.
  ghost predicate LimitedBefore(events: seq<Event>, projected: seq<Event>, digest: string -> string, openers: seq<nat>, n: nat)
    requires n <= |openers|
  {
    && |projected| == |events|
    && (forall k :: 0 <= k < n ==> LimitedAt(events, projected, digest, openers[k]))
    && forall j: nat :: j < |events| && (forall k :: 0 <= k < n ==> !MayShorten(events, openers[k], j)) ==> projected[j] == events[j]
  }

  // Result j is one that group i does not show whole.
  predicate MayShorten(events: seq<Event>, i: nat, j: nat) {
    i < |events| && Ordered(events, i) && j in ShownGroup(events, i).resultIndexes
  }

  ghost predicate ShareableAt(events: seq<Event>, digest: string -> string, i: nat) {
    && i < |events| && Ordered(events, i) && InRange(events, ShownGroup(events, i))
    && Shareable(events, ShownGroup(events, i), digest)
  }

  ghost predicate AllShareable(events: seq<Event>, digest: string -> string) {
    forall i: nat :: i < |events| && IsGroup(events, i) ==> ShareableAt(events, digest, i)
  }

  ghost predicate AreOpeners(events: seq<Event>, groups: seq<Group>, openers: seq<nat>) {
    && |groups| == |openers| && Ascending(openers)
    && (forall k :: 0 <= k < |openers| ==> openers[k] < |events| && IsGroup(events, openers[k]) && Ordered(events, openers[k]))
    && (forall k :: 0 <= k < |openers| ==> groups[k] == GroupAt(events, openers[k]))
    && forall i: nat :: i < |events| && IsGroup(events, i) ==> i in openers
  }

  lemma {:induction false} FindOpeners(events: seq<Event>) returns (openers: seq<nat>)
    requires AllOrdered(events, |events|)
    ensures AreOpeners(events, Groups(events), openers)
  {
    hide Ordered, IsGroup;
    openers := Openers(events, |events|);
    OpenersOpen(events, |events|);
  }

  // Only results that their group does not show whole change, and the limits
  // fail only where a history is malformed or a group cannot be shared out.
  method ApplyModelToolResultLimits(events: seq<Event>, digest: string -> string) returns (r: Result<seq<Event>, LimitError>)
    ensures r.Ok? <==> ValidHistory(events) && AllOrdered(events, |events|) && AllShareable(events, digest)
    ensures r.Ok? ==> Limited(events, r.value, digest)
    ensures r.Ok? ==> forall j: nat :: j < |events| && r.value[j] != events[j] ==> exists i: nat :: IsGroup(events, i) && MayShorten(events, i, j)
  {
    hide ValidHistory, AllOrdered, Groups, AreOpeners, LimitedAt, Limited, ShareableAt, AllShareable, IsGroup, MayShorten;
    var found := CompleteToolResultGroups(events);
    if found.Err? {
      return Err(found.error);
    }
    var groups := found.value;
    var projected := events;
    ghost var openers := FindOpeners(events);
    GroupCount(events, groups, openers);
    for n := 0 to |groups|
      invariant LimitedBefore(events, projected, digest, openers, n)
      invariant forall k :: 0 <= k < n ==> ShareableAt(events, digest, openers[k])
    {
      hide LimitedBefore;
      var next := LimitGroup(events, projected, digest, groups, openers, n);
      if next.None? {
        OpenersShareable(events, digest, groups, openers);
        return Err(Overflowing);
      }
      projected := next.value;
    }
    OpenersShareable(events, digest, groups, openers);
    AllLimited(events, projected, digest, groups, openers);
    return Ok(projected);
  }

  lemma {:induction false} OpenersShareable(events: seq<Event>, digest: string -> string, groups: seq<Group>, openers: seq<nat>)
    requires AreOpeners(events, groups, openers)
    ensures AllShareable(events, digest) <==> forall k :: 0 <= k < |openers| ==> ShareableAt(events, digest, openers[k])
  {
    hide ShareableAt, IsGroup, Ordered;
  }

  lemma {:induction false} GroupCount(events: seq<Event>, groups: seq<Group>, openers: seq<nat>)
    requires AreOpeners(events, groups, openers)
    ensures |groups| == |openers|
  {
  }

  method LimitGroup(events: seq<Event>, before: seq<Event>, digest: string -> string, groups: seq<Group>, ghost openers: seq<nat>,
                    n: nat)
    returns (r: Option<seq<Event>>)
    requires AreOpeners(events, groups, openers) && n < |groups| && LimitedBefore(events, before, digest, openers, n)
    ensures r.Some? ==> LimitedBefore(events, r.value, digest, openers, n + 1)
    ensures r.Some? <==> ShareableAt(events, digest, openers[n])
  {
    ghost var i := openers[n];
    ShownGroupIn(events, i);
    var w := WithoutWhole(groups[n]);
    assert w == ShownGroup(events, i);
    assert ShareableAt(events, digest, i) <==> Shareable(events, w, digest);
    Untouched(events, before, digest, openers, n, w);
    hide *;
    var a := ShareOf(events, w, digest);
    if a.None? {
      return None;
    }
    var projected := ShowShares(events, before, digest, w, a.value);
    NextLimited(events, before, projected, digest, groups, openers, n, w, a.value);
    return Some(projected);
  }

  lemma {:induction false} NextLimited(events: seq<Event>, before: seq<Event>, projected: seq<Event>, digest: string -> string,
                                       groups: seq<Group>, openers: seq<nat>, n: nat, w: Group, a: seq<nat>)
    requires AreOpeners(events, groups, openers) && n < |groups| && LimitedBefore(events, before, digest, openers, n)
    requires w == ShownGroup(events, openers[n]) && InRange(events, w) && AllIn(events, openers[n], w.resultIndexes)
    requires |projected| == |events| && ShowsShares(events, projected, digest, w, a)
    requires forall j :: 0 <= j < |events| && j !in w.resultIndexes ==> projected[j] == before[j]
    ensures LimitedBefore(events, projected, digest, openers, n + 1)
  {
    hide ShowsShares, LimitedAt, InGroup, IsGroup, Ordered, AllIn, InRange, GroupAt, Groups;
    NowLimited(events, projected, digest, openers[n], w, a);
    forall k | 0 <= k < n
      ensures LimitedAt(events, projected, digest, openers[k])
    {
      LimitedKept(events, before, projected, digest, openers[k], openers[n], w);
    }
    forall j: nat | j < |events| && forall k :: 0 <= k < n + 1 ==> !MayShorten(events, openers[k], j)
      ensures projected[j] == events[j]
    {
      assert !MayShorten(events, openers[n], j);
    }
  }

  lemma {:induction false} AllLimited(events: seq<Event>, projected: seq<Event>, digest: string -> string, groups: seq<Group>,
                                      openers: seq<nat>)
    requires AreOpeners(events, groups, openers) && LimitedBefore(events, projected, digest, openers, |openers|)
    ensures Limited(events, projected, digest)
    ensures forall j: nat :: j < |events| && projected[j] != events[j] ==> exists i: nat :: IsGroup(events, i) && MayShorten(events, i, j)
  {
    hide LimitedAt, IsGroup, Ordered, MayShorten;
  }

  ghost predicate LimitedAt(events: seq<Event>, shown: seq<Event>, digest: string -> string, i: nat) {
    && |shown| == |events| && i < |events| && Ordered(events, i)
    && InRange(events, ShownGroup(events, i)) && GroupLimited(events, shown, digest, ShownGroup(events, i))
  }

  lemma {:induction false} NowLimited(events: seq<Event>, shown: seq<Event>, digest: string -> string, i: nat, w: Group, a: seq<nat>)
    requires i < |events| && Ordered(events, i) && w == ShownGroup(events, i) && InRange(events, w) && |shown| == |events|
    requires ShowsShares(events, shown, digest, w, a)
    ensures LimitedAt(events, shown, digest, i)
  {
  }

  lemma {:induction false} ShortenedInGroup(events: seq<Event>, i: nat, j: nat)
    ensures MayShorten(events, i, j) ==> InGroup(events, i, j)
  {
    if MayShorten(events, i, j) {
      ShownGroupIn(events, i);
    }
  }

  // A group's results have not been shortened by the groups before it.
  lemma {:induction false} Untouched(events: seq<Event>, before: seq<Event>, digest: string -> string, openers: seq<nat>, n: nat, w: Group)
    requires n < |openers| && LimitedBefore(events, before, digest, openers, n) && AllIn(events, openers[n], w.resultIndexes)
    requires Ascending(openers)
    ensures |before| == |events|
    ensures forall k :: 0 <= k < |w.resultIndexes| ==> before[w.resultIndexes[k]] == events[w.resultIndexes[k]]
  {
    hide LimitedAt;
    forall k | 0 <= k < |w.resultIndexes|
      ensures before[w.resultIndexes[k]] == events[w.resultIndexes[k]]
    {
      var j := w.resultIndexes[k];
      assert InGroup(events, openers[n], j);
      forall m | 0 <= m < n
        ensures !MayShorten(events, openers[m], j)
      {
        ShortenedInGroup(events, openers[m], j);
        assert openers[m] < openers[n];
      }
    }
  }

  lemma {:induction false} SharesFit(events: seq<Event>, g: Group, digest: string -> string)
    requires InRange(events, g)
    ensures var sizes, minimums := Sizes(events, g), Minimums(events, g, digest);
            forall k :: 0 <= k < |sizes| ==> minimums[k] <= sizes[k]
  {
  }

  // One group's excerpts are not another's.
  lemma {:induction false} LimitedKept(events: seq<Event>, before: seq<Event>, after: seq<Event>, digest: string -> string,
                                       k: nat, i: nat, w: Group)
    requires LimitedAt(events, before, digest, k) && |after| == |events| && k != i && InRange(events, w)
    requires AllIn(events, i, w.resultIndexes)
    requires forall j :: 0 <= j < |events| && j !in w.resultIndexes ==> after[j] == before[j]
    ensures LimitedAt(events, after, digest, k)
  {
    hide IsShare, Sizes, Minimums, Protected, ShownEvent, ShownGroup, Ordered;
    var g := ShownGroup(events, k);
    ShownGroupIn(events, k);
    var a :| ShowsShares(events, before, digest, g, a);
    forall m | 0 <= m < |g.names|
      ensures after[g.resultIndexes[m]] == before[g.resultIndexes[m]]
    {
      assert InGroup(events, k, g.resultIndexes[m]);
    }
    assert ShowsShares(events, after, digest, g, a);
  }

  method ShowShares(events: seq<Event>, before: seq<Event>, digest: string -> string, g: Group, a: seq<nat>)
    returns (projected: seq<Event>)
    requires InRange(events, g) && |before| == |events| && |a| == |g.names| && Ascending(g.resultIndexes)
    requires IsShare(a, Sizes(events, g), Protected(g), Minimums(events, g, digest))
    requires forall k :: 0 <= k < |g.resultIndexes| ==> before[g.resultIndexes[k]] == events[g.resultIndexes[k]]
    ensures |projected| == |events| && ShowsShares(events, projected, digest, g, a)
    ensures forall j :: 0 <= j < |events| && j !in g.resultIndexes ==> projected[j] == before[j]
  {
    hide IsShare, Sizes, Minimums, Protected, ShownEvent;
    projected := before;
    for n := 0 to |g.names|
      invariant |projected| == |events|
      invariant forall k :: 0 <= k < n ==> projected[g.resultIndexes[k]] == ShownEvent(events, digest, g, a, k)
      invariant forall k :: n <= k < |g.names| ==> projected[g.resultIndexes[k]] == events[g.resultIndexes[k]]
      invariant forall j :: 0 <= j < |events| && j !in g.resultIndexes ==> projected[j] == before[j]
    {
      var shown := ShowResult(events, digest, g, a, n);
      projected := projected[g.resultIndexes[n] := shown];
    }
  }

  method ShowResult(events: seq<Event>, digest: string -> string, g: Group, a: seq<nat>, k: nat) returns (shown: Event)
    requires InRange(events, g) && |a| == |g.names| && k < |g.names|
    ensures shown == ShownEvent(events, digest, g, a, k)
  {
    var e := events[g.resultIndexes[k]];
    if a[k] >= |e.content| {
      return e;
    }
    var protected := IsProtected(g.names[k]);
    var excerpt := X.ToolResultExcerpt(e.content, SourceOf(e, digest), a[k], Reason(protected, a[k], SizeOf(e, protected)));
    return e.(content := excerpt);
  }

  // ---- what the limits promise ----

  // Each group shows at most 96 KiB of what is not shown whole, and a
  // protected result is whole whenever the others' floors fit beside it.
  lemma {:induction false} GroupWithinBudget(events: seq<Event>, shown: seq<Event>, digest: string -> string, i: nat, a: seq<nat>)
    requires i < |events| && Ordered(events, i) && |shown| == |events| && InRange(events, ShownGroup(events, i))
    requires ShowsShares(events, shown, digest, ShownGroup(events, i), a)
    ensures Sum(a) <= MODEL_TOOL_RESULT_GROUP_BYTES
    ensures var w := ShownGroup(events, i);
            forall k :: 0 <= k < |w.names| ==>
              && |shown[w.resultIndexes[k]].content| <= a[k]
              && (IsProtected(w.names[k]) && ProtectedFit(Sizes(events, w), Protected(w), Minimums(events, w, digest)) ==>
                    shown[w.resultIndexes[k]] == events[w.resultIndexes[k]])
  {
    hide IsShare, Sizes, Minimums, Protected, ShownEvent, Sum, ProtectedFit;
    var w := ShownGroup(events, i);
    ShareWithinBudget(a, Sizes(events, w), Protected(w), Minimums(events, w, digest));
    forall k | 0 <= k < |w.names|
      ensures |shown[w.resultIndexes[k]].content| <= a[k]
      ensures IsProtected(w.names[k]) && ProtectedFit(Sizes(events, w), Protected(w), Minimums(events, w, digest)) ==>
                shown[w.resultIndexes[k]] == events[w.resultIndexes[k]]
    {
      ShownWithinShare(events, digest, w, a, k);
    }
  }

  lemma {:induction false} ShownWithinShare(events: seq<Event>, digest: string -> string, w: Group, a: seq<nat>, k: nat)
    requires InRange(events, w) && |a| == |w.names| && k < |w.names|
    requires IsShare(a, Sizes(events, w), Protected(w), Minimums(events, w, digest))
    ensures |ShownEvent(events, digest, w, a, k).content| <= a[k]
    ensures IsProtected(w.names[k]) && ProtectedFit(Sizes(events, w), Protected(w), Minimums(events, w, digest)) ==>
              ShownEvent(events, digest, w, a, k) == events[w.resultIndexes[k]]
  {
    hide Sum, ProtectedFit, Minimums, IsGroupFill;
    var e, protected := events[w.resultIndexes[k]], IsProtected(w.names[k]);
    if a[k] < |e.content| {
      X.ExcerptIsSafe(e.content, SourceOf(e, digest), a[k], Reason(protected, a[k], SizeOf(e, protected)));
    }
  }

  lemma {:induction false} ShareWithinBudget(a: seq<nat>, sizes: seq<nat>, protected: seq<bool>, minimums: seq<nat>)
    requires |protected| == |minimums| == |sizes| && IsShare(a, sizes, protected, minimums)
    ensures Sum(a) <= MODEL_TOOL_RESULT_GROUP_BYTES && |a| == |sizes|
  {
    if Sum(sizes) > MODEL_TOOL_RESULT_GROUP_BYTES {
      var level: nat :| IsGroupFill(a, sizes, protected, minimums, level);
      UnprotectedLength(sizes, minimums, protected);
      if ProtectedFit(sizes, protected, minimums) {
        var remaining := MODEL_TOOL_RESULT_GROUP_BYTES - ProtectedBytes(sizes, protected);
        var others, otherMinimums := Unprotected(sizes, protected), Unprotected(minimums, protected);
        WaterFillSpendsBudget(Unprotected(a, protected), others, ChosenFloors(others, otherMinimums, remaining), remaining, level);
        MergedSum(a, protected);
        ProtectedAgree(a, sizes, protected);
      } else {
        WaterFillSpendsBudget(a, sizes, ChosenFloors(sizes, minimums, MODEL_TOOL_RESULT_GROUP_BYTES),
                              MODEL_TOOL_RESULT_GROUP_BYTES, level);
      }
    }
  }

  // The results a group may shorten are those of its calls to other tools
  // than the skill tool, in order.
  lemma {:induction false} WithoutWholeExactly(g: Group) returns (kept: seq<nat>)
    requires |g.names| == |g.resultIndexes|
    ensures forall k :: k in kept <==> 0 <= k < |g.names| && g.names[k] != "skill"
    ensures forall m, n :: 0 <= m < n < |kept| ==> kept[m] < kept[n]
    ensures |WithoutWhole(g).names| == |kept|
    ensures forall m :: 0 <= m < |kept| ==>
              && kept[m] < |g.names| && WithoutWhole(g).names[m] == g.names[kept[m]]
              && WithoutWhole(g).resultIndexes[m] == g.resultIndexes[kept[m]]
    decreases |g.names|
  {
    hide *;
    kept := [];
    WithoutWholeLast(g);
    if g.names != [] {
      var n := |g.names| - 1;
      var rest := Group(g.resultIndexes[..n], g.names[..n]);
      var earlier := WithoutWholeExactly(rest);
      EachBelow(earlier, n);
      kept := earlier + if g.names[n] == "skill" then [] else [n];
      KeepsLast(g, earlier, WithoutWhole(rest));
    }
  }

  lemma {:induction false} KeepsLast(g: Group, earlier: seq<nat>, w: Group)
    requires |g.names| == |g.resultIndexes| > 0 && |w.names| == |w.resultIndexes| == |earlier|
    requires forall m :: 0 <= m < |earlier| ==>
               earlier[m] < |g.names| - 1 && w.names[m] == g.names[earlier[m]] && w.resultIndexes[m] == g.resultIndexes[earlier[m]]
    ensures var n := |g.names| - 1;
            var names, indexes := w.names + [g.names[n]], w.resultIndexes + [g.resultIndexes[n]];
            forall m :: 0 <= m < |earlier + [n]| ==>
              names[m] == g.names[(earlier + [n])[m]] && indexes[m] == g.resultIndexes[(earlier + [n])[m]]
  {
  }

  lemma {:induction false} WithoutWholeLast(g: Group)
    requires |g.names| == |g.resultIndexes|
    ensures g.names == [] ==> WithoutWhole(g) == g
    ensures g.names != [] ==>
              var n := |g.names| - 1;
              var w := WithoutWhole(Group(g.resultIndexes[..n], g.names[..n]));
              WithoutWhole(g) == if g.names[n] == "skill" then w else Group(w.resultIndexes + [g.resultIndexes[n]], w.names + [g.names[n]])
  {
  }

  lemma {:induction false} ProtectedNames(name: string)
    ensures IsProtected(name) <==>
              || name in ["read_tool_result", "delegate_research", "delegate_explore", "read_subagent_report", "continue_research", "skill"]
              || "memory_" < name || "todo_" < name || "delegate_" < name
  {
    assert PROTECTED_PREFIXES[0] == "memory_" && PROTECTED_PREFIXES[1] == "todo_" && PROTECTED_PREFIXES[2] == "delegate_";
  }

  // What a request shows of one result of a complete group: a result of
  // neither a skill nor a protected tool at most 32 KiB, and all of a result
  // that is protected or within 32 KiB when the group fits 96 KiB.
  lemma {:induction false} ResultShown(events: seq<Event>, shown: seq<Event>, digest: string -> string, i: nat, k: nat)
    requires i < |events| && IsGroup(events, i) && Ordered(events, i) && Limited(events, shown, digest)
    requires k < |Calls(events[i])| && Calls(events[i])[k].name != "skill"
    ensures var j, protected := Results(events, i)[k], IsProtected(Calls(events[i])[k].name);
            && j < |events| == |shown|
            && (!protected ==> |shown[j].content| <= 32 * 1024)
            && (ContentBytes(events, Results(events, i)) <= 96 * 1024 && (protected || |events[j].content| <= 32 * 1024) ==>
                  shown[j] == events[j])
  {
    hide IsShare, Sizes, Minimums, Protected, ShownEvent, Sum, Limited, ShownContent, ContentBytes, IsProtected, Results, WithoutWhole,
      LimitedAt, GroupLimited, ShowsShares, IsGroup;
    LimitedThere(events, shown, digest, i);
    var a := SharesOf(events, shown, digest, i);
    var g, w := GroupAt(events, i), ShownGroup(events, i);
    var kept := WithoutWholeExactly(g);
    assert g.names[k] == Calls(events[i])[k].name && k in kept;
    var m :| 0 <= m < |kept| && kept[m] == k;
    ShownWithin(events, shown, digest, i, a, m);
    ResultsAscend(events, i, |events|);
    KeptBytes(events, g, w, kept);
  }

  lemma {:induction false} LimitedThere(events: seq<Event>, shown: seq<Event>, digest: string -> string, i: nat)
    requires i < |events| && IsGroup(events, i) && Limited(events, shown, digest)
    ensures LimitedAt(events, shown, digest, i)
  {
    hide LimitedAt, IsGroup;
  }

  lemma {:induction false} SharesOf(events: seq<Event>, shown: seq<Event>, digest: string -> string, i: nat) returns (a: seq<nat>)
    requires LimitedAt(events, shown, digest, i)
    ensures |shown| == |events| && i < |events| && Ordered(events, i) && InRange(events, ShownGroup(events, i))
    ensures ShowsShares(events, shown, digest, ShownGroup(events, i), a)
  {
    hide ShowsShares, Ordered;
    a :| ShowsShares(events, shown, digest, ShownGroup(events, i), a);
  }

  function ContentBytes(events: seq<Event>, indexes: seq<nat>): nat {
    if indexes == [] then 0
    else
      var n := |indexes| - 1;
      ContentBytes(events, indexes[..n]) + (if indexes[n] < |events| then |events[indexes[n]].content| else 0)
  }

  lemma {:induction false} ShownWithin(events: seq<Event>, shown: seq<Event>, digest: string -> string, i: nat, a: seq<nat>, m: nat)
    requires i < |events| && Ordered(events, i) && |shown| == |events| && InRange(events, ShownGroup(events, i))
    requires ShowsShares(events, shown, digest, ShownGroup(events, i), a) && m < |ShownGroup(events, i).names|
    ensures var w := ShownGroup(events, i);
            var e, x, protected := events[w.resultIndexes[m]], shown[w.resultIndexes[m]], IsProtected(w.names[m]);
            && (!protected ==> |x.content| <= 32 * 1024)
            && (ContentBytes(events, w.resultIndexes) <= 96 * 1024 && (protected || |e.content| <= 32 * 1024) ==> x == e)
  {
    hide Minimums, Sum, ContentBytes, IsProtected, ShownGroup, WithoutWhole, IsGroupFill, ProtectedFit;
    var w := ShownGroup(events, i);
    var sizes := Sizes(events, w);
    SizesWithin(events, w);
    ShareBelowSize(a, sizes, Protected(w), Minimums(events, w, digest), m);
    ShownWithinShare(events, digest, w, a, m);
  }

  lemma {:induction false} ShareBelowSize(a: seq<nat>, sizes: seq<nat>, protected: seq<bool>, minimums: seq<nat>, m: nat)
    requires |protected| == |minimums| == |sizes| && IsShare(a, sizes, protected, minimums) && m < |sizes|
    ensures |a| == |sizes| && a[m] <= sizes[m]
  {
    if Sum(sizes) > MODEL_TOOL_RESULT_GROUP_BYTES {
      var level: nat :| IsGroupFill(a, sizes, protected, minimums, level);
      UnprotectedLength(sizes, minimums, protected);
      if ProtectedFit(sizes, protected, minimums) {
        var remaining := MODEL_TOOL_RESULT_GROUP_BYTES - ProtectedBytes(sizes, protected);
        var others, otherMinimums := Unprotected(sizes, protected), Unprotected(minimums, protected);
        WaterFillSpendsBudget(Unprotected(a, protected), others, ChosenFloors(others, otherMinimums, remaining), remaining, level);
        if !protected[m] {
          UnprotectedLength(sizes, a, protected);
          UnprotectedBound(a, sizes, protected, m);
        }
      } else {
        WaterFillSpendsBudget(a, sizes, ChosenFloors(sizes, minimums, MODEL_TOOL_RESULT_GROUP_BYTES),
                              MODEL_TOOL_RESULT_GROUP_BYTES, level);
      }
    }
  }

  lemma {:induction false} SizesWithin(events: seq<Event>, w: Group)
    requires InRange(events, w)
    ensures Sum(Sizes(events, w)) <= ContentBytes(events, w.resultIndexes)
    decreases |w.names|
  {
    hide IsProtected;
    if w.names != [] {
      var n := |w.names| - 1;
      var rest := Group(w.resultIndexes[..n], w.names[..n]);
      SizesWithin(events, rest);
      assert Sizes(events, w)[..n] == Sizes(events, rest);
    }
  }

  // What a group does not show whole is no more than the group.
  lemma {:induction false} KeptBytes(events: seq<Event>, g: Group, w: Group, kept: seq<nat>)
    requires |w.resultIndexes| == |kept|
    requires forall m :: 0 <= m < |kept| ==> kept[m] < |g.resultIndexes| && w.resultIndexes[m] == g.resultIndexes[kept[m]]
    requires forall m, n :: 0 <= m < n < |kept| ==> kept[m] < kept[n]
    ensures ContentBytes(events, w.resultIndexes) <= ContentBytes(events, g.resultIndexes)
    decreases |g.resultIndexes|
  {
    if g.resultIndexes != [] {
      var n := |g.resultIndexes| - 1;
      var rest := g.(resultIndexes := g.resultIndexes[..n]);
      if kept != [] && kept[|kept| - 1] == n {
        var m := |kept| - 1;
        KeptBytes(events, rest, w.(resultIndexes := w.resultIndexes[..m]), kept[..m]);
      } else {
        KeptBytes(events, rest, w, kept);
      }
    } else {
      assert kept == [] && w.resultIndexes == [];
    }
  }

  // ---- shown bytes never change ----

  // A complete group has each of its answers already.
  lemma {:induction false} AnsweredAlready(events: seq<Event>, more: seq<Event>, i: nat, id: string) returns (k: nat)
    requires IsGroup(events, i) && id in CallIds(events[i])
    ensures i < k < |events| && InGroup(events + more, i, k) && ResultId((events + more)[k]) == id
  {
    k :| i < k < |events| && InGroup(events, i, k) && ResultId(events[k]) == id;
    TC.PrevBoundaryPrefix(events, more, k);
  }

  // A complete group claims no result that arrives later.
  lemma {:induction false} CompleteGroupClosed(events: seq<Event>, more: seq<Event>, i: nat, j: nat)
    requires IsGroup(events, i) && ValidHistory(events + more) && |events| <= j
    ensures !InGroup(events + more, i, j)
  {
    var all := events + more;
    assert ValidAt(all, i) && all[i] == events[i];
    if InGroup(all, i, j) {
      var k := AnsweredAlready(events, more, i, ResultId(all[j]));
    }
  }

  lemma {:induction false} GroupStays(events: seq<Event>, more: seq<Event>, i: nat)
    requires IsGroup(events, i) && ValidHistory(events + more)
    ensures IsGroup(events + more, i) && Results(events + more, i) == Results(events, i)
    ensures GroupAt(events + more, i) == GroupAt(events, i)
  {
    var all := events + more;
    forall j: nat | j < |events|
      ensures InGroup(all, i, j) <==> InGroup(events, i, j)
    {
      TC.PrevBoundaryPrefix(events, more, j);
    }
    forall j: nat | |events| <= j
      ensures !InGroup(all, i, j)
    {
      CompleteGroupClosed(events, more, i, j);
    }
    SameResults(events, more, i, |events|);
    ResultsStay(all, i, |events|, |all|);
    assert AnsweredBefore(all, i, |all|) == AnsweredBefore(events, i, |events|) by {
      assert forall j: nat :: j < |events| ==> all[j] == events[j];
    }
  }

  lemma {:induction false} SameResults(events: seq<Event>, more: seq<Event>, i: nat, n: nat)
    requires n <= |events| && forall j: nat :: j < |events| ==> (InGroup(events + more, i, j) <==> InGroup(events, i, j))
    ensures ResultsBefore(events + more, i, n) == ResultsBefore(events, i, n)
  {
    if n > 0 {
      SameResults(events, more, i, n - 1);
    }
  }

  // Appending events never changes what a request shows of an earlier group.
  lemma {:induction false} ShownBytesStay(events: seq<Event>, more: seq<Event>, shown: seq<Event>, later: seq<Event>,
                                          digest: string -> string, i: nat)
    requires i < |events| && IsGroup(events, i) && ValidHistory(events + more) && Ordered(events, i)
    requires Limited(events, shown, digest) && Limited(events + more, later, digest)
    ensures InRange(events, ShownGroup(events, i))
    ensures var w := ShownGroup(events, i);
            forall k :: 0 <= k < |w.names| ==> later[w.resultIndexes[k]] == shown[w.resultIndexes[k]]
  {
    hide IsShare, Sizes, Minimums, Protected, ShownContent, Ordered, ValidHistory, IsGroup, WithoutWhole;
    var all := events + more;
    GroupStays(events, more, i);
    assert LimitedAt(events, shown, digest, i) && LimitedAt(all, later, digest, i);
    var w := ShownGroup(events, i);
    assert ShownGroup(all, i) == w;
    var a :| ShowsShares(events, shown, digest, w, a);
    var b :| ShowsShares(all, later, digest, w, b);
    SameShares(events, more, w, digest);
    ShareIsUnique(a, b, Sizes(events, w), Protected(w), Minimums(events, w, digest));
  }

  lemma {:induction false} SameShares(events: seq<Event>, more: seq<Event>, w: Group, digest: string -> string)
    requires InRange(events, w)
    ensures InRange(events + more, w) && Sizes(events + more, w) == Sizes(events, w)
    ensures Minimums(events + more, w, digest) == Minimums(events, w, digest)
    ensures forall k :: 0 <= k < |w.names| ==> (events + more)[w.resultIndexes[k]] == events[w.resultIndexes[k]]
  {
  }
}
