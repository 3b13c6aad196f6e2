/**
 * Tool groups of a durable history and the messages it projects to
 * (internal/agent/history.go).
 */
module History {
  import opened Wrappers
  import opened Events

  datatype HistoryError =
    | UndecodablePayload
    | IncompleteToolCall
    | RepeatedToolCall
    | UnmatchedResult
    | RepeatedResult
    | OrphanedResult
    | WrongRole
    | MissingToolCallId
    | OutOfOrderResult

  // The nearest assistant or user event before j, or -1. A tool group's scan
  // runs from its opening event to the next such event.
  function PrevBoundary(events: seq<Event>, j: nat): (i: int)
    requires j <= |events|
    ensures -1 <= i < j
    ensures i >= 0 ==> EndsGroup(events[i])
  {
    if j == 0 then -1
    else if EndsGroup(events[j - 1]) then j - 1
    else PrevBoundary(events, j - 1)
  }

  // A boundary hides every earlier one.
  lemma {:induction false} PrevBoundaryPast(events: seq<Event>, b: nat, j: nat)
    requires b < j <= |events| && EndsGroup(events[b])
    ensures PrevBoundary(events, j) >= b
  {
    if b + 1 < j {
      PrevBoundaryPast(events, b, j - 1);
    }
  }

  lemma {:induction false} PrevBoundaryIs(events: seq<Event>, j: nat, b: int)
    requires -1 <= b < j <= |events| && (b >= 0 ==> EndsGroup(events[b]))
    requires forall k: nat :: b < k < j ==> !EndsGroup(events[k])
    ensures PrevBoundary(events, j) == b
  {
    if b < j - 1 {
      PrevBoundaryIs(events, j - 1, b);
    }
  }

  lemma {:induction false} PrevBoundaryFacts(events: seq<Event>, j: nat)
    requires j <= |events|
    ensures forall k: nat :: PrevBoundary(events, j) < k < j ==> !EndsGroup(events[k])
  {
    if j > 0 && !EndsGroup(events[j - 1]) {
      PrevBoundaryFacts(events, j - 1);
    }
  }

  function Calls(e: Event): seq<ToolCall> {
    if DecodeCalls(e).Some? then DecodeCalls(e).value else []
  }

  function ResultId(e: Event): string {
    if DecodeToolCallId(e).Some? then DecodeToolCallId(e).value else ""
  }

  function CallIds(e: Event): set<string> {
    set c | c in Calls(e) :: c.id
  }

  // An assistant event that requested tools.
  predicate Opens(events: seq<Event>, i: nat) {
    i < |events| && events[i].etype.AssistantMessage? && Calls(events[i]) != []
  }

  // Event j is a tool result in the group that event i opens.
  predicate InGroup(events: seq<Event>, i: nat, j: nat) {
    j < |events| && IsToolResult(events[j]) && PrevBoundary(events, j) == i && Opens(events, i)
  }

  predicate ValidCalls(calls: seq<ToolCall>) {
    && (forall k :: 0 <= k < |calls| ==> calls[k].id != "" && calls[k].name != "")
    && forall k, m :: 0 <= k < m < |calls| ==> calls[k].id != calls[m].id
  }

  // Group i's results before n decode, and each answers a different call of it.
  ghost predicate ValidGroupBefore(events: seq<Event>, i: nat, n: nat)
    requires i < |events|
  {
    && (forall j: nat :: j < n && InGroup(events, i, j) ==>
          DecodeToolCallId(events[j]).Some? && ResultId(events[j]) in CallIds(events[i]))
    && forall j: nat, k: nat :: j < k < n && InGroup(events, i, j) && InGroup(events, i, k) ==>
         ResultId(events[j]) != ResultId(events[k])
  }

  ghost predicate ValidGroup(events: seq<Event>, i: nat)
    requires Opens(events, i)
  {
    ValidCalls(Calls(events[i])) && ValidGroupBefore(events, i, |events|)
  }

  // A tool result that follows its group's opening event.
  ghost predicate Claimed(events: seq<Event>, j: nat)
    requires j < |events|
  {
    var i := PrevBoundary(events, j);
    i >= 0 && Opens(events, i)
  }

  // A history whose tool calls and results pair up.
  ghost predicate ValidHistory(events: seq<Event>) {
    && (forall i: nat :: i < |events| ==> ValidAt(events, i))
    && forall j: nat :: j < |events| && IsToolResult(events[j]) ==> Claimed(events, j)
  }

  ghost predicate ValidAt(events: seq<Event>, i: nat)
    requires i < |events|
  {
    && (events[i].etype.AssistantMessage? ==> DecodeCalls(events[i]).Some?)
    && (Opens(events, i) ==> ValidGroup(events, i))
  }

  // The call identities that group i's results before n answer.
  ghost function AnsweredBefore(events: seq<Event>, i: nat, n: nat): set<string> {
    set j: nat | i < j < n && InGroup(events, i, j) :: ResultId(events[j])
  }

  ghost predicate Complete(events: seq<Event>, i: nat)
    requires i < |events|
  {
    CallIds(events[i]) <= AnsweredBefore(events, i, |events|)
  }

  // Event k is left out of the request: its group has unanswered calls.
  ghost predicate Omitted(events: seq<Event>, k: nat)
    requires k < |events|
  {
    if IsToolResult(events[k]) then
      var i := PrevBoundary(events, k);
      i >= 0 && Opens(events, i) && !Complete(events, i)
    else
      Opens(events, k) && !Complete(events, k)
  }

  // What the scan leaves out of the request.
  ghost function Omissions(events: seq<Event>): set<nat> {
    set k: nat | k < |events| && Omitted(events, k)
  }

  // Result j follows event i with no user or assistant event between them.
  ghost predicate ResultAfter(events: seq<Event>, i: nat, j: nat) {
    i < j < |events| && IsToolResult(events[j]) && forall k: nat :: i < k < j ==> !EndsGroup(events[k])
  }

  // Event i asks for tools, and one of its calls is answered by no result
  // that follows.
  ghost predicate Unanswered(events: seq<Event>, i: nat) {
    && i < |events| && events[i].etype.AssistantMessage?
    && exists k :: 0 <= k < |Calls(events[i])| && forall j: nat :: ResultAfter(events, i, j) ==> ResultId(events[j]) != Calls(events[i])[k].id
  }

  lemma {:induction false} ResultAfterIs(events: seq<Event>, i: nat, j: nat)
    requires Opens(events, i)
    ensures ResultAfter(events, i, j) <==> InGroup(events, i, j)
  {
    if ResultAfter(events, i, j) {
      PrevBoundaryIs(events, j, i);
    }
    if InGroup(events, i, j) {
      PrevBoundaryFacts(events, j);
    }
  }

  lemma {:induction false} UnansweredIs(events: seq<Event>, i: nat)
    requires i < |events|
    ensures Unanswered(events, i) <==> Opens(events, i) && !Complete(events, i)
  {
    if Opens(events, i) {
      forall j: nat
        ensures ResultAfter(events, i, j) <==> InGroup(events, i, j)
      {
        ResultAfterIs(events, i, j);
      }
      hide InGroup, ResultAfter;
      forall k | 0 <= k < |Calls(events[i])|
        ensures Calls(events[i])[k].id in AnsweredBefore(events, i, |events|)
                <==> exists j: nat :: ResultAfter(events, i, j) && ResultId(events[j]) == Calls(events[i])[k].id
      {
        AnsweredIs(events, i, Calls(events[i])[k].id);
      }
      assert forall k :: 0 <= k < |Calls(events[i])| ==> Calls(events[i])[k] in Calls(events[i]) && Calls(events[i])[k].id in CallIds(events[i]);
      if !Complete(events, i) {
        var id :| id in CallIds(events[i]) && id !in AnsweredBefore(events, i, |events|);
        var c :| c in Calls(events[i]) && c.id == id;
        var k :| 0 <= k < |Calls(events[i])| && Calls(events[i])[k] == c;
      }
    }
  }

  lemma {:induction false} AnsweredIs(events: seq<Event>, i: nat, id: string)
    requires i < |events| && forall j: nat :: ResultAfter(events, i, j) <==> InGroup(events, i, j)
    ensures id in AnsweredBefore(events, i, |events|) <==> exists j: nat :: ResultAfter(events, i, j) && ResultId(events[j]) == id
  {
    hide InGroup;
    if j: nat :| ResultAfter(events, i, j) && ResultId(events[j]) == id {
      assert InGroup(events, i, j) && i < j < |events|;
    }
  }

  // Left out are exactly the events of groups with an unanswered call.
  lemma {:induction false} OmittedExactly(events: seq<Event>, k: nat)
    requires k < |events|
    ensures k in Omissions(events) <==> exists i: nat :: Unanswered(events, i) && (k == i || ResultAfter(events, i, k))
  {
    forall i: nat | i < |events|
      ensures Unanswered(events, i) <==> Opens(events, i) && !Complete(events, i)
    {
      UnansweredIs(events, i);
    }
    if IsToolResult(events[k]) && PrevBoundary(events, k) >= 0 && Opens(events, PrevBoundary(events, k)) {
      ResultAfterIs(events, PrevBoundary(events, k), k);
    }
    hide Complete, Calls;
    forall i: nat | Unanswered(events, i) && ResultAfter(events, i, k)
      ensures PrevBoundary(events, k) == i
    {
      ResultAfterIs(events, i, k);
    }
  }

  // ---- incompleteToolGroupEvents ----

  method CheckCalls(calls: seq<ToolCall>) returns (r: Result<set<string>, HistoryError>)
    ensures r.Ok? <==> ValidCalls(calls)
    ensures r.Ok? ==> r.value == set c | c in calls :: c.id
  {
    var requested: set<string> := {};
    for k := 0 to |calls|
      invariant ValidCalls(calls[..k])
      invariant requested == set c | c in calls[..k] :: c.id
    {
      assert calls[..k + 1] == calls[..k] + [calls[k]];
      if calls[k].id == "" || calls[k].name == "" {
        assert !ValidCalls(calls);
        return Err(IncompleteToolCall);
      }
      if calls[k].id in requested {
        assert exists m :: 0 <= m < k && calls[m].id == calls[k].id by {
          var c :| c in calls[..k] && c.id == calls[k].id;
        }
        return Err(RepeatedToolCall);
      }
      requested := requested + {calls[k].id};
    }
    assert calls[..|calls|] == calls;
    return Ok(requested);
  }

  // The call a result answers, when it is one of the group's not answered yet.
  function ClaimedCall(e: Event, requested: set<string>, answered: set<string>): Result<string, HistoryError> {
    if DecodeToolCallId(e).None? then Err(UndecodablePayload)
    else if ResultId(e) !in requested then Err(UnmatchedResult)
    else if ResultId(e) in answered then Err(RepeatedResult)
    else Ok(ResultId(e))
  }

  // One group's scan: the results it claims and whether every call is answered.
  method ScanGroup(events: seq<Event>, i: nat, requested: set<string>)
    returns (r: Result<(set<nat>, bool), HistoryError>)
    requires Opens(events, i) && ValidCalls(Calls(events[i])) && requested == CallIds(events[i])
    ensures r.Ok? <==> ValidGroup(events, i)
    ensures r.Ok? ==> forall k: nat :: k in r.value.0 <==> InGroup(events, i, k)
    ensures r.Ok? ==> (r.value.1 <==> Complete(events, i))
  {
    var answered: set<string> := {};
    var claimed: set<nat> := {};
    var j := i + 1;
    GroupStart(events, i);
    hide AnsweredBefore, ValidGroupBefore, InGroup, PrevBoundary, ValidCalls, CallIds, Opens;
    while j < |events| && !EndsGroup(events[j])
      invariant i < j <= |events| && PrevBoundary(events, j) == i
      invariant answered == AnsweredBefore(events, i, j)
      invariant forall k: nat :: k in claimed <==> k < j && InGroup(events, i, k)
      invariant ValidGroupBefore(events, i, j)
    {
      ScanStep(events, i, j);
      if IsToolResult(events[j]) {
        var id := ClaimedCall(events[j], requested, answered);
        if id.Err? {
          return Err(id.error);
        }
        answered := answered + {id.value};
        claimed := claimed + {j};
      }
      j := j + 1;
    }
    GroupEndsBy(events, i, j);
    return Ok((claimed, requested <= answered));
  }

  lemma {:induction false} GroupStart(events: seq<Event>, i: nat)
    requires Opens(events, i)
    ensures PrevBoundary(events, i + 1) == i && AnsweredBefore(events, i, i + 1) == {}
    ensures ValidGroupBefore(events, i, i + 1) && forall k: nat :: k < i + 1 ==> !InGroup(events, i, k)
  {
  }

  lemma {:induction false} ScanStep(events: seq<Event>, i: nat, j: nat)
    requires Opens(events, i) && i < j < |events| && PrevBoundary(events, j) == i
    ensures InGroup(events, i, j) <==> IsToolResult(events[j])
    ensures !EndsGroup(events[j]) ==> PrevBoundary(events, j + 1) == i
    ensures !IsToolResult(events[j]) ==> AnsweredBefore(events, i, j + 1) == AnsweredBefore(events, i, j)
    ensures IsToolResult(events[j]) ==>
              AnsweredBefore(events, i, j + 1) == AnsweredBefore(events, i, j) + {ResultId(events[j])}
    ensures ValidGroupBefore(events, i, j + 1) <==>
              && ValidGroupBefore(events, i, j)
              && (IsToolResult(events[j]) ==>
                    && DecodeToolCallId(events[j]).Some?
                    && ResultId(events[j]) in CallIds(events[i])
                    && ResultId(events[j]) !in AnsweredBefore(events, i, j))
    ensures ValidGroupBefore(events, i, |events|) ==> ValidGroupBefore(events, i, j + 1)
  {
    if IsToolResult(events[j]) {
      assert InGroup(events, i, j);
      if ResultId(events[j]) in AnsweredBefore(events, i, j) {
        var k: nat :| i < k < j && InGroup(events, i, k) && ResultId(events[k]) == ResultId(events[j]);
        assert !ValidGroupBefore(events, i, j + 1);
      }
    }
  }

  // Group i has no results from its next boundary on.
  lemma {:induction false} GroupEndsBy(events: seq<Event>, i: nat, j: nat)
    requires i < j <= |events| && (j < |events| ==> EndsGroup(events[j]))
    ensures forall k: nat :: InGroup(events, i, k) ==> k < j
    ensures AnsweredBefore(events, i, |events|) == AnsweredBefore(events, i, j)
    ensures i < |events| && ValidGroupBefore(events, i, j) ==> ValidGroupBefore(events, i, |events|)
  {
    forall k: nat | InGroup(events, i, k) && j < k ensures false {
      PrevBoundaryPast(events, j, k);
    }
  }

  // What the first n groups' scans leave out.
  ghost predicate OmittedBefore(events: seq<Event>, n: nat, k: nat)
    requires k < |events|
  {
    Omitted(events, k) && (if IsToolResult(events[k]) then PrevBoundary(events, k) < n else k < n)
  }

  ghost predicate ClaimedBefore(events: seq<Event>, n: nat, k: nat)
    requires k < |events|
  {
    IsToolResult(events[k]) && Claimed(events, k) && PrevBoundary(events, k) < n
  }

  // The scans of the events before n succeed, and have found these sets.
  ghost predicate Scanned(events: seq<Event>, n: nat, omit: set<nat>, claimed: set<nat>)
    requires n <= |events|
  {
    && (forall k: nat :: k in omit <==> k < |events| && OmittedBefore(events, n, k))
    && (forall k: nat :: k in claimed <==> k < |events| && ClaimedBefore(events, n, k))
    && forall k: nat :: k < n ==> ValidAt(events, k)
  }

  method IncompleteToolGroupEvents(events: seq<Event>) returns (r: Result<set<nat>, HistoryError>)
    ensures r.Ok? <==> ValidHistory(events)
    ensures r.Ok? ==> r.value == Omissions(events)
  {
    var omit: set<nat> := {};
    var claimedResults: set<nat> := {};
    for i := 0 to |events|
      invariant Scanned(events, i, omit, claimedResults)
    {
      var more := ScanAt(events, i);
      if more.Err? {
        assert !ValidAt(events, i);
        return Err(more.error);
      }
      ScannedNext(events, i, omit, claimedResults, more.value.0, more.value.1);
      omit := omit + more.value.0;
      claimedResults := claimedResults + more.value.1;
    }
    AllScanned(events, omit, claimedResults);
    for j := 0 to |events|
      invariant forall k: nat :: k < j && IsToolResult(events[k]) ==> k in claimedResults
    {
      if IsToolResult(events[j]) && j !in claimedResults {
        return Err(OrphanedResult);
      }
    }
    return Ok(omit);
  }

  // One pass of the scanning loop: what event i adds to the two sets.
  method ScanAt(events: seq<Event>, i: nat) returns (r: Result<(set<nat>, set<nat>), HistoryError>)
    requires i < |events|
    ensures r.Ok? <==> ValidAt(events, i)
    ensures r.Ok? ==> forall k: nat :: k in r.value.1 <==> InGroup(events, i, k)
    ensures r.Ok? ==> forall k: nat :: k in r.value.0 <==>
              Opens(events, i) && !Complete(events, i) && (k == i || InGroup(events, i, k))
  {
    if !events[i].etype.AssistantMessage? {
      return Ok(({}, {}));
    }
    if DecodeCalls(events[i]).None? {
      return Err(UndecodablePayload);
    }
    if Calls(events[i]) == [] {
      return Ok(({}, {}));
    }
    var requested := CheckCalls(Calls(events[i]));
    if requested.Err? {
      return Err(requested.error);
    }
    var scan := ScanGroup(events, i, requested.value);
    if scan.Err? {
      return Err(scan.error);
    }
    return Ok((if scan.value.1 then {} else {i} + scan.value.0, scan.value.0));
  }

  lemma {:induction false} ScannedNext(events: seq<Event>, i: nat, omit: set<nat>, claimed: set<nat>, omitted: set<nat>, answers: set<nat>)
    requires i < |events| && Scanned(events, i, omit, claimed) && ValidAt(events, i)
    requires forall k: nat :: k in answers <==> InGroup(events, i, k)
    requires forall k: nat :: k in omitted <==>
               Opens(events, i) && !Complete(events, i) && (k == i || InGroup(events, i, k))
    ensures Scanned(events, i + 1, omit + omitted, claimed + answers)
  {
    forall k: nat
      ensures k in claimed + answers <==> k < |events| && ClaimedBefore(events, i + 1, k)
      ensures k in omit + omitted <==> k < |events| && OmittedBefore(events, i + 1, k)
    {
      assert k in answers <==> InGroup(events, i, k);
    }
  }

  lemma {:induction false} AllScanned(events: seq<Event>, omit: set<nat>, claimed: set<nat>)
    requires Scanned(events, |events|, omit, claimed)
    ensures omit == Omissions(events)
    ensures ValidHistory(events) <==> forall k: nat :: k < |events| && IsToolResult(events[k]) ==> k in claimed
  {
    forall k: nat | k < |events|
      ensures k in omit <==> Omitted(events, k)
      ensures k in claimed <==> IsToolResult(events[k]) && Claimed(events, k)
    {
    }
  }

  // ---- messagesFromEvents ----

  datatype MessageRole = User | AssistantRole | Tool

  datatype Message = Message(role: MessageRole, content: string, calls: seq<ToolCall>, toolCallId: string)

  // The request messages of one event that is not omitted.
  function Render(e: Event): Result<seq<Message>, HistoryError> {
    match e.etype
    case UserMessage =>
      if e.role.RoleUser? then Ok([Message(User, e.content, [], "")]) else Err(WrongRole)
    case AssistantMessage =>
      if !e.role.RoleAssistant? then Err(WrongRole)
      else if DecodeCalls(e).None? then Err(UndecodablePayload)
      else if exists k :: 0 <= k < |Calls(e)| && (Calls(e)[k].id == "" || Calls(e)[k].name == "") then Err(IncompleteToolCall)
      else Ok([Message(AssistantRole, e.content, Calls(e), "")])
    case ToolSucceeded => RenderResult(e)
    case ToolFailed => RenderResult(e)
    case ToolCancelled => RenderResult(e)
    case TurnSummaryView => Ok([Message(User, e.content, [], "")])
    case _ => Ok([])
  }

  function RenderResult(e: Event): Result<seq<Message>, HistoryError> {
    if !e.role.RoleTool? then Err(WrongRole)
    else if DecodeToolCallId(e).None? then Err(UndecodablePayload)
    else if ResultId(e) == "" then Err(MissingToolCallId)
    else Ok([Message(Tool, e.content, [], ResultId(e))])
  }

  // A user, assistant or result event, or an in-turn summary, is one message
  // of its content, with an assistant's calls and the call a result answers;
  // any other event is none.
  lemma {:induction false} RenderExactly(e: Event)
    ensures Render(e).Ok? <==>
              && (e.etype.UserMessage? ==> e.role.RoleUser?)
              && (e.etype.AssistantMessage? ==>
                    && e.role.RoleAssistant? && !e.payload.Malformed?
                    && (e.payload.Assistant? ==> forall c :: c in e.payload.calls ==> c.id != "" && c.name != ""))
              && (IsToolResult(e) ==> e.role.RoleTool? && e.payload.ToolResult? && e.payload.toolCallId != "")
    ensures Render(e).Ok? ==>
            var messages := Render(e).value;
            if e.etype.UserMessage? || e.etype.TurnSummaryView? then messages == [Message(User, e.content, [], "")]
            else if e.etype.AssistantMessage? then
              |messages| == 1 && messages[0].role.AssistantRole? && messages[0].content == e.content && messages[0].toolCallId == ""
              && messages[0].calls == (if e.payload.Assistant? then e.payload.calls else [])
            else if IsToolResult(e) then
              |messages| == 1 && messages[0].role.Tool? && messages[0].content == e.content && messages[0].calls == []
              && e.payload.ToolResult? && messages[0].toolCallId == e.payload.toolCallId != ""
            else messages == []
  {
  }

  ghost predicate Renders(events: seq<Event>, omit: set<nat>) {
    forall k: nat :: k < |events| && k !in omit ==> Render(events[k]).Ok?
  }

  ghost function Rendered(events: seq<Event>, omit: set<nat>, k: nat): seq<Message>
    requires k < |events| && Renders(events, omit)
  {
    if k in omit then [] else Render(events[k]).value
  }

  ghost function Flatten<T>(parts: seq<seq<T>>): seq<T> {
    if parts == [] then [] else parts[0] + Flatten(parts[1..])
  }

  lemma {:induction false} FlattenSnoc<T>(parts: seq<seq<T>>, last: seq<T>)
    ensures Flatten(parts + [last]) == Flatten(parts) + last
  {
    if parts == [] {
      assert parts + [last] == [last];
    } else {
      assert (parts + [last])[1..] == parts[1..] + [last];
      FlattenSnoc(parts[1..], last);
    }
  }

  // Where an element of a part stands.
  lemma {:induction false} FlattenHas<T>(parts: seq<seq<T>>, g: nat, k: nat) returns (j: nat)
    requires g < |parts| && k < |parts[g]|
    ensures j < |Flatten(parts)| && Flatten(parts)[j] == parts[g][k]
    ensures forall n :: 0 <= n <= g ==> |Flatten(parts[..n])| <= j
  {
    if g == 0 {
      j := k;
      assert parts[..0] == [];
    } else {
      var m := FlattenHas(parts[1..], g - 1, k);
      j := m + |parts[0]|;
      forall n | 0 <= n <= g
        ensures |Flatten(parts[..n])| <= j
      {
        if n > 0 {
          assert parts[..n][1..] == parts[1..][..n - 1];
        }
      }
    }
  }

  lemma {:induction false} FlattenPrefix<T>(parts: seq<seq<T>>, n: nat)
    requires n <= |parts|
    ensures Flatten(parts[..n]) <= Flatten(parts)
  {
    if n > 0 {
      assert parts[..n][1..] == parts[1..][..n - 1];
      FlattenPrefix(parts[1..], n - 1);
    }
  }

  lemma {:induction false} EachBelow(changed: seq<nat>, n: nat)
    requires forall i :: i in changed ==> i < n
    ensures forall k :: 0 <= k < |changed| ==> changed[k] < n
  {
    forall k | 0 <= k < |changed|
      ensures changed[k] < n
    {
      assert changed[k] in changed;
    }
  }

  // What each event renders to, in order.
  ghost function Parts(events: seq<Event>, omit: set<nat>): seq<seq<Message>>
    requires Renders(events, omit)
  {
    seq(|events|, i requires 0 <= i < |events| => Rendered(events, omit, i))
  }

  ghost predicate Projects(events: seq<Event>) {
    ValidHistory(events) && Renders(events, Omissions(events))
  }

  ghost function Messages(events: seq<Event>): seq<Message>
    requires Projects(events)
  {
    Flatten(Parts(events, Omissions(events)))
  }

  method MessagesFromEvents(events: seq<Event>) returns (r: Result<seq<Message>, HistoryError>)
    ensures r.Ok? <==> Projects(events)
    ensures r.Ok? ==> r.value == Messages(events)
  {
    var omit := IncompleteToolGroupEvents(events);
    if omit.Err? {
      return Err(omit.error);
    }
    r := RenderAll(events, omit.value);
  }

  method RenderAll(events: seq<Event>, omit: set<nat>) returns (r: Result<seq<Message>, HistoryError>)
    ensures r.Ok? <==> Renders(events, omit)
    ensures r.Ok? ==> r.value == Flatten(Parts(events, omit))
  {
    var messages: seq<Message> := [];
    ghost var parts: seq<seq<Message>> := [];
    for i := 0 to |events|
      invariant |parts| == i && messages == Flatten(parts)
      invariant forall k: nat :: k < i ==> RenderKept(events, omit, k) == Ok(parts[k])
    {
      var rendered := RenderKept(events, omit, i);
      if rendered.Err? {
        return Err(rendered.error);
      }
      FlattenSnoc(parts, rendered.value);
      parts := parts + [rendered.value];
      messages := messages + rendered.value;
    }
    forall k: nat | k < |events| && k !in omit ensures Render(events[k]).Ok? {
      assert RenderKept(events, omit, k) == Ok(parts[k]);
    }
    assert parts == Parts(events, omit);
    return Ok(messages);
  }

  function RenderKept(events: seq<Event>, omit: set<nat>, i: nat): Result<seq<Message>, HistoryError>
    requires i < |events|
  {
    if i in omit then Ok([]) else Render(events[i])
  }

  // ---- Every call is answered exactly once ----

  // Read from the front, `open` being the calls still to answer: a tool message
  // answers one open call and closes it; any other message finds none open.
  ghost predicate AnswersExactly(messages: seq<Message>, open: set<string>) {
    if messages == [] then open == {}
    else
      var m, rest := messages[0], messages[1..];
      match m.role
      case Tool => m.toolCallId in open && AnswersExactly(rest, open - {m.toolCallId})
      case User => open == {} && AnswersExactly(rest, {})
      case AssistantRole =>
        open == {} && ValidCalls(m.calls) && AnswersExactly(rest, set c | c in m.calls :: c.id)
  }

  // A summary view never sits among a group's results.
  ghost predicate ViewsOutsideGroups(events: seq<Event>) {
    forall k: nat, j: nat :: k < j < |events| && events[k].etype.TurnSummaryView? && IsToolResult(events[j]) ==>
      PrevBoundary(events, j) > k
  }

  // Each result shares its opening event's fate, and a kept group answers each
  // of its calls exactly once.
  ghost predicate KeepsWholeGroups(events: seq<Event>, omit: set<nat>) {
    && (forall j: nat :: j < |events| && IsToolResult(events[j]) ==>
          var i := PrevBoundary(events, j);
          i >= 0 && Opens(events, i) && (j in omit <==> i in omit))
    && (forall k: nat :: k in omit ==> k < |events| && (IsToolResult(events[k]) || Opens(events, k)))
    && (forall i: nat :: Opens(events, i) && i !in omit ==>
          ValidCalls(Calls(events[i])) && AnsweredIn(events, i) == CallIds(events[i]))
    && forall j: nat, k: nat :: j < k < |events| && SameGroup(events, j, k) ==>
         ResultId(events[j]) != ResultId(events[k])
  }

  // Two results of one group.
  predicate SameGroup(events: seq<Event>, j: nat, k: nat)
    requires j < |events| && k < |events|
  {
    IsToolResult(events[j]) && IsToolResult(events[k]) && PrevBoundary(events, j) == PrevBoundary(events, k)
  }

  // The call identities that the results after boundary i answer.
  ghost function AnsweredIn(events: seq<Event>, i: nat): set<string> {
    set j: nat | i < j < |events| && IsToolResult(events[j]) && PrevBoundary(events, j) == i :: ResultId(events[j])
  }

  lemma {:induction false} OmissionsKeepWholeGroups(events: seq<Event>)
    requires ValidHistory(events)
    ensures KeepsWholeGroups(events, Omissions(events))
  {
    var omit := Omissions(events);
    forall j: nat | j < |events| && IsToolResult(events[j])
      ensures var i := PrevBoundary(events, j);
              i >= 0 && Opens(events, i) && (j in omit <==> i in omit)
    {
      assert Claimed(events, j);
    }
    forall i: nat | Opens(events, i) && i !in omit
      ensures ValidCalls(Calls(events[i])) && AnsweredIn(events, i) == CallIds(events[i])
    {
      assert ValidAt(events, i);
      assert ValidGroup(events, i) && Complete(events, i);
      AnsweredInGroup(events, i);
    }
    forall j: nat, k: nat | j < k < |events| && SameGroup(events, j, k)
      ensures ResultId(events[j]) != ResultId(events[k])
    {
      assert Claimed(events, j);
      var i: nat := PrevBoundary(events, j);
      assert ValidAt(events, i);
      assert InGroup(events, i, j) && InGroup(events, i, k) && ValidGroup(events, i);
    }
  }

  lemma {:induction false} AnsweredInGroup(events: seq<Event>, i: nat)
    requires Opens(events, i) && ValidGroupBefore(events, i, |events|)
    ensures AnsweredIn(events, i) == AnsweredBefore(events, i, |events|) <= CallIds(events[i])
  {
    forall j: nat | i < j < |events| ensures IsToolResult(events[j]) && PrevBoundary(events, j) == i <==> InGroup(events, i, j) {
    }
  }

  // Result j is kept, at or after k, and its group opened before k.
  ghost predicate IsPending(events: seq<Event>, omit: set<nat>, k: nat, j: nat)
    requires j < |events|
  {
    k <= j && IsToolResult(events[j]) && j !in omit && PrevBoundary(events, j) < k
  }

  // The answers still to come when the messages of event k and later are read.
  ghost function Pending(events: seq<Event>, omit: set<nat>, k: nat): set<string>
    requires k <= |events|
  {
    set j: nat | j < |events| && IsPending(events, omit, k, j) :: ResultId(events[j])
  }

  // What one message requires of the calls open before and after it.
  ghost predicate Opened(m: Message, before: set<string>, after: set<string>) {
    match m.role
    case Tool => m.toolCallId in before && after == before - {m.toolCallId}
    case User => before == after == {}
    case AssistantRole => before == {} && ValidCalls(m.calls) && after == set c | c in m.calls :: c.id
  }

  ghost predicate OpenedAll(messages: seq<Message>, before: set<string>, after: set<string>) {
    if messages == [] then before == after else |messages| == 1 && Opened(messages[0], before, after)
  }

  lemma {:induction false} AnswersCons(messages: seq<Message>, rest: seq<Message>, before: set<string>, after: set<string>)
    requires OpenedAll(messages, before, after) && AnswersExactly(rest, after)
    ensures AnswersExactly(messages + rest, before)
  {
    if messages == [] {
      assert messages + rest == rest;
    } else {
      assert (messages + rest)[1..] == rest;
    }
  }

  lemma {:induction false} AnsweredInSteps(parts: seq<seq<Message>>, open: seq<set<string>>)
    requires |open| == |parts| + 1 && open[|parts|] == {}
    requires forall i :: 0 <= i < |parts| ==> OpenedAll(parts[i], open[i], open[i + 1])
    ensures AnswersExactly(Flatten(parts), open[0])
  {
    if parts != [] {
      AnsweredInSteps(parts[1..], open[1..]);
      AnswersCons(parts[0], Flatten(parts[1..]), open[0], open[1]);
    }
  }

  lemma {:induction false} PendingStep(events: seq<Event>, omit: set<nat>, k: nat)
    requires k < |events| && KeepsWholeGroups(events, omit) && Renders(events, omit) && ViewsOutsideGroups(events)
    ensures OpenedAll(Rendered(events, omit, k), Pending(events, omit, k), Pending(events, omit, k + 1))
  {
    hide Pending, KeepsWholeGroups, ViewsOutsideGroups;
    if IsToolResult(events[k]) {
      PendingAtResult(events, omit, k);
    } else if EndsGroup(events[k]) {
      PendingAtBoundary(events, omit, k);
      BoundaryStep(events, omit, k, Pending(events, omit, k), Pending(events, omit, k + 1));
    } else {
      PendingElsewhere(events, omit, k);
    }
  }

  lemma {:induction false} BoundaryStep(events: seq<Event>, omit: set<nat>, k: nat, before: set<string>, after: set<string>)
    requires k < |events| && KeepsWholeGroups(events, omit) && Renders(events, omit) && EndsGroup(events[k])
    requires before == {} && after == if Opens(events, k) && k !in omit then CallIds(events[k]) else {}
    ensures OpenedAll(Rendered(events, omit, k), before, after)
  {
    if k !in omit {
      assert Render(events[k]).Ok?;
      assert Opens(events, k) ==> ValidCalls(Calls(events[k]));
    }
  }

  lemma {:induction false} PendingElsewhere(events: seq<Event>, omit: set<nat>, k: nat)
    requires k < |events| && !IsToolResult(events[k]) && !EndsGroup(events[k])
    ensures Pending(events, omit, k) == Pending(events, omit, k + 1)
    ensures ViewsOutsideGroups(events) && events[k].etype.TurnSummaryView? ==> Pending(events, omit, k) == {}
  {
    forall j: nat | j < |events| ensures IsPending(events, omit, k, j) <==> IsPending(events, omit, k + 1, j) {
    }
  }

  lemma {:induction false} PendingAtResult(events: seq<Event>, omit: set<nat>, k: nat)
    requires k < |events| && KeepsWholeGroups(events, omit) && IsToolResult(events[k])
    ensures k in omit ==> Pending(events, omit, k) == Pending(events, omit, k + 1)
    ensures k !in omit ==> ResultId(events[k]) in Pending(events, omit, k)
    ensures k !in omit ==> Pending(events, omit, k + 1) == Pending(events, omit, k) - {ResultId(events[k])}
  {
    forall j: nat | j < |events|
      ensures IsPending(events, omit, k + 1, j) <==> IsPending(events, omit, k, j) && j != k
    {
    }
    forall j: nat | j < |events| && IsPending(events, omit, k + 1, j)
      ensures ResultId(events[j]) != ResultId(events[k])
    {
      SameBoundary(events, k, j);
      assert SameGroup(events, k, j);
    }
    assert IsPending(events, omit, k, k) <==> k !in omit;
    PendingWithout(events, omit, k);
  }

  lemma {:induction false} PendingWithout(events: seq<Event>, omit: set<nat>, k: nat)
    requires k < |events|
    requires forall j: nat :: j < |events| ==>
               (IsPending(events, omit, k + 1, j) <==> IsPending(events, omit, k, j) && j != k)
    requires forall j: nat :: j < |events| && IsPending(events, omit, k + 1, j) ==>
               ResultId(events[j]) != ResultId(events[k])
    ensures IsPending(events, omit, k, k) ==>
              Pending(events, omit, k + 1) == Pending(events, omit, k) - {ResultId(events[k])}
    ensures !IsPending(events, omit, k, k) ==> Pending(events, omit, k + 1) == Pending(events, omit, k)
  {
  }

  lemma {:induction false} SameBoundary(events: seq<Event>, k: nat, j: nat)
    requires k < j <= |events| && PrevBoundary(events, j) <= k && !EndsGroup(events[k])
    ensures PrevBoundary(events, j) == PrevBoundary(events, k)
  {
    if k + 1 < j {
      SameBoundary(events, k, j - 1);
    }
  }

  lemma {:induction false} PendingAtBoundary(events: seq<Event>, omit: set<nat>, k: nat)
    requires k < |events| && KeepsWholeGroups(events, omit) && EndsGroup(events[k])
    ensures Pending(events, omit, k) == {}
    ensures Pending(events, omit, k + 1) == if Opens(events, k) && k !in omit then CallIds(events[k]) else {}
  {
    forall j: nat | k < j < |events| ensures PrevBoundary(events, j) >= k {
      PrevBoundaryPast(events, k, j);
    }
    forall j: nat | j < |events|
      ensures !IsPending(events, omit, k, j)
      ensures IsPending(events, omit, k + 1, j) <==>
                k < j && IsToolResult(events[j]) && PrevBoundary(events, j) == k && k !in omit && Opens(events, k)
    {
    }
    if Opens(events, k) && k !in omit {
      assert Pending(events, omit, k + 1) == AnsweredIn(events, k);
    }
  }

  // In a projected conversation every tool message answers exactly one call of
  // the assistant message that opens its group, and every call is answered once.
  lemma {:induction false} EveryCallAnsweredOnce(events: seq<Event>)
    requires Projects(events) && ViewsOutsideGroups(events)
    ensures AnswersExactly(Messages(events), {})
  {
    var omit := Omissions(events);
    OmissionsKeepWholeGroups(events);
    var open := seq(|events| + 1, i requires 0 <= i <= |events| => Pending(events, omit, i));
    forall i | 0 <= i < |events| ensures OpenedAll(Parts(events, omit)[i], open[i], open[i + 1]) {
      PendingStep(events, omit, i);
    }
    AnsweredInSteps(Parts(events, omit), open);
    assert Pending(events, omit, 0) == {};
  }
}
