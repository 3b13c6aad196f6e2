/**
 * In-turn compaction: the tool groups of a root turn and the validator that
 * re-derives a turn's accepted compactions (internal/agent/turn_compaction.go).
 */
module TurnCompaction {
  import opened Wrappers
  import opened Events
  import opened History

  datatype CompactionError =
    | InvalidHistory
    | InvalidPayload
    | ForeignTurn
    | NotAfterTrigger
    | BadFrontier
    | NotNextGeneration
    | CoversTrigger
    | IncompleteGroup
    | MissingFrontier

  // One assistant tool-call event of a turn through its final result, by index.
  datatype Group = Group(first: nat, last: nat, complete: bool)

  // The last result before n of the group that event i opens, or i.
  function LastResult(turn: seq<Event>, i: nat, n: nat): (j: nat)
    requires i < |turn| && n <= |turn|
    ensures i <= j < |turn|
    ensures j == i || (i < j < n && InGroup(turn, i, j))
    decreases n
  {
    if n <= i + 1 then i
    else if InGroup(turn, i, n - 1) then n - 1
    else LastResult(turn, i, n - 1)
  }

  ghost function GroupAt(turn: seq<Event>, i: nat): Group
    requires i < |turn|
  {
    Group(i, LastResult(turn, i, |turn|), Complete(turn, i))
  }

  ghost function GroupsBefore(turn: seq<Event>, n: nat): seq<Group>
    requires n <= |turn|
  {
    if n == 0 then []
    else GroupsBefore(turn, n - 1) + (if Opens(turn, n - 1) then [GroupAt(turn, n - 1)] else [])
  }

  ghost function Groups(turn: seq<Event>): seq<Group> {
    GroupsBefore(turn, |turn|)
  }

  method TurnToolGroups(turn: seq<Event>) returns (r: Result<seq<Group>, HistoryError>)
    ensures r.Ok? <==> ValidHistory(turn)
    ensures r.Ok? ==> r.value == Groups(turn)
  {
    var omit := IncompleteToolGroupEvents(turn);
    if omit.Err? {
      return Err(omit.error);
    }
    var groups: seq<Group> := [];
    for i := 0 to |turn|
      invariant groups == GroupsBefore(turn, i)
    {
      assert ValidAt(turn, i);
      if turn[i].etype.AssistantMessage? && Calls(turn[i]) != [] {
        var last := i;
        var j := i + 1;
        while j < |turn| && !EndsGroup(turn[j])
          invariant i < j <= |turn| && last == LastResult(turn, i, j) && PrevBoundary(turn, j) == i
        {
          if IsToolResult(turn[j]) {
            last := j;
          }
          j := j + 1;
        }
        LastResultBy(turn, i, j);
        groups := groups + [Group(i, last, i !in omit.value)];
      }
    }
    return Ok(groups);
  }

  // A group has no results from its next boundary on.
  lemma {:induction false} LastResultBy(turn: seq<Event>, i: nat, j: nat)
    requires i < j <= |turn| && (j < |turn| ==> EndsGroup(turn[j]))
    ensures LastResult(turn, i, |turn|) == LastResult(turn, i, j)
  {
    GroupEndsBy(turn, i, j);
    LastResultStays(turn, i, j, |turn|);
  }

  lemma {:induction false} LastResultStays(turn: seq<Event>, i: nat, j: nat, n: nat)
    requires i < j <= n <= |turn|
    requires forall k: nat :: j <= k < n ==> !InGroup(turn, i, k)
    ensures LastResult(turn, i, n) == LastResult(turn, i, j)
  {
    if j < n {
      LastResultStays(turn, i, j, n - 1);
    }
  }

  // ---- latestTurnCompaction ----

  datatype Accepted = Accepted(event: Event, payload: TurnCompactedPayload, retainedGroup: nat)

  // decodeContextTurnCompactionEvent
  predicate Decodes(e: Event) {
    e.parentId != "" && e.role.NoRole? && e.payload.TurnCompacted? && e.payload.turnCompacted.Valid()
  }

  // The provider trigger a compaction follows: its parent, directly or before
  // the trigger's rejected snapshot.
  function Trigger(turn: seq<Event>, k: nat): (parent: Option<nat>)
    requires 0 < k < |turn|
    ensures parent.Some? ==> parent.value < k
  {
    if turn[k - 1].id == turn[k].parentId then Some(k - 1)
    else if k >= 3 && turn[k - 2].id == turn[k].parentId && turn[k - 1].etype.ContextSnapshot?
            && turn[k - 1].parentId == turn[k].parentId
    then Some(k - 2)
    else None
  }

  predicate InTurn(turn: seq<Event>, groups: seq<Group>) {
    forall i :: 0 <= i < |groups| ==> groups[i].first < |turn| && groups[i].last < |turn|
  }

  // The last of the groups that starts at the event, or -1.
  function StartingAt(turn: seq<Event>, groups: seq<Group>, id: EventId): (i: int)
    requires InTurn(turn, groups)
    ensures -1 <= i < |groups|
  {
    if groups == [] then -1
    else
      var n := |groups| - 1;
      if turn[groups[n].first].id == id then n else StartingAt(turn, groups[..n], id)
  }

  // The last of the groups whose final result is the event, or -1.
  function EndingAt(turn: seq<Event>, groups: seq<Group>, id: EventId): (i: int)
    requires InTurn(turn, groups)
    ensures -1 <= i < |groups|
  {
    if groups == [] then -1
    else
      var n := |groups| - 1;
      if IsToolResult(turn[groups[n].last]) && turn[groups[n].last].id == id then n
      else EndingAt(turn, groups[..n], id)
  }

  function TriggeredBy(groups: seq<Group>, parent: nat): (i: int)
    ensures -1 <= i < |groups|
  {
    if groups == [] then -1
    else if groups[|groups| - 1].last == parent then |groups| - 1
    else TriggeredBy(groups[..|groups| - 1], parent)
  }

  predicate CutsBetween(turn: seq<Event>, groups: seq<Group>, p: TurnCompactedPayload, start: int, end: int, retained: int)
    requires InTurn(turn, groups) && -1 <= start < |groups| && -1 <= end < |groups| && -1 <= retained < |groups|
  {
    && 0 <= start <= end && retained == end + 1
    && turn[groups[start].first].sequence == p.coveredFirstSequence
    && turn[groups[end].last].sequence == p.coveredLastSequence
    && turn[groups[retained].first].sequence == p.firstRetainedSequence
  }

  predicate Advances(p: TurnCompactedPayload, latest: Option<Accepted>, start: int) {
    match latest
    case None => p.generation == 1 && start == 0
    case Some(prior) => p.ValidateAdvance(prior.event.id, prior.payload) && start == prior.retainedGroup
  }

  // Event k, an in-turn compaction, on top of the generation accepted before it.
  function Check(turn: seq<Event>, groups: seq<Group>, k: nat, latest: Option<Accepted>): Result<Accepted, CompactionError>
    requires k < |turn| && InTurn(turn, groups)
  {
    var e := turn[k];
    if !Decodes(e) then Err(InvalidPayload)
    else
      var p := e.payload.turnCompacted;
      if k == 0 || !turn[0].etype.UserMessage? || p.turnId != turn[0].id then Err(ForeignTurn)
      else
        var parent := Trigger(turn, k);
        if parent.None? || !IsToolResult(turn[parent.value]) then Err(NotAfterTrigger)
        else
          var start := StartingAt(turn, groups, p.coveredFirstId);
          var end := EndingAt(turn, groups, p.coveredLastId);
          var retained := StartingAt(turn, groups, p.firstRetainedId);
          if !CutsBetween(turn, groups, p, start, end, retained) then Err(BadFrontier)
          else if !Advances(p, latest, start) then Err(NotNextGeneration)
          else
            var trigger := TriggeredBy(groups, parent.value);
            if trigger < retained then Err(CoversTrigger)
            else if exists i :: start <= i <= trigger && !groups[i].complete then Err(IncompleteGroup)
            else Ok(Accepted(e, p, retained))
  }

  // Groups open at different events and end at different ones.
  ghost predicate Apart(groups: seq<Group>) {
    forall i, j :: 0 <= i < j < |groups| ==> groups[i].first != groups[j].first && groups[i].last != groups[j].last
  }

  // The compaction, recorded after the trigger q or its rejected snapshot,
  // covers groups start until retained, which the trigger's group follows or
  // is, and goes on where the generation before it ends.
  ghost predicate Covers(turn: seq<Event>, groups: seq<Group>, k: nat, latest: Option<Accepted>, q: nat, start: nat, retained: nat,
                         trigger: nat)
    requires k < |turn| && InTurn(turn, groups)
  {
    var e := turn[k];
    && e.parentId != "" && e.role.NoRole? && e.payload.TurnCompacted? && e.payload.turnCompacted.Valid()
    && var p := e.payload.turnCompacted;
    && turn[0].etype.UserMessage? && p.turnId == turn[0].id
    && q < k && turn[q].id == e.parentId && IsToolResult(turn[q])
    && (q + 1 == k || (0 < q && q + 2 == k && turn[q + 1].etype.ContextSnapshot? && turn[q + 1].parentId == e.parentId))
    && start < retained <= trigger < |groups| && groups[trigger].last == q
    && turn[groups[start].first].id == p.coveredFirstId && turn[groups[start].first].sequence == p.coveredFirstSequence
    && turn[groups[retained - 1].last].id == p.coveredLastId && turn[groups[retained - 1].last].sequence == p.coveredLastSequence
    && IsToolResult(turn[groups[retained - 1].last])
    && turn[groups[retained].first].id == p.firstRetainedId && turn[groups[retained].first].sequence == p.firstRetainedSequence
    && (forall i :: start <= i <= trigger ==> groups[i].complete)
    && (if latest.None? then p.generation == 1 && start == 0
        else
          && p.generation == latest.value.payload.generation + 1 && p.priorId == latest.value.event.id != ""
          && start == latest.value.retainedGroup && p.coveredFirstId == latest.value.payload.firstRetainedId
          && p.coveredFirstSequence == latest.value.payload.firstRetainedSequence && p.turnId == latest.value.payload.turnId)
  }

  ghost predicate Accepts(turn: seq<Event>, groups: seq<Group>, k: nat, latest: Option<Accepted>, retained: nat)
    requires k < |turn| && InTurn(turn, groups)
  {
    var r := Check(turn, groups, k, latest);
    r.Ok? && r.value.event == turn[k] && turn[k].payload == TurnCompacted(r.value.payload) && r.value.retainedGroup == retained
  }

  // A compaction is accepted exactly when it covers whole complete groups.
  lemma {:induction false} CheckedExactly(turn: seq<Event>, groups: seq<Group>, k: nat, latest: Option<Accepted>)
    requires k < |turn| && InTurn(turn, groups) && Apart(groups) && DistinctIds(turn)
    ensures Check(turn, groups, k, latest).Ok? <==>
              exists q: nat, start: nat, retained: nat, trigger: nat :: Covers(turn, groups, k, latest, q, start, retained, trigger)
    ensures forall q: nat, start: nat, retained: nat, trigger: nat :: Covers(turn, groups, k, latest, q, start, retained, trigger) ==>
              Accepts(turn, groups, k, latest, retained)
  {
    hide Covers, Check;
    forall q: nat, start: nat, retained: nat, trigger: nat | Covers(turn, groups, k, latest, q, start, retained, trigger)
      ensures Accepts(turn, groups, k, latest, retained)
    {
      CoversChecks(turn, groups, k, latest, q, start, retained, trigger);
    }
    if Check(turn, groups, k, latest).Ok? {
      CheckedCovers(turn, groups, k, latest);
    }
  }

  lemma {:induction false} CheckedCovers(turn: seq<Event>, groups: seq<Group>, k: nat, latest: Option<Accepted>)
    requires k < |turn| && InTurn(turn, groups) && Check(turn, groups, k, latest).Ok?
    ensures exists q: nat, start: nat, retained: nat, trigger: nat :: Covers(turn, groups, k, latest, q, start, retained, trigger)
  {
    var p := turn[k].payload.turnCompacted;
    var q := Trigger(turn, k).value;
    var start, end := StartingAt(turn, groups, p.coveredFirstId), EndingAt(turn, groups, p.coveredLastId);
    var retained, trigger := StartingAt(turn, groups, p.firstRetainedId), TriggeredBy(groups, q);
    StartsThere(turn, groups, p.coveredFirstId);
    StartsThere(turn, groups, p.firstRetainedId);
    EndsThere(turn, groups, p.coveredLastId);
    TriggeredThere(groups, q);
    assert Covers(turn, groups, k, latest, q, start, retained, trigger);
  }

  lemma {:induction false} CoversChecks(turn: seq<Event>, groups: seq<Group>, k: nat, latest: Option<Accepted>, q: nat, start: nat,
                                        retained: nat, trigger: nat)
    requires k < |turn| && InTurn(turn, groups) && Apart(groups) && DistinctIds(turn)
    requires Covers(turn, groups, k, latest, q, start, retained, trigger)
    ensures Accepts(turn, groups, k, latest, retained)
  {
    hide StartingAt, EndingAt, TriggeredBy, Trigger, DistinctIds, Apart, IsToolResult;
    StartingIs(turn, groups, start);
    StartingIs(turn, groups, retained);
    EndingIs(turn, groups, retained - 1);
    TriggeredIs(groups, trigger);
    TriggerIs(turn, k, q);
  }

  lemma {:induction false} TriggerIs(turn: seq<Event>, k: nat, q: nat)
    requires q < k < |turn| && DistinctIds(turn) && turn[q].id == turn[k].parentId
    requires q + 1 == k || (0 < q && q + 2 == k && turn[q + 1].etype.ContextSnapshot? && turn[q + 1].parentId == turn[k].parentId)
    ensures Trigger(turn, k) == Some(q)
  {
    assert q + 2 == k ==> turn[k - 1].id != turn[q].id;
  }

  lemma {:induction false} StartingIs(turn: seq<Event>, groups: seq<Group>, i: nat)
    requires InTurn(turn, groups) && Apart(groups) && DistinctIds(turn) && i < |groups|
    ensures StartingAt(turn, groups, turn[groups[i].first].id) == i
  {
    if i < |groups| - 1 {
      StartingIs(turn, groups[..|groups| - 1], i);
    }
  }

  lemma {:induction false} EndingIs(turn: seq<Event>, groups: seq<Group>, i: nat)
    requires InTurn(turn, groups) && Apart(groups) && DistinctIds(turn) && i < |groups| && IsToolResult(turn[groups[i].last])
    ensures EndingAt(turn, groups, turn[groups[i].last].id) == i
  {
    if i < |groups| - 1 {
      EndingIs(turn, groups[..|groups| - 1], i);
    }
  }

  lemma {:induction false} TriggeredIs(groups: seq<Group>, i: nat)
    requires Apart(groups) && i < |groups|
    ensures TriggeredBy(groups, groups[i].last) == i
  {
    if i < |groups| - 1 {
      TriggeredIs(groups[..|groups| - 1], i);
    }
  }

  lemma {:induction false} TriggeredThere(groups: seq<Group>, parent: nat)
    requires TriggeredBy(groups, parent) >= 0
    ensures groups[TriggeredBy(groups, parent)].last == parent
  {
    if groups[|groups| - 1].last != parent {
      TriggeredThere(groups[..|groups| - 1], parent);
    }
  }

  method CheckCompaction(turn: seq<Event>, groups: seq<Group>, k: nat, latest: Option<Accepted>)
    returns (r: Result<Accepted, CompactionError>)
    requires k < |turn| && InTurn(turn, groups)
    ensures r == Check(turn, groups, k, latest)
  {
    if !Decodes(turn[k]) {
      return Err(InvalidPayload);
    }
    var p := turn[k].payload.turnCompacted;
    if k == 0 || !turn[0].etype.UserMessage? || p.turnId != turn[0].id {
      return Err(ForeignTurn);
    }
    var parent := Trigger(turn, k);
    if parent.None? || !IsToolResult(turn[parent.value]) {
      return Err(NotAfterTrigger);
    }
    var start, end, retained, trigger := -1, -1, -1, -1;
    for i := 0 to |groups|
      invariant start == StartingAt(turn, groups[..i], p.coveredFirstId)
      invariant end == EndingAt(turn, groups[..i], p.coveredLastId)
      invariant retained == StartingAt(turn, groups[..i], p.firstRetainedId)
      invariant trigger == TriggeredBy(groups[..i], parent.value)
    {
      assert groups[..i + 1][..i] == groups[..i];
      if turn[groups[i].first].id == p.coveredFirstId {
        start := i;
      }
      if IsToolResult(turn[groups[i].last]) && turn[groups[i].last].id == p.coveredLastId {
        end := i;
      }
      if turn[groups[i].first].id == p.firstRetainedId {
        retained := i;
      }
      if groups[i].last == parent.value {
        trigger := i;
      }
    }
    assert groups[..|groups|] == groups;
    if !CutsBetween(turn, groups, p, start, end, retained) {
      return Err(BadFrontier);
    }
    if !Advances(p, latest, start) {
      return Err(NotNextGeneration);
    }
    if trigger < retained {
      return Err(CoversTrigger);
    }
    for i := start to trigger + 1
      invariant forall j :: start <= j < i ==> groups[j].complete
    {
      if !groups[i].complete {
        return Err(IncompleteGroup);
      }
    }
    return Ok(Accepted(turn[k], p, retained));
  }

  // The latest compaction accepted among the first n events.
  function AcceptedBefore(turn: seq<Event>, groups: seq<Group>, n: nat): Result<Option<Accepted>, CompactionError>
    requires n <= |turn| && InTurn(turn, groups)
  {
    if n == 0 then Ok(None)
    else
      var before := AcceptedBefore(turn, groups, n - 1);
      if before.Err? || !turn[n - 1].etype.ContextTurnCompacted? then before
      else
        var checked := Check(turn, groups, n - 1, before.value);
        if checked.Err? then Err(checked.error) else Ok(Some(checked.value))
  }

  predicate Compacts(turn: seq<Event>) {
    exists k :: 0 <= k < |turn| && turn[k].etype.ContextTurnCompacted?
  }

  // A turn without compactions is not read any further.
  ghost function Latest(turn: seq<Event>): Result<Option<Accepted>, CompactionError> {
    if !Compacts(turn) then Ok(None)
    else if !ValidHistory(turn) then Err(InvalidHistory)
    else
      GroupsInTurn(turn, |turn|);
      AcceptedBefore(turn, Groups(turn), |turn|)
  }

  lemma {:induction false} GroupsInTurn(turn: seq<Event>, n: nat)
    requires n <= |turn|
    ensures InTurn(turn, GroupsBefore(turn, n))
  {
    if n > 0 {
      GroupsInTurn(turn, n - 1);
    }
  }

  method LatestTurnCompaction(turn: seq<Event>) returns (r: Result<Option<Accepted>, CompactionError>)
    ensures r.Ok? <==> Latest(turn).Ok?
    ensures r.Ok? ==> r == Latest(turn)
  {
    var groups: Option<seq<Group>> := None;
    var latest: Option<Accepted> := None;
    hide Check, ValidHistory, GroupsBefore;
    GroupsInTurn(turn, |turn|);
    for k := 0 to |turn|
      invariant groups.None? ==> latest.None? && forall j :: 0 <= j < k ==> !turn[j].etype.ContextTurnCompacted?
      invariant groups.Some? ==> Compacts(turn) && ValidHistory(turn) && groups.value == Groups(turn)
      invariant AcceptedBefore(turn, Groups(turn), k) == Ok(latest)
    {
      if turn[k].etype.ContextTurnCompacted? {
        if groups.None? {
          var found := TurnToolGroups(turn);
          if found.Err? {
            return Err(InvalidHistory);
          }
          groups := Some(found.value);
        }
        var checked := CheckCompaction(turn, groups.value, k, latest);
        if checked.Err? {
          AcceptedErr(turn, Groups(turn), k + 1, |turn|);
          return Err(checked.error);
        }
        latest := Some(checked.value);
      }
    }
    return Ok(latest);
  }

  lemma {:induction false} AcceptedErr(turn: seq<Event>, groups: seq<Group>, k: nat, n: nat)
    requires k <= n <= |turn| && InTurn(turn, groups) && AcceptedBefore(turn, groups, k).Err?
    ensures AcceptedBefore(turn, groups, n).Err?
  {
    hide Check;
    if k < n {
      AcceptedErr(turn, groups, k, n - 1);
    }
  }

  // ---- appending to a turn ----

  // No later result answers a call of a group that opened before.
  ghost predicate Separate(turn: seq<Event>, more: seq<Event>) {
    forall j: nat :: |turn| <= j < |turn + more| && IsToolResult((turn + more)[j]) ==>
      PrevBoundary(turn + more, j) >= |turn|
  }

  lemma {:induction false} PrevBoundaryPrefix(turn: seq<Event>, more: seq<Event>, j: nat)
    requires j <= |turn|
    ensures PrevBoundary(turn + more, j) == PrevBoundary(turn, j)
  {
    if j > 0 {
      PrevBoundaryPrefix(turn, more, j - 1);
    }
  }

  lemma {:induction false} InGroupPrefix(turn: seq<Event>, more: seq<Event>, i: nat, j: nat)
    requires Separate(turn, more) && i < |turn|
    ensures InGroup(turn + more, i, j) <==> InGroup(turn, i, j)
  {
    if j < |turn| {
      PrevBoundaryPrefix(turn, more, j);
    }
  }

  lemma {:induction false} GroupPrefix(turn: seq<Event>, more: seq<Event>, i: nat)
    requires Separate(turn, more) && i < |turn|
    ensures GroupAt(turn + more, i) == GroupAt(turn, i)
  {
    var events := turn + more;
    forall j: nat
      ensures InGroup(events, i, j) <==> InGroup(turn, i, j)
    {
      InGroupPrefix(turn, more, i, j);
    }
    assert AnsweredBefore(events, i, |events|) == AnsweredBefore(turn, i, |turn|) by {
      forall j: nat | i < j < |turn| && InGroup(turn, i, j) ensures events[j] == turn[j] {}
    }
    if i < |turn| {
      LastResultStays(events, i, if i + 1 < |turn| then |turn| else i + 1, |events|);
      LastResultPrefix(turn, more, i, |turn|);
    }
  }

  lemma {:induction false} LastResultPrefix(turn: seq<Event>, more: seq<Event>, i: nat, n: nat)
    requires i < |turn| && n <= |turn|
    requires forall j: nat :: InGroup(turn + more, i, j) <==> InGroup(turn, i, j)
    ensures LastResult(turn + more, i, n) == LastResult(turn, i, n)
  {
    if n > 0 {
      LastResultPrefix(turn, more, i, n - 1);
    }
  }

  lemma {:induction false} GroupsPrefix(turn: seq<Event>, more: seq<Event>, n: nat)
    requires Separate(turn, more) && n <= |turn|
    ensures GroupsBefore(turn + more, n) == GroupsBefore(turn, n)
  {
    if n > 0 {
      GroupsPrefix(turn, more, n - 1);
      GroupPrefix(turn, more, n - 1);
    }
  }

  // A turn's groups stay as they are, and later ones follow them.
  lemma {:induction false} GroupsExtend(turn: seq<Event>, more: seq<Event>, n: nat)
    requires Separate(turn, more) && |turn| <= n <= |turn + more|
    ensures var groups := GroupsBefore(turn + more, n);
            && Groups(turn) <= groups
            && forall i :: |Groups(turn)| <= i < |groups| ==>
                 |turn| <= groups[i].first <= groups[i].last < |turn + more|
  {
    if n == |turn| {
      GroupsPrefix(turn, more, n);
    } else {
      GroupsExtend(turn, more, n - 1);
    }
  }

  // A frontier found in a turn stays the one found when groups follow.
  lemma {:induction false} StartingAtExtend(turn: seq<Event>, more: seq<Event>, groups: seq<Group>, all: seq<Group>, id: EventId)
    requires InTurn(turn, groups) && InTurn(turn + more, all) && groups <= all && DistinctIds(turn + more)
    requires forall i :: |groups| <= i < |all| ==> |turn| <= all[i].first && |turn| <= all[i].last
    ensures StartingAt(turn, groups, id) >= 0 ==> StartingAt(turn + more, all, id) == StartingAt(turn, groups, id)
    ensures EndingAt(turn, groups, id) >= 0 ==> EndingAt(turn + more, all, id) == EndingAt(turn, groups, id)
  {
    if |all| > |groups| {
      var n := |all| - 1;
      StartingAtExtend(turn, more, groups, all[..n], id);
      if StartingAt(turn, groups, id) >= 0 {
        StartsThere(turn, groups, id);
        var first := groups[StartingAt(turn, groups, id)].first;
        assert (turn + more)[first].id == id && first < all[n].first;
        assert StartingAt(turn + more, all, id) == StartingAt(turn + more, all[..n], id);
      }
      if EndingAt(turn, groups, id) >= 0 {
        EndsThere(turn, groups, id);
        var last := groups[EndingAt(turn, groups, id)].last;
        assert (turn + more)[last].id == id && last < all[n].last;
        assert EndingAt(turn + more, all, id) == EndingAt(turn + more, all[..n], id);
      }
    } else {
      assert all == groups;
      StartingAtSame(turn, more, groups, id);
    }
  }

  lemma {:induction false} StartsThere(turn: seq<Event>, groups: seq<Group>, id: EventId)
    requires InTurn(turn, groups) && StartingAt(turn, groups, id) >= 0
    ensures turn[groups[StartingAt(turn, groups, id)].first].id == id
  {
    if turn[groups[|groups| - 1].first].id != id {
      StartsThere(turn, groups[..|groups| - 1], id);
    }
  }

  lemma {:induction false} EndsThere(turn: seq<Event>, groups: seq<Group>, id: EventId)
    requires InTurn(turn, groups) && EndingAt(turn, groups, id) >= 0
    ensures var last := groups[EndingAt(turn, groups, id)].last;
            turn[last].id == id && IsToolResult(turn[last])
  {
    var n := |groups| - 1;
    if !(IsToolResult(turn[groups[n].last]) && turn[groups[n].last].id == id) {
      EndsThere(turn, groups[..n], id);
    }
  }

  lemma {:induction false} StartingAtSame(turn: seq<Event>, more: seq<Event>, groups: seq<Group>, id: EventId)
    requires InTurn(turn, groups)
    ensures StartingAt(turn + more, groups, id) == StartingAt(turn, groups, id)
    ensures EndingAt(turn + more, groups, id) == EndingAt(turn, groups, id)
  {
    if groups != [] {
      StartingAtSame(turn, more, groups[..|groups| - 1], id);
    }
  }

  lemma {:induction false} TriggeredByExtend(groups: seq<Group>, all: seq<Group>, parent: nat)
    requires groups <= all && forall i :: |groups| <= i < |all| ==> parent < all[i].last
    ensures TriggeredBy(all, parent) == TriggeredBy(groups, parent)
  {
    if |all| > |groups| {
      TriggeredByExtend(groups, all[..|all| - 1], parent);
    } else {
      assert all == groups;
    }
  }

  lemma {:induction false} CheckExtend(turn: seq<Event>, more: seq<Event>, groups: seq<Group>, all: seq<Group>, k: nat, latest: Option<Accepted>)
    requires InTurn(turn, groups) && InTurn(turn + more, all) && groups <= all && DistinctIds(turn + more)
    requires forall i :: |groups| <= i < |all| ==> |turn| <= all[i].first && |turn| <= all[i].last
    requires k < |turn| && Check(turn, groups, k, latest).Ok?
    ensures Check(turn + more, all, k, latest) == Check(turn, groups, k, latest)
  {
    var p := turn[k].payload.turnCompacted;
    StartingAtExtend(turn, more, groups, all, p.coveredFirstId);
    StartingAtExtend(turn, more, groups, all, p.coveredLastId);
    StartingAtExtend(turn, more, groups, all, p.firstRetainedId);
    TriggeredByExtend(groups, all, Trigger(turn, k).value);
  }

  lemma {:induction false} AcceptedExtend(turn: seq<Event>, more: seq<Event>, groups: seq<Group>, all: seq<Group>, n: nat)
    requires InTurn(turn, groups) && InTurn(turn + more, all) && groups <= all && DistinctIds(turn + more)
    requires forall i :: |groups| <= i < |all| ==> |turn| <= all[i].first && |turn| <= all[i].last
    requires n <= |turn| && AcceptedBefore(turn, groups, n).Ok?
    ensures AcceptedBefore(turn + more, all, n) == AcceptedBefore(turn, groups, n)
  {
    hide Check, DistinctIds;
    if n > 0 {
      AcceptedExtend(turn, more, groups, all, n - 1);
      if turn[n - 1].etype.ContextTurnCompacted? {
        CheckExtend(turn, more, groups, all, n - 1, AcceptedBefore(turn, groups, n - 1).value);
      }
    }
  }

  lemma {:induction false} AcceptedWithout(turn: seq<Event>, groups: seq<Group>, k: nat, n: nat)
    requires k <= n <= |turn| && InTurn(turn, groups)
    requires forall j :: k <= j < n ==> !turn[j].etype.ContextTurnCompacted?
    ensures AcceptedBefore(turn, groups, n) == AcceptedBefore(turn, groups, k)
  {
    hide Check;
    if k < n {
      AcceptedWithout(turn, groups, k, n - 1);
    }
  }

  // What a turn has accepted stays accepted as events follow.
  lemma {:induction false} AcceptedPrefix(turn: seq<Event>, more: seq<Event>)
    requires Latest(turn).Ok? && Separate(turn, more) && DistinctIds(turn + more)
    ensures InTurn(turn + more, Groups(turn + more))
    ensures AcceptedBefore(turn + more, Groups(turn + more), |turn|) == Latest(turn)
  {
    GroupsInTurn(turn, |turn|);
    GroupsInTurn(turn + more, |turn + more|);
    GroupsExtend(turn, more, |turn + more|);
    if !Compacts(turn) {
      AcceptedWithout(turn, Groups(turn), 0, |turn|);
    }
    AcceptedExtend(turn, more, Groups(turn), Groups(turn + more), |turn|);
  }

  // A turn's accepted compaction stays its latest while whole groups follow.
  lemma {:induction false} LatestStays(turn: seq<Event>, more: seq<Event>)
    requires Latest(turn).Ok? && DistinctIds(turn + more) && ValidHistory(turn + more) && Separate(turn, more)
    requires !Compacts(more)
    ensures Latest(turn + more) == Latest(turn)
  {
    var events := turn + more;
    AcceptedPrefix(turn, more);
    forall j | |turn| <= j < |events|
      ensures !events[j].etype.ContextTurnCompacted?
    {
      assert events[j] == more[j - |turn|];
    }
    AcceptedWithout(events, Groups(events), |turn|, |events|);
    if Compacts(turn) {
      var k :| 0 <= k < |turn| && turn[k].etype.ContextTurnCompacted?;
      assert events[k].etype.ContextTurnCompacted?;
    }
  }

  // An event that neither opens a group nor answers one.
  predicate Inert(e: Event) {
    !e.etype.AssistantMessage? && !IsToolResult(e)
  }

  lemma {:induction false} AppendInert(turn: seq<Event>, e: Event)
    requires ValidHistory(turn) && Inert(e)
    ensures ValidHistory(turn + [e]) && Separate(turn, [e])
  {
    var events := turn + [e];
    assert Separate(turn, [e]);
    forall i: nat | i < |events|
      ensures ValidAt(events, i)
    {
      if i < |turn| {
        assert ValidAt(turn, i);
        forall j: nat
          ensures InGroup(events, i, j) <==> InGroup(turn, i, j)
        {
          InGroupPrefix(turn, [e], i, j);
        }
      }
    }
    forall j: nat | j < |events| && IsToolResult(events[j])
      ensures Claimed(events, j)
    {
      assert Claimed(turn, j);
      PrevBoundaryPrefix(turn, [e], j);
    }
  }
}
