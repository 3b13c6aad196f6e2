/**
 * Planning an in-turn compaction, and why the validator accepts what was
 * planned (internal/agent/turn_compaction.go).
 */
module TurnCompactionPlans {
  import opened Wrappers
  import opened Events
  import opened History
  import opened TurnCompaction

  const RETAINED_GROUPS := 2

  datatype Plan = Plan(
    generation: int,
    priorId: EventId,
    coveredFirst: Event,
    coveredLast: Event,
    firstRetained: Event,
    turnId: EventId,
    triggerId: EventId)

  function FirstUncovered(prior: Option<Accepted>): nat {
    if prior.Some? then prior.value.retainedGroup else 0
  }

  // The plan that covers groups through the last.
  function PlanThrough(turn: seq<Event>, groups: seq<Group>, prior: Option<Accepted>, triggerId: EventId, last: nat): Plan
    requires InTurn(turn, groups) && FirstUncovered(prior) <= last && last + 1 < |groups|
  {
    Plan(if prior.Some? then prior.value.payload.generation + 1 else 1,
         if prior.Some? then prior.value.event.id else "",
         turn[groups[FirstUncovered(prior)].first], turn[groups[last].last], turn[groups[last + 1].first],
         turn[0].id, triggerId)
  }

  predicate AllComplete(groups: seq<Group>) {
    forall i :: 0 <= i < |groups| ==> groups[i].complete
  }

  // The turn ends with a complete group whose last result triggers the
  // request, none is in flight, and some group may be covered.
  predicate Plannable(turn: seq<Event>, groups: seq<Group>, prior: Option<Accepted>, triggerId: EventId)
    requires InTurn(turn, groups)
  {
    && groups != [] && turn[groups[|groups| - 1].last].id == triggerId && AllComplete(groups)
    && FirstUncovered(prior) + RETAINED_GROUPS < |groups|
  }

  // The estimators' sizes, by the last group covered, and what they must fit.
  datatype Sizes = Sizes(compactor: nat -> int, planned: nat -> int, compactorUsable: int, target: int, usable: int)

  // Planning considers covering through m when every compactor request up to
  // it fits.
  ghost predicate Considered(groups: seq<Group>, first: nat, sizes: Sizes, m: nat) {
    first <= m && m + RETAINED_GROUPS < |groups| &&
    forall n: nat :: first <= n <= m ==> sizes.compactor(n) <= sizes.compactorUsable
  }

  // The shortest prefix that reaches the target, or else the longest that
  // fits usable input.
  ghost predicate Chosen(groups: seq<Group>, first: nat, sizes: Sizes, last: nat) {
    && Considered(groups, first, sizes, last)
    && (|| (&& sizes.planned(last) <= sizes.target
            && forall m: nat :: first <= m < last ==> sizes.planned(m) > sizes.target)
        || (&& sizes.planned(last) <= sizes.usable
            && (forall m: nat :: Considered(groups, first, sizes, m) ==> sizes.planned(m) > sizes.target)
            && forall m: nat :: m > last && Considered(groups, first, sizes, m) ==> sizes.planned(m) > sizes.usable))
  }

  // The planning loop: through which group to cover, if any.
  method ChooseLast(groups: seq<Group>, first: nat, sizes: Sizes) returns (chosen: Option<nat>)
    requires first + RETAINED_GROUPS < |groups|
    ensures chosen.Some? ==> Chosen(groups, first, sizes, chosen.value)
    ensures chosen.None? ==> forall m: nat :: Considered(groups, first, sizes, m) ==>
              sizes.planned(m) > sizes.target && sizes.planned(m) > sizes.usable
  {
    var fallback: Option<nat> := None;
    var last := first;
    while last <= |groups| - 1 - RETAINED_GROUPS
      invariant first <= last <= |groups| - RETAINED_GROUPS
      invariant forall n: nat :: first <= n < last ==> sizes.compactor(n) <= sizes.compactorUsable
      invariant forall n: nat :: first <= n < last ==> sizes.planned(n) > sizes.target
      invariant fallback.Some? ==> first <= fallback.value < last && sizes.planned(fallback.value) <= sizes.usable
      invariant forall n: nat :: (if fallback.Some? then fallback.value < n else first <= n) && n < last ==>
                  sizes.planned(n) > sizes.usable
    {
      if sizes.compactor(last) > sizes.compactorUsable {
        break;
      }
      var planned := sizes.planned(last);
      if planned <= sizes.target {
        return Some(last);
      }
      if planned <= sizes.usable {
        fallback := Some(last);
      }
      last := last + 1;
    }
    return fallback;
  }

  method PlanTurnCompaction(turn: seq<Event>, prior: Option<Accepted>, triggerId: EventId, sizes: Sizes)
    returns (r: Result<Option<Plan>, HistoryError>, last: nat)
    requires Latest(turn) == Ok(prior)
    ensures r.Ok? <==> ValidHistory(turn)
    ensures r.Ok? ==> InTurn(turn, Groups(turn))
    ensures r.Ok? && r.value.Some? ==>
              && Plannable(turn, Groups(turn), prior, triggerId)
              && Chosen(Groups(turn), FirstUncovered(prior), sizes, last)
              && r.value.value == PlanThrough(turn, Groups(turn), prior, triggerId, last)
    ensures r.Ok? && r.value.Some? ==>
              var groups := Groups(turn);
              && (if prior.Some? then prior.value.retainedGroup else 0) <= last && last + 2 < |groups|
              && turn[groups[|groups| - 1].last].id == triggerId
              && forall i :: 0 <= i < |groups| ==> groups[i].complete
    ensures r.Ok? && r.value.None? && Plannable(turn, Groups(turn), prior, triggerId) ==>
              forall m: nat :: Considered(Groups(turn), FirstUncovered(prior), sizes, m) ==>
                sizes.planned(m) > sizes.target && sizes.planned(m) > sizes.usable
  {
    last := 0;
    var found := TurnToolGroups(turn);
    if found.Err? {
      return Err(found.error), 0;
    }
    var groups := found.value;
    GroupsInTurn(turn, |turn|);
    assert InTurn(turn, groups);
    hide Latest, Groups, ValidHistory, PlanThrough, GroupsBefore;
    if groups == [] || turn[groups[|groups| - 1].last].id != triggerId {
      return Ok(None), 0;
    }
    for i := 0 to |groups|
      invariant forall j :: 0 <= j < i ==> groups[j].complete
    {
      if !groups[i].complete {
        return Ok(None), 0;
      }
    }
    var first := FirstUncovered(prior);
    if |groups| - 1 - RETAINED_GROUPS < first {
      return Ok(None), 0;
    }
    var chosen := ChooseLast(groups, first, sizes);
    if chosen.None? {
      return Ok(None), 0;
    }
    last := chosen.value;
    return Ok(Some(PlanThrough(turn, groups, prior, triggerId, last))), last;
  }

  // turnCompactionEventInput, as the store appends it.
  function CompactionEvent(plan: Plan, id: EventId, sequence: int, summary: string): Event {
    Event(id, plan.triggerId, sequence, ContextTurnCompacted, NoRole, summary,
          TurnCompacted(TurnCompactedPayload(
            plan.turnId, plan.generation, plan.priorId,
            plan.coveredFirst.id, plan.coveredFirst.sequence, plan.coveredLast.id, plan.coveredLast.sequence,
            plan.firstRetained.id, plan.firstRetained.sequence)))
  }

  // The turn ends with its trigger, or with the trigger's rejected snapshot.
  predicate EndsWithTrigger(turn: seq<Event>, triggerId: EventId) {
    var n := |turn|;
    || (n >= 1 && turn[n - 1].id == triggerId)
    || (n >= 2 && turn[n - 2].id == triggerId && turn[n - 1].etype.ContextSnapshot? && turn[n - 1].parentId == triggerId)
  }

  ghost predicate NamedIds(events: seq<Event>) {
    forall i :: 0 <= i < |events| ==> events[i].id != ""
  }

  // ---- facts about groups ----

  ghost predicate InOrder(turn: seq<Event>, groups: seq<Group>) {
    && InTurn(turn, groups)
    && (forall i :: 0 <= i < |groups| ==>
          && groups[i].first <= groups[i].last && Opens(turn, groups[i].first)
          && (groups[i].complete ==> groups[i].first < groups[i].last && IsToolResult(turn[groups[i].last])))
    && forall i, j :: 0 <= i < j < |groups| ==> groups[i].last < groups[j].first
  }

  lemma {:induction false} GroupsInOrder(turn: seq<Event>, n: nat)
    requires n <= |turn|
    ensures InOrder(turn, GroupsBefore(turn, n))
    ensures forall i :: 0 <= i < |GroupsBefore(turn, n)| ==> GroupsBefore(turn, n)[i].first < n
  {
    if n > 0 {
      hide InOrder, Opens, Complete, LastResult;
      GroupsInOrder(turn, n - 1);
      if Opens(turn, n - 1) {
        GroupHasResult(turn, n - 1);
        GroupsEndBefore(turn, n - 1);
        OrderedNext(turn, GroupsBefore(turn, n - 1), GroupAt(turn, n - 1));
      }
    }
  }

  // There is one group for each event that opens one, and it ends with the
  // last of the results that follow before the next user or assistant event.
  lemma {:induction false} GroupsExactly(turn: seq<Event>)
    ensures Apart(Groups(turn))
    ensures forall i: nat :: Opens(turn, i) ==> exists k :: 0 <= k < |Groups(turn)| && Groups(turn)[k].first == i
    ensures forall k :: 0 <= k < |Groups(turn)| ==>
              var g := Groups(turn)[k];
              && Opens(turn, g.first) && (g.complete <==> Complete(turn, g.first))
              && (g.last == g.first || InGroup(turn, g.first, g.last))
              && forall j: nat :: InGroup(turn, g.first, j) ==> j <= g.last
  {
    GroupsInOrder(turn, |turn|);
    GroupsOf(turn, |turn|);
    hide Opens, Complete, InGroup, GroupsBefore;
    forall i: nat | Opens(turn, i)
      ensures exists k :: 0 <= k < |Groups(turn)| && Groups(turn)[k].first == i
    {
      OpensWithin(turn, i);
      assert Groups(turn) == GroupsBefore(turn, |turn|);
      var k :| 0 <= k < |GroupsBefore(turn, |turn|)| && GroupsBefore(turn, |turn|)[k].first == i;
      assert Groups(turn)[k].first == i;
    }
  }

  lemma {:induction false} OpensWithin(turn: seq<Event>, i: nat)
    requires Opens(turn, i)
    ensures i < |turn|
  {
  }

  lemma {:induction false} GroupsOf(turn: seq<Event>, n: nat)
    requires n <= |turn|
    ensures forall i: nat :: i < n && Opens(turn, i) ==> exists k :: 0 <= k < |GroupsBefore(turn, n)| && GroupsBefore(turn, n)[k].first == i
    ensures forall k :: 0 <= k < |GroupsBefore(turn, n)| ==>
              var g := GroupsBefore(turn, n)[k];
              && Opens(turn, g.first) && (g.complete <==> Complete(turn, g.first))
              && (g.last == g.first || InGroup(turn, g.first, g.last))
              && forall j: nat :: InGroup(turn, g.first, j) ==> j <= g.last
  {
    hide Opens, Complete, InGroup;
    if n > 0 {
      GroupsOf(turn, n - 1);
      var before, groups := GroupsBefore(turn, n - 1), GroupsBefore(turn, n);
      if Opens(turn, n - 1) {
        LastOfGroup(turn, n - 1, |turn|);
        assert groups == before + [GroupAt(turn, n - 1)] && groups[|before|].first == n - 1;
      }
      forall i: nat | i < n && Opens(turn, i)
        ensures exists k :: 0 <= k < |groups| && groups[k].first == i
      {
        if i < n - 1 {
          var k :| 0 <= k < |before| && before[k].first == i;
          assert groups[k] == before[k];
        }
      }
    }
  }

  lemma {:induction false} LastOfGroup(turn: seq<Event>, i: nat, n: nat)
    requires i < |turn| && n <= |turn|
    ensures var last := LastResult(turn, i, n);
            && (last == i || InGroup(turn, i, last))
            && forall j: nat :: j < n && InGroup(turn, i, j) ==> j <= last
    ensures n == |turn| ==> forall j: nat :: InGroup(turn, i, j) ==> j <= LastResult(turn, i, n)
  {
    if n > i + 1 && !InGroup(turn, i, n - 1) {
      LastOfGroup(turn, i, n - 1);
    }
  }

  lemma {:induction false} OrderedNext(turn: seq<Event>, groups: seq<Group>, g: Group)
    requires InOrder(turn, groups) && forall i :: 0 <= i < |groups| ==> groups[i].last < g.first
    requires g.first <= g.last < |turn| && Opens(turn, g.first)
    requires g.complete ==> g.first < g.last && IsToolResult(turn[g.last])
    ensures InOrder(turn, groups + [g])
  {
  }

  // Groups that opened before an opening event end before it.
  lemma {:induction false} GroupsEndBefore(turn: seq<Event>, n: nat)
    requires n < |turn| && Opens(turn, n)
    ensures forall i :: 0 <= i < |GroupsBefore(turn, n)| ==> GroupsBefore(turn, n)[i].last < n
  {
    var groups := GroupsBefore(turn, n);
    forall i | 0 <= i < |groups|
      ensures groups[i].last < n
    {
      GroupFrom(turn, n, i);
      LastResultBefore(turn, groups[i].first, n);
    }
  }

  lemma {:induction false} GroupFrom(turn: seq<Event>, n: nat, i: nat)
    requires n <= |turn| && i < |GroupsBefore(turn, n)|
    ensures var g := GroupsBefore(turn, n)[i]; g.first < n && g == GroupAt(turn, g.first)
  {
    if i < |GroupsBefore(turn, n - 1)| {
      GroupFrom(turn, n - 1, i);
    }
  }

  lemma {:induction false} LastResultBefore(turn: seq<Event>, i: nat, b: nat)
    requires i < b < |turn| && EndsGroup(turn[b])
    ensures LastResult(turn, i, |turn|) < b
  {
    var j := LastResult(turn, i, |turn|);
    if j != i {
      assert InGroup(turn, i, j);
      if b < j {
        PrevBoundaryPast(turn, b, j);
      }
    }
  }

  // A complete group has a result.
  lemma {:induction false} GroupHasResult(turn: seq<Event>, i: nat)
    requires Opens(turn, i)
    ensures Complete(turn, i) ==> LastResult(turn, i, |turn|) > i
  {
    if Complete(turn, i) {
      assert Calls(turn[i])[0].id in CallIds(turn[i]);
      var j: nat :| i < j < |turn| && InGroup(turn, i, j) && ResultId(turn[j]) == Calls(turn[i])[0].id;
      LastResultAtLeast(turn, i, j, |turn|);
    }
  }

  lemma {:induction false} LastResultAtLeast(turn: seq<Event>, i: nat, j: nat, n: nat)
    requires i < j < n <= |turn| && InGroup(turn, i, j)
    ensures LastResult(turn, i, n) >= j
  {
    if n > j + 1 {
      LastResultAtLeast(turn, i, j, n - 1);
    }
  }

  lemma {:induction false} StartsAtIndex(turn: seq<Event>, groups: seq<Group>, i: nat)
    requires InOrder(turn, groups) && DistinctIds(turn) && i < |groups|
    ensures StartingAt(turn, groups, turn[groups[i].first].id) == i
    ensures groups[i].complete ==> EndingAt(turn, groups, turn[groups[i].last].id) == i
    ensures TriggeredBy(groups, groups[i].last) == i
  {
    var n := |groups| - 1;
    if i < n {
      StartsAtIndex(turn, groups[..n], i);
    }
  }

  // What an accepted compaction says of its turn.
  ghost predicate Describes(turn: seq<Event>, groups: seq<Group>, a: Accepted) {
    && InTurn(turn, groups) && turn != [] && turn[0].etype.UserMessage?
    && a.event in turn && a.event.etype.ContextTurnCompacted? && a.payload.turnId == turn[0].id && a.payload.generation > 0
    && a.retainedGroup < |groups|
    && turn[groups[a.retainedGroup].first].id == a.payload.firstRetainedId
    && turn[groups[a.retainedGroup].first].sequence == a.payload.firstRetainedSequence
  }

  lemma {:induction false} AcceptedDescribes(turn: seq<Event>, groups: seq<Group>, n: nat)
    requires n <= |turn| && InTurn(turn, groups)
    ensures var r := AcceptedBefore(turn, groups, n);
            r.Ok? && r.value.Some? ==> Describes(turn, groups, r.value.value)
  {
    if n > 0 {
      AcceptedDescribes(turn, groups, n - 1);
      var before := AcceptedBefore(turn, groups, n - 1);
      if before.Ok? && turn[n - 1].etype.ContextTurnCompacted? && Check(turn, groups, n - 1, before.value).Ok? {
        StartsThere(turn, groups, turn[n - 1].payload.turnCompacted.firstRetainedId);
        assert turn[n - 1] in turn;
      }
    }
  }

  // ---- the validator accepts the plan ----

  lemma {:induction false} TriggerFound(turn: seq<Event>, groups: seq<Group>, e: Event, triggerId: EventId)
    requires InOrder(turn, groups) && groups != [] && groups[|groups| - 1].complete
    requires turn[groups[|groups| - 1].last].id == triggerId && EndsWithTrigger(turn, triggerId)
    requires DistinctIds(turn) && e.parentId == triggerId
    ensures Trigger(turn + [e], |turn|) == Some(groups[|groups| - 1].last)
    ensures IsToolResult(turn[groups[|groups| - 1].last])
  {
    var g := groups[|groups| - 1];
    assert g.first < g.last;
    var n := |turn|;
    if turn[n - 1].id == triggerId {
      assert g.last == n - 1;
    } else {
      assert g.last == n - 2;
    }
  }

  ghost predicate Plans(turn: seq<Event>, prior: Option<Accepted>, plan: Plan, last: nat) {
    && InTurn(turn, Groups(turn)) && Plannable(turn, Groups(turn), prior, plan.triggerId)
    && FirstUncovered(prior) <= last && last + RETAINED_GROUPS < |Groups(turn)|
    && plan == PlanThrough(turn, Groups(turn), prior, plan.triggerId, last)
  }

  lemma {:induction false} PlannedPayload(turn: seq<Event>, prior: Option<Accepted>, plan: Plan, last: nat, e: Event)
    requires Plans(turn, prior, plan, last) && InOrder(turn, Groups(turn))
    requires prior.Some? ==> Describes(turn, Groups(turn), prior.value)
    requires NamedIds(turn) && Sequenced(turn)
    requires e == CompactionEvent(plan, e.id, e.sequence, e.content)
    ensures Decodes(e) && Advances(e.payload.turnCompacted, prior, FirstUncovered(prior))
  {
    var groups := Groups(turn);
    var first := FirstUncovered(prior);
    assert groups[first].complete && groups[last].complete;
    assert groups[first].first < groups[last].last < groups[last + 1].first;
  }

  // A compaction planned on a valid turn and appended after its trigger, or
  // after the trigger's rejected snapshot, is accepted as the next generation
  // with exactly the planned frontier.
  lemma {:induction false} PlannedIsAccepted(turn: seq<Event>, prior: Option<Accepted>, plan: Plan, last: nat, e: Event)
    requires Latest(turn) == Ok(prior) && ValidHistory(turn) && turn != [] && turn[0].etype.UserMessage?
    requires Plans(turn, prior, plan, last) && EndsWithTrigger(turn, plan.triggerId)
    requires NamedIds(turn) && DistinctIds(turn + [e]) && Sequenced(turn)
    requires e == CompactionEvent(plan, e.id, e.sequence, e.content)
    ensures Latest(turn + [e]) == Ok(Some(Accepted(e, e.payload.turnCompacted, last + 1)))
  {
    hide Plannable, PlanThrough, CompactionEvent, EndsWithTrigger, Check, ValidHistory, DistinctIds, Sequenced, NamedIds, Plans;
    var events, groups, k := turn + [e], Groups(turn), |turn|;
    CompactionIsInert(plan, e);
    AppendInert(turn, e);
    AcceptedPrefix(turn, [e]);
    GroupsInOrder(turn, |turn|);
    GroupsPrefix(turn, [e], |turn|);
    assert Groups(events) == groups;
    if Compacts(turn) {
      AcceptedDescribes(turn, groups, |turn|);
    }
    PlannedChecks(turn, prior, plan, last, e);
    assert events[k] == e;
    assert Compacts(events);
  }

  lemma {:induction false} CompactionIsInert(plan: Plan, e: Event)
    requires e == CompactionEvent(plan, e.id, e.sequence, e.content)
    ensures Inert(e) && e.etype.ContextTurnCompacted?
  {
  }

  lemma {:induction false} PlannedChecks(turn: seq<Event>, prior: Option<Accepted>, plan: Plan, last: nat, e: Event)
    requires turn != [] && turn[0].etype.UserMessage? && InOrder(turn, Groups(turn))
    requires prior.Some? ==> Describes(turn, Groups(turn), prior.value)
    requires Plans(turn, prior, plan, last) && EndsWithTrigger(turn, plan.triggerId)
    requires NamedIds(turn) && DistinctIds(turn + [e]) && Sequenced(turn)
    requires e == CompactionEvent(plan, e.id, e.sequence, e.content)
    ensures InTurn(turn + [e], Groups(turn))
    ensures Check(turn + [e], Groups(turn), |turn|, prior) == Ok(Accepted(e, e.payload.turnCompacted, last + 1))
  {
    var events, groups, k := turn + [e], Groups(turn), |turn|;
    DistinctPrefix(turn, [e]);
    PlannedPayload(turn, prior, plan, last, e);
    PlannedFrontier(turn, prior, plan, last, e);
    assert AllComplete(groups);
    TriggerFound(turn, groups, e, plan.triggerId);
    assert events[k] == e && events[0] == turn[0];
    assert e.payload.turnCompacted.turnId == turn[0].id;
    var trigger := groups[|groups| - 1].last;
    assert events[trigger] == turn[trigger];
    hide *;
    CheckPasses(events, groups, k, prior, FirstUncovered(prior), last, |groups| - 1);
  }

  lemma {:induction false} CheckPasses(turn: seq<Event>, groups: seq<Group>, k: nat, latest: Option<Accepted>, start: int, end: int, trigger: int)
    requires 0 < k < |turn| && InTurn(turn, groups) && Decodes(turn[k]) && turn[0].etype.UserMessage?
    requires turn[k].payload.turnCompacted.turnId == turn[0].id
    requires Trigger(turn, k).Some? && IsToolResult(turn[Trigger(turn, k).value])
    requires var p := turn[k].payload.turnCompacted;
             && StartingAt(turn, groups, p.coveredFirstId) == start && EndingAt(turn, groups, p.coveredLastId) == end
             && StartingAt(turn, groups, p.firstRetainedId) == end + 1
             && end + 1 < |groups| && CutsBetween(turn, groups, p, start, end, end + 1)
             && Advances(p, latest, start)
    requires TriggeredBy(groups, Trigger(turn, k).value) == trigger && end < trigger && AllComplete(groups)
    ensures Check(turn, groups, k, latest) == Ok(Accepted(turn[k], turn[k].payload.turnCompacted, end + 1))
  {
    var p := turn[k].payload.turnCompacted;
    assert !exists i :: start <= i <= trigger && !groups[i].complete;
    assert p.turnId == turn[0].id;
  }

  lemma {:induction false} DistinctPrefix(turn: seq<Event>, more: seq<Event>)
    requires DistinctIds(turn + more)
    ensures DistinctIds(turn)
  {
    assert forall i :: 0 <= i < |turn| ==> (turn + more)[i] == turn[i];
  }

  lemma {:induction false} PlannedFrontier(turn: seq<Event>, prior: Option<Accepted>, plan: Plan, last: nat, e: Event)
    requires Plans(turn, prior, plan, last) && InOrder(turn, Groups(turn)) && DistinctIds(turn)
    requires e == CompactionEvent(plan, e.id, e.sequence, e.content)
    ensures var events, groups, p := turn + [e], Groups(turn), e.payload.turnCompacted;
            && StartingAt(events, groups, p.coveredFirstId) == FirstUncovered(prior)
            && EndingAt(events, groups, p.coveredLastId) == last
            && StartingAt(events, groups, p.firstRetainedId) == last + 1
            && CutsBetween(events, groups, p, FirstUncovered(prior), last, last + 1)
            && TriggeredBy(groups, groups[|groups| - 1].last) == |groups| - 1
  {
    hide StartingAt, EndingAt, TriggeredBy, Groups, DistinctIds, Latest, ValidHistory;
    var groups, p := Groups(turn), e.payload.turnCompacted;
    StartsAtIndex(turn, groups, FirstUncovered(prior));
    StartsAtIndex(turn, groups, last);
    StartsAtIndex(turn, groups, last + 1);
    StartsAtIndex(turn, groups, |groups| - 1);
    StartingAtSame(turn, [e], groups, p.coveredFirstId);
    StartingAtSame(turn, [e], groups, p.coveredLastId);
    StartingAtSame(turn, [e], groups, p.firstRetainedId);
  }

  function CompactionsIn(turn: seq<Event>, n: nat): nat
    requires n <= |turn|
  {
    if n == 0 then 0 else CompactionsIn(turn, n - 1) + (if turn[n - 1].etype.ContextTurnCompacted? then 1 else 0)
  }

  // Every compaction of an accepted turn is its next generation, and covers
  // at least one group that no earlier one covers.
  lemma {:induction false} GenerationsCount(turn: seq<Event>, groups: seq<Group>, n: nat)
    requires n <= |turn| && InTurn(turn, groups)
    ensures var r := AcceptedBefore(turn, groups, n);
            && (r.Ok? && r.value.None? ==> CompactionsIn(turn, n) == 0)
            && (r.Ok? && r.value.Some? ==>
                  && r.value.value.payload.generation == CompactionsIn(turn, n)
                  && r.value.value.retainedGroup >= CompactionsIn(turn, n) > 0)
  {
    if n > 0 {
      GenerationsCount(turn, groups, n - 1);
    }
  }
}
