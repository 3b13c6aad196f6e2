/**
 * One owned turn as a machine over its durable log
 * (internal/agent/turn.go, internal/agent/wrap_up.go): every run appends only
 * events that the next load accepts, and every run ends.
 *
 * The provider, the tools, the compactor and the estimators are free: an
 * action may carry any outcome of theirs that the loop goes on with.
 */
module TurnLoop {
  import opened Wrappers
  import opened Events
  import opened History
  import opened ContextLog
  import opened LogAppends
  import opened Projections
  import TC = TurnCompaction
  import TP = TurnCompactionPlans
  import CC = CompactionChain
  import CP = CompactionPlans

  // What the turn is doing. Executing runs call `next` of the last assistant
  // message, `stage` events into it: its intent and up to two approvals.
  datatype Phase = Composing | Requested | Executing(next: nat, stage: nat) | Finished

  datatype Turn = Turn(
    before: seq<Event>,         // the history before this root turn
    events: seq<Event>,         // this root turn's events
    phase: Phase,
    iteration: nat,
    triggerId: EventId,         // requestParentID
    retrying: bool,             // composing again after a context rejection
    contextRetryUsed: bool,
    compactionFailed: bool,     // remembered for the rest of the turn
    compacted: Option<Event>,   // the compaction committed in this iteration
    calls: seq<ToolCall>,
    snapshots: nat)             // provider requests recorded
  {
    function Log(): seq<Event> {
      before + events
    }

    function Append(e: Event): Turn {
      this.(events := events + [e])
    }
  }

  datatype Config = Config(stepLimit: nat, digest: string -> string, message: string -> string)

  datatype Action =
    | CompactTurns(turns: seq<CC.RootTurn>, chain: seq<CC.Accepted>, retained: nat, event: Event)
    | CompactGroups(prior: Option<TC.Accepted>, plan: TP.Plan, last: nat, event: Event)
    | CompactionFails
    | Snapshot(event: Event, start: nat, reduced: bool, projected: seq<Event>)
    | Reject
    | Answer(event: Event)
    | CallTools(event: Event)
    | Intend(event: Event)
    | Approve(event: Event)
    | Resolve(event: Event)
    | Stop(terminal: Option<Event>)

  // ---- projectionSnapshot ----

  // toolResultPlaceholderManifests
  function Manifests(original: seq<Event>, projected: seq<Event>, digest: string -> string): seq<Placeholder>
    requires |original| == |projected|
  {
    if original == [] then []
    else
      var n := |original| - 1;
      var e := original[n];
      Manifests(original[..n], projected[..n], digest)
      + (if e.content != projected[n].content && IsToolResult(e)
         then [Placeholder(e.id, |e.content|, digest(e.content))] else [])
  }

  function Describes(e: Event, digest: string -> string): Placeholder {
    Placeholder(e.id, |e.content|, digest(e.content))
  }

  // The manifest names each considered result whose shown content differs
  // from its durable one, in order, with that content's size and digest, and
  // nothing else.
  lemma {:induction false} ManifestsExactly(original: seq<Event>, projected: seq<Event>, digest: string -> string) returns (changed: seq<nat>)
    requires |original| == |projected|
    ensures forall i :: i in changed <==> 0 <= i < |original| && IsToolResult(original[i]) && original[i].content != projected[i].content
    ensures forall a, b :: 0 <= a < b < |changed| ==> changed[a] < changed[b]
    ensures |Manifests(original, projected, digest)| == |changed|
    ensures forall k :: 0 <= k < |changed| ==>
              changed[k] < |original| && Manifests(original, projected, digest)[k] == Describes(original[changed[k]], digest)
  {
    hide IsToolResult;
    changed := [];
    if original != [] {
      var n := |original| - 1;
      var earlier := ManifestsExactly(original[..n], projected[..n], digest);
      EachBelow(earlier, n);
      changed := earlier + if IsToolResult(original[n]) && original[n].content != projected[n].content then [n] else [];
      ManifestsLast(original, projected, digest);
    }
  }

  lemma {:induction false} ManifestsLast(original: seq<Event>, projected: seq<Event>, digest: string -> string)
    requires |original| == |projected| > 0
    ensures var n := |original| - 1;
            Manifests(original, projected, digest)
            == Manifests(original[..n], projected[..n], digest)
               + if IsToolResult(original[n]) && original[n].content != projected[n].content then [Describes(original[n], digest)] else []
  {
  }

  // The results considered are durable results of the retained range, in order.
  ghost predicate Selects(log: seq<Event>, first: nat, original: seq<Event>)
    requires first < |log|
  {
    && (forall i :: 0 <= i < |original| && IsToolResult(original[i]) ==>
          original[i] in log && original[i].sequence >= log[first].sequence)
    && forall i, j :: 0 <= i < j < |original| && IsToolResult(original[i]) && IsToolResult(original[j]) ==>
         original[i].sequence < original[j].sequence
  }

  function LatestId(events: seq<Event>): EventId {
    ActiveBefore(events, |events|)
  }

  // What the snapshot's placeholders are drawn from: the turns the request
  // shows, or what a wrap-up retains.
  ghost function Originals(t: Turn, config: Config, start: nat, reduced: bool): Result<seq<Event>, TC.CompactionError>
    requires start < |Slices(t.Log())| && Slices(t.Log())[start] != []
  {
    Considered(t.Log(), start, config.message, reduced, TriggerSequence(t))
  }

  // The snapshot the composer describes: from a root turn through the
  // trigger, with whatever it projected of the events it selected. After a
  // whole-turn compaction it keeps the planned frontier, or the turn fails
  // instead.
  ghost predicate Composed(t: Turn, config: Config, a: Action)
    requires a.Snapshot?
  {
    var e, turns: seq<seq<Event>> := a.event, Slices(t.Log());
    && e.etype.ContextSnapshot? && SnapshotDecodes(e) && e.parentId == t.triggerId
    && a.start < |turns| && turns[a.start] != []
    && var p, original := e.payload.snapshot, Originals(t, config, a.start, a.reduced);
    && original.Ok? && |a.projected| == |original.value|
    && p.retainedFirstId == turns[a.start][0].id && p.retainedFirstSequence == turns[a.start][0].sequence
    && p.retainedLastId == t.triggerId && p.retainedLastSequence == TriggerSequence(t)
    && p.placeholders == Manifests(original.value, a.projected, config.digest)
    && TC.Latest(t.events).Ok? && p.activeTurnCompactionId == ActiveSummary(t.events)
    && (t.compacted.Some? && t.compacted.value.etype.ContextCompacted? ==>
          && t.compacted.value.payload.Compacted?
          && p.activeCompactionId == t.compacted.value.id
          && p.retainedFirstId == t.compacted.value.payload.compacted.firstRetainedId)
  }

  // The in-turn summary the active turn's projection carries.
  ghost function ActiveSummary(events: seq<Event>): EventId
    requires TC.Latest(events).Ok?
  {
    var latest := TC.Latest(events).value;
    if latest.Some? then latest.value.event.id else ""
  }

  function TriggerSequence(t: Turn): int {
    var i := Find(t.Log(), t.triggerId, |t.Log()|);
    if i.Some? then t.Log()[i.value].sequence else 0
  }

  // ---- the steps of the turn ----

  ghost predicate Fresh(t: Turn, e: Event) {
    CP.IsStore(t.Log() + [e])
  }

  predicate MayCompact(t: Turn) {
    t.phase.Composing? && t.compacted.None? && !t.compactionFailed
  }

  ghost predicate Enabled(t: Turn, config: Config, a: Action) {
    match a
    case CompactTurns(turns, chain, retained, e) =>
      && MayCompact(t) && Fresh(t, e)
      && CC.AreRootTurns(t.Log(), turns) && CC.ChainBefore(t.Log(), turns, |t.Log()|) == Ok(chain)
      && CP.Nonempty(turns) && CP.Start(chain) < retained < |turns| && CP.AllComplete(turns, CP.Start(chain), retained)
      && e == CP.CompactionEvent(CP.PlanTo(turns, chain, retained), Automatic, e.id, e.sequence, e.content)
    case CompactGroups(prior, plan, last, e) =>
      && MayCompact(t) && Fresh(t, e)
      && TC.Latest(t.events) == Ok(prior) && TP.Plans(t.events, prior, plan, last) && plan.triggerId == t.triggerId
      && e == TP.CompactionEvent(plan, e.id, e.sequence, e.content)
    case CompactionFails => MayCompact(t) && !t.retrying
    case Snapshot(e, _, _, _) =>
      t.phase.Composing? && (t.retrying ==> t.compacted.Some?) && Fresh(t, e) && Composed(t, config, a)
    case Reject => t.phase.Requested? && !t.contextRetryUsed && t.compacted.None?
    case Answer(e) =>
      t.phase.Requested? && Fresh(t, e) && e.etype.AssistantMessage? && DecodeCalls(e) == Some([])
    case CallTools(e) =>
      && t.phase.Requested? && t.iteration < config.stepLimit && Fresh(t, e)
      && e.etype.AssistantMessage? && DecodeCalls(e).Some? && Calls(e) != [] && ValidCalls(Calls(e))
    case Intend(e) => t.phase.Executing? && t.phase.stage == 0 && Fresh(t, e) && e.etype.ToolIntent?
    case Approve(e) => t.phase.Executing? && 1 <= t.phase.stage <= 2 && Fresh(t, e) && e.etype.Approval?
    case Resolve(e) =>
      && t.phase.Executing? && t.phase.stage >= 1 && t.phase.next < |t.calls| && Fresh(t, e)
      && IsToolResult(e) && DecodeToolCallId(e) == Some(t.calls[t.phase.next].id)
    case Stop(terminal) =>
      && !t.phase.Finished?
      && (terminal.Some? ==>
            && Fresh(t, terminal.value) && (terminal.value.etype.TurnFailed? || terminal.value.etype.TurnInterrupted?)
            && t.events != [] && terminal.value.payload.Terminal? && terminal.value.payload.turnId == t.events[0].id)
  }

  function Next(t: Turn, a: Action): Turn {
    match a
    case CompactTurns(_, _, _, e) => t.Append(e).(compacted := Some(e))
    case CompactGroups(_, _, _, e) => t.Append(e).(compacted := Some(e))
    case CompactionFails => t.(compactionFailed := true)
    case Snapshot(e, _, _, _) => t.Append(e).(phase := Requested, snapshots := t.snapshots + 1)
    case Reject => t.(phase := Composing, retrying := true, contextRetryUsed := true)
    case Answer(e) => t.Append(e).(phase := Finished)
    case CallTools(e) => t.Append(e).(phase := Executing(0, 0), calls := Calls(e))
    case Intend(e) => t.Append(e).(phase := if t.phase.Executing? then Executing(t.phase.next, 1) else t.phase)
    case Approve(e) =>
      t.Append(e).(phase := if t.phase.Executing? then Executing(t.phase.next, t.phase.stage + 1) else t.phase)
    case Resolve(e) =>
      if t.phase.Executing? && t.phase.next + 1 < |t.calls| then t.Append(e).(phase := Executing(t.phase.next + 1, 0))
      else t.Append(e).(phase := Composing, iteration := t.iteration + 1, triggerId := e.id, retrying := false, compacted := None)
    case Stop(terminal) => (if terminal.Some? then t.Append(terminal.value) else t).(phase := Finished)
  }

  // ---- what every state of a run keeps ----

  // The turn's events end with the trigger, its rejected snapshot when
  // retrying, and this iteration's compaction when there is one.
  ghost predicate EndsComposing(t: Turn) {
    var n := if t.compacted.Some? then |t.events| - 1 else |t.events|;
    && (t.compacted.Some? ==> |t.events| > 1 && t.events[|t.events| - 1] == t.compacted.value && IsCompaction(t, t.compacted.value))
    && (if t.retrying
        then n >= 2 && t.events[n - 1].etype.ContextSnapshot? && t.events[n - 1].parentId == t.triggerId
             && t.events[n - 2].id == t.triggerId && IsTrigger(t.events[n - 2])
        else n >= 1 && t.events[n - 1].id == t.triggerId && IsTrigger(t.events[n - 1]))
  }

  predicate IsCompaction(t: Turn, e: Event) {
    || (e.etype.ContextCompacted? && CC.Decodes(e) && e.payload.compacted.trigger.Automatic?)
    || (e.etype.ContextTurnCompacted? && e.parentId == t.triggerId)
  }

  // The request's trigger, and only context records after it.
  ghost predicate EndsRequested(t: Turn) {
    var n := |t.events|;
    && n >= 2 && t.events[n - 1].etype.ContextSnapshot? && t.events[n - 1].parentId == t.triggerId
    && (t.compacted.None? && !t.retrying ==> t.events[n - 2].id == t.triggerId && IsTrigger(t.events[n - 2]))
  }

  // The group being executed opened after every compaction of the turn.
  ghost predicate EndsExecuting(t: Turn) {
    && t.phase.Executing? && t.phase.next < |t.calls| && t.phase.stage <= 3 && ValidCalls(t.calls)
    && Awaiting(t.events, t.calls, t.phase.next) && Awaiting(WithoutCompactions(t.events), t.calls, t.phase.next)
    && var b := PrevBoundary(t.events, |t.events|);
    b >= 0 && TC.Latest(t.events[..b]).Ok? && !TC.Compacts(t.events[b..])
  }

  ghost predicate Accepted(t: Turn, config: Config) {
    CP.IsStore(t.Log()) && IsActive(t.events) && LogValid(t.Log(), config.digest) && ChainValid(t.Log())
  }

  ghost predicate Open(t: Turn) {
    && ValidHistory(t.events) && ValidHistory(WithoutCompactions(t.events))
    && NoTerminal(t.events)
  }

  function RetrySnapshots(t: Turn): nat {
    if t.contextRetryUsed then 1 else 0
  }

  ghost predicate Counts(t: Turn, config: Config) {
    && 1 <= t.iteration <= config.stepLimit && (t.retrying ==> t.contextRetryUsed)
    && (t.phase.Composing? ==> t.snapshots == t.iteration - 1 + RetrySnapshots(t))
    && (t.phase.Requested? || t.phase.Executing? ==> t.snapshots == t.iteration + RetrySnapshots(t))
    && (t.phase.Executing? ==> t.iteration < config.stepLimit)
    && t.snapshots <= config.stepLimit + 1
  }

  ghost predicate Inv(t: Turn, config: Config) {
    && Accepted(t, config) && Counts(t, config)
    && (!t.phase.Finished? ==> Open(t))
    && (t.phase.Composing? ==> EndsComposing(t))
    && (t.phase.Requested? ==> EndsRequested(t))
    && (t.phase.Executing? ==> EndsExecuting(t))
  }

  // ---- a compaction's summary is the one a snapshot must name ----

  lemma {:induction false} AcceptedIsLast(turn: seq<Event>, groups: seq<TC.Group>, before: seq<Event>, n: nat)
    requires n <= |turn| && TC.InTurn(turn, groups) && IsActive(turn)
    ensures var r := TC.AcceptedBefore(turn, groups, n);
            r.Ok? && n > 0 ==>
              ActiveBefore(before + turn, |before| + n) == if r.value.Some? then r.value.value.event.id else ""
  {
    hide TC.Check;
    if n > 1 {
      AcceptedIsLast(turn, groups, before, n - 1);
      var e := turn[n - 1];
      assert (before + turn)[|before| + n - 1] == e;
      if e.etype.ContextTurnCompacted? && TC.AcceptedBefore(turn, groups, n - 1).Ok? {
        CheckKeepsEvent(turn, groups, n - 1, TC.AcceptedBefore(turn, groups, n - 1));
      }
    } else if n == 1 {
      assert (before + turn)[|before|] == turn[0];
    }
  }

  lemma {:induction false} CheckKeepsEvent(turn: seq<Event>, groups: seq<TC.Group>, k: nat, before: Result<Option<TC.Accepted>, TC.CompactionError>)
    requires k < |turn| && TC.InTurn(turn, groups) && before.Ok?
    ensures var r := TC.Check(turn, groups, k, before.value); r.Ok? ==> r.value.event == turn[k]
  {
  }

  lemma {:induction false} SummaryIsActive(t: Turn)
    requires IsActive(t.events) && TC.Latest(t.events).Ok?
    ensures ActiveBefore(t.Log(), |t.Log()|) == ActiveSummary(t.events)
  {
    var turn := t.events;
    TC.GroupsInTurn(turn, |turn|);
    if TC.Compacts(turn) {
      AcceptedIsLast(turn, TC.Groups(turn), t.before, |turn|);
    } else {
      TC.AcceptedWithout(turn, TC.Groups(turn), 0, |turn|);
      AcceptedIsLast(turn, TC.Groups(turn), t.before, |turn|);
    }
  }

  // ---- a composed snapshot is accepted ----

  lemma {:induction false} FindAt(events: seq<Event>, i: nat, n: nat)
    requires i < n <= |events| && DistinctIds(events)
    ensures Find(events, events[i].id, n) == Some(i)
  {
    if i < n - 1 {
      assert events[i].id != events[n - 1].id;
      FindAt(events, i, n - 1);
    }
  }

  // Where the request's trigger is in the log.
  function TriggerIndex(t: Turn): int {
    |t.Log()| - 1 - (if t.compacted.Some? then 1 else 0) - (if t.retrying then 1 else 0)
  }

  lemma {:induction false} TriggerThere(t: Turn)
    requires EndsComposing(t) && t.events != [] && CP.IsStore(t.Log())
    ensures var q := TriggerIndex(t);
            && |t.before| <= q < |t.Log()| && t.Log()[q].id == t.triggerId && IsTrigger(t.Log()[q])
            && Find(t.Log(), t.triggerId, |t.Log()|) == Some(q)
            && forall k :: q < k < |t.Log()| ==> !IsToolResult(t.Log()[k])
  {
    FindAt(t.Log(), TriggerIndex(t), |t.Log()|);
  }

  lemma {:induction false} InOrder(events: seq<Event>, i: nat, j: nat)
    requires i <= j < |events| && CP.IsStore(events)
    ensures 0 < events[i].sequence <= events[j].sequence
  {
  }

  lemma {:induction false} SnapshotFollows(t: Turn, config: Config, a: Action)
    requires a.Snapshot? && Composed(t, config, a) && EndsComposing(t) && (t.retrying ==> t.compacted.Some?)
    requires t.events != [] && CP.IsStore(t.Log())
    ensures 0 <= TriggerIndex(t) < |t.Log()| && Follows(t.Log() + [a.event], |t.Log()|, TriggerIndex(t))
  {
    hide CP.IsStore, Selects, Manifests, ActiveSummary, TC.Latest, CC.Decodes, Originals, Slices;
    TriggerThere(t);
    var log, events := t.Log(), t.Log() + [a.event];
    var i := |log|;
    assert events[i] == a.event;
    if t.compacted.Some? {
      assert events[i - 1] == t.events[|t.events| - 1] == t.compacted.value;
      assert CompactionBetween(events, i);
      if t.retrying {
        assert events[i - 2] == t.events[|t.events| - 2];
      }
    }
  }

  // Placeholder k describes a result that comes after the one before it.
  lemma {:induction false} ManifestsDescribe(log: seq<Event>, e: Event, first: nat, q: nat, original: seq<Event>, projected: seq<Event>,
                                             digest: string -> string)
    requires CP.IsStore(log) && first <= q < |log| && |original| == |projected| && Selects(log, first, original)
    requires forall k :: q < k < |log| ==> !IsToolResult(log[k])
    ensures var p := Manifests(original, projected, digest);
            && PlaceholdersOk(log + [e], digest, p, |log|, log[first].sequence, log[q].sequence)
            && BeforeRest(log + [e], p, |log|, original)
  {
    hide PlaceholdersOk, BeforeRest, CP.IsStore;
    if original == [] {
      NothingDescribed(log, e, first, q, digest);
    } else {
      var n := |original| - 1;
      var p := Manifests(original[..n], projected[..n], digest);
      ManifestsDescribe(log, e, first, q, original[..n], projected[..n], digest);
      if original[n].content != projected[n].content && IsToolResult(original[n]) {
        DescribeNext(log, e, first, q, original, p, digest);
      } else {
        assert Manifests(original, projected, digest) == p;
        KeepBeforeRest(log, e, original, p);
      }
    }
  }

  lemma {:induction false} NothingDescribed(log: seq<Event>, e: Event, first: nat, q: nat, digest: string -> string)
    requires first <= q < |log|
    ensures PlaceholdersOk(log + [e], digest, [], |log|, log[first].sequence, log[q].sequence)
    ensures BeforeRest(log + [e], [], |log|, [])
  {
  }

  // The last placeholder's event is one of the results considered.
  ghost predicate BeforeRest(events: seq<Event>, p: seq<Placeholder>, n: nat, original: seq<Event>)
    requires n <= |events|
  {
    var previous := PreviousSequence(events, p, n, |p|);
    p == [] || exists m :: 0 <= m < |original| && IsToolResult(original[m]) && original[m].sequence == previous
  }

  lemma {:induction false} KeepBeforeRest(log: seq<Event>, e: Event, original: seq<Event>, p: seq<Placeholder>)
    requires original != [] && BeforeRest(log + [e], p, |log|, original[..|original| - 1])
    ensures BeforeRest(log + [e], p, |log|, original)
  {
    if p != [] {
      var n := |original| - 1;
      var m :| 0 <= m < n && IsToolResult(original[..n][m])
               && original[..n][m].sequence == PreviousSequence(log + [e], p, |log|, |p|);
      assert original[m] == original[..n][m];
    }
  }

  lemma {:induction false} DescribeNext(log: seq<Event>, e: Event, first: nat, q: nat, original: seq<Event>, p: seq<Placeholder>,
                                        digest: string -> string)
    requires CP.IsStore(log) && first <= q < |log| && Selects(log, first, original) && original != []
    requires forall k :: q < k < |log| ==> !IsToolResult(log[k])
    requires IsToolResult(original[|original| - 1])
    requires PlaceholdersOk(log + [e], digest, p, |log|, log[first].sequence, log[q].sequence)
    requires BeforeRest(log + [e], p, |log|, original[..|original| - 1])
    ensures var o := original[|original| - 1];
            var more := p + [Placeholder(o.id, |o.content|, digest(o.content))];
            && PlaceholdersOk(log + [e], digest, more, |log|, log[first].sequence, log[q].sequence)
            && BeforeRest(log + [e], more, |log|, original)
  {
    var events, n := log + [e], |original| - 1;
    var o := original[n];
    var x := Placeholder(o.id, |o.content|, digest(o.content));
    var more := p + [x];
    var i :| 0 <= i < |log| && log[i] == o;
    FindAt(log, i, |log|);
    FindAppend(log, [e], o.id, |log|);
    InOrder(log, i, q);
    assert Find(events, x.eventId, |log|) == Some(i) && events[i] == o;
    assert PreviousSequence(events, more, |log|, |p|) == PreviousSequence(events, p, |log|, |p|);
    if p != [] {
      var m :| 0 <= m < n && IsToolResult(original[..n][m])
               && original[..n][m].sequence == PreviousSequence(events, p, |log|, |p|);
      assert original[m] == original[..n][m];
    }
    forall k: nat | k < |more|
      ensures PlaceholderAt(events, digest, more, |log|, log[first].sequence, log[q].sequence, k)
    {
      if k < |p| {
        assert PlaceholderAt(events, digest, p, |log|, log[first].sequence, log[q].sequence, k);
        assert PreviousSequence(events, more, |log|, k) == PreviousSequence(events, p, |log|, k);
      }
    }
    assert original[n].sequence == PreviousSequence(events, more, |log|, |more|);
  }

  lemma {:induction false} ResultsAreSelected(log: seq<Event>, first: nat, original: seq<Event>)
    requires Sequenced(log) && first < |log| && ResultsOf(original, log[first..])
    ensures Selects(log, first, original)
  {
    forall i | 0 <= i < |original| && IsToolResult(original[i])
      ensures original[i] in log && original[i].sequence >= log[first].sequence
    {
      var k :| 0 <= k < |log[first..]| && log[first..][k] == original[i];
      assert log[first + k] == original[i];
    }
  }

  // The placeholders of a request from any turn on, whatever it projected,
  // describe durable results of its range in the order the validator wants.
  lemma {:induction false} SelectedAreDescribed(log: seq<Event>, e: Event, start: nat, q: nat, message: string -> string, reduced: bool,
                                                last: int, projected: seq<Event>, digest: string -> string)
    returns (first: nat)
    requires CP.IsStore(log) && start < |Slices(log)| && q < |log|
    requires forall k :: q < k < |log| ==> !IsToolResult(log[k])
    requires forall k :: q < k < |log| ==> !IsRootUser(log[k])
    requires Slices(log)[start] != [] && Considered(log, start, message, reduced, last).Ok?
    requires |projected| == |Considered(log, start, message, reduced, last).value|
    ensures first <= q && Slices(log)[start][0] == log[first] && IsRootUser(log[first])
    ensures PlaceholdersOk(log + [e], digest, Manifests(Considered(log, start, message, reduced, last).value, projected, digest),
                           |log|, log[first].sequence, log[q].sequence)
  {
    StoreIds(log);
    hide Considered, ResultsOf, Selects, Manifests, PlaceholdersOk, BeforeRest, CP.IsStore, Slices;
    first := ConsideredResults(log, start, message, reduced, last);
    var original := Considered(log, start, message, reduced, last).value;
    ResultsAreSelected(log, first, original);
    ManifestsDescribe(log, e, first, q, original, projected, digest);
  }

  lemma {:induction false} NoRootAfter(t: Turn, q: nat)
    requires IsActive(t.events) && |t.before| <= q
    ensures forall k :: q < k < |t.Log()| ==> !IsRootUser(t.Log()[k])
  {
    forall k | q < k < |t.Log()|
      ensures !IsRootUser(t.Log()[k])
    {
      assert t.Log()[k] == t.events[k - |t.before|];
    }
  }

  // The snapshot the composer describes is accepted where it is appended.
  lemma {:induction false} ComposedIsAccepted(t: Turn, config: Config, a: Action)
    requires a.Snapshot? && Composed(t, config, a) && EndsComposing(t) && (t.retrying ==> t.compacted.Some?)
    requires IsActive(t.events) && CP.IsStore(t.Log())
    ensures SnapshotOk(t.Log() + [a.event], config.digest, |t.Log()|)
  {
    hide Follows, EndsComposing, Selects, Manifests, ActiveSummary, TC.Latest, CP.IsStore, PlaceholdersOk, BeforeRest, ActiveBefore,
      Considered, Slices;
    var log, e := t.Log(), a.event;
    var events, i, q := log + [e], |log|, TriggerIndex(t);
    TriggerThere(t);
    NoRootAfter(t, q);
    SnapshotFollows(t, config, a);
    StoreIds(log);
    var first := SelectedAreDescribed(log, e, a.start, q, config.message, a.reduced, TriggerSequence(t), a.projected, config.digest);
    FindAppend(log, [e], t.triggerId, i);
    FindAppend(log, [e], log[first].id, i);
    FindAt(log, first, i);
    InOrder(log, first, q);
    SummaryIsActive(t);
    ActiveAppend(log, [e], i);
    assert events[i] == e && events[q] == log[q] && events[first] == log[first];
  }

  lemma {:induction false} StoreIds(events: seq<Event>)
    requires CP.IsStore(events)
    ensures Named(events) && DistinctIds(events) && Sequenced(events) && TP.NamedIds(events)
  {
  }
}
