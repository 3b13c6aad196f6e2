/**
 * Runs of the turn loop: every event they append is accepted by the next
 * load, and no run goes on for ever (internal/agent/turn.go:201-469).
 */
module TurnRuns {
  import opened Wrappers
  import opened Events
  import opened History
  import opened ContextLog
  import opened LogAppends
  import opened TurnLoop
  import TC = TurnCompaction
  import TP = TurnCompactionPlans
  import CC = CompactionChain
  import CP = CompactionPlans

  // ---- appending one event ----

  lemma {:induction false} FreshIds(t: Turn, e: Event)
    requires Fresh(t, e)
    ensures Named(t.Log() + [e]) && CP.IsStore(t.Log()) && t.Append(e).Log() == t.Log() + [e]
    ensures DistinctIds(t.events + [e]) && TP.NamedIds(t.events) && Sequenced(t.events)
  {
    CP.StorePrefix(t.Log(), e);
    var log := t.Log() + [e];
    assert t.before + (t.events + [e]) == log;
    assert forall i :: 0 <= i < |t.events| ==> t.Log()[|t.before| + i] == t.events[i];
    assert forall i :: 0 <= i <= |t.events| ==> (t.events + [e])[i] == log[|t.before| + i];
  }

  lemma {:induction false} ActiveNext(events: seq<Event>, e: Event)
    requires IsActive(events) && !e.etype.UserMessage?
    ensures IsActive(events + [e]) && WithoutCompactions(events) != [] && WithoutCompactions(events)[0] == events[0]
    ensures WithoutCompactions(events + [e]) == WithoutCompactions(events) + (if e.etype.ContextCompacted? then [] else [e])
  {
    WithoutSnoc(events, e);
    WithoutFirst(events, |events|);
    assert events[..|events|] == events;
  }

  lemma {:induction false} WithoutFirst(events: seq<Event>, n: nat)
    requires 1 <= n <= |events| && !events[0].etype.ContextCompacted?
    ensures WithoutCompactions(events[..n]) != [] && WithoutCompactions(events[..n])[0] == events[0]
  {
    assert events[..n][..n - 1] == events[..n - 1];
    if n > 1 {
      WithoutFirst(events, n - 1);
    }
  }

  lemma {:induction false} WithoutOpen(events: seq<Event>)
    requires NoTerminal(events)
    ensures NoTerminal(WithoutCompactions(events))
  {
    if events != [] {
      WithoutOpen(events[..|events| - 1]);
    }
  }

  // The turn's compactions stay accepted under one more event.
  lemma {:induction false} LatestNext(t: Turn, e: Event)
    requires TC.Latest(t.events).Ok? && Fresh(t, e) && ValidHistory(t.events + [e]) && !e.etype.ContextTurnCompacted?
    requires !IsToolResult(e)
    ensures TC.Latest(t.events + [e]) == TC.Latest(t.events)
  {
    hide TC.Latest, ValidHistory;
    FreshIds(t, e);
    assert TC.Separate(t.events, [e]);
    TC.LatestStays(t.events, [e]);
  }

  lemma {:induction false} ActiveLatest(t: Turn, config: Config)
    requires Accepted(t, config)
    ensures TC.Latest(t.events).Ok?
  {
    hide TC.Latest, SnapshotOk, ChainValid, CP.IsStore;
    ActiveSlices(t.before, t.events);
    assert Slices(t.Log())[|Slices(t.before)|] == t.events;
  }

  // An appended event that is no whole-turn compaction is accepted when the
  // turn's tool calls stay paired and its own records are accepted.
  lemma {:induction false} AppendAccepted(t: Turn, config: Config, e: Event)
    requires Accepted(t, config) && Fresh(t, e) && !e.etype.UserMessage? && !e.etype.ContextCompacted?
    requires TC.Latest(t.events + [e]).Ok? && CC.ValidTurn(WithoutCompactions(t.events + [e]))
    requires e.etype.ContextSnapshot? ==> SnapshotOk(t.Log() + [e], config.digest, |t.Log()|)
    ensures Accepted(t.Append(e), config)
  {
    hide TC.Latest, CC.ValidTurn, SnapshotOk, ChainValid, LogValid, WithoutCompactions;
    FreshIds(t, e);
    ActiveNext(t.events, e);
    LogAppend(t.before, t.events, e, config.digest);
    ChainAppendEvent(t.before, t.events, e);
  }

  // The same for an event that neither opens nor answers a tool group.
  lemma {:induction false} InertNext(t: Turn, e: Event)
    requires Open(t) && IsActive(t.events) && TC.Inert(e) && !e.etype.UserMessage? && !e.etype.TurnFailed? && !e.etype.TurnInterrupted?
    ensures Open(t.Append(e))
    ensures !e.etype.ContextCompacted? ==> CC.ValidTurn(WithoutCompactions(t.events + [e]))
  {
    hide ValidHistory, CC.ValidTurn;
    ActiveNext(t.events, e);
    TC.AppendInert(t.events, e);
    TC.AppendInert(WithoutCompactions(t.events), e);
    if e.etype.ContextCompacted? {
      assert WithoutCompactions(t.events + [e]) == WithoutCompactions(t.events);
    }
    assert NoTerminal(t.events + [e]);
    WithoutOpen(t.events + [e]);
    OpenIsValid(WithoutCompactions(t.events + [e]));
  }

  // ---- what each step keeps ----

  lemma {:induction false} CompactTurnsKeeps(t: Turn, config: Config, a: Action)
    requires Inv(t, config) && a.CompactTurns? && Enabled(t, config, a)
    ensures Inv(Next(t, a), config)
  {
    hide ValidHistory, TC.Latest, SnapshotOk, CC.AreRootTurns, CC.ChainBefore, LogValid, CP.AllComplete, CP.IsStore, CP.PlanTo,
      WithoutCompactions;
    var e := a.event;
    FreshIds(t, e);
    ActiveLatest(t, config);
    InertNext(t, e);
    LatestNext(t, e);
    ActiveNext(t.events, e);
    LogAppend(t.before, t.events, e, config.digest);
    CP.PlannedIsAccepted(t.Log(), a.turns, a.chain, a.retained, Automatic, e);
    var more := a.chain + [CC.Accepted(e, e.payload.compacted, CP.Start(a.chain), a.retained)];
    assert |t.Log() + [e]| == |t.Log()| + 1;
    assert CC.ChainBefore(t.Log() + [e], a.turns, |t.Log() + [e]|) == Ok(more);
    assert ChainValid(t.Log() + [e]);
    PlannedDecodes(t, a);
  }

  lemma {:induction false} PlannedDecodes(t: Turn, a: Action)
    requires a.CompactTurns? && CC.ChainBefore(t.Log(), a.turns, |t.Log()|) == Ok(a.chain) && Fresh(t, a.event)
    requires CC.AreRootTurns(t.Log(), a.turns) && CP.Nonempty(a.turns) && CP.Start(a.chain) < a.retained < |a.turns|
    requires CP.AllComplete(a.turns, CP.Start(a.chain), a.retained)
    requires var e := a.event;
             e == CP.CompactionEvent(CP.PlanTo(a.turns, a.chain, a.retained), Automatic, e.id, e.sequence, e.content)
    ensures CC.Decodes(a.event) && a.event.payload.compacted.trigger.Automatic?
  {
    hide CP.IsStore, CC.ChainBefore, CC.AreRootTurns, CC.Check;
    CP.PlannedIsAccepted(t.Log(), a.turns, a.chain, a.retained, Automatic, a.event);
    CP.ChainSnocChecks(t.Log(), a.event, a.turns, a.chain);
    CheckDecodes(a.turns, a.event, a.chain);
  }

  lemma {:induction false} CheckDecodes(turns: seq<CC.RootTurn>, e: Event, chain: seq<CC.Accepted>)
    requires CC.Check(turns, e, chain).Ok?
    ensures CC.Decodes(e)
  {
  }

  lemma {:induction false} CompactGroupsKeeps(t: Turn, config: Config, a: Action)
    requires Inv(t, config) && a.CompactGroups? && Enabled(t, config, a)
    ensures Inv(Next(t, a), config)
  {
    hide ValidHistory, TC.Latest, SnapshotOk, LogValid, ChainValid, CP.IsStore, TP.Plans, WithoutCompactions, CC.ValidTurn;
    var e := a.event;
    FreshIds(t, e);
    TP.CompactionIsInert(a.plan, e);
    InertNext(t, e);
    assert TP.EndsWithTrigger(t.events, t.triggerId);
    TP.PlannedIsAccepted(t.events, a.prior, a.plan, a.last, e);
    AppendAccepted(t, config, e);
  }

  lemma {:induction false} SnapshotKeeps(t: Turn, config: Config, a: Action)
    requires Inv(t, config) && a.Snapshot? && Enabled(t, config, a)
    ensures Inv(Next(t, a), config)
  {
    hide ValidHistory, TC.Latest, SnapshotOk, LogValid, ChainValid, CP.IsStore, WithoutCompactions, CC.ValidTurn, Manifests;
    var e := a.event;
    FreshIds(t, e);
    InertNext(t, e);
    LatestNext(t, e);
    ComposedIsAccepted(t, config, a);
    AppendAccepted(t, config, e);
  }

  lemma {:induction false} AnswerKeeps(t: Turn, config: Config, a: Action)
    requires Inv(t, config) && a.Answer? && Enabled(t, config, a)
    ensures Inv(Next(t, a), config)
  {
    AssistantNext(t, config, a.event);
  }

  lemma {:induction false} AssistantNext(t: Turn, config: Config, e: Event)
    requires Accepted(t, config) && Open(t) && Fresh(t, e)
    requires e.etype.AssistantMessage? && DecodeCalls(e).Some? && ValidCalls(Calls(e))
    ensures Accepted(t.Append(e), config) && Open(t.Append(e))
    ensures TC.Latest(t.events).Ok?
  {
    hide ValidHistory, TC.Latest, SnapshotOk, LogValid, ChainValid, CP.IsStore, CC.ValidTurn, ValidCalls;
    ActiveLatest(t, config);
    ActiveNext(t.events, e);
    AppendAssistant(t.events, e);
    AppendAssistant(WithoutCompactions(t.events), e);
    LatestNext(t, e);
    assert NoTerminal(t.events + [e]);
    WithoutOpen(t.events + [e]);
    OpenIsValid(WithoutCompactions(t.events + [e]));
    AppendAccepted(t, config, e);
  }

  lemma {:induction false} CallToolsKeeps(t: Turn, config: Config, a: Action)
    requires Inv(t, config) && a.CallTools? && Enabled(t, config, a)
    ensures Inv(Next(t, a), config)
  {
    hide ValidHistory, TC.Latest, SnapshotOk, LogValid, ChainValid, CP.IsStore, Awaiting, ValidCalls;
    var e, next := a.event, Next(t, a);
    AssistantNext(t, config, e);
    ActiveNext(t.events, e);
    AwaitingOpened(t.events, e);
    AwaitingOpened(WithoutCompactions(t.events), e);
    assert next.events[..|t.events|] == t.events && next.events[|t.events|..] == [e];
  }

  // While a group is executed, the turn splits before it: what its
  // compactions rest on comes before, and no compaction after.
  lemma {:induction false} ExecutingLatest(t: Turn, e: Event, b: nat)
    requires Fresh(t, e) && b < |t.events| && EndsGroup(t.events[b]) && ValidHistory(t.events + [e])
    requires TC.Latest(t.events[..b]).Ok? && !TC.Compacts(t.events[b..]) && !e.etype.ContextTurnCompacted?
    ensures TC.Latest(t.events + [e]) == TC.Latest(t.events[..b]) && !TC.Compacts((t.events + [e])[b..])
    ensures (t.events + [e])[..b] == t.events[..b]
  {
    hide TC.Latest, ValidHistory;
    FreshIds(t, e);
    var head, tail := t.events[..b], (t.events + [e])[b..];
    assert head + tail == t.events + [e];
    assert tail == t.events[b..] + [e];
    forall j: nat | b <= j < |head + tail| && IsToolResult((head + tail)[j])
      ensures PrevBoundary(head + tail, j) >= b
    {
      if j > b {
        PrevBoundaryPast(head + tail, b, j);
      }
    }
    TC.LatestStays(head, tail);
  }

  lemma {:induction false} WorkNext(t: Turn, config: Config, e: Event)
    requires Accepted(t, config) && Open(t) && EndsExecuting(t) && Fresh(t, e)
    requires e.etype.ToolIntent? || e.etype.Approval?
    ensures Accepted(t.Append(e), config) && Open(t.Append(e)) && EndsExecuting(t.Append(e))
  {
    hide ValidHistory, TC.Latest, SnapshotOk, LogValid, ChainValid, CP.IsStore, CC.ValidTurn, ValidCalls;
    var b := PrevBoundary(t.events, |t.events|);
    InertNext(t, e);
    ActiveNext(t.events, e);
    ExecutingLatest(t, e, b);
    AwaitingKept(t.events, e, t.calls, t.phase.next);
    AwaitingKept(WithoutCompactions(t.events), e, t.calls, t.phase.next);
    AppendAccepted(t, config, e);
  }

  lemma {:induction false} WorkKeeps(t: Turn, config: Config, a: Action)
    requires Inv(t, config) && (a.Intend? || a.Approve?) && Enabled(t, config, a)
    ensures Inv(Next(t, a), config)
  {
    hide ValidHistory, TC.Latest, SnapshotOk, LogValid, ChainValid, CP.IsStore, Awaiting, ValidCalls, Accepted, Open;
    WorkNext(t, config, a.event);
    var next := Next(t, a);
    assert next.events == t.Append(a.event).events;
    SameLog(t.Append(a.event), next, config);
  }

  // Being accepted and open are matters of the log alone.
  lemma {:induction false} SameLog(t: Turn, u: Turn, config: Config)
    requires t.before == u.before && t.events == u.events
    ensures Accepted(t, config) <==> Accepted(u, config)
    ensures Open(t) <==> Open(u)
  {
  }

  lemma {:induction false} ResultNext(t: Turn, config: Config, e: Event)
    requires Accepted(t, config) && Open(t) && EndsExecuting(t) && Fresh(t, e)
    requires IsToolResult(e) && DecodeToolCallId(e) == Some(t.calls[t.phase.next].id)
    ensures Accepted(t.Append(e), config) && Open(t.Append(e))
    ensures var events, k := t.events + [e], t.phase.next + 1;
            && Awaiting(events, t.calls, k) && Awaiting(WithoutCompactions(events), t.calls, k)
            && var b := PrevBoundary(events, |events|);
            b >= 0 && TC.Latest(events[..b]).Ok? && !TC.Compacts(events[b..])
  {
    hide ValidHistory, TC.Latest, SnapshotOk, LogValid, ChainValid, CP.IsStore, CC.ValidTurn, ValidCalls;
    var k := t.phase.next;
    var b := PrevBoundary(t.events, |t.events|);
    ActiveNext(t.events, e);
    AppendResult(t.events, e, t.calls, k);
    AppendResult(WithoutCompactions(t.events), e, t.calls, k);
    ExecutingLatest(t, e, b);
    assert NoTerminal(t.events + [e]);
    WithoutOpen(t.events + [e]);
    OpenIsValid(WithoutCompactions(t.events + [e]));
    AppendAccepted(t, config, e);
  }

  lemma {:induction false} ResolveKeeps(t: Turn, config: Config, a: Action)
    requires Inv(t, config) && a.Resolve? && Enabled(t, config, a)
    ensures Inv(Next(t, a), config)
  {
    hide ValidHistory, TC.Latest, SnapshotOk, LogValid, ChainValid, CP.IsStore, Awaiting, ValidCalls, Accepted, Open, TC.Compacts,
      WithoutCompactions;
    var e, next := a.event, Next(t, a);
    ResultNext(t, config, e);
    SameLog(t.Append(e), next, config);
    assert next.events == t.events + [e];
    assert next.events[|next.events| - 1] == e;
  }

  lemma {:induction false} StopKeeps(t: Turn, config: Config, a: Action)
    requires Inv(t, config) && a.Stop? && Enabled(t, config, a)
    ensures Inv(Next(t, a), config)
  {
    if a.terminal.Some? {
      TerminalNext(t, config, a.terminal.value);
    }
  }

  lemma {:induction false} TerminalNext(t: Turn, config: Config, e: Event)
    requires Accepted(t, config) && Open(t) && Fresh(t, e) && (e.etype.TurnFailed? || e.etype.TurnInterrupted?)
    requires e.payload.Terminal? && e.payload.turnId == t.events[0].id
    ensures Accepted(t.Append(e), config)
  {
    hide ValidHistory, TC.Latest, SnapshotOk, LogValid, ChainValid, CP.IsStore, CC.ValidTurn;
    ActiveLatest(t, config);
    ActiveNext(t.events, e);
    TC.AppendInert(t.events, e);
    TC.AppendInert(WithoutCompactions(t.events), e);
    LatestNext(t, e);
    WithoutOpen(t.events);
    TerminalIsValid(WithoutCompactions(t.events), e);
    AppendAccepted(t, config, e);
  }

  lemma {:induction false} RejectKeeps(t: Turn, config: Config, a: Action)
    requires Inv(t, config) && (a.Reject? || a.CompactionFails?) && Enabled(t, config, a)
    ensures Inv(Next(t, a), config)
  {
    hide ValidHistory, TC.Latest, SnapshotOk, LogValid, ChainValid, CP.IsStore;
    SameLog(t, Next(t, a), config);
  }

  lemma {:induction false} StepKeeps(t: Turn, config: Config, a: Action)
    requires Inv(t, config) && Enabled(t, config, a)
    ensures Inv(Next(t, a), config)
  {
    hide Inv, Enabled, Next;
    match a
    case CompactTurns(_, _, _, _) => CompactTurnsKeeps(t, config, a);
    case CompactGroups(_, _, _, _) => CompactGroupsKeeps(t, config, a);
    case CompactionFails => RejectKeeps(t, config, a);
    case Snapshot(_, _, _, _) => SnapshotKeeps(t, config, a);
    case Reject => RejectKeeps(t, config, a);
    case Answer(_) => AnswerKeeps(t, config, a);
    case CallTools(_) => CallToolsKeeps(t, config, a);
    case Intend(_) => WorkKeeps(t, config, a);
    case Approve(_) => WorkKeeps(t, config, a);
    case Resolve(_) => ResolveKeeps(t, config, a);
    case Stop(_) => StopKeeps(t, config, a);
  }

  // ---- whole runs ----

  // A turn about to compose its first request: its events end with the
  // trigger of an accepted history.
  ghost predicate Starts(t: Turn, config: Config) {
    && Accepted(t, config) && Open(t) && t.phase.Composing? && t.iteration == 1 <= config.stepLimit
    && !t.retrying && !t.contextRetryUsed && !t.compactionFailed && t.compacted.None? && t.snapshots == 0
    && var last := t.events[|t.events| - 1]; last.id == t.triggerId && IsTrigger(last)
  }

  ghost predicate Legal(t: Turn, config: Config, actions: seq<Action>)
    decreases |actions|
  {
    actions == [] || (Enabled(t, config, actions[0]) && Legal(Next(t, actions[0]), config, actions[1..]))
  }

  function After(t: Turn, actions: seq<Action>): Turn
    decreases |actions|
  {
    if actions == [] then t else After(Next(t, actions[0]), actions[1..])
  }

  lemma {:induction false} RunKeeps(t: Turn, config: Config, actions: seq<Action>)
    requires Inv(t, config) && Legal(t, config, actions)
    ensures Inv(After(t, actions), config) && t.Log() <= After(t, actions).Log()
    decreases |actions|
  {
    hide Inv, Enabled, Next;
    if actions != [] {
      StepKeeps(t, config, actions[0]);
      StepAppends(t, actions[0]);
      RunKeeps(Next(t, actions[0]), config, actions[1..]);
    }
  }

  lemma {:induction false} StepAppends(t: Turn, a: Action)
    ensures t.Log() <= Next(t, a).Log()
  {
    var next := Next(t, a);
    assert next.before == t.before && t.events <= next.events;
  }

  // From any accepted history, whatever the provider, the tools and the
  // compactor do, every run only appends, and the next load accepts its log
  // and its compaction chain. It records at most one request per permitted
  // step, and one more for the context retry.
  lemma {:induction false} EveryRunIsAccepted(t: Turn, config: Config, actions: seq<Action>)
    requires Starts(t, config) && Legal(t, config, actions)
    ensures var end := After(t, actions);
            && t.Log() <= end.Log() && LogValid(end.Log(), config.digest) && ChainValid(end.Log())
            && end.snapshots <= config.stepLimit + 1
  {
    hide Accepted, Open, Legal, After;
    StartInv(t, config);
    RunKeeps(t, config, actions);
    EndAccepted(After(t, actions), config);
  }

  lemma {:induction false} EndAccepted(t: Turn, config: Config)
    requires Inv(t, config)
    ensures LogValid(t.Log(), config.digest) && ChainValid(t.Log()) && t.snapshots <= config.stepLimit + 1
  {
  }

  lemma {:induction false} StartInv(t: Turn, config: Config)
    requires Starts(t, config)
    ensures Inv(t, config)
  {
    hide LogValid, ChainValid, CP.IsStore, ValidHistory;
  }

  // ---- what the steps of a run may be ----

  lemma {:induction false} LegalRest(t: Turn, config: Config, actions: seq<Action>, i: nat)
    requires Legal(t, config, actions) && i <= |actions|
    ensures Legal(After(t, actions[..i]), config, actions[i..])
    decreases |actions|
  {
    hide Enabled, Next;
    if i > 0 {
      assert actions[..i][1..] == actions[1..][..i - 1] && actions[1..][i - 1..] == actions[i..];
      LegalRest(Next(t, actions[0]), config, actions[1..], i - 1);
    }
  }

  lemma {:induction false} LegalStep(t: Turn, config: Config, actions: seq<Action>, i: nat)
    requires Legal(t, config, actions) && i < |actions|
    ensures Enabled(After(t, actions[..i]), config, actions[i])
    ensures Legal(Next(After(t, actions[..i]), actions[i]), config, actions[i + 1..])
  {
    hide Enabled, Next;
    LegalRest(t, config, actions, i);
    assert actions[i..][0] == actions[i] && actions[i..][1..] == actions[i + 1..];
  }

  predicate IsCompacting(a: Action) {
    a.CompactTurns? || a.CompactGroups?
  }

  // A turn retries a context rejection at most once.
  lemma {:induction false} RejectedOnce(t: Turn, config: Config, actions: seq<Action>, i: nat, j: nat)
    requires Legal(t, config, actions) && i < j < |actions| && actions[i].Reject?
    ensures !actions[j].Reject?
  {
    LegalStep(t, config, actions, i);
    hide Enabled;
    var rest := actions[i + 1..];
    assert actions[j] == rest[j - i - 1];
    RetryUsed(Next(After(t, actions[..i]), actions[i]), config, rest, j - i - 1);
  }

  lemma {:induction false} RetryUsed(t: Turn, config: Config, actions: seq<Action>, j: nat)
    requires Legal(t, config, actions) && t.contextRetryUsed && j < |actions|
    ensures !actions[j].Reject?
    decreases |actions|
  {
    hide Fresh, Composed, TC.Latest, CC.AreRootTurns, CC.ChainBefore, CP.AllComplete;
    if j > 0 {
      RetryUsed(Next(t, actions[0]), config, actions[1..], j - 1);
    }
  }

  // Only a request that followed no compaction is retried, and what follows
  // its rejection is a compaction, or the turn ends.
  lemma {:induction false} RetryCompacts(t: Turn, config: Config, actions: seq<Action>, i: nat)
    requires Legal(t, config, actions) && i < |actions| && actions[i].Reject?
    ensures After(t, actions[..i]).compacted == None
    ensures i + 1 < |actions| ==> IsCompacting(actions[i + 1]) || (actions[i + 1].Stop? && i + 2 == |actions|)
  {
    hide Fresh, Composed, TC.Latest, CC.AreRootTurns, CC.ChainBefore, CP.AllComplete;
    LegalStep(t, config, actions, i);
    var next, rest := Next(After(t, actions[..i]), actions[i]), actions[i + 1..];
    if i + 1 < |actions| {
      assert rest[0] == actions[i + 1] && Enabled(next, config, rest[0]);
      if rest[0].Stop? && |rest| > 1 {
        assert Enabled(Next(next, rest[0]), config, rest[1..][0]);
      }
    }
  }

  // A failed compaction is the turn's last.
  lemma {:induction false} FailureIsRemembered(t: Turn, config: Config, actions: seq<Action>, i: nat, j: nat)
    requires Legal(t, config, actions) && i < j < |actions| && actions[i].CompactionFails?
    ensures !IsCompacting(actions[j])
  {
    LegalStep(t, config, actions, i);
    hide Enabled;
    var rest := actions[i + 1..];
    assert actions[j] == rest[j - i - 1];
    NoneAfterFailure(Next(After(t, actions[..i]), actions[i]), config, rest, j - i - 1);
  }

  lemma {:induction false} NoneAfterFailure(t: Turn, config: Config, actions: seq<Action>, j: nat)
    requires Legal(t, config, actions) && t.compactionFailed && j < |actions|
    ensures !IsCompacting(actions[j])
    decreases |actions|
  {
    hide Fresh, Composed, TC.Latest, CC.AreRootTurns, CC.ChainBefore, CP.AllComplete;
    if j > 0 {
      NoneAfterFailure(Next(t, actions[0]), config, actions[1..], j - 1);
    }
  }

  // Between two compactions of a turn lie a request and its tools' outcomes.
  lemma {:induction false} CompactedOncePerRequest(t: Turn, config: Config, actions: seq<Action>, i: nat, j: nat) returns (k: nat, m: nat)
    requires Legal(t, config, actions) && i < j < |actions| && IsCompacting(actions[i]) && IsCompacting(actions[j])
    ensures i < k < m < j && actions[k].Snapshot? && actions[m].Resolve?
  {
    hide Enabled, Next, After, Legal;
    LegalStep(t, config, actions, i);
    var rest := actions[i + 1..];
    assert actions[j] == rest[j - i - 1];
    CompactingStays(After(t, actions[..i]), config, actions[i]);
    k, m := ComposedBetween(Next(After(t, actions[..i]), actions[i]), config, rest, j - i - 1);
    k, m := k + i + 1, m + i + 1;
    assert actions[k] == rest[k - i - 1] && actions[m] == rest[m - i - 1];
  }

  lemma {:induction false} CompactingStays(t: Turn, config: Config, a: Action)
    requires Enabled(t, config, a) && IsCompacting(a)
    ensures Next(t, a).compacted.Some? && Next(t, a).phase.Composing?
  {
    hide Fresh, Composed, TC.Latest, CC.AreRootTurns, CC.ChainBefore, CP.AllComplete;
  }

  lemma {:induction false} ComposedBetween(t: Turn, config: Config, actions: seq<Action>, j: nat) returns (k: nat, m: nat)
    requires Legal(t, config, actions) && j < |actions| && t.compacted.Some? && t.phase.Composing? && IsCompacting(actions[j])
    ensures k < m < j && actions[k].Snapshot? && actions[m].Resolve?
    decreases |actions|
  {
    hide Fresh, Composed, TC.Latest, CC.AreRootTurns, CC.ChainBefore, CP.AllComplete;
    assert Enabled(t, config, actions[0]);
    if actions[0].Snapshot? {
      k := 0;
      m := ResolvedBefore(Next(t, actions[0]), config, actions[1..], j - 1);
      m := m + 1;
    } else {
      assert actions[0].Stop?;
      EndedRuns(Next(t, actions[0]), config, actions[1..]);
      assert false;
    }
  }

  lemma {:induction false} EndedRuns(t: Turn, config: Config, actions: seq<Action>)
    requires Legal(t, config, actions) && t.phase.Finished?
    ensures actions == []
  {
  }

  lemma {:induction false} ResolvedBefore(t: Turn, config: Config, actions: seq<Action>, j: nat) returns (m: nat)
    requires Legal(t, config, actions) && j < |actions| && t.compacted.Some? && !t.phase.Composing? && IsCompacting(actions[j])
    ensures m < j && actions[m].Resolve?
    decreases |actions|
  {
    hide Fresh, Composed, TC.Latest, CC.AreRootTurns, CC.ChainBefore, CP.AllComplete;
    assert Enabled(t, config, actions[0]);
    if actions[0].Resolve? {
      m := 0;
    } else {
      m := ResolvedBefore(Next(t, actions[0]), config, actions[1..], j - 1);
      m := m + 1;
    }
  }

  // A request is recorded right after its trigger, after its trigger's
  // automatic compaction, or, once, after the rejected request's snapshot and
  // the compaction that shrinks it.
  lemma {:induction false} SnapshotShapes(t: Turn, config: Config, a: Action)
    requires Inv(t, config) && a.Snapshot? && Enabled(t, config, a)
    ensures var n := |t.events|;
            || (n >= 1 && t.events[n - 1].id == t.triggerId && !t.retrying)
            || (n >= 2 && t.events[n - 2].id == t.triggerId && IsCompaction(t, t.events[n - 1]) && !t.retrying)
            || (&& n >= 3 && t.events[n - 3].id == t.triggerId && t.events[n - 2].etype.ContextSnapshot?
                && t.events[n - 2].parentId == t.triggerId && IsCompaction(t, t.events[n - 1])
                && t.retrying && t.contextRetryUsed)
  {
    hide Accepted, Open, LogValid, Composed;
  }

  // ---- every run ends ----

  function PhaseRank(phase: Phase): nat {
    match phase
    case Composing => 3
    case Requested => 2
    case Executing(_, _) => 1
    case Finished => 0
  }

  function RestRank(t: Turn): int {
    match t.phase
    case Composing => (if t.compacted.None? then 1 else 0) + (if t.compactionFailed then 0 else 1)
    case Executing(next, stage) => (|t.calls| - next) * 4 + 3 - stage
    case _ => 0
  }

  // Steps left, then the unused context retry, then the phase, then what is
  // left of it.
  ghost predicate Shrinks(next: Turn, t: Turn, config: Config) {
    var r, r' := RetrySnapshots(t), RetrySnapshots(next);
    var p, p' := PhaseRank(t.phase), PhaseRank(next.phase);
    || next.iteration > t.iteration
    || (next.iteration == t.iteration && r' > r)
    || (next.iteration == t.iteration && r' == r && p' < p)
    || (next.iteration == t.iteration && r' == r && p' == p && 0 <= RestRank(next) < RestRank(t))
  }

  lemma {:induction false} StepShrinks(t: Turn, config: Config, a: Action)
    requires Inv(t, config) && Enabled(t, config, a)
    ensures Shrinks(Next(t, a), t, config)
  {
    hide Accepted, Open, Composed, Fresh, TC.Latest, CC.AreRootTurns, CC.ChainBefore;
  }

  ghost predicate Steps(run: nat -> Turn, actions: nat -> Action, config: Config, k: nat) {
    Enabled(run(k), config, actions(k)) && run(k + 1) == Next(run(k), actions(k))
  }

  // No turn goes on for ever: whatever its outcomes, it comes to a state that
  // takes no further step.
  lemma {:induction false} NoEndlessTurn(run: nat -> Turn, actions: nat -> Action, config: Config, i: nat)
    requires Inv(run(i), config)
    ensures exists k: nat :: i <= k && !Steps(run, actions, config, k)
    decreases config.stepLimit - run(i).iteration, 1 - RetrySnapshots(run(i)), PhaseRank(run(i).phase), RestRank(run(i))
  {
    hide Enabled, Next, Accepted, Open, EndsComposing, EndsRequested, EndsExecuting;
    if Steps(run, actions, config, i) {
      StepKeeps(run(i), config, actions(i));
      StepShrinks(run(i), config, actions(i));
      NoEndlessTurn(run, actions, config, i + 1);
    }
  }

  // ---- the loop's own decisions, in place ----

  class OwnedTurn {
    const config: Config
    var before: seq<Event>
    var events: seq<Event>
    var phase: Phase
    var iteration: nat
    var requestParentId: EventId
    var retrying: bool
    var contextRetryUsed: bool
    var compactionFailed: bool
    var compacted: Option<Event>
    var calls: seq<ToolCall>
    var snapshots: nat

    ghost function State(): Turn
      reads this
    {
      Turn(before, events, phase, iteration, requestParentId, retrying, contextRetryUsed, compactionFailed, compacted, calls,
           snapshots)
    }

    constructor (config: Config, before: seq<Event>, root: Event)
      ensures State() == Turn(before, [root], Composing, 1, root.id, false, false, false, None, [], 0)
      ensures this.config == config
    {
      this.config := config;
      this.before, events, phase, iteration, requestParentId := before, [root], Composing, 1, root.id;
      retrying, contextRetryUsed, compactionFailed, compacted, calls, snapshots := false, false, false, None, [], 0;
    }

    method CommitCompaction(e: Event, ghost a: Action)
      requires (a.CompactTurns? || a.CompactGroups?) && a.event == e && Enabled(State(), config, a)
      modifies `events, `compacted
      ensures State() == Next(old(State()), a)
      ensures events == old(events) + [e] && compacted == Some(e)
    {
      events, compacted := events + [e], Some(e);
    }

    // A failed compaction is remembered, and ends a retry.
    method CompactionFailed() returns (goOn: bool)
      requires MayCompact(State())
      modifies `compactionFailed, `phase
      ensures goOn <==> Enabled(old(State()), config, CompactionFails)
      ensures goOn ==> State() == Next(old(State()), CompactionFails)
      ensures !goOn ==> State() == Next(old(State()), CompactionFails).(phase := Finished)
      ensures goOn == !retrying && compactionFailed && phase == if goOn then old(phase) else Finished
    {
      compactionFailed := true;
      if retrying {
        phase := Finished;
        return false;
      }
      return true;
    }

    method CommitSnapshot(e: Event, ghost a: Action)
      requires a.Snapshot? && a.event == e && Enabled(State(), config, a)
      modifies `events, `phase, `snapshots
      ensures State() == Next(old(State()), a)
      ensures events == old(events) + [e] && phase == Requested && snapshots == old(snapshots) + 1
    {
      events, phase, snapshots := events + [e], Requested, snapshots + 1;
    }

    // One context rejection may be retried, unless its request was compacted.
    method ContextRejected() returns (retry: bool)
      requires phase.Requested?
      modifies `phase, `retrying, `contextRetryUsed
      ensures retry <==> Enabled(old(State()), config, Reject)
      ensures State() == Next(old(State()), if retry then Reject else Stop(None))
      ensures retry == (!old(contextRetryUsed) && compacted == None)
      ensures retry ==> phase == Composing && retrying && contextRetryUsed
      ensures !retry ==> phase == Finished && retrying == old(retrying) && contextRetryUsed == old(contextRetryUsed)
    {
      if contextRetryUsed || compacted.Some? {
        phase := Finished;
        return false;
      }
      phase, retrying, contextRetryUsed := Composing, true, true;
      return true;
    }

    // A response: the final step may not ask for tools.
    method Responded(e: Event) returns (committed: bool)
      requires phase.Requested? && Fresh(State(), e) && e.etype.AssistantMessage? && DecodeCalls(e).Some? && ValidCalls(Calls(e))
      modifies `events, `phase, `calls
      ensures committed <==> Calls(e) == [] || iteration < config.stepLimit
      ensures var a := if Calls(e) == [] then Answer(e) else if committed then CallTools(e) else Stop(None);
              Enabled(old(State()), config, a) && State() == Next(old(State()), a)
      ensures events == old(events) + (if committed then [e] else [])
      ensures if committed && Calls(e) != [] then phase == Executing(0, 0) && calls == Calls(e) else phase == Finished
    {
      if Calls(e) == [] {
        events, phase := events + [e], Finished;
        return true;
      }
      if iteration >= config.stepLimit {
        phase := Finished;
        return false;
      }
      events, phase, calls := events + [e], Executing(0, 0), Calls(e);
      return true;
    }

    // A call's outcome; the last one triggers the next request.
    method CommitOutcome(e: Event)
      requires Enabled(State(), config, Resolve(e))
      modifies `events, `phase, `iteration, `requestParentId, `retrying, `compacted
      ensures State() == Next(old(State()), Resolve(e))
      ensures events == old(events) + [e]
      ensures old(phase).next + 1 < |calls| ==>
                && phase == Executing(old(phase).next + 1, 0) && iteration == old(iteration)
                && requestParentId == old(requestParentId) && retrying == old(retrying) && compacted == old(compacted)
      ensures old(phase).next + 1 >= |calls| ==>
                && phase == Composing && iteration == old(iteration) + 1 && requestParentId == e.id && !retrying && compacted == None
    {
      hide Fresh, IsToolResult, DecodeToolCallId;
      events := events + [e];
      if phase.next + 1 < |calls| {
        phase := Executing(phase.next + 1, 0);
      } else {
        phase, iteration, requestParentId, retrying, compacted := Composing, iteration + 1, e.id, false, None;
      }
    }
  }
}
