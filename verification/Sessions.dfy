/**
 * A session: turns one after another, and whole-turn compactions by hand
 * between them, over one durable log (internal/agent/turn.go,
 * internal/agent/compaction.go).
 */
module Sessions {
  import opened Wrappers
  import opened Events
  import opened History
  import opened ContextLog
  import opened LogAppends
  import opened TurnLoop
  import opened TurnRuns
  import TC = TurnCompaction
  import CC = CompactionChain
  import CP = CompactionPlans

  // A stored history that the next load accepts, compactions included.
  ghost predicate Loads(log: seq<Event>, config: Config) {
    CP.IsStore(log) && LogValid(log, config.digest) && ChainValid(log)
  }

  // ---- the next turn ----

  // The turn loop's state once its root user event is appended.
  function NewTurn(log: seq<Event>, root: Event): Turn {
    Turn(log, [root], Composing, 1, root.id, false, false, false, None, [], 0)
  }

  lemma {:induction false} RootAlone(root: Event)
    requires IsRootUser(root)
    ensures IsActive([root]) && WithoutCompactions([root]) == [root] && NoTerminal([root])
    ensures ValidHistory([root]) && CC.ValidTurn([root]) && TC.Latest([root]) == Ok(None)
  {
    WithoutSnoc([], root);
    assert [] + [root] == [root];
    assert PrevBoundary([root], 1) == 0;
    OpenIsValid([root]);
  }

  // The history with a new root loads, whatever the last turn left undone.
  lemma {:induction false} RootKeepsLog(log: seq<Event>, root: Event, digest: string -> string)
    requires LogValid(log, digest) && IsRootUser(root) && Named(log + [root])
    ensures LogValid(log + [root], digest)
  {
    hide SnapshotOk, TC.Latest;
    var next := log + [root];
    RootAlone(root);
    ActiveSlices(log, [root]);
    forall i: nat | i < |next|
      ensures Rooted(next, i)
      ensures next[i].etype.ContextSnapshot? ==> SnapshotOk(next, digest, i)
    {
      if i < |log| {
        assert Rooted(log, i) && next[i] == log[i];
        if next[i].etype.ContextSnapshot? {
          SnapshotAppend(log, [root], digest, i);
        }
        if log[i].etype.ContextTurnCompacted? {
          var r :| 0 <= r < i && IsRootUser(log[r]);
          assert next[r] == log[r];
        }
      }
    }
  }

  // A later root turn completes the turn before it and keeps the chain.
  lemma {:induction false} RootKeepsChain(log: seq<Event>, root: Event)
    requires ChainValid(log) && IsRootUser(root) && CP.IsStore(log + [root])
    ensures ChainValid(log + [root])
  {
    hide CC.ValidTurn, CC.TurnEnded, CP.IsStore, CC.ChainBefore, CC.SplitBefore;
    var turns: seq<CC.RootTurn>, chain: seq<CC.Accepted> :| CC.AreRootTurns(log, turns) && CC.ChainBefore(log, turns, |log|) == Ok(chain);
    RootAlone(root);
    SplitOfRoot(log, root);
    var done := seq(|turns|, i requires 0 <= i < |turns| => CC.RootTurn(turns[i].events, true));
    var after := done + [CC.RootTurn([root], CC.TurnEnded([root]))];
    assert CC.AreRootTurns(log + [root], after);
    CP.ChainStays(log, [root], turns, after, chain);
  }

  lemma {:induction false} SplitOfRoot(log: seq<Event>, root: Event)
    requires CC.Split(log).Ok? && IsRootUser(root)
    ensures CC.Split(log + [root]) == Ok(CC.Split(log).value + [[root]])
  {
    RootAlone(root);
    SplitActive(log, [root], 1);
    assert [root][..1] == [root];
  }

  // A fresh root user event on any accepted history starts a turn.
  lemma {:induction false} NextTurnStarts(log: seq<Event>, root: Event, config: Config)
    requires Loads(log, config) && IsRootUser(root) && CP.IsStore(log + [root]) && config.stepLimit >= 1
    ensures Starts(NewTurn(log, root), config)
  {
    hide LogValid, ChainValid, CP.IsStore, ValidHistory, CC.ValidTurn, TC.Latest;
    StoreIds(log + [root]);
    RootAlone(root);
    RootKeepsLog(log, root, config.digest);
    RootKeepsChain(log, root);
  }

  // ---- a compaction by hand ----

  lemma {:induction false} RootsOf(events: seq<Event>, n: nat)
    requires n <= |events| && CC.SplitBefore(events, n).Ok?
    ensures forall k :: 0 <= k < n && events[k].etype.UserMessage? ==> IsRootUser(events[k])
    ensures CC.SplitBefore(events, n).value != [] ==> exists k :: 0 <= k < n && IsRootUser(events[k])
  {
    if n > 0 {
      RootsOf(events, n - 1);
    }
  }

  lemma {:induction false} LastRoot(events: seq<Event>, n: nat) returns (r: nat)
    requires n <= |events| && exists k :: 0 <= k < n && IsRootUser(events[k])
    ensures r < n && IsRootUser(events[r]) && forall k :: r < k < n ==> !IsRootUser(events[k])
  {
    if IsRootUser(events[n - 1]) {
      r := n - 1;
    } else {
      r := LastRoot(events, n - 1);
    }
  }

  // A history with a root turn ends with one.
  lemma {:induction false} LastTurn(log: seq<Event>, turns: seq<CC.RootTurn>) returns (r: nat)
    requires CC.AreRootTurns(log, turns) && turns != []
    ensures r <= |log| && IsActive(log[r..])
  {
    hide CC.ValidTurn, CC.TurnEnded, CC.SplitBefore;
    RootsOf(log, |log|);
    r := LastRoot(log, |log|);
  }

  lemma {:induction false} HandKeepsLatest(turn: seq<Event>, e: Event)
    requires TC.Latest(turn).Ok? && e.etype.ContextCompacted? && TC.Inert(e) && DistinctIds(turn + [e])
    ensures TC.Latest(turn + [e]).Ok?
  {
    if TC.Compacts(turn) {
      TC.AppendInert(turn, e);
      TC.LatestStays(turn, [e]);
    } else {
      assert !TC.Compacts(turn + [e]);
    }
  }

  // The event that a planned compaction by hand appends.
  ghost predicate ByHand(log: seq<Event>, turns: seq<CC.RootTurn>, chain: seq<CC.Accepted>, retained: nat, e: Event) {
    && CP.IsStore(log + [e]) && CC.AreRootTurns(log, turns) && CC.ChainBefore(log, turns, |log|) == Ok(chain)
    && CP.Nonempty(turns) && CP.Start(chain) < retained < |turns| && CP.AllComplete(turns, CP.Start(chain), retained)
    && e == CP.CompactionEvent(CP.PlanTo(turns, chain, retained), Manual, e.id, e.sequence, e.content)
  }

  lemma {:induction false} HandKeeps(log: seq<Event>, config: Config, turns: seq<CC.RootTurn>, chain: seq<CC.Accepted>, retained: nat,
                                     e: Event)
    requires Loads(log, config) && ByHand(log, turns, chain, retained, e)
    ensures Loads(log + [e], config)
  {
    hide TC.Latest, CC.AreRootTurns, CC.ChainBefore, CP.AllComplete, CP.IsStore, LogValid, CP.PlanTo;
    var r := LastTurn(log, turns);
    var before, turn := log[..r], log[r..];
    assert log == before + turn;
    StoreIds(log + [e]);
    LastLatest(before, turn, config.digest);
    assert before + (turn + [e]) == log + [e];
    DistinctTail(before, turn + [e]);
    HandKeepsLatest(turn, e);
    LogAppend(before, turn, e, config.digest);
    CP.PlannedIsAccepted(log, turns, chain, retained, Manual, e);
    assert |log + [e]| == |log| + 1;
    assert ChainValid(log + [e]);
  }

  lemma {:induction false} LastLatest(before: seq<Event>, turn: seq<Event>, digest: string -> string)
    requires LogValid(before + turn, digest) && IsActive(turn)
    ensures TC.Latest(turn).Ok?
  {
    hide TC.Latest, SnapshotOk;
    ActiveSlices(before, turn);
    assert Slices(before + turn)[|Slices(before)|] == turn;
  }

  lemma {:induction false} DistinctTail(before: seq<Event>, turn: seq<Event>)
    requires DistinctIds(before + turn)
    ensures DistinctIds(turn)
  {
    assert forall i :: 0 <= i < |turn| ==> (before + turn)[|before| + i] == turn[i];
  }

  // ---- sessions ----

  datatype Step =
    | RunTurn(root: Event, actions: seq<Action>)
    | CompactByHand(turns: seq<CC.RootTurn>, chain: seq<CC.Accepted>, retained: nat, event: Event)

  ghost predicate StepLegal(log: seq<Event>, config: Config, step: Step) {
    match step
    case RunTurn(root, actions) =>
      IsRootUser(root) && CP.IsStore(log + [root]) && Legal(NewTurn(log, root), config, actions)
    case CompactByHand(turns, chain, retained, e) => ByHand(log, turns, chain, retained, e)
  }

  function LogAfter(log: seq<Event>, step: Step): seq<Event> {
    match step
    case RunTurn(root, actions) => After(NewTurn(log, root), actions).Log()
    case CompactByHand(_, _, _, e) => log + [e]
  }

  ghost predicate SessionLegal(log: seq<Event>, config: Config, steps: seq<Step>)
    decreases |steps|
  {
    steps == [] || (StepLegal(log, config, steps[0]) && SessionLegal(LogAfter(log, steps[0]), config, steps[1..]))
  }

  function SessionLog(log: seq<Event>, steps: seq<Step>): seq<Event>
    decreases |steps|
  {
    if steps == [] then log else SessionLog(LogAfter(log, steps[0]), steps[1..])
  }

  lemma {:induction false} StepLoads(log: seq<Event>, config: Config, step: Step)
    requires Loads(log, config) && config.stepLimit >= 1 && StepLegal(log, config, step)
    ensures Loads(LogAfter(log, step), config) && log <= LogAfter(log, step)
  {
    hide LogValid, ChainValid, CP.IsStore, Legal, After, Starts, ByHand;
    match step
    case RunTurn(root, actions) =>
      var t := NewTurn(log, root);
      NextTurnStarts(log, root, config);
      StartInv(t, config);
      RunKeeps(t, config, actions);
      InvLoads(After(t, actions), config);
      assert log <= t.Log();
    case CompactByHand(turns, chain, retained, e) =>
      HandKeeps(log, config, turns, chain, retained, e);
  }

  lemma {:induction false} InvLoads(t: Turn, config: Config)
    requires Inv(t, config)
    ensures Loads(t.Log(), config)
  {
    hide LogValid, ChainValid, CP.IsStore;
  }

  // From any history that loads, however its turns run and stop and whatever
  // is compacted by hand between them, a session only appends, and every log
  // it leaves loads again.
  lemma {:induction false} EverySessionLoads(log: seq<Event>, config: Config, steps: seq<Step>)
    requires Loads(log, config) && config.stepLimit >= 1 && SessionLegal(log, config, steps)
    ensures Loads(SessionLog(log, steps), config) && log <= SessionLog(log, steps)
    decreases |steps|
  {
    hide Loads, StepLegal, LogAfter;
    if steps != [] {
      StepLoads(log, config, steps[0]);
      EverySessionLoads(LogAfter(log, steps[0]), config, steps[1..]);
    }
  }

  // A session starts from nothing.
  lemma {:induction false} NothingLoads(config: Config)
    ensures Loads([], config)
  {
    assert CC.AreRootTurns([], []) && CC.ChainBefore([], [], 0) == Ok([]);
  }
}
