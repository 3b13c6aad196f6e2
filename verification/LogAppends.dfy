/**
 * Appending one event to a durable history: what keeps its tool calls paired,
 * its context records accepted and its compaction chain accepted
 * (internal/agent/context.go, compaction.go, history.go).
 */
module LogAppends {
  import opened Wrappers
  import opened Events
  import opened History
  import opened ContextLog
  import TC = TurnCompaction
  import CC = CompactionChain
  import CP = CompactionPlans

  // ---- tool calls stay paired ----

  lemma {:induction false} AppendAssistant(turn: seq<Event>, e: Event)
    requires ValidHistory(turn) && e.etype.AssistantMessage? && DecodeCalls(e).Some? && ValidCalls(Calls(e))
    ensures ValidHistory(turn + [e])
  {
    var next := turn + [e];
    forall i: nat | i < |next|
      ensures ValidAt(next, i)
    {
      if i < |turn| {
        GroupsKept(turn, e, i);
        assert ValidAt(turn, i);
      }
    }
    ClaimsKept(turn, e);
  }

  // An event that is no tool result changes no earlier group.
  lemma {:induction false} GroupsKept(turn: seq<Event>, e: Event, i: nat)
    requires i < |turn| && !IsToolResult(e)
    ensures forall j: nat :: InGroup(turn + [e], i, j) <==> InGroup(turn, i, j)
  {
    forall j: nat
      ensures InGroup(turn + [e], i, j) <==> InGroup(turn, i, j)
    {
      if j <= |turn| {
        TC.PrevBoundaryPrefix(turn, [e], j);
      }
    }
  }

  lemma {:induction false} ClaimsKept(turn: seq<Event>, e: Event)
    requires forall j: nat :: j < |turn| && IsToolResult(turn[j]) ==> Claimed(turn, j)
    ensures forall j: nat :: j < |turn| && IsToolResult((turn + [e])[j]) ==> Claimed(turn + [e], j)
  {
    forall j: nat | j < |turn| && IsToolResult(turn[j])
      ensures Claimed(turn + [e], j)
    {
      assert Claimed(turn, j);
      TC.PrevBoundaryPrefix(turn, [e], j);
    }
  }

  function IdsOf(calls: seq<ToolCall>): set<string> {
    set c | c in calls :: c.id
  }

  // The turn ends inside a tool group whose first k calls are answered.
  ghost predicate Awaiting(turn: seq<Event>, calls: seq<ToolCall>, k: nat) {
    var b := PrevBoundary(turn, |turn|);
    && b >= 0 && Opens(turn, b) && Calls(turn[b]) == calls && k <= |calls|
    && AnsweredBefore(turn, b, |turn|) == IdsOf(calls[..k])
  }

  lemma {:induction false} AwaitingOpened(turn: seq<Event>, e: Event)
    requires e.etype.AssistantMessage? && Calls(e) != []
    ensures Awaiting(turn + [e], Calls(e), 0) && PrevBoundary(turn + [e], |turn| + 1) == |turn|
  {
    assert Calls(e)[..0] == [];
    assert AnsweredBefore(turn + [e], |turn|, |turn| + 1) == {};
  }

  lemma {:induction false} AwaitingKept(turn: seq<Event>, e: Event, calls: seq<ToolCall>, k: nat)
    requires Awaiting(turn, calls, k) && !EndsGroup(e) && !IsToolResult(e)
    ensures Awaiting(turn + [e], calls, k) && PrevBoundary(turn + [e], |turn| + 1) == PrevBoundary(turn, |turn|)
  {
    var b := PrevBoundary(turn, |turn|);
    TC.PrevBoundaryPrefix(turn, [e], |turn|);
    GroupsKept(turn, e, b);
    assert AnsweredBefore(turn + [e], b, |turn| + 1) == AnsweredBefore(turn, b, |turn|) by {
      assert forall j: nat :: j < |turn| ==> (turn + [e])[j] == turn[j];
    }
  }

  // The next call's result is claimed by the group that awaits it.
  lemma {:induction false} AppendResult(turn: seq<Event>, e: Event, calls: seq<ToolCall>, k: nat)
    requires ValidHistory(turn) && Awaiting(turn, calls, k) && k < |calls| && ValidCalls(calls)
    requires IsToolResult(e) && DecodeToolCallId(e) == Some(calls[k].id)
    ensures ValidHistory(turn + [e]) && Awaiting(turn + [e], calls, k + 1)
    ensures PrevBoundary(turn + [e], |turn| + 1) == PrevBoundary(turn, |turn|)
  {
    var next, b := turn + [e], PrevBoundary(turn, |turn|);
    var n := |turn|;
    TC.PrevBoundaryPrefix(turn, [e], n);
    forall i: nat, j: nat | i < n && j < n
      ensures InGroup(next, i, j) <==> InGroup(turn, i, j)
    {
      TC.PrevBoundaryPrefix(turn, [e], j);
    }
    assert InGroup(next, b, n) && forall i: nat :: i < n && InGroup(next, i, n) ==> i == b;
    ResultIsNew(turn, calls, k, b);
    AnsweredNext(turn, e, b);
    assert calls[..k + 1] == calls[..k] + [calls[k]];
    assert calls[k] in calls;
    forall i: nat | i < |next|
      ensures ValidAt(next, i)
    {
      if i < n {
        assert ValidAt(turn, i);
        ResultKeepsGroup(turn, e, i, b);
      }
    }
    ClaimsKept(turn, e);
  }

  lemma {:induction false} ResultIsNew(turn: seq<Event>, calls: seq<ToolCall>, k: nat, b: nat)
    requires k < |calls| && ValidCalls(calls) && AnsweredBefore(turn, b, |turn|) == IdsOf(calls[..k])
    ensures calls[k].id !in AnsweredBefore(turn, b, |turn|)
  {
    forall c | c in calls[..k]
      ensures c.id != calls[k].id
    {
      var m :| 0 <= m < k && calls[..k][m] == c;
      assert calls[m] == c;
    }
  }

  lemma {:induction false} AnsweredNext(turn: seq<Event>, e: Event, b: nat)
    requires b < |turn| && IsToolResult(e) && PrevBoundary(turn, |turn|) == b && Opens(turn, b)
    requires PrevBoundary(turn + [e], |turn|) == b
    requires forall j: nat :: j < |turn| ==> (InGroup(turn + [e], b, j) <==> InGroup(turn, b, j))
    ensures AnsweredBefore(turn + [e], b, |turn| + 1) == AnsweredBefore(turn, b, |turn|) + {ResultId(e)}
  {
    var next := turn + [e];
    assert InGroup(next, b, |turn|);
    assert forall j: nat :: j < |turn| ==> next[j] == turn[j];
  }

  lemma {:induction false} ResultKeepsGroup(turn: seq<Event>, e: Event, i: nat, b: nat)
    requires i < |turn| && b < |turn| && ValidAt(turn, i) && IsToolResult(e)
    requires forall j: nat :: j < |turn| ==> (InGroup(turn + [e], i, j) <==> InGroup(turn, i, j))
    requires InGroup(turn + [e], i, |turn|) ==>
               i == b && DecodeToolCallId(e).Some? && ResultId(e) in CallIds(turn[b])
               && ResultId(e) !in AnsweredBefore(turn, b, |turn|)
    ensures ValidAt(turn + [e], i)
  {
    var next := turn + [e];
    if Opens(next, i) {
      assert ValidGroup(turn, i);
      forall j: nat, k: nat | j < k < |next| && InGroup(next, i, j) && InGroup(next, i, k)
        ensures ResultId(next[j]) != ResultId(next[k])
      {
        if k == |turn| {
          assert i < j by {
            assert PrevBoundary(next, j) == i;
          }
          assert ResultId(turn[j]) in AnsweredBefore(turn, i, |turn|);
        }
      }
    }
  }

  // ---- context records stay accepted ----

  lemma {:induction false} FindAppend(events: seq<Event>, more: seq<Event>, id: EventId, n: nat)
    requires n <= |events|
    ensures Find(events + more, id, n) == Find(events, id, n)
  {
    if n > 0 {
      FindAppend(events, more, id, n - 1);
    }
  }

  lemma {:induction false} ActiveAppend(events: seq<Event>, more: seq<Event>, n: nat)
    requires n <= |events|
    ensures ActiveBefore(events + more, n) == ActiveBefore(events, n)
  {
    if n > 0 {
      ActiveAppend(events, more, n - 1);
    }
  }

  lemma {:induction false} SnapshotAppend(events: seq<Event>, more: seq<Event>, digest: string -> string, i: nat)
    requires i < |events| && SnapshotOk(events, digest, i)
    ensures SnapshotOk(events + more, digest, i)
  {
    var all, p := events + more, events[i].payload.snapshot;
    ActiveAppend(events, more, i);
    FindAppend(events, more, events[i].parentId, i);
    FindAppend(events, more, p.retainedFirstId, i);
    var first, last := events[Find(events, p.retainedFirstId, i).value].sequence, events[Find(events, events[i].parentId, i).value].sequence;
    forall k: nat | k < |p.placeholders|
      ensures PlaceholderAt(all, digest, p.placeholders, i, first, last, k)
    {
      assert PlaceholderAt(events, digest, p.placeholders, i, first, last, k);
      FindAppend(events, more, p.placeholders[k].eventId, i);
      if k > 0 {
        FindAppend(events, more, p.placeholders[k - 1].eventId, i);
      }
    }
  }

  // The active turn is the last slice of the history.
  ghost predicate IsActive(turn: seq<Event>) {
    turn != [] && IsRootUser(turn[0]) && forall i :: 1 <= i < |turn| ==> !turn[i].etype.UserMessage?
  }

  lemma {:induction false} SlicesAppend(before: seq<Event>, turn: seq<Event>, n: nat)
    requires IsActive(turn) && 1 <= n <= |turn|
    ensures SlicesBefore(before + turn, |before| + n) == Slices(before) + [turn[..n]]
  {
    var events := before + turn;
    if n == 1 {
      SlicesPrefix(before, turn, |before|);
      assert turn[..1] == [turn[0]];
      assert events[|before|] == turn[0];
    } else {
      SlicesAppend(before, turn, n - 1);
      assert events[|before| + n - 1] == turn[n - 1];
      assert turn[..n] == turn[..n - 1] + [turn[n - 1]];
      var slices := Slices(before) + [turn[..n - 1]];
      assert slices[..|slices| - 1] == Slices(before);
    }
  }

  lemma {:induction false} SlicesPrefix(before: seq<Event>, turn: seq<Event>, n: nat)
    requires n <= |before|
    ensures SlicesBefore(before + turn, n) == SlicesBefore(before, n)
  {
    if n > 0 {
      SlicesPrefix(before, turn, n - 1);
    }
  }

  lemma {:induction false} ActiveSlices(before: seq<Event>, turn: seq<Event>)
    requires IsActive(turn)
    ensures Slices(before + turn) == Slices(before) + [turn]
  {
    SlicesAppend(before, turn, |turn|);
    assert turn[..|turn|] == turn;
  }

  // An event appended to the active turn keeps the records accepted when its
  // turn's compactions and, for a snapshot, the snapshot itself are.
  lemma {:induction false} LogAppend(before: seq<Event>, turn: seq<Event>, e: Event, digest: string -> string)
    requires IsActive(turn) && LogValid(before + turn, digest) && !e.etype.UserMessage?
    requires Named(before + turn + [e]) && TC.Latest(turn + [e]).Ok?
    requires e.etype.ContextSnapshot? ==> SnapshotOk(before + turn + [e], digest, |before + turn|)
    ensures LogValid(before + (turn + [e]), digest)
  {
    hide SnapshotOk;
    var log := before + turn;
    var next := before + (turn + [e]);
    assert next == log + [e];
    ActiveSlices(before, turn);
    ActiveSlices(before, turn + [e]);
    forall t | 0 <= t < |Slices(next)|
      ensures TC.Latest(Slices(next)[t]).Ok?
    {
      if t < |Slices(before)| {
        assert Slices(next)[t] == Slices(log)[t];
      }
    }
    forall i: nat | i < |next|
      ensures Rooted(next, i)
      ensures next[i].etype.ContextSnapshot? ==> SnapshotOk(next, digest, i)
    {
      if i < |log| {
        assert Rooted(log, i) && next[i] == log[i];
        if next[i].etype.ContextSnapshot? {
          SnapshotAppend(log, [e], digest, i);
        }
      }
      assert next[|before|] == turn[0];
      if i < |log| && log[i].etype.ContextTurnCompacted? {
        var r :| 0 <= r < i && IsRootUser(log[r]);
        assert next[r] == log[r];
      }
    }
  }

  // ---- the compaction chain stays accepted ----

  function WithoutCompactions(turn: seq<Event>): seq<Event> {
    if turn == [] then []
    else
      var n := |turn| - 1;
      WithoutCompactions(turn[..n]) + (if turn[n].etype.ContextCompacted? then [] else [turn[n]])
  }

  lemma {:induction false} WithoutSnoc(turn: seq<Event>, e: Event)
    ensures WithoutCompactions(turn + [e]) == WithoutCompactions(turn) + (if e.etype.ContextCompacted? then [] else [e])
  {
    assert (turn + [e])[..|turn|] == turn;
  }

  // A history of root turns: what is kept of it starts with a root user
  // event, and every user event is one.
  predicate StartsTurns(kept: seq<Event>) {
    && (kept != [] ==> IsRootUser(kept[0]))
    && forall k :: 0 <= k < |kept| && kept[k].etype.UserMessage? ==> IsRootUser(kept[k])
  }

  predicate OneRootEach(turns: seq<seq<Event>>) {
    forall t :: 0 <= t < |turns| ==>
      && turns[t] != [] && IsRootUser(turns[t][0])
      && forall k :: 0 < k < |turns[t]| ==> !turns[t][k].etype.UserMessage?
  }

  // A history splits into root turns exactly when it is one of them; the
  // turns are then what is kept of it, in order, one root user event each.
  lemma {:induction false} SplitExactly(events: seq<Event>)
    ensures CC.Split(events).Ok? <==> StartsTurns(WithoutCompactions(events))
    ensures CC.Split(events).Ok? ==>
              Flatten(CC.Split(events).value) == WithoutCompactions(events) && OneRootEach(CC.Split(events).value)
  {
    SplitExactlyBefore(events, |events|);
    assert events[..|events|] == events;
  }

  lemma {:induction false} SplitExactlyBefore(events: seq<Event>, n: nat)
    requires n <= |events|
    ensures var kept, r := WithoutCompactions(events[..n]), CC.SplitBefore(events, n);
            && (r.Ok? <==> StartsTurns(kept))
            && (r.Ok? ==> Flatten(r.value) == kept && OneRootEach(r.value))
  {
    if n > 0 {
      var e, kept, before := events[n - 1], WithoutCompactions(events[..n - 1]), CC.SplitBefore(events, n - 1);
      SplitExactlyBefore(events, n - 1);
      assert events[..n] == events[..n - 1] + [e];
      WithoutSnoc(events[..n - 1], e);
      hide WithoutCompactions, StartsTurns, OneRootEach;
      assert kept + [] == kept;
      if !e.etype.ContextCompacted? {
        StartsNext(kept, e);
        assert WithoutCompactions(events[..n]) == kept + [e];
        if before.Ok? {
          SplitNext(before.value, kept, e);
        }
      }
    }
  }

  lemma {:induction false} StartsNext(kept: seq<Event>, e: Event)
    ensures StartsTurns(kept + [e]) <==>
              StartsTurns(kept) && (if e.etype.UserMessage? then IsRootUser(e) else kept != [])
  {
    var next := kept + [e];
    assert next[|kept|] == e && forall k :: 0 <= k < |kept| ==> next[k] == kept[k];
  }

  lemma {:induction false} SplitNext(turns: seq<seq<Event>>, kept: seq<Event>, e: Event)
    requires Flatten(turns) == kept && OneRootEach(turns)
    ensures turns == [] <==> kept == []
    ensures IsRootUser(e) ==> Flatten(turns + [[e]]) == kept + [e] && OneRootEach(turns + [[e]])
    ensures turns != [] && !e.etype.UserMessage? ==>
              var next := turns[..|turns| - 1] + [turns[|turns| - 1] + [e]];
              Flatten(next) == kept + [e] && OneRootEach(next)
  {
    FlattenSnoc(turns, [e]);
    if turns != [] {
      var m := |turns| - 1;
      assert turns == turns[..m] + [turns[m]];
      FlattenSnoc(turns[..m], turns[m]);
      FlattenSnoc(turns[..m], turns[m] + [e]);
      assert Flatten(turns[..m]) + (turns[m] + [e]) == kept + [e];
    }
  }

  ghost predicate ChainValid(events: seq<Event>) {
    exists turns, chain :: CC.AreRootTurns(events, turns) && CC.ChainBefore(events, turns, |events|) == Ok(chain)
  }

  lemma {:induction false} SplitActive(before: seq<Event>, turn: seq<Event>, n: nat)
    requires IsActive(turn) && 1 <= n <= |turn| && CC.Split(before).Ok?
    ensures CC.SplitBefore(before + turn, |before| + n)
            == Ok(CC.Split(before).value + [WithoutCompactions(turn[..n])])
  {
    var events := before + turn;
    if n == 1 {
      CP.SplitAppend(before, turn, |before|);
      assert events[|before|] == turn[0] && IsRootUser(turn[0]);
      assert CC.SplitBefore(events, |before|) == CC.Split(before);
      WithoutSnoc([], turn[0]);
      assert turn[..1] == [] + [turn[0]];
      assert WithoutCompactions(turn[..1]) == [turn[0]];
    } else {
      SplitActive(before, turn, n - 1);
      assert events[|before| + n - 1] == turn[n - 1];
      assert turn[..n] == turn[..n - 1] + [turn[n - 1]];
      WithoutSnoc(turn[..n - 1], turn[n - 1]);
      assert !turn[n - 1].etype.UserMessage?;
      var split := CC.Split(before).value + [WithoutCompactions(turn[..n - 1])];
      assert CC.SplitBefore(events, |before| + n - 1) == Ok(split);
      assert split[..|split| - 1] == CC.Split(before).value && split[|split| - 1] == WithoutCompactions(turn[..n - 1]);
      if turn[n - 1].etype.ContextCompacted? {
        assert WithoutCompactions(turn[..n]) == WithoutCompactions(turn[..n - 1]);
      }
    }
  }

  lemma {:induction false} SplitOfActive(before: seq<Event>, turn: seq<Event>)
    requires IsActive(turn) && CC.Split(before + turn).Ok?
    ensures CC.Split(before).Ok? && CC.Split(before + turn) == Ok(CC.Split(before).value + [WithoutCompactions(turn)])
  {
    CP.SplitAppend(before, turn, |before|);
    if CC.Split(before).Err? {
      CC.SplitErr(before + turn, |before|, |before + turn|);
    }
    SplitActive(before, turn, |turn|);
    assert turn[..|turn|] == turn;
  }

  // An event that is no compaction, appended to the active turn, keeps the
  // chain accepted when the turn stays valid.
  lemma {:induction false} ChainAppendEvent(before: seq<Event>, turn: seq<Event>, e: Event)
    requires IsActive(turn) && ChainValid(before + turn) && CP.IsStore(before + turn + [e])
    requires !e.etype.UserMessage? && !e.etype.ContextCompacted? && CC.ValidTurn(WithoutCompactions(turn + [e]))
    ensures ChainValid(before + (turn + [e]))
  {
    hide CC.ValidTurn, CC.TurnEnded, CP.IsStore, CC.ChainBefore;
    var log := before + turn;
    var turns, chain :| CC.AreRootTurns(log, turns) && CC.ChainBefore(log, turns, |log|) == Ok(chain);
    SplitOfActive(before, turn);
    SplitActive(before, turn + [e], |turn| + 1);
    assert (turn + [e])[..|turn| + 1] == turn + [e];
    assert before + (turn + [e]) == log + [e];
    var n := |turns| - 1;
    var last := WithoutCompactions(turn + [e]);
    ValidTurnNonempty(last);
    var after := turns[..n] + [CC.RootTurn(last, CC.TurnEnded(last))];
    AfterRootTurns(log, e, turns, after, last);
    CP.ChainStays(log, [e], turns, after, chain);
  }

  lemma {:induction false} ValidTurnNonempty(turn: seq<Event>)
    requires CC.ValidTurn(turn)
    ensures turn != []
  {
  }

  lemma {:induction false} AfterRootTurns(log: seq<Event>, e: Event, turns: seq<CC.RootTurn>, after: seq<CC.RootTurn>, last: seq<Event>)
    requires CC.AreRootTurns(log, turns) && turns != [] && CC.ValidTurn(last)
    requires CC.Split(log + [e]).Ok? && |CC.Split(log + [e]).value| == |turns|
    requires CC.Split(log + [e]).value == CC.Split(log).value[..|turns| - 1] + [last]
    requires after == turns[..|turns| - 1] + [CC.RootTurn(last, CC.TurnEnded(last))]
    ensures CC.AreRootTurns(log + [e], after)
  {
    hide CC.ValidTurn, CC.TurnEnded, CC.Split;
  }

  // A turn without terminal evidence is open.
  ghost predicate NoTerminal(turn: seq<Event>) {
    forall i :: 0 <= i < |turn| ==> !turn[i].etype.TurnFailed? && !turn[i].etype.TurnInterrupted?
  }

  lemma {:induction false} StaysOpen(turn: seq<Event>, n: nat)
    requires n <= |turn| && turn != [] && forall i :: 0 <= i < n ==> !turn[i].etype.TurnFailed? && !turn[i].etype.TurnInterrupted?
    ensures CC.EndingBefore(turn, n).Open?
  {
    if n > 0 {
      StaysOpen(turn, n - 1);
    }
  }

  lemma {:induction false} OpenIsValid(turn: seq<Event>)
    requires turn != [] && ValidHistory(turn) && NoTerminal(turn)
    ensures CC.ValidTurn(turn)
  {
    StaysOpen(turn, |turn|);
  }

  // Terminal evidence that names the turn's root ends it safely.
  lemma {:induction false} TerminalIsValid(turn: seq<Event>, e: Event)
    requires turn != [] && ValidHistory(turn + [e]) && NoTerminal(turn)
    requires (e.etype.TurnFailed? || e.etype.TurnInterrupted?) && e.payload.Terminal? && e.payload.turnId == turn[0].id
    ensures CC.ValidTurn(turn + [e])
  {
    StaysOpen(turn + [e], |turn|);
  }
}
