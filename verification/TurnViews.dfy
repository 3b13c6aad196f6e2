/**
 * A compacted turn as the conversation sees it, and the events its compaction
 * hides (internal/agent/turn_compaction.go).
 */
module TurnViews {
  import opened Wrappers
  import opened Events
  import opened History
  import opened TurnCompaction
  import opened TurnCompactionPlans

  // contextTurnSummary
  datatype Summary = Summary(compactionId: EventId, firstRetainedId: EventId, sequence: int, content: string)

  function SummaryOf(a: Accepted): Summary {
    Summary(a.event.id, a.payload.firstRetainedId, a.event.sequence, a.event.content)
  }

  // The first event with the identity, or the number of events.
  function IndexOf(turn: seq<Event>, id: EventId): (i: nat)
    ensures i <= |turn| && (i < |turn| ==> turn[i].id == id)
    ensures forall k :: 0 <= k < i ==> turn[k].id != id
  {
    if turn == [] || turn[0].id == id then 0
    else
      var i := IndexOf(turn[1..], id);
      assert forall k :: 0 < k < i + 1 ==> turn[k] == turn[1..][k - 1];
      i + 1
  }

  // The events that stay, by index: from the frontier on, no compaction.
  function Kept(turn: seq<Event>, from: nat): (kept: seq<nat>)
    requires from <= |turn|
    decreases |turn| - from
  {
    if from == |turn| then []
    else (if turn[from].etype.ContextTurnCompacted? then [] else [from]) + Kept(turn, from + 1)
  }

  // turnSummaryMessage is a parameter: its escaping is not modelled.
  function ViewMarker(summary: Summary, message: string -> string): Event {
    Event(summary.compactionId, "", summary.sequence, TurnSummaryView, RoleUser, message(summary.content), Empty)
  }

  function Pick(turn: seq<Event>, kept: seq<nat>): (picked: seq<Event>)
    requires forall i :: 0 <= i < |kept| ==> kept[i] < |turn|
    ensures |picked| == |kept|
  {
    seq(|kept|, i requires 0 <= i < |kept| => turn[kept[i]])
  }

  ghost predicate Ascends(turn: seq<Event>, kept: seq<nat>, from: nat) {
    && (forall i :: 0 <= i < |kept| ==> from <= kept[i] < |turn|)
    && (forall i :: 0 <= i < |kept| ==> !turn[kept[i]].etype.ContextTurnCompacted?)
    && forall i, j :: 0 <= i < j < |kept| ==> kept[i] < kept[j]
  }

  lemma {:induction false} KeptAscends(turn: seq<Event>, from: nat)
    requires from <= |turn|
    ensures Ascends(turn, Kept(turn, from), from)
    decreases |turn| - from
  {
    if from < |turn| {
      KeptAscends(turn, from + 1);
      AscendsCons(turn, Kept(turn, from + 1), from);
    }
  }

  lemma {:induction false} AscendsCons(turn: seq<Event>, rest: seq<nat>, from: nat)
    requires from < |turn| && Ascends(turn, rest, from + 1)
    ensures Ascends(turn, (if turn[from].etype.ContextTurnCompacted? then [] else [from]) + rest, from)
  {
  }

  lemma {:induction false} KeptHas(turn: seq<Event>, from: nat, k: nat) returns (i: nat)
    requires from <= k < |turn| && !turn[k].etype.ContextTurnCompacted?
    ensures i < |Kept(turn, from)| && Kept(turn, from)[i] == k
    decreases |turn| - from
  {
    if from == k {
      i := 0;
    } else {
      i := KeptHas(turn, from + 1, k);
      if !turn[from].etype.ContextTurnCompacted? {
        i := i + 1;
      }
    }
  }

  // The turn as its latest compaction leaves it.
  function View(turn: seq<Event>, summary: Summary, message: string -> string): Result<seq<Event>, CompactionError> {
    var retained := IndexOf(turn, summary.firstRetainedId);
    if retained == |turn| || retained < 1 then Err(MissingFrontier)
    else
      KeptAscends(turn, retained);
      Ok([turn[0], ViewMarker(summary, message)] + Pick(turn, Kept(turn, retained)))
  }

  method TurnCompactionView(turn: seq<Event>, summary: Option<Summary>, message: string -> string)
    returns (r: Result<seq<Event>, CompactionError>)
    ensures r == if summary.None? then Ok(turn) else View(turn, summary.value, message)
  {
    if summary.None? {
      return Ok(turn);
    }
    var retained := 0;
    while retained < |turn| && turn[retained].id != summary.value.firstRetainedId
      invariant retained <= |turn|
      invariant forall k :: 0 <= k < retained ==> turn[k].id != summary.value.firstRetainedId
    {
      retained := retained + 1;
    }
    assert retained == IndexOf(turn, summary.value.firstRetainedId);
    if retained == |turn| || retained < 1 {
      return Err(MissingFrontier);
    }
    KeptAscends(turn, retained);
    var rest := KeepFrom(turn, retained);
    return Ok([turn[0], ViewMarker(summary.value, message)] + rest);
  }

  method KeepFrom(turn: seq<Event>, from: nat) returns (rest: seq<Event>)
    requires from <= |turn|
    ensures Ascends(turn, Kept(turn, from), from) && rest == Pick(turn, Kept(turn, from))
  {
    KeptAscends(turn, from);
    rest := [];
    ghost var kept: seq<nat> := [];
    for i := from to |turn|
      invariant kept + Kept(turn, i) == Kept(turn, from)
      invariant forall k :: 0 <= k < |kept| ==> kept[k] < |turn|
      invariant rest == Pick(turn, kept)
    {
      if !turn[i].etype.ContextTurnCompacted? {
        PickNext(turn, kept, i);
        rest := rest + [turn[i]];
        kept := kept + [i];
      }
    }
    assert kept == Kept(turn, from);
  }

  lemma {:induction false} PickNext(turn: seq<Event>, kept: seq<nat>, i: nat)
    requires i < |turn| && forall k :: 0 <= k < |kept| ==> kept[k] < |turn|
    ensures forall k :: 0 <= k < |kept + [i]| ==> (kept + [i])[k] < |turn|
    ensures Pick(turn, kept + [i]) == Pick(turn, kept) + [turn[i]]
  {
  }

  // A view is the turn's root, the summary, and every event from the first
  // with the retained identity on that is no compaction, in order.
  lemma {:induction false} ViewExactly(turn: seq<Event>, summary: Summary, message: string -> string, retained: nat) returns (kept: seq<nat>)
    requires retained < |turn| && turn[retained].id == summary.firstRetainedId
    requires forall k :: 0 <= k < retained ==> turn[k].id != summary.firstRetainedId
    ensures forall k :: k in kept <==> retained <= k < |turn| && !turn[k].etype.ContextTurnCompacted?
    ensures forall i, j :: 0 <= i < j < |kept| ==> kept[i] < kept[j]
    ensures retained == 0 ==> View(turn, summary, message).Err?
    ensures retained > 0 ==>
              && View(turn, summary, message).Ok?
              && var view := View(turn, summary, message).value;
              && |view| == |kept| + 2 && view[0] == turn[0]
              && view[1].etype.TurnSummaryView? && view[1].role.RoleUser? && view[1].content == message(summary.content)
              && view[1].id == summary.compactionId && view[1].sequence == summary.sequence
              && forall i :: 0 <= i < |kept| ==> kept[i] < |turn| && view[i + 2] == turn[kept[i]]
  {
    hide Kept;
    assert IndexOf(turn, summary.firstRetainedId) == retained;
    kept := Kept(turn, retained);
    KeptAscends(turn, retained);
    KeptExactly(turn, retained);
  }

  lemma {:induction false} KeptExactly(turn: seq<Event>, from: nat)
    requires from <= |turn|
    ensures forall k :: k in Kept(turn, from) <==> from <= k < |turn| && !turn[k].etype.ContextTurnCompacted?
    decreases |turn| - from
  {
    if from < |turn| {
      KeptExactly(turn, from + 1);
    }
  }

  // Without an event of the retained identity there is no view.
  lemma {:induction false} NoView(turn: seq<Event>, summary: Summary, message: string -> string)
    requires forall k :: 0 <= k < |turn| ==> turn[k].id != summary.firstRetainedId
    ensures View(turn, summary, message).Err?
  {
    assert IndexOf(turn, summary.firstRetainedId) == |turn|;
  }

  // ---- turnCompactionHiddenEvents ----

  // The identities hidden before n of the turn's later events.
  ghost function HiddenBefore(turn: seq<Event>, firstRetainedId: EventId, n: nat): set<EventId>
    requires n <= |turn|
  {
    set k: nat | 1 <= k < n && (k < IndexFromOne(turn, firstRetainedId) || turn[k].etype.ContextTurnCompacted?)
      :: turn[k].id
  }

  function IndexFromOne(turn: seq<Event>, id: EventId): (i: nat)
    ensures turn != [] ==> 1 <= i <= |turn|
  {
    if turn == [] then 0 else 1 + IndexOf(turn[1..], id)
  }

  method HiddenInTurn(turn: seq<Event>, firstRetainedId: EventId) returns (hidden: set<EventId>)
    requires turn != []
    ensures hidden == HiddenBefore(turn, firstRetainedId, |turn|)
  {
    hidden := {};
    var covering := true;
    ghost var frontier := IndexFromOne(turn, firstRetainedId);
    assert frontier < |turn| ==> turn[1..][frontier - 1] == turn[frontier];
    assert forall k :: 1 <= k < frontier ==> turn[k] == turn[1..][k - 1];
    for i := 1 to |turn|
      invariant covering <==> i <= frontier
      invariant hidden == HiddenBefore(turn, firstRetainedId, i)
    {
      if turn[i].id == firstRetainedId {
        covering := false;
      }
      if covering || turn[i].etype.ContextTurnCompacted? {
        hidden := hidden + {turn[i].id};
      }
    }
  }

  // ---- the view and the hidden set partition the turn ----

  ghost predicate Shows(view: seq<Event>, e: Event) {
    exists j :: 0 <= j < |view| && j != 1 && view[j] == e
  }

  // Every durable event of a compacted turn is shown by its view or hidden,
  // and none is both.
  lemma {:induction false} ViewAndHiddenPartition(turn: seq<Event>, summary: Summary, message: string -> string, k: nat)
    requires k < |turn| && DistinctIds(turn) && !turn[0].etype.ContextTurnCompacted?
    requires View(turn, summary, message).Ok?
    ensures Shows(View(turn, summary, message).value, turn[k])
            <==> turn[k].id !in HiddenBefore(turn, summary.firstRetainedId, |turn|)
  {
    var view := View(turn, summary, message).value;
    var retained := IndexOf(turn, summary.firstRetainedId);
    var kept := Kept(turn, retained);
    KeptAscends(turn, retained);
    FrontierAgrees(turn, summary.firstRetainedId);
    if k == 0 {
      assert view[0] == turn[0];
    } else if k >= retained && !turn[k].etype.ContextTurnCompacted? {
      var i := KeptHas(turn, retained, k);
      assert view[i + 2] == turn[k];
    } else {
      assert turn[k].id in HiddenBefore(turn, summary.firstRetainedId, |turn|);
      forall j | 0 <= j < |view| && j != 1
        ensures view[j] != turn[k]
      {
        if j >= 2 {
          assert view[j] == turn[kept[j - 2]];
        }
      }
    }
  }

  lemma {:induction false} FrontierAgrees(turn: seq<Event>, id: EventId)
    requires turn != [] && 1 <= IndexOf(turn, id) < |turn|
    ensures IndexFromOne(turn, id) == IndexOf(turn, id)
  {
    var i, j := IndexOf(turn, id), IndexFromOne(turn, id);
    assert forall k :: 1 <= k < |turn| ==> turn[k] == turn[1..][k - 1];
  }

  // ---- a view projects as its turn does ----

  // Where each event of the view comes from; the marker comes from nowhere.
  function Origins(kept: seq<nat>): seq<int> {
    [0, -1] + seq(|kept|, i requires 0 <= i < |kept| => kept[i] as int)
  }

  // The view of a turn, cut at an assistant event: its events and their
  // origins, in order.
  ghost predicate IsCut(turn: seq<Event>, view: seq<Event>, kept: seq<nat>, retained: nat) {
    && 1 <= retained < |turn| && turn[retained].etype.AssistantMessage? && kept == Kept(turn, retained)
    && |view| == |kept| + 2 && Ascends(turn, kept, retained)
    && view[0] == turn[0] && turn[0].etype.UserMessage? && view[1].etype.TurnSummaryView?
    && forall i :: 0 <= i < |kept| ==> view[i + 2] == turn[kept[i]]
  }

  // A result kept in the view stays in the group that the same event opens.
  lemma {:induction false} BoundaryKept(turn: seq<Event>, view: seq<Event>, kept: seq<nat>, retained: nat, j: nat) returns (b: nat)
    requires IsCut(turn, view, kept, retained) && j < |kept| && IsToolResult(turn[kept[j]])
    ensures b < j && PrevBoundary(view, j + 2) == b + 2 && PrevBoundary(turn, kept[j]) == kept[b]
  {
    var p := PrevBoundary(turn, kept[j]);
    if kept[j] == retained {
      assert false;
    }
    PrevBoundaryPast(turn, retained, kept[j]);
    b := KeptHas(turn, retained, p);
    PrevBoundaryFacts(turn, kept[j]);
    forall k: nat | b + 2 < k < j + 2
      ensures !EndsGroup(view[k])
    {
      assert view[k] == turn[kept[k - 2]] && kept[b] < kept[k - 2] < kept[j];
    }
    assert view[b + 2] == turn[kept[b]];
    PrevBoundaryIs(view, j + 2, b + 2);
  }

  // The view's groups are the turn's groups from the frontier on.
  lemma {:induction false} InGroupKept(turn: seq<Event>, view: seq<Event>, kept: seq<nat>, retained: nat, i: nat, j: nat)
    requires IsCut(turn, view, kept, retained) && i < |kept| && j < |kept|
    ensures InGroup(view, i + 2, j + 2) <==> InGroup(turn, kept[i], kept[j])
    ensures Opens(view, i + 2) <==> Opens(turn, kept[i])
  {
    assert view[i + 2] == turn[kept[i]] && view[j + 2] == turn[kept[j]];
    if IsToolResult(turn[kept[j]]) {
      var b := BoundaryKept(turn, view, kept, retained, j);
      assert kept[b] == kept[i] <==> b == i by {
        assert b < i ==> kept[b] < kept[i];
        assert i < b ==> kept[i] < kept[b];
      }
    }
  }

  // No result of a retained group is left out of the view.
  lemma {:induction false} ResultKept(turn: seq<Event>, view: seq<Event>, kept: seq<nat>, retained: nat, i: nat, k: nat) returns (j: nat)
    requires IsCut(turn, view, kept, retained) && i < |kept| && InGroup(turn, kept[i], k)
    ensures j < |kept| && kept[j] == k && InGroup(view, i + 2, j + 2) && view[j + 2] == turn[k]
  {
    assert kept[i] >= retained && k > kept[i];
    j := KeptHas(turn, retained, k);
    InGroupKept(turn, view, kept, retained, i, j);
    assert view[j + 2] == turn[kept[j]];
  }

  lemma {:induction false} AnswersKept(turn: seq<Event>, view: seq<Event>, kept: seq<nat>, retained: nat, i: nat)
    requires IsCut(turn, view, kept, retained) && i < |kept|
    ensures AnsweredBefore(view, i + 2, |view|) == AnsweredBefore(turn, kept[i], |turn|)
    ensures Complete(view, i + 2) <==> Complete(turn, kept[i])
  {
    assert view[i + 2] == turn[kept[i]];
    forall id | id in AnsweredBefore(view, i + 2, |view|)
      ensures id in AnsweredBefore(turn, kept[i], |turn|)
    {
      var j: nat :| i + 2 < j < |view| && InGroup(view, i + 2, j) && ResultId(view[j]) == id;
      InGroupKept(turn, view, kept, retained, i, j - 2);
      assert view[j] == turn[kept[j - 2]];
    }
    forall id | id in AnsweredBefore(turn, kept[i], |turn|)
      ensures id in AnsweredBefore(view, i + 2, |view|)
    {
      var k: nat :| kept[i] < k < |turn| && InGroup(turn, kept[i], k) && ResultId(turn[k]) == id;
      var j := ResultKept(turn, view, kept, retained, i, k);
    }
  }

  lemma {:induction false} ViewValidAt(turn: seq<Event>, view: seq<Event>, kept: seq<nat>, retained: nat, n: nat)
    requires IsCut(turn, view, kept, retained) && n < |view| && ValidHistory(turn)
    ensures ValidAt(view, n)
    ensures IsToolResult(view[n]) ==> Claimed(view, n)
  {
    if n >= 2 {
      var i := n - 2;
      assert view[n] == turn[kept[i]];
      assert ValidAt(turn, kept[i]);
      forall j: nat | InGroup(view, n, j)
        ensures j >= 2 && InGroup(turn, kept[i], kept[j - 2]) && view[j] == turn[kept[j - 2]]
      {
        assert !IsToolResult(view[0]) && !IsToolResult(view[1]);
        InGroupKept(turn, view, kept, retained, i, j - 2);
      }
      if IsToolResult(view[n]) {
        assert Claimed(turn, kept[i]);
        var b := BoundaryKept(turn, view, kept, retained, i);
        assert view[b + 2] == turn[kept[b]];
      }
    }
  }

  lemma {:induction false} OmittedKept(turn: seq<Event>, view: seq<Event>, kept: seq<nat>, retained: nat, i: nat)
    requires IsCut(turn, view, kept, retained) && i < |kept|
    ensures Omitted(view, i + 2) <==> Omitted(turn, kept[i])
  {
    assert view[i + 2] == turn[kept[i]];
    InGroupKept(turn, view, kept, retained, i, i);
    AnswersKept(turn, view, kept, retained, i);
    if IsToolResult(turn[kept[i]]) {
      var b := BoundaryKept(turn, view, kept, retained, i);
      InGroupKept(turn, view, kept, retained, b, b);
      AnswersKept(turn, view, kept, retained, b);
    }
  }

  // A summary marker exists only in a projected turn.
  ghost predicate Durable(turn: seq<Event>) {
    forall k :: 0 <= k < |turn| ==> !turn[k].etype.TurnSummaryView?
  }

  // If a turn projects to messages then so does its view, and in the result
  // every call is answered exactly once.
  lemma {:induction false} ViewProjects(turn: seq<Event>, view: seq<Event>, kept: seq<nat>, retained: nat)
    requires IsCut(turn, view, kept, retained) && Projects(turn) && Durable(turn)
    ensures Projects(view) && AnswersExactly(Messages(view), {})
  {
    forall n: nat | n < |view|
      ensures ValidAt(view, n)
      ensures IsToolResult(view[n]) ==> Claimed(view, n)
    {
      ViewValidAt(turn, view, kept, retained, n);
    }
    forall n: nat | n < |view| && n !in Omissions(view)
      ensures Render(view[n]).Ok?
    {
      if n == 0 {
        assert 0 !in Omissions(turn);
      } else if n >= 2 {
        OmittedKept(turn, view, kept, retained, n - 2);
        assert view[n] == turn[kept[n - 2]];
        assert kept[n - 2] !in Omissions(turn);
      }
    }
    ViewMarkerOutside(turn, view, kept, retained);
    EveryCallAnsweredOnce(view);
  }

  lemma {:induction false} ViewMarkerOutside(turn: seq<Event>, view: seq<Event>, kept: seq<nat>, retained: nat)
    requires IsCut(turn, view, kept, retained) && Durable(turn)
    ensures ViewsOutsideGroups(view)
  {
    forall k: nat | 2 <= k < |view|
      ensures !view[k].etype.TurnSummaryView?
    {
      assert view[k] == turn[kept[k - 2]];
    }
    forall k: nat, j: nat | k < j < |view| && view[k].etype.TurnSummaryView? && IsToolResult(view[j])
      ensures PrevBoundary(view, j) > k
    {
      assert view[j] == turn[kept[j - 2]];
      var b := BoundaryKept(turn, view, kept, retained, j - 2);
    }
  }

  // The view of an accepted compaction projects too: the request it yields
  // still answers every call it carries, exactly once.
  lemma {:induction false} AcceptedViewProjects(turn: seq<Event>, a: Accepted, message: string -> string)
    requires Latest(turn) == Ok(Some(a)) && Projects(turn) && DistinctIds(turn) && Durable(turn)
    ensures var r := View(turn, SummaryOf(a), message);
            r.Ok? && Projects(r.value) && AnswersExactly(Messages(r.value), {})
  {
    hide Projects, Messages, AnswersExactly, Check, ValidHistory, Complete, LastResult;
    var groups := Groups(turn);
    GroupsInTurn(turn, |turn|);
    GroupsInOrder(turn, |turn|);
    AcceptedDescribes(turn, groups, |turn|);
    var retained := groups[a.retainedGroup].first;
    FrontierIndex(turn, a.payload.firstRetainedId, retained);
    var kept := Kept(turn, retained);
    KeptAscends(turn, retained);
    assert Opens(turn, retained);
    ViewProjects(turn, View(turn, SummaryOf(a), message).value, kept, retained);
  }

  // An accepted compaction's frontier is in its turn, so its view exists.
  lemma {:induction false} AcceptedViewExists(turn: seq<Event>, a: Accepted, message: string -> string)
    requires Latest(turn) == Ok(Some(a)) && DistinctIds(turn)
    ensures View(turn, SummaryOf(a), message).Ok?
  {
    hide Check, ValidHistory, Complete, LastResult;
    var groups := Groups(turn);
    GroupsInTurn(turn, |turn|);
    GroupsInOrder(turn, |turn|);
    AcceptedDescribes(turn, groups, |turn|);
    var retained := groups[a.retainedGroup].first;
    FrontierIndex(turn, a.payload.firstRetainedId, retained);
  }

  lemma {:induction false} FrontierIndex(turn: seq<Event>, id: EventId, i: nat)
    requires DistinctIds(turn) && i < |turn| && turn[i].id == id
    ensures IndexOf(turn, id) == i
  {
  }
}
