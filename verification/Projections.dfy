/**
 * The durable events a request selects: from a root turn on, each turn as its
 * accepted in-turn compaction leaves it (internal/agent/context.go,
 * internal/agent/turn_compaction.go, internal/agent/wrap_up.go).
 */
module Projections {
  import opened Wrappers
  import opened Events
  import opened History
  import opened ContextLog
  import opened TurnViews
  import TC = TurnCompaction
  import TP = TurnCompactionPlans
  import Caches = TurnCaches

  // ---- selectedTurns ----

  // A turn as its latest accepted compaction leaves it.
  ghost function ViewOf(turn: seq<Event>, message: string -> string): Result<seq<Event>, TC.CompactionError> {
    match TC.Latest(turn)
    case Err(error) => Err(error)
    case Ok(None) => Ok(turn)
    case Ok(Some(a)) => View(turn, SummaryOf(a), message)
  }

  ghost function SelectedTurns(turns: seq<seq<Event>>, from: nat, message: string -> string):
    Result<seq<Event>, TC.CompactionError>
    requires from <= |turns|
    decreases |turns| - from
  {
    if from == |turns| then Ok([])
    else
      var view := ViewOf(turns[from], message);
      if view.Err? then Err(view.error)
      else
        var rest := SelectedTurns(turns, from + 1, message);
        if rest.Err? then rest else Ok(view.value + rest.value)
  }

  // The accepted compaction of a turn, looked up by its root event.
  ghost predicate LooksUp(turns: seq<seq<Event>>, accepted: map<EventId, TC.Accepted>) {
    forall t :: 0 <= t < |turns| ==>
      && turns[t] != [] && TC.Latest(turns[t]).Ok?
      && TC.Latest(turns[t]).value == (if turns[t][0].id in accepted then Some(accepted[turns[t][0].id]) else None)
  }

  // Roots have distinct identities, so looking up by them finds each turn's own.
  lemma {:induction false} LookupsAgree(events: seq<Event>, digest: string -> string, accepted: map<EventId, TC.Accepted>)
    requires LogValid(events, digest) && AcceptedOf(Slices(events), |Slices(events)|, accepted)
    ensures LooksUp(Slices(events), accepted)
  {
    hide TC.Latest, SnapshotOk, Rooted;
    var turns: seq<seq<Event>> := Slices(events);
    Caches.RootsDistinct(events, |events|);
    forall t | 0 <= t < |turns|
      ensures turns[t] != [] && TC.Latest(turns[t]).Ok?
      ensures TC.Latest(turns[t]).value == (if turns[t][0].id in accepted then Some(accepted[turns[t][0].id]) else None)
    {
      if turns[t][0].id in accepted {
        var u :| 0 <= u < |turns| && turns[u] != [] && turns[u][0].id == turns[t][0].id
                 && TC.Latest(turns[u]) == Ok(Some(accepted[turns[t][0].id]));
        assert u == t;
      }
    }
  }

  method SelectTurns(turns: seq<seq<Event>>, accepted: map<EventId, TC.Accepted>, from: nat, message: string -> string)
    returns (r: Result<seq<Event>, TC.CompactionError>)
    requires LooksUp(turns, accepted) && from <= |turns|
    ensures r == SelectedTurns(turns, from, message)
  {
    hide TC.Latest, View;
    var selected: seq<Event> := [];
    assert SelectedTurns(turns, from, message) == After(selected, SelectedTurns(turns, from, message)) by {
      NothingAfter(SelectedTurns(turns, from, message));
    }
    for i := from to |turns|
      invariant SelectedTurns(turns, from, message) == After(selected, SelectedTurns(turns, i, message))
    {
      var summary := if turns[i][0].id in accepted then Some(SummaryOf(accepted[turns[i][0].id])) else None;
      var view := TurnCompactionView(turns[i], summary, message);
      assert view == ViewOf(turns[i], message);
      if view.Err? {
        return Err(view.error);
      }
      AfterMore(selected, view.value, SelectedTurns(turns, i + 1, message));
      selected := selected + view.value;
    }
    assert SelectedTurns(turns, |turns|, message) == Ok([]) && selected + [] == selected;
    return Ok(selected);
  }

  ghost function After(selected: seq<Event>, rest: Result<seq<Event>, TC.CompactionError>): Result<seq<Event>, TC.CompactionError> {
    if rest.Err? then rest else Ok(selected + rest.value)
  }

  lemma {:induction false} NothingAfter(rest: Result<seq<Event>, TC.CompactionError>)
    ensures After([], rest) == rest
  {
    if rest.Ok? {
      assert [] + rest.value == rest.value;
    }
  }

  lemma {:induction false} AfterMore(selected: seq<Event>, view: seq<Event>, rest: Result<seq<Event>, TC.CompactionError>)
    ensures After(selected, After(view, rest)) == After(selected + view, rest)
  {
    if rest.Ok? {
      assert selected + (view + rest.value) == (selected + view) + rest.value;
    }
  }

  // ---- turnCompactionHiddenEvents ----

  ghost function HiddenOf(turn: seq<Event>): set<EventId> {
    var latest := TC.Latest(turn);
    if latest.Ok? && latest.value.Some? then HiddenBefore(turn, latest.value.value.payload.firstRetainedId, |turn|) else {}
  }

  ghost function HiddenAmong(turns: seq<seq<Event>>, n: nat): set<EventId>
    requires n <= |turns|
  {
    if n == 0 then {} else HiddenAmong(turns, n - 1) + HiddenOf(turns[n - 1])
  }

  // What the compactions of all of a history's turns hide.
  method TurnCompactionHiddenEvents(events: seq<Event>) returns (r: Result<set<EventId>, TC.CompactionError>)
    ensures r.Ok? <==> forall t :: 0 <= t < |Slices(events)| ==> TC.Latest(Slices(events)[t]).Ok?
    ensures r.Ok? ==> r.value == HiddenAmong(Slices(events), |Slices(events)|)
  {
    hide TC.Latest, HiddenBefore;
    var turns := RootTurnSlices(events);
    var hidden: set<EventId> := {};
    for t := 0 to |turns|
      invariant hidden == HiddenAmong(turns, t)
      invariant forall k :: 0 <= k < t ==> TC.Latest(turns[k]).Ok?
    {
      var latest := TC.LatestTurnCompaction(turns[t]);
      if latest.Err? {
        return Err(latest.error);
      }
      if latest.value.Some? {
        var more := HiddenInTurn(turns[t], latest.value.value.payload.firstRetainedId);
        hidden := hidden + more;
      }
    }
    return Ok(hidden);
  }

  // ---- slices are contiguous ----

  lemma {:induction false} FlattenPush(slices: seq<seq<Event>>, t: nat, e: Event)
    requires t <= |slices|
    ensures Flatten((slices + [[e]])[t..]) == Flatten(slices[t..]) + [e]
  {
    assert (slices + [[e]])[t..] == slices[t..] + [[e]];
    FlattenSnoc(slices[t..], [e]);
  }

  lemma {:induction false} FlattenExtend(slices: seq<seq<Event>>, t: nat, e: Event)
    requires t < |slices|
    ensures var last := |slices| - 1;
            Flatten((slices[..last] + [slices[last] + [e]])[t..]) == Flatten(slices[t..]) + [e]
  {
    hide Flatten;
    var last := |slices| - 1;
    var kept, tail := slices[t..last], slices[last];
    assert slices[t..] == kept + [tail];
    assert (slices[..last] + [tail + [e]])[t..] == kept + [tail + [e]];
    FlattenSnoc(kept, tail);
    FlattenSnoc(kept, tail + [e]);
    assert Flatten(kept) + (tail + [e]) == Flatten(kept) + tail + [e];
  }

  // From turn t on, the slices are the events from its root on.
  lemma {:induction false} SlicesSuffix(events: seq<Event>, n: nat, t: nat) returns (k: nat)
    requires n <= |events| && t < |SlicesBefore(events, n)|
    ensures k < n && SlicesBefore(events, n)[t] != [] && SlicesBefore(events, n)[t][0] == events[k] && IsRootUser(events[k])
    ensures Flatten(SlicesBefore(events, n)[t..]) == events[k..n]
  {
    hide Flatten;
    var before, e := SlicesBefore(events, n - 1), events[n - 1];
    if IsRootUser(e) {
      FlattenPush(before, t, e);
      if t == |before| {
        k := n - 1;
        NothingFlat(before[t..]);
        assert events[k..n] == [e];
      } else {
        k := SlicesSuffix(events, n - 1, t);
        assert events[k..n] == events[k..n - 1] + [e];
      }
    } else {
      k := SlicesSuffix(events, n - 1, t);
      FlattenExtend(before, t, e);
      assert events[k..n] == events[k..n - 1] + [e];
    }
  }

  lemma {:induction false} NothingFlat(parts: seq<seq<Event>>)
    requires parts == []
    ensures Flatten(parts) == []
  {
  }

  // ---- selected results are durable results in order ----

  // The results among the selected events are events of the base, in order.
  ghost predicate ResultsOf(selected: seq<Event>, base: seq<Event>) {
    && (forall i :: 0 <= i < |selected| && IsToolResult(selected[i]) ==> selected[i] in base)
    && forall i, j :: 0 <= i < j < |selected| && IsToolResult(selected[i]) && IsToolResult(selected[j]) ==>
         selected[i].sequence < selected[j].sequence
  }

  lemma {:induction false} ResultsOfAll(turn: seq<Event>)
    requires Sequenced(turn)
    ensures ResultsOf(turn, turn)
  {
  }

  lemma {:induction false} ResultsOfPicked(turn: seq<Event>, kept: seq<nat>, marker: Event, retained: nat)
    requires Sequenced(turn) && 1 <= retained < |turn| && Ascends(turn, kept, retained) && !IsToolResult(marker)
    ensures ResultsOf([turn[0], marker] + Pick(turn, kept), turn)
  {
    var view := [turn[0], marker] + Pick(turn, kept);
    assert forall i :: 2 <= i < |view| ==> view[i] == turn[kept[i - 2]];
  }

  lemma {:induction false} ResultsOfView(turn: seq<Event>, message: string -> string)
    requires Sequenced(turn) && ViewOf(turn, message).Ok?
    ensures ResultsOf(ViewOf(turn, message).value, turn)
  {
    hide ResultsOf, TC.Latest;
    var latest := TC.Latest(turn);
    if latest.value.None? {
      ResultsOfAll(turn);
    } else {
      var summary := SummaryOf(latest.value.value);
      var retained := IndexOf(turn, summary.firstRetainedId);
      KeptAscends(turn, retained);
      ResultsOfPicked(turn, Kept(turn, retained), ViewMarker(summary, message), retained);
    }
  }

  lemma {:induction false} ResultsOfBoth(view: seq<Event>, turn: seq<Event>, rest: seq<Event>, base: seq<Event>)
    requires ResultsOf(view, turn) && ResultsOf(rest, base) && Sequenced(turn + base)
    ensures ResultsOf(view + rest, turn + base)
  {
    forall i, j | 0 <= i < j < |view + rest| && IsToolResult((view + rest)[i]) && IsToolResult((view + rest)[j])
      ensures (view + rest)[i].sequence < (view + rest)[j].sequence
    {
      if i < |view| <= j {
        var x, y := view[i], rest[j - |view|];
        var a :| 0 <= a < |turn| && turn[a] == x;
        var b :| 0 <= b < |base| && base[b] == y;
        assert (turn + base)[a] == x && (turn + base)[|turn| + b] == y;
      }
    }
  }

  lemma {:induction false} SequencedParts(a: seq<Event>, b: seq<Event>)
    requires Sequenced(a + b)
    ensures Sequenced(a) && Sequenced(b)
  {
    assert forall i :: 0 <= i < |a| ==> (a + b)[i] == a[i];
    assert forall i :: 0 <= i < |b| ==> (a + b)[|a| + i] == b[i];
  }

  lemma {:induction false} SelectedResults(turns: seq<seq<Event>>, from: nat, message: string -> string)
    requires from <= |turns| && Sequenced(Flatten(turns[from..])) && SelectedTurns(turns, from, message).Ok?
    ensures ResultsOf(SelectedTurns(turns, from, message).value, Flatten(turns[from..]))
    decreases |turns| - from
  {
    hide ResultsOf, ViewOf, Sequenced;
    if from == |turns| {
      NoResults(Flatten(turns[from..]));
    } else {
      assert turns[from..][0] == turns[from] && turns[from..][1..] == turns[from + 1..];
      SequencedParts(turns[from], Flatten(turns[from + 1..]));
      SelectedResults(turns, from + 1, message);
      ResultsOfView(turns[from], message);
      ResultsOfBoth(ViewOf(turns[from], message).value, turns[from],
                    SelectedTurns(turns, from + 1, message).value, Flatten(turns[from + 1..]));
    }
  }

  lemma {:induction false} NoResults(base: seq<Event>)
    ensures ResultsOf([], base)
  {
  }

  lemma {:induction false} SliceDistinct(log: seq<Event>, t: nat)
    requires DistinctIds(log) && t < |Slices(log)|
    ensures DistinctIds(Slices(log)[t])
  {
    hide SlicesBefore;
    var turns: seq<seq<Event>> := Slices(log);
    var k := SlicesSuffix(log, |log|, t);
    AllSlices(log);
    assert turns[t..][0] == turns[t] && Flatten(turns[t..]) == turns[t] + Flatten(turns[t..][1..]);
    assert forall i :: 0 <= i < |turns[t]| ==> turns[t][i] == log[k..][i] == log[k + i];
  }

  // On a history that loads, every turn shows: selection never fails.
  lemma {:induction false} EveryTurnShows(log: seq<Event>, digest: string -> string, from: nat, message: string -> string)
    requires LogValid(log, digest) && from <= |Slices(log)|
    ensures SelectedTurns(Slices(log), from, message).Ok?
    decreases |Slices(log)| - from
  {
    hide TC.Latest, SnapshotOk, Rooted, Slices, View;
    var turns: seq<seq<Event>> := Slices(log);
    if from < |turns| {
      EveryTurnShows(log, digest, from + 1, message);
      SliceDistinct(log, from);
      assert TC.Latest(turns[from]).Ok?;
      if TC.Latest(turns[from]).value.Some? {
        AcceptedViewExists(turns[from], TC.Latest(turns[from]).value.value, message);
      }
    }
  }

  // ---- a request shows what no compaction hides ----

  // Distinct slices share no identity.
  lemma {:induction false} SlicesApart(log: seq<Event>, t: nat, u: nat, i: nat, j: nat)
    requires DistinctIds(log) && t < u < |Slices(log)| && i < |Slices(log)[t]| && j < |Slices(log)[u]|
    ensures Slices(log)[t][i].id != Slices(log)[u][j].id
  {
    hide SlicesBefore, Flatten;
    var turns: seq<seq<Event>> := Slices(log);
    AllSlices(log);
    var k := SlicesSuffix(log, |log|, t);
    var tail := turns[t..];
    assert tail[0] == turns[t] && tail[u - t] == turns[u];
    var b := FlattenHas(tail, u - t, j);
    FlattenOne(tail);
    assert |Flatten(tail[..1])| <= b;
    assert log[k..][i] == log[k + i] && log[k..][b] == log[k + b];
  }

  lemma {:induction false} FlattenOne(tail: seq<seq<Event>>)
    requires tail != []
    ensures Flatten(tail[..1]) == tail[0] && (forall i :: 0 <= i < |tail[0]| ==> i < |Flatten(tail)| && Flatten(tail)[i] == tail[0][i])
  {
    assert tail[..1][1..] == [];
  }

  lemma {:induction false} HiddenSomewhere(turns: seq<seq<Event>>, n: nat, id: EventId)
    requires n <= |turns|
    ensures id in HiddenAmong(turns, n) <==> exists t :: 0 <= t < n && id in HiddenOf(turns[t])
  {
    hide HiddenOf;
    if n > 0 {
      HiddenSomewhere(turns, n - 1, id);
    }
  }

  lemma {:induction false} SelectedSomewhere(turns: seq<seq<Event>>, from: nat, message: string -> string, e: Event)
    requires from <= |turns| && SelectedTurns(turns, from, message).Ok?
    ensures forall t :: from <= t < |turns| ==> ViewOf(turns[t], message).Ok?
    ensures e in SelectedTurns(turns, from, message).value
            <==> exists t :: from <= t < |turns| && e in ViewOf(turns[t], message).value
    decreases |turns| - from
  {
    hide ViewOf;
    if from < |turns| {
      SelectedSomewhere(turns, from + 1, message, e);
    }
  }

  // What a turn shows or hides has the identity of one of its events.
  lemma {:induction false} ShownOfTurn(turn: seq<Event>, message: string -> string, e: Event)
    requires ViewOf(turn, message).Ok? && e in ViewOf(turn, message).value
    ensures exists k :: 0 <= k < |turn| && turn[k].id == e.id
  {
    hide TC.Latest;
    if TC.Latest(turn).value.Some? {
      var a := TC.Latest(turn).value.value;
      AcceptedInTurn(turn, a);
      KeptAscends(turn, IndexOf(turn, a.payload.firstRetainedId));
    }
  }

  lemma {:induction false} HiddenOfTurn(turn: seq<Event>, id: EventId)
    requires id in HiddenOf(turn)
    ensures exists k :: 0 <= k < |turn| && turn[k].id == id
  {
    hide TC.Latest;
  }

  // A turn shows an event of its own exactly when its compaction does not
  // hide it.
  lemma {:induction false} TurnShowsUnhidden(turn: seq<Event>, message: string -> string, k: nat)
    requires k < |turn| && DistinctIds(turn) && IsRootUser(turn[0]) && ViewOf(turn, message).Ok?
    ensures turn[k] in ViewOf(turn, message).value <==> turn[k].id !in HiddenOf(turn)
  {
    hide TC.Latest, View, HiddenBefore;
    if TC.Latest(turn).value.Some? {
      var a := TC.Latest(turn).value.value;
      var summary := SummaryOf(a);
      ViewAndHiddenPartition(turn, summary, message, k);
      MarkerIsNoEvent(turn, a, message, k);
      ShowsOrMarks(View(turn, summary, message).value, turn[k]);
    }
  }

  lemma {:induction false} ShowsOrMarks(view: seq<Event>, e: Event)
    requires |view| > 1 && view[1] != e
    ensures Shows(view, e) <==> e in view
  {
  }

  lemma {:induction false} MarkerIsNoEvent(turn: seq<Event>, a: TC.Accepted, message: string -> string, k: nat)
    requires k < |turn| && DistinctIds(turn) && TC.Latest(turn) == Ok(Some(a)) && View(turn, SummaryOf(a), message).Ok?
    ensures var view := View(turn, SummaryOf(a), message).value; |view| > 1 && view[1] != turn[k]
  {
    AcceptedInTurn(turn, a);
    hide TC.Latest, Kept;
    KeptAscends(turn, IndexOf(turn, a.payload.firstRetainedId));
    var c :| 0 <= c < |turn| && turn[c] == a.event;
    assert c != k ==> turn[c].id != turn[k].id;
  }

  lemma {:induction false} AcceptedInTurn(turn: seq<Event>, a: TC.Accepted)
    requires TC.Latest(turn) == Ok(Some(a))
    ensures a.event in turn && a.event.etype.ContextTurnCompacted?
  {
    hide TC.Check, ValidHistory;
    TC.GroupsInTurn(turn, |turn|);
    TP.AcceptedDescribes(turn, TC.Groups(turn), |turn|);
  }

  // On a history that loads, a request from a root turn on shows exactly the
  // events of the range that no compaction of the history hides: what a
  // wrap-up retains of it.
  lemma {:induction false} SelectedIsUnhidden(log: seq<Event>, digest: string -> string, from: nat, message: string -> string, t: nat, k: nat)
    requires LogValid(log, digest) && from <= t < |Slices(log)| && k < |Slices(log)[t]|
    ensures SelectedTurns(Slices(log), from, message).Ok?
    ensures Slices(log)[t][k] in SelectedTurns(Slices(log), from, message).value
            <==> Slices(log)[t][k].id !in HiddenAmong(Slices(log), |Slices(log)|)
  {
    var turns: seq<seq<Event>> := Slices(log);
    var e := turns[t][k];
    EveryTurnShows(log, digest, from, message);
    SelectedSomewhere(turns, from, message, e);
    HiddenSomewhere(turns, |turns|, e.id);
    SliceDistinct(log, t);
    var first := SlicesSuffix(log, |log|, t);
    TurnShowsUnhidden(turns[t], message, k);
    hide *;
    forall u | from <= u < |turns| && e in ViewOf(turns[u], message).value
      ensures u == t
    {
      ShownOfTurn(turns[u], message, e);
      OneSlice(log, t, k, u);
    }
    forall u | 0 <= u < |turns| && e.id in HiddenOf(turns[u])
      ensures u == t
    {
      HiddenOfTurn(turns[u], e.id);
      OneSlice(log, t, k, u);
    }
  }

  lemma {:induction false} OneSlice(log: seq<Event>, t: nat, k: nat, u: nat)
    requires DistinctIds(log) && t < |Slices(log)| && u < |Slices(log)| && k < |Slices(log)[t]|
    requires exists j :: 0 <= j < |Slices(log)[u]| && Slices(log)[u][j].id == Slices(log)[t][k].id
    ensures u == t
  {
    hide Slices;
    var j :| 0 <= j < |Slices(log)[u]| && Slices(log)[u][j].id == Slices(log)[t][k].id;
    if t < u {
      SlicesApart(log, t, u, k, j);
    } else if u < t {
      SlicesApart(log, u, t, j, k);
    }
  }

  // ---- the range a wrap-up describes ----

  // wrapUpPlaceholders: the retained events that no compaction hides.
  function Retained(events: seq<Event>, hidden: set<EventId>, first: int, last: int): (retained: seq<Event>)
    ensures forall e :: e in retained <==> e in events && first <= e.sequence <= last && e.id !in hidden
  {
    if events == [] then []
    else
      var n := |events| - 1;
      var e := events[n];
      Retained(events[..n], hidden, first, last)
      + (if e.id !in hidden && first <= e.sequence <= last then [e] else [])
  }

  method RetainedEvents(events: seq<Event>, hidden: set<EventId>, first: int, last: int) returns (retained: seq<Event>)
    ensures retained == Retained(events, hidden, first, last)
  {
    retained := [];
    for i := 0 to |events|
      invariant retained == Retained(events[..i], hidden, first, last)
    {
      assert events[..i + 1][..i] == events[..i];
      if events[i].id !in hidden {
        if events[i].sequence >= first && events[i].sequence <= last {
          retained := retained + [events[i]];
        }
      }
    }
    assert events[..|events|] == events;
  }

  lemma {:induction false} RetainedAscends(events: seq<Event>, hidden: set<EventId>, first: int, last: int)
    requires Sequenced(events)
    ensures Sequenced(Retained(events, hidden, first, last))
  {
    if events != [] {
      var n := |events| - 1;
      RetainedAscends(events[..n], hidden, first, last);
      var before := Retained(events[..n], hidden, first, last);
      forall i | 0 <= i < |before|
        ensures before[i].sequence < events[n].sequence
      {
        var k :| 0 <= k < n && events[..n][k] == before[i];
        assert events[k] == before[i];
      }
    }
  }

  // ---- what a request considers for its placeholders ----

  // A request from turn `from` on considers the turns it shows, or, when a
  // wrap-up reduced results, the retained events that nothing hides.
  ghost function Considered(log: seq<Event>, from: nat, message: string -> string, reduced: bool, last: int):
    Result<seq<Event>, TC.CompactionError>
    requires from < |Slices(log)| && Slices(log)[from] != []
  {
    var turns := Slices(log);
    if reduced then Ok(Retained(log, HiddenAmong(turns, |turns|), turns[from][0].sequence, last))
    else SelectedTurns(turns, from, message)
  }

  // Whatever it considers, its results are durable results of the retained
  // range in the log's own order.
  lemma {:induction false} ConsideredResults(log: seq<Event>, from: nat, message: string -> string, reduced: bool, last: int)
    returns (first: nat)
    requires Sequenced(log) && from < |Slices(log)|
    ensures first < |log| && Slices(log)[from] != [] && Slices(log)[from][0] == log[first] && IsRootUser(log[first])
    ensures Flatten(Slices(log)[from..]) == log[first..]
    ensures var r := Considered(log, from, message, reduced, last);
            r.Ok? ==> ResultsOf(r.value, log[first..])
  {
    hide SelectedTurns, Retained, HiddenAmong, ResultsOf, IsRootUser, SlicesBefore, Flatten;
    first := SlicesSuffix(log, |log|, from);
    AllSlices(log);
    if reduced {
      RetainedResults(log, HiddenAmong(Slices(log), |Slices(log)|), first, last);
    } else if SelectedTurns(Slices(log), from, message).Ok? {
      assert log == log[..first] + log[first..];
      SequencedParts(log[..first], log[first..]);
      SelectedResults(Slices(log), from, message);
    }
  }

  lemma {:induction false} RetainedResults(log: seq<Event>, hidden: set<EventId>, first: nat, last: int)
    requires Sequenced(log) && first < |log|
    ensures ResultsOf(Retained(log, hidden, log[first].sequence, last), log[first..])
  {
    var retained := Retained(log, hidden, log[first].sequence, last);
    RetainedAscends(log, hidden, log[first].sequence, last);
    forall i | 0 <= i < |retained|
      ensures retained[i] in log[first..]
    {
      assert retained[i] in retained;
      var k :| 0 <= k < |log| && log[k] == retained[i];
      assert log[first..][k - first] == log[k];
    }
  }
}
