/**
 * What a turn remembers of the events it loaded: decodes, digests, validated
 * in-turn compactions and calibrated ratios
 * (internal/agent/turn_decodes.go, internal/agent/request_history.go).
 */
module TurnCaches {
  import opened Wrappers
  import opened Events
  import opened ContextLog
  import opened EventDecodes
  import TC = TurnCompaction
  import TR = TokenRatio
  import CP = CompactionPlans

  // ---- requestHistory ----

  // One loaded history: a slice is the same history only by identity.
  class Slice {
    const events: seq<Event>

    constructor (events: seq<Event>)
      ensures this.events == events
    {
      this.events := events;
    }
  }

  lemma {:induction false} RatioIsUnique(a: TR.Ratio, b: TR.Ratio, samples: seq<int>)
    requires TR.IsCalibratedRatio(a, samples) && TR.IsCalibratedRatio(b, samples)
    ensures a == b
  {
  }

  class RequestHistory {
    const slice: Slice
    const decodes: TurnDecodes
    const turnCompactions: map<EventId, TC.Accepted>
    var ratios: map<string, TR.Ratio>

    // The histories of a turn are loads of one growing store.
    ghost predicate Valid(store: seq<Event>)
      reads this, decodes
    {
      && decodes.Valid(store) && slice.events <= store && LogValid(slice.events, decodes.digest)
      && AcceptedOf(Slices(slice.events), |Slices(slice.events)|, turnCompactions)
      && forall model :: model in ratios ==> TR.IsCalibratedRatio(ratios[model], TR.Samples(slice.events, model))
    }

    constructor (slice: Slice, decodes: TurnDecodes, turnCompactions: map<EventId, TC.Accepted>)
      ensures this.slice == slice && this.decodes == decodes && this.turnCompactions == turnCompactions && ratios == map[]
    {
      this.slice, this.decodes, this.turnCompactions, ratios := slice, decodes, turnCompactions, map[];
    }

    predicate Holds(other: Slice) {
      other == slice
    }

    // The accepted in-turn compactions of a history, as deriving them afresh
    // finds them.
    method Compactions(other: Slice, ghost store: seq<Event>) returns (r: Result<map<EventId, TC.Accepted>, LogError>)
      requires Valid(store) && other.events <= store
      modifies decodes
      ensures Valid(store)
      ensures r.Ok? <==> LogValid(other.events, decodes.digest)
      ensures r.Ok? ==> AcceptedOf(Slices(other.events), |Slices(other.events)|, r.value)
    {
      hide LogValid, AcceptedOf, TR.IsCalibratedRatio;
      if Holds(other) {
        return Ok(turnCompactions);
      }
      r := DecodedTurnCompactions(decodes, other.events, decodes.digest, store);
    }

    // More events leave a history, its decodes and its ratios valid.
    lemma {:induction false} StillValid(store: seq<Event>, more: seq<Event>)
      requires Valid(store) && Named(store + more)
      ensures Valid(store + more)
    {
      hide LogValid, AcceptedOf, TR.IsCalibratedRatio;
      decodes.StillValid(store, more);
      assert slice.events <= store + more;
    }

    // The calibrated ratio of a history, as deriving it afresh finds it.
    method CalibratedRatio(other: Slice, model: string, ghost store: seq<Event>) returns (ratio: TR.Ratio)
      requires Valid(store) && other.events <= store
      modifies `ratios, decodes
      ensures Valid(store) && TR.IsCalibratedRatio(ratio, TR.Samples(other.events, model))
    {
      hide TR.IsCalibratedRatio, TR.Samples, LogValid, AcceptedOf;
      if Holds(other) && model in ratios {
        return ratios[model];
      }
      ratio := decodes.BytesPerToken(other.events, model, store);
      if Holds(other) {
        ratios := ratios[model := ratio];
      }
    }
  }

  // newRequestHistory: validating the history through the turn's decodes.
  method NewRequestHistory(slice: Slice, decodes: TurnDecodes, ghost store: seq<Event>) returns (r: Result<RequestHistory, LogError>)
    requires decodes.Valid(store) && slice.events <= store
    modifies decodes
    ensures decodes.Valid(store)
    ensures r.Ok? <==> LogValid(slice.events, decodes.digest)
    ensures r.Ok? ==> fresh(r.value) && r.value.Valid(store) && r.value.slice == slice && r.value.decodes == decodes
  {
    hide LogValid, AcceptedOf;
    var compactions := DecodedTurnCompactions(decodes, slice.events, decodes.digest, store);
    if compactions.Err? {
      return Err(compactions.error);
    }
    var history := new RequestHistory(slice, decodes, compactions.value);
    return Ok(history);
  }

  // ---- a turn's accepted compactions are one map ----

  // Turns start with different events of the first n.
  ghost predicate RootsApart(turns: seq<seq<Event>>, events: seq<Event>, n: nat)
    requires n <= |events|
  {
    && (forall t :: 0 <= t < |turns| ==> turns[t] != [])
    && (forall t :: 0 <= t < |turns| ==> turns[t][0] in events[..n])
    && forall t, u :: 0 <= t < u < |turns| ==> turns[t][0].id != turns[u][0].id
  }

  lemma {:induction false} RootsDistinct(events: seq<Event>, n: nat)
    requires n <= |events| && Named(events)
    ensures RootsApart(SlicesBefore(events, n), events, n)
  {
    hide RootsApart, Named;
    if n == 0 {
      NoRoots(events);
    } else {
      RootsDistinct(events, n - 1);
      RootsNext(SlicesBefore(events, n - 1), events, n - 1);
    }
  }

  lemma {:induction false} NoRoots(events: seq<Event>)
    ensures RootsApart([], events, 0)
  {
  }

  // The next event roots a turn of its own or joins the last one.
  lemma {:induction false} RootsNext(turns: seq<seq<Event>>, events: seq<Event>, n: nat)
    requires n < |events| && Named(events) && RootsApart(turns, events, n)
    ensures RootsApart(turns + [[events[n]]], events, n + 1) && RootsApart(turns, events, n + 1)
    ensures turns != [] ==> RootsApart(turns[..|turns| - 1] + [turns[|turns| - 1] + [events[n]]], events, n + 1)
  {
    assert events[..n + 1] == events[..n] + [events[n]];
    forall t | 0 <= t < |turns|
      ensures turns[t][0].id != events[n].id
    {
      NotBefore(events, n, turns[t][0]);
    }
  }

  lemma {:induction false} NotBefore(events: seq<Event>, n: nat, e: Event)
    requires n < |events| && Named(events) && e in events[..n]
    ensures e.id != events[n].id
  {
    var k :| 0 <= k < n && events[..n][k] == e;
    assert events[k] == e;
  }

  lemma {:induction false} AcceptedIsUnique(events: seq<Event>, a: map<EventId, TC.Accepted>, b: map<EventId, TC.Accepted>)
    requires Named(events)
    requires AcceptedOf(Slices(events), |Slices(events)|, a) && AcceptedOf(Slices(events), |Slices(events)|, b)
    ensures a == b
  {
    hide TC.Latest;
    var turns := Slices(events);
    RootsDistinct(events, |events|);
    forall id
      ensures id in a <==> id in b
      ensures id in a ==> a[id] == b[id]
    {
      if id in a {
        SameEntry(turns, a, b, id);
      }
      if id in b {
        SameEntry(turns, b, a, id);
      }
    }
  }

  lemma {:induction false} SameEntry(turns: seq<seq<Event>>, a: map<EventId, TC.Accepted>, b: map<EventId, TC.Accepted>, id: EventId)
    requires AcceptedOf(turns, |turns|, a) && AcceptedOf(turns, |turns|, b) && id in a
    requires forall t :: 0 <= t < |turns| ==> turns[t] != []
    requires forall t, u :: 0 <= t < u < |turns| ==> turns[t][0].id != turns[u][0].id
    ensures id in b && b[id] == a[id]
  {
    hide TC.Latest;
    var t :| 0 <= t < |turns| && turns[t] != [] && turns[t][0].id == id && TC.Latest(turns[t]) == Ok(Some(a[id]));
    assert turns[t][0].id in b;
    var u :| 0 <= u < |turns| && turns[u] != [] && turns[u][0].id == id && TC.Latest(turns[u]) == Ok(Some(b[id]));
    assert t == u;
  }

  // ---- turnEvents ----

  // The stored events after a sequence.
  function EventsAfter(store: seq<Event>, sequence: int): seq<Event> {
    if store == [] then []
    else
      var n := |store| - 1;
      EventsAfter(store[..n], sequence) + (if store[n].sequence > sequence then [store[n]] else [])
  }

  // Loading only what was committed since yields the whole history.
  lemma {:induction false} TailCompletes(store: seq<Event>, n: nat)
    requires Sequenced(store) && 0 < n <= |store|
    ensures store[..n] + EventsAfter(store, store[n - 1].sequence) == store
  {
    TailOf(store, store, n);
  }

  lemma {:induction false} TailOf(store: seq<Event>, part: seq<Event>, n: nat)
    requires Sequenced(store) && part <= store && 0 < n <= |store|
    ensures EventsAfter(part, store[n - 1].sequence) == if n <= |part| then part[n..] else []
  {
    if part != [] {
      var m := |part| - 1;
      assert part[m] == store[m];
      assert part[m].sequence > store[n - 1].sequence <==> n <= m;
      hide Sequenced;
      assert part[..m] <= store;
      TailOf(store, part[..m], n);
      if n <= m {
        DropSnoc(part, n);
      }
    }
  }

  lemma {:induction false} DropSnoc(part: seq<Event>, n: nat)
    requires n < |part|
    ensures part[n..] == part[..|part| - 1][n..] + [part[|part| - 1]]
  {
  }

  method TurnEvents(loaded: seq<Event>, store: seq<Event>, listsTail: bool) returns (events: seq<Event>)
    requires Sequenced(store) && loaded <= store
    ensures events == store
  {
    if !listsTail || |loaded| == 0 {
      return store;
    }
    TailCompletes(store, |loaded|);
    assert store[..|loaded|] == loaded;
    events := loaded + EventsAfter(store, loaded[|loaded| - 1].sequence);
  }

  // ---- the requests of a turn ----

  // What a turn keeps between requests: the history it loaded and what it
  // decoded of it.
  class TurnRequests {
    const decodes: TurnDecodes
    var loaded: seq<Event>

    ghost predicate Valid(store: seq<Event>)
      reads this, decodes
    {
      decodes.Valid(store) && loaded <= store
    }

    constructor (digest: string -> string)
      ensures loaded == [] && fresh(decodes) && decodes.digest == digest
      ensures forall store :: Named(store) ==> Valid(store)
    {
      decodes := new TurnDecodes(digest);
      loaded := [];
    }

    // The next request's history: the whole store, validated through what
    // earlier requests left in the caches, whatever was committed since.
    method NextRequest(store: seq<Event>, listsTail: bool, ghost before: seq<Event>)
      returns (r: Result<RequestHistory, LogError>)
      requires Valid(before) && before <= store && Named(store) && Sequenced(store)
      modifies this, decodes
      ensures Valid(store) && loaded == store
      ensures r.Ok? <==> LogValid(store, decodes.digest)
      ensures r.Ok? ==> r.value.Valid(store) && r.value.slice.events == store && r.value.decodes == decodes
    {
      hide LogValid;
      ghost var more := store[|before|..];
      assert before + more == store;
      decodes.StillValid(before, more);
      loaded := TurnEvents(loaded, store, listsTail);
      var slice := new Slice(loaded);
      r := NewRequestHistory(slice, decodes, store);
    }
  }
}
