/**
 * Whole-turn compaction: root turns, and the validator that re-derives the
 * chain of accepted generations (internal/agent/compaction.go).
 */
module CompactionChain {
  import opened Wrappers
  import opened Events
  import opened History

  datatype ChainError =
    | NotARootTurn
    | BeforeFirstTurn
    | InvalidTurn
    | InvalidPayload
    | MissingReference
    | IllegalStart
    | IllegalEnd
    | IncompleteTurn
    | WrongRetained
    | PrecedesFrontier
    | NotNextGeneration

  // ---- compactionRootTurns ----

  // The root turns of the first n events, without whole-turn compactions.
  function SplitBefore(events: seq<Event>, n: nat): Result<seq<seq<Event>>, ChainError>
    requires n <= |events|
  {
    if n == 0 then Ok([])
    else
      var before := SplitBefore(events, n - 1);
      var e := events[n - 1];
      if before.Err? || e.etype.ContextCompacted? then before
      else if e.etype.UserMessage? then
        if IsRootUser(e) then Ok(before.value + [[e]]) else Err(NotARootTurn)
      else if before.value == [] then Err(BeforeFirstTurn)
      else Ok(before.value[..|before.value| - 1] + [before.value[|before.value| - 1] + [e]])
  }

  function Split(events: seq<Event>): Result<seq<seq<Event>>, ChainError> {
    SplitBefore(events, |events|)
  }

  // How a turn's events end it: with terminal evidence, or by a final
  // assistant without tool calls.
  datatype Ending = Unsafe | Ended | Open(final: bool)

  ghost function EndingBefore(turn: seq<Event>, n: nat): Ending
    requires n <= |turn| && turn != []
  {
    if n == 0 then Open(false)
    else
      var before := EndingBefore(turn, n - 1);
      var e := turn[n - 1];
      if !before.Open? then before
      else if e.etype.AssistantMessage? && !Omitted(turn, n - 1) then Open(Calls(e) == [])
      else if e.etype.TurnFailed? || e.etype.TurnInterrupted? then
        if e.payload.Terminal? && e.payload.turnId == turn[0].id then Ended else Unsafe
      else before
  }

  ghost predicate ValidTurn(turn: seq<Event>) {
    turn != [] && ValidHistory(turn) && !EndingBefore(turn, |turn|).Unsafe?
  }

  ghost predicate TurnEnded(turn: seq<Event>)
    requires turn != []
  {
    EndingBefore(turn, |turn|) == Ended || EndingBefore(turn, |turn|) == Open(true)
  }

  method CompactionTurnComplete(turn: seq<Event>) returns (r: Result<bool, ChainError>)
    requires turn != []
    ensures r.Ok? <==> ValidTurn(turn)
    ensures r.Ok? ==> r.value == TurnEnded(turn)
  {
    var omit := IncompleteToolGroupEvents(turn);
    if omit.Err? {
      return Err(InvalidTurn);
    }
    var final := false;
    for i := 0 to |turn|
      invariant EndingBefore(turn, i) == Open(final)
    {
      assert i in omit.value <==> Omitted(turn, i);
      if turn[i].etype.AssistantMessage? {
        if i !in omit.value {
          final := Calls(turn[i]) == [];
        }
      } else if turn[i].etype.TurnFailed? || turn[i].etype.TurnInterrupted? {
        if !turn[i].payload.Terminal? || turn[i].payload.turnId != turn[0].id {
          EndingStays(turn, i + 1, |turn|);
          return Err(InvalidTurn);
        }
        EndingStays(turn, i + 1, |turn|);
        return Ok(true);
      }
    }
    return Ok(final);
  }

  lemma {:induction false} EndingStays(turn: seq<Event>, k: nat, n: nat)
    requires turn != [] && k <= n <= |turn| && !EndingBefore(turn, k).Open?
    ensures EndingBefore(turn, n) == EndingBefore(turn, k)
  {
    if k < n {
      EndingStays(turn, k, n - 1);
    }
  }

  predicate IsTerminal(e: Event) {
    e.etype.TurnFailed? || e.etype.TurnInterrupted?
  }

  // Event k is the first terminal event of the turn.
  ghost predicate FirstTerminal(turn: seq<Event>, k: nat) {
    k < |turn| && IsTerminal(turn[k]) && forall i :: 0 <= i < k ==> !IsTerminal(turn[i])
  }

  // Event k is the last assistant event of the first n that is not left out.
  ghost predicate LastBefore(turn: seq<Event>, k: nat, n: nat)
    requires n <= |turn|
  {
    && k < n && turn[k].etype.AssistantMessage? && !Omitted(turn, k)
    && forall i :: k < i < n && turn[i].etype.AssistantMessage? ==> Omitted(turn, i)
  }

  // A turn with a terminal event is valid when the first names it, and ended.
  // Without one it has ended exactly when its last assistant event that is
  // not left out asks for no tools.
  lemma {:induction false} EndedExactly(turn: seq<Event>)
    requires turn != [] && ValidHistory(turn)
    ensures forall k: nat :: FirstTerminal(turn, k) ==>
              && (ValidTurn(turn) <==> turn[k].payload.Terminal? && turn[k].payload.turnId == turn[0].id)
              && (ValidTurn(turn) ==> TurnEnded(turn))
    ensures (forall k :: 0 <= k < |turn| ==> !IsTerminal(turn[k])) ==>
              ValidTurn(turn) && (TurnEnded(turn) <==> exists k: nat :: LastBefore(turn, k, |turn|) && Calls(turn[k]) == [])
  {
    forall k: nat | FirstTerminal(turn, k)
      ensures ValidTurn(turn) <==> turn[k].payload.Terminal? && turn[k].payload.turnId == turn[0].id
      ensures ValidTurn(turn) ==> TurnEnded(turn)
    {
      OpenBefore(turn, k);
      EndingStays(turn, k + 1, |turn|);
    }
    if forall k :: 0 <= k < |turn| ==> !IsTerminal(turn[k]) {
      OpenBefore(turn, |turn|);
    }
  }

  // Before any terminal event a turn is open, finally after an assistant
  // event without tool calls, itself the last that is not left out.
  lemma {:induction false} OpenBefore(turn: seq<Event>, n: nat)
    requires turn != [] && n <= |turn| && forall i :: 0 <= i < n ==> !IsTerminal(turn[i])
    ensures EndingBefore(turn, n) == Open(exists k: nat :: LastBefore(turn, k, n) && Calls(turn[k]) == [])
  {
    hide Omitted;
    if n > 0 {
      OpenBefore(turn, n - 1);
      if turn[n - 1].etype.AssistantMessage? && !Omitted(turn, n - 1) {
        assert LastBefore(turn, n - 1, n);
        assert forall k: nat :: LastBefore(turn, k, n) ==> k == n - 1;
      } else {
        assert forall k: nat :: LastBefore(turn, k, n) <==> LastBefore(turn, k, n - 1);
      }
    }
  }

  // A root turn, and whether compaction may cover it.
  datatype RootTurn = RootTurn(events: seq<Event>, complete: bool)

  // A turn is complete when it ended or a later root turn supersedes it.
  ghost predicate AreRootTurns(events: seq<Event>, turns: seq<RootTurn>) {
    && Split(events).Ok? && |turns| == |Split(events).value|
    && forall i :: 0 <= i < |turns| ==>
         && turns[i].events == Split(events).value[i] && ValidTurn(turns[i].events)
         && (turns[i].complete <==> TurnEnded(turns[i].events) || i < |turns| - 1)
  }

  ghost predicate ValidRootTurns(events: seq<Event>) {
    Split(events).Ok? && forall i :: 0 <= i < |Split(events).value| ==> ValidTurn(Split(events).value[i])
  }

  // The root turns of a history whose turns are valid.
  ghost function RootTurnsOf(events: seq<Event>): (turns: seq<RootTurn>)
    requires ValidRootTurns(events)
    ensures AreRootTurns(events, turns)
  {
    var split := Split(events).value;
    seq(|split|, i requires 0 <= i < |split| => RootTurn(split[i], TurnEnded(split[i]) || i < |split| - 1))
  }

  lemma {:induction false} RootTurnsUnique(events: seq<Event>, turns: seq<RootTurn>)
    requires AreRootTurns(events, turns)
    ensures ValidRootTurns(events) && turns == RootTurnsOf(events)
  {
    hide ValidTurn, TurnEnded, Split;
  }

  // The first loop of compactionRootTurns.
  method SplitTurns(events: seq<Event>) returns (r: Result<seq<seq<Event>>, ChainError>)
    ensures r.Ok? <==> Split(events).Ok?
    ensures r.Ok? ==> r == Split(events) && forall i :: 0 <= i < |r.value| ==> r.value[i] != []
  {
    var split: seq<seq<Event>> := [];
    for n := 0 to |events|
      invariant SplitBefore(events, n) == Ok(split)
      invariant forall i :: 0 <= i < |split| ==> split[i] != []
    {
      var e := events[n];
      ghost var before := split;
      if !e.etype.ContextCompacted? {
        if e.etype.UserMessage? {
          if !IsRootUser(e) {
            SplitErr(events, n + 1, |events|);
            return Err(NotARootTurn);
          }
          split := split + [[]];
        }
        if split == [] {
          SplitErr(events, n + 1, |events|);
          return Err(BeforeFirstTurn);
        }
        split := split[..|split| - 1] + [split[|split| - 1] + [e]];
        assert e.etype.UserMessage? ==> [] + [e] == [e] && split == before + [[e]];
      }
    }
    return Ok(split);
  }

  method CompactionRootTurns(events: seq<Event>) returns (r: Result<seq<RootTurn>, ChainError>)
    ensures r.Ok? <==> ValidRootTurns(events)
    ensures r.Ok? ==> AreRootTurns(events, r.value)
  {
    hide Split, ValidTurn, TurnEnded;
    var found := SplitTurns(events);
    if found.Err? {
      return Err(found.error);
    }
    var split := found.value;
    var turns: seq<RootTurn> := [];
    for i := 0 to |split|
      invariant |turns| == i
      invariant forall k :: 0 <= k < i ==>
                  && turns[k].events == split[k] && ValidTurn(split[k])
                  && (turns[k].complete <==> TurnEnded(split[k]) || k < |split| - 1)
    {
      var ended := CompactionTurnComplete(split[i]);
      if ended.Err? {
        return Err(ended.error);
      }
      turns := turns + [RootTurn(split[i], ended.value || i < |split| - 1)];
    }
    return Ok(turns);
  }

  lemma {:induction false} SplitErr(events: seq<Event>, k: nat, n: nat)
    requires k <= n <= |events| && SplitBefore(events, k).Err?
    ensures SplitBefore(events, n).Err?
  {
    if k < n {
      SplitErr(events, k, n - 1);
    }
  }

  // ---- validatedCompactionChain ----

  datatype Position = Position(turn: nat, index: nat)

  // The last of a turn's first n events with the identity, or -1.
  function FindBefore(turn: seq<Event>, id: EventId, n: nat): (i: int)
    requires n <= |turn|
    ensures -1 <= i < n && (i >= 0 ==> turn[i].id == id)
  {
    if n == 0 then -1 else if turn[n - 1].id == id then n - 1 else FindBefore(turn, id, n - 1)
  }

  // Where an identity was last indexed among the first n turns.
  function LocateBefore(turns: seq<RootTurn>, id: EventId, n: nat): (p: Option<Position>)
    requires n <= |turns|
    ensures p.Some? ==> p.value.turn < n && p.value.index < |turns[p.value.turn].events|
                        && turns[p.value.turn].events[p.value.index].id == id
  {
    if n == 0 then None
    else
      var i := FindBefore(turns[n - 1].events, id, |turns[n - 1].events|);
      if i >= 0 then Some(Position(n - 1, i)) else LocateBefore(turns, id, n - 1)
  }

  function Locate(turns: seq<RootTurn>, id: EventId): (p: Option<Position>)
    ensures p.Some? ==> p.value.turn < |turns| && p.value.index < |turns[p.value.turn].events|
                        && turns[p.value.turn].events[p.value.index].id == id
  {
    LocateBefore(turns, id, |turns|)
  }

  ghost predicate Indexes(turns: seq<RootTurn>, positions: map<EventId, Position>) {
    forall id :: (id in positions <==> Locate(turns, id).Some?) && (id in positions ==> Locate(turns, id) == Some(positions[id]))
  }

  method IndexEvents(turns: seq<RootTurn>) returns (positions: map<EventId, Position>)
    ensures Indexes(turns, positions)
  {
    positions := map[];
    for t := 0 to |turns|
      invariant forall id :: (id in positions <==> LocateBefore(turns, id, t).Some?)
                             && (id in positions ==> LocateBefore(turns, id, t) == Some(positions[id]))
    {
      var turn := turns[t].events;
      ghost var earlier := positions;
      for i := 0 to |turn|
        invariant forall id :: id in positions <==> id in earlier || FindBefore(turn, id, i) >= 0
        invariant forall id :: FindBefore(turn, id, i) >= 0 ==> positions[id] == Position(t, FindBefore(turn, id, i))
        invariant forall id :: id in earlier && FindBefore(turn, id, i) < 0 ==> positions[id] == earlier[id]
      {
        positions := positions[turn[i].id := Position(t, i)];
      }
    }
  }

  // An accepted generation: it covers turns first through the one before the
  // first it retains.
  datatype Accepted = Accepted(event: Event, payload: CompactedPayload, firstTurn: nat, firstRetainedTurn: nat)

  // decodeContextCompactionEvent
  predicate Decodes(e: Event) {
    e.parentId == "" && e.role.NoRole? && e.payload.Compacted? && e.payload.compacted.Valid()
  }

  predicate Advances(e: Event, p: CompactedPayload, firstTurn: nat, chain: seq<Accepted>) {
    if chain == [] then p.generation == 1 && p.priorId == "" && firstTurn == 0
    else
      var prior := chain[|chain| - 1];
      && p.ValidateAdvance(prior.event.id, prior.payload)
      && firstTurn == prior.firstRetainedTurn && e.sequence > prior.event.sequence
  }

  // One compaction event on top of the chain accepted before it.
  function Check(turns: seq<RootTurn>, e: Event, chain: seq<Accepted>): Result<Accepted, ChainError> {
    if !Decodes(e) then Err(InvalidPayload)
    else
      var p := e.payload.compacted;
      var (first, last, retained) :=
        (Locate(turns, p.coveredFirstId), Locate(turns, p.coveredLastId), Locate(turns, p.firstRetainedId));
      if first.None? || last.None? || retained.None? then Err(MissingReference)
      else
        var f, l, r := first.value, last.value, retained.value;
        var (firstEvent, lastEvent, retainedEvent) :=
          (turns[f.turn].events[f.index], turns[l.turn].events[l.index], turns[r.turn].events[r.index]);
        if f.index != 0 || !IsRootUser(firstEvent) || firstEvent.sequence != p.coveredFirstSequence then Err(IllegalStart)
        else if lastEvent.sequence != p.coveredLastSequence || l.turn < f.turn
                || l.index != |turns[l.turn].events| - 1 then Err(IllegalEnd)
        else if exists t :: f.turn <= t <= l.turn && !turns[t].complete then Err(IncompleteTurn)
        else if r.index != 0 || r.turn != l.turn + 1 || !IsRootUser(retainedEvent) then Err(WrongRetained)
        else if e.sequence <= lastEvent.sequence || e.sequence <= retainedEvent.sequence then Err(PrecedesFrontier)
        else if !Advances(e, p, f.turn, chain) then Err(NotNextGeneration)
        else Ok(Accepted(e, p, f.turn, r.turn))
  }

  function ChainBefore(events: seq<Event>, turns: seq<RootTurn>, n: nat): Result<seq<Accepted>, ChainError>
    requires n <= |events|
  {
    if n == 0 then Ok([])
    else
      var before := ChainBefore(events, turns, n - 1);
      if before.Err? || !events[n - 1].etype.ContextCompacted? then before
      else
        var checked := Check(turns, events[n - 1], before.value);
        if checked.Err? then Err(checked.error) else Ok(before.value + [checked.value])
  }

  method ValidatedCompactionChain(events: seq<Event>) returns (r: Result<seq<Accepted>, ChainError>)
    ensures r.Ok? <==> ValidRootTurns(events) && ChainBefore(events, RootTurnsOf(events), |events|).Ok?
    ensures r.Ok? ==> r == ChainBefore(events, RootTurnsOf(events), |events|)
  {
    var found := CompactionRootTurns(events);
    if found.Err? {
      return Err(found.error);
    }
    var turns := found.value;
    RootTurnsUnique(events, turns);
    hide Check, AreRootTurns, ValidRootTurns, Indexes, RootTurnsOf;
    var positions := IndexEvents(turns);
    var chain: seq<Accepted> := [];
    for n := 0 to |events|
      invariant ChainBefore(events, turns, n) == Ok(chain)
    {
      ChainNext(events, turns, n, chain);
      hide ChainBefore;
      if events[n].etype.ContextCompacted? {
        var checked := CheckCompaction(turns, positions, events[n], chain);
        if checked.Err? {
          ChainErr(events, turns, n + 1, |events|);
          return Err(checked.error);
        }
        chain := chain + [checked.value];
      }
    }
    return Ok(chain);
  }

  lemma {:induction false} ChainNext(events: seq<Event>, turns: seq<RootTurn>, n: nat, chain: seq<Accepted>)
    requires n < |events| && ChainBefore(events, turns, n) == Ok(chain)
    ensures ChainBefore(events, turns, n + 1) ==
              if !events[n].etype.ContextCompacted? then Ok(chain)
              else
                var checked := Check(turns, events[n], chain);
                if checked.Err? then Err(checked.error) else Ok(chain + [checked.value])
  {
    hide Check;
  }

  method CheckCompaction(turns: seq<RootTurn>, positions: map<EventId, Position>, e: Event, chain: seq<Accepted>)
    returns (r: Result<Accepted, ChainError>)
    requires Indexes(turns, positions)
    ensures r == Check(turns, e, chain)
  {
    if !Decodes(e) {
      return Err(InvalidPayload);
    }
    var p := e.payload.compacted;
    if p.coveredFirstId !in positions || p.coveredLastId !in positions || p.firstRetainedId !in positions {
      return Err(MissingReference);
    }
    var f, l, r' := positions[p.coveredFirstId], positions[p.coveredLastId], positions[p.firstRetainedId];
    var first, last, retained :=
      turns[f.turn].events[f.index], turns[l.turn].events[l.index], turns[r'.turn].events[r'.index];
    if f.index != 0 || !IsRootUser(first) || first.sequence != p.coveredFirstSequence {
      return Err(IllegalStart);
    }
    if last.sequence != p.coveredLastSequence || l.turn < f.turn || l.index != |turns[l.turn].events| - 1 {
      return Err(IllegalEnd);
    }
    for t := f.turn to l.turn + 1
      invariant forall k :: f.turn <= k < t ==> turns[k].complete
    {
      if !turns[t].complete {
        return Err(IncompleteTurn);
      }
    }
    if r'.index != 0 || r'.turn != l.turn + 1 || !IsRootUser(retained) {
      return Err(WrongRetained);
    }
    if e.sequence <= last.sequence || e.sequence <= retained.sequence {
      return Err(PrecedesFrontier);
    }
    if !Advances(e, p, f.turn, chain) {
      return Err(NotNextGeneration);
    }
    return Ok(Accepted(e, p, f.turn, r'.turn));
  }

  lemma {:induction false} ChainErr(events: seq<Event>, turns: seq<RootTurn>, k: nat, n: nat)
    requires k <= n <= |events| && ChainBefore(events, turns, k).Err?
    ensures ChainBefore(events, turns, n).Err?
  {
    hide Check;
    if k < n {
      ChainErr(events, turns, k, n - 1);
    }
  }

  // ---- what an accepted chain covers ----

  // Where the generation after the first i starts.
  function NextTurn(chain: seq<Accepted>, i: nat): nat
    requires i <= |chain|
  {
    if i == 0 then 0 else chain[i - 1].firstRetainedTurn
  }

  // Generation i + 1 follows on the one before it.
  ghost predicate Follows(chain: seq<Accepted>, turns: seq<RootTurn>, i: nat)
    requires i < |chain|
  {
    && chain[i].firstTurn == NextTurn(chain, i) && chain[i].firstTurn < chain[i].firstRetainedTurn < |turns|
    && chain[i].payload.generation == i + 1 && chain[i].payload.priorId == (if i == 0 then "" else chain[i - 1].event.id)
    && (i > 0 ==> chain[i - 1].event.sequence < chain[i].event.sequence) && CoversWhole(chain[i], turns)
  }

  ghost predicate Consecutive(chain: seq<Accepted>, turns: seq<RootTurn>) {
    forall i: nat :: i < |chain| ==> Follows(chain, turns, i)
  }

  // A generation covers whole complete turns: its frontier is the first
  // event of its first turn and the last event of its last, and it was
  // recorded after the first event it retains.
  ghost predicate CoversWhole(a: Accepted, turns: seq<RootTurn>) {
    && a.firstTurn < a.firstRetainedTurn < |turns|
    && (forall t :: a.firstTurn <= t < a.firstRetainedTurn ==> turns[t].complete && turns[t].events != [])
    && turns[a.firstRetainedTurn].events != []
    && var first, covered := turns[a.firstTurn].events[0], turns[a.firstRetainedTurn - 1].events;
    var last, retained := covered[|covered| - 1], turns[a.firstRetainedTurn].events[0];
    && first.id == a.payload.coveredFirstId && first.sequence == a.payload.coveredFirstSequence && IsRootUser(first)
    && last.id == a.payload.coveredLastId && last.sequence == a.payload.coveredLastSequence
    && retained.id == a.payload.firstRetainedId && IsRootUser(retained)
    && a.event.sequence > last.sequence && a.event.sequence > retained.sequence
  }

  lemma {:induction false} ChainConsecutive(events: seq<Event>, turns: seq<RootTurn>, n: nat)
    requires n <= |events| && AreRootTurns(events, turns)
    ensures var r := ChainBefore(events, turns, n); r.Ok? ==> Consecutive(r.value, turns)
  {
    hide *;
    if n == 0 {
      ChainStarts(events, turns);
    } else {
      ChainConsecutive(events, turns, n - 1);
      ChainGrows(events, turns, n);
      var before, after := ChainBefore(events, turns, n - 1), ChainBefore(events, turns, n);
      if after.Ok? && after != before {
        TurnsNonempty(events, turns);
        CheckCovers(turns, events[n - 1], before.value);
        ConsecutiveNext(turns, events[n - 1], before.value, Check(turns, events[n - 1], before.value).value);
      }
    }
  }

  lemma {:induction false} ChainGrows(events: seq<Event>, turns: seq<RootTurn>, n: nat)
    requires 0 < n <= |events|
    ensures var before, after := ChainBefore(events, turns, n - 1), ChainBefore(events, turns, n);
            after.Ok? ==>
              && before.Ok?
              && (|| after == before
                  || (&& Check(turns, events[n - 1], before.value).Ok?
                      && after.value == before.value + [Check(turns, events[n - 1], before.value).value]))
  {
    hide Check;
  }

  lemma {:induction false} ChainStarts(events: seq<Event>, turns: seq<RootTurn>)
    ensures ChainBefore(events, turns, 0) == Ok([]) && Consecutive([], turns)
  {
  }

  lemma {:induction false} TurnsNonempty(events: seq<Event>, turns: seq<RootTurn>)
    requires AreRootTurns(events, turns)
    ensures forall t :: 0 <= t < |turns| ==> turns[t].events != []
  {
  }

  lemma {:induction false} CheckCovers(turns: seq<RootTurn>, e: Event, chain: seq<Accepted>)
    requires Check(turns, e, chain).Ok? && forall t :: 0 <= t < |turns| ==> turns[t].events != []
    ensures CoversWhole(Check(turns, e, chain).value, turns)
    ensures Advances(e, e.payload.compacted, Check(turns, e, chain).value.firstTurn, chain)
    ensures Check(turns, e, chain).value.payload == e.payload.compacted && Check(turns, e, chain).value.event == e
  {
  }

  lemma {:induction false} ConsecutiveNext(turns: seq<RootTurn>, e: Event, chain: seq<Accepted>, a: Accepted)
    requires Consecutive(chain, turns) && CoversWhole(a, turns) && Advances(e, a.payload, a.firstTurn, chain) && a.event == e
    ensures Consecutive(chain + [a], turns)
  {
    var more := chain + [a];
    forall i: nat | i < |more|
      ensures Follows(more, turns, i)
    {
      if i < |chain| {
        assert Follows(chain, turns, i);
      } else if i > 0 {
        assert Follows(chain, turns, i - 1);
      }
    }
  }

  // Accepted generations cover consecutive runs of whole root turns from the
  // first turn on: each turn is covered by exactly one generation or retained.
  lemma {:induction false} EachTurnOnce(events: seq<Event>, turns: seq<RootTurn>, chain: seq<Accepted>, t: nat)
    requires AreRootTurns(events, turns) && ChainBefore(events, turns, |events|) == Ok(chain) && t < |turns|
    ensures chain == [] || chain[|chain| - 1].firstRetainedTurn <= t ==>
              forall i :: 0 <= i < |chain| ==> !(chain[i].firstTurn <= t < chain[i].firstRetainedTurn)
    ensures chain != [] && t < chain[|chain| - 1].firstRetainedTurn ==>
              exists i :: 0 <= i < |chain| && chain[i].firstTurn <= t < chain[i].firstRetainedTurn
                          && forall j :: 0 <= j < |chain| && j != i ==> !(chain[j].firstTurn <= t < chain[j].firstRetainedTurn)
  {
    hide CoversWhole, ChainBefore, AreRootTurns;
    ChainConsecutive(events, turns, |events|);
    forall i: nat, j: nat | i < j < |chain|
      ensures chain[i].firstRetainedTurn <= chain[j].firstTurn
    {
      RetainedBefore(chain, turns, i, j);
    }
    if chain != [] && t < chain[|chain| - 1].firstRetainedTurn {
      var i := CoveringGeneration(chain, turns, t, |chain|);
      assert forall j :: 0 <= j < |chain| && j != i ==> chain[j].firstRetainedTurn <= chain[i].firstTurn || chain[i].firstRetainedTurn <= chain[j].firstTurn;
    } else if chain != [] {
      forall i | 0 <= i < |chain|
        ensures chain[i].firstRetainedTurn <= t
      {
        assert Follows(chain, turns, |chain| - 1);
        if i < |chain| - 1 {
          RetainedBefore(chain, turns, i, |chain| - 1);
        }
      }
    }
  }

  lemma {:induction false} RetainedBefore(chain: seq<Accepted>, turns: seq<RootTurn>, i: nat, j: nat)
    requires i < j < |chain| && Consecutive(chain, turns)
    ensures chain[i].firstRetainedTurn <= chain[j].firstTurn
  {
    assert Follows(chain, turns, j) && Follows(chain, turns, j - 1);
    if i < j - 1 {
      RetainedBefore(chain, turns, i, j - 1);
    }
  }

  lemma {:induction false} CoveringGeneration(chain: seq<Accepted>, turns: seq<RootTurn>, t: nat, n: nat) returns (i: nat)
    requires 0 < n <= |chain| && Consecutive(chain, turns) && t < chain[n - 1].firstRetainedTurn
    ensures i < n && chain[i].firstTurn <= t < chain[i].firstRetainedTurn
  {
    assert Follows(chain, turns, n - 1);
    if chain[n - 1].firstTurn <= t {
      i := n - 1;
    } else {
      i := CoveringGeneration(chain, turns, t, n - 1);
    }
  }
}
