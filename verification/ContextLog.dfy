/**
 * The validator of a durable history's context records: its snapshots and
 * in-turn compactions (internal/agent/context.go, turn_compaction.go).
 */
module ContextLog {
  import opened Wrappers
  import opened Events
  import opened EventDecodes
  import opened History
  import TC = TurnCompaction
  import CC = CompactionChain

  datatype LogError =
    | UnnamedEvent
    | RepeatedEvent
    | InvalidTurn(error: TC.CompactionError)
    | OutsideTurns
    | InvalidSnapshot

  // ---- rootTurnSlices ----

  // The contiguous root turns of the first n events.
  function SlicesBefore(events: seq<Event>, n: nat): seq<seq<Event>>
    requires n <= |events|
  {
    if n == 0 then []
    else
      var before, e := SlicesBefore(events, n - 1), events[n - 1];
      if IsRootUser(e) then before + [[e]]
      else if before == [] then []
      else before[..|before| - 1] + [before[|before| - 1] + [e]]
  }

  function Slices(events: seq<Event>): seq<seq<Event>> {
    SlicesBefore(events, |events|)
  }

  method RootTurnSlices(events: seq<Event>) returns (turns: seq<seq<Event>>)
    ensures turns == Slices(events)
    ensures forall t :: 0 <= t < |turns| ==> turns[t] != []
  {
    turns := [];
    var start := -1;
    NoSlices(events);
    hide *;
    for i := 0 to |events|
      invariant -1 <= start <= i && (start < 0 ==> turns == [])
      invariant start >= 0 ==> start < i
      invariant SlicesBefore(events, i) == if start < 0 then [] else turns + [events[start..i]]
      invariant forall t :: 0 <= t < |turns| ==> turns[t] != []
    {
      SliceStep(events, i, turns, start);
      if IsRootUser(events[i]) {
        if start >= 0 {
          turns := turns + [events[start..i]];
        }
        start := i;
      }
    }
    AllSlices(events);
    if start >= 0 {
      turns := turns + [events[start..]];
      assert events[start..] == events[start..|events|];
    }
  }

  lemma {:induction false} NoSlices(events: seq<Event>)
    ensures SlicesBefore(events, 0) == []
  {
  }

  lemma {:induction false} AllSlices(events: seq<Event>)
    ensures SlicesBefore(events, |events|) == Slices(events)
  {
  }

  // The next event starts a slice or extends the one that is open.
  lemma {:induction false} SliceStep(events: seq<Event>, i: nat, turns: seq<seq<Event>>, start: int)
    requires -1 <= start <= i < |events| && (start >= 0 ==> start < i) && (start < 0 ==> turns == [])
    requires SlicesBefore(events, i) == if start < 0 then [] else turns + [events[start..i]]
    ensures SlicesBefore(events, i + 1) ==
              if IsRootUser(events[i]) then (if start < 0 then [] else turns + [events[start..i]]) + [events[i..i + 1]]
              else if start < 0 then [] else turns + [events[start..i + 1]]
  {
    assert events[i..i + 1] == [events[i]];
    if start >= 0 {
      var slices := turns + [events[start..i]];
      assert slices[..|slices| - 1] == turns && slices[|slices| - 1] == events[start..i];
      assert events[start..i + 1] == events[start..i] + [events[i]];
    }
  }

  // ---- one snapshot ----

  // The last of the first n events with the identity.
  function Find(events: seq<Event>, id: EventId, n: nat): (i: Option<nat>)
    requires n <= |events|
    ensures i.Some? ==> i.value < n && events[i.value].id == id
  {
    if n == 0 then None else if events[n - 1].id == id then Some(n - 1) else Find(events, id, n - 1)
  }

  // The latest in-turn compaction of the root turn that the first n events end in.
  function ActiveBefore(events: seq<Event>, n: nat): EventId
    requires n <= |events|
  {
    if n == 0 || IsRootUser(events[n - 1]) then ""
    else if events[n - 1].etype.ContextTurnCompacted? then events[n - 1].id
    else ActiveBefore(events, n - 1)
  }

  predicate IsTrigger(e: Event) {
    e.etype.UserMessage? || IsToolResult(e)
  }

  // Where a snapshot's parent is: right before it, before its compaction, or
  // before the rejected request's snapshot and the retry's compaction.
  predicate Follows(events: seq<Event>, i: nat, parent: nat)
    requires parent < i < |events|
  {
    || parent == i - 1
    || (parent == i - 2 && CompactionBetween(events, i))
    || (parent == i - 3 && events[i - 2].etype.ContextSnapshot? && events[i - 2].parentId == events[i].parentId
        && CompactionBetween(events, i))
  }

  // The compaction between a snapshot and its trigger.
  predicate CompactionBetween(events: seq<Event>, i: nat)
    requires 0 < i < |events|
  {
    var e, c := events[i], events[i - 1];
    if c.etype.ContextCompacted? then
      && e.payload.Snapshot? && e.payload.snapshot.activeCompactionId == c.id
      && CC.Decodes(c) && c.payload.compacted.trigger.Automatic?
      && e.payload.snapshot.retainedFirstId == c.payload.compacted.firstRetainedId
    else c.etype.ContextTurnCompacted? && c.parentId == e.parentId
  }

  // A placeholder describes a tool result of the retained range, after the one before it.
  predicate Describes(events: seq<Event>, digest: string -> string, p: Placeholder, n: nat, first: int, last: int, previous: int)
    requires n <= |events|
  {
    var found := Find(events, p.eventId, n);
    found.Some? &&
    var e := events[found.value];
    && first <= e.sequence <= last && IsToolResult(e) && e.sequence > previous
    && p.originalBytes == |e.content| && p.digest == digest(e.content)
  }

  function PreviousSequence(events: seq<Event>, placeholders: seq<Placeholder>, n: nat, k: nat): int
    requires n <= |events| && k <= |placeholders|
  {
    if k == 0 || Find(events, placeholders[k - 1].eventId, n).None? then 0
    else events[Find(events, placeholders[k - 1].eventId, n).value].sequence
  }

  predicate PlaceholderAt(events: seq<Event>, digest: string -> string, placeholders: seq<Placeholder>, n: nat,
                          first: int, last: int, k: nat)
    requires n <= |events| && k < |placeholders|
  {
    Describes(events, digest, placeholders[k], n, first, last, PreviousSequence(events, placeholders, n, k))
  }

  predicate PlaceholdersOk(events: seq<Event>, digest: string -> string, placeholders: seq<Placeholder>, n: nat, first: int, last: int)
    requires n <= |events|
  {
    forall k: nat :: k < |placeholders| ==> PlaceholderAt(events, digest, placeholders, n, first, last, k)
  }

  predicate SnapshotOk(events: seq<Event>, digest: string -> string, i: nat)
    requires i < |events|
  {
    var e := events[i];
    SnapshotDecodes(e) &&
    var p, parent := e.payload.snapshot, Find(events, e.parentId, i);
    parent.Some? && Follows(events, i, parent.value) &&
    var trigger, first := events[parent.value], Find(events, p.retainedFirstId, i);
    && p.activeTurnCompactionId == ActiveBefore(events, i)
    && IsTrigger(trigger)
    && p.retainedLastId == trigger.id && p.retainedLastSequence == trigger.sequence
    && first.Some?
    && events[first.value].sequence == p.retainedFirstSequence && IsRootUser(events[first.value])
    && events[first.value].sequence <= trigger.sequence
    && PlaceholdersOk(events, digest, p.placeholders, i, events[first.value].sequence, trigger.sequence)
  }

  // ---- what an accepted snapshot says ----

  // The in-turn compaction the first n events end with: the last of the root
  // turn they end in, or none.
  ghost predicate IsActiveSummary(events: seq<Event>, n: nat, id: EventId)
    requires n <= |events|
  {
    || (exists c: nat :: IsLastCompaction(events, n, c) && events[c].id == id)
    || (id == "" && forall c: nat :: !IsLastCompaction(events, n, c))
  }

  ghost predicate IsLastCompaction(events: seq<Event>, n: nat, c: nat)
    requires n <= |events|
  {
    && c < n && events[c].etype.ContextTurnCompacted?
    && forall k :: c < k < n ==> !IsRootUser(events[k]) && !events[k].etype.ContextTurnCompacted?
  }

  // Event q triggered the snapshot i: it is right before it, but for a
  // compaction this snapshot names, and for the rejected request's snapshot.
  ghost predicate Triggers(events: seq<Event>, q: nat, i: nat) {
    && q < i < |events| && events[q].id == events[i].parentId && (events[q].etype.UserMessage? || IsToolResult(events[q]))
    && events[i].payload.Snapshot?
    && var p, c := events[i].payload.snapshot, events[i - 1];
    q + 1 != i ==>
      && (q + 2 == i || (q + 3 == i && events[i - 2].etype.ContextSnapshot? && events[i - 2].parentId == events[i].parentId))
      && (if c.etype.ContextCompacted?
          then CC.Decodes(c) && c.payload.compacted.trigger.Automatic? && p.activeCompactionId == c.id
               && p.retainedFirstId == c.payload.compacted.firstRetainedId
          else c.etype.ContextTurnCompacted? && c.parentId == events[i].parentId)
  }

  // The placeholders describe the tool results at these places: each is
  // durable, within the retained range, and of that size and digest, and they
  // are in order.
  ghost predicate Described(events: seq<Event>, digest: string -> string, placeholders: seq<Placeholder>, i: nat, first: int, last: int,
                            at: seq<nat>)
    requires i <= |events|
  {
    && |at| == |placeholders|
    && (forall k :: 0 <= k < |at| ==>
          && at[k] < i && IsToolResult(events[at[k]]) && first <= events[at[k]].sequence <= last && events[at[k]].sequence > 0
          && placeholders[k] == Placeholder(events[at[k]].id, |events[at[k]].content|, digest(events[at[k]].content)))
    && forall j, k :: 0 <= j < k < |at| ==> events[at[j]].sequence < events[at[k]].sequence
  }

  ghost predicate SnapshotSays(events: seq<Event>, digest: string -> string, i: nat, q: nat, f: nat, at: seq<nat>)
    requires i < |events|
  {
    var e := events[i];
    && e.role.NoRole? && e.content == "" && e.parentId != "" && Triggers(events, q, i)
    && var p := e.payload.snapshot;
    && p.retainedLastId == events[q].id && p.retainedLastSequence == events[q].sequence
    && f < i && p.retainedFirstId == events[f].id && p.retainedFirstSequence == events[f].sequence
    && IsRootUser(events[f]) && events[f].sequence <= events[q].sequence
    && IsActiveSummary(events, i, p.activeTurnCompactionId)
    && Described(events, digest, p.placeholders, i, events[f].sequence, events[q].sequence, at)
  }

  // A snapshot is accepted exactly when what it says is so.
  lemma {:induction false} SnapshotExactly(events: seq<Event>, digest: string -> string, i: nat)
    requires i < |events| && Named(events)
    ensures SnapshotOk(events, digest, i) <==> exists q: nat, f: nat, at: seq<nat> :: SnapshotSays(events, digest, i, q, f, at)
  {
    if SnapshotOk(events, digest, i) {
      AcceptedSays(events, digest, i);
    }
    forall q: nat, f: nat, at: seq<nat> | SnapshotSays(events, digest, i, q, f, at)
      ensures SnapshotOk(events, digest, i)
    {
      SaysAccepted(events, digest, i, q, f, at);
    }
  }

  lemma {:induction false} AcceptedSays(events: seq<Event>, digest: string -> string, i: nat)
    requires i < |events| && Named(events) && SnapshotOk(events, digest, i)
    ensures exists q: nat, f: nat, at: seq<nat> :: SnapshotSays(events, digest, i, q, f, at)
  {
    hide Named, PlaceholdersOk, ActiveBefore, IsActiveSummary, Described, Find;
    var e := events[i];
    var p := e.payload.snapshot;
    var q, f := Find(events, e.parentId, i).value, Find(events, p.retainedFirstId, i).value;
    ActiveIs(events, i);
    var at := PlaceholdersDescribed(events, digest, p.placeholders, i, events[f].sequence, events[q].sequence);
    assert SnapshotSays(events, digest, i, q, f, at);
  }

  lemma {:induction false} SaysAccepted(events: seq<Event>, digest: string -> string, i: nat, q: nat, f: nat, at: seq<nat>)
    requires i < |events| && Named(events) && SnapshotSays(events, digest, i, q, f, at)
    ensures SnapshotOk(events, digest, i)
  {
    FindIs(events, q, i);
    FindIs(events, f, i);
    hide Named, PlaceholdersOk, ActiveBefore, IsActiveSummary, Described, Find;
    ActiveIs(events, i);
    ActiveIsOne(events, i, events[i].payload.snapshot.activeTurnCompactionId);
    DescribedOk(events, digest, events[i].payload.snapshot.placeholders, i, events[f].sequence, events[q].sequence, at);
  }

  lemma {:induction false} FindIs(events: seq<Event>, j: nat, n: nat)
    requires j < n <= |events| && Named(events)
    ensures Find(events, events[j].id, n) == Some(j)
  {
    if j < n - 1 {
      assert events[j].id != events[n - 1].id;
      FindIs(events, j, n - 1);
    }
  }

  lemma {:induction false} ActiveIs(events: seq<Event>, n: nat)
    requires n <= |events|
    ensures IsActiveSummary(events, n, ActiveBefore(events, n))
  {
    if n > 0 {
      ActiveIs(events, n - 1);
      if events[n - 1].etype.ContextTurnCompacted? && !IsRootUser(events[n - 1]) {
        assert IsLastCompaction(events, n, n - 1);
      } else if !IsRootUser(events[n - 1]) {
        assert forall c: nat :: IsLastCompaction(events, n, c) <==> IsLastCompaction(events, n - 1, c);
      }
    }
  }

  lemma {:induction false} ActiveIsOne(events: seq<Event>, n: nat, id: EventId)
    requires n <= |events| && IsActiveSummary(events, n, id)
    ensures id == ActiveBefore(events, n)
  {
    ActiveIs(events, n);
    hide ActiveBefore;
    forall c: nat, d: nat | IsLastCompaction(events, n, c) && IsLastCompaction(events, n, d)
      ensures c == d
    {
    }
  }

  lemma {:induction false} PlaceholdersDescribed(events: seq<Event>, digest: string -> string, placeholders: seq<Placeholder>, i: nat,
                                                 first: int, last: int) returns (at: seq<nat>)
    requires i <= |events| && PlaceholdersOk(events, digest, placeholders, i, first, last)
    ensures Described(events, digest, placeholders, i, first, last, at)
    ensures forall k :: 0 <= k < |at| ==> Find(events, placeholders[k].eventId, i) == Some(at[k])
  {
    at := [];
    for n := 0 to |placeholders|
      invariant Described(events, digest, placeholders[..n], i, first, last, at)
      invariant forall k :: 0 <= k < |at| ==> Find(events, placeholders[k].eventId, i) == Some(at[k])
    {
      assert PlaceholderAt(events, digest, placeholders, i, first, last, n);
      at := at + [Find(events, placeholders[n].eventId, i).value];
      assert placeholders[..n + 1] == placeholders[..n] + [placeholders[n]];
    }
    assert placeholders[..|placeholders|] == placeholders;
  }

  lemma {:induction false} DescribedOk(events: seq<Event>, digest: string -> string, placeholders: seq<Placeholder>, i: nat,
                                       first: int, last: int, at: seq<nat>)
    requires i <= |events| && Named(events) && Described(events, digest, placeholders, i, first, last, at)
    ensures PlaceholdersOk(events, digest, placeholders, i, first, last)
  {
    forall k: nat | k < |placeholders|
      ensures PlaceholderAt(events, digest, placeholders, i, first, last, k)
    {
      FindIs(events, at[k], i);
      if k > 0 {
        FindIs(events, at[k - 1], i);
        assert events[at[k - 1]].sequence < events[at[k]].sequence;
      }
    }
  }

  // ---- decodedTurnCompactions ----

  predicate Rooted(events: seq<Event>, i: nat)
    requires i < |events|
  {
    events[i].etype.ContextTurnCompacted? ==> exists r :: 0 <= r < i && IsRootUser(events[r])
  }

  // The next load accepts these context records.
  ghost predicate LogValid(events: seq<Event>, digest: string -> string) {
    && Named(events)
    && (forall t :: 0 <= t < |Slices(events)| ==> TC.Latest(Slices(events)[t]).Ok?)
    && (forall i: nat :: i < |events| ==> Rooted(events, i))
    && forall i: nat :: i < |events| && events[i].etype.ContextSnapshot? ==> SnapshotOk(events, digest, i)
  }

  // Each entry is the latest compaction of a turn with the identity, and each
  // turn's latest has an entry.
  ghost predicate AcceptedOf(turns: seq<seq<Event>>, n: nat, accepted: map<EventId, TC.Accepted>)
    requires n <= |turns|
  {
    && (forall id :: id in accepted ==>
          exists t :: 0 <= t < n && turns[t] != [] && turns[t][0].id == id && TC.Latest(turns[t]) == Ok(Some(accepted[id])))
    && forall t :: 0 <= t < n && turns[t] != [] && TC.Latest(turns[t]).Ok? && TC.Latest(turns[t]).value.Some? ==>
         turns[t][0].id in accepted
  }

  ghost predicate Indexes(events: seq<Event>, n: nat, byId: map<EventId, nat>)
    requires n <= |events|
  {
    forall id :: (id in byId <==> Find(events, id, n).Some?) && (id in byId ==> Find(events, id, n) == Some(byId[id]))
  }

  method IndexEvents(events: seq<Event>) returns (r: Result<map<EventId, nat>, LogError>)
    ensures r.Ok? <==> Named(events)
    ensures r.Ok? ==> Indexes(events, |events|, r.value)
  {
    var byId: map<EventId, nat> := map[];
    for i := 0 to |events|
      invariant Named(events[..i]) && Indexes(events, i, byId)
    {
      NamedNext(events, i);
      if events[i].id == "" {
        return Err(UnnamedEvent);
      }
      if events[i].id in byId {
        return Err(RepeatedEvent);
      }
      byId := byId[events[i].id := i];
    }
    assert events[..|events|] == events;
    return Ok(byId);
  }

  lemma {:induction false} NamedNext(events: seq<Event>, i: nat)
    requires i < |events| && Named(events[..i])
    ensures Named(events[..i + 1]) <==> events[i].id != "" && Find(events, events[i].id, i).None?
    ensures Named(events) ==> Named(events[..i + 1])
  {
    var next := events[..i + 1];
    FindNone(events, events[i].id, i);
    assert forall k :: 0 <= k < i ==> next[k] == events[..i][k] == events[k];
    assert next[i] == events[i];
    if Find(events, events[i].id, i).Some? {
      assert next[Find(events, events[i].id, i).value].id == next[i].id;
    }
  }

  lemma {:induction false} FindNone(events: seq<Event>, id: EventId, n: nat)
    requires n <= |events|
    ensures Find(events, id, n).None? <==> forall k :: 0 <= k < n ==> events[k].id != id
  {
    if n > 0 {
      FindNone(events, id, n - 1);
    }
  }

  // Identities are distinct, so the index finds what a shorter search finds.
  lemma {:induction false} FindWithin(events: seq<Event>, id: EventId, i: nat, n: nat)
    requires i <= n <= |events| && Named(events)
    ensures Find(events, id, i) == (if Find(events, id, n).Some? && Find(events, id, n).value < i then Find(events, id, n) else None)
  {
    if i < n {
      if events[n - 1].id == id {
        FindNone(events, id, i);
      } else {
        FindWithin(events, id, i, n - 1);
      }
    }
  }

  // Each earlier placeholder's event is no later than the previous one's.
  ghost predicate SeenBy(events: seq<Event>, seen: set<EventId>, i: nat, previous: int)
    requires i <= |events|
  {
    forall id :: id in seen ==> Find(events, id, i).Some? && events[Find(events, id, i).value].sequence <= previous
  }

  // The turn's decodes, when there are any, are of a store that begins with
  // these events.
  ghost predicate Serves(decodes: TurnDecodes?, events: seq<Event>, digest: string -> string, store: seq<Event>)
    reads decodes
  {
    decodes != null ==> decodes.digest == digest && decodes.Valid(store) && events <= store
  }

  method CheckPlaceholder(decodes: TurnDecodes?, events: seq<Event>, digest: string -> string, byId: map<EventId, nat>,
                          p: Placeholder, i: nat, first: int, last: int, seen: set<EventId>, previous: int,
                          ghost store: seq<Event>)
    returns (ok: bool)
    requires Serves(decodes, events, digest, store)
    requires Named(events) && Indexes(events, |events|, byId) && i < |events| && SeenBy(events, seen, i, previous)
    modifies decodes
    ensures Serves(decodes, events, digest, store)
    ensures ok == Describes(events, digest, p, i, first, last, previous)
    ensures ok ==> p.eventId in byId && byId[p.eventId] < i && Find(events, p.eventId, i) == Some(byId[p.eventId])
  {
    FindWithin(events, p.eventId, i, |events|);
    if p.eventId !in byId || byId[p.eventId] >= i {
      return false;
    }
    var e := events[byId[p.eventId]];
    if e.sequence < first || e.sequence > last || !IsToolResult(e) {
      return false;
    }
    if p.eventId in seen || e.sequence <= previous {
      return false;
    }
    if p.originalBytes != |e.content| {
      return false;
    }
    assert decodes != null ==> e == store[byId[p.eventId]];
    var hex := DigestOf(decodes, digest, e, store);
    return p.digest == hex;
  }

  method CheckPlaceholders(decodes: TurnDecodes?, events: seq<Event>, digest: string -> string, byId: map<EventId, nat>,
                           placeholders: seq<Placeholder>, i: nat, first: int, last: int, ghost store: seq<Event>)
    returns (ok: bool)
    requires Serves(decodes, events, digest, store)
    requires Named(events) && Indexes(events, |events|, byId) && i < |events|
    modifies decodes
    ensures Serves(decodes, events, digest, store)
    ensures ok == PlaceholdersOk(events, digest, placeholders, i, first, last)
  {
    hide Named, Indexes, Describes, Serves;
    var seen: set<EventId> := {};
    var previous := 0;
    for k := 0 to |placeholders|
      invariant Serves(decodes, events, digest, store)
      invariant previous == PreviousSequence(events, placeholders, i, k)
      invariant forall j: nat :: j < k ==> PlaceholderAt(events, digest, placeholders, i, first, last, j)
      invariant SeenBy(events, seen, i, previous)
    {
      var matches := CheckPlaceholder(decodes, events, digest, byId, placeholders[k], i, first, last, seen, previous, store);
      if !matches {
        assert !PlaceholderAt(events, digest, placeholders, i, first, last, k);
        return false;
      }
      Later(events, digest, placeholders[k], i, first, last, previous);
      seen := seen + {placeholders[k].eventId};
      previous := events[byId[placeholders[k].eventId]].sequence;
    }
    return true;
  }

  lemma {:induction false} Later(events: seq<Event>, digest: string -> string, p: Placeholder, n: nat, first: int, last: int, previous: int)
    requires n <= |events| && Describes(events, digest, p, n, first, last, previous)
    ensures Find(events, p.eventId, n).Some? && events[Find(events, p.eventId, n).value].sequence > previous
  {
  }

  method CheckSnapshot(decodes: TurnDecodes?, events: seq<Event>, digest: string -> string, byId: map<EventId, nat>, i: nat,
                       active: EventId, ghost store: seq<Event>)
    returns (ok: bool)
    requires Serves(decodes, events, digest, store)
    requires Named(events) && Indexes(events, |events|, byId) && i < |events| && active == ActiveBefore(events, i)
    modifies decodes
    ensures Serves(decodes, events, digest, store)
    ensures ok == SnapshotOk(events, digest, i)
  {
    var e := events[i];
    assert decodes != null ==> e == store[i];
    var decoded := SnapshotOf(decodes, e, store);
    if decoded.None? {
      return false;
    }
    var p := decoded.value;
    FindWithin(events, e.parentId, i, |events|);
    FindWithin(events, p.retainedFirstId, i, |events|);
    if e.parentId !in byId || byId[e.parentId] >= i {
      return false;
    }
    var parent := byId[e.parentId];
    if !Follows(events, i, parent) || p.activeTurnCompactionId != active {
      return false;
    }
    var trigger := events[parent];
    if !IsTrigger(trigger) || p.retainedLastId != trigger.id || p.retainedLastSequence != trigger.sequence {
      return false;
    }
    if p.retainedFirstId !in byId || byId[p.retainedFirstId] >= i {
      return false;
    }
    var first := events[byId[p.retainedFirstId]];
    if first.sequence != p.retainedFirstSequence || !IsRootUser(first) || first.sequence > trigger.sequence {
      return false;
    }
    ok := CheckPlaceholders(decodes, events, digest, byId, p.placeholders, i, first.sequence, trigger.sequence, store);
  }

  // The validator, over what the turn has already decoded when there is such.
  method DecodedTurnCompactions(decodes: TurnDecodes?, events: seq<Event>, digest: string -> string, ghost store: seq<Event>)
    returns (r: Result<map<EventId, TC.Accepted>, LogError>)
    requires Serves(decodes, events, digest, store)
    modifies decodes
    ensures Serves(decodes, events, digest, store)
    ensures r.Ok? <==> LogValid(events, digest)
    ensures r.Ok? ==> AcceptedOf(Slices(events), |Slices(events)|, r.value)
  {
    hide Serves;
    var byId := IndexEvents(events);
    if byId.Err? {
      return Err(byId.error);
    }
    var turns := RootTurnSlices(events);
    var accepted := AcceptedTurns(turns);
    if accepted.Err? {
      return Err(accepted.error);
    }
    var active: EventId := "";
    var rooted := false;
    for i := 0 to |events|
      invariant Serves(decodes, events, digest, store)
      invariant active == ActiveBefore(events, i)
      invariant rooted <==> exists k :: 0 <= k < i && IsRootUser(events[k])
      invariant forall k: nat :: k < i ==> Rooted(events, k)
      invariant forall k: nat :: k < i && events[k].etype.ContextSnapshot? ==> SnapshotOk(events, digest, k)
    {
      hide SnapshotOk, Indexes, Named;
      if IsRootUser(events[i]) {
        active := "";
        rooted := true;
      } else if events[i].etype.ContextTurnCompacted? {
        if !rooted {
          assert !Rooted(events, i);
          return Err(OutsideTurns);
        }
        active := events[i].id;
      }
      if events[i].etype.ContextSnapshot? {
        var ok := CheckSnapshot(decodes, events, digest, byId.value, i, active, store);
        if !ok {
          return Err(InvalidSnapshot);
        }
      }
    }
    return accepted;
  }

  method AcceptedTurns(turns: seq<seq<Event>>) returns (r: Result<map<EventId, TC.Accepted>, LogError>)
    requires forall t :: 0 <= t < |turns| ==> turns[t] != []
    ensures r.Ok? <==> forall t :: 0 <= t < |turns| ==> TC.Latest(turns[t]).Ok?
    ensures r.Ok? ==> AcceptedOf(turns, |turns|, r.value)
  {
    var accepted: map<EventId, TC.Accepted> := map[];
    for t := 0 to |turns|
      invariant forall k :: 0 <= k < t ==> TC.Latest(turns[k]).Ok?
      invariant AcceptedOf(turns, t, accepted)
    {
      var latest := TC.LatestTurnCompaction(turns[t]);
      if latest.Err? {
        return Err(InvalidTurn(latest.error));
      }
      if latest.value.Some? {
        accepted := accepted[turns[t][0].id := latest.value.value];
      }
    }
    return Ok(accepted);
  }
}
