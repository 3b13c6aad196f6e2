/**
 * What a turn remembers of single events: snapshot decodes, calibration
 * decodes and content digests (internal/agent/turn_decodes.go).
 */
module EventDecodes {
  import opened Wrappers
  import opened Events
  import TR = TokenRatio

  // ---- fresh derivations ----

  function SnapshotDecode(e: Event): Option<SnapshotPayload> {
    if SnapshotDecodes(e) then Some(e.payload.snapshot) else None
  }

  datatype CalibrationDecode = Nothing | ASnapshot(snapshot: SnapshotPayload) | Tokens(inputTokens: int)

  // What calibration reads from one event. The two kinds share one map: an
  // event is asked for the decode of its own type only.
  function CalibrationOf(e: Event): CalibrationDecode {
    if e.etype.ContextSnapshot? then
      (match TR.CalibrationSnapshot(e) case None => Nothing case Some(s) => ASnapshot(s))
    else if e.etype.AssistantMessage? then
      (match TR.AssistantInputTokens(e) case None => Nothing case Some(n) => Tokens(n))
    else Nothing
  }

  function ObserveDecoded(c: TR.Calibration, e: Event, d: CalibrationDecode, model: string): TR.Calibration {
    match e.etype
    case ContextSnapshot =>
      if !d.ASnapshot? then c
      else TR.Calibration(c.pending[e.parentId := d.snapshot], c.samples + TR.RejectedSamples(c, e.parentId, model))
    case TurnFailed =>
      TR.Calibration(c.pending - {e.parentId},
                     if e.payload.Terminal? && e.payload.contextOverflowAtProvider
                     then c.samples + TR.RejectedSamples(c, e.parentId, model) else c.samples)
    case AssistantMessage =>
      var left := c.pending - {e.parentId};
      if e.parentId !in c.pending || c.pending[e.parentId].canonicalModel != model
         || c.pending[e.parentId].serializedBytes <= 0 || !d.Tokens? || d.inputTokens <= 0
      then TR.Calibration(left, c.samples)
      else TR.Calibration(left, c.samples + [TR.UsageSample(c.pending[e.parentId].serializedBytes, d.inputTokens)])
    case _ => c
  }

  lemma {:induction false} ObservedAfresh(c: TR.Calibration, e: Event, model: string)
    ensures ObserveDecoded(c, e, CalibrationOf(e), model) == TR.Observe(c, e, model)
  {
  }

  // ---- turnDecodes ----

  // Every remembered value is what its stored event yields.
  ghost predicate Remembers<T>(store: seq<Event>, cache: map<EventId, T>, derive: Event -> T) {
    forall id :: id in cache ==> exists k :: 0 <= k < |store| && store[k].id == id && cache[id] == derive(store[k])
  }

  lemma {:induction false} RememberedIsFresh<T>(store: seq<Event>, cache: map<EventId, T>, derive: Event -> T, e: Event)
    requires Named(store) && Remembers(store, cache, derive) && e in store && e.id in cache
    ensures cache[e.id] == derive(e)
  {
    var k :| 0 <= k < |store| && store[k].id == e.id && cache[e.id] == derive(store[k]);
    var m :| 0 <= m < |store| && store[m] == e;
    assert k == m;
  }

  lemma {:induction false} RemembersNext<T>(store: seq<Event>, cache: map<EventId, T>, derive: Event -> T, e: Event)
    requires Named(store) && Remembers(store, cache, derive) && e in store
    ensures Remembers(store, cache[e.id := derive(e)], derive)
  {
    var m :| 0 <= m < |store| && store[m] == e;
  }

  // A store only grows, so what was remembered stays true of it.
  lemma {:induction false} RemembersMore<T>(store: seq<Event>, more: seq<Event>, cache: map<EventId, T>, derive: Event -> T)
    requires Remembers(store, cache, derive)
    ensures Remembers(store + more, cache, derive)
  {
    forall id | id in cache
      ensures exists k :: 0 <= k < |store + more| && (store + more)[k].id == id && cache[id] == derive((store + more)[k])
    {
      var k :| 0 <= k < |store| && store[k].id == id && cache[id] == derive(store[k]);
      assert (store + more)[k] == store[k];
    }
  }

  class TurnDecodes {
    const digest: string -> string
    var snapshots: map<EventId, Option<SnapshotPayload>>
    var calibration: map<EventId, CalibrationDecode>
    var digests: map<EventId, string>

    ghost predicate Valid(store: seq<Event>)
      reads this
    {
      && Named(store) && Remembers(store, snapshots, SnapshotDecode) && Remembers(store, calibration, CalibrationOf)
      && Remembers(store, digests, (e: Event) => digest(e.content))
    }

    constructor (digest: string -> string)
      ensures this.digest == digest
      ensures forall store :: Named(store) ==> Valid(store)
    {
      this.digest, snapshots, calibration, digests := digest, map[], map[], map[];
    }

    method Snapshot(e: Event, ghost store: seq<Event>) returns (payload: Option<SnapshotPayload>)
      requires Valid(store) && e in store
      modifies `snapshots
      ensures Valid(store) && payload == SnapshotDecode(e)
    {
      if e.id in snapshots {
        RememberedIsFresh(store, snapshots, SnapshotDecode, e);
        return snapshots[e.id];
      }
      RemembersNext(store, snapshots, SnapshotDecode, e);
      payload := SnapshotDecode(e);
      snapshots := snapshots[e.id := payload];
    }

    method Calibration(e: Event, ghost store: seq<Event>) returns (decoded: CalibrationDecode)
      requires Valid(store) && e in store
      modifies `calibration
      ensures Valid(store) && decoded == CalibrationOf(e)
    {
      if e.id in calibration {
        RememberedIsFresh(store, calibration, CalibrationOf, e);
        return calibration[e.id];
      }
      RemembersNext(store, calibration, CalibrationOf, e);
      decoded := CalibrationOf(e);
      calibration := calibration[e.id := decoded];
    }

    method ContentDigest(e: Event, ghost store: seq<Event>) returns (hex: string)
      requires Valid(store) && e in store
      modifies `digests
      ensures Valid(store) && hex == digest(e.content)
    {
      ghost var derive := (x: Event) => digest(x.content);
      if e.id in digests {
        RememberedIsFresh(store, digests, derive, e);
        return digests[e.id];
      }
      RemembersNext(store, digests, derive, e);
      hex := digest(e.content);
      digests := digests[e.id := hex];
    }

    // The next request's longer history leaves every remembered value valid.
    lemma {:induction false} StillValid(store: seq<Event>, more: seq<Event>)
      requires Valid(store) && Named(store + more)
      ensures Valid(store + more)
    {
      RemembersMore(store, more, snapshots, SnapshotDecode);
      RemembersMore(store, more, calibration, CalibrationOf);
      RemembersMore(store, more, digests, (e: Event) => digest(e.content));
    }

    // Calibration over remembered decodes is calibration afresh.
    method BytesPerToken(events: seq<Event>, model: string, ghost store: seq<Event>) returns (ratio: TR.Ratio)
      requires Valid(store) && events <= store
      modifies `calibration
      ensures Valid(store) && TR.IsCalibratedRatio(ratio, TR.Samples(events, model))
    {
      var c := TR.Calibration(map[], []);
      for i := 0 to |events|
        invariant Valid(store) && c == TR.Calibrated(events[..i], model)
      {
        assert events[..i + 1][..i] == events[..i];
        var decoded := CalibrationDecode.Nothing;
        if events[i].etype.ContextSnapshot? || events[i].etype.AssistantMessage? {
          assert store[i] == events[i];
          decoded := Calibration(events[i], store);
        }
        ObservedAfresh(c, events[i], model);
        c := ObserveDecoded(c, events[i], decoded, model);
      }
      assert events[..|events|] == events;
      ratio := TR.LeastRatio(c.samples);
    }
  }

  // A snapshot's decode, remembered by the turn when there is one.
  method SnapshotOf(decodes: TurnDecodes?, e: Event, ghost store: seq<Event>) returns (payload: Option<SnapshotPayload>)
    requires decodes != null ==> decodes.Valid(store) && e in store
    modifies decodes
    ensures decodes != null ==> decodes.Valid(store)
    ensures payload == SnapshotDecode(e)
  {
    if decodes == null {
      return SnapshotDecode(e);
    }
    payload := decodes.Snapshot(e, store);
  }

  // An event's content digest, remembered by the turn when there is one.
  method DigestOf(decodes: TurnDecodes?, digest: string -> string, e: Event, ghost store: seq<Event>) returns (hex: string)
    requires decodes != null ==> decodes.digest == digest && decodes.Valid(store) && e in store
    modifies decodes
    ensures decodes != null ==> decodes.Valid(store)
    ensures hex == digest(e.content)
  {
    if decodes == null {
      return digest(e.content);
    }
    hex := decodes.ContentDigest(e, store);
  }
}
