/**
 * The calibrated bytes-per-token ratio and the byte budgets it sets
 * (internal/agent/token_ratio.go, internal/agent/context.go,
 * internal/memory/event.go). Ratios are in thousandths. Integers are
 * unbounded; the source's own guards against int64 overflow are kept.
 */
module TokenRatio {
  import opened Wrappers
  import opened Events

  const MAX_INT64: int := 0x7fff_ffff_ffff_ffff
  const UNCALIBRATED_MILLI := 3000
  const MINIMUM_USAGE_MILLI := 1000
  const MAXIMUM_MILLI := 6000
  const CALIBRATION_MIN_SAMPLES := 8
  const CALIBRATION_WINDOW := 32

  function Min(a: int, b: int): int { if a < b then a else b }

  function Max(a: int, b: int): int { if a < b then b else a }

  datatype Profile = Profile(hardWindowTokens: int, workingTokens: int, outputReserveTokens: int, estimationMarginTokens: int)

  function BytesPerTokenMilli(bytes: int, tokens: int): (milli: int)
    requires bytes > 0 && tokens > 0
    ensures milli >= 0
  {
    if bytes > MAX_INT64 / 1000 then MAXIMUM_MILLI else bytes * 1000 / tokens
  }

  function RejectionMilli(bytes: int, hardWindowTokens: int, outputReserveTokens: int): (milli: int)
    ensures 1 <= milli <= MAXIMUM_MILLI
  {
    var limit := hardWindowTokens - outputReserveTokens;
    if bytes <= 0 || limit <= 0 then 1
    else Max(1, Min(BytesPerTokenMilli(bytes, limit), MAXIMUM_MILLI))
  }

  // A rejected request in this turn caps the ratio at the bound it proved.
  function RejectionBounded(milli: int, profile: Profile, rejectedBytes: int): (bounded: int)
    ensures rejectedBytes > 0 && milli > 0 ==> bounded <= milli
    ensures rejectedBytes > 0 ==> bounded <= RejectionMilli(rejectedBytes, profile.hardWindowTokens, profile.outputReserveTokens)
    ensures rejectedBytes <= 0 || (milli > 0 && bounded < RejectionMilli(rejectedBytes, profile.hardWindowTokens, profile.outputReserveTokens)) ==>
              bounded == milli
  {
    if rejectedBytes <= 0 then milli
    else
      var bound := RejectionMilli(rejectedBytes, profile.hardWindowTokens, profile.outputReserveTokens);
      if milli == 0 || bound < milli then bound else milli
  }

  // memory.ContextBudgetBytes
  function ContextBudgetBytes(tokens: int, milli: int): int
    requires milli >= 0
  {
    if milli == 0 || tokens <= 0 then tokens
    else if tokens > MAX_INT64 / milli then MAX_INT64 / 1000
    else tokens * milli / 1000
  }

  // The tokens a request's input may use, when the profile leaves any.
  function InputTokens(profile: Profile): (tokens: Option<int>)
    ensures tokens.Some? ==>
              && tokens.value > 0
              && tokens.value + profile.outputReserveTokens + profile.estimationMarginTokens
                 == (if profile.hardWindowTokens < profile.workingTokens then profile.hardWindowTokens else profile.workingTokens)
    ensures profile.hardWindowTokens <= MAX_INT64 ==>
              (tokens.Some? <==>
                && profile.outputReserveTokens > 0 && profile.estimationMarginTokens > 0
                && profile.outputReserveTokens + profile.estimationMarginTokens < profile.hardWindowTokens
                && profile.outputReserveTokens + profile.estimationMarginTokens < profile.workingTokens)
  {
    var ceiling := Min(profile.hardWindowTokens, profile.workingTokens);
    if ceiling <= 0 || profile.outputReserveTokens <= 0 || profile.estimationMarginTokens <= 0
       || profile.outputReserveTokens > MAX_INT64 - profile.estimationMarginTokens
       || profile.outputReserveTokens + profile.estimationMarginTokens >= ceiling
    then None
    else Some(ceiling - profile.outputReserveTokens - profile.estimationMarginTokens)
  }

  function UsableInputBytes(profile: Profile, milli: int): Option<int>
    requires milli >= 0
  {
    match InputTokens(profile)
    case None => None
    case Some(tokens) => Some(ContextBudgetBytes(tokens, milli))
  }

  // ---- The retry after a provider context-length rejection ----

  lemma {:induction false} DivideBelow(a: int, b: int, d: int)
    requires d > 0 && a < b * d
    ensures a / d < b
  {
    assert a / d * d <= a;
    if a / d >= b {
      MulMonotone(b, a / d, d);
    }
  }

  lemma {:induction false} MulMonotone(a: int, b: int, k: int)
    requires a <= b && k >= 0
    ensures a * k <= b * k
  {
  }

  // milli bytes per token over `tokens` of them stay below the rejected size.
  lemma {:induction false} BoundedProduct(bytes: int, limit: int, tokens: int, milli: int)
    requires bytes > 0 && 0 < tokens < limit && 0 <= milli <= bytes * 1000 / limit
    ensures tokens * milli < bytes * 1000
  {
    assert milli * limit <= bytes * 1000 by {
      MulMonotone(milli, bytes * 1000 / limit, limit);
      assert bytes * 1000 / limit * limit <= bytes * 1000;
    }
    if milli > 0 {
      assert tokens * milli < limit * milli;
    }
  }

  lemma {:induction false} BudgetBelow(tokens: int, milli: int, bytes: int)
    requires tokens > 0 && milli > 0 && bytes > 0 && tokens * milli < bytes * 1000
    ensures ContextBudgetBytes(tokens, milli) < bytes
  {
    if tokens > MAX_INT64 / milli {
      assert tokens * milli > MAX_INT64 by {
        assert tokens >= MAX_INT64 / milli + 1;
        MulMonotone(MAX_INT64 / milli + 1, tokens, milli);
        assert (MAX_INT64 / milli + 1) * milli == MAX_INT64 / milli * milli + milli;
        assert MAX_INT64 % milli < milli;
      }
    } else {
      DivideBelow(tokens * milli, bytes, 1000);
    }
  }

  // The retry composes strictly below the rejected size exactly when its input
  // tokens number fewer than a thousand per rejected byte. A caller can check
  // that before composing; it holds whenever 1000 bytes cover the window less
  // the reserve (RetryShrinks).
  lemma {:induction false} RetryShrinksExactly(profile: Profile, calibrated: int, rejectedBytes: int)
    requires profile.hardWindowTokens <= MAX_INT64
    requires InputTokens(profile).Some? && calibrated >= 0 && rejectedBytes > 0
    ensures UsableInputBytes(profile, RejectionBounded(calibrated, profile, rejectedBytes)).value < rejectedBytes
       <==> InputTokens(profile).value < 1000 * rejectedBytes
  {
    var limit := profile.hardWindowTokens - profile.outputReserveTokens;
    var bound := RejectionMilli(rejectedBytes, profile.hardWindowTokens, profile.outputReserveTokens);
    RetryBudget(InputTokens(profile).value, limit, bound, RejectionBounded(calibrated, profile, rejectedBytes), rejectedBytes);
  }

  lemma {:induction false} RetryBudget(tokens: int, limit: int, bound: int, milli: int, bytes: int)
    requires 0 < tokens < limit && tokens <= MAX_INT64 && bytes > 0
    requires bound == Max(1, Min(BytesPerTokenMilli(bytes, limit), MAXIMUM_MILLI))
    requires 1 <= milli <= bound
    ensures ContextBudgetBytes(tokens, milli) < bytes <==> tokens < 1000 * bytes
  {
    if bytes > MAX_INT64 / 1000 {
      HugeRejection(tokens, milli, bytes);
    } else if bytes * 1000 >= limit {
      QuotientCases(bytes * 1000, limit);
      BoundedProduct(bytes, limit, tokens, milli);
      BudgetBelow(tokens, milli, bytes);
    } else {
      QuotientCases(bytes * 1000, limit);
      BudgetAtOneMilli(tokens, bytes);
    }
  }

  lemma {:induction false} QuotientCases(a: int, d: int)
    requires a > 0 && d > 0
    ensures a / d >= 1 <==> a >= d
    ensures a / d >= 0
  {
  }

  lemma {:induction false} BudgetAtOneMilli(tokens: int, bytes: int)
    requires 0 < tokens <= MAX_INT64
    ensures ContextBudgetBytes(tokens, 1) < bytes <==> tokens < 1000 * bytes
  {
  }

  // The stated recovery: once the rejected request is at least one byte per
  // thousand tokens of window less reserve, its retry is composed smaller.
  lemma {:induction false} RetryShrinks(profile: Profile, calibrated: int, rejectedBytes: int)
    requires profile.hardWindowTokens <= MAX_INT64
    requires InputTokens(profile).Some? && calibrated >= 0 && rejectedBytes > 0
    requires 1000 * rejectedBytes >= profile.hardWindowTokens - profile.outputReserveTokens
    ensures UsableInputBytes(profile, RejectionBounded(calibrated, profile, rejectedBytes)).value < rejectedBytes
  {
    RetryShrinksExactly(profile, calibrated, rejectedBytes);
  }

  // An accepted profile for which the retry's budget is not below the rejected
  // size: 198000 input tokens against a rejected request of 100 bytes.
  lemma {:induction false} RetryMayNotShrink()
    ensures var profile := Profile(200_000, 200_000, 1_000, 1_000);
            && InputTokens(profile) == Some(198_000)
            && UsableInputBytes(profile, RejectionBounded(4_000, profile, 100)) == Some(198)
  {
    var profile := Profile(200_000, 200_000, 1_000, 1_000);
    assert BytesPerTokenMilli(100, 199_000) == 0;
    assert RejectionBounded(4_000, profile, 100) == 1;
    assert 198_000 <= MAX_INT64 / 1;
  }

  // A rejection that is true of a request whose tokens take a byte each or
  // more always shrinks the retry.
  lemma {:induction false} TrueRejectionShrinks(profile: Profile, calibrated: int, rejectedBytes: int, inputTokens: int)
    requires profile.hardWindowTokens <= MAX_INT64 && InputTokens(profile).Some? && calibrated >= 0
    requires profile.hardWindowTokens - profile.outputReserveTokens < inputTokens <= rejectedBytes
    ensures UsableInputBytes(profile, RejectionBounded(calibrated, profile, rejectedBytes)).value < rejectedBytes
  {
    RetryShrinks(profile, calibrated, rejectedBytes);
  }

  lemma {:induction false} HugeRejection(tokens: int, milli: int, bytes: int)
    requires tokens > 0 && 1 <= milli && bytes > MAX_INT64 / 1000
    ensures ContextBudgetBytes(tokens, milli) < bytes
  {
    if tokens <= MAX_INT64 / milli {
      assert tokens * milli <= MAX_INT64 by {
        MulMonotone(tokens, MAX_INT64 / milli, milli);
        assert MAX_INT64 / milli * milli <= MAX_INT64;
      }
    }
  }

  // ---- Calibration over the log ----

  datatype Calibration = Calibration(pending: map<EventId, SnapshotPayload>, samples: seq<int>)

  // turnDecodes.calibrationSnapshot: a lenient decode.
  function CalibrationSnapshot(e: Event): Option<SnapshotPayload> {
    match e.payload
    case Malformed => None
    case Snapshot(s) => Some(s)
    case _ => Some(ZERO_SNAPSHOT)
  }

  // turnDecodes.assistantInputTokens: a reported positive count.
  function AssistantInputTokens(e: Event): Option<int> {
    match e.payload
    case Assistant(_, Some(tokens)) => if tokens > 0 then Some(tokens) else None
    case _ => None
  }

  function UsageSample(bytes: int, tokens: int): (sample: int)
    requires bytes > 0 && tokens > 0
    ensures MINIMUM_USAGE_MILLI <= sample <= MAXIMUM_MILLI
  {
    Max(MINIMUM_USAGE_MILLI, Min(BytesPerTokenMilli(bytes, tokens), MAXIMUM_MILLI))
  }

  // The samples a pending request for `trigger` adds once it proves rejected.
  function RejectedSamples(c: Calibration, trigger: EventId, model: string): seq<int> {
    if trigger in c.pending && c.pending[trigger].canonicalModel == model then
      var s := c.pending[trigger];
      [RejectionMilli(s.serializedBytes, s.hardWindowTokens, s.outputReserveTokens)]
    else []
  }

  function Observe(c: Calibration, e: Event, model: string): Calibration {
    match e.etype
    case ContextSnapshot =>
      (match CalibrationSnapshot(e)
       case None => c
       case Some(s) => Calibration(c.pending[e.parentId := s], c.samples + RejectedSamples(c, e.parentId, model)))
    case TurnFailed =>
      Calibration(c.pending - {e.parentId},
                  if e.payload.Terminal? && e.payload.contextOverflowAtProvider
                  then c.samples + RejectedSamples(c, e.parentId, model) else c.samples)
    case AssistantMessage =>
      var left := c.pending - {e.parentId};
      if e.parentId !in c.pending then Calibration(left, c.samples)
      else
        var s := c.pending[e.parentId];
        if s.canonicalModel != model || s.serializedBytes <= 0 then Calibration(left, c.samples)
        else
          (match AssistantInputTokens(e)
           case None => Calibration(left, c.samples)
           case Some(tokens) => Calibration(left, c.samples + [UsageSample(s.serializedBytes, tokens)]))
    case _ => c
  }

  ghost function Calibrated(events: seq<Event>, model: string): Calibration {
    if events == [] then Calibration(map[], [])
    else Observe(Calibrated(events[..|events| - 1], model), events[|events| - 1], model)
  }

  ghost function Samples(events: seq<Event>, model: string): seq<int> {
    Calibrated(events, model).samples
  }

  // The newest samples, at most the window.
  function Newest(samples: seq<int>): (w: seq<int>)
    ensures |w| == Min(|samples|, CALIBRATION_WINDOW)
    ensures forall k :: 0 <= k < |w| ==> w[k] == samples[|samples| - |w| + k]
  {
    if |samples| > CALIBRATION_WINDOW then samples[|samples| - CALIBRATION_WINDOW..] else samples
  }

  datatype Ratio = Ratio(milli: int, samples: nat)

  // `ratio` is the least of the newest samples and the cap their number earns.
  ghost predicate IsCalibratedRatio(ratio: Ratio, samples: seq<int>) {
    var w := Newest(samples);
    var cap := if |w| >= CALIBRATION_MIN_SAMPLES then MAXIMUM_MILLI else UNCALIBRATED_MILLI;
    && ratio.samples == |w|
    && ratio.milli <= cap
    && (forall k :: 0 <= k < |w| ==> ratio.milli <= w[k])
    && (ratio.milli == cap || ratio.milli in w)
  }

  method BytesPerToken(events: seq<Event>, model: string) returns (ratio: Ratio)
    ensures IsCalibratedRatio(ratio, Samples(events, model))
  {
    var c := Calibration(map[], []);
    for i := 0 to |events|
      invariant c == Calibrated(events[..i], model)
    {
      assert events[..i + 1][..i] == events[..i];
      c := Observe(c, events[i], model);
    }
    assert events[..|events|] == events;
    ratio := LeastRatio(c.samples);
  }

  method LeastRatio(all: seq<int>) returns (ratio: Ratio)
    ensures IsCalibratedRatio(ratio, all)
  {
    var samples := Newest(all);
    var milli := UNCALIBRATED_MILLI;
    if |samples| >= CALIBRATION_MIN_SAMPLES {
      milli := MAXIMUM_MILLI;
    }
    ghost var cap := milli;
    for i := 0 to |samples|
      invariant milli <= cap && (milli == cap || milli in samples)
      invariant forall k :: 0 <= k < i ==> milli <= samples[k]
    {
      milli := Min(milli, samples[i]);
    }
    ratio := Ratio(milli, |samples|);
  }

  ghost predicate WithinRange(samples: seq<int>) {
    forall k :: 0 <= k < |samples| ==> 1 <= samples[k] <= MAXIMUM_MILLI
  }

  // Every sample lies within one thousandth and six bytes per token.
  lemma {:induction false} SamplesBounded(events: seq<Event>, model: string)
    ensures WithinRange(Samples(events, model))
  {
    if events != [] {
      SamplesBounded(events[..|events| - 1], model);
      ObserveBounded(Calibrated(events[..|events| - 1], model), events[|events| - 1], model);
    }
  }

  lemma {:induction false} ObserveBounded(c: Calibration, e: Event, model: string)
    requires WithinRange(c.samples)
    ensures WithinRange(Observe(c, e, model).samples)
    ensures c.samples <= Observe(c, e, model).samples
  {
  }

  // Samples are only ever appended.
  lemma {:induction false} SamplesGrow(events: seq<Event>, more: seq<Event>, model: string)
    ensures Samples(events, model) <= Samples(events + more, model)
  {
    if more == [] {
      assert events + more == events;
    } else {
      var n := |more| - 1;
      SamplesGrow(events, more[..n], model);
      assert (events + more)[..|events| + n] == events + more[..n];
    }
  }

  // The calibrated ratio is positive, at most six, and at most three until
  // enough requests were measured.
  lemma {:induction false} RatioBounded(ratio: Ratio, events: seq<Event>, model: string)
    requires IsCalibratedRatio(ratio, Samples(events, model))
    ensures 1 <= ratio.milli <= MAXIMUM_MILLI
    ensures |Samples(events, model)| < CALIBRATION_MIN_SAMPLES ==> ratio.milli <= UNCALIBRATED_MILLI
  {
    SamplesBounded(events, model);
  }

  // The event settles what is pending for the trigger: an answer, a failure,
  // or another request.
  predicate Settles(e: Event, trigger: EventId) {
    && e.parentId == trigger
    && (e.etype.AssistantMessage? || e.etype.TurnFailed? || (e.etype.ContextSnapshot? && !e.payload.Malformed?))
  }

  // A trigger's snapshot waits for its answer while nothing settles it.
  lemma {:induction false} StaysPending(events: seq<Event>, request: Event, quiet: seq<Event>, model: string)
    requires request.etype.ContextSnapshot? && CalibrationSnapshot(request).Some?
    requires forall k :: 0 <= k < |quiet| ==> !Settles(quiet[k], request.parentId)
    ensures var c := Calibrated(events + [request] + quiet, model);
            request.parentId in c.pending && c.pending[request.parentId] == CalibrationSnapshot(request).value
  {
    var all := events + [request] + quiet;
    if quiet == [] {
      assert all == events + [request];
      assert all[..|all| - 1] == events;
    } else {
      var n := |quiet| - 1;
      StaysPending(events, request, quiet[..n], model);
      assert all[..|all| - 1] == events + [request] + quiet[..n];
      assert all[|all| - 1] == quiet[n] && !Settles(quiet[n], request.parentId);
    }
  }

  // The event proves that the trigger's pending request was rejected.
  predicate ProvesRejection(e: Event, trigger: EventId) {
    && e.parentId == trigger
    && (|| (e.etype.ContextSnapshot? && !e.payload.Malformed?)
        || (e.etype.TurnFailed? && e.payload.Terminal? && e.payload.contextOverflowAtProvider))
  }

  // A request followed, before anything settles its trigger, by the retry's
  // snapshot or by the turn's context overflow records the bound its
  // rejection proved, wherever in the log that happens.
  lemma {:induction false} RejectionIsSampled(events: seq<Event>, request: Event, quiet: seq<Event>, e: Event, model: string)
    requires request.etype.ContextSnapshot? && request.payload.Snapshot? && request.payload.snapshot.canonicalModel == model
    requires forall k :: 0 <= k < |quiet| ==> !Settles(quiet[k], request.parentId)
    requires ProvesRejection(e, request.parentId)
    ensures var s, before := request.payload.snapshot, events + [request] + quiet;
            Samples(before + [e], model)
            == Samples(before, model) + [RejectionMilli(s.serializedBytes, s.hardWindowTokens, s.outputReserveTokens)]
  {
    var before := events + [request] + quiet;
    StaysPending(events, request, quiet, model);
    assert (before + [e])[..|before|] == before;
  }

  // milli is bytes per token in thousandths, rounded down, when that lies
  // within least..6000, and the nearer of the two bounds otherwise.
  ghost predicate Measures(milli: int, bytes: int, tokens: int, least: int) {
    if bytes > MAX_INT64 / 1000 || 1000 * bytes >= MAXIMUM_MILLI * tokens then milli == MAXIMUM_MILLI
    else if 1000 * bytes < least * tokens then milli == least
    else milli * tokens <= 1000 * bytes < (milli + 1) * tokens
  }

  lemma {:induction false} QuotientMeasures(bytes: int, tokens: int, least: int)
    requires bytes > 0 && tokens > 0 && 0 <= least <= MAXIMUM_MILLI
    ensures Measures(Max(least, Min(BytesPerTokenMilli(bytes, tokens), MAXIMUM_MILLI)), bytes, tokens, least)
  {
    if bytes <= MAX_INT64 / 1000 {
      var q := bytes * 1000 / tokens;
      QuotientBounds(bytes * 1000, tokens, q);
      QuotientSide(bytes * 1000, tokens, q, MAXIMUM_MILLI);
      QuotientSide(bytes * 1000, tokens, q, least);
    }
  }

  lemma {:induction false} QuotientBounds(a: int, d: int, q: int)
    requires d > 0 && q == a / d
    ensures q * d <= a < (q + 1) * d
  {
  }

  lemma {:induction false} QuotientSide(a: int, d: int, q: int, bound: int)
    requires d > 0 && q * d <= a < (q + 1) * d
    ensures q >= bound <==> a >= bound * d
  {
    if q >= bound {
      MulMonotone(bound, q, d);
    } else {
      MulMonotone(q + 1, bound, d);
    }
  }

  // What a rejection proved, over the tokens the window left for input.
  lemma {:induction false} RejectionMeasures(bytes: int, hardWindowTokens: int, outputReserveTokens: int)
    ensures var limit := hardWindowTokens - outputReserveTokens;
            var milli := RejectionMilli(bytes, hardWindowTokens, outputReserveTokens);
            if bytes > 0 && limit > 0 then Measures(milli, bytes, limit, 1) else milli == 1
  {
    var limit := hardWindowTokens - outputReserveTokens;
    if bytes > 0 && limit > 0 {
      QuotientMeasures(bytes, limit, 1);
    }
  }

  // The assistant answered and reported how many tokens its input took.
  predicate Answers(e: Event, trigger: EventId) {
    e.etype.AssistantMessage? && e.parentId == trigger && AssistantInputTokens(e).Some?
  }

  // An answered request appends exactly one sample: its bytes over the input
  // tokens its answer reported, within one and six bytes a token.
  lemma {:induction false} UsageIsSampled(events: seq<Event>, request: Event, quiet: seq<Event>, answer: Event, model: string)
    requires request.etype.ContextSnapshot? && request.payload.Snapshot? && request.payload.snapshot.canonicalModel == model
    requires request.payload.snapshot.serializedBytes > 0
    requires forall k :: 0 <= k < |quiet| ==> !Settles(quiet[k], request.parentId)
    requires answer.etype.AssistantMessage? && answer.parentId == request.parentId
    requires answer.payload.Assistant? && answer.payload.inputTokens.Some? && answer.payload.inputTokens.value > 0
    ensures var before := Samples(events + [request] + quiet, model);
            var after := Samples(events + [request] + quiet + [answer], model);
            && |after| == |before| + 1 && after[..|before|] == before
            && Measures(after[|before|], request.payload.snapshot.serializedBytes, answer.payload.inputTokens.value, 1000)
  {
    var before := events + [request] + quiet;
    StaysPending(events, request, quiet, model);
    assert (before + [answer])[..|before|] == before;
    QuotientMeasures(request.payload.snapshot.serializedBytes, answer.payload.inputTokens.value, MINIMUM_USAGE_MILLI);
    hide Calibrated;
  }

  // The i-th event is the model's request for the trigger, and waits.
  ghost predicate Waits(events: seq<Event>, i: nat, trigger: EventId, model: string) {
    && i < |events| && events[i].etype.ContextSnapshot? && events[i].parentId == trigger
    && CalibrationSnapshot(events[i]).Some? && CalibrationSnapshot(events[i]).value.canonicalModel == model
    && forall k :: i < k < |events| ==> !Settles(events[k], trigger)
  }

  // What is pending is a snapshot that waits.
  lemma {:induction false} PendingWaits(events: seq<Event>, trigger: EventId, model: string) returns (i: nat)
    requires var c := Calibrated(events, model); trigger in c.pending && c.pending[trigger].canonicalModel == model
    ensures Waits(events, i, trigger, model)
    ensures CalibrationSnapshot(events[i]) == Some(Calibrated(events, model).pending[trigger])
  {
    var n := |events| - 1;
    if events[n].etype.ContextSnapshot? && events[n].parentId == trigger && CalibrationSnapshot(events[n]).Some? {
      i := n;
    } else {
      i := PendingWaits(events[..n], trigger, model);
    }
  }

  lemma {:induction false} WaitsIsPending(events: seq<Event>, i: nat, trigger: EventId, model: string)
    requires Waits(events, i, trigger, model)
    ensures var c := Calibrated(events, model);
            trigger in c.pending && Some(c.pending[trigger]) == CalibrationSnapshot(events[i])
  {
    var quiet := events[i + 1..];
    assert events == events[..i] + [events[i]] + quiet;
    StaysPending(events[..i], events[i], quiet, model);
  }

  // An event adds a sample exactly when the model's request for its trigger
  // waits and the event proves it rejected or, for a request of any bytes,
  // answers it with the tokens it took.
  lemma {:induction false} SampledExactly(events: seq<Event>, e: Event, model: string)
    ensures Samples(events + [e], model) != Samples(events, model) <==>
            exists i: nat :: Waits(events, i, e.parentId, model)
                        && (|| ProvesRejection(e, e.parentId)
                            || (Answers(e, e.parentId) && CalibrationSnapshot(events[i]).value.serializedBytes > 0))
  {
    assert (events + [e])[..|events|] == events;
    var c := Calibrated(events, model);
    if e.parentId in c.pending && c.pending[e.parentId].canonicalModel == model {
      var i := PendingWaits(events, e.parentId, model);
      forall j: nat | Waits(events, j, e.parentId, model)
        ensures CalibrationSnapshot(events[j]) == Some(c.pending[e.parentId])
      {
        WaitsIsPending(events, j, e.parentId, model);
      }
      AppendsWhenPending(c, e, model);
    } else {
      forall j: nat
        ensures !Waits(events, j, e.parentId, model)
      {
        if Waits(events, j, e.parentId, model) {
          WaitsIsPending(events, j, e.parentId, model);
        }
      }
    }
  }

  lemma {:induction false} AppendsWhenPending(c: Calibration, e: Event, model: string)
    requires e.parentId in c.pending && c.pending[e.parentId].canonicalModel == model
    ensures Observe(c, e, model).samples != c.samples <==>
            ProvesRejection(e, e.parentId) || (Answers(e, e.parentId) && c.pending[e.parentId].serializedBytes > 0)
  {
  }

  // So no later request is budgeted above that bound until 32 newer samples
  // displace it.
  lemma {:induction false} RejectionBoundsRatio(events: seq<Event>, request: Event, quiet: seq<Event>, e: Event, more: seq<Event>,
                                                model: string, ratio: Ratio)
    requires request.etype.ContextSnapshot? && request.payload.Snapshot? && request.payload.snapshot.canonicalModel == model
    requires forall k :: 0 <= k < |quiet| ==> !Settles(quiet[k], request.parentId)
    requires ProvesRejection(e, request.parentId)
    requires var all := events + [request] + quiet + [e];
             && IsCalibratedRatio(ratio, Samples(all + more, model))
             && |Samples(all + more, model)| - |Samples(all, model)| < CALIBRATION_WINDOW
    ensures var s := request.payload.snapshot;
            ratio.milli <= RejectionMilli(s.serializedBytes, s.hardWindowTokens, s.outputReserveTokens)
  {
    var all := events + [request] + quiet + [e];
    RejectionIsSampled(events, request, quiet, e, model);
    hide Samples, IsCalibratedRatio, RejectionMilli;
    SampleHoldsForWindow(all, more, model, |Samples(all, model)| - 1, ratio);
  }

  // The ratio stays at or below every sample until 32 newer ones displace it,
  // whatever is appended meanwhile.
  lemma {:induction false} SampleHoldsForWindow(events: seq<Event>, more: seq<Event>, model: string, k: nat, ratio: Ratio)
    requires k < |Samples(events, model)|
    requires IsCalibratedRatio(ratio, Samples(events + more, model))
    requires |Samples(events + more, model)| - k <= CALIBRATION_WINDOW
    ensures ratio.milli <= Samples(events, model)[k]
  {
    SamplesGrow(events, more, model);
    hide Samples;
    HoldsInWindow(Samples(events, model), Samples(events + more, model), k, ratio);
  }

  lemma {:induction false} HoldsInWindow(early: seq<int>, all: seq<int>, k: nat, ratio: Ratio)
    requires early <= all && k < |early| && |all| - k <= CALIBRATION_WINDOW && IsCalibratedRatio(ratio, all)
    ensures ratio.milli <= early[k]
  {
    var w := Newest(all);
    assert w[k - (|all| - |w|)] == all[k];
  }
}
