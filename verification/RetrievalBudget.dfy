/**
 * Charging memory delivery once per distinct unit within a turn's budget
 * (internal/agent/retrieval_budget.go, internal/agent/retrieval.go).
 */
module RetrievalBudget {
  import opened Wrappers
  import opened EvidenceBuffer
  import opened EvidenceSupport

  const RETRIEVAL_TURN_BYTES := 36 * 1024

  // A unit's key is the digest of its kind and exact encoding, so it stands
  // for them: an item shown in another form is another unit.
  datatype Unit = Evidence(raw: string) | Outcome(message: string)

  // How a request encodes: one item, a unit's escaped bytes, and the whole
  // memory message under its own status or once that reads exhausted.
  datatype Encoding = Encoding(encode: Item -> string, size: Unit -> nat, messageBytes: (bool, seq<Item>) -> int)

  function UnitsOf(encoding: Encoding, items: seq<Item>): (units: seq<Unit>)
    ensures |units| == |items|
  {
    seq(|items|, k requires 0 <= k < |items| => Evidence(encoding.encode(items[k])))
  }

  // The units not delivered yet, once each.
  function Fresh(units: seq<Unit>, delivered: set<Unit>): seq<Unit> {
    if units == [] then []
    else
      var before, u := Fresh(units[..|units| - 1], delivered), units[|units| - 1];
      if u in delivered || u in before then before else before + [u]
  }

  function Cost(size: Unit -> nat, units: seq<Unit>): nat {
    if units == [] then 0 else Cost(size, units[..|units| - 1]) + size(units[|units| - 1])
  }

  ghost predicate Distinct(units: seq<Unit>) {
    forall i, j :: 0 <= i < j < |units| ==> units[i] != units[j]
  }

  lemma {:induction false} FreshFacts(units: seq<Unit>, delivered: set<Unit>)
    ensures Distinct(Fresh(units, delivered))
    ensures forall u :: u in Fresh(units, delivered) <==> u in units && u !in delivered
  {
    if units != [] {
      var n := |units| - 1;
      FreshFacts(units[..n], delivered);
      assert units == units[..n] + [units[n]];
    }
  }

  // Re-admitting what was delivered costs nothing.
  lemma {:induction false} DeliveredIsFree(units: seq<Unit>, delivered: set<Unit>)
    requires forall u :: u in units ==> u in delivered
    ensures Fresh(units, delivered) == []
  {
    if units != [] {
      DeliveredIsFree(units[..|units| - 1], delivered);
    }
  }

  lemma {:induction false} FreshNone(size: Unit -> nat, delivered: set<Unit>)
    ensures Fresh([], delivered) == [] && Cost(size, []) == 0
  {
  }

  lemma {:induction false} FreshNext(size: Unit -> nat, units: seq<Unit>, i: nat, delivered: set<Unit>)
    requires i < |units|
    ensures var before := Fresh(units[..i], delivered);
            && Fresh(units[..i + 1], delivered)
               == (if units[i] in delivered || units[i] in before then before else before + [units[i]])
            && Cost(size, before + [units[i]]) == Cost(size, before) + size(units[i])
  {
    assert units[..i + 1][..i] == units[..i];
    var before := Fresh(units[..i], delivered);
    assert (before + [units[i]])[..|before|] == before;
  }

  lemma {:induction false} CostOfTwo(size: Unit -> nat, a: seq<Unit>, b: seq<Unit>)
    ensures Cost(size, a + b) == Cost(size, a) + Cost(size, b)
  {
    if b == [] {
      assert a + b == a;
    } else {
      var n := |b| - 1;
      assert (a + b)[..|a + b| - 1] == a + b[..n];
      CostOfTwo(size, a, b[..n]);
    }
  }

  lemma {:induction false} CostWithout(size: Unit -> nat, units: seq<Unit>, i: nat)
    requires i < |units|
    ensures Cost(size, units) == Cost(size, units[..i] + units[i + 1..]) + size(units[i])
  {
    var a, b := units[..i], units[i + 1..];
    assert units == a + [units[i]] + b;
    CostOfTwo(size, a + [units[i]], b);
    CostOfTwo(size, a, [units[i]]);
    CostOfTwo(size, a, b);
    assert [units[i]][..0] == [];
  }

  // What distinct units cost depends on which they are, not on their order.
  lemma {:induction false} CostIsOfTheSet(size: Unit -> nat, a: seq<Unit>, b: seq<Unit>)
    requires Distinct(a) && Distinct(b) && forall u :: u in a <==> u in b
    ensures Cost(size, a) == Cost(size, b)
  {
    if a == [] {
      assert forall k :: 0 <= k < |b| ==> b[k] in b;
    } else {
      var n := |a| - 1;
      assert a[n] in b;
      var i :| 0 <= i < |b| && b[i] == a[n];
      var rest := b[..i] + b[i + 1..];
      CostWithout(size, b, i);
      forall u
        ensures u in a[..n] <==> u in rest
      {
        assert u in a <==> u in a[..n] || u == a[n];
        assert u in b <==> u in rest || u == b[i];
      }
      CostIsOfTheSet(size, a[..n], rest);
    }
  }

  // ---- renderProjection ----

  // What trimming is measured against: what is delivered, the outcomes'
  // reserve, and the request's headroom.
  datatype Headroom = Headroom(delivered: set<Unit>, budget: int, contextBytes: int)

  predicate Fits(encoding: Encoding, exhausted: bool, evidence: seq<Item>, h: Headroom) {
    && (h.contextBytes <= 0 || encoding.messageBytes(exhausted, evidence) <= h.contextBytes)
    && Cost(encoding.size, Fresh(UnitsOf(encoding, evidence), h.delivered)) <= h.budget
  }

  // The first of the items that does not fit alone, or the last.
  function Removed(encoding: Encoding, evidence: seq<Item>, h: Headroom, from: nat): (i: nat)
    requires from <= |evidence| && evidence != []
    ensures i < |evidence|
    decreases |evidence| - from
  {
    if h.contextBytes <= 0 || from == |evidence| then |evidence| - 1
    else if !Fits(encoding, true, [evidence[from]], h) then from
    else Removed(encoding, evidence, h, from + 1)
  }

  function Without(evidence: seq<Item>, i: nat): seq<Item>
    requires i < |evidence|
  {
    evidence[..i] + evidence[i + 1..]
  }

  // Evidence trimmed, and pruned of what lost its support, until what is left
  // fits, or none is. Trimming makes the message's status read exhausted.
  ghost function Trimmed(encoding: Encoding, exhausted: bool, evidence: seq<Item>, h: Headroom): seq<Item>
    decreases |evidence|
  {
    if evidence == [] || Fits(encoding, exhausted, evidence, h) then evidence
    else Trimmed(encoding, true, Supported(Without(evidence, Removed(encoding, evidence, h, 0))), h)
  }

  method FindRemoved(encoding: Encoding, evidence: seq<Item>, h: Headroom) returns (remove: nat)
    requires evidence != []
    ensures remove == Removed(encoding, evidence, h, 0)
  {
    hide Fits;
    remove := |evidence| - 1;
    if h.contextBytes > 0 {
      var i := 0;
      while i < |evidence| && Fits(encoding, true, [evidence[i]], h)
        invariant i <= |evidence| && Removed(encoding, evidence, h, 0) == Removed(encoding, evidence, h, i)
      {
        i := i + 1;
      }
      if i < |evidence| {
        remove := i;
      }
    }
  }

  // The items a memory message shows, of those held.
  method RenderProjection(encoding: Encoding, exhausted: bool, held: seq<Item>, secret: bool, h: Headroom)
    returns (evidence: seq<Item>)
    ensures evidence == Trimmed(encoding, exhausted, if secret then [] else held, h)
  {
    hide Fits, Removed, Supported;
    evidence := if secret then [] else held;
    var status := exhausted;
    while |evidence| > 0 && !Fits(encoding, status, evidence, h)
      invariant Trimmed(encoding, exhausted, if secret then [] else held, h) == Trimmed(encoding, status, evidence, h)
      decreases |evidence|
    {
      status := true;
      var remove := FindRemoved(encoding, evidence, h);
      evidence := ProjectionSupportedEvidence(Without(evidence, remove));
    }
  }

  lemma {:induction false} HeldThemselves(evidence: seq<Item>)
    ensures FromHeld(evidence, evidence)
  {
    assert forall x :: x in evidence ==> PrunedFrom(x, x);
  }

  lemma {:induction false} FitsBoth(encoding: Encoding, exhausted: bool, left: seq<Item>, h: Headroom)
    ensures Fits(encoding, exhausted, left, h) <==>
              && (h.contextBytes > 0 ==> encoding.messageBytes(exhausted, left) <= h.contextBytes)
              && Cost(encoding.size, Fresh(UnitsOf(encoding, left), h.delivered)) <= h.budget
  {
  }

  // What is left is held items, some pruned, and fits or is empty.
  lemma {:induction false} TrimmedFits(encoding: Encoding, exhausted: bool, evidence: seq<Item>, h: Headroom)
    ensures var left := Trimmed(encoding, exhausted, evidence, h);
            && (left == [] ||
                (&& (h.contextBytes > 0 ==> encoding.messageBytes(exhausted || left != evidence, left) <= h.contextBytes)
                 && Cost(encoding.size, Fresh(UnitsOf(encoding, left), h.delivered)) <= h.budget))
            && FromHeld(left, evidence) && |left| <= |evidence|
    decreases |evidence|
  {
    FitsBoth(encoding, exhausted, Trimmed(encoding, exhausted, evidence, h), h);
    hide Fits, Removed, Supported, FromHeld;
    HeldThemselves(evidence);
    if evidence != [] && !Fits(encoding, exhausted, evidence, h) {
      var rest := Without(evidence, Removed(encoding, evidence, h, 0));
      TrimmedFits(encoding, true, Supported(rest), h);
      SupportedFromHeld(rest);
      HeldTwice(Trimmed(encoding, true, Supported(rest), h), Supported(rest), rest);
      HeldWithout(evidence, Removed(encoding, evidence, h, 0));
      HeldTwice(Trimmed(encoding, true, Supported(rest), h), rest, evidence);
    }
  }

  // The item measured alone: whether the context has room for a message of
  // it, read as exhausted, and the budget for its unit.
  ghost predicate FitsAlone(encoding: Encoding, item: Item, h: Headroom) {
    var u := Evidence(encoding.encode(item));
    encoding.messageBytes(true, [item]) <= h.contextBytes && (if u in h.delivered then 0 else encoding.size(u)) <= h.budget
  }

  lemma {:induction false} FitsAloneIs(encoding: Encoding, item: Item, h: Headroom)
    requires h.contextBytes > 0
    ensures FitsAlone(encoding, item, h) <==> Fits(encoding, true, [item], h)
  {
    var units := UnitsOf(encoding, [item]);
    var u := Evidence(encoding.encode(item));
    assert units == [u] && [u][..0] == [];
    var once := Fresh([u], h.delivered);
    FreshNone(encoding.size, h.delivered);
    assert once == if u in h.delivered then [] else [u];
    assert Cost(encoding.size, [u]) == encoding.size(u) && Cost(encoding.size, []) == 0;
  }

  // Trimming takes one item at a time, until what is left fits: with a
  // context to fit, the first that does not fit even alone, if there is one,
  // and otherwise the last; and what lost its support goes with it.
  lemma {:induction false} TrimmedStep(encoding: Encoding, exhausted: bool, evidence: seq<Item>, h: Headroom) returns (i: nat)
    requires evidence != []
    ensures var fits := && (h.contextBytes > 0 ==> encoding.messageBytes(exhausted, evidence) <= h.contextBytes)
                        && Cost(encoding.size, Fresh(UnitsOf(encoding, evidence), h.delivered)) <= h.budget;
            && i < |evidence|
            && Trimmed(encoding, exhausted, evidence, h)
               == if fits then evidence else Trimmed(encoding, true, Supported(evidence[..i] + evidence[i + 1..]), h)
    ensures h.contextBytes > 0 ==> forall k :: 0 <= k < i ==> FitsAlone(encoding, evidence[k], h)
    ensures i == |evidence| - 1 || (h.contextBytes > 0 && !FitsAlone(encoding, evidence[i], h))
  {
    i := Removed(encoding, evidence, h, 0);
    RemovedIs(encoding, evidence, h, 0);
    hide Supported, Removed;
  }

  lemma {:induction false} RemovedIs(encoding: Encoding, evidence: seq<Item>, h: Headroom, from: nat)
    requires from <= |evidence| && evidence != []
    ensures var i := Removed(encoding, evidence, h, from);
            && (h.contextBytes > 0 ==> forall k :: from <= k < i ==> FitsAlone(encoding, evidence[k], h))
            && (i == |evidence| - 1 || (h.contextBytes > 0 && !FitsAlone(encoding, evidence[i], h)))
    decreases |evidence| - from
  {
    hide Fits, FitsAlone;
    if h.contextBytes > 0 && from < |evidence| {
      FitsAloneIs(encoding, evidence[from], h);
      if Fits(encoding, true, [evidence[from]], h) {
        RemovedIs(encoding, evidence, h, from + 1);
      }
    }
  }

  lemma {:induction false} HeldWithout(evidence: seq<Item>, i: nat)
    requires i < |evidence|
    ensures FromHeld(Without(evidence, i), evidence)
  {
    forall x | x in Without(evidence, i)
      ensures x in evidence && PrunedFrom(x, x)
    {
    }
  }

  // ---- admitRequest ----

  datatype Request = Request(evidence: seq<Unit>, outcomes: seq<Unit>)

  datatype Admission = Admitted | Reduced(evidence: seq<Item>) | Refused

  // The turn's delivery: each unit charged so far, once, in order.
  datatype Delivery = Delivery(units: seq<Unit>)

  function Units(d: Delivery): set<Unit> {
    set u | u in d.units
  }

  ghost predicate Charged(size: Unit -> nat, d: Delivery) {
    Distinct(d.units) && Cost(size, d.units) <= RETRIEVAL_TURN_BYTES
  }

  function OnlyOutcomes(units: seq<Unit>): bool {
    forall k :: 0 <= k < |units| ==> units[k].Outcome?
  }

  function OnlyEvidence(units: seq<Unit>): bool {
    forall k :: 0 <= k < |units| ==> units[k].Evidence?
  }

  // retrievalTurn: what a turn holds, and what it has delivered.
  class RetrievalTurn {
    const encoding: Encoding
    var evidence: seq<Item>   // held
    var origins: map<string, int>
    var deliveredUnits: set<Unit>
    var delivered: nat
    var exhausted: bool
    var requestReserve: nat
    var contextBytes: int
    ghost var log: seq<Unit>  // what was charged, in order

    ghost predicate Valid()
      reads this
    {
      && requestReserve == 0
      && deliveredUnits == Units(Delivery(log)) && delivered == Cost(encoding.size, log)
      && Charged(encoding.size, Delivery(log))
    }

    constructor (encoding: Encoding, contextBytes: int)
      ensures Valid() && delivered == 0 && log == [] && evidence == []
    {
      this.encoding, this.contextBytes := encoding, contextBytes;
      evidence, origins := [], map[];
      deliveredUnits, delivered, exhausted, requestReserve, log := {}, 0, false, 0, [];
    }

    // The part of search that updates the held evidence, and the origins of
    // what it evicts.
    method RememberResult(result: seq<Item>)
      requires Valid()
      modifies `evidence, `origins
      ensures Valid()
      ensures evidence == RememberAll(old(evidence), result, |result|)
      ensures forall id :: Lost(old(evidence), evidence, id) ==> Invalidated(origins, id)
    {
      hide Remember, Lost, Invalidated, Charged, Cost;
      NothingLost(evidence);
      for n := 0 to |result|
        invariant Valid() && evidence == RememberAll(old(evidence), result, n)
        invariant forall id :: Lost(old(evidence), evidence, id) ==> Invalidated(origins, id)
      {
        ghost var before := evidence;
        RememberItem(result[n], result);
        LostEither(old(evidence), before, evidence);
      }
    }

    method RememberItem(item: Item, result: seq<Item>)
      modifies `evidence, `origins
      ensures evidence == Remember(old(evidence), item, result)
      ensures forall id :: Lost(old(evidence), evidence, id) ==> Invalidated(origins, id)
      ensures forall id :: Invalidated(old(origins), id) ==> Invalidated(origins, id)
    {
      hide IndexOf, LastOther, Holds, Merged;
      var i := FindHeld(item.id);
      if i >= 0 {
        evidence := evidence[i := Merged(evidence[i], item)];
        HeldAfterMerge(old(evidence), i, item);
        return;
      }
      if |evidence| == RESULT_LIMIT {
        var last := FindOther(result);
        if last >= 0 {
          origins := origins[evidence[last].id := -1];
          evidence := evidence[..last] + evidence[last + 1..];
        }
      }
      if |evidence| < RESULT_LIMIT {
        evidence := evidence + [item];
      }
      HeldAfterRoom(old(evidence), item, result);
    }

    method FindHeld(id: string) returns (i: int)
      ensures i == IndexOf(evidence, id)
    {
      i := 0;
      while i < |evidence| && evidence[i].id != id
        invariant 0 <= i <= |evidence| && forall k :: 0 <= k < i ==> evidence[k].id != id
      {
        i := i + 1;
      }
      FirstHeld(evidence, id, i);
      if i == |evidence| {
        i := -1;
      }
    }

    method FindOther(result: seq<Item>) returns (i: int)
      ensures i == LastOther(evidence, result)
    {
      assert evidence[..|evidence|] == evidence;
      i := |evidence| - 1;
      while i >= 0 && Holds(result, evidence[i].id)
        invariant -1 <= i < |evidence| && LastOther(evidence, result) == LastOther(evidence[..i + 1], result)
      {
        assert evidence[..i + 1][..i] == evidence[..i];
        i := i - 1;
      }
      assert i >= 0 ==> evidence[..i + 1][i] == evidence[i];
    }

    // Revalidation before dispatch leaves what still holds.
    method Revalidate(valid: seq<Item>)
      requires Valid()
      modifies `evidence
      ensures Valid() && evidence == valid
    {
      evidence := valid;
    }

    method Undelivered(units: seq<Unit>) returns (unseen: seq<Unit>, total: nat)
      ensures unseen == Fresh(units, deliveredUnits) && total == Cost(encoding.size, unseen)
    {
      hide Fresh, Cost;
      unseen, total := [], 0;
      FreshNone(encoding.size, deliveredUnits);
      assert units[..0] == [];
      for i := 0 to |units|
        invariant unseen == Fresh(units[..i], deliveredUnits) && total == Cost(encoding.size, unseen)
      {
        FreshNext(encoding.size, units, i, deliveredUnits);
        if units[i] !in deliveredUnits && units[i] !in unseen {
          unseen := unseen + [units[i]];
          total := total + encoding.size(units[i]);
        }
      }
      assert units[..|units|] == units;
    }

    // Units not delivered before are charged once.
    method Deliver(units: seq<Unit>)
      requires Distinct(units) && forall u :: u in units ==> u !in deliveredUnits
      requires deliveredUnits == Units(Delivery(log)) && delivered == Cost(encoding.size, log) && Distinct(log)
      modifies `deliveredUnits, `delivered, `log
      ensures log == old(log) + units && deliveredUnits == Units(Delivery(log)) && Distinct(log)
      ensures delivered == old(delivered) + Cost(encoding.size, units) == Cost(encoding.size, log)
    {
      CostOfTwo(encoding.size, log, units);
      for i := 0 to |units|
        invariant deliveredUnits == old(deliveredUnits) + set k | 0 <= k < i :: units[k]
        invariant delivered == old(delivered) + Cost(encoding.size, units[..i])
        invariant log == old(log)
      {
        assert units[..i + 1][..i] == units[..i];
        deliveredUnits := deliveredUnits + {units[i]};
        delivered := delivered + encoding.size(units[i]);
      }
      assert units[..|units|] == units;
      log := log + units;
      DistinctTogether(old(log), units);
    }

    // A request is refused exactly when its undelivered tool outcomes alone
    // exceed what remains; otherwise its new units, or as much of the held
    // evidence as fits beside the outcomes, are charged.
    method AdmitRequest(request: Request, secret: bool) returns (r: Admission)
      requires Valid() && OnlyEvidence(request.evidence) && OnlyOutcomes(request.outcomes)
      modifies this
      ensures Valid() && evidence == old(evidence) && origins == old(origins)
      ensures var remaining := RETRIEVAL_TURN_BYTES - old(delivered);
              var outcomes := Fresh(request.outcomes, old(deliveredUnits));
              r.Refused? <==> Cost(encoding.size, outcomes) > remaining
      ensures r.Refused? ==> log == old(log)
      ensures var unseen, outcomes := Fresh(request.evidence, old(deliveredUnits)), Fresh(request.outcomes, old(deliveredUnits));
              && (r.Admitted? <==> Cost(encoding.size, unseen) + Cost(encoding.size, outcomes) <= RETRIEVAL_TURN_BYTES - old(delivered))
              && (r.Admitted? ==> log == old(log) + (unseen + outcomes))
              && (r.Reduced? ==>
                    log == old(log) + (Fresh(UnitsOf(encoding, r.evidence), old(deliveredUnits)) + outcomes))
      ensures var outcomeBytes := Cost(encoding.size, Fresh(request.outcomes, old(deliveredUnits)));
              var budget := RETRIEVAL_TURN_BYTES - old(delivered) - outcomeBytes;
              r.Reduced? ==>
                r.evidence == Trimmed(encoding, true, if secret then [] else evidence,
                                      Headroom(old(deliveredUnits), budget, contextBytes))
      ensures r.Reduced? ==> FromHeld(r.evidence, evidence)
      ensures exhausted == (old(exhausted) || !r.Admitted?) && contextBytes == old(contextBytes)
    {
      hide Fresh, Cost, Trimmed, FromHeld;
      var unseen, evidenceBytes := Undelivered(request.evidence);
      var outcomes, outcomeBytes := Undelivered(request.outcomes);
      if evidenceBytes + outcomeBytes <= RETRIEVAL_TURN_BYTES - delivered {
        BothFresh(request.evidence, request.outcomes, deliveredUnits);
        CostOfTwo(encoding.size, unseen, outcomes);
        Deliver(unseen + outcomes);
        return Admitted;
      }
      exhausted := true;
      requestReserve := outcomeBytes;
      var h := Headroom(deliveredUnits, RETRIEVAL_TURN_BYTES - delivered - requestReserve, contextBytes);
      var left := RenderProjection(encoding, exhausted, evidence, secret, h);
      requestReserve := 0;
      TrimmedFits(encoding, true, if secret then [] else evidence, h);
      var more, moreBytes := Undelivered(UnitsOf(encoding, left));
      if outcomeBytes + moreBytes > RETRIEVAL_TURN_BYTES - delivered {
        FreshNone(encoding.size, deliveredUnits);
        assert left == [];
        assert UnitsOf(encoding, left) == [];
        return Refused;
      }
      HeldOrNone(left, evidence, secret);
      BothFresh(UnitsOf(encoding, left), request.outcomes, deliveredUnits);
      CostOfTwo(encoding.size, more, outcomes);
      Deliver(more + outcomes);
      return Reduced(left);
    }
  }

  lemma {:induction false} HeldOrNone(left: seq<Item>, evidence: seq<Item>, secret: bool)
    requires FromHeld(left, if secret then [] else evidence)
    ensures FromHeld(left, evidence)
  {
  }

  lemma {:induction false} DistinctTogether(a: seq<Unit>, b: seq<Unit>)
    requires Distinct(a) && Distinct(b) && forall u :: u in b ==> u !in a
    ensures Distinct(a + b)
  {
    forall i, j | 0 <= i < j < |a + b|
      ensures (a + b)[i] != (a + b)[j]
    {
      assert i < |a| <= j ==> (a + b)[j] in b && (a + b)[i] in a;
    }
  }

  // New evidence and new outcomes are never the same unit.
  lemma {:induction false} BothFresh(evidence: seq<Unit>, outcomes: seq<Unit>, delivered: set<Unit>)
    requires OnlyEvidence(evidence) && OnlyOutcomes(outcomes)
    ensures var both := Fresh(evidence, delivered) + Fresh(outcomes, delivered);
            Distinct(both) && forall u :: u in both ==> u !in delivered
  {
    FreshFacts(evidence, delivered);
    FreshFacts(outcomes, delivered);
    DistinctTogether(Fresh(evidence, delivered), Fresh(outcomes, delivered));
  }
}
