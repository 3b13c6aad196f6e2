/**
 * Planning a whole-turn compaction, by hand or automatically, and why the
 * chain accepts what was planned and keeps what it accepted
 * (internal/agent/compaction.go, internal/agent/automatic_compaction.go).
 */
module CompactionPlans {
  import opened Wrappers
  import opened Events
  import opened History
  import opened CompactionChain

  datatype Plan = Plan(generation: int, priorId: EventId, coveredFirst: Event, coveredLast: Event, firstRetained: Event)

  datatype PlanError = NothingEligible | ContextOverflow

  function LastEvent(turn: RootTurn): Event
    requires turn.events != []
  {
    turn.events[|turn.events| - 1]
  }

  ghost predicate Nonempty(turns: seq<RootTurn>) {
    forall t :: 0 <= t < |turns| ==> turns[t].events != []
  }

  function Start(chain: seq<Accepted>): nat {
    if chain == [] then 0 else chain[|chain| - 1].firstRetainedTurn
  }

  // The plan that covers the turns from the chain's frontier to the retained.
  function PlanTo(turns: seq<RootTurn>, chain: seq<Accepted>, retained: nat): Plan
    requires Start(chain) < retained < |turns|
    requires turns[Start(chain)].events != [] && turns[retained - 1].events != [] && turns[retained].events != []
  {
    Plan(if chain == [] then 1 else chain[|chain| - 1].payload.generation + 1,
         if chain == [] then "" else chain[|chain| - 1].event.id,
         turns[Start(chain)].events[0], LastEvent(turns[retained - 1]), turns[retained].events[0])
  }

  // ---- selectManualCompaction ----

  // The complete turns from start on, among the first n.
  function Completed(turns: seq<RootTurn>, start: nat, n: nat): (completed: seq<nat>)
    requires n <= |turns|
    ensures |completed| <= n
  {
    if n <= start then []
    else Completed(turns, start, n - 1) + (if turns[n - 1].complete then [n - 1] else [])
  }

  // The sizes of compactor requests, by how many turns they cover.
  datatype Sizes = Sizes(compactor: nat -> int, compactorUsable: int)

  // Covering the first count turns is affordable at every step up to it.
  ghost predicate Affordable(sizes: Sizes, count: nat) {
    forall n: nat :: 0 < n <= count ==> sizes.compactor(n) <= sizes.compactorUsable
  }

  ghost predicate AllComplete(turns: seq<RootTurn>, from: nat, to: nat)
    requires to <= |turns|
  {
    forall t :: from <= t < to ==> turns[t].complete
  }

  // The two newest complete turns stay, with everything after them.
  ghost predicate ManualRetains(turns: seq<RootTurn>, chain: seq<Accepted>, bound: nat) {
    var completed := Completed(turns, Start(chain), |turns|);
    |completed| >= 3 && bound == completed[|completed| - 2]
  }

  // Fewer than three complete turns, or none to cover before the two newest.
  ghost predicate NothingToCover(turns: seq<RootTurn>, chain: seq<Accepted>) {
    var completed := Completed(turns, Start(chain), |turns|);
    || |completed| < 3
    || completed[|completed| - 2] == Start(chain)
    || (Start(chain) < |turns| && !turns[Start(chain)].complete)
  }

  lemma {:induction false} CompletedExactly(turns: seq<RootTurn>, start: nat, n: nat)
    requires n <= |turns|
    ensures forall t :: t in Completed(turns, start, n) <==> start <= t < n && turns[t].complete
    ensures forall i, j :: 0 <= i < j < |Completed(turns, start, n)| ==> Completed(turns, start, n)[i] < Completed(turns, start, n)[j]
  {
    if n > start {
      CompletedExactly(turns, start, n - 1);
      CompletedInRange(turns, start, n - 1);
    }
  }

  // Of the complete turns from start on, all others come before a and b.
  ghost predicate TwoNewest(turns: seq<RootTurn>, start: nat, a: nat, b: nat) {
    && start <= a < b < |turns| && turns[a].complete && turns[b].complete
    && forall t :: a < t < |turns| && turns[t].complete ==> t == b
  }

  // A compaction by hand stops at the second newest of at least three complete
  // turns.
  lemma {:induction false} ManualExactly(turns: seq<RootTurn>, chain: seq<Accepted>, bound: nat)
    ensures ManualRetains(turns, chain, bound) <==>
              && (exists b: nat :: TwoNewest(turns, Start(chain), bound, b))
              && exists t :: Start(chain) <= t < bound && turns[t].complete
  {
    var start, n := Start(chain), |turns|;
    CompletedExactly(turns, start, n);
    hide Completed, Start;
    var completed := Completed(turns, start, n);
    var m := |completed|;
    if m >= 3 && bound == completed[m - 2] {
      LastThree(completed);
      assert TwoNewest(turns, start, bound, completed[m - 1]);
    }
    if (exists b: nat :: TwoNewest(turns, start, bound, b)) && exists t :: start <= t < bound && turns[t].complete {
      var b: nat :| TwoNewest(turns, start, bound, b);
      var t :| start <= t < bound && turns[t].complete;
      ThirdLast(completed, t, bound, b);
    }
  }

  lemma {:induction false} LastThree(s: seq<nat>)
    requires |s| >= 3 && forall i, j :: 0 <= i < j < |s| ==> s[i] < s[j]
    ensures var m := |s|;
            && s[m - 3] in s && s[m - 2] in s && s[m - 1] in s && s[m - 3] < s[m - 2] < s[m - 1]
            && forall t :: t in s && s[m - 2] < t ==> t == s[m - 1]
  {
  }

  lemma {:induction false} ThirdLast(s: seq<nat>, t: nat, a: nat, b: nat)
    requires t in s && a in s && b in s && t < a < b
    requires forall i, j :: 0 <= i < j < |s| ==> s[i] < s[j]
    requires forall x :: x in s && a < x ==> x == b
    ensures |s| >= 3 && s[|s| - 2] == a
  {
    var i :| 0 <= i < |s| && s[i] == t;
    var j :| 0 <= j < |s| && s[j] == a;
    var k :| 0 <= k < |s| && s[k] == b;
    assert i < j < k;
    assert s[j + 1] in s && s[|s| - 1] in s;
  }

  // There is nothing to cover exactly when the first retained turn is not
  // complete or no turn is such a bound.
  lemma {:induction false} NothingExactly(turns: seq<RootTurn>, chain: seq<Accepted>)
    requires Start(chain) <= |turns|
    ensures NothingToCover(turns, chain) <==>
              || Start(chain) == |turns| || !turns[Start(chain)].complete
              || forall bound: nat :: !ManualRetains(turns, chain, bound)
  {
    CompletedExactly(turns, Start(chain), |turns|);
    hide Completed;
    var completed := Completed(turns, Start(chain), |turns|);
    if |completed| >= 3 {
      assert completed[0] in completed;
      assert ManualRetains(turns, chain, completed[|completed| - 2]);
    }
  }

  method SelectManualCompaction(turns: seq<RootTurn>, chain: seq<Accepted>, sizes: Sizes)
    returns (r: Result<Plan, PlanError>, ghost retained: nat)
    requires Nonempty(turns) && Start(chain) <= |turns|
    ensures r.Ok? ==>
              && Start(chain) < retained < |turns| && AllComplete(turns, Start(chain), retained)
              && r.value == PlanTo(turns, chain, retained) && Affordable(sizes, retained - Start(chain))
              && exists bound: nat :: ManualRetains(turns, chain, bound) && retained <= bound < |turns|
                   && (retained == bound || !turns[retained].complete
                       || sizes.compactor(retained + 1 - Start(chain)) > sizes.compactorUsable)
    ensures r == Err(NothingEligible) <==> NothingToCover(turns, chain)
    ensures r == Err(ContextOverflow) <==> !NothingToCover(turns, chain) && sizes.compactor(1) > sizes.compactorUsable
  {
    retained := 0;
    var start := Start(chain);
    var completed: seq<nat> := [];
    for i := start to |turns|
      invariant completed == Completed(turns, start, i)
    {
      if turns[i].complete {
        completed := completed + [i];
      }
    }
    if |completed| < 3 {
      return Err(NothingEligible), 0;
    }
    var bound := completed[|completed| - 2];
    CompletedInRange(turns, start, |turns|);
    assert ManualRetains(turns, chain, bound);
    if bound == start {
      return Err(NothingEligible), 0;
    }
    var eligible := 0;
    while start + eligible < bound && turns[start + eligible].complete
      invariant start + eligible <= bound && AllComplete(turns, start, start + eligible)
    {
      eligible := eligible + 1;
    }
    if eligible == 0 {
      return Err(NothingEligible), 0;
    }
    var selected, count := 0, 1;
    while count <= eligible
      invariant selected + 1 == count <= eligible + 1 && Affordable(sizes, selected)
    {
      if sizes.compactor(count) > sizes.compactorUsable {
        if count == 1 {
          return Err(ContextOverflow), 0;
        }
        break;
      }
      selected := count;
      count := count + 1;
    }
    retained := start + selected;
    return Ok(PlanTo(turns, chain, start + selected)), retained;
  }

  lemma {:induction false} CompletedInRange(turns: seq<RootTurn>, start: nat, n: nat)
    requires n <= |turns|
    ensures forall i :: 0 <= i < |Completed(turns, start, n)| ==> start <= Completed(turns, start, n)[i] < n
  {
    if n > start {
      CompletedInRange(turns, start, n - 1);
    }
  }

  // ---- selectAutomaticCompaction ----

  datatype Targets = Targets(planned: nat -> int, target: int)

  // Retaining from turn r is considered when every turn before it is complete
  // and every compactor request up to it fits.
  ghost predicate Considered(turns: seq<RootTurn>, start: nat, active: nat, sizes: Sizes, r: nat) {
    start < r <= active < |turns| && AllComplete(turns, start, r) && Affordable(sizes, r - start)
  }

  method SelectAutomaticCompaction(turns: seq<RootTurn>, chain: seq<Accepted>, active: nat, sizes: Sizes, targets: Targets)
    returns (r: Option<Plan>, ghost retained: nat)
    requires Nonempty(turns) && active < |turns|
    ensures r.Some? ==>
              && Considered(turns, Start(chain), active, sizes, retained) && r.value == PlanTo(turns, chain, retained)
              && targets.planned(retained) <= targets.target
              && forall earlier: nat :: Start(chain) < earlier < retained ==> targets.planned(earlier) > targets.target
    ensures r.None? ==>
              forall t: nat :: Considered(turns, Start(chain), active, sizes, t) ==> targets.planned(t) > targets.target
  {
    retained := 0;
    var start := Start(chain);
    var t := start + 1;
    while t <= active
      invariant start < t && (t <= active + 1 || t == start + 1)
      invariant t - 1 <= |turns| ==> AllComplete(turns, start, t - 1)
      invariant Affordable(sizes, t - 1 - start)
      invariant forall n: nat :: start < n < t ==> targets.planned(n) > targets.target
    {
      if !turns[t - 1].complete || sizes.compactor(t - start) > sizes.compactorUsable {
        break;
      }
      if targets.planned(t) <= targets.target {
        retained := t;
        return Some(PlanTo(turns, chain, t)), t;
      }
      t := t + 1;
    }
    assert t > active || !turns[t - 1].complete || sizes.compactor(t - start) > sizes.compactorUsable;
    return None, 0;
  }

  // ---- the chain accepts what was planned ----

  // compactionEventInput, as the store appends it.
  function CompactionEvent(plan: Plan, trigger: CompactionTrigger, id: EventId, sequence: int, summary: string): Event {
    Event(id, "", sequence, ContextCompacted, NoRole, summary,
          Compacted(CompactedPayload(plan.generation, trigger, plan.priorId,
                                     plan.coveredFirst.id, plan.coveredFirst.sequence,
                                     plan.coveredLast.id, plan.coveredLast.sequence, plan.firstRetained.id)))
  }

  // ---- the order of a store's events ----

  predicate Has(split: seq<seq<Event>>, t: nat, i: nat) {
    t < |split| && i < |split[t]|
  }

  predicate Precedes(a: Event, b: Event) {
    a.sequence < b.sequence && a.id != b.id
  }

  predicate Comes(t: nat, i: nat, u: nat, j: nat) {
    t < u || (t == u && i < j)
  }

  // Split events are events before the bound, and come in order.
  ghost predicate Ordered(split: seq<seq<Event>>, bound: int) {
    && (forall t :: 0 <= t < |split| ==> split[t] != [] && IsRootUser(split[t][0]))
    && (forall t: nat, i: nat :: Has(split, t, i) ==>
          split[t][i].id != "" && 0 < split[t][i].sequence < bound)
    && (forall t: nat, i: nat, u: nat, j: nat {:trigger Has(split, t, i), Has(split, u, j)} ::
          Has(split, t, i) && Has(split, u, j) && Comes(t, i, u, j) ==> Precedes(split[t][i], split[u][j]))
  }

  // An event that no split event shares an identity with, after all of them.
  ghost predicate Fresh(split: seq<seq<Event>>, e: Event) {
    e.id != "" && 0 < e.sequence && forall t: nat, i: nat :: Has(split, t, i) ==> split[t][i].id != e.id
  }

  lemma {:induction false} PushTurn(split: seq<seq<Event>>, bound: int, e: Event)
    requires Ordered(split, bound) && Fresh(split, e) && bound <= e.sequence && IsRootUser(e)
    ensures Ordered(split + [[e]], e.sequence + 1)
  {
    var next := split + [[e]];
    forall t: nat, i: nat | Has(next, t, i)
      ensures t < |split| ==> Has(split, t, i) && next[t][i] == split[t][i]
      ensures t == |split| ==> i == 0 && next[t][i] == e
    {
    }
    forall t: nat, i: nat, u: nat, j: nat | Has(next, t, i) && Has(next, u, j) && Comes(t, i, u, j)
      ensures Precedes(next[t][i], next[u][j])
    {
      assert Has(split, t, i);
      assert u < |split| ==> Has(split, u, j);
    }
  }

  lemma {:induction false} ExtendTurn(split: seq<seq<Event>>, bound: int, e: Event)
    requires Ordered(split, bound) && Fresh(split, e) && bound <= e.sequence && split != []
    ensures Ordered(split[..|split| - 1] + [split[|split| - 1] + [e]], e.sequence + 1)
  {
    var m := |split| - 1;
    var next := split[..m] + [split[m] + [e]];
    forall t: nat, i: nat | Has(next, t, i)
      ensures Has(split, t, i) ==> next[t][i] == split[t][i]
      ensures !Has(split, t, i) ==> t == m && i == |split[m]| && next[t][i] == e
    {
    }
    forall t: nat, i: nat, u: nat, j: nat | Has(next, t, i) && Has(next, u, j) && Comes(t, i, u, j)
      ensures Precedes(next[t][i], next[u][j])
    {
      assert Has(split, t, i);
    }
    forall t | 0 <= t < |next|
      ensures next[t] != [] && IsRootUser(next[t][0])
    {
      assert Has(split, t, 0);
    }
  }

  // The root turns of a store's events are in order, before what follows.
  lemma {:induction false} SplitOrdered(events: seq<Event>, n: nat)
    requires n <= |events| && Sequenced(events) && DistinctIds(events)
    requires forall i :: 0 <= i < |events| ==> events[i].id != ""
    ensures var r := SplitBefore(events, n);
            r.Ok? ==> Ordered(r.value, if n == 0 then 1 else events[n - 1].sequence + 1) && FromEvents(r.value, events, n)
  {
    hide *;
    if n == 0 {
      NothingSplit(events);
    } else {
      SplitOrdered(events, n - 1);
      SplitStep(events, n);
      NamedAt(events, n - 1);
      var before, after, e := SplitBefore(events, n - 1), SplitBefore(events, n), events[n - 1];
      if after.Ok? {
        var bound := if n == 1 then 1 else events[n - 2].sequence + 1;
        FreshNext(events, n, before.value);
        OrderedLater(before.value, bound, e.sequence + 1);
        FromEventsNext(events, n, before.value);
        if after.value == before.value + [[e]] && IsRootUser(e) {
          PushTurn(before.value, bound, e);
        } else if before.value != [] {
          ExtendTurn(before.value, bound, e);
        }
      }
    }
  }

  lemma {:induction false} NothingSplit(events: seq<Event>)
    ensures SplitBefore(events, 0) == Ok([]) && Ordered([], 1) && FromEvents([], events, 0)
  {
  }

  lemma {:induction false} NamedAt(events: seq<Event>, k: nat)
    requires k < |events| && Sequenced(events)
    ensures events[k].sequence > 0 && (k > 0 ==> 0 < events[k - 1].sequence < events[k].sequence)
  {
  }

  // A root user event starts a turn, and any other event extends the last.
  lemma {:induction false} SplitStep(events: seq<Event>, n: nat)
    requires 0 < n <= |events|
    ensures var before, after, e := SplitBefore(events, n - 1), SplitBefore(events, n), events[n - 1];
            after.Ok? ==>
              && before.Ok?
              && (|| after == before
                  || (IsRootUser(e) && after.value == before.value + [[e]])
                  || (&& before.value != []
                      && after.value == before.value[..|before.value| - 1] + [before.value[|before.value| - 1] + [e]]))
  {
  }

  lemma {:induction false} OrderedLater(split: seq<seq<Event>>, bound: int, later: int)
    requires Ordered(split, bound) && bound <= later
    ensures Ordered(split, later)
  {
  }

  ghost predicate FromEvents(split: seq<seq<Event>>, events: seq<Event>, n: nat)
    requires n <= |events|
  {
    forall t: nat, i: nat :: Has(split, t, i) ==> split[t][i] in events[..n]
  }

  lemma {:induction false} FromEventsNext(events: seq<Event>, n: nat, split: seq<seq<Event>>)
    requires 0 < n <= |events| && FromEvents(split, events, n - 1)
    ensures FromEvents(split, events, n) && FromEvents(split + [[events[n - 1]]], events, n)
    ensures split != [] ==>
              FromEvents(split[..|split| - 1] + [split[|split| - 1] + [events[n - 1]]], events, n)
  {
    assert events[..n] == events[..n - 1] + [events[n - 1]];
    var pushed := split + [[events[n - 1]]];
    forall t: nat, i: nat | Has(pushed, t, i)
      ensures pushed[t][i] in events[..n]
    {
      assert t < |split| ==> Has(split, t, i);
    }
    if split != [] {
      var m := |split| - 1;
      var extended := split[..m] + [split[m] + [events[n - 1]]];
      forall t: nat, i: nat | Has(extended, t, i)
        ensures extended[t][i] in events[..n]
      {
        assert !Has(split, t, i) ==> extended[t][i] == events[n - 1];
      }
    }
  }

  lemma {:induction false} FreshNext(events: seq<Event>, n: nat, split: seq<seq<Event>>)
    requires 0 < n <= |events| && FromEvents(split, events, n - 1) && Sequenced(events) && DistinctIds(events)
    requires events[n - 1].id != ""
    ensures Fresh(split, events[n - 1]) && (n > 1 ==> events[n - 2].sequence < events[n - 1].sequence)
  {
    forall t: nat, i: nat | Has(split, t, i)
      ensures split[t][i].id != events[n - 1].id
    {
      var k :| 0 <= k < n - 1 && events[..n - 1][k] == split[t][i];
    }
  }

  // ---- the chain accepts what was planned ----

  function EventsOf(turns: seq<RootTurn>): (split: seq<seq<Event>>)
    ensures |split| == |turns|
  {
    seq(|turns|, t requires 0 <= t < |turns| => turns[t].events)
  }

  lemma {:induction false} FindThere(turns: seq<RootTurn>, bound: int, t: nat, i: nat, n: nat)
    requires Ordered(EventsOf(turns), bound) && t < |turns| && i < n <= |turns[t].events|
    ensures FindBefore(turns[t].events, turns[t].events[i].id, n) == i
  {
    if i < n - 1 {
      assert Has(EventsOf(turns), t, i) && Has(EventsOf(turns), t, n - 1);
      FindThere(turns, bound, t, i, n - 1);
    }
  }

  lemma {:induction false} FindNot(turns: seq<RootTurn>, bound: int, t: nat, i: nat, u: nat, n: nat)
    requires Ordered(EventsOf(turns), bound) && t < u < |turns| && i < |turns[t].events| && n <= |turns[u].events|
    ensures FindBefore(turns[u].events, turns[t].events[i].id, n) == -1
  {
    if n > 0 {
      assert Has(EventsOf(turns), t, i) && Has(EventsOf(turns), u, n - 1);
      FindNot(turns, bound, t, i, u, n - 1);
    }
  }

  lemma {:induction false} LocateThere(turns: seq<RootTurn>, bound: int, t: nat, i: nat, n: nat)
    requires Ordered(EventsOf(turns), bound) && t < n <= |turns| && i < |turns[t].events|
    ensures LocateBefore(turns, turns[t].events[i].id, n) == Some(Position(t, i))
  {
    if t == n - 1 {
      FindThere(turns, bound, t, i, |turns[t].events|);
    } else {
      FindNot(turns, bound, t, i, n - 1, |turns[n - 1].events|);
      LocateThere(turns, bound, t, i, n - 1);
    }
  }

  // A plan from either selector, once appended, extends the validated chain
  // by exactly one generation with the planned first-retained root.
  lemma {:induction false} PlannedExtendsChain(turns: seq<RootTurn>, chain: seq<Accepted>, retained: nat, trigger: CompactionTrigger, e: Event)
    requires Ordered(EventsOf(turns), e.sequence) && Consecutive(chain, turns)
    requires Nonempty(turns) && Start(chain) < retained < |turns| && AllComplete(turns, Start(chain), retained)
    requires chain != [] ==> e.sequence > chain[|chain| - 1].event.sequence && chain[|chain| - 1].event.id != ""
    requires e == CompactionEvent(PlanTo(turns, chain, retained), trigger, e.id, e.sequence, e.content)
    ensures Check(turns, e, chain) == Ok(Accepted(e, e.payload.compacted, Start(chain), retained))
  {
    hide Ordered, Consecutive, Locate;
    var start := Start(chain);
    PlannedFrontier(turns, chain, retained, e.sequence);
    if chain != [] {
      ChainFrontier(turns, chain);
    }
  }

  lemma {:induction false} ChainFrontier(turns: seq<RootTurn>, chain: seq<Accepted>)
    requires Consecutive(chain, turns) && chain != [] && Nonempty(turns)
    ensures var last := chain[|chain| - 1];
            && last.payload.generation > 0 && last.firstRetainedTurn < |turns|
            && turns[last.firstRetainedTurn].events[0].id == last.payload.firstRetainedId
  {
    assert Follows(chain, turns, |chain| - 1);
  }

  lemma {:induction false} PlannedFrontier(turns: seq<RootTurn>, chain: seq<Accepted>, retained: nat, bound: int)
    requires Ordered(EventsOf(turns), bound) && Nonempty(turns) && Start(chain) < retained < |turns|
    ensures var start := Start(chain);
            var last := turns[retained - 1].events;
            && Locate(turns, turns[start].events[0].id) == Some(Position(start, 0))
            && Locate(turns, last[|last| - 1].id) == Some(Position(retained - 1, |last| - 1))
            && Locate(turns, turns[retained].events[0].id) == Some(Position(retained, 0))
            && IsRootUser(turns[start].events[0]) && IsRootUser(turns[retained].events[0])
            && turns[start].events[0].id != "" && last[|last| - 1].id != "" && turns[retained].events[0].id != ""
            && 0 < turns[start].events[0].sequence <= last[|last| - 1].sequence < turns[retained].events[0].sequence < bound
  {
    var start := Start(chain);
    var last := turns[retained - 1].events;
    LocateThere(turns, bound, start, 0, |turns|);
    LocateThere(turns, bound, retained - 1, |last| - 1, |turns|);
    LocateThere(turns, bound, retained, 0, |turns|);
    var split := EventsOf(turns);
    assert Has(split, start, 0) && Has(split, retained - 1, |last| - 1) && Has(split, retained, 0);
    assert split[start] == turns[start].events && split[retained] == turns[retained].events;
    assert Comes(start, 0, retained - 1, |last| - 1) || (start == retained - 1 && |last| == 1);
    assert Comes(retained - 1, |last| - 1, retained, 0);
  }

  lemma {:induction false} SplitAppend(events: seq<Event>, more: seq<Event>, n: nat)
    requires n <= |events|
    ensures SplitBefore(events + more, n) == SplitBefore(events, n)
  {
    if n > 0 {
      SplitAppend(events, more, n - 1);
    }
  }

  lemma {:induction false} ChainAppend(events: seq<Event>, more: seq<Event>, turns: seq<RootTurn>, n: nat)
    requires n <= |events|
    ensures ChainBefore(events + more, turns, n) == ChainBefore(events, turns, n)
  {
    hide Check;
    if n > 0 {
      ChainAppend(events, more, turns, n - 1);
    }
  }

  lemma {:induction false} ChainFromEvents(events: seq<Event>, turns: seq<RootTurn>, n: nat)
    requires n <= |events|
    ensures var r := ChainBefore(events, turns, n);
            r.Ok? ==> forall i :: 0 <= i < |r.value| ==> r.value[i].event in events[..n]
  {
    if n > 0 {
      hide *;
      ChainFromEvents(events, turns, n - 1);
      ChainGrows(events, turns, n);
      assert events[..n] == events[..n - 1] + [events[n - 1]];
      if ChainBefore(events, turns, n - 1).Ok? {
        CheckKeepsEvent(turns, events[n - 1], ChainBefore(events, turns, n - 1).value);
      }
    }
  }

  lemma {:induction false} CheckKeepsEvent(turns: seq<RootTurn>, e: Event, chain: seq<Accepted>)
    ensures Check(turns, e, chain).Ok? ==> Check(turns, e, chain).value.event == e
  {
  }

  // A store's events: distinct named identities in sequence.
  ghost predicate IsStore(events: seq<Event>) {
    Sequenced(events) && DistinctIds(events) && forall i :: 0 <= i < |events| ==> events[i].id != ""
  }

  lemma {:induction false} StorePrefix(events: seq<Event>, e: Event)
    requires IsStore(events + [e])
    ensures IsStore(events) && (events != [] ==> events[|events| - 1].sequence < e.sequence) && 0 < e.sequence
    ensures forall k :: 0 <= k < |events| ==> events[k].sequence < e.sequence
  {
    var all := events + [e];
    assert all[|events|] == e;
    assert forall i :: 0 <= i < |events| ==> all[i] == events[i];
  }

  lemma {:induction false} TurnsOrdered(events: seq<Event>, turns: seq<RootTurn>, bound: int)
    requires IsStore(events) && AreRootTurns(events, turns)
    requires 0 < bound && (events != [] ==> events[|events| - 1].sequence < bound)
    ensures Ordered(EventsOf(turns), bound) && Nonempty(turns)
  {
    hide Ordered, FromEvents;
    SplitOrdered(events, |events|);
    assert EventsOf(turns) == Split(events).value;
    OrderedLater(Split(events).value, if events == [] then 1 else events[|events| - 1].sequence + 1, bound);
  }

  // On a store whose chain is accepted, an appended plan is accepted as the
  // next generation: the chain grows by exactly it.
  lemma {:induction false} PlannedIsAccepted(events: seq<Event>, turns: seq<RootTurn>, chain: seq<Accepted>, retained: nat,
                          trigger: CompactionTrigger, e: Event)
    requires AreRootTurns(events, turns) && ChainBefore(events, turns, |events|) == Ok(chain) && IsStore(events + [e])
    requires Nonempty(turns) && Start(chain) < retained < |turns| && AllComplete(turns, Start(chain), retained)
    requires e == CompactionEvent(PlanTo(turns, chain, retained), trigger, e.id, e.sequence, e.content)
    ensures e.etype.ContextCompacted? && AreRootTurns(events + [e], turns)
    ensures ChainBefore(events + [e], turns, |events| + 1)
            == Ok(chain + [Accepted(e, e.payload.compacted, Start(chain), retained)])
  {
    assert e.etype.ContextCompacted?;
    hide *;
    StorePrefix(events, e);
    RootTurnsStay(events, e, turns);
    TurnsOrdered(events, turns, e.sequence);
    ChainConsecutive(events, turns, |events|);
    LatestInStore(events, e, turns, chain);
    PlannedExtendsChain(turns, chain, retained, trigger, e);
    ChainSnoc(events, e, turns, chain);
  }

  lemma {:induction false} RootTurnsStay(events: seq<Event>, e: Event, turns: seq<RootTurn>)
    requires AreRootTurns(events, turns)
    ensures e.etype.ContextCompacted? ==> AreRootTurns(events + [e], turns)
  {
    hide ValidTurn, TurnEnded;
    SplitAppend(events, [e], |events|);
    assert (events + [e])[|events|] == e;
  }

  lemma {:induction false} ChainSnoc(events: seq<Event>, e: Event, turns: seq<RootTurn>, chain: seq<Accepted>)
    requires ChainBefore(events, turns, |events|) == Ok(chain) && e.etype.ContextCompacted? && Check(turns, e, chain).Ok?
    ensures ChainBefore(events + [e], turns, |events| + 1) == Ok(chain + [Check(turns, e, chain).value])
  {
    hide Check;
    ChainAppend(events, [e], turns, |events|);
    assert (events + [e])[|events|] == e;
  }

  lemma {:induction false} ChainSnocChecks(events: seq<Event>, e: Event, turns: seq<RootTurn>, chain: seq<Accepted>)
    requires ChainBefore(events, turns, |events|) == Ok(chain) && e.etype.ContextCompacted?
    requires ChainBefore(events + [e], turns, |events| + 1).Ok?
    ensures Check(turns, e, chain).Ok?
  {
    hide Check;
    ChainAppend(events, [e], turns, |events|);
    assert (events + [e])[|events|] == e;
  }

  lemma {:induction false} LatestInStore(events: seq<Event>, e: Event, turns: seq<RootTurn>, chain: seq<Accepted>)
    requires ChainBefore(events, turns, |events|) == Ok(chain) && IsStore(events + [e])
    ensures chain != [] ==> chain[|chain| - 1].event.id != "" && chain[|chain| - 1].event.sequence < e.sequence
  {
    hide ChainBefore;
    ChainFromEvents(events, turns, |events|);
    StorePrefix(events, e);
    assert events[..|events|] == events;
    if chain != [] {
      assert chain[|chain| - 1].event in events;
      NamedInStore(events, chain[|chain| - 1].event);
    }
  }

  lemma {:induction false} NamedInStore(events: seq<Event>, e: Event)
    requires IsStore(events) && e in events
    ensures e.id != ""
  {
  }

  // ---- the chain stays as the history grows ----

  // The first turns of a longer history: all but the last are the same, and
  // the last may have grown.
  ghost predicate Grown(turns: seq<RootTurn>, more: seq<RootTurn>) {
    && |turns| <= |more|
    && (forall t :: 0 <= t < |turns| - 1 ==> more[t].events == turns[t].events && more[t].complete && turns[t].complete)
    && (turns != [] ==> turns[|turns| - 1].events <= more[|turns| - 1].events)
  }

  lemma {:induction false} SplitGrown(events: seq<Event>, k: nat, n: nat)
    requires k <= n <= |events|
    ensures var before, after := SplitBefore(events, k), SplitBefore(events, n);
            after.Ok? ==>
              && before.Ok? && |before.value| <= |after.value|
              && (forall t :: 0 <= t < |before.value| - 1 ==> after.value[t] == before.value[t])
              && (before.value != [] ==> before.value[|before.value| - 1] <= after.value[|before.value| - 1])
  {
    if k < n {
      SplitGrown(events, k, n - 1);
      SplitStep(events, n);
    }
  }

  lemma {:induction false} RootTurnsGrown(events: seq<Event>, more: seq<Event>, turns: seq<RootTurn>, after: seq<RootTurn>)
    requires AreRootTurns(events, turns) && AreRootTurns(events + more, after)
    ensures Grown(turns, after)
  {
    hide ValidTurn, TurnEnded;
    SplitAppend(events, more, |events|);
    SplitGrown(events + more, |events|, |events + more|);
  }

  lemma {:induction false} LocateGrown(turns: seq<RootTurn>, after: seq<RootTurn>, bound: int, id: EventId)
    requires Grown(turns, after) && Ordered(EventsOf(after), bound) && Locate(turns, id).Some?
    ensures Locate(after, id) == Locate(turns, id)
    ensures var p := Locate(turns, id).value;
            p.index < |after[p.turn].events| && after[p.turn].events[p.index] == turns[p.turn].events[p.index]
  {
    hide Ordered;
    var p := Locate(turns, id).value;
    assert after[p.turn].events[p.index] == turns[p.turn].events[p.index];
    LocateThere(after, bound, p.turn, p.index, |after|);
  }

  lemma {:induction false} CheckGrown(turns: seq<RootTurn>, after: seq<RootTurn>, bound: int, e: Event, chain: seq<Accepted>)
    requires Grown(turns, after) && Ordered(EventsOf(after), bound) && Check(turns, e, chain).Ok?
    ensures Check(after, e, chain) == Check(turns, e, chain)
  {
    hide Ordered, Locate, IsRootUser;
    var p := e.payload.compacted;
    LocateGrown(turns, after, bound, p.coveredFirstId);
    LocateGrown(turns, after, bound, p.coveredLastId);
    LocateGrown(turns, after, bound, p.firstRetainedId);
  }

  lemma {:induction false} ChainGrown(events: seq<Event>, more: seq<Event>, turns: seq<RootTurn>, after: seq<RootTurn>, bound: int, n: nat)
    requires Grown(turns, after) && Ordered(EventsOf(after), bound) && n <= |events|
    requires ChainBefore(events, turns, n).Ok?
    ensures ChainBefore(events + more, after, n) == ChainBefore(events, turns, n)
  {
    if n > 0 {
      hide Check, Ordered, Grown;
      ChainGrown(events, more, turns, after, bound, n - 1);
      if events[n - 1].etype.ContextCompacted? {
        CheckGrown(turns, after, bound, events[n - 1], ChainBefore(events, turns, n - 1).value);
      }
    }
  }

  lemma {:induction false} ChainWithout(events: seq<Event>, turns: seq<RootTurn>, k: nat, n: nat)
    requires k <= n <= |events| && forall i :: k <= i < n ==> !events[i].etype.ContextCompacted?
    ensures ChainBefore(events, turns, n) == ChainBefore(events, turns, k)
  {
    hide Check;
    if k < n {
      ChainWithout(events, turns, k, n - 1);
    }
  }

  // An accepted chain stays accepted, unchanged, however the history goes on
  // without compactions.
  lemma {:induction false} ChainStays(events: seq<Event>, more: seq<Event>, turns: seq<RootTurn>, after: seq<RootTurn>, chain: seq<Accepted>)
    requires AreRootTurns(events, turns) && AreRootTurns(events + more, after) && IsStore(events + more)
    requires ChainBefore(events, turns, |events|) == Ok(chain)
    requires forall i :: 0 <= i < |more| ==> !more[i].etype.ContextCompacted?
    ensures ChainBefore(events + more, after, |events + more|) == Ok(chain)
  {
    hide Check, Ordered, IsStore, AreRootTurns, ChainBefore;
    var all := events + more;
    RootTurnsGrown(events, more, turns, after);
    var bound := if all == [] then 1 else all[|all| - 1].sequence + 1;
    StoreBound(all);
    TurnsOrdered(all, after, bound);
    ChainGrown(events, more, turns, after, bound, |events|);
    forall i | |events| <= i < |all|
      ensures !all[i].etype.ContextCompacted?
    {
      assert all[i] == more[i - |events|];
    }
    ChainWithout(all, after, |events|, |all|);
  }

  lemma {:induction false} StoreBound(events: seq<Event>)
    requires IsStore(events)
    ensures events != [] ==> 0 < events[|events| - 1].sequence
  {
  }
}
