/**
 * When a request is compacted automatically, and how
 * (internal/agent/automatic_compaction.go).
 */
module AutomaticCompaction {
  import opened Wrappers
  import opened CompactionChain
  import opened Pressure
  import CP = CompactionPlans
  import TP = TurnCompactionPlans

  const THRESHOLD_PERCENT := 80

  // The projected request, as measured before anything is compacted.
  datatype Measure = Measure(serialized: int, working: nat, usable: int, rejected: bool)
  {
    // Under pressure, or recovering from a context-length rejection.
    predicate Required() {
      rejected || serialized >= PercentageFloor(working, THRESHOLD_PERCENT)
    }

    // The request cannot be sent, or may not be sent again.
    predicate Stuck() {
      serialized > usable || rejected
    }

    function Target(): int {
      PercentageFloor(working, TARGET_PERCENT)
    }
  }

  datatype Decision = Unneeded | CompactTurns(plan: CP.Plan) | CompactGroups(group: TP.Plan) | NoLegalCompaction

  // Some prefix of whole turns reaches the target.
  ghost predicate Reaches(turns: seq<RootTurn>, chain: seq<Accepted>, active: nat, sizes: CP.Sizes, planned: nat -> int, target: int) {
    exists r: nat :: CP.Considered(turns, CP.Start(chain), active, sizes, r) && planned(r) <= target
  }

  // Whole turns come first; the active turn's groups only when the request is
  // stuck; a request that fits goes on as it is, and nothing else does. The
  // group planner's own result is a parameter.
  method SelectAutomatic(turns: seq<RootTurn>, chain: seq<Accepted>, active: nat, compactor: nat -> int, compactorUsable: Option<int>,
                         planned: nat -> int, m: Measure, inTurn: bool, groups: Option<TP.Plan>)
    returns (d: Decision, ghost retained: nat)
    requires CP.Nonempty(turns) && active < |turns|
    ensures var required := m.rejected || m.serialized >= m.working * 80 / 100;
            && (!required ==> d == Unneeded)
            && (required && compactorUsable.None? ==> d == NoLegalCompaction)
    ensures (m.rejected || m.serialized >= m.working * 80 / 100) && compactorUsable.Some? ==>
              var sizes := CP.Sizes(compactor, compactorUsable.value);
              var target := m.working * 60 / 100;
              var reaches := Reaches(turns, chain, active, sizes, planned, target);
              var stuck := m.rejected || m.serialized > m.usable;
              && (d.CompactTurns? <==> reaches)
              && (d.CompactGroups? <==> !reaches && inTurn && stuck && groups.Some?)
              && (d.Unneeded? <==> !reaches && !(inTurn && stuck && groups.Some?) && m.serialized <= m.usable)
              && (d.CompactGroups? ==> d.group == groups.value)
              && (d.CompactTurns? ==>
                    && CP.Considered(turns, CP.Start(chain), active, sizes, retained)
                    && planned(retained) <= target && d.plan == CP.PlanTo(turns, chain, retained)
                    && forall earlier: nat :: CP.Start(chain) < earlier < retained ==> planned(earlier) > target)
  {
    retained := 0;
    if !m.Required() {
      return Unneeded, 0;
    }
    if compactorUsable.None? {
      return NoLegalCompaction, 0;
    }
    var plan;
    plan, retained := CP.SelectAutomaticCompaction(turns, chain, active, CP.Sizes(compactor, compactorUsable.value),
                                                   CP.Targets(planned, m.Target()));
    if plan.Some? {
      return CompactTurns(plan.value), retained;
    }
    if inTurn && m.Stuck() {
      if groups.Some? {
        return CompactGroups(groups.value), retained;
      }
    }
    if m.serialized <= m.usable {
      return Unneeded, retained;
    }
    return NoLegalCompaction, retained;
  }

  // A request brought to the target is under no pressure: one compaction does
  // not call for the next.
  lemma {:induction false} TargetRelieves(m: Measure, serialized: int)
    requires m.working >= 5 && !m.rejected && serialized <= m.Target()
    ensures !m.(serialized := serialized).Required()
  {
    var w := m.working;
    assert PercentageFloor(w, TARGET_PERCENT) == w * 60 / 100;
    assert PercentageFloor(w, THRESHOLD_PERCENT) == w * 80 / 100;
    assert w * 80 >= w * 60 + 100;
  }
}
