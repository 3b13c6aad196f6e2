/**
 * Byte budgets for the tool results of one group
 * (internal/agent/tool_results.go). Byte counts are lengths of in-memory
 * strings, so they are unbounded naturals here.
 */
module Allocation {
  import opened Wrappers

  const MODEL_TOOL_RESULT_GROUP_BYTES: nat := 96 * 1024
  const TOOL_RESULT_GROUP_MINIMUM_BYTES: nat := 8 * 1024

  function Min(a: int, b: int): int { if a < b then a else b }

  function Max(a: int, b: int): int { if a < b then b else a }

  ghost function Sum(s: seq<nat>): nat {
    if s == [] then 0 else Sum(s[..|s| - 1]) + s[|s| - 1]
  }

  // What each result shows when none may show more than `cap` bytes beyond its floor.
  ghost function Capped(sizes: seq<nat>, floors: seq<nat>, cap: nat): (c: seq<nat>)
    requires |floors| == |sizes|
    ensures |c| == |sizes|
  {
    seq(|sizes|, i requires 0 <= i < |sizes| => Min(sizes[i], Max(floors[i], cap)) as nat)
  }

  ghost function CappedTotal(sizes: seq<nat>, floors: seq<nat>, cap: nat): nat
    requires |floors| == |sizes|
  {
    Sum(Capped(sizes, floors, cap))
  }

  // The floors alone fit the budget.
  ghost predicate Feasible(sizes: seq<nat>, floors: seq<nat>, budget: int)
    requires |floors| == |sizes|
  {
    CappedTotal(sizes, floors, 0) <= budget
  }

  // `level` is the greatest cap whose total still fits the budget.
  ghost predicate IsWaterLevel(sizes: seq<nat>, floors: seq<nat>, budget: int, level: nat)
    requires |floors| == |sizes|
  {
    && CappedTotal(sizes, floors, level) <= budget
    && forall higher: nat :: level < higher ==> CappedTotal(sizes, floors, higher) > budget
  }

  // How many of the first n results show less than their size.
  ghost function Unfinished(shown: seq<nat>, sizes: seq<nat>, n: nat): (count: nat)
    requires |shown| == |sizes| && n <= |sizes|
    ensures count <= n
  {
    if n == 0 then 0
    else Unfinished(shown, sizes, n - 1) + (if shown[n - 1] < sizes[n - 1] then 1 else 0)
  }

  // The extra byte result i gets when `extra` bytes are handed out from the front.
  // A negative remainder never reaches zero, so then every unfinished result gets one.
  ghost function Bonus(shown: seq<nat>, sizes: seq<nat>, extra: int, i: nat): nat
    requires |shown| == |sizes| && i < |sizes|
  {
    if shown[i] < sizes[i] && (extra < 0 || Unfinished(shown, sizes, i) < extra) then 1 else 0
  }

  ghost predicate IsToppedUp(a: seq<nat>, shown: seq<nat>, sizes: seq<nat>, extra: int)
    requires |shown| == |sizes|
  {
    |a| == |sizes| && forall i :: 0 <= i < |sizes| ==> a[i] == shown[i] + Bonus(shown, sizes, extra, i)
  }

  // The water-filling result: the greatest feasible level, then the odd bytes from the front.
  ghost predicate IsWaterFill(a: seq<nat>, sizes: seq<nat>, floors: seq<nat>, budget: nat, level: nat)
    requires |floors| == |sizes|
  {
    && IsWaterLevel(sizes, floors, budget, level)
    && IsToppedUp(a, Capped(sizes, floors, level), sizes, budget - CappedTotal(sizes, floors, level))
  }

  lemma {:induction false} SumPointwise(a: seq<nat>, b: seq<nat>)
    requires |a| == |b| && forall i :: 0 <= i < |a| ==> a[i] <= b[i]
    ensures Sum(a) <= Sum(b)
  {
    if a != [] {
      SumPointwise(a[..|a| - 1], b[..|b| - 1]);
    }
  }

  lemma {:induction false} CappedMonotone(sizes: seq<nat>, floors: seq<nat>, low: nat, high: nat)
    requires |floors| == |sizes| && low <= high
    ensures CappedTotal(sizes, floors, low) <= CappedTotal(sizes, floors, high)
  {
    SumPointwise(Capped(sizes, floors, low), Capped(sizes, floors, high));
  }

  lemma {:induction false} SumStep(s: seq<nat>, n: nat)
    requires 0 < n <= |s|
    ensures Sum(s[..n]) == Sum(s[..n - 1]) + s[n - 1]
  {
    assert s[..n][..n - 1] == s[..n - 1];
  }

  ghost function TotalBonus(shown: seq<nat>, sizes: seq<nat>, extra: int, n: nat): nat
    requires |shown| == |sizes| && n <= |sizes|
  {
    if n == 0 then 0 else TotalBonus(shown, sizes, extra, n - 1) + Bonus(shown, sizes, extra, n - 1)
  }

  lemma {:induction false} TotalBonusCount(shown: seq<nat>, sizes: seq<nat>, extra: nat, n: nat)
    requires |shown| == |sizes| && n <= |sizes|
    ensures TotalBonus(shown, sizes, extra, n) == Min(extra, Unfinished(shown, sizes, n))
  {
    if n > 0 {
      TotalBonusCount(shown, sizes, extra, n - 1);
    }
  }

  lemma {:induction false} ToppedUpSum(a: seq<nat>, shown: seq<nat>, sizes: seq<nat>, extra: nat, n: nat)
    requires |shown| == |sizes| && IsToppedUp(a, shown, sizes, extra) && n <= |sizes|
    ensures Sum(a[..n]) == Sum(shown[..n]) + TotalBonus(shown, sizes, extra, n)
  {
    if n > 0 {
      ToppedUpSum(a, shown, sizes, extra, n - 1);
      SumStep(a, n);
      SumStep(shown, n);
    }
  }

  // Raising the level by one adds at most one byte to each unfinished result.
  lemma {:induction false} NextLevelTotal(sizes: seq<nat>, floors: seq<nat>, level: nat, n: nat)
    requires |floors| == |sizes| && n <= |sizes|
    ensures Sum(Capped(sizes, floors, level + 1)[..n])
         <= Sum(Capped(sizes, floors, level)[..n]) + Unfinished(Capped(sizes, floors, level), sizes, n)
  {
    if n > 0 {
      NextLevelTotal(sizes, floors, level, n - 1);
      var low, high := Capped(sizes, floors, level), Capped(sizes, floors, level + 1);
      SumStep(low, n);
      SumStep(high, n);
    }
  }

  // Water-filling spends the whole budget, and stays between floors and sizes.
  lemma {:induction false} WaterFillSpendsBudget(a: seq<nat>, sizes: seq<nat>, floors: seq<nat>, budget: nat, level: nat)
    requires |floors| == |sizes| && IsWaterFill(a, sizes, floors, budget, level)
    ensures Sum(a) == budget
    ensures forall i :: 0 <= i < |sizes| ==> a[i] <= sizes[i]
    ensures forall i :: 0 <= i < |sizes| ==> Min(floors[i], sizes[i]) <= a[i]
  {
    var shown := Capped(sizes, floors, level);
    var extra := budget - CappedTotal(sizes, floors, level);
    ToppedUpSum(a, shown, sizes, extra, |sizes|);
    TotalBonusCount(shown, sizes, extra, |sizes|);
    NextLevelTotal(sizes, floors, level, |sizes|);
    var next := Capped(sizes, floors, level + 1);
    assert a[..|sizes|] == a && shown[..|sizes|] == shown && next[..|sizes|] == next;
    assert CappedTotal(sizes, floors, level + 1) > budget;
  }

  // Largest first: a result is shortened below another's share only when that
  // share is the other's floor.
  lemma {:induction false} WaterFillIsFair(a: seq<nat>, sizes: seq<nat>, floors: seq<nat>, budget: nat, level: nat, i: nat, j: nat)
    requires |floors| == |sizes| && IsWaterFill(a, sizes, floors, budget, level)
    requires i < |sizes| && j < |sizes| && a[i] < sizes[i] && a[i] + 1 < a[j]
    ensures a[j] <= floors[j] + 1
  {
    var shown := Capped(sizes, floors, level);
    assert shown[i] == Min(sizes[i], Max(floors[i], level));
    assert shown[j] == Min(sizes[j], Max(floors[j], level));
  }

  // The greatest level is unique, so the water-filling result is.
  lemma {:induction false} WaterFillIsUnique(a: seq<nat>, b: seq<nat>, sizes: seq<nat>, floors: seq<nat>, budget: nat, la: nat, lb: nat)
    requires |floors| == |sizes|
    requires IsWaterFill(a, sizes, floors, budget, la) && IsWaterFill(b, sizes, floors, budget, lb)
    ensures la == lb && a == b
  {
    assert la == lb;
    assert forall i :: 0 <= i < |sizes| ==> a[i] == b[i];
  }

  method SumInts(values: seq<nat>) returns (total: nat)
    ensures total == Sum(values)
  {
    total := 0;
    for i := 0 to |values|
      invariant total == Sum(values[..i])
    {
      assert values[..i + 1][..i] == values[..i];
      total := total + values[i];
    }
    assert values[..|values|] == values;
  }

  method CappedAllocationTotal(sizes: seq<nat>, floors: seq<nat>, cap: nat) returns (total: nat)
    requires |floors| == |sizes|
    ensures total == CappedTotal(sizes, floors, cap)
  {
    total := 0;
    ghost var capped := Capped(sizes, floors, cap);
    for i := 0 to |sizes|
      invariant total == Sum(capped[..i])
    {
      assert capped[..i + 1][..i] == capped[..i];
      total := total + Min(sizes[i], Max(floors[i], cap)) as nat;
    }
    assert capped[..|sizes|] == capped;
  }

  // The highest feasible cap, found by bisection between 0 and the largest size.
  method WaterLevel(sizes: seq<nat>, floors: seq<nat>, budget: int) returns (low: nat)
    requires |floors| == |sizes| && Sum(sizes) > budget
    ensures Feasible(sizes, floors, budget) ==> IsWaterLevel(sizes, floors, budget, low)
    ensures !Feasible(sizes, floors, budget) ==> low == 0
  {
    var maxSize: nat := 0;
    for i := 0 to |sizes|
      invariant forall k :: 0 <= k < i ==> sizes[k] <= maxSize
    {
      maxSize := Max(maxSize, sizes[i]);
    }
    assert Capped(sizes, floors, maxSize + 1) == sizes;
    low := 0;
    var high := maxSize;
    while low < high
      invariant low <= high <= maxSize
      invariant Feasible(sizes, floors, budget) ==> CappedTotal(sizes, floors, low) <= budget
      invariant !Feasible(sizes, floors, budget) ==> low == 0
      invariant CappedTotal(sizes, floors, high + 1) > budget
    {
      var candidate := low + (high - low + 1) / 2;
      var total := CappedAllocationTotal(sizes, floors, candidate);
      CappedMonotone(sizes, floors, 0, candidate);
      if total <= budget {
        low := candidate;
      } else {
        high := candidate - 1;
      }
    }
    forall higher: nat | low < higher ensures CappedTotal(sizes, floors, higher) > budget {
      CappedMonotone(sizes, floors, low + 1, higher);
    }
  }

  method LargestFirstAllocationsWithFloors(sizes: seq<nat>, budget: int, floors: seq<nat>)
    returns (allocations: seq<nat>)
    requires |floors| == |sizes|
    ensures Sum(sizes) <= budget ==> allocations == sizes
    ensures Sum(sizes) > budget && Feasible(sizes, floors, budget) ==>
              exists level: nat :: IsWaterFill(allocations, sizes, floors, budget, level)
    ensures Sum(sizes) > budget && !Feasible(sizes, floors, budget) ==>
              IsToppedUp(allocations, Capped(sizes, floors, 0), sizes, budget - CappedTotal(sizes, floors, 0))
    ensures |allocations| == |sizes|
    ensures forall i :: 0 <= i < |sizes| ==> Min(floors[i], sizes[i]) <= allocations[i] <= sizes[i]
    ensures Sum(allocations) <= budget <==> Sum(sizes) <= budget || Feasible(sizes, floors, budget)
    ensures Sum(allocations) <= budget ==> Sum(allocations) == Min(Sum(sizes), budget)
  {
    allocations := sizes;
    var total := SumInts(allocations);
    if total <= budget {
      return;
    }
    var low := WaterLevel(sizes, floors, budget);
    ghost var shown := Capped(sizes, floors, low);
    for i := 0 to |sizes|
      invariant |allocations| == |sizes|
      invariant forall k :: 0 <= k < i ==> allocations[k] == shown[k]
    {
      allocations := allocations[i := Min(sizes[i], Max(floors[i], low)) as nat];
    }
    assert allocations == shown;
    var used := SumInts(allocations);
    allocations := TopUp(allocations, sizes, budget - used);
    if Feasible(sizes, floors, budget) {
      assert IsWaterFill(allocations, sizes, floors, budget, low);
      WaterFillSpendsBudget(allocations, sizes, floors, budget, low);
    } else {
      SumPointwise(shown, allocations);
    }
  }

  // The trailing loop: one more byte each, from the front, until none remain.
  method TopUp(shown: seq<nat>, sizes: seq<nat>, extra: int) returns (allocations: seq<nat>)
    requires |shown| == |sizes|
    ensures IsToppedUp(allocations, shown, sizes, extra)
  {
    allocations := shown;
    var remaining := extra;
    var i := 0;
    while i < |allocations|
      invariant 0 <= i <= |allocations| == |sizes|
      invariant forall k :: i <= k < |sizes| ==> allocations[k] == shown[k]
      invariant forall k :: 0 <= k < i ==> allocations[k] == shown[k] + Bonus(shown, sizes, extra, k)
      invariant remaining == if extra < 0 then extra - Unfinished(shown, sizes, i)
                             else extra - Min(extra, Unfinished(shown, sizes, i))
    {
      if remaining == 0 {
        UnfinishedGrows(shown, sizes, i);
        break;
      }
      if allocations[i] < sizes[i] {
        allocations := allocations[i := allocations[i] + 1];
        remaining := remaining - 1;
      }
      i := i + 1;
    }
  }

  lemma {:induction false} UnfinishedGrows(shown: seq<nat>, sizes: seq<nat>, i: nat)
    requires |shown| == |sizes| && i <= |sizes|
    ensures forall k :: i <= k <= |sizes| ==> Unfinished(shown, sizes, i) <= Unfinished(shown, sizes, k)
    decreases |sizes| - i
  {
    if i < |sizes| {
      UnfinishedGrows(shown, sizes, i + 1);
    }
  }

  // The odd bytes go to the results in order: one that the level shortens
  // has its extra byte before any later one does.
  lemma {:induction false} OddBytesGoFirst(a: seq<nat>, sizes: seq<nat>, floors: seq<nat>, budget: nat, level: nat, i: nat, j: nat)
    requires |floors| == |sizes| && IsWaterFill(a, sizes, floors, budget, level)
    requires i < j < |sizes| && floors[j] <= level < a[j]
    ensures a[i] > level || a[i] == sizes[i]
  {
    var shown := Capped(sizes, floors, level);
    UnfinishedGrows(shown, sizes, i);
    assert shown[i] == Min(sizes[i], Max(floors[i], level)) && shown[j] == Min(sizes[j], Max(floors[j], level));
  }

  // ---- One complete group: modelGroupAllocations ----

  // The entries of `values` whose flag is false, in order.
  ghost function Unprotected(values: seq<nat>, protected: seq<bool>): seq<nat>
    requires |protected| == |values|
  {
    if values == [] then []
    else
      var n := |values| - 1;
      Unprotected(values[..n], protected[..n]) + (if protected[n] then [] else [values[n]])
  }

  ghost function ProtectedBytes(sizes: seq<nat>, protected: seq<bool>): nat
    requires |protected| == |sizes|
  {
    if sizes == [] then 0
    else
      var n := |sizes| - 1;
      ProtectedBytes(sizes[..n], protected[..n]) + (if protected[n] then sizes[n] else 0)
  }

  ghost function OrdinaryFloors(sizes: seq<nat>): seq<nat> {
    seq(|sizes|, i requires 0 <= i < |sizes| => Min(sizes[i], TOOL_RESULT_GROUP_MINIMUM_BYTES) as nat)
  }

  // 8 KiB of each result, or only its excerpt label, fits the budget.
  ghost predicate FloorsFit(sizes: seq<nat>, minimums: seq<nat>, budget: int) {
    Sum(OrdinaryFloors(sizes)) <= budget || Sum(minimums) <= budget
  }

  // The unprotected results can be reduced beside the whole protected ones.
  ghost predicate ProtectedFit(sizes: seq<nat>, protected: seq<bool>, minimums: seq<nat>)
    requires |protected| == |minimums| == |sizes|
  {
    var remaining := MODEL_TOOL_RESULT_GROUP_BYTES - ProtectedBytes(sizes, protected);
    remaining >= 0 && FloorsFit(Unprotected(sizes, protected), Unprotected(minimums, protected), remaining)
  }

  lemma {:induction false} UnprotectedLength(a: seq<nat>, b: seq<nat>, protected: seq<bool>)
    requires |protected| == |a| == |b|
    ensures |Unprotected(a, protected)| == |Unprotected(b, protected)|
  {
    if a != [] {
      UnprotectedLength(a[..|a| - 1], b[..|b| - 1], protected[..|a| - 1]);
    }
  }

  lemma {:induction false} UnprotectedPointwise(a: seq<nat>, b: seq<nat>, protected: seq<bool>)
    requires |protected| == |a| == |b| && forall i :: 0 <= i < |a| ==> a[i] <= b[i]
    ensures |Unprotected(a, protected)| == |Unprotected(b, protected)|
    ensures forall k :: 0 <= k < |Unprotected(a, protected)| ==>
              Unprotected(a, protected)[k] <= Unprotected(b, protected)[k]
  {
    if a != [] {
      UnprotectedPointwise(a[..|a| - 1], b[..|b| - 1], protected[..|a| - 1]);
    }
  }

  lemma {:induction false} FeasibleFloors(sizes: seq<nat>, floors: seq<nat>, budget: int)
    requires |floors| == |sizes| && forall i :: 0 <= i < |sizes| ==> floors[i] <= sizes[i]
    ensures Feasible(sizes, floors, budget) <==> Sum(floors) <= budget
  {
    assert Capped(sizes, floors, 0) == floors;
  }

  ghost function ChosenFloors(sizes: seq<nat>, minimums: seq<nat>, budget: int): (floors: seq<nat>)
    requires |minimums| == |sizes|
    ensures |floors| == |sizes|
  {
    if Sum(OrdinaryFloors(sizes)) <= budget then OrdinaryFloors(sizes) else minimums
  }

  method FloorsFor(sizes: seq<nat>, minimums: seq<nat>, budget: int) returns (floors: seq<nat>, fit: bool)
    requires |minimums| == |sizes| && forall i :: 0 <= i < |sizes| ==> minimums[i] <= sizes[i]
    ensures fit <==> FloorsFit(sizes, minimums, budget)
    ensures floors == ChosenFloors(sizes, minimums, budget)
    ensures |floors| == |sizes| && fit ==> Feasible(sizes, floors, budget)
  {
    floors := [];
    for i := 0 to |sizes|
      invariant floors == OrdinaryFloors(sizes)[..i]
    {
      floors := floors + [Min(sizes[i], TOOL_RESULT_GROUP_MINIMUM_BYTES) as nat];
    }
    assert floors == OrdinaryFloors(sizes);
    FeasibleFloors(sizes, floors, budget);
    FeasibleFloors(sizes, minimums, budget);
    var total := SumInts(floors);
    if total <= budget {
      return floors, true;
    }
    floors := minimums;
    total := SumInts(floors);
    return floors, total <= budget;
  }

  datatype Overflow = GroupMetadataOverflow

  // `a` keeps protected results whole and shows `shared` of the others, in order.
  ghost predicate IsMerged(a: seq<nat>, sizes: seq<nat>, protected: seq<bool>, shared: seq<nat>)
    requires |protected| == |sizes|
  {
    && |a| == |sizes|
    && Unprotected(a, protected) == shared
    && forall i :: 0 <= i < |sizes| && protected[i] ==> a[i] == sizes[i]
  }

  lemma {:induction false} MergedSum(a: seq<nat>, protected: seq<bool>)
    requires |protected| == |a|
    ensures Sum(a) == ProtectedBytes(a, protected) + Sum(Unprotected(a, protected))
  {
    if a != [] {
      var n := |a| - 1;
      MergedSum(a[..n], protected[..n]);
      var rest := Unprotected(a[..n], protected[..n]);
      assert (rest + [a[n]])[..|rest|] == rest && rest + [] == rest;
    }
  }

  lemma {:induction false} ProtectedAgree(a: seq<nat>, b: seq<nat>, protected: seq<bool>)
    requires |protected| == |a| == |b| && forall i :: 0 <= i < |a| && protected[i] ==> a[i] == b[i]
    ensures ProtectedBytes(a, protected) == ProtectedBytes(b, protected)
  {
    if a != [] {
      var n := |a| - 1;
      ProtectedAgree(a[..n], b[..n], protected[..n]);
    }
  }

  // A pointwise bound on the unprotected entries is one on those positions of the whole.
  lemma {:induction false} UnprotectedBound(a: seq<nat>, b: seq<nat>, protected: seq<bool>, i: nat)
    requires |protected| == |a| == |b| && i < |a| && !protected[i]
    requires |Unprotected(a, protected)| == |Unprotected(b, protected)|
    requires forall k :: 0 <= k < |Unprotected(a, protected)| ==>
               Unprotected(a, protected)[k] <= Unprotected(b, protected)[k]
    ensures a[i] <= b[i]
  {
    var n := |a| - 1;
    UnprotectedLength(a[..n], b[..n], protected[..n]);
    var ra, rb := Unprotected(a[..n], protected[..n]), Unprotected(b[..n], protected[..n]);
    if i < n {
      forall k | 0 <= k < |ra| ensures ra[k] <= rb[k] {
        assert ra[k] == Unprotected(a, protected)[k] && rb[k] == Unprotected(b, protected)[k];
      }
      UnprotectedBound(a[..n], b[..n], protected[..n], i);
    } else {
      assert Unprotected(a, protected)[|ra|] == a[n] && Unprotected(b, protected)[|rb|] == b[n];
    }
  }

  method SplitProtected(sizes: seq<nat>, protected: seq<bool>, minimums: seq<nat>)
    returns (protectedBytes: nat, others: seq<nat>, otherMinimums: seq<nat>)
    requires |protected| == |minimums| == |sizes|
    ensures protectedBytes == ProtectedBytes(sizes, protected)
    ensures others == Unprotected(sizes, protected) && otherMinimums == Unprotected(minimums, protected)
  {
    protectedBytes, others, otherMinimums := 0, [], [];
    for i := 0 to |sizes|
      invariant protectedBytes == ProtectedBytes(sizes[..i], protected[..i])
      invariant others == Unprotected(sizes[..i], protected[..i])
      invariant otherMinimums == Unprotected(minimums[..i], protected[..i])
    {
      assert sizes[..i + 1][..i] == sizes[..i] && protected[..i + 1][..i] == protected[..i];
      assert minimums[..i + 1][..i] == minimums[..i];
      if protected[i] {
        protectedBytes := protectedBytes + sizes[i];
      } else {
        others := others + [sizes[i]];
        otherMinimums := otherMinimums + [minimums[i]];
      }
    }
    assert sizes[..|sizes|] == sizes && protected[..|sizes|] == protected && minimums[..|sizes|] == minimums;
  }

  // A reduced group: the unprotected results share what the protected ones
  // leave, or every result shares the whole budget.
  ghost predicate IsGroupFill(a: seq<nat>, sizes: seq<nat>, protected: seq<bool>, minimums: seq<nat>, level: nat)
    requires |protected| == |minimums| == |sizes|
  {
    if ProtectedFit(sizes, protected, minimums) && |a| == |sizes| then
      var remaining := MODEL_TOOL_RESULT_GROUP_BYTES - ProtectedBytes(sizes, protected);
      var others, otherMinimums := Unprotected(sizes, protected), Unprotected(minimums, protected);
      UnprotectedLength(sizes, minimums, protected);
      IsWaterFill(Unprotected(a, protected), others, ChosenFloors(others, otherMinimums, remaining), remaining, level)
    else
      IsWaterFill(a, sizes, ChosenFloors(sizes, minimums, MODEL_TOOL_RESULT_GROUP_BYTES),
                  MODEL_TOOL_RESULT_GROUP_BYTES, level)
  }

  // Each protected result whole, and the given floor of each other.
  ghost function Reduced(sizes: seq<nat>, protected: seq<bool>, floors: seq<nat>): (r: seq<nat>)
    requires |protected| == |floors| == |sizes|
    ensures |r| == |sizes|
  {
    seq(|sizes|, i requires 0 <= i < |sizes| => if protected[i] then sizes[i] else floors[i])
  }

  ghost function EightKib(sizes: seq<nat>): (r: seq<nat>)
    ensures |r| == |sizes| && forall i :: 0 <= i < |r| ==> r[i] == if sizes[i] < 8192 then sizes[i] else 8192
  {
    seq(|sizes|, i requires 0 <= i < |sizes| => if sizes[i] < 8192 then sizes[i] else 8192)
  }

  lemma {:induction false} ReducedSum(sizes: seq<nat>, protected: seq<bool>, floors: seq<nat>)
    requires |protected| == |floors| == |sizes|
    ensures Sum(Reduced(sizes, protected, floors)) == ProtectedBytes(sizes, protected) + Sum(Unprotected(floors, protected))
  {
    if sizes != [] {
      var n := |sizes| - 1;
      ReducedSum(sizes[..n], protected[..n], floors[..n]);
      var rest := Unprotected(floors[..n], protected[..n]);
      assert Reduced(sizes, protected, floors)[..n] == Reduced(sizes[..n], protected[..n], floors[..n]);
      assert (rest + [floors[n]])[..|rest|] == rest && rest + [] == rest;
    }
  }

  lemma {:induction false} EightKibUnprotected(sizes: seq<nat>, protected: seq<bool>)
    requires |protected| == |sizes|
    ensures Unprotected(EightKib(sizes), protected) == OrdinaryFloors(Unprotected(sizes, protected))
  {
    if sizes != [] {
      var n := |sizes| - 1;
      EightKibUnprotected(sizes[..n], protected[..n]);
      assert EightKib(sizes)[..n] == EightKib(sizes[..n]);
    }
  }

  // Protected results stay whole exactly when they fit 96 KiB beside 8 KiB of
  // each other result, or beside the others' excerpt labels.
  lemma {:induction false} ProtectedFitExactly(sizes: seq<nat>, protected: seq<bool>, minimums: seq<nat>)
    requires |protected| == |minimums| == |sizes|
    ensures ProtectedFit(sizes, protected, minimums) <==>
              || Sum(Reduced(sizes, protected, EightKib(sizes))) <= 96 * 1024
              || Sum(Reduced(sizes, protected, minimums)) <= 96 * 1024
  {
    hide Sum, Unprotected, ProtectedBytes, Reduced, EightKib, OrdinaryFloors;
    ReducedSum(sizes, protected, EightKib(sizes));
    ReducedSum(sizes, protected, minimums);
    EightKibUnprotected(sizes, protected);
  }

  lemma {:induction false} OrdinaryWithin(sizes: seq<nat>)
    ensures |OrdinaryFloors(sizes)| == |sizes| && forall k :: 0 <= k < |sizes| ==> OrdinaryFloors(sizes)[k] <= sizes[k]
  {
  }

  // When that much of each result fits, each other result shows at least
  // 8 KiB of itself.
  lemma {:induction false} SharesReachFloors(a: seq<nat>, sizes: seq<nat>, protected: seq<bool>, minimums: seq<nat>, level: nat, i: nat)
    requires |protected| == |minimums| == |sizes| == |a| && IsGroupFill(a, sizes, protected, minimums, level)
    requires Sum(sizes) > 96 * 1024 >= Sum(Reduced(sizes, protected, EightKib(sizes)))
    requires i < |a| && !protected[i]
    ensures a[i] >= if sizes[i] < 8192 then sizes[i] else 8192
  {
    hide Sum, Unprotected, ProtectedBytes, Reduced, EightKib, IsWaterFill, ProtectedFit, OrdinaryFloors;
    ProtectedFitExactly(sizes, protected, minimums);
    ReducedSum(sizes, protected, EightKib(sizes));
    EightKibUnprotected(sizes, protected);
    UnprotectedLength(sizes, minimums, protected);
    UnprotectedLength(sizes, a, protected);
    UnprotectedLength(sizes, EightKib(sizes), protected);
    var remaining := MODEL_TOOL_RESULT_GROUP_BYTES - ProtectedBytes(sizes, protected);
    var others := Unprotected(sizes, protected);
    WaterFillSpendsBudget(Unprotected(a, protected), others, OrdinaryFloors(others), remaining, level);
    OrdinaryWithin(others);
    UnprotectedBound(EightKib(sizes), a, protected, i);
  }

  method ModelGroupAllocations(sizes: seq<nat>, protected: seq<bool>, minimums: seq<nat>)
    returns (r: Result<seq<nat>, Overflow>)
    requires |protected| == |minimums| == |sizes|
    requires forall i :: 0 <= i < |sizes| ==> minimums[i] <= sizes[i]
    ensures r.Err? <==> Sum(sizes) > MODEL_TOOL_RESULT_GROUP_BYTES
                        && !ProtectedFit(sizes, protected, minimums)
                        && !FloorsFit(sizes, minimums, MODEL_TOOL_RESULT_GROUP_BYTES)
    ensures r.Ok? ==> |r.value| == |sizes|
    ensures r.Ok? ==> Sum(r.value) == Min(Sum(sizes), MODEL_TOOL_RESULT_GROUP_BYTES)
    ensures r.Ok? ==> forall i :: 0 <= i < |sizes| ==> r.value[i] <= sizes[i]
    ensures r.Ok? ==> forall i :: 0 <= i < |sizes| ==>
              Min(minimums[i], TOOL_RESULT_GROUP_MINIMUM_BYTES) <= r.value[i]
    ensures ProtectedFit(sizes, protected, minimums) ==>
              r.Ok? && forall i :: 0 <= i < |sizes| && protected[i] ==> r.value[i] == sizes[i]
    ensures r.Ok? && Sum(sizes) > MODEL_TOOL_RESULT_GROUP_BYTES ==>
              exists level: nat :: IsGroupFill(r.value, sizes, protected, minimums, level)
  {
    var budget: int := MODEL_TOOL_RESULT_GROUP_BYTES;
    var total := SumInts(sizes);
    if total <= budget {
      return Ok(sizes);
    }
    var protectedBytes, others, otherMinimums := SplitProtected(sizes, protected, minimums);
    UnprotectedPointwise(minimums, sizes, protected);
    MergedSum(sizes, protected);
    var remaining := budget - protectedBytes;
    if remaining >= 0 {
      var otherFloors, fits := FloorsFor(others, otherMinimums, remaining);
      if fits {
        var merged := ShareBesideProtected(sizes, protected, minimums, others, otherFloors, remaining);
        return Ok(merged);
      }
    }
    var floors, fit := FloorsFor(sizes, minimums, budget);
    if !fit {
      return Err(GroupMetadataOverflow);
    }
    var allocations := LargestFirstAllocationsWithFloors(sizes, budget, floors);
    ghost var level: nat :| IsWaterFill(allocations, sizes, floors, budget, level);
    assert IsGroupFill(allocations, sizes, protected, minimums, level);
    return Ok(allocations);
  }

  method ShareBesideProtected(sizes: seq<nat>, protected: seq<bool>, minimums: seq<nat>,
                              others: seq<nat>, otherFloors: seq<nat>, remaining: nat)
    returns (merged: seq<nat>)
    requires |protected| == |minimums| == |sizes|
    requires forall i :: 0 <= i < |sizes| ==> minimums[i] <= sizes[i]
    requires Sum(sizes) > MODEL_TOOL_RESULT_GROUP_BYTES == ProtectedBytes(sizes, protected) + remaining
    requires others == Unprotected(sizes, protected) && |Unprotected(minimums, protected)| == |others|
    requires otherFloors == ChosenFloors(others, Unprotected(minimums, protected), remaining)
    requires ProtectedFit(sizes, protected, minimums) && Feasible(others, otherFloors, remaining)
    ensures |merged| == |sizes|
    ensures Sum(merged) == MODEL_TOOL_RESULT_GROUP_BYTES
    ensures forall i :: 0 <= i < |sizes| ==>
              Min(minimums[i], TOOL_RESULT_GROUP_MINIMUM_BYTES) <= merged[i] <= sizes[i]
    ensures forall i :: 0 <= i < |sizes| && protected[i] ==> merged[i] == sizes[i]
    ensures exists level: nat :: IsGroupFill(merged, sizes, protected, minimums, level)
  {
    MergedSum(sizes, protected);
    var shared := LargestFirstAllocationsWithFloors(others, remaining, otherFloors);
    merged := Merge(sizes, protected, shared);
    MergedBounds(merged, sizes, protected, minimums, otherFloors, shared);
    ghost var level: nat :| IsWaterFill(shared, others, otherFloors, remaining, level);
    SharedIsGroupFill(merged, sizes, protected, minimums, others, otherFloors, remaining, shared, level);
  }

  lemma {:induction false} SharedIsGroupFill(merged: seq<nat>, sizes: seq<nat>, protected: seq<bool>, minimums: seq<nat>,
                          others: seq<nat>, otherFloors: seq<nat>, remaining: nat, shared: seq<nat>, level: nat)
    requires |protected| == |minimums| == |sizes| && IsMerged(merged, sizes, protected, shared)
    requires MODEL_TOOL_RESULT_GROUP_BYTES == ProtectedBytes(sizes, protected) + remaining
    requires others == Unprotected(sizes, protected) && |Unprotected(minimums, protected)| == |others|
    requires otherFloors == ChosenFloors(others, Unprotected(minimums, protected), remaining)
    requires ProtectedFit(sizes, protected, minimums) && IsWaterFill(shared, others, otherFloors, remaining, level)
    ensures IsGroupFill(merged, sizes, protected, minimums, level)
  {
  }

  lemma {:induction false} MergedBounds(merged: seq<nat>, sizes: seq<nat>, protected: seq<bool>, minimums: seq<nat>,
                     floors: seq<nat>, shared: seq<nat>)
    requires |protected| == |minimums| == |sizes| && IsMerged(merged, sizes, protected, shared)
    requires forall i :: 0 <= i < |sizes| ==> minimums[i] <= sizes[i]
    requires floors == OrdinaryFloors(Unprotected(sizes, protected)) || floors == Unprotected(minimums, protected)
    requires |floors| == |shared| == |Unprotected(sizes, protected)|
    requires forall k :: 0 <= k < |shared| ==>
               Min(floors[k], Unprotected(sizes, protected)[k]) <= shared[k] <= Unprotected(sizes, protected)[k]
    ensures forall i :: 0 <= i < |sizes| ==> Min(minimums[i], TOOL_RESULT_GROUP_MINIMUM_BYTES) <= merged[i] <= sizes[i]
    ensures Sum(merged) == ProtectedBytes(sizes, protected) + Sum(shared)
  {
    var least: seq<nat> := seq(|sizes|, i requires 0 <= i < |sizes| => Min(minimums[i], TOOL_RESULT_GROUP_MINIMUM_BYTES) as nat);
    LeastUnprotected(least, minimums, sizes, protected);
    forall i | 0 <= i < |sizes| ensures least[i] <= merged[i] <= sizes[i] {
      if !protected[i] {
        UnprotectedBound(merged, sizes, protected, i);
        UnprotectedBound(least, merged, protected, i);
      }
    }
    MergedSum(merged, protected);
    ProtectedAgree(merged, sizes, protected);
  }

  lemma {:induction false} LeastUnprotected(least: seq<nat>, minimums: seq<nat>, sizes: seq<nat>, protected: seq<bool>)
    requires |protected| == |minimums| == |sizes| == |least|
    requires forall i :: 0 <= i < |sizes| ==> minimums[i] <= sizes[i]
    requires forall i :: 0 <= i < |sizes| ==> least[i] == Min(minimums[i], TOOL_RESULT_GROUP_MINIMUM_BYTES)
    ensures |Unprotected(least, protected)| == |Unprotected(sizes, protected)| == |Unprotected(minimums, protected)|
    ensures forall k :: 0 <= k < |Unprotected(least, protected)| ==>
              && Unprotected(least, protected)[k] == Min(Unprotected(minimums, protected)[k], TOOL_RESULT_GROUP_MINIMUM_BYTES)
              && Unprotected(minimums, protected)[k] <= Unprotected(sizes, protected)[k]
  {
    if sizes != [] {
      var n := |sizes| - 1;
      LeastUnprotected(least[..n], minimums[..n], sizes[..n], protected[..n]);
    }
  }

  method Merge(sizes: seq<nat>, protected: seq<bool>, shared: seq<nat>) returns (allocations: seq<nat>)
    requires |protected| == |sizes| && |shared| == |Unprotected(sizes, protected)|
    ensures IsMerged(allocations, sizes, protected, shared)
  {
    hide Unprotected;
    allocations := [];
    var next := 0;
    NoneUnprotected(sizes[..0], allocations, protected[..0]);
    assert sizes[..|sizes|] == sizes && protected[..|sizes|] == protected;
    for i := 0 to |sizes|
      invariant |allocations| == i
      invariant next == |Unprotected(sizes[..i], protected[..i])| <= |shared|
      invariant Unprotected(allocations, protected[..i]) == shared[..next]
      invariant forall k :: 0 <= k < i && protected[k] ==> allocations[k] == sizes[k]
    {
      UnprotectedPrefix(sizes, protected, i + 1);
      UnprotectedNext(sizes[..i], sizes[i], protected[..i], protected[i]);
      assert sizes[..i + 1] == sizes[..i] + [sizes[i]] && protected[..i + 1] == protected[..i] + [protected[i]];
      if protected[i] {
        UnprotectedNext(allocations, sizes[i], protected[..i], true);
        allocations := allocations + [sizes[i]];
      } else {
        UnprotectedNext(allocations, shared[next], protected[..i], false);
        allocations := allocations + [shared[next]];
        next := next + 1;
      }
    }
    assert shared[..next] == shared;
  }

  lemma {:induction false} NoneUnprotected(a: seq<nat>, b: seq<nat>, protected: seq<bool>)
    requires a == [] && b == [] && protected == []
    ensures Unprotected(a, protected) == Unprotected(b, protected) == []
  {
  }

  lemma {:induction false} UnprotectedNext(values: seq<nat>, v: nat, protected: seq<bool>, p: bool)
    requires |protected| == |values|
    ensures Unprotected(values + [v], protected + [p]) == Unprotected(values, protected) + (if p then [] else [v])
  {
    assert (values + [v])[..|values|] == values && (protected + [p])[..|values|] == protected;
  }

  lemma {:induction false} UnprotectedPrefix(values: seq<nat>, protected: seq<bool>, n: nat)
    requires |protected| == |values| && n <= |values|
    ensures |Unprotected(values[..n], protected[..n])| <= |Unprotected(values, protected)|
    decreases |values|
  {
    if n < |values| {
      var m := |values| - 1;
      assert values[..m][..n] == values[..n] && protected[..m][..n] == protected[..n];
      UnprotectedPrefix(values[..m], protected[..m], n);
    } else {
      assert values[..n] == values && protected[..n] == protected;
    }
  }
}
