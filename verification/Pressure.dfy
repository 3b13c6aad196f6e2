/**
 * Pressure projection: shortening older tool results, oldest first, when a
 * request grows past its target (internal/agent/context.go).
 */
module Pressure {
  import opened Wrappers
  import opened History

  const RETAINED_GROUPS := 3
  const GROUP_BATCH := 4
  const PROJECTION_THRESHOLD := 4 * 1024
  const CLEAR_AT_LEAST_BYTES := 8 * 1024
  const TARGET_PERCENT := 60
  const BAND_PERCENT := 20

  // One tool result: where the request shows it, and its durable content.
  datatype Item = Item(index: nat, protected: bool, original: string)

  // The request encodings: the size of a request that shows these contents,
  // one string's encoded size, and the older-result projection of a content.
  datatype Encoder = Encoder(size: seq<string> -> int, encoded: string -> int, project: (string, bool) -> string)

  // Changing one shown string changes the request's size by exactly the
  // difference of the two encoded strings.
  ghost predicate Additive(e: Encoder) {
    forall shown: seq<string>, i: nat, c: string {:trigger e.size(shown[i := c])} :: i < |shown| ==>
      e.size(shown[i := c]) == e.size(shown) + e.encoded(c) - e.encoded(shown[i])
  }

  function Projection(e: Encoder, item: Item): string {
    e.project(item.original, item.protected)
  }

  // The pass shortens this result.
  predicate Shortens(e: Encoder, item: Item, shown: seq<string>, protected: bool) {
    && item.index < |shown| && item.protected == protected && |item.original| > PROJECTION_THRESHOLD
    && |Projection(e, item)| < |shown[item.index]|
  }

  datatype Pass = Pass(shown: seq<string>, bytes: int)

  function Shortened(e: Encoder, item: Item, p: Pass, reencode: bool): Pass
    requires item.index < |p.shown|
  {
    var shown := p.shown[item.index := Projection(e, item)];
    Pass(shown, if reencode then e.size(shown) else p.bytes + e.encoded(Projection(e, item)) - e.encoded(p.shown[item.index]))
  }

  // Shortening oldest first until the request reaches the target.
  function Run(e: Encoder, items: seq<Item>, p: Pass, target: int, protected: bool, reencode: bool): Pass {
    if items == [] || p.bytes <= target then p
    else if Shortens(e, items[0], p.shown, protected) then
      Run(e, items[1..], Shortened(e, items[0], p, reencode), target, protected, reencode)
    else Run(e, items[1..], p, target, protected, reencode)
  }

  // ---- projectOlder ----

  method ProjectGroups(e: Encoder, groups: seq<seq<Item>>, start: Pass, target: int, protected: bool, reencode: bool)
    returns (p: Pass, shortened: bool)
    ensures p == Run(e, Flatten(groups), start, target, protected, reencode)
    ensures !shortened ==> p == start
  {
    p, shortened := start, false;
    var g := 0;
    while p.bytes > target && g < |groups|
      invariant g <= |groups|
      invariant Run(e, Flatten(groups), start, target, protected, reencode)
                == Run(e, Flatten(groups[g..]), p, target, protected, reencode)
      invariant !shortened ==> p == start
      decreases |groups| - g
    {
      var group := groups[g];
      assert Flatten(groups[g..]) == group + Flatten(groups[g + 1..]);
      ghost var rest := Flatten(groups[g + 1..]);
      var i := 0;
      while i < |group| && p.bytes > target
        invariant i <= |group|
        invariant Run(e, Flatten(groups), start, target, protected, reencode)
                  == Run(e, group[i..] + rest, p, target, protected, reencode)
        invariant !shortened ==> p == start
        decreases |group| - i
      {
        assert (group[i..] + rest)[1..] == group[i + 1..] + rest;
        if Shortens(e, group[i], p.shown, protected) {
          p, shortened := Shortened(e, group[i], p, reencode), true;
        }
        i := i + 1;
      }
      if i == |group| {
        assert group[i..] + rest == rest;
      } else {
        RunStops(e, group[i..] + rest, p, target, protected, reencode);
        RunStops(e, rest, p, target, protected, reencode);
      }
      g := g + 1;
    }
    if g == |groups| {
      assert groups[g..] == [];
    }
    RunStops(e, Flatten(groups[g..]), p, target, protected, reencode);
  }

  lemma {:induction false} RunStops(e: Encoder, items: seq<Item>, p: Pass, target: int, protected: bool, reencode: bool)
    requires p.bytes <= target || items == []
    ensures Run(e, items, p, target, protected, reencode) == p
  {
  }

  // The running total comes out wrong, so the pass is redone.
  predicate Redone(e: Encoder, items: seq<Item>, start: Pass, target: int, protected: bool) {
    var fast := Run(e, items, start, target, protected, false);
    e.size(fast.shown) != fast.bytes
  }

  function Older(e: Encoder, items: seq<Item>, start: Pass, target: int, protected: bool): Pass {
    Run(e, items, start, target, protected, Redone(e, items, start, target, protected))
  }

  // What any pass leaves, whichever way it is encoded, is its true size; and
  // an additive encoding never needs the second way.
  lemma {:induction false} OlderIsExact(e: Encoder, items: seq<Item>, start: Pass, target: int, protected: bool)
    requires start.bytes == e.size(start.shown)
    ensures var p := Older(e, items, start, target, protected); p.bytes == e.size(p.shown)
    ensures Additive(e) ==>
              Older(e, items, start, target, protected) == Run(e, items, start, target, protected, true)
              == Run(e, items, start, target, protected, false)
  {
    ReencodedTotal(e, items, start, target, protected);
    if Additive(e) {
      RunningTotal(e, items, start, target, protected);
    }
  }

  method ProjectOlder(e: Encoder, groups: seq<seq<Item>>, start: Pass, target: int, protected: bool) returns (p: Pass)
    requires start.bytes == e.size(start.shown)
    ensures p == Older(e, Flatten(groups), start, target, protected)
    ensures p.bytes == e.size(p.shown)
  {
    var shortened;
    p, shortened := ProjectGroups(e, groups, start, target, protected, false);
    OlderIsExact(e, Flatten(groups), start, target, protected);
    if shortened && e.size(p.shown) != p.bytes {
      p, shortened := ProjectGroups(e, groups, start, target, protected, true);
    }
  }

  // Re-encoding after each shortening keeps the total exact.
  lemma {:induction false} ReencodedTotal(e: Encoder, items: seq<Item>, p: Pass, target: int, protected: bool)
    requires p.bytes == e.size(p.shown)
    ensures var end := Run(e, items, p, target, protected, true); end.bytes == e.size(end.shown)
  {
    if items != [] && p.bytes > target {
      var next := if Shortens(e, items[0], p.shown, protected) then Shortened(e, items[0], p, true) else p;
      ReencodedTotal(e, items[1..], next, target, protected);
    }
  }

  // Given an additive encoding, the running total shortens exactly the same
  // results as re-encoding after each one, and ends at the encoded size.
  lemma {:induction false} RunningTotal(e: Encoder, items: seq<Item>, p: Pass, target: int, protected: bool)
    requires Additive(e) && p.bytes == e.size(p.shown)
    ensures Run(e, items, p, target, protected, false) == Run(e, items, p, target, protected, true)
    ensures var end := Run(e, items, p, target, protected, false); end.bytes == e.size(end.shown)
  {
    if items != [] && p.bytes > target {
      if Shortens(e, items[0], p.shown, protected) {
        assert Shortened(e, items[0], p, false) == Shortened(e, items[0], p, true);
        RunningTotal(e, items[1..], Shortened(e, items[0], p, true), target, protected);
      } else {
        RunningTotal(e, items[1..], p, target, protected);
      }
    }
  }

  // ---- what a pass shortens ----

  predicate DistinctIndexes(items: seq<Item>) {
    forall i, j :: 0 <= i < j < |items| ==> items[i].index != items[j].index
  }

  // The results a pass may shorten, oldest first.
  function Eligible(e: Encoder, items: seq<Item>, shown: seq<string>, protected: bool): (eligible: seq<Item>)
    ensures |eligible| <= |items|
  {
    if items == [] then []
    else (if Shortens(e, items[0], shown, protected) then [items[0]] else []) + Eligible(e, items[1..], shown, protected)
  }

  function ShortenAll(e: Encoder, items: seq<Item>, p: Pass): Pass {
    if items == [] then p
    else if items[0].index < |p.shown| then ShortenAll(e, items[1..], Shortened(e, items[0], p, false))
    else ShortenAll(e, items[1..], p)
  }

  // The pass shortens the first k: as few as reach the target, or all.
  ghost predicate Shortest(e: Encoder, eligible: seq<Item>, p: Pass, target: int, k: nat) {
    && k <= |eligible|
    && (forall j :: 0 <= j < k ==> ShortenAll(e, eligible[..j], p).bytes > target)
    && (k < |eligible| ==> ShortenAll(e, eligible[..k], p).bytes <= target)
  }

  // A pass shortens exactly the shortest oldest-first prefix of its eligible
  // results whose savings reach the target, or all of them.
  lemma {:induction false} PassIsShortestPrefix(e: Encoder, items: seq<Item>, p: Pass, target: int, protected: bool) returns (k: nat)
    requires DistinctIndexes(items)
    ensures Shortest(e, Eligible(e, items, p.shown, protected), p, target, k)
    ensures Run(e, items, p, target, protected, false)
            == ShortenAll(e, Eligible(e, items, p.shown, protected)[..k], p)
  {
    var eligible := Eligible(e, items, p.shown, protected);
    if items == [] || p.bytes <= target {
      k := 0;
      assert eligible[..0] == [];
    } else if Shortens(e, items[0], p.shown, protected) {
      var next := Shortened(e, items[0], p, false);
      EligibleElsewhere(e, items[1..], p.shown, items[0].index, Projection(e, items[0]), protected);
      var m := PassIsShortestPrefix(e, items[1..], next, target, protected);
      var rest := Eligible(e, items[1..], next.shown, protected);
      assert eligible == [items[0]] + rest;
      k := m + 1;
      forall j | 0 <= j < k
        ensures ShortenAll(e, eligible[..j], p).bytes > target
      {
        if j > 0 {
          ShortenCons(e, items[0], rest, j - 1, p);
        } else {
          assert eligible[..0] == [];
        }
      }
      ShortenCons(e, items[0], rest, m, p);
    } else {
      k := PassIsShortestPrefix(e, items[1..], p, target, protected);
      assert eligible == Eligible(e, items[1..], p.shown, protected);
    }
  }

  lemma {:induction false} ShortenCons(e: Encoder, item: Item, rest: seq<Item>, j: nat, p: Pass)
    requires j <= |rest| && item.index < |p.shown|
    ensures ShortenAll(e, ([item] + rest)[..j + 1], p) == ShortenAll(e, rest[..j], Shortened(e, item, p, false))
  {
    var items := ([item] + rest)[..j + 1];
    assert items[1..] == rest[..j];
  }

  // Shortening one result leaves the others' eligibility.
  lemma {:induction false} EligibleElsewhere(e: Encoder, items: seq<Item>, shown: seq<string>, i: nat, c: string, protected: bool)
    requires i < |shown| && forall k :: 0 <= k < |items| ==> items[k].index != i
    ensures Eligible(e, items, shown[i := c], protected) == Eligible(e, items, shown, protected)
  {
    if items != [] {
      EligibleElsewhere(e, items[1..], shown, i, c, protected);
    }
  }

  // ---- the passes of a projection ----

  // value * percent / 100 without overflow.
  function PercentageFloor(value: nat, percent: nat): (p: nat)
    ensures p == value * percent / 100
  {
    PercentageSplit(value, percent);
    (value / 100) * percent + (value % 100) * percent / 100
  }

  lemma {:induction false} PercentageSplit(value: nat, percent: nat)
    ensures (value / 100) * percent + (value % 100) * percent / 100 == value * percent / 100
  {
    var q, r := value / 100, value % 100;
    assert value * percent == 100 * (q * percent) + r * percent by {
      assert value == 100 * q + r;
      MulSplit(q, r, percent);
    }
  }

  lemma {:induction false} MulSplit(q: nat, r: nat, percent: nat)
    ensures (100 * q + r) * percent == 100 * (q * percent) + r * percent
  {
  }

  // Bytes to free are rounded up to whole bands of usable input.
  function PressureTarget(bytes: int, usable: nat): int {
    var floor := PercentageFloor(usable, TARGET_PERCENT);
    var band := PercentageFloor(usable, BAND_PERCENT);
    if bytes > floor && band > 0 then bytes - (bytes - floor + band - 1) / band * band else floor
  }

  // The target reaches the floor by less than a band, and two requests in the
  // same band free the same number of bytes.
  lemma {:induction false} TargetInBand(bytes: int, usable: nat)
    ensures var floor, band := usable * 60 / 100, usable * 20 / 100;
            && PressureTarget(bytes, usable) <= floor <= usable
            && (bytes > floor && band > 0 ==>
                  && PressureTarget(bytes, usable) > floor - band
                  && exists k: nat :: bytes - PressureTarget(bytes, usable) == k * band
                       && (k - 1) * band < bytes - floor <= k * band)
  {
    var floor, band := PercentageFloor(usable, TARGET_PERCENT), PercentageFloor(usable, BAND_PERCENT);
    if bytes > floor && band > 0 {
      var k: nat := (bytes - floor + band - 1) / band;
      Bands(bytes - floor, band);
      assert bytes - PressureTarget(bytes, usable) == k * band;
    }
  }

  lemma {:induction false} Bands(excess: nat, band: nat)
    requires excess > 0 && band > 0
    ensures var k: int := (excess + band - 1) / band; k >= 1 && (k - 1) * band < excess <= k * band
  {
    var n := excess + band - 1;
    var k := n / band;
    assert n == k * band + n % band;
    assert (k - 1) * band == k * band - band;
  }

  function AllEligible(groups: seq<seq<Item>>): (n: nat)
    ensures n <= |groups|
  {
    if |groups| > RETAINED_GROUPS then |groups| - RETAINED_GROUPS else 0
  }

  // Groups become eligible in whole batches while the request fits.
  function Batched(groups: seq<seq<Item>>): (n: nat)
    ensures n <= AllEligible(groups)
  {
    AllEligible(groups) / GROUP_BATCH * GROUP_BATCH
  }

  // The unprotected passes: whole batches, then as far as it takes to fit.
  ghost function Unprotected(e: Encoder, groups: seq<seq<Item>>, start: Pass, usable: nat): Pass {
    var target := PressureTarget(start.bytes, usable);
    var first := Older(e, Flatten(groups[..Batched(groups)]), start, target, false);
    if first.bytes > usable && Batched(groups) < AllEligible(groups)
    then Older(e, Flatten(groups[..AllEligible(groups)]), first, target, false)
    else first
  }

  ghost function Pressured(e: Encoder, groups: seq<seq<Item>>, start: Pass, usable: nat): Pass {
    var unprotected := Unprotected(e, groups, start, usable);
    if unprotected.bytes > usable
    then Older(e, Flatten(groups[..AllEligible(groups)]), unprotected, PressureTarget(start.bytes, usable), true)
    else unprotected
  }

  function Min(a: int, b: int): int {
    if a < b then a else b
  }

  // clear_at_least: a small saving is not worth the provider's cache.
  predicate TooSmall(start: Pass, p: Pass, usable: nat) {
    && start.bytes - p.bytes > 0 && start.bytes <= usable
    && start.bytes - p.bytes < Min(CLEAR_AT_LEAST_BYTES, start.bytes - PressureTarget(start.bytes, usable))
  }

  method ProjectUnderPressure(e: Encoder, groups: seq<seq<Item>>, shown: seq<string>, usable: nat) returns (p: Pass)
    ensures p.bytes == e.size(p.shown)
    ensures var start := Pass(shown, e.size(shown));
            var pressured := Pressured(e, groups, start, usable);
            var freed := start.bytes - pressured.bytes;
            if start.bytes <= usable && 0 < freed < 8192 && pressured.bytes > PressureTarget(start.bytes, usable)
            then p == start else p == pressured
  {
    hide Run, Older, PressureTarget;
    var start := Pass(shown, e.size(shown));
    var target := PressureTarget(start.bytes, usable);
    var all := AllEligible(groups);
    var eligible := Batched(groups);
    p := ProjectOlder(e, groups[..eligible], start, target, false);
    if p.bytes > usable && eligible < all {
      eligible := all;
      p := ProjectOlder(e, groups[..eligible], p, target, false);
    }
    if p.bytes > usable {
      p := ProjectOlder(e, groups[..eligible], p, target, true);
    }
    if TooSmall(start, p, usable) {
      return start;
    }
  }

  // ---- protected results come last ----

  // A pass leaves what none of its results shows.
  lemma {:induction false} RunTouches(e: Encoder, items: seq<Item>, p: Pass, target: int, protected: bool, reencode: bool, i: nat)
    requires forall k :: 0 <= k < |items| ==> items[k].index != i
    ensures var end := Run(e, items, p, target, protected, reencode);
            |end.shown| == |p.shown| && (i < |p.shown| ==> end.shown[i] == p.shown[i])
  {
    if items != [] && p.bytes > target {
      var next := if Shortens(e, items[0], p.shown, protected) then Shortened(e, items[0], p, reencode) else p;
      RunTouches(e, items[1..], next, target, protected, reencode, i);
    }
  }

  lemma {:induction false} OlderTouches(e: Encoder, items: seq<Item>, p: Pass, target: int, protected: bool, i: nat)
    requires forall k :: 0 <= k < |items| ==> items[k].index != i
    ensures var end := Older(e, items, p, target, protected);
            |end.shown| == |p.shown| && (i < |p.shown| ==> end.shown[i] == p.shown[i])
  {
    RunTouches(e, items, p, target, protected, Redone(e, items, p, target, protected), i);
  }

  // One content is left as it was or becomes the result's projection, which
  // is shorter; a result of the other kind or of at most 4 KiB is left alone.
  ghost predicate Projects(e: Encoder, item: Item, protected: bool, before: string, after: string) {
    || after == before
    || (&& item.protected == protected && |item.original| > 4096
        && after == e.project(item.original, item.protected) && |after| < |before|)
  }

  // Nothing is left to gain from the result.
  ghost predicate Spent(e: Encoder, item: Item, shown: string) {
    |item.original| <= 4096 || |e.project(item.original, item.protected)| >= |shown|
  }

  lemma {:induction false} RunLength(e: Encoder, items: seq<Item>, p: Pass, target: int, protected: bool, reencode: bool)
    ensures |Run(e, items, p, target, protected, reencode).shown| == |p.shown|
  {
    if items != [] && p.bytes > target {
      var next := if Shortens(e, items[0], p.shown, protected) then Shortened(e, items[0], p, reencode) else p;
      RunLength(e, items[1..], next, target, protected, reencode);
    }
  }

  // What a pass does to one of its results; above its target, it leaves
  // nothing to gain from any result of its kind.
  lemma {:induction false} RunShows(e: Encoder, items: seq<Item>, p: Pass, target: int, protected: bool, reencode: bool, j: nat)
    requires DistinctIndexes(items) && j < |items| && items[j].index < |p.shown|
    ensures var end := Run(e, items, p, target, protected, reencode);
            && |end.shown| == |p.shown|
            && Projects(e, items[j], protected, p.shown[items[j].index], end.shown[items[j].index])
            && (end.bytes > target && items[j].protected == protected ==> Spent(e, items[j], end.shown[items[j].index]))
  {
    RunLength(e, items, p, target, protected, reencode);
    if p.bytes > target {
      var next := if Shortens(e, items[0], p.shown, protected) then Shortened(e, items[0], p, reencode) else p;
      if j == 0 {
        RunTouches(e, items[1..], next, target, protected, reencode, items[0].index);
      } else {
        assert items[j].index != items[0].index;
        RunShows(e, items[1..], next, target, protected, reencode, j - 1);
      }
    }
  }

  lemma {:induction false} OlderShows(e: Encoder, items: seq<Item>, p: Pass, target: int, protected: bool, j: nat)
    requires DistinctIndexes(items) && j < |items| && items[j].index < |p.shown|
    ensures var end := Older(e, items, p, target, protected);
            && |end.shown| == |p.shown|
            && Projects(e, items[j], protected, p.shown[items[j].index], end.shown[items[j].index])
            && (end.bytes > target && items[j].protected == protected ==> Spent(e, items[j], end.shown[items[j].index]))
  {
    hide Projects, Spent, Shortens;
    RunShows(e, items, p, target, protected, Redone(e, items, p, target, protected), j);
  }

  // The unprotected passes on one eligible result.
  lemma {:induction false} UnprotectedShows(e: Encoder, groups: seq<seq<Item>>, start: Pass, usable: nat, j: nat)
    requires DistinctIndexes(Flatten(groups[..AllEligible(groups)]))
    requires j < |Flatten(groups[..AllEligible(groups)])| && Flatten(groups[..AllEligible(groups)])[j].index < |start.shown|
    ensures var item := Flatten(groups[..AllEligible(groups)])[j];
            var p := Unprotected(e, groups, start, usable);
            && |p.shown| == |start.shown|
            && Projects(e, item, false, start.shown[item.index], p.shown[item.index])
            && (p.bytes > usable && !item.protected ==> Spent(e, item, p.shown[item.index]))
  {
    hide Older, Projects, Spent, PressureTarget, DistinctIndexes;
    TargetInBand(start.bytes, usable);
    var target := PressureTarget(start.bytes, usable);
    var all, some := groups[..AllEligible(groups)], groups[..Batched(groups)];
    var item := Flatten(all)[j];
    assert some == all[..Batched(groups)];
    FlattenPrefix(all, Batched(groups));
    DistinctPrefix(Flatten(some), Flatten(all));
    var first := Older(e, Flatten(some), start, target, false);
    if j < |Flatten(some)| {
      OlderShows(e, Flatten(some), start, target, false, j);
    } else {
      assert some != all;
      AfterPrefix(Flatten(some), Flatten(all), j);
      OlderTouches(e, Flatten(some), start, target, false, item.index);
      LeftAlone(e, item, false, start.shown[item.index]);
    }
    OlderShows(e, Flatten(all), first, target, false, j);
    var second := Older(e, Flatten(all), first, target, false);
    ProjectsTwice(e, item, false, start.shown[item.index], first.shown[item.index], second.shown[item.index]);
  }

  lemma {:induction false} DistinctPrefix(some: seq<Item>, all: seq<Item>)
    requires some <= all && DistinctIndexes(all)
    ensures DistinctIndexes(some)
  {
  }

  lemma {:induction false} AfterPrefix(some: seq<Item>, all: seq<Item>, j: nat)
    requires some <= all && DistinctIndexes(all) && |some| <= j < |all|
    ensures forall k :: 0 <= k < |some| ==> some[k].index != all[j].index
  {
    assert forall k :: 0 <= k < |some| ==> some[k] == all[k];
  }

  lemma {:induction false} LeftAlone(e: Encoder, item: Item, protected: bool, shown: string)
    ensures Projects(e, item, protected, shown, shown)
  {
  }

  lemma {:induction false} ProjectsTwice(e: Encoder, item: Item, protected: bool, a: string, b: string, c: string)
    requires Projects(e, item, protected, a, b) && Projects(e, item, protected, b, c)
    ensures Projects(e, item, protected, a, c)
  {
  }

  lemma {:induction false} OtherKind(e: Encoder, item: Item, protected: bool, before: string, after: string)
    requires Projects(e, item, protected, before, after) && item.protected != protected
    ensures after == before
  {
  }

  // All passes on one eligible result.
  lemma {:induction false} PressuredShows(e: Encoder, groups: seq<seq<Item>>, start: Pass, usable: nat, j: nat)
    requires DistinctIndexes(Flatten(groups[..AllEligible(groups)]))
    requires j < |Flatten(groups[..AllEligible(groups)])| && Flatten(groups[..AllEligible(groups)])[j].index < |start.shown|
    ensures var item := Flatten(groups[..AllEligible(groups)])[j];
            var u, p := Unprotected(e, groups, start, usable), Pressured(e, groups, start, usable);
            && |u.shown| == |p.shown| == |start.shown|
            && Projects(e, item, item.protected, start.shown[item.index], p.shown[item.index])
            && (item.protected ==> u.shown[item.index] == start.shown[item.index])
            && (!item.protected ==> p.shown[item.index] == u.shown[item.index])
            && (u.bytes > usable && !item.protected ==> Spent(e, item, p.shown[item.index]))
            && (u.bytes <= usable ==> p == u)
  {
    hide Older, Projects, Spent, PressureTarget, DistinctIndexes, Unprotected;
    var all := Flatten(groups[..AllEligible(groups)]);
    var item := all[j];
    var u, p := Unprotected(e, groups, start, usable), Pressured(e, groups, start, usable);
    UnprotectedShows(e, groups, start, usable, j);
    OlderShows(e, all, u, PressureTarget(start.bytes, usable), true, j);
    if item.protected {
      OtherKind(e, item, false, start.shown[item.index], u.shown[item.index]);
      LeftAlone(e, item, true, start.shown[item.index]);
    } else {
      OtherKind(e, item, true, u.shown[item.index], Older(e, all, u, PressureTarget(start.bytes, usable), true).shown[item.index]);
    }
  }

  // The result's place among those of the groups that may be shortened.
  lemma {:induction false} EligibleAt(groups: seq<seq<Item>>, g: nat, k: nat) returns (j: nat)
    requires DistinctIndexes(Flatten(groups)) && g + 3 < |groups| && k < |groups[g]|
    ensures var all := Flatten(groups[..AllEligible(groups)]); DistinctIndexes(all) && j < |all| && all[j] == groups[g][k]
  {
    var all := groups[..AllEligible(groups)];
    j := FlattenHas(all, g, k);
    FlattenPrefix(groups, AllEligible(groups));
    DistinctPrefix(Flatten(all), Flatten(groups));
  }

  // The passes over unprotected results leave a protected one whole. It is
  // shortened only when the request they leave still exceeds usable input,
  // and then no older unprotected result has anything left to gain.
  lemma {:induction false} ProtectedLast(e: Encoder, groups: seq<seq<Item>>, start: Pass, usable: nat, g: nat, k: nat)
    requires DistinctIndexes(Flatten(groups))
    requires g + 3 < |groups| && k < |groups[g]| && groups[g][k].protected && groups[g][k].index < |start.shown|
    ensures var u, p, i := Unprotected(e, groups, start, usable), Pressured(e, groups, start, usable), groups[g][k].index;
            && |u.shown| == |p.shown| == |start.shown|
            && u.shown[i] == start.shown[i]
            && (p.shown[i] != start.shown[i] ==>
                  && u.bytes > usable
                  && forall h, m :: 0 <= h < |groups| - 3 && 0 <= m < |groups[h]| && !groups[h][m].protected
                                    && groups[h][m].index < |p.shown| ==>
                       || |groups[h][m].original| <= 4096
                       || |e.project(groups[h][m].original, false)| >= |p.shown[groups[h][m].index]|)
  {
    var j := EligibleAt(groups, g, k);
    PressuredShows(e, groups, start, usable, j);
    forall h, m | 0 <= h < |groups| - 3 && 0 <= m < |groups[h]| && !groups[h][m].protected && groups[h][m].index < |start.shown|
      ensures Unprotected(e, groups, start, usable).bytes > usable ==>
                Spent(e, groups[h][m], Pressured(e, groups, start, usable).shown[groups[h][m].index])
    {
      var n := EligibleAt(groups, h, m);
      PressuredShows(e, groups, start, usable, n);
    }
  }

  // Whatever the passes change is an older result of more than 4 KiB, and it
  // then shows that result's own projection, which is shorter.
  lemma {:induction false} ShownIsProjected(e: Encoder, groups: seq<seq<Item>>, start: Pass, usable: nat, g: nat, k: nat)
    requires DistinctIndexes(Flatten(groups)) && g < |groups| && k < |groups[g]| && groups[g][k].index < |start.shown|
    ensures var p, item := Pressured(e, groups, start, usable), groups[g][k];
            && |p.shown| == |start.shown|
            && (p.shown[item.index] != start.shown[item.index] ==>
                  && g + 3 < |groups| && |item.original| > 4096
                  && p.shown[item.index] == e.project(item.original, item.protected)
                  && |p.shown[item.index]| < |start.shown[item.index]|)
  {
    if g + 3 < |groups| {
      var j := EligibleAt(groups, g, k);
      PressuredShows(e, groups, start, usable, j);
    } else {
      NewestGroupsStay(e, groups, start, usable, g, k);
    }
  }

  // The three newest groups are never shortened.
  lemma {:induction false} NewestGroupsStay(e: Encoder, groups: seq<seq<Item>>, start: Pass, usable: nat, g: nat, k: nat)
    requires DistinctIndexes(Flatten(groups))
    requires |groups| - 3 <= g < |groups| && k < |groups[g]| && groups[g][k].index < |start.shown|
    ensures var p, i := Pressured(e, groups, start, usable), groups[g][k].index;
            |p.shown| == |start.shown| && p.shown[i] == start.shown[i]
  {
    hide Pressured;
    var n := AllEligible(groups);
    var j := FlattenHas(groups, g, k);
    FlattenPrefix(groups, n);
    assert |Flatten(groups[..n])| <= j;
    AfterPrefix(Flatten(groups[..n]), Flatten(groups), j);
    OthersStay(e, groups, start, usable, groups[g][k].index);
  }

  // What no eligible result shows is left alone.
  lemma {:induction false} OthersStay(e: Encoder, groups: seq<seq<Item>>, start: Pass, usable: nat, i: nat)
    requires i < |start.shown|
    requires forall k :: 0 <= k < |Flatten(groups[..AllEligible(groups)])| ==>
               Flatten(groups[..AllEligible(groups)])[k].index != i
    ensures var p := Pressured(e, groups, start, usable); |p.shown| == |start.shown| && p.shown[i] == start.shown[i]
  {
    hide Older, PressureTarget;
    var target := PressureTarget(start.bytes, usable);
    var all, some := groups[..AllEligible(groups)], groups[..Batched(groups)];
    assert some == all[..Batched(groups)];
    FlattenPrefix(all, Batched(groups));
    assert forall k :: 0 <= k < |Flatten(some)| ==> Flatten(some)[k] == Flatten(all)[k];
    OlderTouches(e, Flatten(some), start, target, false, i);
    var first := Older(e, Flatten(some), start, target, false);
    OlderTouches(e, Flatten(all), first, target, false, i);
    OlderTouches(e, Flatten(all), Unprotected(e, groups, start, usable), target, true, i);
  }

  // While the request fits, only the older groups in whole fours are
  // shortened: of their unprotected results the shortest oldest-first prefix
  // that reaches the target, or all of them.
  lemma {:induction false} WholeBatchesFirst(e: Encoder, groups: seq<seq<Item>>, start: Pass, usable: nat, n: nat) returns (k: nat)
    requires Additive(e) && start.bytes == e.size(start.shown) && DistinctIndexes(Flatten(groups))
    requires n <= |groups| && n % 4 == 0 && if |groups| <= 3 then n == 0 else n <= |groups| - 3 < n + 4
    ensures var eligible := Eligible(e, Flatten(groups[..n]), start.shown, false);
            && Shortest(e, eligible, start, PressureTarget(start.bytes, usable), k)
            && (ShortenAll(e, eligible[..k], start).bytes <= usable ==>
                  Pressured(e, groups, start, usable) == ShortenAll(e, eligible[..k], start))
  {
    hide Older, PressureTarget, Eligible, Shortest, ShortenAll, Additive, Run;
    assert n == Batched(groups);
    FlattenPrefix(groups, n);
    DistinctPrefix(Flatten(groups[..n]), Flatten(groups));
    var target := PressureTarget(start.bytes, usable);
    k := PassIsShortestPrefix(e, Flatten(groups[..n]), start, target, false);
    OlderIsExact(e, Flatten(groups[..n]), start, target, false);
  }
}
