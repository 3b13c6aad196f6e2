/**
 * What a request may show of the evidence it selects: no graph path,
 * conflict or relation without the Claims that support it
 * (internal/agent/retrieval_budget.go).
 */
module EvidenceSupport {
  import opened EvidenceBuffer

  const GRAPH_REASON := "graph_"

  function Filter<T>(xs: seq<T>, keep: T -> bool): (kept: seq<T>)
    ensures |kept| <= |xs| && forall x :: x in kept ==> x in xs && keep(x)
  {
    if xs == [] then []
    else
      var n := |xs| - 1;
      Filter(xs[..n], keep) + (if keep(xs[n]) then [xs[n]] else [])
  }

  method KeepIf<T>(xs: seq<T>, keep: T -> bool) returns (kept: seq<T>)
    ensures kept == Filter(xs, keep)
  {
    kept := [];
    for i := 0 to |xs|
      invariant kept == Filter(xs[..i], keep)
    {
      assert xs[..i + 1][..i] == xs[..i];
      if keep(xs[i]) {
        kept := kept + [xs[i]];
      }
    }
    assert xs[..|xs|] == xs;
  }

  // The item each Claim is selected by: the last that names it.
  function Selected(evidence: seq<Item>): (selected: map<string, Item>)
    ensures forall id :: id in selected ==> selected[id] in evidence && selected[id].claimId == id
  {
    if evidence == [] then map[]
    else
      var n := |evidence| - 1;
      var before := Selected(evidence[..n]);
      if evidence[n].claimId == "" then before else before[evidence[n].claimId := evidence[n]]
  }

  method SelectClaims(evidence: seq<Item>) returns (selected: map<string, Item>)
    ensures selected == Selected(evidence)
  {
    selected := map[];
    for i := 0 to |evidence|
      invariant selected == Selected(evidence[..i])
    {
      assert evidence[..i + 1][..i] == evidence[..i];
      if evidence[i].claimId != "" {
        selected := selected[evidence[i].claimId := evidence[i]];
      }
    }
    assert evidence[..|evidence|] == evidence;
  }

  predicate SameView(a: Item, b: Item) {
    a.intent == b.intent && a.validAt == b.validAt && a.asKnownAt == b.asKnownAt && a.validAtConstrained == b.validAtConstrained
  }

  // Every Claim of the path is selected, under the item's own view.
  predicate PathHolds(selected: map<string, Item>, item: Item, path: GraphPath) {
    forall k :: 0 <= k < |path.claimIds| ==> path.claimIds[k] in selected && SameView(selected[path.claimIds[k]], item)
  }

  predicate ConflictHolds(selected: map<string, Item>, conflict: Conflict) {
    forall k :: 0 <= k < |conflict.claimIds| ==> conflict.claimIds[k] in selected
  }

  predicate IsGraphReason(reason: string) {
    |reason| >= |GRAPH_REASON| && reason[..|GRAPH_REASON|] == GRAPH_REASON
  }

  // Found by graph traversal alone.
  predicate GraphOnly(item: Item) {
    item.paths != [] && forall k :: 0 <= k < |item.paths| ==> IsGraphReason(item.paths[k])
  }

  function WithPaths(selected: map<string, Item>, item: Item): Item {
    item.(graphPaths := Filter(item.graphPaths, path => PathHolds(selected, item, path)))
  }

  // The items that keep a reason to be shown.
  function Reached(selected: map<string, Item>, evidence: seq<Item>): (reached: seq<Item>)
    ensures |reached| <= |evidence|
  {
    if evidence == [] then []
    else
      var n := |evidence| - 1;
      var item := WithPaths(selected, evidence[n]);
      Reached(selected, evidence[..n]) + (if GraphOnly(item) && item.graphPaths == [] then [] else [item])
  }

  function Pruned(selected: map<string, Item>, item: Item): Item {
    item.(conflicts := Filter(item.conflicts, conflict => ConflictHolds(selected, conflict)),
          relatedClaimIds := Filter(item.relatedClaimIds, id => id in selected))
  }

  function PrunedAll(selected: map<string, Item>, evidence: seq<Item>): (pruned: seq<Item>)
    ensures |pruned| == |evidence|
  {
    seq(|evidence|, k requires 0 <= k < |evidence| => Pruned(selected, evidence[k]))
  }

  // projectionSupportedEvidence
  function Supported(evidence: seq<Item>): (supported: seq<Item>)
    ensures |supported| <= |evidence|
  {
    var reached := Reached(Selected(evidence), evidence);
    PrunedAll(Selected(reached), reached)
  }

  method GraphAndDirect(paths: seq<string>) returns (graph: bool, direct: bool)
    ensures graph <==> exists k :: 0 <= k < |paths| && IsGraphReason(paths[k])
    ensures direct <==> exists k :: 0 <= k < |paths| && !IsGraphReason(paths[k])
    ensures graph && !direct <==> paths != [] && forall k :: 0 <= k < |paths| ==> IsGraphReason(paths[k])
  {
    graph, direct := false, false;
    for i := 0 to |paths|
      invariant graph <==> exists k :: 0 <= k < i && IsGraphReason(paths[k])
      invariant direct <==> exists k :: 0 <= k < i && !IsGraphReason(paths[k])
    {
      if IsGraphReason(paths[i]) {
        graph := true;
      } else {
        direct := true;
      }
    }
    assert paths != [] ==> IsGraphReason(paths[0]) || !IsGraphReason(paths[0]);
  }

  method ProjectionSupportedEvidence(evidence: seq<Item>) returns (supported: seq<Item>)
    ensures supported == Supported(evidence)
  {
    var selected := SelectClaims(evidence);
    supported := [];
    for i := 0 to |evidence|
      invariant supported == Reached(selected, evidence[..i])
    {
      assert evidence[..i + 1][..i] == evidence[..i];
      var item := evidence[i];
      var paths := KeepIf(item.graphPaths, path => PathHolds(selected, evidence[i], path));
      item := item.(graphPaths := paths);
      assert item == WithPaths(selected, evidence[i]);
      var graph, direct := GraphAndDirect(item.paths);
      assert GraphOnly(item) <==> graph && !direct;
      if !graph || direct || |item.graphPaths| > 0 {
        supported := supported + [item];
      }
    }
    assert evidence[..|evidence|] == evidence;
    ghost var reached := supported;
    selected := SelectClaims(supported);
    for i := 0 to |supported|
      invariant |supported| == |reached|
      invariant forall k :: 0 <= k < i ==> supported[k] == Pruned(selected, reached[k])
      invariant forall k :: i <= k < |reached| ==> supported[k] == reached[k]
    {
      var conflicts := KeepIf(supported[i].conflicts, conflict => ConflictHolds(selected, conflict));
      var related := KeepIf(supported[i].relatedClaimIds, id => id in selected);
      supported := supported[i := supported[i].(conflicts := conflicts, relatedClaimIds := related)];
    }
    assert supported == PrunedAll(selected, reached);
  }

  // ---- what it promises ----

  // The shown item is the held one with some graph paths, conflicts and
  // relations left out.
  ghost predicate PrunedFrom(shown: Item, held: Item) {
    && shown == held.(graphPaths := shown.graphPaths, conflicts := shown.conflicts, relatedClaimIds := shown.relatedClaimIds)
    && (forall p :: p in shown.graphPaths ==> p in held.graphPaths)
    && (forall c :: c in shown.conflicts ==> c in held.conflicts)
    && forall r :: r in shown.relatedClaimIds ==> r in held.relatedClaimIds
  }

  ghost predicate FromHeld(shown: seq<Item>, held: seq<Item>) {
    forall x :: x in shown ==> exists h :: h in held && PrunedFrom(x, h)
  }

  lemma {:induction false} ReachedFrom(selected: map<string, Item>, evidence: seq<Item>)
    ensures FromHeld(Reached(selected, evidence), evidence)
    ensures forall x :: x in Reached(selected, evidence) ==> forall p :: p in x.graphPaths ==> PathHolds(selected, x, p)
  {
    if evidence != [] {
      var n := |evidence| - 1;
      ReachedFrom(selected, evidence[..n]);
      var item := WithPaths(selected, evidence[n]);
      forall p | p in item.graphPaths
        ensures PathHolds(selected, item, p)
      {
        assert PathHolds(selected, evidence[n], p);
      }
      forall x | x in Reached(selected, evidence)
        ensures exists h :: h in evidence && PrunedFrom(x, h)
      {
        if x in Reached(selected, evidence[..n]) {
          var h :| h in evidence[..n] && PrunedFrom(x, h);
          assert h in evidence;
        } else {
          assert evidence[n] in evidence && PrunedFrom(x, evidence[n]);
        }
      }
    }
  }

  lemma {:induction false} PrunedTwice(a: Item, b: Item, c: Item)
    requires PrunedFrom(a, b) && PrunedFrom(b, c)
    ensures PrunedFrom(a, c)
  {
  }

  lemma {:induction false} HeldTwice(a: seq<Item>, b: seq<Item>, c: seq<Item>)
    requires FromHeld(a, b) && FromHeld(b, c)
    ensures FromHeld(a, c)
  {
    hide PrunedFrom;
    forall x | x in a
      ensures exists h :: h in c && PrunedFrom(x, h)
    {
      var y :| y in b && PrunedFrom(x, y);
      var z :| z in c && PrunedFrom(y, z);
      PrunedTwice(x, y, z);
    }
  }

  // What is shown is a held item or a pruned form of one.
  lemma {:induction false} SupportedFromHeld(evidence: seq<Item>)
    ensures FromHeld(Supported(evidence), evidence)
  {
    var reached := Reached(Selected(evidence), evidence);
    ReachedFrom(Selected(evidence), evidence);
    forall x | x in Supported(evidence)
      ensures exists h :: h in reached && PrunedFrom(x, h)
    {
      var k :| 0 <= k < |reached| && x == Pruned(Selected(reached), reached[k]);
      assert reached[k] in reached && PrunedFrom(x, reached[k]);
    }
    HeldTwice(Supported(evidence), reached, evidence);
  }

  // A shown item names a Claim.
  ghost predicate ShowsClaim(shown: seq<Item>, id: string) {
    exists k :: 0 <= k < |shown| && shown[k].claimId == id
  }

  // Trimming fabricates no support: every conflict and every relation shown
  // is among Claims that are shown, every graph path shown is among Claims
  // of the evidence it was cut from, under the item's own view, and an item
  // found only by traversal keeps a path.
  lemma {:induction false} NoFabricatedSupport(evidence: seq<Item>, x: Item)
    requires x in Supported(evidence)
    ensures forall c :: c in x.conflicts ==> forall k :: 0 <= k < |c.claimIds| ==> ShowsClaim(Supported(evidence), c.claimIds[k])
    ensures forall r :: r in x.relatedClaimIds ==> ShowsClaim(Supported(evidence), r)
    ensures forall p :: p in x.graphPaths ==> PathHolds(Selected(evidence), x, p)
    ensures GraphOnly(x) ==> x.graphPaths != []
  {
    var reached := Reached(Selected(evidence), evidence);
    var selected := Selected(reached);
    var j :| 0 <= j < |reached| && x == Pruned(selected, reached[j]);
    ReachedFrom(Selected(evidence), evidence);
    ReachedKeepReason(Selected(evidence), evidence);
    PathsFromReached(Selected(evidence), reached[j], x);
    hide Selected, Reached, PathHolds, GraphOnly;
    forall id | id in selected
      ensures ShowsClaim(Supported(evidence), id)
    {
      SelectedShown(reached, id);
    }
  }

  lemma {:induction false} PathsFromReached(selected: map<string, Item>, item: Item, x: Item)
    requires forall p :: p in item.graphPaths ==> PathHolds(selected, item, p)
    requires SameView(x, item) && x.graphPaths == item.graphPaths
    ensures forall p :: p in x.graphPaths ==> PathHolds(selected, x, p)
  {
    forall p | p in x.graphPaths
      ensures PathHolds(selected, x, p)
    {
      assert PathHolds(selected, item, p);
    }
  }

  lemma {:induction false} SelectedShown(reached: seq<Item>, id: string)
    requires id in Selected(reached)
    ensures ShowsClaim(PrunedAll(Selected(reached), reached), id)
  {
    var k :| 0 <= k < |reached| && reached[k] == Selected(reached)[id];
    assert PrunedAll(Selected(reached), reached)[k].claimId == id;
  }

  lemma {:induction false} ReachedKeepReason(selected: map<string, Item>, evidence: seq<Item>)
    ensures forall x :: x in Reached(selected, evidence) ==> (GraphOnly(x) ==> x.graphPaths != [])
  {
    if evidence != [] {
      ReachedKeepReason(selected, evidence[..|evidence| - 1]);
    }
  }

  // ---- one pass over graph paths ----

  // Found by traversal alone, with no path whose Claims are all selected.
  predicate Dropped(selected: map<string, Item>, item: Item) {
    GraphOnly(item) && forall p :: p in item.graphPaths ==> !PathHolds(selected, item, p)
  }

  lemma {:induction false} FilterHas<T>(xs: seq<T>, keep: T -> bool, x: T)
    requires x in xs && keep(x)
    ensures x in Filter(xs, keep)
  {
    var n := |xs| - 1;
    if x in xs[..n] {
      FilterHas(xs[..n], keep, x);
    }
  }

  lemma {:induction false} DroppedHasNoPath(selected: map<string, Item>, item: Item)
    ensures Dropped(selected, item) <==> GraphOnly(WithPaths(selected, item)) && WithPaths(selected, item).graphPaths == []
  {
    var shown := WithPaths(selected, item);
    if shown.graphPaths != [] {
      assert shown.graphPaths[0] in item.graphPaths && PathHolds(selected, item, shown.graphPaths[0]);
    }
    forall p | p in item.graphPaths && PathHolds(selected, item, p)
      ensures p in shown.graphPaths
    {
      FilterHas(item.graphPaths, path => PathHolds(selected, item, path), p);
    }
  }

  ghost predicate KeepsAs(selected: map<string, Item>, h: Item, x: Item) {
    !Dropped(selected, h) && x == WithPaths(selected, h)
  }

  lemma {:induction false} KeptIsReached(selected: map<string, Item>, evidence: seq<Item>, h: Item)
    requires h in evidence && !Dropped(selected, h)
    ensures WithPaths(selected, h) in Reached(selected, evidence)
  {
    hide WithPaths, Dropped, GraphOnly, PathHolds, Filter;
    var n := |evidence| - 1;
    DroppedHasNoPath(selected, evidence[n]);
    if h in evidence[..n] {
      KeptIsReached(selected, evidence[..n], h);
    }
  }

  lemma {:induction false} ReachedIsKept(selected: map<string, Item>, evidence: seq<Item>, x: Item) returns (h: Item)
    requires x in Reached(selected, evidence)
    ensures h in evidence && KeepsAs(selected, h, x)
  {
    hide WithPaths, Dropped, GraphOnly, PathHolds, Filter;
    var n := |evidence| - 1;
    DroppedHasNoPath(selected, evidence[n]);
    if x in Reached(selected, evidence[..n]) {
      h := ReachedIsKept(selected, evidence[..n], x);
    } else {
      h := evidence[n];
    }
  }

  ghost predicate PathsShown(shown: seq<Item>) {
    forall x, p, id :: x in shown && p in x.graphPaths && id in p.claimIds ==> ShowsClaim(shown, id)
  }

  ghost predicate CarriesClaim(selected: map<string, Item>, evidence: seq<Item>, id: string) {
    exists g :: g in evidence && !Dropped(selected, g) && g.claimId == id
  }

  // No Claim on a kept item's complete path belongs only to dropped items.
  ghost predicate PathsKept(selected: map<string, Item>, evidence: seq<Item>) {
    forall h, p, id :: h in evidence && !Dropped(selected, h) && p in h.graphPaths && PathHolds(selected, h, p) && id in p.claimIds ==>
      CarriesClaim(selected, evidence, id)
  }

  // Paths are checked against the evidence they are cut from, in one pass, so
  // the Claims of every shown path are shown exactly when no kept item's
  // complete path runs through Claims that only dropped items carry.
  lemma {:induction false} PathsShownExactly(evidence: seq<Item>)
    ensures PathsShown(Supported(evidence)) <==> PathsKept(Selected(evidence), evidence)
  {
    var selected := Selected(evidence);
    var shown := Supported(evidence);
    hide *;
    if PathsKept(selected, evidence) {
      forall x, p, id | x in shown && p in x.graphPaths && id in p.claimIds
        ensures ShowsClaim(shown, id)
      {
        ShownPathKept(evidence, x, p, id);
      }
      PathsShownIf(shown);
    }
    if PathsShown(shown) {
      forall h, p, id | h in evidence && !Dropped(selected, h) && p in h.graphPaths && PathHolds(selected, h, p) && id in p.claimIds
        ensures CarriesClaim(selected, evidence, id)
      {
        KeptPathShown(evidence, h, p, id);
      }
      PathsKeptIf(selected, evidence);
    }
  }

  lemma {:induction false} PathsShownIf(shown: seq<Item>)
    requires forall x, p, id :: x in shown && p in x.graphPaths && id in p.claimIds ==> ShowsClaim(shown, id)
    ensures PathsShown(shown)
  {
  }

  lemma {:induction false} PathsKeptIf(selected: map<string, Item>, evidence: seq<Item>)
    requires forall h, p, id :: h in evidence && !Dropped(selected, h) && p in h.graphPaths && PathHolds(selected, h, p) && id in p.claimIds ==>
               CarriesClaim(selected, evidence, id)
    ensures PathsKept(selected, evidence)
  {
  }

  lemma {:induction false} ShownPathKept(evidence: seq<Item>, x: Item, p: GraphPath, id: string)
    requires PathsKept(Selected(evidence), evidence) && x in Supported(evidence) && p in x.graphPaths && id in p.claimIds
    ensures ShowsClaim(Supported(evidence), id)
  {
    var selected := Selected(evidence);
    var reached := Reached(selected, evidence);
    var j :| 0 <= j < |reached| && x == Pruned(Selected(reached), reached[j]);
    var h := ReachedIsKept(selected, evidence, reached[j]);
    hide Selected, Reached, PathHolds, GraphOnly, Dropped;
    assert p in h.graphPaths && PathHolds(selected, h, p);
    assert CarriesClaim(selected, evidence, id);
    var g :| g in evidence && !Dropped(selected, g) && g.claimId == id;
    KeptIsReached(selected, evidence, g);
    ShownByReached(reached, WithPaths(selected, g));
  }

  lemma {:induction false} KeptPathShown(evidence: seq<Item>, h: Item, p: GraphPath, id: string)
    requires PathsShown(Supported(evidence)) && h in evidence && !Dropped(Selected(evidence), h)
    requires p in h.graphPaths && PathHolds(Selected(evidence), h, p) && id in p.claimIds
    ensures CarriesClaim(Selected(evidence), evidence, id)
  {
    var selected := Selected(evidence);
    var reached := Reached(selected, evidence);
    KeptIsReached(selected, evidence, h);
    FilterHas(h.graphPaths, path => PathHolds(selected, h, path), p);
    assert p in WithPaths(selected, h).graphPaths;
    assert Supported(evidence) == PrunedAll(Selected(reached), reached);
    hide *;
    ClaimOfReached(reached, WithPaths(selected, h), p, id, Supported(evidence));
    var r :| r in reached && r.claimId == id;
    var g := ReachedIsKept(selected, evidence, r);
    Carries(selected, evidence, g, r);
  }

  lemma {:induction false} Carries(selected: map<string, Item>, evidence: seq<Item>, g: Item, r: Item)
    requires g in evidence && KeepsAs(selected, g, r)
    ensures CarriesClaim(selected, evidence, r.claimId)
  {
    hide Dropped;
    assert g.claimId == r.claimId;
  }

  lemma {:induction false} ClaimOfReached(reached: seq<Item>, r: Item, p: GraphPath, id: string, shown: seq<Item>)
    requires shown == PrunedAll(Selected(reached), reached) && PathsShown(shown)
    requires r in reached && p in r.graphPaths && id in p.claimIds
    ensures exists s :: s in reached && s.claimId == id
  {
    hide Selected;
    var j :| 0 <= j < |reached| && reached[j] == r;
    assert shown[j] in shown && p in shown[j].graphPaths;
    assert ShowsClaim(shown, id);
    var k :| 0 <= k < |shown| && shown[k].claimId == id;
    assert reached[k] in reached && reached[k].claimId == id;
  }

  lemma {:induction false} ShownByReached(reached: seq<Item>, r: Item)
    requires r in reached
    ensures ShowsClaim(PrunedAll(Selected(reached), reached), r.claimId)
  {
    var k :| 0 <= k < |reached| && reached[k] == r;
    assert PrunedAll(Selected(reached), reached)[k].claimId == r.claimId;
  }

  // It does fail: the first item's path runs through the second, which the
  // same pass drops because its own path runs through nothing selected.
  lemma {:induction false} OnePassOrphansPath()
    ensures var a := Item("1", "a", Current, 0, 0, false, ["graph_path"], [GraphPath("e", ["b"])], [], [], "");
            var b := Item("2", "b", Current, 0, 0, false, ["graph_path"], [GraphPath("e", ["c"])], [], [], "");
            !PathsShown(Supported([a, b]))
  {
    var a := Item("1", "a", Current, 0, 0, false, ["graph_path"], [GraphPath("e", ["b"])], [], [], "");
    var b := Item("2", "b", Current, 0, 0, false, ["graph_path"], [GraphPath("e", ["c"])], [], [], "");
    var evidence, selected := [a, b], Selected([a, b]);
    TwoSelected(a, b);
    assert "graph_path"[..6] == GRAPH_REASON;
    assert PathHolds(selected, a, a.graphPaths[0]);
    assert a in evidence && !Dropped(selected, a) && "b" in a.graphPaths[0].claimIds;
    assert b.graphPaths[0].claimIds[0] == "c" && !PathHolds(selected, b, b.graphPaths[0]);
    assert forall p :: p in b.graphPaths ==> p == b.graphPaths[0];
    assert Dropped(selected, b) && !CarriesClaim(selected, evidence, "b");
    PathsShownExactly(evidence);
  }

  lemma {:induction false} TwoSelected(a: Item, b: Item)
    requires a.claimId != "" && b.claimId != "" && a.claimId != b.claimId
    ensures Selected([a, b]) == map[a.claimId := a, b.claimId := b]
  {
    assert [a, b][..1] == [a] && [a][..0] == [];
    assert Selected([a]) == map[a.claimId := a];
  }

  // ---- exactly what is shown ----

  // The evidence's last item for the Claim has the item's view of time.
  ghost predicate ClaimSeen(evidence: seq<Item>, id: string, item: Item) {
    exists m :: 0 <= m < |evidence| && LastFor(evidence, id, m)
                && evidence[m].intent == item.intent && evidence[m].validAt == item.validAt
                && evidence[m].asKnownAt == item.asKnownAt && evidence[m].validAtConstrained == item.validAtConstrained
  }

  ghost predicate LastFor(evidence: seq<Item>, id: string, m: nat) {
    && m < |evidence| && id != "" && evidence[m].claimId == id
    && forall n :: m < n < |evidence| ==> evidence[n].claimId != id
  }

  ghost predicate Complete(evidence: seq<Item>, item: Item, path: GraphPath) {
    forall id :: id in path.claimIds ==> ClaimSeen(evidence, id, item)
  }

  ghost predicate Unreachable(evidence: seq<Item>, item: Item) {
    && item.paths != [] && (forall k :: 0 <= k < |item.paths| ==> "graph_" <= item.paths[k])
    && forall p :: p in item.graphPaths ==> !Complete(evidence, item, p)
  }

  ghost predicate AllShown(shown: seq<Item>, ids: seq<string>) {
    forall id :: id in ids ==> id != "" && ShowsClaim(shown, id)
  }

  // x shows h with exactly the support that is there: the paths complete in
  // the evidence, and the conflicts and relations among Claims shown.
  ghost predicate ShowsSupport(shown: seq<Item>, evidence: seq<Item>, h: Item, x: Item) {
    && x == h.(graphPaths := x.graphPaths, conflicts := x.conflicts, relatedClaimIds := x.relatedClaimIds)
    && (forall p :: p in x.graphPaths <==> p in h.graphPaths && Complete(evidence, h, p))
    && (forall c :: c in x.conflicts <==> c in h.conflicts && AllShown(shown, c.claimIds))
    && forall r :: r in x.relatedClaimIds <==> r in h.relatedClaimIds && AllShown(shown, [r])
  }

  ghost predicate Increasing(kept: seq<nat>) {
    forall i, j :: 0 <= i < j < |kept| ==> kept[i] < kept[j]
  }

  // Everything is shown in order, but for items found by traversal alone
  // without a complete path; and each with exactly the support that is there.
  lemma {:induction false} SupportIsExact(evidence: seq<Item>) returns (kept: seq<nat>)
    ensures Increasing(kept) && |kept| == |Supported(evidence)|
    ensures forall j :: j in kept <==> 0 <= j < |evidence| && !Unreachable(evidence, evidence[j])
    ensures forall k :: 0 <= k < |kept| ==>
              kept[k] < |evidence| && ShowsSupport(Supported(evidence), evidence, evidence[kept[k]], Supported(evidence)[k])
  {
    var selected := Selected(evidence);
    var reached := Reached(selected, evidence);
    kept := ReachedAt(selected, evidence);
    forall j | 0 <= j < |evidence|
      ensures Dropped(selected, evidence[j]) <==> Unreachable(evidence, evidence[j])
    {
      DroppedIsUnreachable(evidence, evidence[j]);
    }
    assert Supported(evidence) == PrunedAll(Selected(reached), reached);
    var shown := Supported(evidence);
    hide Selected, Reached, Dropped, Unreachable, ShowsSupport, WithPaths, Pruned;
    forall k | 0 <= k < |kept|
      ensures ShowsSupport(shown, evidence, evidence[kept[k]], shown[k])
    {
      assert shown[k] == Pruned(Selected(reached), WithPaths(selected, evidence[kept[k]]));
      ShownExactly(evidence, reached, shown, evidence[kept[k]]);
    }
  }

  lemma {:induction false} ReachedAt(selected: map<string, Item>, evidence: seq<Item>) returns (kept: seq<nat>)
    ensures Increasing(kept) && |kept| == |Reached(selected, evidence)|
    ensures forall j :: j in kept <==> 0 <= j < |evidence| && !Dropped(selected, evidence[j])
    ensures forall k :: 0 <= k < |kept| ==>
              kept[k] < |evidence| && Reached(selected, evidence)[k] == WithPaths(selected, evidence[kept[k]])
  {
    hide WithPaths, Dropped, GraphOnly, PathHolds, Filter;
    if evidence == [] {
      kept := [];
    } else {
      var n := |evidence| - 1;
      kept := ReachedAt(selected, evidence[..n]);
      DroppedHasNoPath(selected, evidence[n]);
      forall k | 0 <= k < |kept|
        ensures kept[k] < n
      {
        assert kept[k] in kept;
      }
      if !Dropped(selected, evidence[n]) {
        kept := kept + [n];
      }
    }
  }

  lemma {:induction false} SelectedIsShown(evidence: seq<Item>, id: string)
    ensures id in Selected(evidence) <==> id != "" && ShowsClaim(evidence, id)
  {
    if evidence != [] {
      var n := |evidence| - 1;
      SelectedIsShown(evidence[..n], id);
      assert forall k :: 0 <= k < n ==> evidence[..n][k] == evidence[k];
      if ShowsClaim(evidence[..n], id) {
        var k :| 0 <= k < n && evidence[..n][k].claimId == id;
        assert evidence[k].claimId == id;
      }
    }
  }

  lemma {:induction false} SelectedIsLast(evidence: seq<Item>, id: string) returns (m: nat)
    requires id in Selected(evidence)
    ensures LastFor(evidence, id, m) && Selected(evidence)[id] == evidence[m]
  {
    SelectedIsShown(evidence, id);
    SelectedNext(evidence, id);
    hide Selected, ShowsClaim;
    var n := |evidence| - 1;
    if evidence[n].claimId == id {
      m := n;
    } else {
      m := SelectedIsLast(evidence[..n], id);
    }
  }

  lemma {:induction false} SelectedNext(evidence: seq<Item>, id: string)
    requires id != "" && id in Selected(evidence)
    ensures var n := |evidence| - 1;
            && n >= 0
            && (if evidence[n].claimId == id then Selected(evidence)[id] == evidence[n]
                else id in Selected(evidence[..n]) && Selected(evidence)[id] == Selected(evidence[..n])[id])
  {
  }

  lemma {:induction false} SeenIsSelected(evidence: seq<Item>, id: string, item: Item)
    ensures ClaimSeen(evidence, id, item) <==> id in Selected(evidence) && SameView(Selected(evidence)[id], item)
  {
    hide Selected;
    SelectedIsShown(evidence, id);
    if id in Selected(evidence) {
      var m := SelectedIsLast(evidence, id);
      assert forall k: nat :: LastFor(evidence, id, k) ==> k == m;
    }
  }

  lemma {:induction false} CompleteHolds(evidence: seq<Item>, item: Item, path: GraphPath)
    ensures Complete(evidence, item, path) <==> PathHolds(Selected(evidence), item, path)
  {
    hide Selected, ClaimSeen, SameView;
    forall id | id in path.claimIds
      ensures ClaimSeen(evidence, id, item) <==> id in Selected(evidence) && SameView(Selected(evidence)[id], item)
    {
      SeenIsSelected(evidence, id, item);
    }
    if Complete(evidence, item, path) {
      forall k | 0 <= k < |path.claimIds|
        ensures path.claimIds[k] in Selected(evidence) && SameView(Selected(evidence)[path.claimIds[k]], item)
      {
        assert path.claimIds[k] in path.claimIds;
      }
    }
  }

  lemma {:induction false} DroppedIsUnreachable(evidence: seq<Item>, item: Item)
    ensures Dropped(Selected(evidence), item) <==> Unreachable(evidence, item)
  {
    hide Selected, PathHolds, Complete;
    forall p | p in item.graphPaths
      ensures Complete(evidence, item, p) <==> PathHolds(Selected(evidence), item, p)
    {
      CompleteHolds(evidence, item, p);
    }
    TraversedAlone(item);
  }

  lemma {:induction false} TraversedAlone(item: Item)
    ensures GraphOnly(item) <==> item.paths != [] && forall k :: 0 <= k < |item.paths| ==> "graph_" <= item.paths[k]
  {
    assert forall k :: 0 <= k < |item.paths| ==> (IsGraphReason(item.paths[k]) <==> "graph_" <= item.paths[k]);
  }

  lemma {:induction false} ShownExactly(evidence: seq<Item>, reached: seq<Item>, shown: seq<Item>, h: Item)
    requires shown == PrunedAll(Selected(reached), reached)
    ensures ShowsSupport(shown, evidence, h, Pruned(Selected(reached), WithPaths(Selected(evidence), h)))
  {
    var x := Pruned(Selected(reached), WithPaths(Selected(evidence), h));
    forall p
      ensures p in x.graphPaths <==> p in h.graphPaths && Complete(evidence, h, p)
    {
      PathShown(evidence, h, p);
    }
    forall c
      ensures c in x.conflicts <==> c in h.conflicts && AllShown(shown, c.claimIds)
    {
      ConflictShown(reached, shown, h, c);
    }
    forall r
      ensures r in x.relatedClaimIds <==> r in h.relatedClaimIds && AllShown(shown, [r])
    {
      RelationShown(reached, shown, h, r);
    }
    hide Selected, Filter, Complete, AllShown;
  }

  lemma {:induction false} PathShown(evidence: seq<Item>, h: Item, p: GraphPath)
    ensures p in WithPaths(Selected(evidence), h).graphPaths <==> p in h.graphPaths && Complete(evidence, h, p)
  {
    hide Selected, Complete, PathHolds;
    CompleteHolds(evidence, h, p);
    if p in h.graphPaths && PathHolds(Selected(evidence), h, p) {
      FilterHas(h.graphPaths, path => PathHolds(Selected(evidence), h, path), p);
    }
  }

  lemma {:induction false} AllShownSelected(reached: seq<Item>, shown: seq<Item>, ids: seq<string>)
    requires shown == PrunedAll(Selected(reached), reached)
    ensures AllShown(shown, ids) <==> forall k :: 0 <= k < |ids| ==> ids[k] in Selected(reached)
  {
    forall id
      ensures id in Selected(reached) <==> id != "" && ShowsClaim(shown, id)
    {
      SelectedIsShown(reached, id);
      SameClaims(reached, shown, id);
    }
    hide Selected, ShowsClaim;
    if AllShown(shown, ids) {
      forall k | 0 <= k < |ids|
        ensures ids[k] in Selected(reached)
      {
        assert ids[k] in ids;
      }
    }
  }

  lemma {:induction false} SameClaims(reached: seq<Item>, shown: seq<Item>, id: string)
    requires shown == PrunedAll(Selected(reached), reached)
    ensures ShowsClaim(shown, id) <==> ShowsClaim(reached, id)
  {
    hide Selected, Filter;
    assert forall k :: 0 <= k < |reached| ==> shown[k].claimId == reached[k].claimId;
  }

  lemma {:induction false} ConflictShown(reached: seq<Item>, shown: seq<Item>, h: Item, c: Conflict)
    requires shown == PrunedAll(Selected(reached), reached)
    ensures c in Pruned(Selected(reached), h).conflicts <==> c in h.conflicts && AllShown(shown, c.claimIds)
  {
    hide Selected, AllShown;
    AllShownSelected(reached, shown, c.claimIds);
    if c in h.conflicts && ConflictHolds(Selected(reached), c) {
      FilterHas(h.conflicts, conflict => ConflictHolds(Selected(reached), conflict), c);
    }
  }

  lemma {:induction false} RelationShown(reached: seq<Item>, shown: seq<Item>, h: Item, r: string)
    requires shown == PrunedAll(Selected(reached), reached)
    ensures r in Pruned(Selected(reached), h).relatedClaimIds <==> r in h.relatedClaimIds && AllShown(shown, [r])
  {
    hide Selected, AllShown;
    AllShownSelected(reached, shown, [r]);
    assert [r][0] == r;
    if r in h.relatedClaimIds && r in Selected(reached) {
      FilterHas(h.relatedClaimIds, id => id in Selected(reached), r);
    }
  }
}
