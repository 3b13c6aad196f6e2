/**
 * The bounded evidence a turn holds, as each search updates it
 * (internal/agent/retrieval.go).
 */
module EvidenceBuffer {
  import opened Wrappers

  const RESULT_LIMIT := 8

  datatype Intent = Current | Historical

  // An accepted path from an anchor entity to an item, by its Claims.
  datatype GraphPath = GraphPath(anchorEntityId: string, claimIds: seq<string>)

  datatype Conflict = Conflict(claimIds: seq<string>, warning: string)

  // memory.RetrievalEvidence; `body` stands for its remaining fields.
  datatype Item = Item(
    id: string,
    claimId: string,
    intent: Intent,
    validAt: int,
    asKnownAt: int,
    validAtConstrained: bool,
    paths: seq<string>,
    graphPaths: seq<GraphPath>,
    conflicts: seq<Conflict>,
    relatedClaimIds: seq<string>,
    body: string)

  const NEWER_STATEMENT := "newer_owner_statement"

  function IndexOf(evidence: seq<Item>, id: string): (i: int)
    ensures -1 <= i < |evidence| && (i >= 0 ==> evidence[i].id == id)
  {
    if evidence == [] then -1
    else if evidence[0].id == id then 0
    else
      var i := IndexOf(evidence[1..], id);
      if i < 0 then -1 else i + 1
  }

  predicate Holds(evidence: seq<Item>, id: string) {
    exists k :: 0 <= k < |evidence| && evidence[k].id == id
  }

  lemma {:induction false} IndexOfHeld(evidence: seq<Item>, id: string)
    ensures IndexOf(evidence, id) >= 0 <==> Holds(evidence, id)
  {
    if evidence != [] {
      IndexOfHeld(evidence[1..], id);
      assert forall k :: 0 < k < |evidence| ==> evidence[k] == evidence[1..][k - 1];
      if Holds(evidence[1..], id) {
        var k :| 0 <= k < |evidence[1..]| && evidence[1..][k].id == id;
        assert evidence[k + 1].id == id;
      }
    }
  }

  ghost predicate DistinctIds(evidence: seq<Item>) {
    forall i, j :: 0 <= i < j < |evidence| ==> evidence[i].id != evidence[j].id
  }

  // The entries at the end of a, without repeats, that b lacks, in a's order.
  function MissingFrom(a: seq<string>, b: seq<string>): seq<string> {
    if a == [] then []
    else
      var before := MissingFrom(a[..|a| - 1], b);
      var x := a[|a| - 1];
      if x in b || x in before then before else before + [x]
  }

  // A second current read keeps the relations a held current excerpt has to
  // held Claims; any other read selects an independent view.
  function Merged(existing: Item, incoming: Item): (merged: Item)
    ensures merged.id == incoming.id
  {
    if existing.intent.Current? && incoming.intent.Current? && !existing.validAtConstrained && !incoming.validAtConstrained
       && NEWER_STATEMENT in existing.paths
    then incoming.(
      relatedClaimIds := incoming.relatedClaimIds + MissingFrom(existing.relatedClaimIds, incoming.relatedClaimIds),
      paths := if NEWER_STATEMENT in incoming.paths then incoming.paths else incoming.paths + [NEWER_STATEMENT])
    else incoming
  }

  lemma {:induction false} MissingMembers(a: seq<string>, b: seq<string>)
    ensures forall x :: x in MissingFrom(a, b) <==> x in a && x !in b
    ensures forall i, j :: 0 <= i < j < |MissingFrom(a, b)| ==> MissingFrom(a, b)[i] != MissingFrom(a, b)[j]
  {
    if a != [] {
      MissingMembers(a[..|a| - 1], b);
    }
  }

  // A second read of the current view, when the held excerpt is marked as
  // superseded, is taken with its own relations first, then each held one it
  // lacks, and with the marker; anything else is taken as it comes.
  lemma {:induction false} MergeKeepsRelations(existing: Item, incoming: Item)
    ensures var merged, n := Merged(existing, incoming), |incoming.relatedClaimIds|;
            if existing.intent == Current && incoming.intent == Current && !existing.validAtConstrained
               && !incoming.validAtConstrained && "newer_owner_statement" in existing.paths
            then
              && merged == incoming.(relatedClaimIds := merged.relatedClaimIds, paths := merged.paths)
              && n <= |merged.relatedClaimIds| && merged.relatedClaimIds[..n] == incoming.relatedClaimIds
              && (forall r :: r in merged.relatedClaimIds <==> r in incoming.relatedClaimIds || r in existing.relatedClaimIds)
              && (forall i, j :: n <= i < j < |merged.relatedClaimIds| ==> merged.relatedClaimIds[i] != merged.relatedClaimIds[j])
              && (forall i :: n <= i < |merged.relatedClaimIds| ==> merged.relatedClaimIds[i] !in incoming.relatedClaimIds)
              && incoming.paths <= merged.paths && "newer_owner_statement" in merged.paths
              && (|merged.paths| > |incoming.paths| ==>
                    "newer_owner_statement" !in incoming.paths && |merged.paths| == |incoming.paths| + 1)
            else merged == incoming
  {
    MissingMembers(existing.relatedClaimIds, incoming.relatedClaimIds);
    hide MissingFrom;
    var merged, missing := Merged(existing, incoming), MissingFrom(existing.relatedClaimIds, incoming.relatedClaimIds);
    assert forall k :: 0 <= k < |missing| ==> missing[k] in missing;
  }

  // The last entry that is no part of the result, or -1.
  function LastOther(evidence: seq<Item>, result: seq<Item>): (i: int)
    ensures -1 <= i < |evidence|
    ensures i >= 0 ==> !Holds(result, evidence[i].id)
  {
    if evidence == [] then -1
    else if !Holds(result, evidence[|evidence| - 1].id) then |evidence| - 1
    else LastOther(evidence[..|evidence| - 1], result)
  }

  // One returned item: replaced in place, or appended after making room.
  function Remember(evidence: seq<Item>, item: Item, result: seq<Item>): seq<Item> {
    var i := IndexOf(evidence, item.id);
    if i >= 0 then evidence[i := Merged(evidence[i], item)]
    else
      var last := LastOther(evidence, result);
      var room := if |evidence| == RESULT_LIMIT && last >= 0 then evidence[..last] + evidence[last + 1..] else evidence;
      if |room| < RESULT_LIMIT then room + [item] else room
  }

  // A held item is merged where it stands.
  lemma {:induction false} RememberedInPlace(evidence: seq<Item>, item: Item, result: seq<Item>, i: nat)
    requires i < |evidence| && evidence[i].id == item.id && forall k :: 0 <= k < i ==> evidence[k].id != item.id
    ensures Remember(evidence, item, result) == evidence[i := Merged(evidence[i], item)]
  {
    hide Merged;
    FirstHeld(evidence, item.id, i);
  }

  // A new item is appended: to a full buffer in place of the last entry that
  // is no part of the result, if there is one.
  lemma {:induction false} RememberedLast(evidence: seq<Item>, item: Item, result: seq<Item>, other: int)
    requires forall k :: 0 <= k < |evidence| ==> evidence[k].id != item.id
    requires -1 <= other < |evidence| && (other >= 0 ==> !Holds(result, evidence[other].id))
    requires forall k :: other < k < |evidence| ==> Holds(result, evidence[k].id)
    ensures |evidence| < 8 ==> Remember(evidence, item, result) == evidence + [item]
    ensures |evidence| == 8 && other >= 0 ==> Remember(evidence, item, result) == evidence[..other] + evidence[other + 1..] + [item]
    ensures |evidence| == 8 && other < 0 ==> Remember(evidence, item, result) == evidence
  {
    hide Merged, Holds;
    FirstHeld(evidence, item.id, |evidence|);
    LastIsOther(evidence, result, other);
    hide IndexOf, LastOther;
  }

  lemma {:induction false} LastIsOther(evidence: seq<Item>, result: seq<Item>, i: int)
    requires -1 <= i < |evidence| && (i >= 0 ==> !Holds(result, evidence[i].id))
    requires forall k :: i < k < |evidence| ==> Holds(result, evidence[k].id)
    ensures LastOther(evidence, result) == i
  {
    if evidence != [] && i < |evidence| - 1 {
      LastIsOther(evidence[..|evidence| - 1], result, i);
    }
  }

  function RememberAll(evidence: seq<Item>, result: seq<Item>, n: nat): seq<Item>
    requires n <= |result|
  {
    if n == 0 then evidence else Remember(RememberAll(evidence, result, n - 1), result[n - 1], result)
  }

  predicate Lost(before: seq<Item>, after: seq<Item>, id: string) {
    Holds(before, id) && !Holds(after, id)
  }

  lemma {:induction false} NothingLost(evidence: seq<Item>)
    ensures forall id :: !Lost(evidence, evidence, id)
  {
  }

  lemma {:induction false} LostEither(a: seq<Item>, b: seq<Item>, c: seq<Item>)
    ensures forall id :: Lost(a, c, id) ==> Lost(a, b, id) || Lost(b, c, id)
  {
  }

  // An evicted entry's old query may not refresh it.
  predicate Invalidated(origins: map<string, int>, id: string) {
    id in origins && origins[id] == -1
  }

  lemma {:induction false} FirstHeld(evidence: seq<Item>, id: string, i: nat)
    requires i <= |evidence| && forall k :: 0 <= k < i ==> evidence[k].id != id
    requires i < |evidence| ==> evidence[i].id == id
    ensures IndexOf(evidence, id) == if i < |evidence| then i else -1
  {
    if i > 0 {
      FirstHeld(evidence[1..], id, i - 1);
    }
  }

  lemma {:induction false} HeldAfterMerge(evidence: seq<Item>, i: nat, item: Item)
    requires i < |evidence| && evidence[i].id == item.id
    ensures forall id :: Holds(evidence, id) ==> Holds(evidence[i := Merged(evidence[i], item)], id)
  {
    var next := evidence[i := Merged(evidence[i], item)];
    forall id | Holds(evidence, id)
      ensures Holds(next, id)
    {
      var k :| 0 <= k < |evidence| && evidence[k].id == id;
      assert next[k].id == id;
    }
  }

  // Making room loses at most the entry it evicts.
  lemma {:induction false} HeldAfterRoom(evidence: seq<Item>, item: Item, result: seq<Item>)
    requires IndexOf(evidence, item.id) < 0
    ensures var last := LastOther(evidence, result);
            forall id :: Holds(evidence, id) && !(|evidence| == RESULT_LIMIT && last >= 0 && evidence[last].id == id) ==>
              Holds(Remember(evidence, item, result), id)
  {
    hide IndexOf, LastOther, Holds;
    var last, next := LastOther(evidence, result), Remember(evidence, item, result);
    forall id | Holds(evidence, id) && !(|evidence| == RESULT_LIMIT && last >= 0 && evidence[last].id == id)
      ensures Holds(next, id)
    {
      var room := evidence;
      if |evidence| == RESULT_LIMIT && last >= 0 {
        room := evidence[..last] + evidence[last + 1..];
        HeldAfterCut(evidence, last, id);
      }
      HeldAfterAppend(room, item, id);
    }
  }

  lemma {:induction false} HeldAfterCut(evidence: seq<Item>, i: nat, id: string)
    requires i < |evidence| && Holds(evidence, id) && evidence[i].id != id
    ensures Holds(evidence[..i] + evidence[i + 1..], id)
  {
    var k :| 0 <= k < |evidence| && evidence[k].id == id;
    var rest := evidence[..i] + evidence[i + 1..];
    assert rest[if i < k then k - 1 else k] == evidence[k];
  }

  lemma {:induction false} HeldAfterAppend(evidence: seq<Item>, item: Item, id: string)
    requires Holds(evidence, id)
    ensures Holds(evidence + [item], id)
  {
    var k :| 0 <= k < |evidence| && evidence[k].id == id;
    assert (evidence + [item])[k] == evidence[k];
  }

  // ---- what a search leaves ----

  function Ids(items: seq<Item>): set<string> {
    set k | 0 <= k < |items| :: items[k].id
  }

  lemma {:induction false} IdsCount(items: seq<Item>)
    ensures |Ids(items)| <= |items|
    ensures DistinctIds(items) ==> |Ids(items)| == |items|
  {
    if items != [] {
      var n := |items| - 1;
      IdsCount(items[..n]);
      assert Ids(items) == Ids(items[..n]) + {items[n].id};
      if DistinctIds(items) {
        assert items[n].id !in Ids(items[..n]) by {
          assert forall k :: 0 <= k < n ==> items[..n][k].id != items[n].id;
        }
      }
    }
  }

  lemma {:induction false} NoOther(evidence: seq<Item>, result: seq<Item>)
    requires LastOther(evidence, result) < 0
    ensures Ids(evidence) <= Ids(result)
  {
    if evidence != [] {
      var n := |evidence| - 1;
      NoOther(evidence[..n], result);
      assert Ids(evidence) == Ids(evidence[..n]) + {evidence[n].id};
      var k :| 0 <= k < |result| && result[k].id == evidence[n].id;
    }
  }

  // A full buffer that lacks one of at most eight returned items holds an
  // entry that is no part of the result.
  lemma {:induction false} RoomForResult(evidence: seq<Item>, result: seq<Item>, n: nat)
    requires DistinctIds(evidence) && |evidence| == RESULT_LIMIT && |result| <= RESULT_LIMIT && n < |result|
    requires !Holds(evidence, result[n].id)
    ensures LastOther(evidence, result) >= 0
  {
    if LastOther(evidence, result) < 0 {
      NoOther(evidence, result);
      IdsCount(evidence);
      IdsCount(result);
      Bigger(Ids(evidence), Ids(result), result[n].id);
    }
  }

  lemma {:induction false} Bigger(a: set<string>, b: set<string>, x: string)
    requires a <= b && x in b && x !in a
    ensures |a| < |b|
  {
    Smaller(a, b - {x});
  }

  lemma {:induction false} Smaller(a: set<string>, b: set<string>)
    requires a <= b
    ensures |a| <= |b|
  {
    if a != {} {
      var y :| y in a;
      Smaller(a - {y}, b - {y});
    }
  }

  lemma {:induction false} RememberKeeps(evidence: seq<Item>, result: seq<Item>, n: nat)
    requires DistinctIds(evidence) && |evidence| <= RESULT_LIMIT && |result| <= RESULT_LIMIT && n < |result|
    ensures var next := Remember(evidence, result[n], result);
            && DistinctIds(next) && |next| <= RESULT_LIMIT && Holds(next, result[n].id)
            && forall id :: Lost(evidence, next, id) ==> !Holds(result, id)
  {
    var item := result[n];
    IndexOfHeld(evidence, item.id);
    var i, next := IndexOf(evidence, item.id), Remember(evidence, item, result);
    if i >= 0 {
      HeldAfterMerge(evidence, i, item);
      assert next[i].id == item.id;
    } else {
      if |evidence| == RESULT_LIMIT {
        RoomForResult(evidence, result, n);
      }
      HeldAfterRoom(evidence, item, result);
      assert next[|next| - 1] == item;
      var last := LastOther(evidence, result);
      var room := if |evidence| == RESULT_LIMIT && last >= 0 then evidence[..last] + evidence[last + 1..] else evidence;
      assert forall k :: 0 <= k < |room| ==> room[k] == evidence[if |evidence| == RESULT_LIMIT && last <= k then k + 1 else k];
    }
  }

  // After a search returning at most eight items the buffer holds every one
  // of them, at most eight entries with distinct identities, and has evicted
  // only entries that are no part of the result.
  lemma {:induction false} SearchHoldsResult(evidence: seq<Item>, result: seq<Item>, n: nat)
    requires DistinctIds(evidence) && |evidence| <= RESULT_LIMIT && |result| <= RESULT_LIMIT && n <= |result|
    ensures var next := RememberAll(evidence, result, n);
            && DistinctIds(next) && |next| <= RESULT_LIMIT
            && (forall k :: 0 <= k < n ==> Holds(next, result[k].id))
            && forall id :: Lost(evidence, next, id) ==> !Holds(result, id)
  {
    hide Remember, IndexOf, LastOther, DistinctIds, Merged;
    if n > 0 {
      SearchHoldsResult(evidence, result, n - 1);
      var before, next := RememberAll(evidence, result, n - 1), RememberAll(evidence, result, n);
      RememberKeeps(before, result, n - 1);
      forall k | 0 <= k < n
        ensures Holds(next, result[k].id)
      {
        assert Holds(result, result[k].id);
        assert !Lost(before, next, result[k].id);
      }
      forall id | Lost(evidence, next, id)
        ensures !Holds(result, id)
      {
        assert Lost(evidence, before, id) || Lost(before, next, id);
      }
    }
  }
}
