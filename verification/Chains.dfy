/** The shape that recording and deleting give to a catalog: every chain is a FULL followed by
    incrementals that each continue the point recorded just before. */
module Chains {
  import opened Wrappers
  import opened Catalogs

  /** A point as it is recorded after the points that were there: its parent, if it is still there, is
      the newest of them, and no other point continues it yet. */
  ghost predicate Fits(points: seq<Point>, x: Point) {
    && (forall p :: p in points ==> p.id != x.id && p.parent != Some(x.id))
    && x.parent != Some(x.id)
    && (x.kind.Full? ==> x.parent.None? && x.sequence == 0 && forall p :: p in points ==> p.chain != x.chain)
    && (x.kind.Incremental? ==> x.parent.Some?)
    && (forall p :: p in points && x.parent == Some(p.id) ==> p == Last(points) && Continues(p, x))
    && (forall p :: p in points && p.chain == x.chain ==> p.sequence < x.sequence)
  }

  predicate Continues(p: Point, x: Point) {
    x.chain == p.chain && x.sequence == p.sequence + 1
  }

  /** What holds of a catalog whatever was deleted from it. */
  ghost predicate Orderly(points: seq<Point>) {
    forall k {:trigger Fits(points[..k], points[k])} :: 0 <= k < |points| ==> Fits(points[..k], points[k])
  }

  lemma OrderlyEnd(points: seq<Point>)
    requires points != []
    ensures Orderly(points) <==> Orderly(Init(points)) && Fits(Init(points), Last(points))
  {
    var init := Init(points);
    assert points[..|init|] == init && points[|init|] == Last(points);
    assert forall k :: 0 <= k < |init| ==> points[..k] == init[..k] && points[k] == init[k];
    if Orderly(points) {
      assert Fits(points[..|init|], points[|init|]);
      forall k | 0 <= k < |init|
        ensures Fits(init[..k], init[k])
      {
        assert Fits(points[..k], points[k]);
      }
    }
    if Orderly(init) && Fits(init, Last(points)) {
      forall k | 0 <= k < |points|
        ensures Fits(points[..k], points[k])
      {
        assert k < |init| ==> Fits(init[..k], init[k]);
      }
    }
  }

  lemma OrderlyAppend(points: seq<Point>, x: Point)
    ensures Orderly(points + [x]) <==> Orderly(points) && Fits(points, x)
  {
    assert Init(points + [x]) == points;
    OrderlyEnd(points + [x]);
  }

  predicate Follows(points: seq<Point>, x: Point) {
    points != [] && x.parent == Some(Last(points).id)
  }

  /** No incremental is without its parent. */
  ghost predicate Linked(points: seq<Point>) {
    forall k {:trigger Follows(points[..k], points[k])} :: 0 <= k < |points| && points[k].kind.Incremental? ==> Follows(points[..k], points[k])
  }

  lemma LinkedEnd(points: seq<Point>)
    requires points != []
    ensures Linked(points) <==> Linked(Init(points)) && (Last(points).kind.Incremental? ==> Follows(Init(points), Last(points)))
  {
    assert points[..|points| - 1] == Init(points);
    forall k | 0 <= k < |points| - 1
      ensures Follows(points[..k], points[k]) <==> Follows(Init(points)[..k], Init(points)[k])
    {
      assert points[..k] == Init(points)[..k];
    }
    if Linked(points) && Last(points).kind.Incremental? { assert Follows(points[..|points| - 1], points[|points| - 1]); }
  }

  /** The newest point continues a complete chain. */
  ghost predicate Complete(points: seq<Point>) {
    points != [] && (Last(points).kind.Full? || (Follows(Init(points), Last(points)) && Complete(Init(points))))
  }

  // ---- Deleting points ----

  /** The catalog without the points whose IDs are given. */
  ghost function Without(points: seq<Point>, gone: set<nat>): seq<Point> {
    if points == [] then []
    else if Last(points).id in gone then Without(Init(points), gone)
    else Without(Init(points), gone) + [Last(points)]
  }

  lemma {:induction false} WithoutMembers(points: seq<Point>, gone: set<nat>)
    ensures forall p :: p in Without(points, gone) <==> p in points && p.id !in gone
  {
    if points != [] {
      WithoutMembers(Init(points), gone);
      assert points == Init(points) + [Last(points)];
    }
  }

  lemma {:induction false} WithoutNothing(points: seq<Point>, gone: set<nat>)
    requires forall p :: p in points ==> p.id !in gone
    ensures Without(points, gone) == points
  {
    if points != [] {
      assert points == Init(points) + [Last(points)] && Last(points) in points;
      WithoutNothing(Init(points), gone);
    }
  }

  lemma {:induction false} WithoutTwice(points: seq<Point>, first: set<nat>, second: set<nat>)
    ensures Without(Without(points, first), second) == Without(points, first + second)
  {
    if points != [] {
      WithoutTwice(Init(points), first, second);
      var rest := Without(Init(points), first);
      assert Init(rest + [Last(points)]) == rest;
    }
  }

  lemma FitsWithout(points: seq<Point>, gone: set<nat>, x: Point)
    requires Fits(points, x)
    ensures Fits(Without(points, gone), x)
  {
    WithoutMembers(points, gone);
    forall p | p in Without(points, gone) && x.parent == Some(p.id)
      ensures p == Last(Without(points, gone))
    {
      assert p == Last(points);
    }
  }

  /** Deleting points, by whatever rule, keeps a catalog orderly. */
  lemma {:induction false} DeletingKeepsOrder(points: seq<Point>, gone: set<nat>)
    requires Orderly(points)
    ensures Orderly(Without(points, gone))
  {
    if points != [] {
      OrderlyEnd(points);
      DeletingKeepsOrder(Init(points), gone);
      FitsWithout(Init(points), gone, Last(points));
      var rest := Without(Init(points), gone);
      OrderlyAppend(rest, Last(points));
    }
  }

  lemma {:induction false} OrderlyIds(points: seq<Point>)
    requires Orderly(points)
    ensures DistinctIds(points)
  {
    if points != [] {
      OrderlyEnd(points);
      OrderlyIds(Init(points));
      assert points == Init(points) + [Last(points)];
    }
  }

  /** A chain that is not touched stays complete. */
  lemma {:induction false} CompleteWithout(points: seq<Point>, gone: set<nat>)
    requires Orderly(points) && Complete(points)
    requires forall p :: p in points && p.chain == Last(points).chain ==> p.id !in gone
    ensures Complete(Without(points, gone)) && Last(Without(points, gone)) == Last(points)
  {
    var rest := Without(Init(points), gone);
    OrderlyEnd(points);
    assert points == Init(points) + [Last(points)];
    assert Init(rest + [Last(points)]) == rest;
    if Last(points).kind.Incremental? {
      assert Last(Init(points)) in Init(points);
      CompleteWithout(Init(points), gone);
    }
  }

  /** Deleting a point that no other continues orphans nothing. */
  lemma {:induction false} LinkedWithoutLeaf(points: seq<Point>, x: Point)
    requires Orderly(points) && Linked(points) && forall p :: p in points ==> p.parent != Some(x.id)
    ensures Linked(Without(points, {x.id}))
  {
    if points != [] {
      OrderlyEnd(points);
      LinkedEnd(points);
      var gone, last := {x.id}, Last(points);
      assert points == Init(points) + [last];
      LinkedWithoutLeaf(Init(points), x);
      var rest := Without(Init(points), gone);
      assert Init(rest + [last]) == rest;
      LinkedEnd(rest + [last]);
      if last.id != x.id && last.kind.Incremental? {
        assert Last(Init(points)).id != x.id;
      }
    }
  }

  // ---- The lineage of the newest point ----

  /** In an orderly catalog the parent links of the newest point reach a FULL exactly when its chain is
      complete; the chain ID and the depth that they lead to are the recorded ones. */
  lemma {:induction false} CompleteHasLineage(points: seq<Point>) returns (path: seq<Point>)
    requires Orderly(points) && Complete(points)
    ensures Lineage(points, Last(points).id, path)
    ensures Last(path).chain == Last(points).chain && |path| == Last(points).sequence + 1
    ensures Last(path).kind.Full? && forall p :: p in path ==> p.chain == Last(points).chain
  {
    var x := Last(points);
    OrderlyEnd(points);
    assert points == Init(points) + [x] && x in points;
    if x.kind.Full? {
      path := [x];
      assert Lineage(points, x.id, path);
    } else {
      var rest := CompleteHasLineage(Init(points));
      LineageInMore(Init(points), points, Last(Init(points)).id, rest);
      assert Last(Init(points)) in Init(points);
      path := [x] + rest;
      assert path[1..] == rest;
    }
  }

  lemma {:induction false} LineageInMore(points: seq<Point>, more: seq<Point>, id: nat, path: seq<Point>)
    requires Lineage(points, id, path) && forall p :: p in points ==> p in more
    ensures Lineage(more, id, path)
    decreases |path|
  {
    if path[0].kind.Incremental? { LineageInMore(points, more, path[0].parent.value, path[1..]); }
  }

  lemma {:induction false} LineageStaysBefore(points: seq<Point>, id: nat, path: seq<Point>)
    requires Orderly(points) && points != [] && Lineage(points, id, path) && id != Last(points).id
    ensures Lineage(Init(points), id, path)
    decreases |path|
  {
    OrderlyEnd(points);
    assert points == Init(points) + [Last(points)];
    assert path[0] in Init(points);
    if path[0].kind.Incremental? {
      LineageStaysBefore(points, path[0].parent.value, path[1..]);
    }
  }

  lemma {:induction false} LineageMakesComplete(points: seq<Point>, path: seq<Point>)
    requires Orderly(points) && points != [] && Lineage(points, Last(points).id, path)
    ensures Complete(points)
  {
    OrderlyIds(points);
    OrderlyEnd(points);
    assert Last(points) in points && path[0] == Last(points);
    if Last(points).kind.Incremental? {
      var parent := path[0].parent.value;
      LineageStaysBefore(points, parent, path[1..]);
      assert path[1] in Init(points) && path[1].id == parent;
      LineageMakesComplete(Init(points), path[1..]);
    }
  }

  // ---- Chains, oldest first ----

  ghost function IncrementalIds(points: seq<Point>): set<nat> {
    set p | p in points && p.kind.Incremental? :: p.id
  }

  /** The FULL points, oldest first. */
  ghost function Fulls(points: seq<Point>): seq<Point> {
    Without(points, IncrementalIds(points))
  }

  ghost function ChainIds(points: seq<Point>, chain: nat): set<nat> {
    set p | p in points && p.chain == chain :: p.id
  }

  ghost function WithoutChain(points: seq<Point>, chain: nat): seq<Point> {
    Without(points, ChainIds(points, chain))
  }

  lemma FullsMembers(points: seq<Point>)
    requires Orderly(points)
    ensures forall p :: p in Fulls(points) <==> p in points && p.kind.Full?
    ensures Orderly(Fulls(points))
  {
    OrderlyIds(points);
    WithoutMembers(points, IncrementalIds(points));
    DeletingKeepsOrder(points, IncrementalIds(points));
  }

  lemma {:induction false} OrderlyIndices(points: seq<Point>)
    requires Orderly(points)
    ensures forall i, j :: 0 <= i < j < |points| ==> points[i].id != points[j].id
    ensures forall i, j :: 0 <= i < j < |points| && points[j].kind.Full? ==> points[i].chain != points[j].chain
  {
    if points != [] {
      OrderlyEnd(points);
      OrderlyIndices(Init(points));
      assert forall i :: 0 <= i < |points| - 1 ==> points[i] == Init(points)[i] && points[i] in Init(points);
    }
  }

  /** The FULLs that survive a deletion are the FULLs without the deleted ones. */
  lemma FullsAfterDeleting(points: seq<Point>, gone: set<nat>)
    requires Orderly(points)
    ensures Fulls(Without(points, gone)) == Without(Fulls(points), gone)
  {
    var rest := Without(points, gone);
    WithoutMembers(points, gone);
    WithoutTwice(points, gone, IncrementalIds(rest));
    WithoutTwice(points, IncrementalIds(points), gone);
    OrderlyIds(points);
    assert gone + IncrementalIds(rest) == IncrementalIds(points) + gone;
  }

  lemma {:induction false} WithoutFirst(points: seq<Point>, gone: set<nat>)
    requires points != [] && points[0].id in gone
    requires forall i :: 1 <= i < |points| ==> points[i].id !in gone
    ensures Without(points, gone) == points[1..]
  {
    if |points| > 1 {
      assert Init(points)[0] == points[0] && forall i :: 1 <= i < |Init(points)| ==> Init(points)[i] == points[i];
      WithoutFirst(Init(points), gone);
      assert points[1..] == Init(points)[1..] + [Last(points)];
    }
  }

  /** Deleting the oldest chain leaves exactly the other FULLs. */
  lemma FullsWithoutOldest(points: seq<Point>)
    requires Orderly(points) && Fulls(points) != []
    ensures Fulls(WithoutChain(points, Fulls(points)[0].chain)) == Fulls(points)[1..]
  {
    var fulls := Fulls(points);
    var gone := ChainIds(points, fulls[0].chain);
    FullsMembers(points);
    OrderlyIds(points);
    OrderlyIndices(fulls);
    FullsAfterDeleting(points, gone);
    assert fulls[0] in fulls;
    forall i | 1 <= i < |fulls|
      ensures fulls[i].id !in gone
    {
      assert fulls[i] in fulls;
    }
    WithoutFirst(fulls, gone);
  }

  /** The complete chain of the newest point is the chain of the newest FULL. */
  lemma {:induction false} CompleteIsNewest(points: seq<Point>)
    requires Orderly(points) && Complete(points)
    ensures Fulls(points) != [] && Last(Fulls(points)).chain == Last(points).chain
  {
    FullsMembers(points);
    OrderlyEnd(points);
    var x := Last(points);
    assert points == Init(points) + [x] && x in points;
    OrderlyIds(points);
    if x.kind.Incremental? {
      CompleteIsNewest(Init(points));
      assert IncrementalIds(points) == IncrementalIds(Init(points)) + {x.id};
      SameWithout(Init(points), IncrementalIds(Init(points)), IncrementalIds(points));
      assert Last(Init(points)) in Init(points);
    } else {
      assert x.id !in IncrementalIds(points);
    }
  }

  lemma {:induction false} SameWithout(points: seq<Point>, a: set<nat>, b: set<nat>)
    requires forall p :: p in points ==> (p.id in a <==> p.id in b)
    ensures Without(points, a) == Without(points, b)
  {
    if points != [] {
      assert points == Init(points) + [Last(points)] && Last(points) in points;
      SameWithout(Init(points), a, b);
    }
  }

  lemma {:induction false} SequencesRise(points: seq<Point>)
    requires Orderly(points)
    ensures forall i, j :: 0 <= i < j < |points| && points[i].chain == points[j].chain ==> points[i].sequence < points[j].sequence
  {
    if points != [] {
      OrderlyEnd(points);
      SequencesRise(Init(points));
      assert forall i :: 0 <= i < |points| - 1 ==> points[i] == Init(points)[i] && points[i] in Init(points);
    }
  }

  lemma {:induction false} ChildContinuesParent(points: seq<Point>, p: Point, x: Point)
    requires Orderly(points) && p in points && x in points && x.parent == Some(p.id)
    ensures Continues(p, x)
  {
    OrderlyEnd(points);
    assert points == Init(points) + [Last(points)];
    if p in Init(points) && x in Init(points) { ChildContinuesParent(Init(points), p, x); }
  }

  /** The catalog after its `k` oldest chains were deleted, one after the other. */
  ghost function DropOldest(points: seq<Point>, k: nat): (r: seq<Point>)
    requires Orderly(points) && k <= |Fulls(points)|
    ensures Orderly(r) && Fulls(r) == Fulls(points)[k..]
  {
    if k == 0 then points
    else
      var rest := DropOldest(points, k - 1);
      FullsWithoutOldest(rest);
      DeletingKeepsOrder(rest, ChainIds(rest, Fulls(rest)[0].chain));
      WithoutChain(rest, Fulls(rest)[0].chain)
  }

  /** While a newer FULL exists, deleting points of the oldest chain leaves a complete newest chain alone. */
  lemma OldestIsNotNewest(points: seq<Point>, gone: set<nat>)
    requires Orderly(points) && Complete(points) && |Fulls(points)| >= 2
    requires gone <= ChainIds(points, Fulls(points)[0].chain)
    ensures Complete(Without(points, gone)) && Last(Without(points, gone)) == Last(points)
  {
    CompleteIsNewest(points);
    FullsMembers(points);
    OrderlyIndices(Fulls(points));
    OrderlyIds(points);
    assert Last(Fulls(points)) in Fulls(points);
    CompleteWithout(points, gone);
  }

  lemma NextOldest(points: seq<Point>, k: nat)
    requires Orderly(points) && k + 1 < |Fulls(points)|
    ensures var rest, next := DropOldest(points, k), Fulls(points)[k];
      && |Fulls(rest)| >= 2 && Fulls(rest)[0] == next && DropOldest(points, k + 1) == WithoutChain(rest, next.chain)
  {
  }
}
