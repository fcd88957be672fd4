/** The restore points of one job on one destination, oldest first, and the parent links between them. */
module Catalogs {
  import opened Wrappers

  datatype Kind = Full | Incremental

  datatype Point = Point(id: nat, kind: Kind, parent: Option<nat>, chain: nat, sequence: nat, checkpoint: bool)

  function Last<T>(s: seq<T>): T
    requires s != []
  {
    s[|s| - 1]
  }

  function Init<T>(s: seq<T>): seq<T>
    requires s != []
  {
    s[..|s| - 1]
  }

  // ---- Lineage by parent links ----

  ghost predicate HasId(points: seq<Point>, p: Point, id: nat) {
    p in points && p.id == id
  }

  ghost predicate DistinctIds(points: seq<Point>) {
    forall p, q :: p in points && q in points && p.id == q.id ==> p == q
  }

  /** A path of parent links from a point to an available FULL. */
  ghost predicate Lineage(points: seq<Point>, id: nat, path: seq<Point>)
    decreases |path|
  {
    && path != [] && HasId(points, path[0], id)
    && (path[0].kind.Full? ==> |path| == 1)
    && (path[0].kind.Incremental? ==> path[0].parent.Some? && Lineage(points, path[0].parent.value, path[1..]))
  }

  lemma {:induction false} LineageIsUnique(points: seq<Point>, id: nat, p: seq<Point>, q: seq<Point>)
    requires DistinctIds(points) && Lineage(points, id, p) && Lineage(points, id, q)
    ensures p == q
    decreases |p|
  {
    assert p == [p[0]] + p[1..] && q == [q[0]] + q[1..];
    if p[0].kind.Incremental? { LineageIsUnique(points, p[0].parent.value, p[1..], q[1..]); }
  }

  lemma {:induction false} LineageSuffix(points: seq<Point>, id: nat, path: seq<Point>, i: nat)
    requires Lineage(points, id, path) && i < |path|
    ensures Lineage(points, path[i].id, path[i..])
    ensures i + 1 < |path| ==> path[i].kind.Incremental? && path[i].parent == Some(path[i + 1].id)
    decreases i
  {
    if i > 0 {
      LineageSuffix(points, path[0].parent.value, path[1..], i - 1);
      assert path[1..][i - 1..] == path[i..];
    }
  }

  /** A lineage visits no point twice. */
  lemma LineageHasNoCycle(points: seq<Point>, id: nat, path: seq<Point>, i: nat, j: nat)
    requires DistinctIds(points) && Lineage(points, id, path) && i < j < |path|
    ensures path[i].id != path[j].id
  {
    if path[i].id == path[j].id {
      LineageSuffix(points, id, path, i);
      LineageSuffix(points, id, path, j);
      LineageIsUnique(points, path[i].id, path[i..], path[j..]);
      assert false;
    }
  }

  datatype Base = Base(chain: nat, depth: nat, full: nat)

  method FindPoint(points: seq<Point>, id: nat) returns (r: Option<Point>)
    ensures r.Some? ==> HasId(points, r.value, id)
    ensures r.None? ==> forall p :: p in points ==> p.id != id
  {
    for i := 0 to |points|
      invariant forall p :: p in points[..i] ==> p.id != id
    {
      if points[i].id == id { return Some(points[i]); }
    }
    return None;
  }

  /** The links from `id` that lead through `visited` to `current`, all of them incrementals. */
  ghost predicate Explored(points: seq<Point>, id: nat, visited: seq<Point>, current: nat)
    decreases |visited|
  {
    if visited == [] then id == current
    else
      && HasId(points, visited[0], id) && visited[0].kind.Incremental? && visited[0].parent.Some?
      && Explored(points, visited[0].parent.value, visited[1..], current)
  }

  lemma {:induction false} ExploreFurther(points: seq<Point>, id: nat, visited: seq<Point>, current: nat, point: Point)
    requires Explored(points, id, visited, current) && HasId(points, point, current)
    requires point.kind.Incremental? && point.parent.Some?
    ensures Explored(points, id, visited + [point], point.parent.value)
    decreases |visited|
  {
    if visited == [] {
      assert (visited + [point])[1..] == [];
    } else {
      ExploreFurther(points, visited[0].parent.value, visited[1..], current, point);
      assert (visited + [point])[1..] == visited[1..] + [point];
    }
  }

  lemma {:induction false} LineagePassesThrough(points: seq<Point>, id: nat, visited: seq<Point>, current: nat, path: seq<Point>)
    requires DistinctIds(points) && Explored(points, id, visited, current) && Lineage(points, id, path)
    ensures visited <= path && |visited| < |path| && Lineage(points, current, path[|visited|..])
    decreases |visited|
  {
    if visited == [] {
      assert path[0..] == path;
    } else {
      LineagePassesThrough(points, visited[0].parent.value, visited[1..], current, path[1..]);
      assert path[1..][|visited[1..]|..] == path[|visited|..];
      assert path == [path[0]] + path[1..] && visited == [visited[0]] + visited[1..];
    }
  }

  lemma {:induction false} LineageJoins(points: seq<Point>, id: nat, visited: seq<Point>, current: nat, path: seq<Point>)
    requires Explored(points, id, visited, current) && Lineage(points, current, path)
    ensures Lineage(points, id, visited + path)
    decreases |visited|
  {
    if visited == [] {
      assert visited + path == path;
    } else {
      LineageJoins(points, visited[0].parent.value, visited[1..], current, path);
      assert (visited + path)[1..] == visited[1..] + path;
    }
  }

  function Ids(points: seq<Point>): set<nat> {
    set p | p in points :: p.id
  }

  lemma IdsAppend(points: seq<Point>, point: Point)
    ensures Ids(points + [point]) == Ids(points) + {point.id}
  {
    assert forall p :: p in points + [point] <==> p in points || p == point;
  }

  ghost predicate HasLineage(points: seq<Point>, id: nat) {
    exists path :: Lineage(points, id, path)
  }

  /** A link that returns to a visited point leads to no FULL. */
  lemma CircleHasNoLineage(points: seq<Point>, id: nat, visited: seq<Point>, current: nat)
    requires DistinctIds(points) && Explored(points, id, visited, current) && current in Ids(visited)
    ensures !HasLineage(points, id)
  {
    if HasLineage(points, id) {
      var path :| Lineage(points, id, path);
      var k :| 0 <= k < |visited| && visited[k].id == current;
      LineagePassesThrough(points, id, visited, current, path);
      LineageHasNoCycle(points, id, path, k, |visited|);
    }
  }

  /** Neither does a link to a point that is missing or has itself no parent. */
  lemma DeadEndHasNoLineage(points: seq<Point>, id: nat, visited: seq<Point>, current: nat)
    requires DistinctIds(points) && Explored(points, id, visited, current)
    requires forall p :: HasId(points, p, current) ==> p.kind.Incremental? && p.parent.None?
    ensures !HasLineage(points, id)
  {
    if HasLineage(points, id) {
      var path :| Lineage(points, id, path);
      LineagePassesThrough(points, id, visited, current, path);
    }
  }

  lemma OneFewerUnseen(all: set<nat>, seen: set<nat>, id: nat)
    requires id in all && id !in seen
    ensures |all - (seen + {id})| < |all - seen|
  {
    assert all - (seen + {id}) == (all - seen) - {id};
  }

  lemma Arrived(points: seq<Point>, id: nat, visited: seq<Point>, current: nat, point: Point)
    requires Explored(points, id, visited, current) && HasId(points, point, current) && point.kind.Full?
    ensures Lineage(points, id, visited + [point])
  {
    assert Lineage(points, current, [point]);
    LineageJoins(points, id, visited, current, [point]);
  }

  /** Following one more link visits one more point. */
  lemma Followed(points: seq<Point>, id: nat, visited: seq<Point>, current: nat, point: Point)
    requires Explored(points, id, visited, current) && HasId(points, point, current) && current !in Ids(visited)
    requires point.kind.Incremental? && point.parent.Some?
    ensures Explored(points, id, visited + [point], point.parent.value)
    ensures Ids(visited + [point]) == Ids(visited) + {current}
    ensures |Ids(points) - (Ids(visited) + {current})| < |Ids(points) - Ids(visited)|
  {
    ExploreFurther(points, id, visited, current, point);
    IdsAppend(visited, point);
    OneFewerUnseen(Ids(points), Ids(visited), current);
  }

  /** Follows the parent links of a point; None when they do not reach an available FULL, also when they
      run in a circle. */
  method ResolveLineage(points: seq<Point>, id: nat) returns (r: Option<Base>, ghost path: seq<Point>)
    requires DistinctIds(points)
    ensures r.Some? ==> Lineage(points, id, path) && r.value == Base(Last(path).chain, |path| - 1, Last(path).id)
    ensures r.None? ==> !HasLineage(points, id)
  {
    ghost var visited: seq<Point> := [];
    var seen, current, depth := {}, id, 0;
    while current !in seen
      invariant depth == |visited| && Explored(points, id, visited, current) && seen == Ids(visited)
      decreases |Ids(points) - seen|
    {
      var found := FindPoint(points, current);
      if found.None? || (found.value.kind.Incremental? && found.value.parent.None?) {
        DeadEndHasNoLineage(points, id, visited, current);
        return None, [];
      }
      var point := found.value;
      if point.kind.Full? {
        Arrived(points, id, visited, current, point);
        return Some(Base(point.chain, depth, point.id)), visited + [point];
      }
      Followed(points, id, visited, current, point);
      visited := visited + [point];
      seen, current, depth := seen + {current}, point.parent.value, depth + 1;
    }
    CircleHasNoLineage(points, id, visited, current);
    return None, [];
  }
}
