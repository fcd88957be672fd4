/** Deletion of restore points and chains: by hand, to reclaim space before a backup, and by retention
    after one. */
module Retention {
  import opened Wrappers
  import opened Catalogs
  import opened Chains

  datatype Status = Done | Failed | Crashed

  /** Some points of one chain were deleted, and nothing else. */
  ghost predicate Trimmed(before: seq<Point>, after: seq<Point>, chain: nat) {
    exists gone :: gone <= ChainIds(before, chain) && after == Without(before, gone)
  }

  /** The FULL and every point that parent links lead back to it from. */
  method Descendants(points: seq<Point>, full: Point) returns (ids: set<nat>)
    requires Orderly(points) && full in points && full.kind.Full?
    ensures forall p :: p in points && p.id in ids ==> p.chain == full.chain
  {
    OrderlyIds(points);
    ids := {full.id};
    for i := 0 to |points|
      invariant forall p :: p in points && p.id in ids ==> p.chain == full.chain
      invariant ids <= Ids(points)
    {
      var x := points[i];
      if x.parent.Some? && x.parent.value in ids {
        ghost var p :| p in points && p.id == x.parent.value;
        ChildContinuesParent(points, p, x);
        ids := ids + {x.id};
      }
    }
  }

  /** Oldest chains, or parts of them, were deleted: no incremental was orphaned, and a complete newest
      chain is still there. */
  ghost predicate Thinned(before: seq<Point>, after: seq<Point>) {
    && Orderly(after) && (Linked(before) ==> Linked(after))
    && (forall p :: p in after ==> p in before)
    && (Complete(before) ==> Complete(after) && Last(after) == Last(before))
  }

  lemma ThinnedTwice(a: seq<Point>, b: seq<Point>, c: seq<Point>)
    requires Thinned(a, b) && Thinned(b, c)
    ensures Thinned(a, c)
  {
  }

  /** The free space measured after a number of deletions. */
  function FreeAfter(readings: seq<nat>, deletions: nat): nat {
    if deletions < |readings| then readings[deletions] else 0
  }

  /** Less than `enough` was free after each of the first deletions. */
  ghost predicate TooLittle(readings: seq<nat>, enough: nat, deletions: nat) {
    forall k :: 0 <= k < deletions ==> FreeAfter(readings, k) < enough
  }

  /** All points of the chain of a FULL, newest first. */
  ghost predicate ChainListed(points: seq<Point>, members: seq<Point>, full: Point) {
    && Orderly(points) && full in points && full.kind.Full?
    && (forall p :: p in members <==> p in points && p.chain == full.chain)
    && forall i, j :: 0 <= i < j < |members| ==> members[i].sequence > members[j].sequence
  }

  /** The points of a chain, newest first, with its FULL at the end: every point that descends from the
      FULL by parent links and every point that carries the chain's ID. */
  method ListChain(points: seq<Point>, full: Point) returns (members: seq<Point>)
    requires Orderly(points) && full in points && full.kind.Full?
    ensures ChainListed(points, members, full)
  {
    var descendants := Descendants(points, full);
    members := [];
    for i := |points| downto 0
      invariant forall p :: p in members <==> p in points[i..] && p.chain == full.chain
      invariant forall k, l :: 0 <= k < l < |members| ==> members[k].sequence > members[l].sequence
    {
      assert points[i..] == [points[i]] + points[i + 1..];
      if points[i].id in descendants || points[i].chain == full.chain {
        OldestSoFar(points, i, members);
        members := members + [points[i]];
      }
    }
  }

  lemma OldestSoFar(points: seq<Point>, i: nat, members: seq<Point>)
    requires Orderly(points) && i < |points|
    requires forall p :: p in members ==> p in points[i + 1..] && p.chain == points[i].chain
    ensures forall k :: 0 <= k < |members| ==> members[k].sequence > points[i].sequence
  {
    SequencesRise(points);
    forall k | 0 <= k < |members|
      ensures members[k].sequence > points[i].sequence
    {
      assert members[k] in members;
      var j :| 0 <= j < |points[i + 1..]| && points[i + 1..][j] == members[k];
      assert points[i + 1 + j] == members[k];
    }
  }

  method ListFulls(points: seq<Point>) returns (fulls: seq<Point>)
    requires Orderly(points)
    ensures fulls == Fulls(points)
  {
    OrderlyIds(points);
    fulls := [];
    ghost var gone := IncrementalIds(points);
    for i := 0 to |points|
      invariant fulls == Without(points[..i], gone)
    {
      assert points[..i + 1] == points[..i] + [points[i]] && Init(points[..i + 1]) == points[..i];
      assert points[i] in points;
      if points[i].kind.Full? { fulls := fulls + [points[i]]; }
    }
    assert points[..|points|] == points;
  }

  /** The first `k` points of the list are deleted, and nothing is orphaned. */
  ghost predicate PartlyDeleted(before: seq<Point>, members: seq<Point>, k: nat, now: seq<Point>) {
    && k <= |members| && now == Without(before, Ids(members[..k]))
    && Orderly(now) && (Linked(before) ==> Linked(now))
  }

  lemma NothingDeleted(points: seq<Point>, members: seq<Point>)
    requires Orderly(points)
    ensures PartlyDeleted(points, members, 0, points)
  {
    WithoutNothing(points, {});
    assert Ids(members[..0]) == {};
  }

  /** The next point of the list has no child any more. */
  lemma NextIsLeaf(points: seq<Point>, members: seq<Point>, k: nat, current: seq<Point>, full: Point)
    requires ChainListed(points, members, full) && k < |members| && PartlyDeleted(points, members, k, current)
    ensures members[k] in current && forall p :: p in current ==> p.parent != Some(members[k].id)
  {
    OrderlyIds(points);
    WithoutMembers(points, Ids(members[..k]));
    var x := members[k];
    assert x in members;
    forall p | p in current && p.parent == Some(x.id)
      ensures false
    {
      ChildContinuesParent(points, x, p);
    }
    forall i | 0 <= i < k
      ensures members[i].id != x.id
    {
      assert members[i] in members;
    }
  }

  /** What the deletion of the first `k` points means for the chain. */
  lemma MembersBelong(points: seq<Point>, members: seq<Point>, k: nat, full: Point)
    requires ChainListed(points, members, full) && k <= |members|
    ensures Trimmed(points, Without(points, Ids(members[..k])), full.chain)
    ensures k == |members| ==> Ids(members[..k]) == ChainIds(points, full.chain)
  {
    assert forall p :: p in members[..k] ==> p in members;
    assert Ids(members[..k]) <= ChainIds(points, full.chain);
    if k == |members| { assert members[..k] == members; }
  }

  /** Deleting the next point of the list keeps the catalog orderly and orphans nothing. */
  lemma NextDeleted(points: seq<Point>, members: seq<Point>, k: nat, current: seq<Point>, full: Point)
    requires ChainListed(points, members, full) && k < |members| && PartlyDeleted(points, members, k, current)
    ensures members[k].id in Ids(current)
    ensures PartlyDeleted(points, members, k + 1, Without(current, {members[k].id}))
  {
    NextIsLeaf(points, members, k, current, full);
    if Linked(current) { LinkedWithoutLeaf(current, members[k]); }
    DeletingKeepsOrder(current, {members[k].id});
    OneMoreDeleted(points, members, k);
  }

  lemma OneMoreDeleted(points: seq<Point>, members: seq<Point>, k: nat)
    requires k < |members|
    ensures Without(Without(points, Ids(members[..k])), {members[k].id}) == Without(points, Ids(members[..k + 1]))
  {
    WithoutTwice(points, Ids(members[..k]), {members[k].id});
    IdsAppend(members[..k], members[k]);
    assert members[..k + 1] == members[..k] + [members[k]];
  }

  /** The entries of a bundle directory, itself included, that are still to be removed. */
  function EntriesOf(bundles: map<nat, nat>, id: nat): nat {
    if id in bundles then bundles[id] + 1 else 0
  }

  /** Part of the directory of a point is gone, or all of it, and nothing of any other. */
  predicate BundleShrank(before: map<nat, nat>, after: map<nat, nat>, id: nat) {
    after - {id} == before - {id} && (id in after ==> id in before && after[id] <= before[id])
  }

  lemma OthersAlike(before: map<nat, nat>, after: map<nat, nat>, id: nat)
    requires BundleShrank(before, after, id)
    ensures after.Keys <= before.Keys && forall x :: x != id ==> (x in after <==> x in before)
  {
    forall x | x != id
      ensures x in after <==> x in before
    {
      assert x in after <==> x in after - {id};
      assert x in before <==> x in before - {id};
    }
  }

  // ---- The steps that deleting everything would take ----

  function Work(points: seq<Point>, bundles: map<nat, nat>): nat {
    if points == [] then 0 else Work(Init(points), bundles) + 2 + EntriesOf(bundles, Last(points).id)
  }

  lemma {:induction false} WorkChanged(points: seq<Point>, before: map<nat, nat>, after: map<nat, nat>, id: nat)
    requires Orderly(points) && before - {id} == after - {id}
    ensures Work(points, before) - Work(points, after) ==
      if id in Ids(points) then EntriesOf(before, id) - EntriesOf(after, id) else 0
  {
    if points != [] {
      var last := Last(points).id;
      OrderlyEnd(points);
      WorkChanged(Init(points), before, after, id);
      IdsAppend(Init(points), Last(points));
      assert points == Init(points) + [Last(points)];
      if last != id {
        assert last in before <==> last in before - {id};
        assert last in after <==> last in after - {id};
        assert last in before ==> before[last] == (before - {id})[last];
        assert last in after ==> after[last] == (after - {id})[last];
      }
    }
  }

  lemma {:induction false} WorkWithout(points: seq<Point>, bundles: map<nat, nat>, id: nat)
    requires Orderly(points) && id in Ids(points)
    ensures Work(Without(points, {id}), bundles) + 2 + EntriesOf(bundles, id) == Work(points, bundles)
  {
    OrderlyEnd(points);
    IdsAppend(Init(points), Last(points));
    assert points == Init(points) + [Last(points)];
    if Last(points).id == id {
      WithoutNothing(Init(points), {id});
    } else {
      WorkWithout(Init(points), bundles, id);
      var rest := Without(Init(points), {id});
      assert Init(rest + [Last(points)]) == rest;
    }
  }

  lemma WorkRecorded(points: seq<Point>, bundles: map<nat, nat>, x: Point, entries: nat)
    requires Orderly(points) && Fits(points, x)
    ensures Work(points + [x], bundles[x.id := entries]) == Work(points, bundles) + entries + 3
  {
    assert Init(points + [x]) == points;
    WorkChanged(points, bundles, bundles[x.id := entries], x.id);
  }

  // ---- Points that cannot be deleted ----

  /** Why the directory of a point cannot be removed now: its path is refused, or the removal raises when
      that many entries are left. */
  datatype Obstacle = PathRefused | RemovalRaises(left: nat)

  /** The chain of the `k`-th oldest FULL holds a point that cannot be deleted. */
  ghost predicate Blocked(points: seq<Point>, stuck: set<nat>, k: int) {
    0 <= k < |Fulls(points)| && exists p :: p in points && p.chain == Fulls(points)[k].chain && p.id in stuck
  }

  ghost function DeletableFrom(points: seq<Point>, stuck: set<nat>, k: nat): (r: nat)
    requires k <= |Fulls(points)|
    ensures k <= r <= |Fulls(points)|
    decreases |Fulls(points)| - k
  {
    if k < |Fulls(points)| && !Blocked(points, stuck, k) then DeletableFrom(points, stuck, k + 1) else k
  }

  /** The number of oldest chains that can be deleted, one after the other, up to the first that is blocked. */
  ghost function Deletable(points: seq<Point>, stuck: set<nat>): (r: nat)
    ensures r <= |Fulls(points)|
  {
    DeletableFrom(points, stuck, 0)
  }

  lemma {:induction false} DeletableFromMeans(points: seq<Point>, stuck: set<nat>, k: nat)
    requires k <= |Fulls(points)|
    ensures var r := DeletableFrom(points, stuck, k);
      (forall i :: k <= i < r ==> !Blocked(points, stuck, i)) && (r < |Fulls(points)| ==> Blocked(points, stuck, r))
    decreases |Fulls(points)| - k
  {
    if k < |Fulls(points)| && !Blocked(points, stuck, k) { DeletableFromMeans(points, stuck, k + 1); }
  }

  /** All chains before the first that is blocked, and no others, can be deleted one after the other. */
  lemma DeletableMeans(points: seq<Point>, stuck: set<nat>, d: nat)
    requires d <= |Fulls(points)|
    ensures d <= Deletable(points, stuck) <==> forall k :: 0 <= k < d ==> !Blocked(points, stuck, k)
    ensures d == Deletable(points, stuck) <==>
      (forall k :: 0 <= k < d ==> !Blocked(points, stuck, k)) && (d == |Fulls(points)| || Blocked(points, stuck, d))
  {
    DeletableFromMeans(points, stuck, 0);
  }

  /** Deletion from the oldest end has taken whole chains, and none of them held a point that cannot be
      deleted. */
  ghost predicate Dropped(before: seq<Point>, after: seq<Point>, stuck: set<nat>, dropped: nat) {
    dropped <= Deletable(before, stuck) && Fulls(after) == Fulls(before)[dropped..]
  }

  /** Chains were dropped, and the next one may be in part. */
  ghost predicate Shrunk(before: seq<Point>, after: seq<Point>, stuck: set<nat>, dropped: nat) {
    Thinned(before, after) && Dropped(before, after, stuck, dropped)
  }

  lemma {:induction false} DropOldestMembers(points: seq<Point>, k: nat)
    requires Orderly(points) && k <= |Fulls(points)|
    ensures forall p :: p in DropOldest(points, k) <==>
      p in points && forall i :: 0 <= i < k ==> p.chain != Fulls(points)[i].chain
  {
    if k > 0 {
      DropOldestMembers(points, k - 1);
      var rest := DropOldest(points, k - 1);
      var chain := Fulls(points)[k - 1].chain;
      OrderlyIds(rest);
      WithoutMembers(rest, ChainIds(rest, chain));
      assert Fulls(rest)[0] == Fulls(points)[k - 1];
    }
  }

  /** The oldest chain that is left is blocked exactly when it was blocked before. */
  lemma BlockedLater(points: seq<Point>, stuck: set<nat>, dropped: nat, k: nat)
    requires Orderly(points) && dropped + k < |Fulls(points)|
    ensures Blocked(DropOldest(points, dropped), stuck, k) <==> Blocked(points, stuck, dropped + k)
  {
    var rest, fulls := DropOldest(points, dropped), Fulls(points);
    DropOldestMembers(points, dropped);
    FullsMembers(points);
    OrderlyIndices(fulls);
    assert Fulls(rest)[k] == fulls[dropped + k];
  }

  /** Dropping chains that can be deleted leaves that many fewer of them. */
  lemma DeletableLater(points: seq<Point>, stuck: set<nat>, dropped: nat)
    requires Orderly(points) && dropped <= Deletable(points, stuck)
    ensures Deletable(DropOldest(points, dropped), stuck) == Deletable(points, stuck) - dropped
  {
    var rest, d := DropOldest(points, dropped), Deletable(points, stuck);
    DeletableMeans(points, stuck, d);
    forall k | 0 <= k < d - dropped
      ensures !Blocked(rest, stuck, k)
    {
      BlockedLater(points, stuck, dropped, k);
    }
    if d < |Fulls(points)| { BlockedLater(points, stuck, dropped, d - dropped); }
    DeletableMeans(rest, stuck, d - dropped);
  }

  /** As long as its FULL, the last of the list, is there, deleting points of a chain removes no FULL. */
  lemma NoFullGone(points: seq<Point>, members: seq<Point>, k: nat, full: Point)
    requires ChainListed(points, members, full) && k < |members|
    ensures Fulls(Without(points, Ids(members[..k]))) == Fulls(points)
  {
    var gone := Ids(members[..k]);
    FullsMembers(points);
    OrderlyIds(points);
    FullsAfterDeleting(points, gone);
    forall x | x in members[..k]
      ensures x in points && x.kind.Incremental?
    {
      var i :| 0 <= i < k && members[i] == x;
      FullIsLast(points, members, i, full);
    }
    WithoutNothing(Fulls(points), gone);
  }

  lemma FullIsLast(points: seq<Point>, members: seq<Point>, i: nat, full: Point)
    requires ChainListed(points, members, full) && i + 1 < |members|
    ensures members[i] in points && members[i].kind.Incremental?
  {
    assert members[i] in members && members[i].sequence > members[i + 1].sequence;
    OrderlyEachFits(points, members[i]);
  }

  lemma {:induction false} OrderlyEachFits(points: seq<Point>, x: Point)
    requires Orderly(points) && x in points
    ensures x.kind.Full? ==> x.sequence == 0
  {
    OrderlyEnd(points);
    assert points == Init(points) + [Last(points)];
    if x in Init(points) { OrderlyEachFits(Init(points), x); }
  }

  /** The chains beyond the larger limit of the policy. */
  function Surplus(chains: nat, minimum: nat, retain: nat): nat {
    var keep := if minimum > retain then minimum else retain;
    if chains > keep then chains - keep else 0
  }

  class LocalCatalog {
    var points: seq<Point>
    /** The points whose run is not in SUCCESS. */
    var failed: set<nat>
    var bundles: map<nat, nat>
    var tombstones: set<nat>
    var fuel: nat

    // What the next deletions meet: directories that cannot be removed, and points whose remote copies
    // cannot be marked.
    var obstacles: map<nat, Obstacle>
    var unmarkable: set<nat>

    constructor (points: seq<Point>, failed: set<nat>, bundles: map<nat, nat>, fuel: nat)
      ensures this.points == points && this.failed == failed && this.bundles == bundles && this.fuel == fuel
      ensures obstacles == map[] && unmarkable == {} && tombstones == {}
    {
      this.points, this.failed, this.bundles, this.fuel := points, failed, bundles, fuel;
      obstacles, unmarkable, tombstones := map[], {}, {};
    }

    /** Bundle directories, by point, that no row of the catalog accounts for. */
    function Strays(): set<nat>
      reads this
    {
      bundles.Keys - Ids(points)
    }

    predicate Undeletable(id: nat)
      reads this
    {
      id in failed || (id in obstacles && (obstacles[id].PathRefused? || id in bundles))
    }

    /** The points that cannot be deleted now. */
    function Stuck(): set<nat>
      reads this
    {
      set id | id in Ids(points) && Undeletable(id)
    }

    /** The steps to spare when everything were deleted. */
    function Slack(): int
      reads this
    {
      fuel - Work(points, bundles)
    }

    /** Removes the directory of a point entry by entry. */
    method RemoveTree(id: nat) returns (status: Status)
      modifies this`bundles, this`fuel
      ensures BundleShrank(old(bundles), bundles, id)
      ensures old(fuel) - fuel == EntriesOf(old(bundles), id) - EntriesOf(bundles, id)
      ensures status.Done? <==> id !in bundles
      ensures status.Done? ==> old(id !in bundles || id !in obstacles || obstacles[id].PathRefused?)
      ensures status.Failed? ==> id in obstacles && obstacles[id].RemovalRaises?
      ensures status.Crashed? ==> fuel == 0
    {
      while id in bundles
        invariant BundleShrank(old(bundles), bundles, id)
        invariant old(fuel) - fuel == EntriesOf(old(bundles), id) - EntriesOf(bundles, id)
        invariant id !in bundles ==> old(id !in bundles || id !in obstacles || obstacles[id].PathRefused?)
        decreases EntriesOf(bundles, id)
      {
        if id in obstacles && obstacles[id].RemovalRaises? && bundles[id] <= obstacles[id].left { return Failed; }
        if fuel == 0 { return Crashed; }
        bundles, fuel := if bundles[id] == 0 then bundles - {id} else bundles[id := bundles[id] - 1], fuel - 1;
      }
      return Done;
    }

    /** Removes the row of a point. */
    method RemoveRow(id: nat)
      modifies this`points
      ensures points == Without(old(points), {id})
    {
      var rest := [];
      for i := 0 to |points|
        invariant rest == Without(points[..i], {id})
      {
        assert points[..i + 1] == points[..i] + [points[i]] && Init(points[..i + 1]) == points[..i];
        if points[i].id != id { rest := rest + [points[i]]; }
      }
      assert points[..|points|] == points;
      points := rest;
    }

    /** The attempt to delete one point: its remote copies are marked for deletion, then its directory is
        removed, then its row. */
    method Attempt(id: nat) returns (status: Status)
      modifies this`points, this`bundles, this`tombstones, this`fuel
      ensures status.Done? ==> id in Ids(old(points)) && !old(Undeletable(id))
      ensures status.Failed? ==> id !in Ids(old(points)) || old(Undeletable(id))
      ensures status.Crashed? ==> fuel == 0
      ensures id !in Ids(old(points)) ==> status.Failed? && bundles == old(bundles) && fuel == old(fuel)
      ensures points == if status.Done? then Without(old(points), {id}) else old(points)
      ensures status.Done? || bundles != old(bundles) ==>
        tombstones == if id in unmarkable then old(tombstones) else old(tombstones) + {id}
      ensures tombstones == old(tombstones) || (id !in unmarkable && tombstones == old(tombstones) + {id})
      ensures status.Done? ==> id !in bundles
      ensures Undeletable(id) ==> old(Undeletable(id))
      ensures !status.Done? && old(Undeletable(id)) ==> Undeletable(id)
      ensures BundleShrank(old(bundles), bundles, id)
      ensures var spent, removed := old(fuel) - fuel, EntriesOf(old(bundles), id) - EntriesOf(bundles, id);
        if status.Done? then spent == removed + 2 else removed <= spent <= removed + 1
    {
      var found := FindPoint(points, id);
      if found.None? || id in failed { return Failed; }
      assert id in Ids(points);
      if id in obstacles && obstacles[id].PathRefused? { return Failed; }
      if fuel == 0 { return Crashed; }
      fuel := fuel - 1;
      if id !in unmarkable { tombstones := tombstones + {id}; }
      status := RemoveTree(id);
      if !status.Done? { return; }
      if fuel == 0 { return Crashed; }
      fuel := fuel - 1;
      RemoveRow(id);
    }

    /** Deletes one point. It fails exactly for a point that is missing or cannot be deleted; the row is
        then kept, as after a crash, with whatever is left of the directory. */
    method DeletePoint(id: nat) returns (status: Status)
      modifies this`points, this`bundles, this`tombstones, this`fuel
      ensures status.Done? ==> id in Ids(old(points)) && id !in old(Stuck())
      ensures status.Failed? ==> id !in Ids(old(points)) || id in old(Stuck())
      ensures status.Crashed? ==> fuel == 0 && old(fuel) < 2 + EntriesOf(old(bundles), id)
      ensures points == if status.Done? then Without(old(points), {id}) else old(points)
      ensures status.Done? || bundles != old(bundles) ==>
        tombstones == if id in unmarkable then old(tombstones) else old(tombstones) + {id}
      ensures tombstones == old(tombstones) || (id !in unmarkable && tombstones == old(tombstones) + {id})
      ensures status.Done? ==> id !in bundles
      ensures BundleShrank(old(bundles), bundles, id)
      ensures Strays() <= old(Strays()) && Stuck() == old(Stuck())
      ensures Orderly(old(points)) ==>
        Slack() >= old(Slack()) - (if status.Done? then 0 else 1) && (status.Crashed? ==> old(Slack()) < 0)
    {
      ghost var pointsBefore, bundlesBefore := points, bundles;
      status := Attempt(id);
      WithoutMembers(pointsBefore, {id});
      OthersAlike(bundlesBefore, bundles, id);
      if Orderly(pointsBefore) {
        WorkChanged(pointsBefore, bundlesBefore, bundles, id);
        if id in Ids(pointsBefore) { WorkWithout(pointsBefore, bundles, id); }
      }
    }

    /** Publishes a bundle of that many entries, and then inserts the row of its point. */
    method Record(x: Point, entries: nat) returns (status: Status)
      modifies this`points, this`bundles, this`fuel
      ensures points == if status.Done? then old(points) + [x] else old(points)
      ensures !status.Failed? && (status.Crashed? ==> fuel == 0 && old(fuel) < 2)
      ensures status.Done? ==> bundles == old(bundles)[x.id := entries] && fuel == old(fuel) - 2
      ensures Strays() <= old(Strays()) + {x.id}
    {
      IdsAppend(points, x);
      if fuel == 0 { return Crashed; }
      bundles, fuel := bundles[x.id := entries], fuel - 1;
      if fuel == 0 { return Crashed; }
      points, fuel := points + [x], fuel - 1;
      return Done;
    }

    /** The run of a point ends in FAILED. */
    method FailRun(id: nat)
      modifies this`failed
      ensures failed == old(failed) + {id}
    {
      failed := failed + {id};
    }

    /** Deletes a chain, newest point first and its FULL last; stops at a point that cannot be deleted. */
    method DeleteChain(full: Point) returns (status: Status)
      requires Orderly(points) && full in points && full.kind.Full?
      modifies this`points, this`bundles, this`tombstones, this`fuel
      ensures Orderly(points) && (Linked(old(points)) ==> Linked(points))
      ensures Trimmed(old(points), points, full.chain)
      ensures status.Done? ==> points == WithoutChain(old(points), full.chain)
      ensures !status.Done? ==> Fulls(points) == Fulls(old(points))
      ensures status.Done? ==> forall p :: p in old(points) && p.chain == full.chain ==> p.id !in old(Stuck())
      ensures status.Failed? ==> exists p :: p in old(points) && p.chain == full.chain && p.id in old(Stuck())
      ensures status.Crashed? ==> fuel == 0
      ensures Strays() <= old(Strays()) && Stuck() == old(Stuck())
      ensures Slack() >= old(Slack()) - (if status.Done? then 0 else 1) && (status.Crashed? ==> old(Slack()) < 0)
    {
      var members := ListChain(points, full);
      ghost var before := points;
      var k := 0;
      NothingDeleted(before, members);
      while k < |members|
        invariant PartlyDeleted(before, members, k, points)
        invariant Strays() <= old(Strays()) && Stuck() == old(Stuck()) && Slack() >= old(Slack())
        invariant forall i :: 0 <= i < k ==> members[i].id !in old(Stuck())
        decreases |members| - k
      {
        status := DeleteMember(members, k, before, full);
        if !status.Done? {
          MembersBelong(before, members, k, full);
          NoFullGone(before, members, k, full);
          assert members[k] in members;
          return;
        }
        k := k + 1;
      }
      MembersBelong(before, members, k, full);
      return Done;
    }

    /** Deletes the next point of a chain. */
    method DeleteMember(members: seq<Point>, k: nat, ghost before: seq<Point>, ghost full: Point)
      returns (status: Status)
      requires ChainListed(before, members, full) && k < |members| && PartlyDeleted(before, members, k, points)
      modifies this`points, this`bundles, this`tombstones, this`fuel
      ensures status.Done? ==> PartlyDeleted(before, members, k + 1, points) && members[k].id !in old(Stuck())
      ensures !status.Done? ==> points == old(points)
      ensures status.Failed? ==> members[k].id in old(Stuck())
      ensures status.Crashed? ==> fuel == 0
      ensures Strays() <= old(Strays()) && Stuck() == old(Stuck())
      ensures Slack() >= old(Slack()) - (if status.Done? then 0 else 1) && (status.Crashed? ==> old(Slack()) < 0)
    {
      NextDeleted(before, members, k, points, full);
      status := DeletePoint(members[k].id);
    }

    /** Deletes the oldest chain, with a newer FULL behind it. */
    method DeleteNext(full: Point) returns (status: Status)
      requires Orderly(points) && |Fulls(points)| >= 2 && full == Fulls(points)[0]
      modifies this`points, this`bundles, this`tombstones, this`fuel
      ensures Thinned(old(points), points)
      ensures status.Done? ==> points == WithoutChain(old(points), full.chain) && Deletable(old(points), old(Stuck())) > 0
      ensures !status.Done? ==> Fulls(points) == Fulls(old(points))
      ensures status.Failed? ==> Deletable(old(points), old(Stuck())) == 0
      ensures status.Crashed? ==> fuel == 0
      ensures Strays() <= old(Strays()) && Stuck() == old(Stuck())
      ensures Slack() >= old(Slack()) - (if status.Done? then 0 else 1) && (status.Crashed? ==> old(Slack()) < 0)
    {
      ghost var before := points;
      FullsMembers(before);
      assert full in Fulls(before);
      DeletableMeans(before, Stuck(), 0);
      DeletableMeans(before, Stuck(), 1);
      status := DeleteChain(full);
      ghost var gone :| gone <= ChainIds(before, full.chain) && points == Without(before, gone);
      WithoutMembers(before, gone);
      if Complete(before) { OldestIsNotNewest(before, gone); }
    }

    /** Deletes the chain after `k` older ones are gone. */
    method DeleteAnother(candidates: seq<Point>, k: nat, ghost before: seq<Point>, ghost stuck: set<nat>)
      returns (status: Status)
      requires Orderly(before) && candidates == Fulls(before) && k + 1 < |candidates| && stuck == Stuck()
      requires points == DropOldest(before, k) && Shrunk(before, points, stuck, k)
      modifies this`points, this`bundles, this`tombstones, this`fuel
      ensures status.Done? ==> points == DropOldest(before, k + 1) && Shrunk(before, points, stuck, k + 1)
      ensures !status.Done? ==> Shrunk(before, points, stuck, k)
      ensures status.Failed? ==> k == Deletable(before, stuck)
      ensures status.Crashed? ==> fuel == 0
      ensures Strays() <= old(Strays()) && Stuck() == stuck
      ensures Slack() >= old(Slack()) - (if status.Done? then 0 else 1) && (status.Crashed? ==> old(Slack()) < 0)
    {
      NextOldest(before, k);
      DeletableLater(before, stuck, k);
      ghost var current := points;
      status := DeleteNext(candidates[k]);
      ThinnedTwice(before, current, points);
    }

    /** Deletes oldest chains until the free space is enough or `limit` of them are gone. */
    method DeleteWhileShort(candidates: seq<Point>, limit: nat, enough: nat, readings: seq<nat>)
      returns (status: Status, freeBytes: nat, ghost deleted: nat)
      requires Orderly(points) && candidates == Fulls(points) && limit < |candidates| && FreeAfter(readings, 0) < enough
      modifies this`points, this`bundles, this`tombstones, this`fuel
      ensures Shrunk(old(points), points, old(Stuck()), deleted)
      ensures deleted <= limit && TooLittle(readings, enough, deleted)
      ensures status.Done? ==> points == DropOldest(old(points), deleted) && freeBytes == FreeAfter(readings, deleted)
      ensures status.Done? && freeBytes < enough ==> deleted == limit
      ensures status.Failed? ==>
        deleted < limit && TooLittle(readings, enough, deleted + 1) && deleted == Deletable(old(points), old(Stuck()))
      ensures status.Crashed? ==> fuel == 0
      ensures Strays() <= old(Strays()) && Stuck() == old(Stuck())
      ensures Slack() >= old(Slack()) - (if status.Done? then 0 else 1) && (status.Crashed? ==> old(Slack()) < 0)
    {
      ghost var before, stuck := points, Stuck();
      var k := 0;
      freeBytes := FreeAfter(readings, 0);
      while k < limit && freeBytes < enough
        invariant k <= limit && freeBytes == FreeAfter(readings, k) && TooLittle(readings, enough, k)
        invariant points == DropOldest(before, k) && Shrunk(before, points, stuck, k)
        invariant Strays() <= old(Strays()) && Stuck() == stuck && Slack() >= old(Slack())
      {
        status := DeleteAnother(candidates, k, before, stuck);
        if !status.Done? { return status, freeBytes, k; }
        k, freeBytes := k + 1, FreeAfter(readings, k + 1);
      }
      return Done, freeBytes, k;
    }

    /** Deletes oldest chains while the free space is not enough, leaving at least `minimum` of them. It
        fails exactly when, with the space still short, it comes to a chain that cannot be deleted. */
    method ReclaimForSpace(optimized: bool, minimum: nat, required: nat, reserve: nat, readings: seq<nat>)
      returns (status: Status, freeBytes: nat, ghost deleted: nat)
      requires Orderly(points) && minimum >= 1
      modifies this`points, this`bundles, this`tombstones, this`fuel
      ensures Shrunk(old(points), points, old(Stuck()), deleted)
      ensures deleted > 0 ==> optimized && deleted + minimum <= |Fulls(old(points))|
      ensures TooLittle(readings, required + reserve, deleted)
      ensures status.Done? ==> points == DropOldest(old(points), deleted) && freeBytes == FreeAfter(readings, deleted)
      ensures status.Done? && freeBytes < required + reserve ==> !optimized || deleted + minimum >= |Fulls(old(points))|
      ensures status.Failed? ==>
        && optimized && deleted + minimum < |Fulls(old(points))|
        && TooLittle(readings, required + reserve, deleted + 1) && deleted == Deletable(old(points), old(Stuck()))
      ensures status.Crashed? ==> fuel == 0
      ensures Strays() <= old(Strays()) && Stuck() == old(Stuck())
      ensures Slack() >= old(Slack()) - (if status.Done? then 0 else 1) && (status.Crashed? ==> old(Slack()) < 0)
    {
      freeBytes := FreeAfter(readings, 0);
      if freeBytes - required >= reserve || !optimized { return Done, freeBytes, 0; }
      var candidates := ListFulls(points);
      if |candidates| <= minimum { return Done, freeBytes, 0; }
      status, freeBytes, deleted := DeleteWhileShort(candidates, |candidates| - minimum, required + reserve, readings);
    }

    method DeleteSurplus(candidates: seq<Point>, surplus: nat) returns (status: Status, ghost deleted: nat)
      requires Orderly(points) && candidates == Fulls(points) && (surplus == 0 || surplus < |candidates|)
      modifies this`points, this`bundles, this`tombstones, this`fuel
      ensures Shrunk(old(points), points, old(Stuck()), deleted)
      ensures status.Done? ==> deleted == surplus && points == DropOldest(old(points), surplus)
      ensures !status.Done? ==> deleted < surplus
      ensures status.Failed? ==> deleted == Deletable(old(points), old(Stuck()))
      ensures status.Crashed? ==> fuel == 0
      ensures Strays() <= old(Strays()) && Stuck() == old(Stuck())
      ensures Slack() >= old(Slack()) - (if status.Done? then 0 else 1) && (status.Crashed? ==> old(Slack()) < 0)
    {
      ghost var before, stuck := points, Stuck();
      for k := 0 to surplus
        invariant points == DropOldest(before, k) && Shrunk(before, points, stuck, k)
        invariant Strays() <= old(Strays()) && Stuck() == stuck && Slack() >= old(Slack())
      {
        status := DeleteAnother(candidates, k, before, stuck);
        if !status.Done? { return status, k; }
      }
      return Done, surplus;
    }

    /** Retention after a FULL: exactly as many chains stay as the larger limit of the policy asks for, and
        they are the newest. With steps enough this is so exactly when every surplus chain can be deleted;
        otherwise the first that cannot stays, and every newer one. */
    method EnforceRetention(minimum: nat, retain: nat) returns (status: Status, ghost deleted: nat)
      requires Orderly(points) && minimum >= 1
      modifies this`points, this`bundles, this`tombstones, this`fuel
      ensures Shrunk(old(points), points, old(Stuck()), deleted)
      ensures status.Done? ==> deleted == Surplus(|Fulls(old(points))|, minimum, retain) && points == DropOldest(old(points), deleted)
      ensures !status.Done? ==> deleted < Surplus(|Fulls(old(points))|, minimum, retain)
      ensures status.Failed? ==> deleted == Deletable(old(points), old(Stuck()))
      ensures old(Slack()) >= 0 ==>
        (status.Done? <==> Surplus(|Fulls(old(points))|, minimum, retain) <= Deletable(old(points), old(Stuck())))
      ensures var n, keep := |Fulls(old(points))|, if minimum > retain then minimum else retain;
        status.Done? <==> |Fulls(points)| == if n < keep then n else keep
      ensures status.Crashed? ==> fuel == 0
      ensures Strays() <= old(Strays()) && Stuck() == old(Stuck())
      ensures Slack() >= old(Slack()) - (if status.Done? then 0 else 1) && (status.Crashed? ==> old(Slack()) < 0)
    {
      var candidates := ListFulls(points);
      status, deleted := DeleteSurplus(candidates, Surplus(|candidates|, minimum, retain));
    }
  }
}
