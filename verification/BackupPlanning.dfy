/** The choice between a FULL and an incremental backup, and whole histories of backup runs, operator
    deletions and crashes on one catalog. */
module BackupPlanning {
  import opened Wrappers
  import opened Catalogs
  import opened Chains
  import opened Retention

  datatype Request = AnyKind | FullOnly | IncrementalOnly(scheduled: bool)

  datatype Plan = Plan(kind: Kind, chain: nat, sequence: nat, parent: Option<nat>)

  datatype Refusal =
    | IncrementalDisabled
    | BaseMissing
    | ChainBroken
    | ChainLimitReached
    | CheckpointMissing
    | ReclaimFailed
    | InsufficientStorage
    | BackupFailed

  /** The newest point with the chain and the depth that its parent links prove. */
  method LatestPoint(points: seq<Point>) returns (latest: Option<Point>, base: Option<Base>)
    requires Orderly(points)
    ensures latest == if points == [] then None else Some(Last(points))
    ensures base.Some? <==> Complete(points)
  {
    if points == [] { return None, None; }
    OrderlyIds(points);
    var point := Last(points);
    ghost var path;
    base, path := ResolveLineage(points, point.id);
    if Complete(points) {
      ghost var proof := CompleteHasLineage(points);
      LineageIsUnique(points, point.id, proof, path);
    }
    if base.Some? { LineageMakesComplete(points, path); }
    if point.kind.Full? || base.None? { return Some(point), base; }
    return Some(point.(chain := base.value.chain, sequence := base.value.depth)), base;
  }

  /** An incremental can continue the newest point. */
  ghost predicate Continuable(points: seq<Point>, maxIncrementals: nat) {
    Complete(points) && Last(points).sequence < maxIncrementals
  }

  /** Why the kind that was requested cannot be had. A FULL always can, and so can a backup of any kind when
      no chain can be continued. */
  ghost function KindRefusal(points: seq<Point>, request: Request, maxIncrementals: nat): Option<Refusal> {
    if request.FullOnly? then None
    else if Continuable(points, maxIncrementals) then if Last(points).checkpoint then None else Some(CheckpointMissing)
    else if request != IncrementalOnly(false) then None
    else if maxIncrementals == 0 then Some(IncrementalDisabled)
    else if points == [] then Some(BaseMissing)
    else if !Complete(points) then Some(ChainBroken)
    else Some(ChainLimitReached)
  }

  /** An incremental is made exactly when one was not ruled out and the newest chain can be continued. */
  ghost predicate KindAsAsked(points: seq<Point>, request: Request, maxIncrementals: nat, kind: Kind) {
    kind.Incremental? <==> !request.FullOnly? && Continuable(points, maxIncrementals)
  }

  method PlanRun(points: seq<Point>, request: Request, maxIncrementals: nat, run: nat)
    returns (r: Result<Plan, Refusal>)
    requires Orderly(points)
    ensures request.FullOnly? || (!Continuable(points, maxIncrementals) && request != IncrementalOnly(false)) ==>
      r == Ok(Plan(Full, run, 0, None))
    ensures !request.FullOnly? && Continuable(points, maxIncrementals) ==>
      r == if Last(points).checkpoint
           then Ok(Plan(Incremental, Last(points).chain, Last(points).sequence + 1, Some(Last(points).id)))
           else Err(CheckpointMissing)
    ensures KindRefusal(points, request, maxIncrementals) == if r.Err? then Some(r.error) else None
  {
    var parent, lineage := LatestPoint(points);
    var unusable := maxIncrementals == 0 || parent.None? || lineage.None? || parent.value.sequence >= maxIncrementals;
    var forceFull, forceIncremental := request.FullOnly?, request.IncrementalOnly?;
    if forceIncremental && request.scheduled && unusable {
      forceIncremental, forceFull := false, true;
    } else if forceIncremental {
      if maxIncrementals == 0 { return Err(IncrementalDisabled); }
      if parent.None? { return Err(BaseMissing); }
      if lineage.None? { return Err(ChainBroken); }
      if parent.value.sequence >= maxIncrementals { return Err(ChainLimitReached); }
    }
    if forceFull || (!forceIncremental && unusable) { return Ok(Plan(Full, run, 0, None)); }
    if !parent.value.checkpoint { return Err(CheckpointMissing); }
    return Ok(Plan(Incremental, parent.value.chain, parent.value.sequence + 1, Some(parent.value.id)));
  }

  // ---- One backup run ----

  datatype Policy = Policy(maxIncrementals: nat, minimum: nat, retain: nat, optimized: bool)

  /** What a run meets outside the catalog: the space it needs and finds, and whether the backup works. */
  datatype Conditions = Conditions(required: nat, reserve: nat, readings: seq<nat>, succeeds: bool, checkpoint: bool, entries: nat)

  /** `RetentionFailed` is a run that recorded its point and then ended in FAILED. */
  datatype RunResult = Recorded | Refused(why: Refusal) | Interrupted | RetentionFailed

  /** IDs that no point of the catalog mentions. */
  ghost predicate Unused(points: seq<Point>, id: nat, run: nat) {
    forall p :: p in points ==> p.id != id && p.parent != Some(id) && p.chain != run
  }

  function PlannedPoint(plan: Plan, id: nat, checkpoint: bool): Point {
    Point(id, plan.kind, plan.parent, plan.chain, plan.sequence, checkpoint)
  }

  /** The sequence number that a complete chain has reached bounds the sequence of all its points, and
      the chain ID occurs nowhere else. */
  lemma {:induction false} NewestHasHighestSequence(points: seq<Point>)
    requires Orderly(points) && points != []
    ensures forall p :: p in points && p.chain == Last(points).chain ==> p.sequence <= Last(points).sequence
  {
    SequencesRise(points);
    forall p | p in points && p.chain == Last(points).chain
      ensures p.sequence <= Last(points).sequence
    {
      var i :| 0 <= i < |points| && points[i] == p;
      assert i < |points| - 1 || p == Last(points);
    }
  }

  /** A planned FULL fits any catalog without its IDs; a planned incremental fits the catalog that
      space reclaim has thinned since. */
  lemma PlannedPointFits(planned: seq<Point>, points: seq<Point>, plan: Plan, id: nat, run: nat, checkpoint: bool)
    requires Orderly(planned) && Thinned(planned, points) && Unused(points, id, run)
    requires plan == Plan(Full, run, 0, None)
      || (Complete(planned) && plan == Plan(Incremental, Last(planned).chain, Last(planned).sequence + 1, Some(Last(planned).id)))
    ensures var x := PlannedPoint(plan, id, checkpoint);
      Fits(points, x) && Orderly(points + [x]) && Complete(points + [x]) && (Linked(points) ==> Linked(points + [x]))
  {
    var x := PlannedPoint(plan, id, checkpoint);
    if plan.kind.Incremental? {
      NewestHasHighestSequence(points);
      OrderlyIds(points);
      assert Last(points) in points;
    }
    assert Fits(points, x);
    OrderlyAppend(points, x);
    assert Init(points + [x]) == points && Last(points + [x]) == x;
    LinkedEnd(points + [x]);
  }

  /** A new FULL does not change which of the older chains can be deleted. */
  lemma DeletableRecorded(points: seq<Point>, x: Point, stuck: set<nat>, more: set<nat>)
    requires Orderly(points) && Fits(points, x) && x.kind.Full? && stuck <= more <= stuck + {x.id}
    ensures Fulls(points + [x]) == Fulls(points) + [x]
    ensures var d, n := Deletable(points, stuck), |Fulls(points)|;
      if d < n then Deletable(points + [x], more) == d else Deletable(points + [x], more) >= n
  {
    FullsAppend(points, x);
    FullsMembers(points);
    var d := Deletable(points, stuck);
    forall k | 0 <= k < |Fulls(points)|
      ensures Blocked(points + [x], more, k) <==> Blocked(points, stuck, k)
    {
      assert Fulls(points)[k] in Fulls(points) && Fulls(points + [x])[k] == Fulls(points)[k];
      assert forall p :: p in points + [x] <==> p in points || p == x;
    }
    DeletableMeans(points, stuck, d);
    DeletableMeans(points + [x], more, d);
  }

  lemma FullsAppend(points: seq<Point>, x: Point)
    requires Orderly(points) && Fits(points, x)
    ensures Fulls(points + [x]) == Fulls(points) + (if x.kind.Full? then [x] else [])
  {
    assert Init(points + [x]) == points;
    assert forall p :: p in points + [x] <==> p in points || p == x;
    OrderlyIds(points);
    SameWithout(points, IncrementalIds(points), IncrementalIds(points + [x]));
  }

  /** The steps with which a run surely gets from its published bundle to its end, besides those that
      deleting the whole catalog would take. */
  function Allowance(entries: nat): nat {
    entries + 8
  }

  /** The error is recorded in the run, and then the run ends in FAILED. */
  method FailAfterRetention(catalog: LocalCatalog, id: nat) returns (r: RunResult)
    modifies catalog`fuel, catalog`failed
    ensures r == if old(catalog.fuel) < 2 then Interrupted else RetentionFailed
    ensures catalog.failed == if r.RetentionFailed? then old(catalog.failed) + {id} else old(catalog.failed)
    ensures catalog.fuel == if r.Interrupted? then 0 else old(catalog.fuel) - 2
  {
    if catalog.fuel == 0 { return Interrupted; }
    catalog.fuel := catalog.fuel - 1;
    if catalog.fuel == 0 { return Interrupted; }
    catalog.fuel := catalog.fuel - 1;
    catalog.FailRun(id);
    return RetentionFailed;
  }

  /** Retention deletes the surplus over the policy, or stops where it can delete no further. */
  ghost predicate Retained(fulls: nat, policy: Policy, deletable: int, r: RunResult, dropped: int) {
    var keep := if policy.minimum > policy.retain then policy.minimum else policy.retain;
    var surplus := if fulls > keep then fulls - keep else 0;
    && (r.Recorded? ==> dropped == surplus)
    && (r.RetentionFailed? ==> dropped == deletable < surplus)
  }

  /** Retention after the FULL that was recorded last. An error turns its run into FAILED. */
  method RetainAfter(catalog: LocalCatalog, id: nat, policy: Policy) returns (r: RunResult, ghost dropped: nat)
    requires Orderly(catalog.points) && policy.minimum >= 1
    modifies catalog`points, catalog`failed, catalog`bundles, catalog`tombstones, catalog`fuel
    ensures Thinned(old(catalog.points), catalog.points)
    ensures Dropped(old(catalog.points), catalog.points, old(catalog.Stuck()), dropped)
    ensures dropped <= Surplus(|Fulls(old(catalog.points))|, policy.minimum, policy.retain) && !r.Refused?
    ensures Retained(|Fulls(old(catalog.points))|, policy, Deletable(old(catalog.points), old(catalog.Stuck())), r, dropped)
    ensures r.Interrupted? ==> catalog.fuel == 0 && old(catalog.Slack()) < 3
    ensures old(catalog.Stuck()) <= Ids(catalog.points)
    ensures catalog.failed == if r.RetentionFailed? then old(catalog.failed) + {id} else old(catalog.failed)
    ensures catalog.Strays() <= old(catalog.Strays())
  {
    var status;
    status, dropped := catalog.EnforceRetention(policy.minimum, policy.retain);
    if status.Crashed? { return Interrupted, dropped; }
    if status.Done? { return Recorded, dropped; }
    r := FailAfterRetention(catalog, id);
  }

  /** The chain that an added FULL starts. */
  function Started(added: Option<Point>): seq<Point> {
    if added.Some? && added.value.kind.Full? then [added.value] else []
  }

  /** The oldest chains that could go are gone and nothing else. */
  ghost predicate OnlyOldestGone(before: seq<Point>, stuck: set<nat>, after: seq<Point>, added: Option<Point>, dropped: nat) {
    dropped <= |Fulls(before)| && Fulls(after) == Fulls(before)[dropped..] + Started(added)
  }

  /** After a FULL, retention deletes besides the `reclaimed` chains; after anything else it does not run. */
  ghost predicate Trimmed(
    before: seq<Point>, stuck: set<nat>, added: Option<Point>, policy: Policy, r: RunResult, reclaimed: nat, dropped: nat)
  {
    && reclaimed <= dropped <= Deletable(before, stuck)
    && (Started(added) != [] ==>
          Retained(|Fulls(before)| + 1 - reclaimed, policy, Deletable(before, stuck) - reclaimed, r, dropped - reclaimed))
    && (Started(added) == [] ==> dropped == reclaimed)
  }

  /** What a run that deleted `reclaimed` chains for its space does to the chains. */
  ghost predicate Rotated(
    before: seq<Point>, stuck: set<nat>, after: seq<Point>, added: Option<Point>, policy: Policy, r: RunResult,
    reclaimed: nat, dropped: nat)
  {
    OnlyOldestGone(before, stuck, after, added, dropped) && Trimmed(before, stuck, added, policy, r, reclaimed, dropped)
  }

  /** Retention with the new FULL in the catalog, seen from the catalog before it. */
  lemma RetainedRecorded(points: seq<Point>, x: Point, stuck: set<nat>, more: set<nat>, after: seq<Point>, policy: Policy, r: RunResult, dropped: nat)
    requires Orderly(points) && Fits(points, x) && x.kind.Full? && stuck <= more <= stuck + {x.id} && policy.minimum >= 1
    requires Dropped(points + [x], after, more, dropped)
    requires dropped <= Surplus(|Fulls(points + [x])|, policy.minimum, policy.retain)
    requires Retained(|Fulls(points + [x])|, policy, Deletable(points + [x], more), r, dropped)
    ensures Rotated(points, stuck, after, Some(x), policy, r, 0, dropped)
  {
    DeletableRecorded(points, x, stuck, more);
  }

  /** Chains that were dropped for space before count towards those that retention owes. */
  lemma RotatedTwice(before: seq<Point>, stuck: set<nat>, middle: seq<Point>, reclaimed: nat, after: seq<Point>, added: Option<Point>, policy: Policy, r: RunResult, dropped: nat)
    requires Dropped(before, middle, stuck, reclaimed) && Rotated(middle, stuck, after, added, policy, r, 0, dropped)
    requires Deletable(middle, stuck) == Deletable(before, stuck) - reclaimed
    ensures Rotated(before, stuck, after, added, policy, r, reclaimed, reclaimed + dropped)
  {
  }

  /** Catalogues a published backup, and after a FULL enforces retention. An error of the retention turns
      the run of the point that was just catalogued into FAILED. */
  method RecordAndRetain(catalog: LocalCatalog, x: Point, policy: Policy, entries: nat)
    returns (r: RunResult, ghost added: Option<Point>, ghost dropped: nat)
    requires Orderly(catalog.points) && Fits(catalog.points, x) && policy.minimum >= 1
    modifies catalog`points, catalog`failed, catalog`bundles, catalog`tombstones, catalog`fuel
    ensures added.None? ==> r.Interrupted? && dropped == 0 && catalog.points == old(catalog.points)
    ensures added.Some? ==> added == Some(x) && Thinned(old(catalog.points) + [x], catalog.points)
    ensures added.Some? && x.kind.Incremental? ==> r.Recorded? && dropped == 0 && catalog.points == old(catalog.points) + [x]
    ensures added.Some? && x.kind.Full? ==> Rotated(old(catalog.points), old(catalog.Stuck()), catalog.points, added, policy, r, 0, dropped)
    ensures !r.Refused? && (r.Recorded? || r.RetentionFailed? ==> added.Some?)
    ensures catalog.failed == if r.RetentionFailed? then old(catalog.failed) + {x.id} else old(catalog.failed)
    ensures r.Interrupted? ==> catalog.fuel == 0 && old(catalog.Slack()) < Allowance(entries)
    ensures old(catalog.Stuck()) <= Ids(catalog.points)
    ensures catalog.Strays() <= old(catalog.Strays()) + {x.id}
  {
    ghost var before, stuck := catalog.points, catalog.Stuck();
    OrderlyAppend(before, x);
    var status := catalog.Record(x, entries);
    if status.Crashed? { return Interrupted, None, 0; }
    added := Some(x);
    IdsAppend(before, x);
    if x.kind.Incremental? { return Recorded, added, 0; }
    WorkRecorded(before, old(catalog.bundles), x, entries);
    ghost var more := catalog.Stuck();
    r, dropped := RetainAfter(catalog, x.id, policy);
    RetainedRecorded(before, x, stuck, more, catalog.points, policy, r, dropped);
  }

  /** The space for a backup, after deletions if the policy allows them. */
  method SecureSpace(catalog: LocalCatalog, policy: Policy, conditions: Conditions) returns (r: Option<RunResult>, ghost reclaimed: nat)
    requires Orderly(catalog.points) && policy.minimum >= 1
    modifies catalog`points, catalog`bundles, catalog`tombstones, catalog`fuel
    ensures Shrunk(old(catalog.points), catalog.points, old(catalog.Stuck()), reclaimed)
    ensures r.None? ==>
      && Enough(conditions, reclaimed)
      && Deletable(catalog.points, catalog.Stuck()) == Deletable(old(catalog.points), old(catalog.Stuck())) - reclaimed
    ensures r.Some? ==> ShortOfSpace(old(catalog.points), old(catalog.Stuck()), policy, conditions, r.value, reclaimed)
    ensures reclaimed > 0 ==> policy.optimized && reclaimed + policy.minimum <= |Fulls(old(catalog.points))|
    ensures r == Some(Interrupted) ==> catalog.fuel == 0 && old(catalog.Slack()) < 0
    ensures r.None? ==> catalog.Slack() >= old(catalog.Slack())
    ensures catalog.Stuck() == old(catalog.Stuck()) && catalog.Strays() <= old(catalog.Strays())
  {
    var status, freeBytes;
    status, freeBytes, reclaimed :=
      catalog.ReclaimForSpace(policy.optimized, policy.minimum, conditions.required, conditions.reserve, conditions.readings);
    if status.Crashed? { return Some(Interrupted), reclaimed; }
    if status.Failed? { return Some(Refused(ReclaimFailed)), reclaimed; }
    if freeBytes - conditions.required < conditions.reserve { return Some(Refused(InsufficientStorage)), reclaimed; }
    DeletableLater(old(catalog.points), old(catalog.Stuck()), reclaimed);
    return None, reclaimed;
  }

  /** The plan, and the space for it: what happens before the external job is started. */
  method MakeRoom(catalog: LocalCatalog, run: nat, request: Request, policy: Policy, conditions: Conditions)
    returns (plan: Option<Plan>, r: RunResult, ghost reclaimed: nat)
    requires Orderly(catalog.points) && policy.minimum >= 1
    modifies catalog`points, catalog`bundles, catalog`tombstones, catalog`fuel
    ensures Thinned(old(catalog.points), catalog.points)
    ensures Dropped(old(catalog.points), catalog.points, old(catalog.Stuck()), reclaimed)
    ensures plan.Some? ==>
      && (plan.value == Plan(Full, run, 0, None) || ContinuesNewest(old(catalog.points), plan.value, policy.maxIncrementals))
      && KindAsAsked(old(catalog.points), request, policy.maxIncrementals, plan.value.kind)
      && Enough(conditions, reclaimed)
      && Deletable(catalog.points, catalog.Stuck()) == Deletable(old(catalog.points), old(catalog.Stuck())) - reclaimed
    ensures r.Interrupted? || (plan.None? && r.Refused?)
    ensures RefusedFor(old(catalog.points), old(catalog.Stuck()), request, policy, conditions, r, reclaimed)
    ensures reclaimed > 0 ==> policy.optimized && reclaimed + policy.minimum <= |Fulls(old(catalog.points))|
    ensures plan.None? && r.Interrupted? ==> catalog.fuel == 0 && old(catalog.Slack()) < 0
    ensures plan.Some? ==> catalog.Slack() >= old(catalog.Slack())
    ensures catalog.Stuck() == old(catalog.Stuck()) && catalog.Strays() <= old(catalog.Strays())
  {
    plan, r, reclaimed := None, Interrupted, 0;
    var planned := PlanRun(catalog.points, request, policy.maxIncrementals, run);
    if planned.Err? { return None, Refused(planned.error), 0; }
    var short;
    short, reclaimed := SecureSpace(catalog, policy, conditions);
    if short.Some? { return None, short.value, reclaimed; }
    plan := Some(planned.value);
  }

  /** The plan of an incremental that continues the newest point. */
  ghost predicate ContinuesNewest(points: seq<Point>, plan: Plan, maxIncrementals: nat) {
    && Continuable(points, maxIncrementals)
    && plan == Plan(Incremental, Last(points).chain, Last(points).sequence + 1, Some(Last(points).id))
  }

  /** The space is short after all the deletions that the policy allows. */
  ghost predicate Exhausted(points: seq<Point>, policy: Policy, conditions: Conditions, reclaimed: nat) {
    && TooLittle(conditions.readings, conditions.required + conditions.reserve, reclaimed + 1)
    && (!policy.optimized || reclaimed + policy.minimum >= |Fulls(points)|)
  }

  /** The space is short, and the chain that would have to go next cannot be deleted. */
  ghost predicate Stalls(points: seq<Point>, stuck: set<nat>, policy: Policy, conditions: Conditions, reclaimed: nat) {
    && TooLittle(conditions.readings, conditions.required + conditions.reserve, reclaimed + 1)
    && policy.optimized && reclaimed + policy.minimum < |Fulls(points)| && reclaimed == Deletable(points, stuck)
  }

  /** A run is refused for its kind exactly when that kind cannot be had, and otherwise for nothing but the
      space or a backup that failed. */
  ghost predicate RefusedFor(
    points: seq<Point>, stuck: set<nat>, request: Request, policy: Policy, conditions: Conditions, r: RunResult, reclaimed: nat)
  {
    match KindRefusal(points, request, policy.maxIncrementals)
    case Some(why) => r == Refused(why) && reclaimed == 0
    case None =>
      r.Refused? ==>
        if r.why.BackupFailed? then Enough(conditions, reclaimed) && !conditions.succeeds
        else ShortOfSpace(points, stuck, policy, conditions, r, reclaimed)
  }

  /** The two ways in which the space cannot be had. */
  ghost predicate ShortOfSpace(
    points: seq<Point>, stuck: set<nat>, policy: Policy, conditions: Conditions, r: RunResult, reclaimed: nat)
  {
    match r
    case Refused(ReclaimFailed) => Stalls(points, stuck, policy, conditions, reclaimed)
    case Refused(InsufficientStorage) => Exhausted(points, policy, conditions, reclaimed)
    case _ => r.Interrupted?
  }

  /** After that many deletions, and no fewer, the space was enough. */
  ghost predicate Enough(conditions: Conditions, reclaimed: nat) {
    && FreeAfter(conditions.readings, reclaimed) >= conditions.required + conditions.reserve
    && TooLittle(conditions.readings, conditions.required + conditions.reserve, reclaimed)
  }

  /** A run recorded `x`: its lineage is complete, and the parent of an incremental was the newest point. */
  ghost predicate Continued(before: seq<Point>, after: seq<Point>, x: Point, run: nat, maxIncrementals: nat) {
    && Complete(after) && Last(after) == x
    && (x.kind.Incremental? ==>
      && Complete(before) && x.sequence == Last(before).sequence + 1 <= maxIncrementals && x.chain == Last(before).chain
      && x.parent == Some(Last(before).id) && Last(before) in after)
    && (x.kind.Full? ==> x.chain == run && x.parent.None?)
  }

  /** Points may be gone, `added` may be new, and nothing else is. */
  ghost predicate Grown(before: seq<Point>, after: seq<Point>, added: Option<Point>) {
    && Orderly(after) && (Linked(before) ==> Linked(after))
    && (forall p :: p in after ==> p in before || added == Some(p))
    && (added.None? ==> Thinned(before, after))
  }

  lemma PointAdded(before: seq<Point>, middle: seq<Point>, after: seq<Point>, plan: Plan, x: Point, run: nat, maxIncrementals: nat)
    requires Orderly(before) && Thinned(before, middle) && Unused(middle, x.id, run) && Thinned(middle + [x], after)
    requires plan == Plan(Full, run, 0, None) || ContinuesNewest(before, plan, maxIncrementals)
    requires x == PlannedPoint(plan, x.id, x.checkpoint) && (x.kind.Incremental? ==> after == middle + [x])
    ensures Grown(before, after, Some(x)) && Continued(before, after, x, run, maxIncrementals)
  {
    PlannedPointFits(before, middle, plan, x.id, run, x.checkpoint);
    assert Last(middle + [x]) == x;
    if x.kind.Incremental? { assert Last(middle) in middle; }
  }

  /** The backup for which there is room, from the external job to retention. `before` is the catalog for
      which it was planned. */
  method RunPlanned(catalog: LocalCatalog, plan: Plan, id: nat, run: nat, policy: Policy, conditions: Conditions, ghost before: seq<Point>)
    returns (r: RunResult, ghost added: Option<Point>, ghost dropped: nat)
    requires Orderly(before) && Thinned(before, catalog.points)
    requires Unused(catalog.points, id, run) && policy.minimum >= 1
    requires plan == Plan(Full, run, 0, None) || ContinuesNewest(before, plan, policy.maxIncrementals)
    modifies catalog`points, catalog`failed, catalog`bundles, catalog`tombstones, catalog`fuel
    ensures Grown(before, catalog.points, added)
    ensures added.Some? ==> conditions.succeeds && added.value == PlannedPoint(plan, id, conditions.checkpoint)
    ensures r.Refused? ==> r == Refused(BackupFailed) && !conditions.succeeds
    ensures added.Some? ==> Continued(before, catalog.points, added.value, run, policy.maxIncrementals)
    ensures Rotated(old(catalog.points), old(catalog.Stuck()), catalog.points, added, policy, r, 0, dropped)
    ensures r.Recorded? || r.RetentionFailed? ==> added.Some?
    ensures added.Some? && added.value.kind.Incremental? ==> r.Recorded?
    ensures catalog.failed == if r.RetentionFailed? then old(catalog.failed) + {id} else old(catalog.failed)
    ensures r.Interrupted? ==> catalog.fuel == 0 && old(catalog.Slack()) < Allowance(conditions.entries)
    ensures old(catalog.Stuck()) <= Ids(catalog.points)
    ensures catalog.Strays() <= old(catalog.Strays()) + {id}
  {
    if !conditions.succeeds { return Refused(BackupFailed), None, 0; }
    var x := PlannedPoint(plan, id, conditions.checkpoint);
    ghost var middle := catalog.points;
    assert Fits(middle, x) by { PlannedPointFits(before, middle, plan, id, run, conditions.checkpoint); }
    FullsAppend(middle, x);
    r, added, dropped := RecordAndRetain(catalog, x, policy, conditions.entries);
    if added.Some? { PointAdded(before, middle, catalog.points, plan, x, run, policy.maxIncrementals); }
  }

  /** One run, from planning to retention. `added` is the point that it recorded, if it got that far, after
      `reclaimed` chains were deleted for their space and `dropped` in all. With steps enough, a run that
      recorded a FULL ends in FAILED exactly when some surplus chain cannot be deleted. */
  method RunBackup(catalog: LocalCatalog, id: nat, run: nat, request: Request, policy: Policy, conditions: Conditions)
    returns (r: RunResult, ghost added: Option<Point>, ghost reclaimed: nat, ghost dropped: nat)
    requires Orderly(catalog.points) && Unused(catalog.points, id, run) && policy.minimum >= 1
    modifies catalog`points, catalog`failed, catalog`bundles, catalog`tombstones, catalog`fuel
    ensures Grown(old(catalog.points), catalog.points, added)
    ensures added.Some? ==>
      && added.value.id == id && added.value.checkpoint == conditions.checkpoint
      && conditions.succeeds && Enough(conditions, reclaimed)
      && KindAsAsked(old(catalog.points), request, policy.maxIncrementals, added.value.kind)
      && Continued(old(catalog.points), catalog.points, added.value, run, policy.maxIncrementals)
    ensures Rotated(old(catalog.points), old(catalog.Stuck()), catalog.points, added, policy, r, reclaimed, dropped)
    ensures reclaimed > 0 ==> policy.optimized && reclaimed + policy.minimum <= |Fulls(old(catalog.points))|
    ensures RefusedFor(old(catalog.points), old(catalog.Stuck()), request, policy, conditions, r, reclaimed)
    ensures r.Recorded? || r.RetentionFailed? ==> added.Some?
    ensures added.Some? && added.value.kind.Incremental? ==> r.Recorded?
    ensures catalog.failed == if r.RetentionFailed? then old(catalog.failed) + {id} else old(catalog.failed)
    ensures r.Interrupted? ==> catalog.fuel == 0 && old(catalog.Slack()) < Allowance(conditions.entries)
    ensures old(catalog.Stuck()) <= Ids(catalog.points)
    ensures catalog.Strays() <= old(catalog.Strays()) + {id}
  {
    added := None;
    ghost var before, stuck := catalog.points, catalog.Stuck();
    var plan;
    plan, r, reclaimed := MakeRoom(catalog, run, request, policy, conditions);
    dropped := reclaimed;
    if plan.None? { return; }
    ghost var middle, more := catalog.points, 0;
    r, added, more := RunPlanned(catalog, plan.value, id, run, policy, conditions, before);
    dropped := reclaimed + more;
    RotatedTwice(before, stuck, middle, reclaimed, catalog.points, added, policy, r, more);
  }

  // ---- Histories ----

  /** What stands in the way of deletions during one event. */
  datatype Trouble = Trouble(obstacles: map<nat, Obstacle>, unmarkable: set<nat>)

  /** A run or a deletion by the operator, each with the number of changing steps after which it dies. */
  datatype Event =
    | Backup(request: Request, policy: Policy, conditions: Conditions, trouble: Trouble, budget: nat)
    | OperatorDelete(point: nat, trouble: Trouble, budget: nat)

  /** Every ID that the catalog mentions was issued before. */
  ghost predicate IssuedBefore(points: seq<Point>, next: nat) {
    forall p :: p in points ==> p.id < next && p.chain < next && (p.parent.Some? ==> p.parent.value < next)
  }

  /** A point whose run is not in SUCCESS is never deleted, and its run stays as it is. */
  ghost predicate FailuresStay(before: seq<Point>, failed: set<nat>, after: seq<Point>, failedAfter: set<nat>) {
    failed <= failedAfter && forall p :: p in before && p.id in failed ==> p in after
  }

  lemma StuckStays(before: seq<Point>, after: seq<Point>, p: Point)
    requires DistinctIds(before) && p in before && p.id in Ids(after) && forall q :: q in after && q.id == p.id ==> q in before
    ensures p in after
  {
    var q :| q in after && q.id == p.id;
    assert q == p;
  }

  lemma {:induction false} DeletableShrinks(points: seq<Point>, some: set<nat>, more: set<nat>)
    requires forall p :: p in points && p.id in some ==> p.id in more
    ensures Deletable(points, more) <= Deletable(points, some)
  {
    var d := Deletable(points, more);
    DeletableMeans(points, more, d);
    forall k | 0 <= k < d
      ensures !Blocked(points, some, k)
    {
      assert !Blocked(points, more, k);
    }
    DeletableMeans(points, some, d);
  }

  /** One run of a history. */
  method Attend(catalog: LocalCatalog, e: Event, next: nat) returns (ghost dropped: nat)
    requires e.Backup? && e.policy.minimum >= 1 && Orderly(catalog.points) && IssuedBefore(catalog.points, next)
    modifies catalog
    ensures Orderly(catalog.points) && IssuedBefore(catalog.points, next + 2)
    ensures Linked(old(catalog.points)) ==> Linked(catalog.points)
    ensures FailuresStay(old(catalog.points), old(catalog.failed), catalog.points, catalog.failed)
    ensures dropped <= Deletable(old(catalog.points), old(catalog.failed))
    ensures Fulls(old(catalog.points))[dropped..] <= Fulls(catalog.points)
    ensures catalog.obstacles == e.trouble.obstacles && catalog.unmarkable == e.trouble.unmarkable
  {
    ghost var before, failed := catalog.points, catalog.failed;
    catalog.obstacles, catalog.unmarkable, catalog.fuel := e.trouble.obstacles, e.trouble.unmarkable, e.budget;
    ghost var stuck := catalog.Stuck();
    DeletableShrinks(before, failed, stuck);
    OrderlyIds(before);
    assert before != [] ==> Last(before) in before;
    var r; ghost var added, reclaimed;
    r, added, reclaimed, dropped := RunBackup(catalog, next, next + 1, e.request, e.policy, e.conditions);
    forall p | p in before && p.id in failed
      ensures p in catalog.points
    {
      assert p.id in stuck;
      StuckStays(before, catalog.points, p);
    }
  }

  /** Over every history, with a crash anywhere in any event, the catalog stays orderly, so that each run
      meets the conditions of `RunBackup`; without deletions by hand no incremental is ever orphaned; and a
      point whose run is not in SUCCESS stays for ever. */
  method History(catalog: LocalCatalog, events: seq<Event>, first: nat)
    requires Orderly(catalog.points) && IssuedBefore(catalog.points, first)
    requires forall e :: e in events && e.Backup? ==> e.policy.minimum >= 1
    modifies catalog
    ensures Orderly(catalog.points) && IssuedBefore(catalog.points, first + 2 * |events|)
    ensures (forall e :: e in events ==> e.Backup?) && Linked(old(catalog.points)) ==> Linked(catalog.points)
    ensures FailuresStay(old(catalog.points), old(catalog.failed), catalog.points, catalog.failed)
  {
    for i := 0 to |events|
      invariant Orderly(catalog.points) && IssuedBefore(catalog.points, first + 2 * i)
      invariant (forall e :: e in events ==> e.Backup?) && Linked(old(catalog.points)) ==> Linked(catalog.points)
      invariant FailuresStay(old(catalog.points), old(catalog.failed), catalog.points, catalog.failed)
    {
      assert events[i] in events;
      if events[i].Backup? {
        ghost var dropped := Attend(catalog, events[i], first + 2 * i);
      } else {
        DeleteByHand(catalog, events[i]);
      }
    }
  }

  method DeleteByHand(catalog: LocalCatalog, e: Event)
    requires e.OperatorDelete? && Orderly(catalog.points)
    modifies catalog
    ensures Orderly(catalog.points) && forall p :: p in catalog.points ==> p in old(catalog.points)
    ensures FailuresStay(old(catalog.points), old(catalog.failed), catalog.points, catalog.failed)
    ensures catalog.obstacles == e.trouble.obstacles && catalog.unmarkable == e.trouble.unmarkable
    ensures e.point !in catalog.Stuck() && e.budget >= 2 + EntriesOf(old(catalog.bundles), e.point) ==> e.point !in Ids(catalog.points)
  {
    catalog.obstacles, catalog.unmarkable, catalog.fuel := e.trouble.obstacles, e.trouble.unmarkable, e.budget;
    DeletingKeepsOrder(catalog.points, {e.point});
    WithoutMembers(catalog.points, {e.point});
    var status := catalog.DeletePoint(e.point);
  }

  /** Once a chain holds a point whose run is not in SUCCESS, no run ever deletes its FULL or a newer one,
      whatever the policies ask for. */
  method StalledRetention(catalog: LocalCatalog, events: seq<Event>, first: nat, ghost p: Point, ghost k: nat)
    requires Orderly(catalog.points) && IssuedBefore(catalog.points, first)
    requires forall e :: e in events ==> e.Backup? && e.policy.minimum >= 1
    requires p in catalog.points && p.id in catalog.failed
    requires k < |Fulls(catalog.points)| && p.chain == Fulls(catalog.points)[k].chain
    modifies catalog
    ensures forall i :: k <= i < |Fulls(old(catalog.points))| ==> Fulls(old(catalog.points))[i] in Fulls(catalog.points)
  {
    ghost var fulls, gone := Fulls(catalog.points), 0;
    for i := 0 to |events|
      invariant Orderly(catalog.points) && IssuedBefore(catalog.points, first + 2 * i)
      invariant p in catalog.points && p.id in catalog.failed
      invariant gone <= k && fulls[gone..] <= Fulls(catalog.points)
    {
      assert events[i] in events;
      ghost var before, failed := catalog.points, catalog.failed;
      assert Fulls(before)[k - gone] == fulls[gone..][k - gone] == fulls[k];
      assert Blocked(before, failed, k - gone);
      DeletableMeans(before, failed, Deletable(before, failed));
      ghost var dropped := Attend(catalog, events[i], first + 2 * i);
      assert fulls[gone + dropped..] == fulls[gone..][dropped..];
      gone := gone + dropped;
    }
    assert forall i :: k <= i < |fulls| ==> fulls[i] == fulls[gone..][i - gone];
  }

  // ---- A failed run blocks retention ----

  function FullPoint(id: nat): Point {
    Point(id, Full, None, id + 1, 0, true)
  }

  lemma OneFull(p: nat)
    ensures Orderly([FullPoint(p)]) && Fulls([FullPoint(p)]) == [FullPoint(p)]
  {
    assert Init([FullPoint(p)]) == [];
    OrderlyEnd([FullPoint(p)]);
    WithoutNothing([FullPoint(p)], IncrementalIds([FullPoint(p)]));
  }

  lemma TwoFulls(p: nat, q: nat)
    requires p + 1 < q
    ensures var points := [FullPoint(p), FullPoint(q)]; Orderly(points) && Fulls(points) == points
  {
    OneFull(p);
    assert [FullPoint(p)] + [FullPoint(q)] == [FullPoint(p), FullPoint(q)];
    OrderlyAppend([FullPoint(p)], FullPoint(q));
    FullsAppend([FullPoint(p)], FullPoint(q));
  }

  lemma OldestIsStuck(points: seq<Point>, stuck: set<nat>)
    requires Orderly(points) && Fulls(points) != [] && Fulls(points)[0].id in stuck
    ensures Deletable(points, stuck) == 0
  {
    FullsMembers(points);
    assert Fulls(points)[0] in Fulls(points);
    DeletableMeans(points, stuck, 0);
  }

  /** Two FULLs of which the older belongs to a failed run, and one to keep: both stay. */
  method FailedRunBlocksRetention() returns (status: Status, chains: nat)
    ensures status.Failed? && chains == 2
  {
    var points := [FullPoint(0), FullPoint(2)];
    TwoFulls(0, 2);
    var catalog := new LocalCatalog(points, {0}, map[], 8);
    assert Init(points) == [FullPoint(0)];
    assert 0 in catalog.Stuck() by { assert points[0] in points; }
    OldestIsStuck(points, catalog.Stuck());
    ghost var deleted;
    status, deleted := catalog.EnforceRetention(1, 1);
    var fulls := ListFulls(catalog.points);
    chains := |fulls|;
  }

  /** A catalog of one FULL, whose directory cannot be removed just now. */
  method DirectoryStays() returns (catalog: LocalCatalog)
    ensures fresh(catalog) && catalog.points == [FullPoint(0)] && catalog.failed == {} && catalog.Slack() >= Allowance(0)
    ensures Orderly(catalog.points) && Fulls(catalog.points) == catalog.points && Deletable(catalog.points, catalog.Stuck()) == 0
  {
    OneFull(0);
    catalog := new LocalCatalog([FullPoint(0)], {}, map[0 := 0], 100);
    assert Init(catalog.points) == [];
    catalog.obstacles := map[0 := RemovalRaises(0)];
    assert 0 in catalog.Stuck() by { assert catalog.points[0] in catalog.points; }
    OldestIsStuck(catalog.points, catalog.Stuck());
  }

  /** One passing error of a deletion starts this: the next FULL meets a directory that cannot be removed
      just then, its run fails, and from then on it is itself a point that cannot be deleted. */
  method OnePassingError() returns (first: RunResult, failed: set<nat>, chains: nat)
    ensures first.RetentionFailed? && failed == {2} && chains == 2
  {
    var catalog := DirectoryStays();
    ghost var added, reclaimed, dropped;
    first, added, reclaimed, dropped :=
      RunBackup(catalog, 2, 3, FullOnly, Policy(0, 1, 1, false), Conditions(0, 0, [0], true, true, 0));
    assert FreeAfter([0], 0) == 0;
    failed := catalog.failed;
    var fulls := ListFulls(catalog.points);
    chains := |fulls|;
  }
}
