/** The executor that reclaims one local bundle: every state of the operation and of the bundle is
    committed before the next step, and the bundle is inspected again before each of them. */
module ReclaimExecution {
  import opened Budgets
  import opened Wrappers
  import opened BundlePaths
  import opened FileSystem
  import opened BundleTrees
  import opened BundlePurge
  import opened BundleQuarantine

  /** What the journal says: the state of the operation, and within RETIRING and PURGING the state of its
      bundle. */
  datatype Stage =
    | Planned
    | Retiring
    | BundleQuarantined(evidence: Evidence)
    | OperationQuarantined(evidence: Evidence)
    | CatalogRemoved(evidence: Evidence)
    | OperationPurging(evidence: Evidence)
    | BundlePurging(evidence: Evidence)
    | BundlePurged
    | OperationPurged
    | Completed

  /** `Halted` is an operation that asks for recovery, which resumes it in the same stage. */
  datatype Progress = Moved | Died | Halted

  /** The commits that are left, without the one that records the quarantine. */
  function CommitsLeft(stage: Stage): nat {
    match stage
    case Planned => 8
    case Retiring => 7
    case BundleQuarantined(_) => 7
    case OperationQuarantined(_) => 6
    case CatalogRemoved(_) => 5
    case OperationPurging(_) => 4
    case BundlePurging(_) => 3
    case BundlePurged => 2
    case OperationPurged => 1
    case Completed => 0
  }

  function Rank(stage: Stage): nat {
    if stage.Planned? then 9 else if stage.Retiring? then 8 else CommitsLeft(stage)
  }

  /** Everything that is still to be done, counted in changing calls and commits. */
  function ReclaimWork(tree: Node, source: Path, op: string, name: string, bundle: Node, stage: Stage): nat {
    CommitsLeft(stage) +
    if stage.Planned? || stage.Retiring? then
      RetireWork(tree, source, op) + BundleWork(bundle) + 1 + (if OperationFolder(tree, op, 0).Has(PURGING) then 0 else 1)
    else if stage.BundlePurged? || stage.OperationPurged? || stage.Completed? then 0
    else Work(OperationFolder(tree, op, 0), name)
  }

  /** The published path is empty, and is not itself in the reclaim namespace. */
  predicate Retired(tree: Node, source: Path)
    requires source != []
  {
    source[0] != RECLAIM && IsFolder(tree, ParentOf(source)) && At(tree, source).None?
  }

  /** Neither of the two names of the bundle exists. */
  predicate Cleared(tree: Node, op: string, name: string) {
    && IsFolder(tree, [RECLAIM, op])
    && var folder := At(tree, [RECLAIM, op]).value;
      !folder.Has(name) && (folder.Has(PURGING) ==> folder.entries[PURGING].Folder? && !folder.entries[PURGING].Has(name))
  }

  /** A complete bundle all of whose files are on the device of its directory. */
  predicate OneDevice(bundle: Node) {
    Complete(bundle) && SingleDevice(bundle, bundle.dev)
  }

  /** The bundle is where the stage says. A bundle on two devices gets no further than its quarantine. */
  ghost predicate InReclaim(tree: Node, source: Path, op: string, name: string, bundle: Node, stage: Stage)
    requires source != []
  {
    match stage
    case Planned => Published(tree, source, op, name, bundle)
    case Retiring => Published(tree, source, op, name, bundle) || Aside(tree, source, op, name, bundle)
    case BundleQuarantined(e) => Aside(tree, source, op, name, bundle) && e == EvidenceOf(bundle)
    case OperationQuarantined(e) => Aside(tree, source, op, name, bundle) && e == EvidenceOf(bundle)
    case CatalogRemoved(e) =>
      Aside(tree, source, op, name, bundle) && e == EvidenceOf(bundle) && OneDevice(bundle)
    case OperationPurging(e) =>
      Aside(tree, source, op, name, bundle) && e == EvidenceOf(bundle) && OneDevice(bundle)
    case BundlePurging(e) =>
      && Retired(tree, source) && OneDevice(bundle) && e == EvidenceOf(bundle)
      && (PendingAt(tree, [RECLAIM, op], name, e) || Cleared(tree, op, name))
    case _ => Retired(tree, source) && Cleared(tree, op, name) && OneDevice(bundle)
  }

  /** A purge below the operation's directory does not touch the published path. */
  lemma PurgeKeepsSourceAbsent(before: Node, source: Path, op: string, after: Node)
    requires |source| >= 2 && source[0] != RECLAIM && IsFolder(before, ParentOf(source)) && At(before, source).None?
    requires IsFolder(before, [RECLAIM, op])
    ensures var tree := Put(before, [RECLAIM, op], after); IsFolder(tree, ParentOf(source)) && At(tree, source).None?
    ensures At(Put(before, [RECLAIM, op], after), [RECLAIM, op]) == Some(after)
  {
    assert ParentOf(source)[0] != RECLAIM;
    WriteElsewhere(before, [RECLAIM, op], after, ParentOf(source));
    WriteElsewhere(before, [RECLAIM, op], after, source);
    ReadWritten(before, [RECLAIM, op], after);
  }

  // ---- What the checks before each step find ----

  lemma OperationOpens(tree: Node, op: string)
    requires IsFolder(tree, [RECLAIM, op])
    ensures CanOpenOperation(tree, op)
  {
    MissingBefore(tree, op);
    RootChild(tree, RECLAIM);
    ParentHolds(tree, [RECLAIM, op]);
    assert ParentOf([RECLAIM, op]) == [RECLAIM];
    ParentHolds(tree, [RECLAIM]);
    assert ParentOf([RECLAIM]) == [];
  }

  lemma PurgePresence(tree: Node, op: string, name: string, evidence: Evidence)
    requires name != PURGING && (PendingAt(tree, [RECLAIM, op], name, evidence) || Cleared(tree, op, name))
    ensures var presence := InspectReclaimPresence(tree, op, name);
      presence.Some? && (presence.value == Presence(false, false) <==> Cleared(tree, op, name))
  {
    OperationOpens(tree, op);
  }

  /** The inspection that precedes every step after the quarantine; it passes exactly for bundles on one
      device. */
  method VerifyQuarantined(tree: Node, source: Path, op: string, name: string, evidence: Evidence, ghost bundle: Node)
    returns (ok: bool)
    requires name != PURGING && source != [] && Aside(tree, source, op, name, bundle) && evidence == EvidenceOf(bundle)
    ensures ok <==> OneDevice(bundle)
  {
    PresenceTells(tree, source, op, name, bundle);
    var present := SourcePresent(tree, source);
    var presence := InspectReclaimPresence(tree, op, name);
    var inspected := InspectQuarantine(tree, op, name);
    ok := present == Some(false) && presence == Some(Presence(true, false)) && inspected == Some(evidence);
  }

  // ---- The stages ----

  /** The quarantine of a planned bundle, up to the commit that records its evidence. */
  method Retire(disk: Disk, source: Path, op: string, name: string, inos: (nat, nat, nat), ghost bundle: Node)
    returns (p: Progress, next: Stage)
    requires name != PURGING && |source| >= 2 && InReclaim(disk.tree, source, op, name, bundle, Retiring)
    modifies disk
    ensures InReclaim(disk.tree, source, op, name, bundle, next)
    ensures next == if p.Moved? then BundleQuarantined(EvidenceOf(bundle)) else Retiring
    ensures p.Died? ==> disk.fuel == 0
    ensures p.Halted? <==> Aside(old(disk.tree), source, op, name, bundle) && !OneDevice(bundle)
    ensures !p.Halted? ==>
      ReclaimWork(disk.tree, source, op, name, bundle, next) + old(disk.fuel)
      == ReclaimWork(old(disk.tree), source, op, name, bundle, Retiring) + disk.fuel
  {
    var r := RetireBundle(disk, source, op, name, inos.0, inos.1, bundle);
    if r.Declined? { return Halted, Retiring; }
    if r.Stopped? { return Died, Retiring; }
    return Moved, BundleQuarantined(r.evidence);
  }

  /** The next state of a bundle that waits in quarantine. */
  function AfterQuarantine(stage: Stage): Stage
    requires stage.BundleQuarantined? || stage.OperationQuarantined? || stage.CatalogRemoved? || stage.OperationPurging?
  {
    match stage
    case BundleQuarantined(e) => OperationQuarantined(e)
    case OperationQuarantined(e) => CatalogRemoved(e)
    case CatalogRemoved(e) => OperationPurging(e)
    case OperationPurging(e) => BundlePurging(e)
  }

  lemma QuarantineAdvances(tree: Node, source: Path, op: string, name: string, bundle: Node, stage: Stage)
    requires stage.BundleQuarantined? || stage.OperationQuarantined? || stage.CatalogRemoved? || stage.OperationPurging?
    requires source != [] && InReclaim(tree, source, op, name, bundle, stage) && (stage.BundleQuarantined? || OneDevice(bundle))
    ensures InReclaim(tree, source, op, name, bundle, AfterQuarantine(stage))
  {
    if stage.OperationPurging? { assert Waiting(At(tree, [RECLAIM, op]).value, name, stage.evidence); }
  }

  lemma OneCommitLess(tree: Node, source: Path, op: string, name: string, bundle: Node, stage: Stage)
    requires stage.BundleQuarantined? || stage.OperationQuarantined? || stage.CatalogRemoved? || stage.OperationPurging?
    ensures ReclaimWork(tree, source, op, name, bundle, AfterQuarantine(stage)) + 1 == ReclaimWork(tree, source, op, name, bundle, stage)
  {
  }

  lemma WaitsInQuarantine(tree: Node, source: Path, op: string, name: string, bundle: Node, stage: Stage)
    requires stage.BundleQuarantined? || stage.OperationQuarantined? || stage.CatalogRemoved? || stage.OperationPurging?
    requires source != [] && InReclaim(tree, source, op, name, bundle, stage)
    ensures Aside(tree, source, op, name, bundle) && stage.evidence == EvidenceOf(bundle)
  {
  }

  /** One commit on the way from the quarantine to the purge, after an inspection. Only a process that has
      itself just quarantined the bundle goes on to QUARANTINED without one. */
  method CommitQuarantined(disk: Disk, source: Path, op: string, name: string, stage: Stage, resumed: bool, ghost bundle: Node)
    returns (p: Progress, next: Stage)
    requires stage.BundleQuarantined? || stage.OperationQuarantined? || stage.CatalogRemoved? || stage.OperationPurging?
    requires name != PURGING && |source| >= 2 && InReclaim(disk.tree, source, op, name, bundle, stage)
    modifies disk
    ensures disk.tree == old(disk.tree) && InReclaim(disk.tree, source, op, name, bundle, next)
    ensures next == if p.Moved? then AfterQuarantine(stage) else stage
    ensures p.Halted? <==> !OneDevice(bundle) && (resumed || !stage.BundleQuarantined?)
    ensures p.Died? ==> disk.fuel == 0
    ensures !p.Halted? ==>
      ReclaimWork(disk.tree, source, op, name, bundle, next) + old(disk.fuel)
      == ReclaimWork(old(disk.tree), source, op, name, bundle, stage) + disk.fuel
  {
    WaitsInQuarantine(disk.tree, source, op, name, bundle, stage);
    if resumed || !stage.BundleQuarantined? {
      var ok := VerifyQuarantined(disk.tree, source, op, name, stage.evidence, bundle);
      if !ok { return Halted, stage; }
    }
    var status := disk.Commit();
    if status.Crashed? { return Died, stage; }
    QuarantineAdvances(disk.tree, source, op, name, bundle, stage);
    OneCommitLess(disk.tree, source, op, name, bundle, stage);
    return Moved, AfterQuarantine(stage);
  }

  /** The purge of the bundle, or the remark that an earlier process has finished it. */
  method PurgeBundle(disk: Disk, source: Path, op: string, name: string, ino: nat, evidence: Evidence, ghost bundle: Node)
    returns (p: Progress, next: Stage)
    requires name != PURGING && |source| >= 2 && InReclaim(disk.tree, source, op, name, bundle, BundlePurging(evidence))
    modifies disk
    ensures InReclaim(disk.tree, source, op, name, bundle, next) && !p.Halted?
    ensures next == if p.Moved? then BundlePurged else BundlePurging(evidence)
    ensures p.Died? ==> disk.fuel == 0
    ensures ReclaimWork(disk.tree, source, op, name, bundle, next) + old(disk.fuel)
      == ReclaimWork(old(disk.tree), source, op, name, bundle, BundlePurging(evidence)) + disk.fuel
  {
    var stage := BundlePurging(evidence);
    PurgePresence(disk.tree, op, name, evidence);
    var present := SourcePresent(disk.tree, source);
    var presence := InspectReclaimPresence(disk.tree, op, name);
    if present != Some(false) || presence.None? { return Halted, stage; }
    if presence.value.quarantined || presence.value.purging {
      ghost var before := disk.tree;
      var outcome := Purge(disk, [RECLAIM, op], name, evidence, ino);
      PurgeKeepsSourceAbsent(before, source, op, At(disk.tree, [RECLAIM, op]).value);
      if !outcome.Purged? { return Died, stage; }
      PurgePresence(disk.tree, op, name, evidence);
      var after := InspectReclaimPresence(disk.tree, op, name);
      if after != Some(Presence(false, false)) { return Halted, stage; }
    }
    var status := disk.Commit();
    if status.Crashed? { return Died, stage; }
    return Moved, BundlePurged;
  }

  /** The last commits, after a look at the two names. */
  method CommitPurged(disk: Disk, source: Path, op: string, name: string, stage: Stage, ghost bundle: Node)
    returns (p: Progress, next: Stage)
    requires stage.BundlePurged? || stage.OperationPurged?
    requires name != PURGING && |source| >= 2 && InReclaim(disk.tree, source, op, name, bundle, stage)
    modifies disk
    ensures disk.tree == old(disk.tree) && InReclaim(disk.tree, source, op, name, bundle, next) && !p.Halted?
    ensures next == if p.Died? then stage else if stage.BundlePurged? then OperationPurged else Completed
    ensures p.Died? ==> disk.fuel == 0
    ensures !p.Halted? ==>
      ReclaimWork(disk.tree, source, op, name, bundle, next) + old(disk.fuel)
      == ReclaimWork(old(disk.tree), source, op, name, bundle, stage) + disk.fuel
  {
    PurgePresence(disk.tree, op, name, Evidence(0, 0, 0));
    var present := SourcePresent(disk.tree, source);
    var presence := InspectReclaimPresence(disk.tree, op, name);
    if present != Some(false) || presence != Some(Presence(false, false)) { return Halted, stage; }
    var status := disk.Commit();
    if status.Crashed? { return Died, stage; }
    return Moved, if stage.BundlePurged? then OperationPurged else Completed;
  }

  /** The commit that begins the operation. */
  method Begin(disk: Disk, source: Path, op: string, name: string, ghost bundle: Node)
    returns (p: Progress, next: Stage)
    requires |source| >= 2 && InReclaim(disk.tree, source, op, name, bundle, Planned)
    modifies disk
    ensures disk.tree == old(disk.tree) && InReclaim(disk.tree, source, op, name, bundle, next) && !p.Halted?
    ensures next == if p.Died? then Planned else Retiring
    ensures p.Died? ==> disk.fuel == 0
    ensures ReclaimWork(disk.tree, source, op, name, bundle, next) + old(disk.fuel)
      == ReclaimWork(old(disk.tree), source, op, name, bundle, Planned) + disk.fuel
  {
    var status := disk.Commit();
    if status.Crashed? { return Died, Planned; }
    return Moved, Retiring;
  }

  /** One stage. A bundle on one device is never halted, and each stage does exactly its part of the work. */
  method Advance(disk: Disk, source: Path, op: string, name: string, inos: (nat, nat, nat), stage: Stage, resumed: bool, ghost bundle: Node)
    returns (p: Progress, next: Stage)
    requires !stage.Completed? && name != PURGING && |source| >= 2
    requires InReclaim(disk.tree, source, op, name, bundle, stage)
    modifies disk
    ensures InReclaim(disk.tree, source, op, name, bundle, next)
    ensures if p.Moved? then Rank(next) < Rank(stage) else next == stage
    ensures p.Died? ==> disk.fuel == 0
    ensures p.Halted? ==> !OneDevice(bundle)
    ensures !p.Halted? ==>
      ReclaimWork(disk.tree, source, op, name, bundle, next) + old(disk.fuel)
      == ReclaimWork(old(disk.tree), source, op, name, bundle, stage) + disk.fuel
  {
    if stage.Planned? {
      p, next := Begin(disk, source, op, name, bundle);
    } else if stage.Retiring? {
      p, next := Retire(disk, source, op, name, inos, bundle);
    } else if stage.BundlePurging? {
      p, next := PurgeBundle(disk, source, op, name, inos.2, stage.evidence, bundle);
    } else if stage.BundlePurged? || stage.OperationPurged? {
      p, next := CommitPurged(disk, source, op, name, stage, bundle);
    } else {
      p, next := CommitQuarantined(disk, source, op, name, stage, resumed, bundle);
    }
  }

  /** One life of the process: it continues the reclaim from what the journal and the tree say. */
  method Reclaim(disk: Disk, source: Path, op: string, name: string, inos: (nat, nat, nat), stage: Stage, ghost bundle: Node)
    returns (reached: Stage)
    requires name != PURGING && |source| >= 2 && InReclaim(disk.tree, source, op, name, bundle, stage)
    modifies disk
    ensures InReclaim(disk.tree, source, op, name, bundle, reached)
    ensures OneDevice(bundle) ==>
      && (!reached.Completed? ==> disk.fuel == 0)
      && ReclaimWork(disk.tree, source, op, name, bundle, reached) + old(disk.fuel)
         == ReclaimWork(old(disk.tree), source, op, name, bundle, stage) + disk.fuel
  {
    reached := stage;
    var resumed := true;
    while !reached.Completed?
      invariant InReclaim(disk.tree, source, op, name, bundle, reached)
      invariant OneDevice(bundle) ==>
        ReclaimWork(disk.tree, source, op, name, bundle, reached) + old(disk.fuel)
        == ReclaimWork(old(disk.tree), source, op, name, bundle, stage) + disk.fuel
      decreases Rank(reached)
    {
      var p;
      p, reached := Advance(disk, source, op, name, inos, reached, resumed, bundle);
      if !p.Moved? { return; }
      resumed := false;
    }
  }

  lemma StageTells(tree: Node, source: Path, op: string, name: string, bundle: Node, stage: Stage)
    requires source != [] && InReclaim(tree, source, op, name, bundle, stage)
    ensures stage.Completed? <==> ReclaimWork(tree, source, op, name, bundle, stage) == 0
    ensures stage.Completed? ==> At(tree, source).None? && Cleared(tree, op, name) && OneDevice(bundle)
    ensures !OneDevice(bundle) ==> Published(tree, source, op, name, bundle) || Aside(tree, source, op, name, bundle)
  {
  }

  /** A published bundle is reclaimed completely by a succession of processes, each dying after its budget,
      exactly when it is on one device and the budgets add up to the work; a bundle on two devices is moved
      aside and then stays there, however long the processes live. */
  method ReclaimAcrossCrashes(disk: Disk, source: Path, op: string, name: string, inos: (nat, nat, nat),
                              stage: Stage, ghost bundle: Node, budgets: seq<nat>)
    returns (reached: Stage)
    requires name != PURGING && |source| >= 2 && InReclaim(disk.tree, source, op, name, bundle, stage)
    modifies disk
    ensures InReclaim(disk.tree, source, op, name, bundle, reached)
    ensures reached.Completed? <==>
      OneDevice(bundle) && Sum(budgets) >= ReclaimWork(old(disk.tree), source, op, name, bundle, stage)
    ensures reached.Completed? ==> At(disk.tree, source).None? && Cleared(disk.tree, op, name)
    ensures !OneDevice(bundle) ==> Published(disk.tree, source, op, name, bundle) || Aside(disk.tree, source, op, name, bundle)
    decreases |budgets|
  {
    reached := stage;
    StageTells(disk.tree, source, op, name, bundle, stage);
    if budgets == [] || stage.Completed? { return; }
    disk.fuel := budgets[0];
    reached := Reclaim(disk, source, op, name, inos, stage, bundle);
    StageTells(disk.tree, source, op, name, bundle, reached);
    if !reached.Completed? { reached := ReclaimAcrossCrashes(disk, source, op, name, inos, reached, bundle, budgets[1..]); }
  }
}
