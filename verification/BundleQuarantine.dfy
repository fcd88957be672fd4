/** Moving one published bundle into the reclaim namespace, and reconstructing the evidence of the
    move after a crash. */
module BundleQuarantine {
  import opened Budgets
  import opened Wrappers
  import opened BundlePaths
  import opened FileSystem
  import opened BundleTrees
  import opened BundlePurge

  const RECLAIM := ".reclaim"

  datatype Outcome = Quarantined(evidence: Evidence) | Refused | Interrupted

  // ---- The directory of a reclaim operation ----

  /** The directory of the operation as it is, or as it would be created. */
  function OperationFolder(tree: Node, op: string, ino: nat): Node {
    if IsFolder(tree, [RECLAIM, op]) then At(tree, [RECLAIM, op]).value
    else if IsFolder(tree, [RECLAIM]) then Folder(At(tree, [RECLAIM]).value.dev, ino, map[])
    else Folder(tree.dev, ino, map[])
  }

  predicate CanOpenOperation(tree: Node, op: string) {
    MayHold(tree, [], RECLAIM) && (RECLAIM in tree.entries ==> MayHold(tree, [RECLAIM], op))
  }

  /** The changing calls that are needed to open the operation's directory. */
  function MissingFolders(tree: Node, op: string): nat {
    if IsFolder(tree, [RECLAIM, op]) then 0 else if IsFolder(tree, [RECLAIM]) then 1 else 2
  }

  /** The path neither leads to the operation's directory nor lies in it. */
  predicate Apart(other: Path, op: string) {
    !(other <= [RECLAIM]) && !([RECLAIM, op] <= other)
  }

  /** What opening an operation's directory may change: it can only create that directory. */
  ghost predicate OnlyOpened(before: Node, after: Node, op: string) {
    && CanOpenOperation(after, op)
    && OperationFolder(after, op, 0).dev == OperationFolder(before, op, 0).dev
    && OperationFolder(after, op, 0).entries == OperationFolder(before, op, 0).entries
    && forall other :: Apart(other, op) ==> At(after, other) == At(before, other)
  }

  lemma OpeningStep(before: Node, op: string, ino: nat)
    requires CanOpenOperation(before, op)
    ensures var after := WithFolder(before, [], RECLAIM, ino); OnlyOpened(before, after, op) && IsFolder(after, [RECLAIM])
  {
    var after := WithFolder(before, [], RECLAIM, ino);
    FolderMade(before, [], RECLAIM, ino);
    assert [] + [RECLAIM] == [RECLAIM];
    RootChild(before, RECLAIM);
    ReadChild(after, [RECLAIM], op);
    assert [RECLAIM] + [op] == [RECLAIM, op];
    if RECLAIM in before.entries {
      assert after == before;
    } else {
      ReadJoined(before, [RECLAIM], [op]);
      forall other: Path | Apart(other, op)
        ensures At(after, other) == At(before, other)
      {
        if other[0] == RECLAIM {
          assert other == [RECLAIM] + other[1..];
          ReadJoined(before, [RECLAIM], other[1..]);
          ReadJoined(after, [RECLAIM], other[1..]);
        } else {
          EntryElsewhere(before, [], RECLAIM, Folder(before.dev, ino, map[]), other);
        }
      }
    }
  }

  lemma OperationStep(before: Node, op: string, ino: nat)
    requires CanOpenOperation(before, op) && IsFolder(before, [RECLAIM])
    ensures var after := WithFolder(before, [RECLAIM], op, ino); OnlyOpened(before, after, op) && IsFolder(after, [RECLAIM, op])
  {
    var after := WithFolder(before, [RECLAIM], op, ino);
    assert [RECLAIM] + [op] == [RECLAIM, op];
    FolderMade(before, [RECLAIM], op, ino);
    ReadChild(before, [RECLAIM], op);
    RootChild(before, RECLAIM);
    RootChild(after, RECLAIM);
    if op !in At(before, [RECLAIM]).value.entries {
      var made := At(before, [RECLAIM]).value.With(op, Folder(At(before, [RECLAIM]).value.dev, ino, map[]));
      ReadWritten(before, [RECLAIM], made);
      forall other: Path | Apart(other, op)
        ensures At(after, other) == At(before, other)
      {
        EntryElsewhere(before, [RECLAIM], op, Folder(At(before, [RECLAIM]).value.dev, ino, map[]), other);
      }
    }
  }

  method OpenOperation(disk: Disk, op: string, reclaimIno: nat, operationIno: nat) returns (status: Status)
    modifies disk
    ensures status.Failed? <==> !CanOpenOperation(old(disk.tree), op)
    ensures status.Failed? ==> disk.tree == old(disk.tree) && disk.fuel == old(disk.fuel)
    ensures !status.Failed? ==> OnlyOpened(old(disk.tree), disk.tree, op)
    ensures !status.Failed? ==> MissingFolders(disk.tree, op) + old(disk.fuel) == MissingFolders(old(disk.tree), op) + disk.fuel
    ensures status.Crashed? ==> disk.fuel == 0
    ensures status.Done? ==> IsFolder(disk.tree, [RECLAIM, op])
  {
    ghost var start := disk.tree;
    RootChild(start, RECLAIM);
    if CanOpenOperation(start, op) { OpeningStep(start, op, reclaimIno); }
    status := OpenOrCreate(disk, [], RECLAIM, reclaimIno);
    if !status.Done? { return; }
    ghost var middle := disk.tree;
    MissingBefore(start, op);
    MissingBefore(middle, op);
    if CanOpenOperation(middle, op) { OperationStep(middle, op, operationIno); }
    status := OpenOrCreate(disk, [RECLAIM], op, operationIno);
  }

  lemma MissingBefore(tree: Node, op: string)
    ensures MissingFolders(tree, op) == if !IsFolder(tree, [RECLAIM]) then 2 else if IsFolder(tree, [RECLAIM, op]) then 0 else 1
    ensures IsFolder(tree, [RECLAIM]) && MayHold(tree, [RECLAIM], op) ==>
      (IsFolder(tree, [RECLAIM, op]) <==> At(tree, [RECLAIM]).value.Has(op))
  {
    assert [RECLAIM] + [op] == [RECLAIM, op];
    ReadJoined(tree, [RECLAIM], [op]);
    if IsFolder(tree, [RECLAIM]) { ReadChild(tree, [RECLAIM], op); }
  }

  // ---- Quarantine ----

  ghost predicate CanQuarantine(tree: Node, source: Path, op: string, name: string) {
    && Inspectable(tree, source) && CanOpenOperation(tree, op)
    && name !in OperationFolder(tree, op, 0).entries
    && IsFolder(tree, ParentOf(source)) && At(tree, ParentOf(source)).value.dev == OperationFolder(tree, op, 0).dev
  }

  ghost function EvidenceOf(bundle: Node): Evidence
    requires Complete(bundle)
  {
    Evidence(PhysicalBytes(bundle), bundle.dev, bundle.ino)
  }

  /** The bundle has left its published path and waits in the operation's directory; nothing else changed. */
  ghost predicate MovedAside(before: Node, after: Node, source: Path, op: string, name: string)
    requires source != [] && At(before, source).Some?
  {
    && IsFolder(after, ParentOf(source)) && At(after, source) == None
    && IsFolder(after, [RECLAIM, op])
    && At(after, [RECLAIM, op]).value.dev == OperationFolder(before, op, 0).dev
    && At(after, [RECLAIM, op]).value.entries == OperationFolder(before, op, 0).entries[name := At(before, source).value]
    && forall other :: Apart(other, op) && !(source <= other) && !(other <= ParentOf(source)) ==> At(after, other) == At(before, other)
  }

  lemma PublishedPathShape(source: Path, op: string)
    requires ValidatedRelative(source).Some?
    ensures |source| == 5 && Apart(source, op) && Apart(ParentOf(source), op) && !([RECLAIM, op] <= source)
    ensures !(source <= [RECLAIM, op]) && !([RECLAIM, op] <= ParentOf(source)) && !(ParentOf(source) <= [RECLAIM, op])
  {
  }

  lemma RenameMovesAside(tree: Node, source: Path, op: string, name: string)
    requires |source| == 5 && source[0] != RECLAIM && At(tree, source).Some? && IsFolder(tree, [RECLAIM, op])
    requires CanRename(tree, ParentOf(source), NameOf(source), [RECLAIM, op], name)
    ensures MovedAside(tree, Renamed(tree, ParentOf(source), NameOf(source), [RECLAIM, op], name), source, op, name)
  {
    var target := [RECLAIM, op, name];
    assert ParentOf(target) == [RECLAIM, op] && NameOf(target) == name;
    RenameCarries(tree, source, target);
    forall other: Path | Apart(other, op)
      ensures !(other <= [RECLAIM, op]) && !(target <= other)
    {
      assert other <= [RECLAIM, op] ==> other <= [RECLAIM] || other == [RECLAIM, op];
      assert target <= other ==> [RECLAIM, op] <= other;
    }
  }

  lemma SameVerdict(before: Node, after: Node, source: Path, op: string, name: string)
    requires source != [] && CanOpenOperation(before, op) && CanOpenOperation(after, op)
    requires OperationFolder(after, op, 0).dev == OperationFolder(before, op, 0).dev
    requires OperationFolder(after, op, 0).entries == OperationFolder(before, op, 0).entries
    requires At(after, source) == At(before, source) && At(after, ParentOf(source)) == At(before, ParentOf(source))
    ensures CanQuarantine(before, source, op, name) <==> CanQuarantine(after, source, op, name)
  {
  }

  lemma StillQuarantinable(before: Node, after: Node, source: Path, op: string, name: string)
    requires ValidatedRelative(source).Some? && OnlyOpened(before, after, op)
    ensures At(after, source) == At(before, source) && At(after, ParentOf(source)) == At(before, ParentOf(source))
    ensures CanOpenOperation(before, op) ==> (CanQuarantine(before, source, op, name) <==> CanQuarantine(after, source, op, name))
  {
    PublishedPathShape(source, op);
    if CanOpenOperation(before, op) { SameVerdict(before, after, source, op, name); }
  }

  lemma MovedAfterOpening(before: Node, readied: Node, after: Node, source: Path, op: string, name: string)
    requires ValidatedRelative(source).Some? && At(before, source).Some? && OnlyOpened(before, readied, op)
    requires At(readied, source).Some? && MovedAside(readied, after, source, op, name)
    ensures MovedAside(before, after, source, op, name)
  {
    PublishedPathShape(source, op);
  }

  /** Moves a valid published bundle into the operation's directory with one rename. */
  method Quarantine(disk: Disk, source: Path, op: string, name: string, reclaimIno: nat, operationIno: nat)
    returns (outcome: Outcome)
    modifies disk
    ensures CanQuarantine(old(disk.tree), source, op, name) ==> !outcome.Refused?
    ensures outcome.Quarantined? ==>
      && CanQuarantine(old(disk.tree), source, op, name) && MovedAside(old(disk.tree), disk.tree, source, op, name)
      && outcome.evidence == EvidenceOf(At(old(disk.tree), source).value)
      && old(disk.fuel) - disk.fuel == MissingFolders(old(disk.tree), op) + 1
    ensures !outcome.Quarantined? ==> disk.tree == old(disk.tree) || OnlyOpened(old(disk.tree), disk.tree, op)
    ensures outcome.Interrupted? ==> disk.fuel == 0 && OnlyOpened(old(disk.tree), disk.tree, op)
    ensures outcome.Interrupted? ==> MissingFolders(disk.tree, op) + old(disk.fuel) == MissingFolders(old(disk.tree), op)
  {
    ghost var start := disk.tree;
    var usage := Inspect(disk.tree, source);
    if usage.None? { return Outcome.Refused; }
    PublishedPathShape(source, op);
    ParentHolds(start, source);
    var status := OpenOperation(disk, op, reclaimIno, operationIno);
    if status.Failed? { return Outcome.Refused; }
    if status.Crashed? { return Outcome.Interrupted; }
    ghost var readied := disk.tree;
    StillQuarantinable(start, readied, source, op, name);
    var parent, target := At(disk.tree, ParentOf(source)).value, At(disk.tree, [RECLAIM, op]).value;
    if name in target.entries || parent.dev != target.dev { return Outcome.Refused; }
    var bundle := At(disk.tree, source).value;
    assert !(ParentOf(source) + [NameOf(source)] <= [RECLAIM, op]);
    status := disk.Rename(ParentOf(source), NameOf(source), [RECLAIM, op], name);
    if status.Crashed? { return Outcome.Interrupted; }
    RenameMovesAside(readied, source, op, name);
    MovedAfterOpening(start, readied, disk.tree, source, op, name);
    return Quarantined(Evidence(usage.value.physicalBytes, bundle.dev, bundle.ino));
  }

  /** Reads the evidence of a quarantine back from the quarantined bundle. */
  method InspectQuarantine(tree: Node, op: string, name: string) returns (r: Option<Evidence>)
    ensures r.Some? <==> Reconstructible(tree, op, name)
    ensures r.Some? ==> r.value == EvidenceOf(At(tree, [RECLAIM, op]).value.entries[name])
  {
    if !IsFolder(tree, [RECLAIM, op]) { return None; }
    var target := At(tree, [RECLAIM, op]).value;
    if name !in target.entries || !target.entries[name].Folder? { return None; }
    var bundle := target.entries[name];
    var bytes := ValidateCompleteTree(bundle, bundle.dev, None);
    if bytes.None? { return None; }
    return Some(Evidence(bytes.value, bundle.dev, bundle.ino));
  }

  predicate Reconstructible(tree: Node, op: string, name: string) {
    && IsFolder(tree, [RECLAIM, op]) && At(tree, [RECLAIM, op]).value.Has(name)
    && Complete(At(tree, [RECLAIM, op]).value.entries[name])
    && SingleDevice(At(tree, [RECLAIM, op]).value.entries[name], At(tree, [RECLAIM, op]).value.entries[name].dev)
  }

  /** The inspector that quarantine relies on ignores devices; the purger's validator does not. So after the
      rename the same evidence can be read back, and a purge accepts it, exactly for single-device bundles. */
  lemma EvidenceSurvivesTheMove(before: Node, after: Node, source: Path, op: string, name: string)
    requires name != PURGING && source != [] && At(before, source).Some? && Complete(At(before, source).value)
    requires PurgeMayStart(OperationFolder(before, op, 0), name) && MovedAside(before, after, source, op, name)
    ensures var bundle := At(before, source).value;
      && At(after, [RECLAIM, op]).value.entries[name] == bundle
      && (Reconstructible(after, op, name) <==> SingleDevice(bundle, bundle.dev))
      && (Waiting(At(after, [RECLAIM, op]).value, name, EvidenceOf(bundle)) <==> SingleDevice(bundle, bundle.dev))
  {
    assert OperationFolder(before, op, 0).Has(PURGING) <==> At(after, [RECLAIM, op]).value.Has(PURGING);
  }

  /** A bundle that quarantine moves aside but whose evidence cannot be read back: its directory of disks, with
      the disk in it, is on another device, as a nested subvolume is. */
  lemma TwoDeviceBundle() returns (bundle: Node)
    ensures Complete(bundle) && !SingleDevice(bundle, bundle.dev)
    ensures forall child :: child in bundle.entries ==> FilesOn(bundle.entries[child].entries, bundle.entries[child].dev)
  {
    var file := File(1, 7, 1, 1, Some(8));
    var disk := File(2, 7, 1, 1, Some(8));
    var name := "vda.qcow2";
    assert name[|name| - 6..] == ".qcow2" && name[..|name| - 6] == "vda" && SafeComponent("vda");
    var disks, metadata := map[name := disk], map n | n in METADATA_FILES :: file;
    bundle := Folder(1, 2, map["disks" := Folder(2, 3, disks), "metadata" := Folder(1, 4, metadata)]);
    assert name in disks && disks[name].dev != bundle.dev;
  }

  // ---- Recording a quarantine across crashes ----

  datatype Presence = Presence(quarantined: bool, purging: bool)

  /** Which of the two deterministic names exist; None for an unsafe namespace. */
  function InspectReclaimPresence(tree: Node, op: string, name: string): Option<Presence> {
    if !CanOpenOperation(tree, op) then None
    else if !IsFolder(tree, [RECLAIM, op]) then Some(Presence(false, false))
    else
      var folder := At(tree, [RECLAIM, op]).value;
      if folder.Has(PURGING) && !folder.entries[PURGING].Folder? then None
      else Some(Presence(folder.Has(name), folder.Has(PURGING) && folder.entries[PURGING].Has(name)))
  }

  /** Whether the published bundle is still there, found one component at a time. */
  method SourcePresent(tree: Node, source: Path) returns (r: Option<bool>)
    requires source != []
    ensures IsFolder(tree, source) <==> r == Some(true)
    ensures r == Some(false) ==> At(tree, source).None?
    ensures IsFolder(tree, ParentOf(source)) && At(tree, source).None? ==> r == Some(false)
  {
    var current, i := tree, 0;
    while i < |source|
      invariant 0 <= i <= |source| && At(tree, source[..i]) == Some(current)
    {
      assert source == source[..i] + source[i..] && source[..i + 1] == source[..i] + [source[i]];
      ReadJoined(tree, source[..i], source[i..]);
      ReadJoined(tree, source[..i], [source[i]]);
      RootChild(current, source[i]);
      if i + 1 < |source| {
        assert ParentOf(source) == source[..i] + source[i..|source| - 1];
        ReadJoined(tree, source[..i], source[i..|source| - 1]);
      }
      if !current.Folder? { return None; }
      if source[i] !in current.entries { return Some(false); }
      current, i := current.entries[source[i]], i + 1;
    }
    assert source[..i] == source;
    return if current.Folder? then Some(true) else None;
  }

  /** The bundle is still published and its quarantine has not begun, or has only made directories. */
  ghost predicate Published(tree: Node, source: Path, op: string, name: string, bundle: Node) {
    && CanQuarantine(tree, source, op, name) && At(tree, source) == Some(bundle)
    && PurgeMayStart(OperationFolder(tree, op, 0), name)
  }

  /** The bundle was renamed, whether or not its evidence was recorded. */
  ghost predicate Aside(tree: Node, source: Path, op: string, name: string, bundle: Node)
    requires source != []
  {
    && source[0] != RECLAIM && IsFolder(tree, ParentOf(source)) && At(tree, source).None?
    && IsFolder(tree, [RECLAIM, op]) && At(tree, [RECLAIM, op]).value.Has(name)
    && At(tree, [RECLAIM, op]).value.entries[name] == bundle && Complete(bundle)
    && PurgeMayStart(At(tree, [RECLAIM, op]).value, name)
  }

  /** The changing calls and commits until the evidence is recorded. */
  function RetireWork(tree: Node, source: Path, op: string): nat {
    if At(tree, source).Some? then MissingFolders(tree, op) + 2 else 1
  }

  lemma MovedIsAside(before: Node, after: Node, source: Path, op: string, name: string, bundle: Node)
    requires name != PURGING && source != [] && source[0] != RECLAIM
    requires At(before, source) == Some(bundle) && Complete(bundle)
    requires PurgeMayStart(OperationFolder(before, op, 0), name) && MovedAside(before, after, source, op, name)
    ensures Aside(after, source, op, name, bundle)
  {
  }

  lemma OpeningKeepsPublished(before: Node, after: Node, source: Path, op: string, name: string, bundle: Node)
    requires Published(before, source, op, name, bundle) && OnlyOpened(before, after, op)
    ensures Published(after, source, op, name, bundle)
  {
    StillQuarantinable(before, after, source, op, name);
  }

  /** What the two name checks find in the two states. */
  lemma PresenceTells(tree: Node, source: Path, op: string, name: string, bundle: Node)
    requires name != PURGING && source != []
    ensures Published(tree, source, op, name, bundle) ==> InspectReclaimPresence(tree, op, name) == Some(Presence(false, false))
    ensures Aside(tree, source, op, name, bundle) ==> InspectReclaimPresence(tree, op, name) == Some(Presence(true, false))
  {
    MissingBefore(tree, op);
    RootChild(tree, RECLAIM);
    ParentHolds(tree, [RECLAIM, op]);
    assert ParentOf([RECLAIM, op]) == [RECLAIM];
    ParentHolds(tree, [RECLAIM]);
    assert ParentOf([RECLAIM]) == [];
  }

  datatype Retirement = Recorded(evidence: Evidence) | Declined | Stopped

  /** What the quarantine of a published bundle has done: all of it, or nothing but making directories. */
  ghost predicate MovedBy(before: Node, after: Node, source: Path, op: string, name: string, bundle: Node, outcome: Outcome, spent: int)
    requires source != []
  {
    && !outcome.Refused?
    && (outcome.Quarantined? ==>
      Aside(after, source, op, name, bundle) && outcome.evidence == EvidenceOf(bundle) && spent + 1 == RetireWork(before, source, op))
    && (outcome.Interrupted? ==>
      Published(after, source, op, name, bundle) && RetireWork(after, source, op) + spent == RetireWork(before, source, op))
    && OperationFolder(after, op, 0).Has(PURGING) == OperationFolder(before, op, 0).Has(PURGING)
  }

  lemma PurgingUnmoved(before: Node, after: Node, source: Path, op: string, name: string)
    requires name != PURGING && source != [] && At(before, source).Some? && MovedAside(before, after, source, op, name)
    ensures OperationFolder(after, op, 0).Has(PURGING) == OperationFolder(before, op, 0).Has(PURGING)
  {
    assert OperationFolder(after, op, 0).entries == OperationFolder(before, op, 0).entries[name := At(before, source).value];
  }

  lemma MovedFully(before: Node, after: Node, source: Path, op: string, name: string, bundle: Node)
    requires name != PURGING && source != [] && Published(before, source, op, name, bundle)
    requires MovedAside(before, after, source, op, name)
    ensures MovedBy(before, after, source, op, name, bundle, Quarantined(EvidenceOf(bundle)), MissingFolders(before, op) + 1)
  {
    PurgingUnmoved(before, after, source, op, name);
    assert Aside(after, source, op, name, bundle) by {
      PublishedPathShape(source, op);
      MovedIsAside(before, after, source, op, name, bundle);
    }
  }

  lemma MovedPartly(before: Node, after: Node, source: Path, op: string, name: string, bundle: Node, spent: int)
    requires source != [] && Published(before, source, op, name, bundle) && OnlyOpened(before, after, op)
    requires MissingFolders(after, op) + spent == MissingFolders(before, op)
    ensures MovedBy(before, after, source, op, name, bundle, Outcome.Interrupted, spent)
  {
    OpeningKeepsPublished(before, after, source, op, name, bundle);
  }

  /** The quarantine of a bundle of which more is known when it is published. */
  method MoveAside(disk: Disk, source: Path, op: string, name: string, reclaimIno: nat, operationIno: nat, ghost bundle: Node)
    returns (outcome: Outcome)
    requires name != PURGING && source != []
    modifies disk
    ensures Published(old(disk.tree), source, op, name, bundle) ==>
      MovedBy(old(disk.tree), disk.tree, source, op, name, bundle, outcome, old(disk.fuel) - disk.fuel)
    ensures outcome.Interrupted? ==> disk.fuel == 0
  {
    ghost var start := disk.tree;
    outcome := Quarantine(disk, source, op, name, reclaimIno, operationIno);
    if Published(start, source, op, name, bundle) {
      if outcome.Interrupted? { MovedPartly(start, disk.tree, source, op, name, bundle, old(disk.fuel)); }
      if outcome.Quarantined? { MovedFully(start, disk.tree, source, op, name, bundle); }
    }
  }

  /** Quarantines one planned bundle and records its evidence, or picks up after a crash in between. */
  method RetireBundle(disk: Disk, source: Path, op: string, name: string, reclaimIno: nat, operationIno: nat, ghost bundle: Node)
    returns (r: Retirement)
    requires name != PURGING && source != []
    modifies disk
    ensures Published(old(disk.tree), source, op, name, bundle) ==> !r.Declined?
    ensures Aside(old(disk.tree), source, op, name, bundle) ==> (r.Declined? <==> !SingleDevice(bundle, bundle.dev))
    ensures r.Declined? && Aside(old(disk.tree), source, op, name, bundle) ==> disk.tree == old(disk.tree) && disk.fuel == old(disk.fuel)
    ensures Published(old(disk.tree), source, op, name, bundle) || Aside(old(disk.tree), source, op, name, bundle) ==>
      && (r.Recorded? ==>
        && r.evidence == EvidenceOf(bundle) && Aside(disk.tree, source, op, name, bundle)
        && old(disk.fuel) - disk.fuel == RetireWork(old(disk.tree), source, op))
      && (r.Stopped? ==>
        && disk.fuel == 0 && RetireWork(disk.tree, source, op) + old(disk.fuel) == RetireWork(old(disk.tree), source, op)
        && (Published(disk.tree, source, op, name, bundle) || Aside(disk.tree, source, op, name, bundle)))
      && OperationFolder(disk.tree, op, 0).Has(PURGING) == OperationFolder(old(disk.tree), op, 0).Has(PURGING)
  {
    ghost var start := disk.tree;
    PresenceTells(start, source, op, name, bundle);
    var presence := InspectReclaimPresence(disk.tree, op, name);
    if presence.None? || presence.value.purging { return Declined; }
    var present := SourcePresent(disk.tree, source);
    if present.None? || (present.value && presence.value.quarantined) { return Declined; }
    var evidence;
    if present.value {
      var outcome := MoveAside(disk, source, op, name, reclaimIno, operationIno, bundle);
      if outcome.Refused? { return Declined; }
      if outcome.Interrupted? { return Stopped; }
      evidence := outcome.evidence;
    } else {
      if !presence.value.quarantined { return Declined; }
      var inspected := InspectQuarantine(disk.tree, op, name);
      if inspected.None? { return Declined; }
      evidence := inspected.value;
    }
    var status := disk.Commit();
    return if status.Done? then Recorded(evidence) else Stopped;
  }
}
