/** Physical removal of one quarantined bundle, resumable after a crash between any two system calls.

    The bundle waits under its own name in the directory of the reclaim operation. One rename claims
    it for removal under `.purging`; its entries are then removed one by one. */
module BundlePurge {
  import opened Budgets
  import opened Wrappers
  import opened BundlePaths
  import opened FileSystem
  import opened BundleTrees

  const PURGING := ".purging"

  datatype Evidence = Evidence(bytes: nat, dev: nat, ino: nat)

  datatype Outcome = Purged(resumed: bool, observed: Option<nat>) | Refused | Interrupted

  // ---- What is left to do ----

  function ChildWork(bundle: Node, name: string): nat {
    if bundle.Has(name) && bundle.entries[name].Folder? then |bundle.entries[name].entries| + 1 else 0
  }

  /** The number of entries left, the bundle directory included. */
  function BundleWork(bundle: Node): nat {
    ChildWork(bundle, "disks") + ChildWork(bundle, "metadata") + 1
  }

  /** No purge of this name has started in the operation's directory, and nothing obstructs one. */
  predicate PurgeMayStart(op: Node, name: string) {
    op.Has(PURGING) ==> op.entries[PURGING].Folder? && op.entries[PURGING].dev == op.dev && !op.entries[PURGING].Has(name)
  }

  /** The bundle waits under its quarantine name. */
  ghost predicate Waiting(op: Node, name: string, evidence: Evidence) {
    && op.Has(name) && op.entries[name].HasIdentity(evidence.dev, evidence.ino)
    && PurgeMayStart(op, name)
    && Complete(op.entries[name]) && SingleDevice(op.entries[name], evidence.dev)
    && PhysicalBytes(op.entries[name]) == evidence.bytes
  }

  /** The bundle is claimed for removal and possibly partly removed. */
  ghost predicate Claimed(op: Node, name: string, evidence: Evidence) {
    && op.Folder? && !op.Has(name) && op.Has(PURGING) && op.entries[PURGING].Has(name)
    && op.entries[PURGING].entries[name].HasIdentity(evidence.dev, evidence.ino)
    && Remaining(op.entries[PURGING].entries[name], evidence.dev)
  }

  ghost predicate Pending(op: Node, name: string, evidence: Evidence) {
    Waiting(op, name, evidence) || Claimed(op, name, evidence)
  }

  ghost predicate PendingAt(tree: Node, operation: Path, name: string, evidence: Evidence) {
    At(tree, operation).Some? && Pending(At(tree, operation).value, name, evidence)
  }

  /** The changing system calls that a purge still needs. */
  function Work(op: Node, name: string): nat {
    if op.Has(name) then BundleWork(op.entries[name]) + 1 + (if op.Has(PURGING) then 0 else 1)
    else if op.Has(PURGING) && op.entries[PURGING].Has(name) then BundleWork(op.entries[PURGING].entries[name])
    else 0
  }

  function StagedEntries(op: Node): map<string, Node> {
    if op.Has(PURGING) && op.entries[PURGING].Folder? then op.entries[PURGING].entries else map[]
  }

  /** Nothing but the two names of the bundle and the `.purging` directory itself has changed. */
  ghost predicate OthersUnchanged(before: Node, after: Node, name: string) {
    && before.Folder? && after.HasIdentity(before.dev, before.ino)
    && after.entries - {name, PURGING} == before.entries - {name, PURGING}
    && StagedEntries(after) - {name} == StagedEntries(before) - {name}
    && (before.Has(PURGING) && before.entries[PURGING].Folder? ==>
      after.Has(PURGING) && after.entries[PURGING].HasIdentity(before.entries[PURGING].dev, before.entries[PURGING].ino))
  }

  ghost predicate Gone(op: Node, name: string) {
    op.Folder? && !op.Has(name) && name !in StagedEntries(op)
  }

  // ---- Removing the entries ----

  predicate Restricts(part: map<string, Node>, whole: map<string, Node>) {
    part.Keys <= whole.Keys && forall n :: n in part ==> part[n] == whole[n]
  }

  /** Every file that is gone had passed the check. */
  predicate OnlySoundRemoved(before: map<string, Node>, left: map<string, Node>, device: nat) {
    forall n :: n in before && n !in left ==> SoundFile(before[n]) && before[n].dev == device
  }

  /** Removes the files of one directory, checking each just before it is removed. */
  method UnlinkFiles(disk: Disk, d: Path, device: nat) returns (status: Status, left: map<string, Node>)
    requires IsFolder(disk.tree, d)
    modifies disk
    ensures disk.tree == Put(old(disk.tree), d, At(old(disk.tree), d).value.(entries := left))
    ensures Restricts(left, At(old(disk.tree), d).value.entries)
    ensures OnlySoundRemoved(At(old(disk.tree), d).value.entries, left, device)
    ensures |left| + old(disk.fuel) == |At(old(disk.tree), d).value.entries| + disk.fuel
    ensures status.Done? ==> left == map[]
    ensures status.Crashed? ==> disk.fuel == 0
    ensures var entries := At(old(disk.tree), d).value.entries; SoundFiles(entries) && FilesOn(entries, device) ==> !status.Failed?
  {
    ghost var start := disk.tree;
    var folder := At(disk.tree, d).value;
    WriteBack(start, d);
    left := folder.entries;
    while left != map[]
      invariant Restricts(left, folder.entries) && OnlySoundRemoved(folder.entries, left, device)
      invariant disk.tree == Put(start, d, folder.(entries := left))
      invariant |left| + old(disk.fuel) == |folder.entries| + disk.fuel
      decreases |left|
    {
      ReadWritten(start, d, folder.(entries := left));
      var entry :| entry in left;
      if !SoundFile(left[entry]) || left[entry].dev != device { return Failed, left; }
      status := disk.Unlink(d, entry);
      if !status.Done? { return; }
      WriteTwice(start, d, folder.(entries := left), folder.(entries := left - {entry}));
      left := left - {entry};
    }
    status := Done;
  }

  /** What purging one child directory of a bundle has done so far. */
  ghost predicate ChildProgress(before: Node, after: Node, name: string, metadata: bool, device: nat, status: Status, spent: int) {
    && before.Folder? && after.HasIdentity(before.dev, before.ino) && after.entries - {name} == before.entries - {name}
    && !status.Failed? && (status.Done? ==> after == before.Without(name))
    && (after.Has(name) ==> RemainingChild(after.entries[name], metadata, device))
    && ChildWork(after, name) + spent == ChildWork(before, name)
  }

  lemma PartlyUnlinked(before: Node, name: string, metadata: bool, device: nat, left: map<string, Node>, spent: int)
    requires before.Has(name) && RemainingChild(before.entries[name], metadata, device)
    requires Restricts(left, before.entries[name].entries) && |left| + spent == |before.entries[name].entries|
    ensures ChildProgress(before, before.With(name, before.entries[name].(entries := left)), name, metadata, device, Crashed, spent)
  {
  }

  lemma FullyUnlinked(before: Node, name: string, metadata: bool, device: nat)
    requires before.Has(name) && RemainingChild(before.entries[name], metadata, device)
    ensures ChildProgress(before, before.Without(name), name, metadata, device, Done, |before.entries[name].entries| + 1)
  {
  }

  lemma ChildRewritten(start: Node, root: Path, name: string, child: Node)
    requires IsFolder(start, root) && At(start, root).value.Has(name)
    ensures var current := At(start, root).value.With(name, child);
      && Put(start, root + [name], child) == Put(start, root, current)
      && At(Put(start, root, current), root) == Some(current)
  {
    WriteChild(start, root, name, child);
    ReadWritten(start, root, At(start, root).value.With(name, child));
  }

  lemma ChildRemoved(start: Node, root: Path, name: string, child: Node)
    requires IsFolder(start, root) && At(start, root).value.Has(name)
    ensures var bundle := At(start, root).value;
      && Detached(Put(start, root, bundle.With(name, child)), root, name) == Put(start, root, bundle.Without(name))
      && At(Put(start, root, bundle.Without(name)), root) == Some(bundle.Without(name))
  {
    var bundle := At(start, root).value;
    var current := bundle.With(name, child);
    ReadWritten(start, root, current);
    assert current.Without(name) == bundle.Without(name);
    WriteTwice(start, root, current, bundle.Without(name));
    ReadWritten(start, root, bundle.Without(name));
  }

  /** A directory with no name in it that a bundle does not have. */
  predicate ExpectedChild(child: Node, metadata: bool) {
    child.Folder? && if metadata then child.entries.Keys <= METADATA_FILES else DiskNames(child.entries.Keys)
  }

  method PurgeChildDirectory(disk: Disk, root: Path, name: string, metadata: bool, device: nat) returns (status: Status)
    requires IsFolder(disk.tree, root)
    modifies disk
    ensures IsFolder(disk.tree, root) && disk.tree == Put(old(disk.tree), root, At(disk.tree, root).value)
    ensures status.Crashed? ==> disk.fuel == 0
    ensures var before := At(old(disk.tree), root).value;
      before.Has(name) && !ExpectedChild(before.entries[name], metadata) ==>
      status.Failed? && disk.tree == old(disk.tree) && disk.fuel == old(disk.fuel)
    ensures var before, after := At(old(disk.tree), root).value, At(disk.tree, root).value;
      before.Has(name) && ExpectedChild(before.entries[name], metadata) ==>
      OnlySoundRemoved(before.entries[name].entries, if after.Has(name) && after.entries[name].Folder? then after.entries[name].entries else map[], device)
    ensures var before := At(old(disk.tree), root).value;
      (before.Has(name) ==> RemainingChild(before.entries[name], metadata, device)) ==>
      ChildProgress(before, At(disk.tree, root).value, name, metadata, device, status, old(disk.fuel) - disk.fuel)
  {
    ghost var start := disk.tree;
    var bundle := At(disk.tree, root).value;
    WriteBack(start, root);
    if name !in bundle.entries {
      assert bundle.Without(name) == bundle;
      return Done;
    }
    var child := bundle.entries[name];
    if !ExpectedChild(child, metadata) { return Failed; }
    ReadChild(start, root, name);
    var left;
    status, left := UnlinkFiles(disk, root + [name], device);
    ChildRewritten(start, root, name, child.(entries := left));
    if RemainingChild(child, metadata, device) { PartlyUnlinked(bundle, name, metadata, device, left, old(disk.fuel) - disk.fuel); }
    if !status.Done? { return; }
    ChildRemoved(start, root, name, child.(entries := left));
    if RemainingChild(child, metadata, device) { FullyUnlinked(bundle, name, metadata, device); }
    status := disk.RemoveFolder(root, name);
  }

  /** What purging a partly removed bundle has done so far. */
  ghost predicate TreeProgress(before: Node, after: Node, device: nat, status: Status, spent: int) {
    && before.Folder? && after.HasIdentity(before.dev, before.ino) && Remaining(after, device)
    && !status.Failed? && (status.Done? ==> after.entries == map[])
    && BundleWork(after) + spent == BundleWork(before)
  }

  lemma StoppedInDisks(before: Node, after: Node, device: nat, spent: int)
    requires Remaining(before, device) && ChildProgress(before, after, "disks", false, device, Crashed, spent)
    ensures TreeProgress(before, after, device, Crashed, spent)
  {
    OtherEntries(before, after, "disks");
  }

  lemma StoppedInMetadata(before: Node, middle: Node, after: Node, device: nat, status: Status, first: int, second: int)
    requires Remaining(before, device) && ChildProgress(before, middle, "disks", false, device, Done, first)
    requires ChildProgress(middle, after, "metadata", true, device, status, second)
    ensures TreeProgress(before, after, device, status, first + second)
  {
    assert middle == before.Without("disks");
    assert !middle.Has("disks") && middle.entries.Keys <= {"metadata"};
    OnlyMetadataLeft(middle, after, device, status, second);
  }

  lemma OnlyMetadataLeft(middle: Node, after: Node, device: nat, status: Status, spent: int)
    requires middle.Folder? && middle.entries.Keys <= {"metadata"}
    requires ChildProgress(middle, after, "metadata", true, device, status, spent)
    ensures TreeProgress(middle, after, device, status, spent)
  {
    OtherEntries(middle, after, "metadata");
    assert !after.Has("disks");
  }

  lemma OtherEntries(before: Node, after: Node, name: string)
    requires before.Folder? && after.Folder? && after.entries - {name} == before.entries - {name}
    ensures forall n :: n != name ==> after.Has(n) == before.Has(n) && (after.Has(n) ==> after.entries[n] == before.entries[n])
  {
    forall n | n != name
      ensures after.Has(n) == before.Has(n) && (after.Has(n) ==> after.entries[n] == before.entries[n])
    {
      assert n in after.entries <==> n in after.entries - {name};
      assert n in before.entries <==> n in before.entries - {name};
      assert n in after.entries ==> (after.entries - {name})[n] == (before.entries - {name})[n];
    }
  }

  method PurgeRemainingTree(disk: Disk, root: Path, device: nat) returns (status: Status)
    requires IsFolder(disk.tree, root)
    modifies disk
    ensures IsFolder(disk.tree, root) && disk.tree == Put(old(disk.tree), root, At(disk.tree, root).value)
    ensures status.Crashed? ==> disk.fuel == 0
    ensures Remaining(At(old(disk.tree), root).value, device) ==>
      TreeProgress(At(old(disk.tree), root).value, At(disk.tree, root).value, device, status, old(disk.fuel) - disk.fuel)
  {
    ghost var start, before := disk.tree, At(disk.tree, root).value;
    status := PurgeChildDirectory(disk, root, "disks", false, device);
    ghost var middle, spent := At(disk.tree, root).value, old(disk.fuel) - disk.fuel;
    if Remaining(before, device) && status.Crashed? { StoppedInDisks(before, middle, device, spent); }
    if !status.Done? { return; }
    if Remaining(before, device) { OtherEntries(before, middle, "disks"); }
    status := PurgeChildDirectory(disk, root, "metadata", true, device);
    ghost var after := At(disk.tree, root).value;
    WriteTwice(start, root, middle, after);
    if Remaining(before, device) {
      StoppedInMetadata(before, middle, after, device, status, spent, old(disk.fuel) - disk.fuel - spent);
    }
    if status.Done? && At(disk.tree, root).value.entries != map[] { status := Failed; }
  }

  // ---- The purge of one bundle ----

  /** The operation directory after the bundle was claimed, with `left` of it still there. */
  function Staged(op: Node, name: string, left: Node): Node
    requires op.Has(PURGING) && op.entries[PURGING].Folder?
  {
    op.With(PURGING, op.entries[PURGING].With(name, left))
  }

  lemma ClaimedByRename(start: Node, operation: Path, op: Node, name: string)
    requires name != PURGING && At(start, operation).Some? && op.Has(name) && op.Has(PURGING)
    requires op.entries[PURGING].Folder? && !op.entries[PURGING].Has(name) && op.dev == op.entries[PURGING].dev
    ensures var tree, target := Put(start, operation, op), operation + [PURGING];
      && CanRename(tree, operation, name, target, name)
      && Renamed(tree, operation, name, target, name) == Put(start, operation, Staged(op.Without(name), name, op.entries[name]))
  {
    var tree, target := Put(start, operation, op), operation + [PURGING];
    ChildOfWritten(start, operation, op, PURGING);
    assert (operation + [name])[|operation|] == name && target[|operation|] == PURGING;
    var detached := op.Without(name);
    WriteTwice(start, operation, op, detached);
    ChildOfWritten(start, operation, detached, PURGING);
  }

  lemma StagedRewritten(start: Node, operation: Path, op: Node, name: string, left: Node)
    requires At(start, operation).Some? && op.Has(PURGING) && op.entries[PURGING].Has(name)
    ensures var root := operation + [PURGING] + [name];
      && At(Put(start, operation, op), root) == Some(op.entries[PURGING].entries[name])
      && Put(Put(start, operation, op), root, left) == Put(start, operation, Staged(op, name, left))
  {
    var tree, target := Put(start, operation, op), operation + [PURGING];
    ChildOfWritten(start, operation, op, PURGING);
    ReadChild(tree, target, name);
    WriteChild(tree, target, name, left);
  }

  /** The staging name after the last entry is removed. */
  lemma StagedRemoved(start: Node, operation: Path, op: Node, name: string)
    requires At(start, operation).Some? && op.Has(PURGING) && op.entries[PURGING].Has(name)
    requires op.entries[PURGING].entries[name].Folder? && op.entries[PURGING].entries[name].entries == map[]
    ensures var tree, target := Put(start, operation, op), operation + [PURGING];
      && CanRemoveFolder(tree, target, name)
      && Detached(tree, target, name) == Put(start, operation, op.With(PURGING, op.entries[PURGING].Without(name)))
  {
    ChildOfWritten(start, operation, op, PURGING);
  }

  /** An interrupted purge has only done part of its own work. */
  ghost predicate Interruptible(before: Node, after: Node, name: string, evidence: Evidence, spent: int) {
    OthersUnchanged(before, after, name) && Pending(after, name, evidence) && Work(after, name) + spent == Work(before, name)
  }

  lemma OthersUnchangedTwice(a: Node, b: Node, c: Node, name: string)
    requires OthersUnchanged(a, b, name) && OthersUnchanged(b, c, name)
    ensures OthersUnchanged(a, c, name)
  {
  }

  /** The operation directory once `.purging` exists. */
  function Prepared(op: Node, ino: nat): (r: Node)
    requires op.Folder?
    ensures r.Has(PURGING)
  {
    if op.Has(PURGING) then op else op.With(PURGING, Folder(op.dev, ino, map[]))
  }

  lemma PreparedStillWaits(op: Node, name: string, evidence: Evidence, ino: nat)
    requires name != PURGING && Waiting(op, name, evidence)
    ensures var prepared := Prepared(op, ino);
      && Waiting(prepared, name, evidence) && OthersUnchanged(op, prepared, name)
      && Work(prepared, name) + (if op.Has(PURGING) then 0 else 1) == Work(op, name)
      && prepared.entries[name] == op.entries[name]
  {
  }

  lemma ClaimKeepsTheRest(op: Node, name: string, evidence: Evidence)
    requires name != PURGING && Waiting(op, name, evidence) && op.Has(PURGING)
    ensures var claimed := Staged(op.Without(name), name, op.entries[name]);
      && Claimed(claimed, name, evidence) && OthersUnchanged(op, claimed, name) && Work(claimed, name) + 1 == Work(op, name)
      && claimed.entries[PURGING].entries[name] == op.entries[name]
  {
    CompleteIsRemaining(op.entries[name], evidence.dev);
  }

  /** Validates the waiting bundle and claims it with one rename. */
  method Claim(disk: Disk, operation: Path, name: string, evidence: Evidence, ino: nat)
    returns (status: Status, observed: Option<nat>)
    requires name != PURGING && IsFolder(disk.tree, operation)
    modifies disk
    ensures IsFolder(disk.tree, operation)
    ensures disk.tree == Put(old(disk.tree), operation, At(disk.tree, operation).value)
    ensures status.Failed? <==> !Waiting(At(old(disk.tree), operation).value, name, evidence)
    ensures status.Failed? ==> disk.tree == old(disk.tree) && disk.fuel == old(disk.fuel)
    ensures status.Crashed? ==> disk.fuel == 0
    ensures !status.Failed? ==>
      Interruptible(At(old(disk.tree), operation).value, At(disk.tree, operation).value, name, evidence, old(disk.fuel) - disk.fuel)
    ensures status.Done? ==> Claimed(At(disk.tree, operation).value, name, evidence) && observed == Some(evidence.bytes)
    ensures status.Done? ==> StagedEntries(At(disk.tree, operation).value)[name] == At(old(disk.tree), operation).value.entries[name]
  {
    ghost var start := disk.tree;
    var op := At(disk.tree, operation).value;
    WriteBack(start, operation);
    observed := None;
    if name !in op.entries { return Failed, None; }
    var bundle := op.entries[name];
    if PURGING in op.entries && (!op.entries[PURGING].Folder? || name in op.entries[PURGING].entries) { return Failed, None; }
    if !bundle.HasIdentity(evidence.dev, evidence.ino) { return Failed, None; }
    observed := ValidateCompleteTree(bundle, evidence.dev, Some(evidence.bytes));
    if observed.None? { return Failed, None; }
    if PURGING in op.entries && op.dev != op.entries[PURGING].dev { return Failed, None; }
    PreparedStillWaits(op, name, evidence, ino);
    if PURGING !in op.entries {
      status := disk.MakeFolder(operation, PURGING, ino);
      if !status.Done? { return; }
    }
    ghost var prepared := Prepared(op, ino);
    ReadWritten(start, operation, prepared);
    ClaimedByRename(start, operation, prepared, name);
    ClaimKeepsTheRest(prepared, name, evidence);
    ghost var claimed := Staged(prepared.Without(name), name, bundle);
    ReadWritten(start, operation, claimed);
    OthersUnchangedTwice(op, prepared, claimed, name);
    status := disk.Rename(operation, name, operation + [PURGING], name);
  }

  /** What remains of the operation directory when the purge is over. */
  ghost predicate PurgedFrom(before: Node, after: Node, name: string) {
    && OthersUnchanged(before, after, name) && after.Folder? && !after.Has(name)
    && after.Has(PURGING) && after.entries[PURGING].Folder? && !after.entries[PURGING].Has(name)
  }

  lemma ShrunkStaysClaimed(op: Node, name: string, evidence: Evidence, left: Node, spent: int)
    requires name != PURGING && Claimed(op, name, evidence)
    requires left.HasIdentity(evidence.dev, evidence.ino) && Remaining(left, evidence.dev)
    requires BundleWork(left) + spent == BundleWork(op.entries[PURGING].entries[name])
    ensures var after := Staged(op, name, left);
      Claimed(after, name, evidence) && OthersUnchanged(op, after, name) && Work(after, name) + spent == Work(op, name)
  {
  }

  lemma EmptyIsPurged(op: Node, name: string, evidence: Evidence, left: Node)
    requires name != PURGING && Claimed(op, name, evidence)
    ensures PurgedFrom(op, Staged(op, name, left).With(PURGING, op.entries[PURGING].Without(name)), name)
  {
  }

  /** Removes what is left of a claimed bundle, and the bundle directory last. */
  method Finish(disk: Disk, operation: Path, name: string, evidence: Evidence) returns (status: Status)
    requires name != PURGING && IsFolder(disk.tree, operation)
    requires Claimed(At(disk.tree, operation).value, name, evidence)
    modifies disk
    ensures IsFolder(disk.tree, operation)
    ensures disk.tree == Put(old(disk.tree), operation, At(disk.tree, operation).value)
    ensures !status.Failed?
    ensures status.Crashed? ==> disk.fuel == 0
    ensures status.Crashed? ==>
      Interruptible(At(old(disk.tree), operation).value, At(disk.tree, operation).value, name, evidence, old(disk.fuel) - disk.fuel)
    ensures status.Done? ==> PurgedFrom(At(old(disk.tree), operation).value, At(disk.tree, operation).value, name)
    ensures status.Done? ==> old(disk.fuel) - disk.fuel == Work(At(old(disk.tree), operation).value, name)
  {
    ghost var start, op := disk.tree, At(disk.tree, operation).value;
    WriteBack(start, operation);
    var root := operation + [PURGING] + [name];
    ghost var bundle := op.entries[PURGING].entries[name];
    StagedRewritten(start, operation, op, name, bundle);
    status := PurgeRemainingTree(disk, root, evidence.dev);
    ghost var left := At(disk.tree, root).value;
    ghost var after := Staged(op, name, left);
    StagedRewritten(start, operation, op, name, left);
    ReadWritten(start, operation, after);
    ShrunkStaysClaimed(op, name, evidence, left, old(disk.fuel) - disk.fuel);
    if !status.Done? { return; }
    StagedRemoved(start, operation, after, name);
    EmptyIsPurged(op, name, evidence, left);
    ReadWritten(start, operation, after.With(PURGING, after.entries[PURGING].Without(name)));
    assert after.entries[PURGING].Without(name) == op.entries[PURGING].Without(name);
    status := disk.RemoveFolder(operation + [PURGING], name);
  }

  lemma ProgressTwice(a: Node, b: Node, c: Node, name: string, evidence: Evidence, first: int, second: int)
    requires Interruptible(a, b, name, evidence, first) && Interruptible(b, c, name, evidence, second)
    ensures Interruptible(a, c, name, evidence, first + second)
  {
    OthersUnchangedTwice(a, b, c, name);
  }

  /** Purges one bundle, or resumes its purge.

      The call is refused exactly when neither the waiting bundle nor a claimed remainder of it
      matches the evidence, and then changes nothing. Otherwise it either removes the bundle, using
      exactly the work that was left, or dies in a state from which the same call is accepted again,
      with exactly that much less work. */
  method Purge(disk: Disk, operation: Path, name: string, evidence: Evidence, ino: nat) returns (outcome: Outcome)
    requires name != PURGING
    modifies disk
    ensures outcome.Refused? <==> !PendingAt(old(disk.tree), operation, name, evidence)
    ensures outcome.Refused? ==> disk.tree == old(disk.tree) && disk.fuel == old(disk.fuel)
    ensures !outcome.Refused? ==>
      At(disk.tree, operation).Some? && disk.tree == Put(old(disk.tree), operation, At(disk.tree, operation).value)
    ensures outcome.Interrupted? ==> disk.fuel == 0
    ensures outcome.Interrupted? ==>
      Interruptible(At(old(disk.tree), operation).value, At(disk.tree, operation).value, name, evidence, old(disk.fuel))
    ensures outcome.Purged? ==> var before, after := At(old(disk.tree), operation).value, At(disk.tree, operation).value;
      && PurgedFrom(before, after, name) && old(disk.fuel) - disk.fuel == Work(before, name)
      && outcome.resumed == !before.Has(name) && outcome.observed == (if outcome.resumed then None else Some(evidence.bytes))
  {
    if !IsFolder(disk.tree, operation) { return Refused; }
    ghost var start := disk.tree;
    var op := At(disk.tree, operation).value;
    if PURGING in op.entries && !op.entries[PURGING].Folder? { return Refused; }
    var resumed, status, observed := name !in op.entries, Status.Done, None;
    if !resumed {
      status, observed := Claim(disk, operation, name, evidence, ino);
      if status.Failed? { return Refused; }
      if status.Crashed? { return Interrupted; }
    } else {
      if PURGING !in op.entries || name !in op.entries[PURGING].entries { return Refused; }
      var bundle := op.entries[PURGING].entries[name];
      if !bundle.HasIdentity(evidence.dev, evidence.ino) { return Refused; }
      var valid := ValidateRemainingTree(bundle, evidence.dev);
      if !valid { return Refused; }
      WriteBack(start, operation);
    }
    ghost var claimed, spent := At(disk.tree, operation).value, old(disk.fuel) - disk.fuel;
    status := Finish(disk, operation, name, evidence);
    ghost var after := At(disk.tree, operation).value;
    WriteTwice(start, operation, claimed, after);
    OthersUnchangedTwice(op, claimed, after, name);
    if status.Crashed? {
      ProgressTwice(op, claimed, after, name, evidence, spent, old(disk.fuel) - disk.fuel - spent);
      return Interrupted;
    }
    return Purged(resumed, observed);
  }

  /** The purge of a bundle named by its reclaim identity: an unsafe or different identity is refused. */
  method PurgeObject(disk: Disk, quarantined: Path, digest: string -> string, operation: string, restorePoint: string,
                     destination: Option<string>, source: Option<string>, evidence: Evidence, ino: nat)
    returns (outcome: Outcome)
    requires forall text :: IsHex32(digest(text))
    modifies disk
    ensures outcome.Refused? <==>
      var name := ReclaimName(digest, restorePoint, destination, source);
      name.None? || Reclaim(operation, name.value) != Some(quarantined) || !PendingAt(old(disk.tree), quarantined[..2], name.value, evidence)
    ensures outcome.Refused? ==> disk.tree == old(disk.tree) && disk.fuel == old(disk.fuel)
    ensures !outcome.Refused? ==>
      At(disk.tree, quarantined[..2]).Some? && disk.tree == Put(old(disk.tree), quarantined[..2], At(disk.tree, quarantined[..2]).value)
    ensures outcome.Purged? ==> PurgedFrom(At(old(disk.tree), quarantined[..2]).value, At(disk.tree, quarantined[..2]).value, quarantined[2])
  {
    var name := ReclaimName(digest, restorePoint, destination, source);
    if name.None? || Reclaim(operation, name.value) != Some(quarantined) { return Refused; }
    ReclaimNamesAreOrdinary(digest, restorePoint, destination, source);
    outcome := Purge(disk, quarantined[..2], name.value, evidence, ino);
  }

  /** Purges again after every crash; run `i` dies after `budgets[i]` changing calls. The bundle is gone
      exactly when the runs together could do all the work, however the crashes split it. */
  method PurgeAcrossCrashes(disk: Disk, operation: Path, name: string, evidence: Evidence, ino: nat, budgets: seq<nat>)
    returns (gone: bool)
    requires name != PURGING && PendingAt(disk.tree, operation, name, evidence)
    modifies disk
    ensures At(disk.tree, operation).Some?
    ensures disk.tree == Put(old(disk.tree), operation, At(disk.tree, operation).value)
    ensures gone <==> Sum(budgets) >= Work(At(old(disk.tree), operation).value, name)
    ensures gone ==> PurgedFrom(At(old(disk.tree), operation).value, At(disk.tree, operation).value, name)
    ensures !gone ==>
      Interruptible(At(old(disk.tree), operation).value, At(disk.tree, operation).value, name, evidence, Sum(budgets))
    decreases |budgets|
  {
    ghost var start, before := disk.tree, At(disk.tree, operation).value;
    WriteBack(start, operation);
    if budgets == [] { return false; }
    disk.fuel := budgets[0];
    var outcome := Purge(disk, operation, name, evidence, ino);
    if outcome.Purged? { return true; }
    ghost var middle := At(disk.tree, operation).value;
    gone := PurgeAcrossCrashes(disk, operation, name, evidence, ino, budgets[1..]);
    ghost var after := At(disk.tree, operation).value;
    WriteTwice(start, operation, middle, after);
    if gone {
      OthersUnchangedTwice(before, middle, after, name);
    } else {
      ProgressTwice(before, middle, after, name, evidence, budgets[0], Sum(budgets[1..]));
    }
  }
}
