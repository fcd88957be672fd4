/** The shape of a bundle directory, and the two validators that read it: the inspector of published
    bundles and the purger's own. */
module BundleTrees {
  import opened Wrappers
  import opened BundlePaths
  import opened FileSystem

  const METADATA_FILES := {"domain.xml", "manifest.json", "restore-point.json"}

  /** A non-empty regular file whose allocation is known and has no other name. */
  predicate SoundFile(node: Node) {
    node.File? && node.nlink == 1 && node.size > 0 && node.blocks.Some?
  }

  predicate SoundFiles(entries: map<string, Node>) {
    forall n :: n in entries ==> SoundFile(entries[n])
  }

  predicate FilesOn(entries: map<string, Node>, dev: nat) {
    forall n :: n in entries ==> entries[n].dev == dev
  }

  predicate DiskNames(names: set<string>) {
    forall n :: n in names ==> IsDiskName(n)
  }

  predicate Complete(bundle: Node) {
    && bundle.Folder? && bundle.entries.Keys == {"disks", "metadata"}
    && bundle.entries["disks"].Folder? && bundle.entries["metadata"].Folder?
    && bundle.entries["disks"].entries.Keys != {} && DiskNames(bundle.entries["disks"].entries.Keys)
    && bundle.entries["metadata"].entries.Keys == METADATA_FILES
    && SoundFiles(bundle.entries["disks"].entries) && SoundFiles(bundle.entries["metadata"].entries)
  }

  predicate SingleDevice(bundle: Node, dev: nat)
    requires Complete(bundle)
  {
    FilesOn(bundle.entries["disks"].entries, dev) && FilesOn(bundle.entries["metadata"].entries, dev)
  }

  /** One of the two child directories, with any of its files already removed. */
  predicate RemainingChild(child: Node, metadata: bool, dev: nat) {
    && child.Folder? && SoundFiles(child.entries) && FilesOn(child.entries, dev)
    && if metadata then child.entries.Keys <= METADATA_FILES else DiskNames(child.entries.Keys)
  }

  /** What may be left of a bundle while it is being purged. */
  predicate Remaining(bundle: Node, dev: nat) {
    && bundle.Folder? && bundle.entries.Keys <= {"disks", "metadata"}
    && ("disks" in bundle.entries ==> RemainingChild(bundle.entries["disks"], false, dev))
    && ("metadata" in bundle.entries ==> RemainingChild(bundle.entries["metadata"], true, dev))
  }

  // ---- Physical allocation ----

  ghost function AllocatedBytes(entries: map<string, Node>): nat
    requires SoundFiles(entries)
    decreases |entries|
  {
    if entries == map[] then 0
    else
      var n :| n in entries;
      entries[n].blocks.value * 512 + AllocatedBytes(entries - {n})
  }

  lemma {:induction false} AllocatedWithout(entries: map<string, Node>, n: string)
    requires SoundFiles(entries) && n in entries
    ensures AllocatedBytes(entries) == entries[n].blocks.value * 512 + AllocatedBytes(entries - {n})
    decreases |entries|
  {
    var first :| first in entries && AllocatedBytes(entries) == entries[first].blocks.value * 512 + AllocatedBytes(entries - {first});
    if first != n {
      assert (entries - {first}) - {n} == (entries - {n}) - {first};
      AllocatedWithout(entries - {first}, n);
      AllocatedWithout(entries - {n}, first);
    }
  }

  ghost function PhysicalBytes(bundle: Node): nat
    requires Complete(bundle)
  {
    AllocatedBytes(bundle.entries["disks"].entries) + AllocatedBytes(bundle.entries["metadata"].entries)
  }

  // ---- The inspector of published bundles ----

  datatype Usage = Usage(physicalBytes: nat, regularFiles: nat)

  method InspectFiles(entries: map<string, Node>) returns (r: Option<Usage>)
    ensures r.Some? <==> SoundFiles(entries)
    ensures r.Some? <==>
      forall n :: n in entries ==> entries[n].File? && entries[n].nlink == 1 && entries[n].size > 0 && entries[n].blocks.Some?
    ensures r.Some? ==> r.value == Usage(AllocatedBytes(entries), |entries|)
  {
    var bytes, rest := 0, entries;
    while rest != map[]
      invariant rest.Keys <= entries.Keys && forall n :: n in rest ==> rest[n] == entries[n]
      invariant forall n :: n in entries && n !in rest ==> SoundFile(entries[n])
      invariant SoundFiles(entries) ==> bytes + AllocatedBytes(rest) == AllocatedBytes(entries)
      decreases |rest|
    {
      var n :| n in rest;
      if !SoundFile(rest[n]) { return None; }
      if SoundFiles(entries) { AllocatedWithout(rest, n); }
      bytes, rest := bytes + rest[n].blocks.value * 512, rest - {n};
    }
    return Some(Usage(bytes, |entries|));
  }

  method InspectBundle(bundle: Node) returns (r: Option<Usage>)
    ensures r.Some? <==> Complete(bundle)
    ensures r.Some? ==> r.value == Usage(PhysicalBytes(bundle), |bundle.entries["disks"].entries| + 3)
  {
    if !bundle.Folder? || bundle.entries.Keys != {"disks", "metadata"} { return None; }
    var disks, metadata := bundle.entries["disks"], bundle.entries["metadata"];
    if !disks.Folder? || disks.entries.Keys == {} || !DiskNames(disks.entries.Keys) { return None; }
    var diskUsage := InspectFiles(disks.entries);
    if diskUsage.None? || !metadata.Folder? || metadata.entries.Keys != METADATA_FILES { return None; }
    var metadataUsage := InspectFiles(metadata.entries);
    if metadataUsage.None? { return None; }
    assert |metadata.entries.Keys| == |METADATA_FILES| == 3;
    return Some(Usage(diskUsage.value.physicalBytes + metadataUsage.value.physicalBytes,
                      diskUsage.value.regularFiles + metadataUsage.value.regularFiles));
  }

  predicate Inspectable(tree: Node, path: Path) {
    ValidatedRelative(path).Some? && At(tree, path).Some? && Complete(At(tree, path).value)
  }

  /** Measures the published bundle at a path; None when the path or the tree is not acceptable. */
  method Inspect(tree: Node, path: Path) returns (r: Option<Usage>)
    ensures r.Some? <==> Inspectable(tree, path)
    ensures r.Some? ==> r.value.physicalBytes == PhysicalBytes(At(tree, path).value)
    ensures r.Some? ==> r.value.regularFiles == |At(tree, path).value.entries["disks"].entries| + 3
  {
    if ValidatedRelative(path).None? || At(tree, path).None? { return None; }
    r := InspectBundle(At(tree, path).value);
  }

  // ---- The purger's validators ----

  method ValidateFiles(entries: map<string, Node>, rootDevice: nat) returns (r: Option<nat>)
    ensures r.Some? <==> SoundFiles(entries) && FilesOn(entries, rootDevice)
    ensures r.Some? ==> r.value == AllocatedBytes(entries)
  {
    var bytes, rest := 0, entries;
    while rest != map[]
      invariant rest.Keys <= entries.Keys && forall n :: n in rest ==> rest[n] == entries[n]
      invariant forall n :: n in entries && n !in rest ==> SoundFile(entries[n]) && entries[n].dev == rootDevice
      invariant SoundFiles(entries) ==> bytes + AllocatedBytes(rest) == AllocatedBytes(entries)
      decreases |rest|
    {
      var n :| n in rest;
      if !SoundFile(rest[n]) || rest[n].dev != rootDevice { return None; }
      if SoundFiles(entries) { AllocatedWithout(rest, n); }
      bytes, rest := bytes + rest[n].blocks.value * 512, rest - {n};
    }
    return Some(bytes);
  }

  method ValidateCompleteTree(bundle: Node, rootDevice: nat, expected: Option<nat>) returns (r: Option<nat>)
    requires bundle.Folder?
    ensures r.Some? <==> Complete(bundle) && SingleDevice(bundle, rootDevice) && (expected.None? || expected.value == PhysicalBytes(bundle))
    ensures r.Some? ==> r.value == PhysicalBytes(bundle)
  {
    if bundle.entries.Keys != {"disks", "metadata"} || !bundle.entries["disks"].Folder? { return None; }
    var disks, metadata := bundle.entries["disks"], bundle.entries["metadata"];
    if disks.entries.Keys == {} || !DiskNames(disks.entries.Keys) { return None; }
    var diskBytes := ValidateFiles(disks.entries, rootDevice);
    if diskBytes.None? || !metadata.Folder? || metadata.entries.Keys != METADATA_FILES { return None; }
    var metadataBytes := ValidateFiles(metadata.entries, rootDevice);
    if metadataBytes.None? { return None; }
    var bytes := diskBytes.value + metadataBytes.value;
    if expected.Some? && bytes != expected.value { return None; }
    return Some(bytes);
  }

  method ValidateRemainingTree(bundle: Node, rootDevice: nat) returns (ok: bool)
    requires bundle.Folder?
    ensures ok == Remaining(bundle, rootDevice)
  {
    if !(bundle.entries.Keys <= {"disks", "metadata"}) { return false; }
    if "disks" in bundle.entries {
      var disks := bundle.entries["disks"];
      if !disks.Folder? || !DiskNames(disks.entries.Keys) { return false; }
      var bytes := ValidateFiles(disks.entries, rootDevice);
      if bytes.None? { return false; }
    }
    if "metadata" in bundle.entries {
      var metadata := bundle.entries["metadata"];
      if !metadata.Folder? || !(metadata.entries.Keys <= METADATA_FILES) { return false; }
      var bytes := ValidateFiles(metadata.entries, rootDevice);
      if bytes.None? { return false; }
    }
    return true;
  }

  /** Every complete single-device tree is also an acceptable remainder of itself. */
  lemma CompleteIsRemaining(bundle: Node, dev: nat)
    requires Complete(bundle) && SingleDevice(bundle, dev)
    ensures Remaining(bundle, dev)
  {
  }
}
