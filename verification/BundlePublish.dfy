/** Publication of one finished bundle: its metadata is written beside the disks, and one rename makes
    the whole directory visible under its final path. */
module BundlePublish {
  import opened Wrappers
  import opened BundlePaths
  import opened FileSystem
  import opened BundleTrees

  datatype Outcome = Published | Refused | Interrupted

  // ---- Metadata ----

  /** Writes a file under a temporary name and then renames it. */
  method AtomicWrite(disk: Disk, d: Path, name: string, temporary: string, file: Node) returns (status: Status)
    requires IsFolder(disk.tree, d) && file.File? && name != temporary
    modifies disk
    ensures IsFolder(disk.tree, d) && disk.tree == Put(old(disk.tree), d, At(disk.tree, d).value)
    ensures status.Crashed? ==> disk.fuel == 0
    ensures var before, after := At(old(disk.tree), d).value, At(disk.tree, d).value;
      if status.Done? then !before.Has(name) && after == before.With(name, file)
      else after.entries - {temporary} == before.entries - {temporary}
    ensures var folder := At(old(disk.tree), d).value; !folder.Has(name) && !folder.Has(temporary) ==> !status.Failed?
    ensures var before, after := At(old(disk.tree), d).value, At(disk.tree, d).value;
      status.Failed? && !before.Has(name) && before.Has(temporary) && before.entries[temporary].File? ==> !after.Has(temporary)
    ensures At(disk.tree, d).value.HasIdentity(At(old(disk.tree), d).value.dev, At(old(disk.tree), d).value.ino)
  {
    ghost var start := disk.tree;
    var folder := At(disk.tree, d).value;
    WriteBack(start, d);
    if name in folder.entries { return Failed; }
    if temporary in folder.entries {
      // The exclusive creation fails, and the clean-up then removes the file that was in the way.
      status := disk.Unlink(d, temporary);
      ReadWritten(start, d, folder.Without(temporary));
      return if status.Done? then Failed else status;
    }
    status := disk.CreateFile(d, temporary, file);
    if !status.Done? { return; }
    ghost var staged := folder.With(temporary, file);
    ReadWritten(start, d, staged);
    assert staged.Without(temporary) == folder;
    WriteTwice(start, d, staged, folder.With(name, file));
    ReadWritten(start, d, folder.With(name, file));
    status := disk.Replace(d, temporary, name);
  }

  function TemporaryName(name: string, process: string): (r: string)
    ensures r != name && "." <= r
  {
    "." + name + ".tmp-" + process
  }

  predicate MetadataContents(contents: map<string, Node>) {
    contents.Keys == METADATA_FILES && forall n :: n in contents ==> contents[n].File?
  }

  /** The files of those names. */
  function Chosen(contents: map<string, Node>, names: seq<string>): map<string, Node> {
    map n | n in contents && n in names :: contents[n]
  }

  lemma OneMoreChosen(contents: map<string, Node>, names: seq<string>, i: nat)
    requires i < |names| && names[i] in contents
    ensures Chosen(contents, names[..i + 1]) == Chosen(contents, names[..i])[names[i] := contents[names[i]]]
  {
    assert names[..i + 1] == names[..i] + [names[i]];
  }

  lemma AllChosen(contents: map<string, Node>, names: seq<string>)
    requires MetadataContents(contents) && names == ["domain.xml", "manifest.json", "restore-point.json"]
    ensures Chosen(contents, names[..3]) == contents
  {
    assert names[..3] == names && names[0] in names && names[1] in names && names[2] in names;
  }

  /** Writes the metadata files into an empty directory. */
  method WriteMetadata(disk: Disk, d: Path, contents: map<string, Node>, process: string) returns (status: Status)
    requires MetadataContents(contents) && IsFolder(disk.tree, d) && At(disk.tree, d).value.entries == map[]
    modifies disk
    ensures IsFolder(disk.tree, d) && disk.tree == Put(old(disk.tree), d, At(disk.tree, d).value)
    ensures !status.Failed? && (status.Crashed? ==> disk.fuel == 0)
    ensures status.Done? ==> At(disk.tree, d).value == At(old(disk.tree), d).value.(entries := contents)
  {
    ghost var start, folder := disk.tree, At(disk.tree, d).value;
    WriteBack(start, d);
    var names := ["domain.xml", "manifest.json", "restore-point.json"];
    for i := 0 to 3
      invariant IsFolder(disk.tree, d) && disk.tree == Put(start, d, At(disk.tree, d).value)
      invariant At(disk.tree, d).value == folder.(entries := Chosen(contents, names[..i]))
    {
      ghost var before := At(disk.tree, d).value;
      OneMoreChosen(contents, names, i);
      status := AtomicWrite(disk, d, names[i], TemporaryName(names[i], process), contents[names[i]]);
      WriteTwice(start, d, before, At(disk.tree, d).value);
      if !status.Done? { return; }
    }
    AllChosen(contents, names);
    return Done;
  }

  // ---- The directories above the final path ----

  /** The device on which a chain of directories is or would be created; None where something else is
      in the way. */
  function ChainDevice(node: Node, parts: Path): Option<nat> {
    if !node.Folder? then None
    else if parts == [] || parts[0] !in node.entries then Some(node.dev)
    else ChainDevice(node.entries[parts[0]], parts[1..])
  }

  lemma FolderMadeElsewhere(tree: Node, d: Path, name: string, ino: nat, other: Path)
    requires MayHold(tree, d, name) && !(other <= d + [name])
    ensures At(WithFolder(tree, d, name, ino), other) == At(tree, other)
  {
    if name !in At(tree, d).value.entries {
      assert !(other <= d);
      var folder := Folder(At(tree, d).value.dev, ino, map[]);
      if d + [name] <= other {
        var rest := other[|d| + 1..];
        assert other == d + [name] + rest;
        ReadJoined(tree, d + [name], rest);
        ReadChild(tree, d, name);
        FolderMade(tree, d, name, ino);
        ReadJoined(WithFolder(tree, d, name, ino), d + [name], rest);
      } else {
        EntryElsewhere(tree, d, name, folder, other);
      }
    }
  }

  method OpenChain(disk: Disk, chain: Path, inos: seq<nat>) returns (status: Status)
    requires |inos| == |chain|
    modifies disk
    ensures forall other :: !(other <= chain) ==> At(disk.tree, other) == At(old(disk.tree), other)
    ensures status.Crashed? ==> disk.fuel == 0
    ensures status.Failed? <==> ChainDevice(old(disk.tree), chain).None?
    ensures status.Done? ==> IsFolder(disk.tree, chain) && Some(At(disk.tree, chain).value.dev) == ChainDevice(old(disk.tree), chain)
  {
    if !IsFolder(disk.tree, []) { return Failed; }
    for i := 0 to |chain|
      invariant IsFolder(disk.tree, chain[..i])
      invariant ChainDevice(At(disk.tree, chain[..i]).value, chain[i..]) == ChainDevice(old(disk.tree), chain)
      invariant forall other :: !(other <= chain) ==> At(disk.tree, other) == At(old(disk.tree), other)
    {
      assert chain[..i + 1] == chain[..i] + [chain[i]] && chain[..i + 1] <= chain;
      assert chain[i..][1..] == chain[i + 1..];
      ghost var before := disk.tree;
      status := OpenOrCreate(disk, chain[..i], chain[i], inos[i]);
      if !status.Done? { return; }
      FolderMade(before, chain[..i], chain[i], inos[i]);
      forall other: Path | !(other <= chain)
        ensures At(disk.tree, other) == At(before, other)
      {
        assert other <= chain[..i + 1] ==> other <= chain;
        FolderMadeElsewhere(before, chain[..i], chain[i], inos[i], other);
      }
    }
    assert chain[..|chain|] == chain;
    return Done;
  }

  // ---- Publication ----

  datatype PreparedDisk = PreparedDisk(target: string, dev: nat, ino: nat)

  /** The disk files of a bundle still are the files that were prepared for them. */
  predicate DisksMatch(bundle: Node, disks: seq<PreparedDisk>) {
    forall d :: d in disks ==>
      var file := At(bundle, ["disks", d.target + ".qcow2"]);
      file.Some? && file.value.File? && file.value.dev == d.dev && file.value.ino == d.ino
  }

  predicate CanPublish(tree: Node, incoming: Path, final: Path)
    requires incoming != [] && final != []
  {
    && IsFolder(tree, incoming) && !At(tree, incoming).value.Has("metadata")
    && At(tree, final).None? && IsFolder(tree, ParentOf(incoming))
    && ChainDevice(tree, ParentOf(final)) == Some(At(tree, ParentOf(incoming)).value.dev)
  }

  function Assembled(bundle: Node, contents: map<string, Node>, ino: nat): Node
    requires bundle.Folder?
  {
    bundle.With("metadata", Folder(bundle.dev, ino, contents))
  }

  /** A published bundle is one that the inspector accepts exactly when its disks and the written metadata
      are sound. */
  lemma AssembledIsComplete(bundle: Node, contents: map<string, Node>, ino: nat)
    requires bundle.Folder? && MetadataContents(contents)
    ensures Complete(Assembled(bundle, contents, ino)) <==>
      && bundle.entries.Keys - {"metadata"} == {"disks"} && bundle.entries["disks"].Folder?
      && bundle.entries["disks"].entries.Keys != {} && DiskNames(bundle.entries["disks"].entries.Keys)
      && SoundFiles(bundle.entries["disks"].entries) && SoundFiles(contents)
  {
    var assembled := Assembled(bundle, contents, ino);
    assert assembled.entries.Keys == bundle.entries.Keys + {"metadata"};
    assert assembled.entries.Keys == {"disks", "metadata"} <==> bundle.entries.Keys - {"metadata"} == {"disks"};
  }

  /** Adds the metadata to an incoming bundle. */
  method Assemble(disk: Disk, incoming: Path, contents: map<string, Node>, process: string, ino: nat)
    returns (status: Status)
    requires MetadataContents(contents) && IsFolder(disk.tree, incoming)
    modifies disk
    ensures IsFolder(disk.tree, incoming) && disk.tree == Put(old(disk.tree), incoming, At(disk.tree, incoming).value)
    ensures status.Crashed? ==> disk.fuel == 0
    ensures At(disk.tree, incoming).value.dev == At(old(disk.tree), incoming).value.dev
    ensures !At(old(disk.tree), incoming).value.Has("metadata") ==> !status.Failed?
    ensures status.Failed? ==> disk.tree == old(disk.tree)
    ensures status.Done? ==> !At(old(disk.tree), incoming).value.Has("metadata")
    ensures status.Done? ==> At(disk.tree, incoming).value == Assembled(At(old(disk.tree), incoming).value, contents, ino)
  {
    ghost var start, bundle := disk.tree, At(disk.tree, incoming).value;
    WriteBack(start, incoming);
    status := disk.MakeFolder(incoming, "metadata", ino);
    if !status.Done? { return; }
    ghost var current := Assembled(bundle, map[], ino);
    ChildOfWritten(start, incoming, current, "metadata");
    status := WriteMetadata(disk, incoming + ["metadata"], contents, process);
    ghost var metadata := At(disk.tree, incoming + ["metadata"]).value;
    assert current.With("metadata", metadata) == bundle.With("metadata", metadata);
    ReadWritten(start, incoming, bundle.With("metadata", metadata));
  }

  /** The final path holds what it held before, or the complete bundle, which then has left its
      incoming path. */
  ghost predicate AllOrNothing(before: Node, after: Node, incoming: Path, final: Path, contents: map<string, Node>, ino: nat) {
    || At(after, final) == At(before, final)
    || (IsFolder(before, incoming) && At(before, final).None? && At(after, incoming).None?
        && At(after, final) == Some(Assembled(At(before, incoming).value, contents, ino)))
  }

  /** Every path that is not involved in the publication is untouched. */
  ghost predicate OthersUntouched(before: Node, after: Node, incoming: Path, final: Path)
    requires incoming != [] && final != []
  {
    forall other :: !(other <= incoming) && !(incoming <= other) && !(other <= ParentOf(final)) && !(final <= other) ==>
      At(after, other) == At(before, other)
  }

  lemma AssemblyKeepsChain(start: Node, incoming: Path, node: Node, chain: Path)
    requires incoming != [] && chain != [] && incoming[0] != chain[0]
    ensures ChainDevice(Put(start, incoming, node), chain) == ChainDevice(start, chain)
    ensures start.Folder? ==> Put(start, incoming, node).Folder?
  {
  }

  lemma AssemblyKeepsDevice(start: Node, incoming: Path, node: Node)
    requires incoming != [] && At(start, incoming).Some?
    ensures IsFolder(start, ParentOf(incoming)) && IsFolder(Put(start, incoming, node), ParentOf(incoming))
    ensures At(Put(start, incoming, node), ParentOf(incoming)).value.dev == At(start, ParentOf(incoming)).value.dev
  {
    var parent := ParentOf(incoming);
    assert incoming == parent + [NameOf(incoming)];
    ParentHolds(start, incoming);
    WriteChild(start, parent, NameOf(incoming), node);
    ReadWritten(start, parent, At(start, parent).value.With(NameOf(incoming), node));
  }

  lemma AssembledIsBeside(start: Node, incoming: Path, node: Node, other: Path)
    requires At(start, incoming).Some? && !(other <= incoming) && !(incoming <= other)
    ensures At(Put(start, incoming, node), other) == At(start, other)
  {
    WriteElsewhere(start, incoming, node, other);
  }

  /** The rename that publishes, and the check of the published disks. */
  method MoveIntoPlace(disk: Disk, incoming: Path, final: Path, disks: seq<PreparedDisk>) returns (outcome: Outcome)
    requires |incoming| >= 2 && |final| >= 2 && incoming[0] != final[0]
    requires At(disk.tree, incoming).Some? && IsFolder(disk.tree, ParentOf(incoming))
    requires IsFolder(disk.tree, ParentOf(final)) && At(disk.tree, final).None?
    modifies disk
    ensures outcome.Interrupted? ==> disk.fuel == 0
    ensures At(old(disk.tree), ParentOf(incoming)).value.dev != At(old(disk.tree), ParentOf(final)).value.dev ==> outcome.Refused?
    ensures disk.tree == old(disk.tree) || At(old(disk.tree), ParentOf(incoming)).value.dev == At(old(disk.tree), ParentOf(final)).value.dev
    ensures disk.tree == old(disk.tree) ==> !outcome.Published?
    ensures disk.tree == old(disk.tree) && outcome.Refused? ==>
      At(old(disk.tree), ParentOf(incoming)).value.dev != At(old(disk.tree), ParentOf(final)).value.dev
    ensures disk.tree != old(disk.tree) ==>
      && At(disk.tree, final) == At(old(disk.tree), incoming) && At(disk.tree, incoming).None?
      && OthersUntouched(old(disk.tree), disk.tree, incoming, final)
      && outcome == if DisksMatch(At(old(disk.tree), incoming).value, disks) then Published else Refused
  {
    ghost var ready := disk.tree;
    Unrelated(incoming, final);
    ParentHolds(ready, incoming);
    ParentHolds(ready, final);
    if At(disk.tree, ParentOf(incoming)).value.dev != At(disk.tree, ParentOf(final)).value.dev { return Refused; }
    assert !(ParentOf(incoming) + [NameOf(incoming)] <= ParentOf(final));
    var status := disk.Rename(ParentOf(incoming), NameOf(incoming), ParentOf(final), NameOf(final));
    if status.Crashed? { return Interrupted; }
    RenameCarries(ready, incoming, final);
    if !DisksMatch(At(disk.tree, final).value, disks) { return Refused; }
    return Published;
  }

  /** Publishes an incoming bundle. */
  method Publish(disk: Disk, incoming: Path, final: Path, contents: map<string, Node>, disks: seq<PreparedDisk>,
                 process: string, metadataIno: nat, inos: seq<nat>)
    returns (outcome: Outcome)
    requires |incoming| >= 2 && |final| >= 2 && incoming[0] != final[0]
    requires |inos| + 1 == |final| && MetadataContents(contents)
    modifies disk
    ensures AllOrNothing(old(disk.tree), disk.tree, incoming, final, contents, metadataIno)
    ensures OthersUntouched(old(disk.tree), disk.tree, incoming, final)
    ensures outcome.Interrupted? ==> disk.fuel == 0
    ensures outcome.Published? <==>
      && CanPublish(old(disk.tree), incoming, final) && At(disk.tree, final).Some?
      && DisksMatch(At(old(disk.tree), incoming).value, disks)
    ensures outcome.Refused? ==> !CanPublish(old(disk.tree), incoming, final) || !DisksMatch(At(old(disk.tree), incoming).value, disks)
  {
    ghost var start := disk.tree;
    if !IsFolder(disk.tree, incoming) || At(disk.tree, final).Some? { return Refused; }
    ghost var bundle := At(start, incoming).value;
    Unrelated(incoming, final);
    ParentHolds(start, incoming);
    var status := Assemble(disk, incoming, contents, process, metadataIno);
    ghost var assembled := disk.tree;
    AssemblyKeepsChain(start, incoming, At(assembled, incoming).value, ParentOf(final));
    AssemblyKeepsDevice(start, incoming, At(assembled, incoming).value);
    forall other: Path | !(other <= incoming) && !(incoming <= other)
      ensures At(assembled, other) == At(start, other)
    {
      AssembledIsBeside(start, incoming, At(assembled, incoming).value, other);
    }
    if status.Failed? { return Refused; }
    if status.Crashed? { return Interrupted; }
    status := OpenChain(disk, ParentOf(final), inos);
    if status.Failed? { return Refused; }
    if status.Crashed? { return Interrupted; }
    outcome := MoveIntoPlace(disk, incoming, final, disks);
  }
}
