/** The directory tree of one backup root and the system calls that change it.

    A process that works on the tree may die between any two calls: `fuel` is the number of changing
    calls it still completes, and the call after the last one returns `Crashed`, changing nothing. */
module FileSystem {
  import opened Wrappers
  import opened BundlePaths

  datatype Node =
    | File(dev: nat, ino: nat, nlink: nat, size: nat, blocks: Option<nat>)
    | Link(dev: nat, ino: nat)
    | Folder(dev: nat, ino: nat, entries: map<string, Node>)
  {
    predicate Has(name: string) {
      Folder? && name in entries
    }

    predicate HasIdentity(dev: nat, ino: nat) {
      Folder? && this.dev == dev && this.ino == ino
    }

    function With(name: string, node: Node): Node
      requires Folder?
    {
      this.(entries := entries[name := node])
    }

    function Without(name: string): Node
      requires Folder?
    {
      this.(entries := entries - {name})
    }
  }

  /** The node at a path, found without following links. */
  function At(tree: Node, p: Path): Option<Node> {
    if p == [] then Some(tree)
    else if tree.Has(p[0]) then At(tree.entries[p[0]], p[1..])
    else None
  }

  predicate IsFolder(tree: Node, p: Path) {
    At(tree, p).Some? && At(tree, p).value.Folder?
  }

  /** The tree with another node at an existing path. */
  function Put(tree: Node, p: Path, node: Node): Node {
    if p == [] then node
    else if tree.Has(p[0]) then tree.With(p[0], Put(tree.entries[p[0]], p[1..], node))
    else tree
  }

  function Attached(tree: Node, d: Path, name: string, node: Node): Node {
    if IsFolder(tree, d) then Put(tree, d, At(tree, d).value.With(name, node)) else tree
  }

  function Detached(tree: Node, d: Path, name: string): Node {
    if IsFolder(tree, d) then Put(tree, d, At(tree, d).value.Without(name)) else tree
  }

  // ---- Reading and writing at paths ----

  lemma {:induction false} ReadJoined(tree: Node, p: Path, rest: Path)
    ensures At(tree, p + rest) == if At(tree, p).Some? then At(At(tree, p).value, rest) else None
  {
    if p == [] {
      assert p + rest == rest;
    } else {
      assert (p + rest)[1..] == p[1..] + rest;
      if tree.Has(p[0]) { ReadJoined(tree.entries[p[0]], p[1..], rest); }
    }
  }

  lemma {:induction false} ReadWritten(tree: Node, p: Path, node: Node)
    requires At(tree, p).Some?
    ensures At(Put(tree, p, node), p) == Some(node)
  {
    if p != [] { ReadWritten(tree.entries[p[0]], p[1..], node); }
  }

  lemma {:induction false} WriteTwice(tree: Node, p: Path, first: Node, second: Node)
    requires At(tree, p).Some?
    ensures Put(Put(tree, p, first), p, second) == Put(tree, p, second)
  {
    if p != [] { WriteTwice(tree.entries[p[0]], p[1..], first, second); }
  }

  lemma {:induction false} WriteBack(tree: Node, p: Path)
    requires At(tree, p).Some?
    ensures Put(tree, p, At(tree, p).value) == tree
  {
    if p != [] {
      WriteBack(tree.entries[p[0]], p[1..]);
      assert tree.entries[p[0] := tree.entries[p[0]]] == tree.entries;
    }
  }

  /** Writing below a node is writing that node. */
  lemma {:induction false} WriteJoined(tree: Node, p: Path, rest: Path, node: Node)
    requires At(tree, p).Some?
    ensures Put(tree, p + rest, node) == Put(tree, p, Put(At(tree, p).value, rest, node))
  {
    if p == [] {
      assert p + rest == rest;
    } else {
      assert (p + rest)[1..] == p[1..] + rest;
      WriteJoined(tree.entries[p[0]], p[1..], rest, node);
    }
  }

  /** A write is invisible at every path that neither lies below it nor leads to it. */
  lemma {:induction false} WriteElsewhere(tree: Node, p: Path, node: Node, other: Path)
    requires !(p <= other) && !(other <= p)
    ensures At(Put(tree, p, node), other) == At(tree, other)
  {
    if tree.Has(p[0]) && other[0] == p[0] {
      assert p == [p[0]] + p[1..] && other == [p[0]] + other[1..];
      WriteElsewhere(tree.entries[p[0]], p[1..], node, other[1..]);
    }
  }

  /** Reading one level below. */
  lemma ReadChild(tree: Node, d: Path, name: string)
    requires IsFolder(tree, d)
    ensures At(tree, d + [name]) == (if name in At(tree, d).value.entries then Some(At(tree, d).value.entries[name]) else None)
  {
    ReadJoined(tree, d, [name]);
    assert At(At(tree, d).value, [name]) == if At(tree, d).value.Has(name) then At(At(tree, d).value.entries[name], []) else None;
  }

  /** Writing one level below. */
  lemma WriteChild(tree: Node, d: Path, name: string, node: Node)
    requires IsFolder(tree, d) && name in At(tree, d).value.entries
    ensures Put(tree, d + [name], node) == Put(tree, d, At(tree, d).value.With(name, node))
  {
    WriteJoined(tree, d, [name], node);
    assert Put(At(tree, d).value.entries[name], [], node) == node;
    assert [name][1..] == [];
  }

  /** Changing one entry of a directory is invisible at every path that is not at or below that entry
      and does not lead to the directory. */
  lemma EntryElsewhere(tree: Node, d: Path, name: string, node: Node, other: Path)
    requires IsFolder(tree, d) && !(d + [name] <= other) && !(other <= d)
    ensures At(Attached(tree, d, name, node), other) == At(tree, other)
    ensures At(Detached(tree, d, name), other) == At(tree, other)
  {
    var folder := At(tree, d).value;
    if d <= other {
      var rest := other[|d|..];
      assert other == d + rest;
      assert d + [rest[0]] <= other;
      forall after: Node | after == folder.With(name, node) || after == folder.Without(name)
        ensures At(Put(tree, d, after), other) == At(tree, other)
      {
        ReadJoined(tree, d, rest);
        ReadWritten(tree, d, after);
        ReadJoined(Put(tree, d, after), d, rest);
      }
    } else {
      WriteElsewhere(tree, d, folder.With(name, node), other);
      WriteElsewhere(tree, d, folder.Without(name), other);
    }
  }

  function ParentOf(p: Path): Path
    requires p != []
  {
    p[..|p| - 1]
  }

  function NameOf(p: Path): string
    requires p != []
  {
    p[|p| - 1]
  }

  lemma ParentHolds(tree: Node, p: Path)
    requires p != []
    ensures At(tree, p).Some? ==> IsFolder(tree, ParentOf(p)) && At(tree, ParentOf(p)).value.Has(NameOf(p))
    ensures At(tree, p).Some? ==> At(tree, p).value == At(tree, ParentOf(p)).value.entries[NameOf(p)]
    ensures IsFolder(tree, ParentOf(p)) && At(tree, p).None? ==> !At(tree, ParentOf(p)).value.Has(NameOf(p))
  {
    assert p == ParentOf(p) + [NameOf(p)];
    ReadJoined(tree, ParentOf(p), [NameOf(p)]);
    if At(tree, ParentOf(p)).Some? { RootChild(At(tree, ParentOf(p)).value, NameOf(p)); }
  }

  /** A tree that differs from another only at or below one directory. */
  lemma ChildOfWritten(before: Node, d: Path, dir: Node, name: string)
    requires At(before, d).Some? && dir.Has(name)
    ensures At(Put(before, d, dir), d) == Some(dir)
    ensures At(Put(before, d, dir), d + [name]) == Some(dir.entries[name])
    ensures forall node :: Put(Put(before, d, dir), d + [name], node) == Put(before, d, dir.With(name, node))
  {
    var tree := Put(before, d, dir);
    ReadWritten(before, d, dir);
    ReadChild(tree, d, name);
    forall node
      ensures Put(tree, d + [name], node) == Put(before, d, dir.With(name, node))
    {
      WriteChild(tree, d, name, node);
      WriteTwice(before, d, dir, dir.With(name, node));
    }
  }

  // ---- System calls ----

  datatype Status = Done | Failed | Crashed

  predicate CanCreate(tree: Node, d: Path, name: string) {
    IsFolder(tree, d) && name !in At(tree, d).value.entries
  }

  /** A rename within one filesystem, to a free name that is not inside the renamed object. */
  predicate CanRename(tree: Node, source: Path, name: string, target: Path, newName: string) {
    && IsFolder(tree, source) && name in At(tree, source).value.entries
    && CanCreate(tree, target, newName) && !(source + [name] <= target)
    && At(tree, source).value.dev == At(tree, target).value.dev
  }

  predicate CanUnlink(tree: Node, d: Path, name: string) {
    IsFolder(tree, d) && name in At(tree, d).value.entries && !At(tree, d).value.entries[name].Folder?
  }

  predicate CanRemoveFolder(tree: Node, d: Path, name: string) {
    && IsFolder(tree, d) && name in At(tree, d).value.entries
    && At(tree, d).value.entries[name].Folder? && At(tree, d).value.entries[name].entries == map[]
  }

  function Renamed(tree: Node, source: Path, name: string, target: Path, newName: string): Node
    requires IsFolder(tree, source) && name in At(tree, source).value.entries
  {
    Attached(Detached(tree, source, name), target, newName, At(tree, source).value.entries[name])
  }

  lemma DetachedNode(tree: Node, p: Path)
    requires p != [] && IsFolder(tree, ParentOf(p))
    ensures var after := Detached(tree, ParentOf(p), NameOf(p));
      && IsFolder(after, ParentOf(p)) && At(after, p).None?
      && forall other :: !(other <= ParentOf(p)) && !(p <= other) ==> At(after, other) == At(tree, other)
  {
    var d := ParentOf(p);
    assert p == d + [NameOf(p)];
    ReadWritten(tree, d, At(tree, d).value.Without(NameOf(p)));
    ReadChild(Detached(tree, d, NameOf(p)), d, NameOf(p));
    forall other: Path | !(other <= d) && !(p <= other)
      ensures At(Detached(tree, d, NameOf(p)), other) == At(tree, other)
    {
      EntryElsewhere(tree, d, NameOf(p), tree, other);
    }
  }

  lemma AttachedNode(tree: Node, p: Path, node: Node)
    requires p != [] && IsFolder(tree, ParentOf(p))
    ensures var after := Attached(tree, ParentOf(p), NameOf(p), node);
      && At(after, ParentOf(p)) == Some(At(tree, ParentOf(p)).value.With(NameOf(p), node)) && At(after, p) == Some(node)
      && forall other :: !(other <= ParentOf(p)) && !(p <= other) ==> At(after, other) == At(tree, other)
  {
    var d := ParentOf(p);
    assert p == d + [NameOf(p)];
    ReadWritten(tree, d, At(tree, d).value.With(NameOf(p), node));
    ReadChild(Attached(tree, d, NameOf(p), node), d, NameOf(p));
    forall other: Path | !(other <= d) && !(p <= other)
      ensures At(Attached(tree, d, NameOf(p), node), other) == At(tree, other)
    {
      EntryElsewhere(tree, d, NameOf(p), node, other);
    }
  }

  /** A rename between two branches of the root carries the node along and changes nothing else. */
  lemma RenameCarries(tree: Node, source: Path, target: Path)
    requires |source| >= 2 && |target| >= 2 && source[0] != target[0]
    requires CanRename(tree, ParentOf(source), NameOf(source), ParentOf(target), NameOf(target))
    ensures var after := Renamed(tree, ParentOf(source), NameOf(source), ParentOf(target), NameOf(target));
      && At(after, target) == At(tree, source) && At(tree, source).Some? && At(after, source).None?
      && At(after, ParentOf(target)) == Some(At(tree, ParentOf(target)).value.With(NameOf(target), At(tree, source).value))
      && IsFolder(after, ParentOf(source))
      && forall other :: !(other <= ParentOf(source)) && !(other <= ParentOf(target)) && !(source <= other) && !(target <= other) ==>
        At(after, other) == At(tree, other)
  {
    assert source == ParentOf(source) + [NameOf(source)];
    ReadChild(tree, ParentOf(source), NameOf(source));
    Unrelated(source, target);
    DetachedNode(tree, source);
    var after := Renamed(tree, ParentOf(source), NameOf(source), ParentOf(target), NameOf(target));
    AttachedNode(Detached(tree, ParentOf(source), NameOf(source)), target, At(tree, source).value);
    forall other: Path | !(other <= ParentOf(source)) && !(other <= ParentOf(target)) && !(source <= other) && !(target <= other)
      ensures At(after, other) == At(tree, other)
    {
      assert At(Detached(tree, ParentOf(source), NameOf(source)), other) == At(tree, other);
    }
  }

  lemma Unrelated(p: Path, q: Path)
    requires |p| >= 2 && |q| >= 2 && p[0] != q[0]
    ensures !(p <= q) && !(q <= p) && !(ParentOf(p) <= ParentOf(q)) && !(ParentOf(q) <= ParentOf(p))
    ensures !(p <= ParentOf(q)) && !(q <= ParentOf(p)) && !(ParentOf(p) <= q) && !(ParentOf(q) <= p)
  {
    assert ParentOf(p)[0] == p[0] && ParentOf(q)[0] == q[0];
  }

  class Disk {
    var tree: Node
    var fuel: nat

    constructor (tree: Node, fuel: nat)
      ensures this.tree == tree && this.fuel == fuel
    {
      this.tree, this.fuel := tree, fuel;
    }

    /** One committed transaction of the daemon's database, which a crash can precede as well. */
    method Commit() returns (status: Status)
      modifies this
      ensures status.Crashed? <==> old(fuel) == 0
      ensures !status.Failed? && tree == old(tree) && fuel == old(fuel) - (if status.Done? then 1 else 0)
    {
      if fuel == 0 { return Crashed; }
      fuel := fuel - 1;
      return Done;
    }

    /** Creates a file exclusively, with its whole content. */
    method CreateFile(d: Path, name: string, file: Node) returns (status: Status)
      modifies this
      ensures status.Crashed? <==> old(fuel) == 0
      ensures status.Failed? <==> old(fuel) > 0 && !CanCreate(old(tree), d, name)
      ensures status.Done? ==> fuel == old(fuel) - 1 && tree == Attached(old(tree), d, name, file)
      ensures !status.Done? ==> tree == old(tree) && fuel == old(fuel)
    {
      if fuel == 0 { return Crashed; }
      if !CanCreate(tree, d, name) { return Failed; }
      tree, fuel := Attached(tree, d, name, file), fuel - 1;
      return Done;
    }

    method MakeFolder(d: Path, name: string, ino: nat) returns (status: Status)
      modifies this
      ensures status.Crashed? <==> old(fuel) == 0
      ensures status.Failed? <==> old(fuel) > 0 && !CanCreate(old(tree), d, name)
      ensures status.Done? ==> fuel == old(fuel) - 1
      ensures status.Done? ==> tree == Attached(old(tree), d, name, Folder(At(old(tree), d).value.dev, ino, map[]))
      ensures !status.Done? ==> tree == old(tree) && fuel == old(fuel)
    {
      if fuel == 0 { return Crashed; }
      if !CanCreate(tree, d, name) { return Failed; }
      tree, fuel := Attached(tree, d, name, Folder(At(tree, d).value.dev, ino, map[])), fuel - 1;
      return Done;
    }

    method Rename(source: Path, name: string, target: Path, newName: string) returns (status: Status)
      modifies this
      ensures status.Crashed? <==> old(fuel) == 0
      ensures status.Failed? <==> old(fuel) > 0 && !CanRename(old(tree), source, name, target, newName)
      ensures status.Done? ==> fuel == old(fuel) - 1 && tree == Renamed(old(tree), source, name, target, newName)
      ensures !status.Done? ==> tree == old(tree) && fuel == old(fuel)
    {
      if fuel == 0 { return Crashed; }
      if !CanRename(tree, source, name, target, newName) { return Failed; }
      tree, fuel := Renamed(tree, source, name, target, newName), fuel - 1;
      return Done;
    }

    /** A rename within one directory that takes the place of another file of the new name. */
    method Replace(d: Path, name: string, newName: string) returns (status: Status)
      requires IsFolder(tree, d) && At(tree, d).value.Has(name) && name != newName
      modifies this
      ensures status.Crashed? <==> old(fuel) == 0
      ensures status.Failed? <==> old(fuel) > 0 && At(old(tree), d).value.Has(newName) && At(old(tree), d).value.entries[newName].Folder?
      ensures status.Done? ==> fuel == old(fuel) - 1
      ensures var folder := At(old(tree), d).value;
        status.Done? ==> tree == Put(old(tree), d, folder.Without(name).With(newName, folder.entries[name]))
      ensures !status.Done? ==> tree == old(tree) && fuel == old(fuel)
    {
      if fuel == 0 { return Crashed; }
      var folder := At(tree, d).value;
      if newName in folder.entries && folder.entries[newName].Folder? { return Failed; }
      tree, fuel := Put(tree, d, folder.Without(name).With(newName, folder.entries[name])), fuel - 1;
      return Done;
    }

    method Unlink(d: Path, name: string) returns (status: Status)
      modifies this
      ensures status.Crashed? <==> old(fuel) == 0
      ensures status.Failed? <==> old(fuel) > 0 && !CanUnlink(old(tree), d, name)
      ensures status.Done? ==> fuel == old(fuel) - 1 && tree == Detached(old(tree), d, name)
      ensures !status.Done? ==> tree == old(tree) && fuel == old(fuel)
    {
      if fuel == 0 { return Crashed; }
      if !CanUnlink(tree, d, name) { return Failed; }
      tree, fuel := Detached(tree, d, name), fuel - 1;
      return Done;
    }

    method RemoveFolder(d: Path, name: string) returns (status: Status)
      modifies this
      ensures status.Crashed? <==> old(fuel) == 0
      ensures status.Failed? <==> old(fuel) > 0 && !CanRemoveFolder(old(tree), d, name)
      ensures status.Done? ==> fuel == old(fuel) - 1 && tree == Detached(old(tree), d, name)
      ensures !status.Done? ==> tree == old(tree) && fuel == old(fuel)
    {
      if fuel == 0 { return Crashed; }
      if !CanRemoveFolder(tree, d, name) { return Failed; }
      tree, fuel := Detached(tree, d, name), fuel - 1;
      return Done;
    }
  }

  // ---- Opening a directory, or creating it first ----

  predicate MayHold(tree: Node, d: Path, name: string) {
    IsFolder(tree, d) && (name in At(tree, d).value.entries ==> At(tree, d).value.entries[name].Folder?)
  }

  function WithFolder(tree: Node, d: Path, name: string, ino: nat): Node {
    if IsFolder(tree, d) && name !in At(tree, d).value.entries
    then Attached(tree, d, name, Folder(At(tree, d).value.dev, ino, map[]))
    else tree
  }

  lemma RootChild(tree: Node, name: string)
    ensures At(tree, [name]) == if tree.Has(name) then Some(tree.entries[name]) else None
  {
    assert [name][1..] == [];
  }

  lemma FolderMade(tree: Node, d: Path, name: string, ino: nat)
    requires MayHold(tree, d, name)
    ensures IsFolder(WithFolder(tree, d, name, ino), d + [name])
    ensures At(WithFolder(tree, d, name, ino), d + [name]).value
         == if At(tree, d).value.Has(name) then At(tree, d).value.entries[name] else Folder(At(tree, d).value.dev, ino, map[])
  {
    if name in At(tree, d).value.entries {
      ReadChild(tree, d, name);
    } else {
      var made := At(tree, d).value.With(name, Folder(At(tree, d).value.dev, ino, map[]));
      ReadWritten(tree, d, made);
      ReadChild(Put(tree, d, made), d, name);
    }
  }

  method OpenOrCreate(disk: Disk, d: Path, name: string, ino: nat) returns (status: Status)
    modifies disk
    ensures status.Failed? <==> !MayHold(old(disk.tree), d, name)
    ensures status.Crashed? ==> disk.fuel == 0 == old(disk.fuel) && name !in At(old(disk.tree), d).value.entries
    ensures !status.Done? ==> disk.tree == old(disk.tree) && disk.fuel == old(disk.fuel)
    ensures status.Done? ==> disk.tree == WithFolder(old(disk.tree), d, name, ino)
    ensures status.Done? ==> old(disk.fuel) - disk.fuel == if At(old(disk.tree), d).value.Has(name) then 0 else 1
  {
    if !MayHold(disk.tree, d, name) { return Failed; }
    if name in At(disk.tree, d).value.entries { return Done; }
    status := disk.MakeFolder(d, name, ino);
  }
}
