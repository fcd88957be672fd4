/** Disk images of a backup chain, and their materialization into one standalone image. */
module RestoreImages {
  import opened Wrappers

  type Clusters = map<nat, int>

  /** An image stores some clusters and may name another image that holds the rest. */
  datatype Image = Image(stored: Clusters, backing: Option<FileName>)

  datatype FileName = Flat(disk: string, index: nat) | Delta(disk: string, index: nat) | Disk(disk: string)

  type Folder = map<FileName, Image>

  /** What an image reads as, following at most `depth` backing links. */
  function ReadThrough(folder: Folder, name: FileName, depth: nat): Clusters
    decreases depth
  {
    if name !in folder then map[]
    else if folder[name].backing.None? || depth == 0 then folder[name].stored
    else ReadThrough(folder, folder[name].backing.value, depth - 1) + folder[name].stored
  }

  // ---- The meaning of a chain ----

  /** The newest of the layers that stores a cluster; layer 0 is the FULL. */
  ghost predicate NewestStoring(layers: seq<Clusters>, cluster: nat, i: int) {
    0 <= i < |layers| && cluster in layers[i] && forall j :: i < j < |layers| ==> cluster !in layers[j]
  }

  /** The disk in which every cluster comes from the newest layer that stores it. */
  ghost predicate IsOverlay(layers: seq<Clusters>, disk: Clusters) {
    && (forall c :: c in disk <==> exists i :: 0 <= i < |layers| && c in layers[i])
    && (forall c, i :: NewestStoring(layers, c, i) ==> c in disk && disk[c] == layers[i][c])
  }

  lemma {:induction false} SomeLayerIsNewest(layers: seq<Clusters>, cluster: nat, i: nat) returns (newest: nat)
    requires i < |layers| && cluster in layers[i]
    ensures NewestStoring(layers, cluster, newest)
    decreases |layers| - i
  {
    if j :| i < j < |layers| && cluster in layers[j] {
      newest := SomeLayerIsNewest(layers, cluster, j);
    } else {
      newest := i;
    }
  }

  /** There is only one such disk. */
  lemma OverlayIsUnique(layers: seq<Clusters>, a: Clusters, b: Clusters)
    requires IsOverlay(layers, a) && IsOverlay(layers, b)
    ensures a == b
  {
    forall c | c in a
      ensures c in b && a[c] == b[c]
    {
      var i :| 0 <= i < |layers| && c in layers[i];
      var newest := SomeLayerIsNewest(layers, c, i);
    }
  }

  lemma OverlayStep(layers: seq<Clusters>, disk: Clusters, next: Clusters)
    requires IsOverlay(layers, disk)
    ensures IsOverlay(layers + [next], disk + next)
  {
    var more := layers + [next];
    forall c
      ensures c in disk + next <==> exists i :: 0 <= i < |more| && c in more[i]
    {
      if c in next { assert c in more[|layers|]; }
      if c in disk {
        var i :| 0 <= i < |layers| && c in layers[i];
        assert c in more[i];
      }
      if i :| 0 <= i < |more| && c in more[i] {
        assert i < |layers| ==> c in layers[i];
      }
    }
    forall c, i | NewestStoring(more, c, i)
      ensures c in disk + next && (disk + next)[c] == more[i][c]
    {
      if i < |layers| {
        assert c !in more[|layers|];
        assert forall j :: i < j < |layers| ==> layers[j] == more[j];
        assert NewestStoring(layers, c, i);
      }
    }
  }

  ghost predicate Present(sources: seq<Option<Clusters>>) {
    forall i :: 0 <= i < |sources| ==> sources[i].Some?
  }

  ghost function Layers(sources: seq<Option<Clusters>>): (r: seq<Clusters>)
    requires Present(sources)
  {
    seq(|sources|, i requires 0 <= i < |sources| => sources[i].value)
  }

  /** The first `n` images laid over one another. */
  ghost function Merged(sources: seq<Option<Clusters>>, n: nat): Clusters
    requires n <= |sources|
  {
    if n == 0 then map[]
    else Merged(sources, n - 1) + if sources[n - 1].Some? then sources[n - 1].value else map[]
  }

  lemma FirstMerged(sources: seq<Option<Clusters>>)
    requires sources != [] && sources[0].Some?
    ensures Merged(sources, 1) == sources[0].value
  {
    assert Merged(sources, 0) == map[];
  }

  /** Laying the images over one another gives every cluster from the newest image that stores it. */
  lemma {:induction false} MergedIsOverlay(sources: seq<Option<Clusters>>, n: nat)
    requires Present(sources) && n <= |sources|
    ensures IsOverlay(Layers(sources)[..n], Merged(sources, n))
  {
    if n > 0 {
      MergedIsOverlay(sources, n - 1);
      OverlayStep(Layers(sources)[..n - 1], Merged(sources, n - 1), sources[n - 1].value);
      assert Layers(sources)[..n] == Layers(sources)[..n - 1] + [sources[n - 1].value];
    }
  }

  /** Layer `i` of a backing chain: the image of point `i`, on top of the image of the point before. */
  predicate IsStacked(stacked: Folder, disk: string, sources: seq<Option<Clusters>>, i: int) {
    && 0 <= i < |sources| && sources[i].Some? && Delta(disk, i) in stacked
    && stacked[Delta(disk, i)] == Image(sources[i].value, if i == 0 then None else Some(Delta(disk, i - 1)))
  }

  /** The materialized disk reads as the whole backing chain would. */
  lemma {:induction false} MergedReadsLikeTheChain(sources: seq<Option<Clusters>>, disk: string, stacked: Folder, n: nat)
    requires 0 < n <= |sources| && forall i :: 0 <= i < |sources| ==> IsStacked(stacked, disk, sources, i)
    ensures ReadThrough(stacked, Delta(disk, n - 1), n - 1) == Merged(sources, n)
  {
    assert IsStacked(stacked, disk, sources, n - 1);
    if n == 1 {
      FirstMerged(sources);
    } else {
      MergedReadsLikeTheChain(sources, disk, stacked, n - 1);
    }
  }

  /** The folder that holds exactly the finished disks. */
  ghost function Restored(disks: seq<string>, sources: map<string, seq<Option<Clusters>>>): Folder
    requires Covers(disks, sources)
  {
    map d | d in (set x | x in disks :: Disk(x)) :: Image(Merged(sources[d.disk], |sources[d.disk]|), None)
  }

  /** Every disk has an image, or finds it missing, for every point of a non-empty chain. */
  predicate Covers(disks: seq<string>, sources: map<string, seq<Option<Clusters>>>) {
    forall i :: 0 <= i < |disks| ==> disks[i] in sources && sources[disks[i]] != []
  }

  /** The tool calls that one disk takes. */
  function DiskSteps(sources: seq<Option<Clusters>>): nat
    requires sources != []
  {
    5 * |sources| - 2
  }

  /** The tool calls that the first `k` disks take. */
  ghost function Steps(disks: seq<string>, k: nat, sources: map<string, seq<Option<Clusters>>>): nat
    requires k <= |disks| && Covers(disks, sources)
  {
    if k == 0 then 0 else Steps(disks, k - 1, sources) + DiskSteps(sources[disks[k - 1]])
  }

  lemma {:induction false} StepsRise(disks: seq<string>, k: nat, sources: map<string, seq<Option<Clusters>>>)
    requires k <= |disks| && Covers(disks, sources)
    ensures Steps(disks, k, sources) <= Steps(disks, |disks|, sources)
    decreases |disks| - k
  {
    if k < |disks| { StepsRise(disks, k + 1, sources); }
  }

  ghost predicate AllPresent(disks: seq<string>, sources: map<string, seq<Option<Clusters>>>)
    requires Covers(disks, sources)
  {
    forall i :: 0 <= i < |disks| ==> Present(sources[disks[i]])
  }

  lemma RestoredStep(disks: seq<string>, k: nat, sources: map<string, seq<Option<Clusters>>>)
    requires k < |disks| && Covers(disks, sources)
    ensures Covers(disks[..k], sources) && Covers(disks[..k + 1], sources)
    ensures forall n :: n in Restored(disks[..k], sources) ==> n.Disk?
    ensures Restored(disks[..k + 1], sources)
         == Restored(disks[..k], sources)[Disk(disks[k]) := Image(Merged(sources[disks[k]], |sources[disks[k]]|), None)]
  {
    assert disks[..k + 1] == disks[..k] + [disks[k]];
  }

  // ---- The tools ----

  lemma ReadsThroughOneLink(folder: Folder, current: FileName, delta: FileName)
    requires current in folder && delta in folder
    requires folder[delta].backing == Some(current) && folder[current].backing.None?
    ensures ReadThrough(folder, delta, |folder|) == folder[current].stored + folder[delta].stored
  {
    assert delta in folder.Keys;
    assert ReadThrough(folder, current, |folder| - 1) == folder[current].stored;
  }

  lemma LayerReplaced(before: Folder, current: FileName, delta: FileName, next: FileName, a: Image, b: Image, c: Image)
    requires delta !in before && current != delta && current != next && delta != next
    ensures before[delta := a][delta := b][next := c] - {delta} - {current} == (before - {current})[next := c]
  {
  }

  lemma Renamed(before: Folder, source: FileName, target: FileName, a: Image, b: Image)
    requires source !in before && source != target
    ensures (before[source := a] - {source})[target := b] == before[target := b]
  {
    assert before[source := a] - {source} == before;
  }

  /** A folder of images and the number of steps until a tool fails or the process dies. */
  class Staging {
    var folder: Folder
    var limit: nat

    constructor (limit: nat)
      ensures folder == map[] && this.limit == limit
    {
      folder, this.limit := map[], limit;
    }

    /** Writes what a standalone image outside the folder stores into a new standalone image. */
    method Import(source: Clusters, target: FileName) returns (ok: bool)
      modifies this
      ensures ok == (old(limit) > 0) && limit == old(limit) - (if ok then 1 else 0)
      ensures folder == if ok then old(folder)[target := Image(source, None)] else old(folder)
    {
      if limit == 0 { return false; }
      folder, limit := folder[target := Image(source, None)], limit - 1;
      return true;
    }

    /** Writes what an image of the folder reads as into a new standalone image. */
    method Convert(source: FileName, target: FileName) returns (ok: bool)
      modifies this
      ensures ok == (old(limit) > 0) && limit == old(limit) - (if ok then 1 else 0)
      ensures folder == if ok
        then old(folder)[target := Image(ReadThrough(old(folder), source, |old(folder)|), None)]
        else old(folder)
    {
      if limit == 0 { return false; }
      folder, limit := folder[target := Image(ReadThrough(folder, source, |folder|), None)], limit - 1;
      return true;
    }

    method Copy(image: Image, target: FileName) returns (ok: bool)
      modifies this
      ensures ok == (old(limit) > 0) && limit == old(limit) - (if ok then 1 else 0)
      ensures folder == if ok then old(folder)[target := image] else old(folder)
    {
      if limit == 0 { return false; }
      folder, limit := folder[target := image], limit - 1;
      return true;
    }

    /** Changes the backing link of an image and nothing else. */
    method Rebase(backing: FileName, target: FileName) returns (ok: bool)
      requires target in folder
      modifies this
      ensures ok == (old(limit) > 0) && limit == old(limit) - (if ok then 1 else 0)
      ensures folder == if ok then old(folder)[target := Image(old(folder)[target].stored, Some(backing))] else old(folder)
    {
      if limit == 0 { return false; }
      folder, limit := folder[target := folder[target].(backing := Some(backing))], limit - 1;
      return true;
    }

    method Remove(target: FileName) returns (ok: bool)
      modifies this
      ensures ok == (old(limit) > 0) && limit == old(limit) - (if ok then 1 else 0)
      ensures folder == if ok then old(folder) - {target} else old(folder)
    {
      if limit == 0 { return false; }
      folder, limit := folder - {target}, limit - 1;
      return true;
    }

    method Replace(source: FileName, target: FileName) returns (ok: bool)
      requires source in folder
      modifies this
      ensures ok == (old(limit) > 0) && limit == old(limit) - (if ok then 1 else 0)
      ensures folder == if ok then (old(folder) - {source})[target := old(folder)[source]] else old(folder)
    {
      if limit == 0 { return false; }
      folder, limit := (folder - {source})[target := folder[source]], limit - 1;
      return true;
    }

    /** Adds one incremental to a flat image: copy it, put it on top, flatten, and drop the two inputs. */
    method AddLayer(disk: string, index: nat, source: Clusters) returns (ok: bool)
      requires index > 0 && Flat(disk, index - 1) in folder && folder[Flat(disk, index - 1)].backing.None?
      requires Delta(disk, index) !in folder && Flat(disk, index) !in folder
      modifies this
      ensures ok ==> folder == (old(folder) - {Flat(disk, index - 1)})
        [Flat(disk, index) := Image(old(folder)[Flat(disk, index - 1)].stored + source, None)]
      ensures ok <==> old(limit) >= 5
      ensures ok ==> limit == old(limit) - 5
    {
      var current, delta, next := Flat(disk, index - 1), Delta(disk, index), Flat(disk, index);
      ghost var before := folder;
      ok := Copy(Image(source, None), delta);
      if !ok { return; }
      ok := Rebase(current, delta);
      if !ok { return; }
      ReadsThroughOneLink(folder, current, delta);
      ok := Convert(delta, next);
      if !ok { return; }
      ok := Remove(delta);
      if !ok { return; }
      ok := Remove(current);
      LayerReplaced(before, current, delta, next, Image(source, None), Image(source, Some(current)),
                    Image(before[current].stored + source, None));
    }

    /** Materializes one disk of a chain from its image in each bundle, oldest first. Of the intermediate
        images none remains. */
    method MaterializeDisk(disk: string, sources: seq<Option<Clusters>>) returns (ok: bool)
      requires sources != [] && forall n :: n in folder ==> n.Disk? || n.disk != disk
      modifies this
      ensures ok ==> Present(sources) && folder == old(folder)[Disk(disk) := Image(Merged(sources, |sources|), None)]
      ensures ok <==> Present(sources) && old(limit) >= DiskSteps(sources)
      ensures ok ==> limit == old(limit) - DiskSteps(sources)
    {
      if sources[0].None? { return false; }
      ok := Import(sources[0].value, Flat(disk, 0));
      if !ok { return; }
      ghost var before := old(folder);
      FirstMerged(sources);
      var index := 1;
      while index < |sources|
        invariant 1 <= index <= |sources| && forall i :: 0 <= i < index ==> sources[i].Some?
        invariant limit == old(limit) - (5 * index - 4)
        invariant folder == before[Flat(disk, index - 1) := Image(Merged(sources, index), None)]
      {
        if sources[index].None? { return false; }
        ghost var merged := Image(Merged(sources, index), None);
        ok := AddLayer(disk, index, sources[index].value);
        if !ok { return; }
        Renamed(before, Flat(disk, index - 1), Flat(disk, index), merged, Image(Merged(sources, index + 1), None));
        index := index + 1;
      }
      ok := Replace(Flat(disk, |sources| - 1), Disk(disk));
      if !ok { return; }
      Renamed(before, Flat(disk, |sources| - 1), Disk(disk), Image(Merged(sources, |sources|), None), Image(Merged(sources, |sources|), None));
      ok := Check();
    }

    /** Materializes the disk after the first `k`. */
    method MaterializeNext(disks: seq<string>, k: nat, sources: map<string, seq<Option<Clusters>>>) returns (ok: bool)
      requires k < |disks| && Covers(disks, sources)
      requires Covers(disks[..k], sources) && folder == Restored(disks[..k], sources)
      modifies this
      ensures ok <==> Present(sources[disks[k]]) && old(limit) >= DiskSteps(sources[disks[k]])
      ensures ok ==> Covers(disks[..k + 1], sources) && folder == Restored(disks[..k + 1], sources)
      ensures ok ==> limit == old(limit) - DiskSteps(sources[disks[k]])
    {
      RestoredStep(disks, k, sources);
      ok := MaterializeDisk(disks[k], sources[disks[k]]);
    }

    /** Materializes every disk of a chain, one after the other. */
    method MaterializeAll(disks: seq<string>, sources: map<string, seq<Option<Clusters>>>) returns (ok: bool)
      requires folder == map[] && Covers(disks, sources)
      modifies this
      ensures ok <==> AllPresent(disks, sources) && old(limit) >= Steps(disks, |disks|, sources)
      ensures ok ==> folder == Restored(disks, sources)
    {
      var k := 0;
      while k < |disks|
        invariant 0 <= k <= |disks| && Covers(disks[..k], sources) && folder == Restored(disks[..k], sources)
        invariant forall i :: 0 <= i < k ==> Present(sources[disks[i]])
        invariant limit + Steps(disks, k, sources) == old(limit)
      {
        StepsRise(disks, k + 1, sources);
        ok := MaterializeNext(disks, k, sources);
        if !ok { return; }
        k := k + 1;
      }
      assert disks[..k] == disks;
      return true;
    }

    /** Examines a finished image. */
    method Check() returns (ok: bool)
      modifies this
      ensures ok == (old(limit) > 0) && limit == old(limit) - (if ok then 1 else 0) && folder == old(folder)
    {
      if limit == 0 { return false; }
      limit := limit - 1;
      return true;
    }
  }
}
