/** The physical bytes that deleting closed chains would free. */
module Capacity {
  import opened Wrappers
  import opened BundlePaths
  import opened BundleSpellings
  import opened FileSystem
  import opened BundleTrees

  datatype Point = Point(id: nat, chain: string, full: bool, sequence: int, parent: Option<nat>, bundle: Option<Spelling>)

  datatype Chain = Chain(id: string, closed: bool)

  /** `physicalBytes` is None for a chain whose space must not be counted as reclaimable. */
  datatype Fact = Fact(chain: string, closed: bool, physicalBytes: Option<nat>)

  // ---- Members of a chain, by sequence ----

  ghost predicate BySequence(members: seq<Point>) {
    forall i, j :: 0 <= i < j < |members| ==> members[i].sequence <= members[j].sequence
  }

  function Insert(members: seq<Point>, x: Point): (r: seq<Point>)
    requires BySequence(members)
    ensures BySequence(r) && |r| == |members| + 1
    ensures forall p :: p in r <==> p in members || p == x
  {
    if members == [] then [x]
    else if members[|members| - 1].sequence <= x.sequence then members + [x]
    else
      var init, last := members[..|members| - 1], members[|members| - 1];
      var rest := Insert(init, x);
      assert members == init + [last];
      assert forall i :: 0 <= i < |rest| ==> rest[i] in rest;
      rest + [last]
  }

  /** The points of a chain in the order of their sequence numbers. */
  function Members(points: seq<Point>, chain: string): (r: seq<Point>)
    ensures BySequence(r) && forall p :: p in r <==> p in points && p.chain == chain
  {
    if points == [] then []
    else
      var init, last := points[..|points| - 1], points[|points| - 1];
      assert points == init + [last];
      if last.chain == chain then Insert(Members(init, chain), last) else Members(init, chain)
  }

  method SortMembers(points: seq<Point>, chain: string) returns (members: seq<Point>)
    ensures members == Members(points, chain)
  {
    members := [];
    for i := 0 to |points|
      invariant members == Members(points[..i], chain)
    {
      assert points[..i + 1][..i] == points[..i];
      if points[i].chain == chain { members := Insert(members, points[i]); }
    }
    assert points[..|points|] == points;
  }

  // ---- Bundles that more than one point refers to, by the spelling of their IDs ----

  predicate ReusedAt(points: seq<Point>, bundle: Spelling, i: int, j: int) {
    0 <= i < j < |points| && points[i].bundle == Some(bundle) && points[j].bundle == Some(bundle)
  }

  ghost predicate Reused(points: seq<Point>, bundle: Spelling) {
    exists i, j :: ReusedAt(points, bundle, i, j)
  }

  ghost function ReusedBundles(points: seq<Point>): set<Spelling> {
    set b | b in Bundles(points) && Reused(points, b)
  }

  method DuplicateBundles(points: seq<Point>) returns (duplicates: set<Spelling>)
    ensures duplicates == ReusedBundles(points)
  {
    duplicates := {};
    var seen: set<Spelling> := {};
    for k := 0 to |points|
      invariant forall b :: b in seen <==> exists i :: 0 <= i < k && points[i].bundle == Some(b)
      invariant forall b :: b in duplicates <==> exists i, j :: ReusedAt(points, b, i, j) && j < k
    {
      if points[k].bundle.Some? {
        var b := points[k].bundle.value;
        if b in seen {
          ghost var i :| 0 <= i < k && points[i].bundle == Some(b);
          assert ReusedAt(points, b, i, k);
          duplicates := duplicates + {b};
        }
        seen := seen + {b};
      }
    }
    forall b | Reused(points, b)
      ensures b in Bundles(points)
    {
      var i, j :| ReusedAt(points, b, i, j);
      assert points[i] in points;
    }
  }

  lemma SharedIsReused(points: seq<Point>, p: Point, q: Point, bundle: Spelling)
    requires p in points && q in points && p != q && p.bundle == Some(bundle) && q.bundle == Some(bundle)
    ensures bundle in ReusedBundles(points)
  {
    var i :| 0 <= i < |points| && points[i] == p;
    var j :| 0 <= j < |points| && points[j] == q;
    assert if i < j then ReusedAt(points, bundle, i, j) else ReusedAt(points, bundle, j, i);
    assert bundle in Bundles(points);
  }

  // ---- One closed chain ----

  function Predecessor(members: seq<Point>, i: nat): Option<nat>
    requires i <= |members|
  {
    if i == 0 then None else Some(members[i - 1].id)
  }

  predicate FitsChain(members: seq<Point>, i: int, duplicates: set<Spelling>) {
    && 0 <= i < |members| && members[i].sequence == i && members[i].parent == Predecessor(members, i)
    && members[i].bundle.Some? && members[i].bundle.value !in duplicates
  }

  /** A FULL and its incrementals without a gap, each with a bundle of its own. */
  ghost predicate LinearChain(members: seq<Point>, duplicates: set<Spelling>) {
    members != [] && members[0].full && forall i :: 0 <= i < |members| ==> FitsChain(members, i, duplicates)
  }

  method ClosedChainProblem(members: seq<Point>, duplicates: set<Spelling>) returns (problem: bool)
    ensures problem <==> !LinearChain(members, duplicates)
  {
    if members == [] { return true; }
    if !members[0].full || members[0].sequence != 0 {
      assert LinearChain(members, duplicates) ==> FitsChain(members, 0, duplicates);
      return true;
    }
    for i := 0 to |members|
      invariant forall k :: 0 <= k < i ==> members[k].sequence == k
    {
      assert LinearChain(members, duplicates) ==> FitsChain(members, i, duplicates);
      if members[i].sequence != i { return true; }
    }
    for i := 0 to |members|
      invariant forall k :: 0 <= k < i ==> FitsChain(members, k, duplicates)
    {
      assert LinearChain(members, duplicates) ==> FitsChain(members, i, duplicates);
      if members[i].parent != Predecessor(members, i) { return true; }
      if members[i].bundle.None? || members[i].bundle.value in duplicates { return true; }
    }
    return false;
  }

  // ---- Bytes ----

  ghost function Bundles(members: seq<Point>): set<Spelling> {
    set p | p in members && p.bundle.Some? :: p.bundle.value
  }

  /** The bytes of a set of bundles, each taken once. */
  ghost function BytesOf(bundles: set<Spelling>, usage: map<Spelling, nat>): nat
    requires bundles <= usage.Keys
  {
    if bundles == {} then 0
    else
      var b :| b in bundles;
      usage[b] + BytesOf(bundles - {b}, usage)
  }

  lemma {:induction false} BytesWithout(bundles: set<Spelling>, usage: map<Spelling, nat>, b: Spelling)
    requires bundles <= usage.Keys && b in bundles
    ensures BytesOf(bundles, usage) == usage[b] + BytesOf(bundles - {b}, usage)
    decreases |bundles|
  {
    var first :| first in bundles && BytesOf(bundles, usage) == usage[first] + BytesOf(bundles - {first}, usage);
    if first != b {
      assert (bundles - {first}) - {b} == (bundles - {b}) - {first};
      BytesWithout(bundles - {first}, usage, b);
      BytesWithout(bundles - {b}, usage, first);
    }
  }

  lemma {:induction false} BytesOfBoth(a: set<Spelling>, b: set<Spelling>, usage: map<Spelling, nat>)
    requires a !! b && a <= usage.Keys && b <= usage.Keys
    ensures BytesOf(a + b, usage) == BytesOf(a, usage) + BytesOf(b, usage)
    decreases |a|
  {
    if a == {} {
      assert a + b == b;
    } else {
      var x :| x in a;
      BytesWithout(a, usage, x);
      BytesWithout(a + b, usage, x);
      assert (a + b) - {x} == (a - {x}) + b;
      BytesOfBoth(a - {x}, b, usage);
    }
  }

  // ---- The inspection of a bundle ----

  predicate LinkAt(tree: Node, path: Path) {
    At(tree, path).Some? && At(tree, path).value.Link?
  }

  /** A symbolic link on the way to a canonical path raises an error that is not an inspection error. */
  ghost predicate RaisesAt(tree: Node, path: Path) {
    ValidatedRelative(path).Some? && exists k :: 0 <= k <= |path| && LinkAt(tree, path[..k])
  }

  /** Nothing lies below a link, so a bundle behind one is not inspectable. */
  lemma NothingBehindLink(tree: Node, path: Path, k: nat)
    requires k <= |path| && LinkAt(tree, path[..k])
    ensures At(tree, path).Some? ==> At(tree, path).value.Link?
  {
    assert path == path[..k] + path[k..];
    ReadJoined(tree, path[..k], path[k..]);
  }

  /** The bytes of those bundles that can be inspected, by the spelling of their IDs. */
  ghost function UsageOf(tree: Node, bundles: set<Spelling>): map<Spelling, nat> {
    map b | b in bundles && Inspectable(tree, Normal(b)) :: PhysicalBytes(At(tree, Normal(b)).value)
  }

  /** Those whose inspection raises. */
  ghost function LinksOf(tree: Node, bundles: set<Spelling>): set<Spelling> {
    set b | b in bundles && RaisesAt(tree, Normal(b))
  }

  /** What is said of the bundle is what the tree says. */
  ghost predicate Reading(tree: Node, usage: map<Spelling, nat>, links: set<Spelling>, b: Spelling) {
    && (b in usage <==> Inspectable(tree, Normal(b)))
    && (b in usage ==> usage[b] == PhysicalBytes(At(tree, Normal(b)).value))
    && (b in links <==> RaisesAt(tree, Normal(b)))
  }

  ghost predicate ReadsTree(tree: Node, usage: map<Spelling, nat>, links: set<Spelling>, bundles: set<Spelling>) {
    forall b {:trigger Reading(tree, usage, links, b)} :: b in bundles ==> Reading(tree, usage, links, b)
  }

  lemma TreeIsRead(tree: Node, bundles: set<Spelling>)
    ensures ReadsTree(tree, UsageOf(tree, bundles), LinksOf(tree, bundles), bundles)
  {
  }

  /** Whether any component of a path is a symbolic link. */
  method CrossesLink(tree: Node, path: Path) returns (met: bool)
    ensures met <==> exists k :: 0 <= k <= |path| && LinkAt(tree, path[..k])
  {
    for k := 0 to |path| + 1
      invariant forall j :: 0 <= j < k ==> !LinkAt(tree, path[..j])
    {
      if LinkAt(tree, path[..k]) { return true; }
    }
    return false;
  }

  datatype Inspected = Allocated(bytes: nat) | Rejected | Raised

  method InspectOne(tree: Node, b: Spelling, ghost usage: map<Spelling, nat>, ghost links: set<Spelling>, ghost bundles: set<Spelling>)
    returns (r: Inspected)
    requires ReadsTree(tree, usage, links, bundles) && b in bundles
    ensures r == if b in links then Raised else if b in usage then Allocated(usage[b]) else Rejected
    ensures b in links ==> b !in usage
  {
    assert Reading(tree, usage, links, b);
    var path := Normal(b);
    var found := Inspect(tree, path);
    var linked := CrossesLink(tree, path);
    if linked && ValidatedRelative(path).Some? {
      ghost var k :| 0 <= k <= |path| && LinkAt(tree, path[..k]);
      NothingBehindLink(tree, path, k);
      return Raised;
    }
    return if found.Some? then Allocated(found.value.physicalBytes) else Rejected;
  }

  /** The inspection of the members' bundles, in order, comes to one that raises. */
  ghost predicate RaisesIn(members: seq<Point>, usage: map<Spelling, nat>, links: set<Spelling>, i: int) {
    && 0 <= i < |members| && members[i].bundle.Some? && members[i].bundle.value in links
    && forall j :: 0 <= j < i ==> members[j].bundle.Some? && members[j].bundle.value in usage
  }

  lemma OneBundleMore(members: seq<Point>, i: nat, usage: map<Spelling, nat>)
    requires i < |members| && members[i].bundle.Some? && members[i].bundle.value in usage
    requires Bundles(members[..i]) <= usage.Keys && forall j :: 0 <= j < i ==> members[j].bundle != members[i].bundle
    ensures Bundles(members[..i + 1]) <= usage.Keys
    ensures BytesOf(Bundles(members[..i + 1]), usage) == BytesOf(Bundles(members[..i]), usage) + usage[members[i].bundle.value]
  {
    var b, before := members[i].bundle.value, Bundles(members[..i]);
    assert members[..i + 1] == members[..i] + [members[i]];
    assert Bundles(members[..i + 1]) == before + {b};
    assert b !in before;
    BytesWithout(before + {b}, usage, b);
    assert before + {b} - {b} == before;
  }

  /** The inspection of the first `n` members succeeds. */
  ghost predicate ReadableUpTo(members: seq<Point>, usage: map<Spelling, nat>, links: set<Spelling>, n: int) {
    forall j :: 0 <= j < n <= |members| ==>
      members[j].bundle.Some? && members[j].bundle.value in usage && members[j].bundle.value !in links
  }

  lemma NothingRaises(members: seq<Point>, usage: map<Spelling, nat>, links: set<Spelling>, n: nat)
    requires n <= |members| && ReadableUpTo(members, usage, links, n)
    requires n < |members| ==> members[n].bundle.Some? && members[n].bundle.value !in usage && members[n].bundle.value !in links
    ensures forall i :: !RaisesIn(members, usage, links, i)
  {
  }

  datatype Measurement = Measured(bytes: nat) | Unmeasurable | LinkFound

  /** Adds up the inspected bytes of a linear chain. An inspection that fails makes the chain unmeasurable;
      a link raises an error that ends the whole collection. */
  method Measure(members: seq<Point>, tree: Node, ghost usage: map<Spelling, nat>, ghost links: set<Spelling>, ghost bundles: set<Spelling>)
    returns (r: Measurement)
    requires ReadsTree(tree, usage, links, bundles) && Bundles(members) <= bundles
    requires forall p :: p in members ==> p.bundle.Some?
    requires forall i, j :: 0 <= i < j < |members| ==> members[i].bundle != members[j].bundle
    ensures r.Measured? <==> Bundles(members) <= usage.Keys
    ensures r.Measured? ==> r.bytes == BytesOf(Bundles(members), usage)
    ensures r.LinkFound? <==> exists i :: RaisesIn(members, usage, links, i)
  {
    var total := 0;
    for i := 0 to |members|
      invariant Bundles(members[..i]) <= usage.Keys && total == BytesOf(Bundles(members[..i]), usage)
      invariant ReadableUpTo(members, usage, links, i)
    {
      var b := members[i].bundle.value;
      assert members[i] in members && b in Bundles(members);
      var found := InspectOne(tree, b, usage, links, bundles);
      if found.Raised? {
        assert RaisesIn(members, usage, links, i);
        return LinkFound;
      }
      if found.Rejected? {
        NothingRaises(members, usage, links, i);
        return Unmeasurable;
      }
      OneBundleMore(members, i, usage);
      total := total + found.bytes;
    }
    assert members[..|members|] == members;
    NothingRaises(members, usage, links, |members|);
    return Measured(total);
  }

  // ---- The collection ----

  /** The bytes that deleting a chain would surely free. */
  ghost function Reclaimable(points: seq<Point>, chain: Chain, usage: map<Spelling, nat>): Option<nat> {
    var members := Members(points, chain.id);
    if chain.closed && LinearChain(members, ReusedBundles(points)) && Bundles(members) <= usage.Keys
    then Some(BytesOf(Bundles(members), usage))
    else None
  }

  /** The inspection of this chain ends the collection. */
  ghost predicate MeetsLink(points: seq<Point>, chain: Chain, usage: map<Spelling, nat>, links: set<Spelling>) {
    var members := Members(points, chain.id);
    chain.closed && LinearChain(members, ReusedBundles(points)) && exists i :: RaisesIn(members, usage, links, i)
  }

  lemma OwnBundles(points: seq<Point>, chain: string)
    requires LinearChain(Members(points, chain), ReusedBundles(points))
    ensures var members := Members(points, chain);
      && (forall p :: p in members ==> p.bundle.Some? && p.bundle.value !in ReusedBundles(points))
      && (forall i, j :: 0 <= i < j < |members| ==> members[i].bundle != members[j].bundle)
  {
    var members, duplicates := Members(points, chain), ReusedBundles(points);
    forall p | p in members
      ensures p.bundle.Some? && p.bundle.value !in duplicates
    {
      var i :| 0 <= i < |members| && members[i] == p;
      assert FitsChain(members, i, duplicates);
    }
    forall i, j | 0 <= i < j < |members|
      ensures members[i].bundle != members[j].bundle
    {
      assert FitsChain(members, i, duplicates) && FitsChain(members, j, duplicates);
      assert members[i] in members && members[j] in members;
      if members[i].bundle == members[j].bundle { SharedIsReused(points, members[i], members[j], members[i].bundle.value); }
    }
  }

  predicate DistinctChains(chains: seq<Chain>) {
    forall i, j :: 0 <= i < j < |chains| ==> chains[i].id != chains[j].id
  }

  predicate Known(points: seq<Point>, chains: seq<Chain>) {
    forall i :: 0 <= i < |points| ==> exists k :: 0 <= k < |chains| && chains[k].id == points[i].chain
  }

  method FactOf(points: seq<Point>, chain: Chain, duplicates: set<Spelling>, tree: Node, ghost usage: map<Spelling, nat>, ghost links: set<Spelling>)
    returns (fact: Option<Fact>)
    requires duplicates == ReusedBundles(points) && ReadsTree(tree, usage, links, Bundles(points))
    ensures fact.None? <==> MeetsLink(points, chain, usage, links)
    ensures fact.Some? ==> fact.value == Fact(chain.id, chain.closed, Reclaimable(points, chain, usage))
  {
    var bytes := None;
    if chain.closed {
      var members := SortMembers(points, chain.id);
      var problem := ClosedChainProblem(members, duplicates);
      if !problem {
        OwnBundles(points, chain.id);
        var measurement := Measure(members, tree, usage, links, Bundles(points));
        if measurement.LinkFound? { return None; }
        if measurement.Measured? { bytes := Some(measurement.bytes); }
      }
    }
    return Some(Fact(chain.id, chain.closed, bytes));
  }

  method CollectFacts(chains: seq<Chain>, points: seq<Point>, tree: Node, ghost usage: map<Spelling, nat>, ghost links: set<Spelling>)
    returns (r: Option<seq<Fact>>)
    requires ReadsTree(tree, usage, links, Bundles(points))
    ensures r.Some? <==>
      DistinctChains(chains) && Known(points, chains) && forall i :: 0 <= i < |chains| ==> !MeetsLink(points, chains[i], usage, links)
    ensures r.Some? ==> |r.value| == |chains|
    ensures r.Some? ==> forall i :: 0 <= i < |chains| ==>
      r.value[i] == Fact(chains[i].id, chains[i].closed, Reclaimable(points, chains[i], usage))
  {
    if !DistinctChains(chains) || !Known(points, chains) { return None; }
    var duplicates := DuplicateBundles(points);
    var facts := [];
    for i := 0 to |chains|
      invariant |facts| == i
      invariant forall k :: 0 <= k < i ==> !MeetsLink(points, chains[k], usage, links)
      invariant forall k :: 0 <= k < i ==> facts[k] == Fact(chains[k].id, chains[k].closed, Reclaimable(points, chains[k], usage))
    {
      var fact := FactOf(points, chains[i], duplicates, tree, usage, links);
      if fact.None? { return None; }
      facts := facts + [fact.value];
    }
    return Some(facts);
  }

  /** The capacity of every chain, as the tree shows it. There is none when the chains are ambiguous, when a
      point belongs to none of them, or when the inspection of a closed linear chain comes to a bundle behind
      a symbolic link. */
  method Collect(chains: seq<Chain>, points: seq<Point>, tree: Node) returns (r: Option<seq<Fact>>)
    ensures var usage, links := UsageOf(tree, Bundles(points)), LinksOf(tree, Bundles(points));
      && (r.Some? <==>
        DistinctChains(chains) && Known(points, chains) && forall i :: 0 <= i < |chains| ==> !MeetsLink(points, chains[i], usage, links))
      && (r.Some? ==> |r.value| == |chains| && forall i :: 0 <= i < |chains| ==>
        r.value[i] == Fact(chains[i].id, chains[i].closed, Reclaimable(points, chains[i], usage)))
  {
    TreeIsRead(tree, Bundles(points));
    r := CollectFacts(chains, points, tree, UsageOf(tree, Bundles(points)), LinksOf(tree, Bundles(points)));
  }

  // ---- No byte is counted twice ----

  /** The bytes of the first `n` chains together. */
  ghost function Total(points: seq<Point>, chains: seq<Chain>, usage: map<Spelling, nat>, n: nat): nat
    requires n <= |chains|
  {
    if n == 0 then 0
    else
      var bytes := Reclaimable(points, chains[n - 1], usage);
      Total(points, chains, usage, n - 1) + if bytes.Some? then bytes.value else 0
  }

  /** The bundles behind them. */
  ghost function Counted(points: seq<Point>, chains: seq<Chain>, usage: map<Spelling, nat>, n: nat): set<Spelling>
    requires n <= |chains|
  {
    if n == 0 then {}
    else
      Counted(points, chains, usage, n - 1) +
      if Reclaimable(points, chains[n - 1], usage).Some? then Bundles(Members(points, chains[n - 1].id)) else {}
  }

  lemma {:induction false} CountedOrigin(points: seq<Point>, chains: seq<Chain>, usage: map<Spelling, nat>, n: nat, b: Spelling)
    returns (k: nat, p: Point)
    requires n <= |chains| && b in Counted(points, chains, usage, n)
    ensures k < n && p in Members(points, chains[k].id) && p.bundle == Some(b)
  {
    if b in Counted(points, chains, usage, n - 1) {
      k, p := CountedOrigin(points, chains, usage, n - 1, b);
    } else {
      k := n - 1;
      p :| p in Members(points, chains[k].id) && p.bundle == Some(b);
    }
  }

  /** The bundles of a linear chain are not among those of the chains before it. */
  lemma OwnAreNew(points: seq<Point>, chains: seq<Chain>, usage: map<Spelling, nat>, n: nat)
    requires n < |chains| && DistinctChains(chains) && LinearChain(Members(points, chains[n].id), ReusedBundles(points))
    ensures Counted(points, chains, usage, n) !! Bundles(Members(points, chains[n].id))
  {
    OwnBundles(points, chains[n].id);
    forall b | b in Bundles(Members(points, chains[n].id))
      ensures b !in Counted(points, chains, usage, n)
    {
      if b in Counted(points, chains, usage, n) {
        var q :| q in Members(points, chains[n].id) && q.bundle == Some(b);
        var k, p := CountedOrigin(points, chains, usage, n, b);
        SharedIsReused(points, p, q, b);
      }
    }
  }

  /** The bytes reported for all chains together are the bytes of a set of bundles, each counted once. */
  lemma {:induction false} BytesAreCountedOnce(points: seq<Point>, chains: seq<Chain>, usage: map<Spelling, nat>, n: nat)
    requires n <= |chains| && DistinctChains(chains)
    ensures Counted(points, chains, usage, n) <= usage.Keys
    ensures Total(points, chains, usage, n) == BytesOf(Counted(points, chains, usage, n), usage)
  {
    if n > 0 {
      BytesAreCountedOnce(points, chains, usage, n - 1);
      var chain, before := chains[n - 1], Counted(points, chains, usage, n - 1);
      if Reclaimable(points, chain, usage).Some? {
        OwnAreNew(points, chains, usage, n - 1);
        BytesOfBoth(before, Bundles(Members(points, chain.id)), usage);
      } else {
        assert Counted(points, chains, usage, n) == before;
      }
    }
  }

  // ---- Directories under several spellings ----

  /** The directories that the IDs name. */
  ghost function Directories(spellings: set<Spelling>): set<Path> {
    set s | s in spellings :: Normal(s)
  }

  /** No directory that holds any bytes is named by two of the IDs. */
  ghost predicate SpeltOnce(spellings: set<Spelling>, usage: map<Spelling, nat>)
    requires spellings <= usage.Keys
  {
    forall s, t :: s in spellings && t in spellings && Normal(s) == Normal(t) && usage[s] > 0 ==> s == t
  }

  /** Every spelling has the bytes of its directory. */
  ghost predicate SameBytes(spellings: set<Spelling>, usage: map<Spelling, nat>, directories: map<Path, nat>) {
    forall s :: s in spellings ==> s in usage && Normal(s) in directories && directories[Normal(s)] == usage[s]
  }

  lemma OneSpellingLess(spellings: set<Spelling>, usage: map<Spelling, nat>, s: Spelling)
    requires spellings <= usage.Keys && s in spellings
    requires forall t :: t in spellings && Normal(t) == Normal(s) ==> usage[t] == usage[s]
    ensures var rest := spellings - {s};
      SpeltOnce(spellings, usage) <==> SpeltOnce(rest, usage) && (Normal(s) in Directories(rest) ==> usage[s] == 0)
  {
  }

  /** The bytes of the IDs are at least those of the directories, and they are the same exactly when no
      directory with bytes has two IDs. */
  lemma {:induction false} DirectoriesCounted(spellings: set<Spelling>, usage: map<Spelling, nat>, directories: map<Path, nat>)
    requires SameBytes(spellings, usage, directories)
    ensures spellings <= usage.Keys && Directories(spellings) <= directories.Keys
    ensures BytesOf(Directories(spellings), directories) <= BytesOf(spellings, usage)
    ensures BytesOf(Directories(spellings), directories) == BytesOf(spellings, usage) <==> SpeltOnce(spellings, usage)
    decreases |spellings|
  {
    if spellings == {} {
      assert Directories(spellings) == {};
    } else {
      var s :| s in spellings;
      var rest := spellings - {s};
      DirectoriesCounted(rest, usage, directories);
      BytesWithout(spellings, usage, s);
      OneSpellingLess(spellings, usage, s);
      assert Directories(spellings) == Directories(rest) + {Normal(s)};
      if Normal(s) in Directories(rest) {
        assert Directories(spellings) == Directories(rest);
      } else {
        assert Directories(spellings) - {Normal(s)} == Directories(rest);
        BytesWithout(Directories(spellings), directories, Normal(s));
      }
    }
  }

  /** The bytes that directories of the tree allocate. */
  ghost function DirectoryBytes(tree: Node, paths: set<Path>): map<Path, nat> {
    map p | p in paths && Inspectable(tree, p) :: PhysicalBytes(At(tree, p).value)
  }

  lemma InspectedDirectory(tree: Node, bundles: set<Spelling>, b: Spelling)
    requires b in UsageOf(tree, bundles)
    ensures |Normal(b)| == 5 && At(tree, Normal(b)).Some? && Complete(At(tree, Normal(b)).value)
    ensures UsageOf(tree, bundles)[b] == PhysicalBytes(At(tree, Normal(b)).value)
  {
  }

  lemma SpellingsHaveSameBytes(tree: Node, bundles: set<Spelling>, counted: set<Spelling>)
    requires counted <= UsageOf(tree, bundles).Keys
    ensures SameBytes(counted, UsageOf(tree, bundles), DirectoryBytes(tree, Directories(counted)))
  {
  }

  /** The report never says less than the counted directories allocate, and says exactly that if and only if
      no directory with bytes is counted under two spellings of its path. */
  lemma DirectoriesAreCountedOnce(points: seq<Point>, chains: seq<Chain>, tree: Node, usage: map<Spelling, nat>)
    returns (counted: set<Spelling>, directories: map<Path, nat>)
    requires DistinctChains(chains) && usage == UsageOf(tree, Bundles(points))
    ensures counted == Counted(points, chains, usage, |chains|) && counted <= usage.Keys
    ensures directories == DirectoryBytes(tree, Directories(counted)) && directories.Keys == Directories(counted)
    ensures BytesOf(Directories(counted), directories) <= Total(points, chains, usage, |chains|)
    ensures BytesOf(Directories(counted), directories) == Total(points, chains, usage, |chains|) <==> SpeltOnce(counted, usage)
  {
    counted := Counted(points, chains, usage, |chains|);
    directories := DirectoryBytes(tree, Directories(counted));
    BytesAreCountedOnce(points, chains, usage, |chains|);
    SpellingsHaveSameBytes(tree, Bundles(points), counted);
    DirectoriesCounted(counted, usage, directories);
  }

  /** IDs as publication writes them meet the condition. */
  lemma PrintedIsSpeltOnce(spellings: set<Spelling>, usage: map<Spelling, nat>)
    requires spellings <= usage.Keys && forall s :: s in spellings ==> ValidatedRelative(s).Some?
    ensures SpeltOnce(spellings, usage)
  {
    forall s | s in spellings
      ensures Normal(s) == s
    {
      PublishedIsNormal(s);
    }
  }

  /** The counted bundles are separate directories of the tree: none lies below another, two have the same
      path only if they are two spellings of it, and each is counted with what it allocates. */
  lemma CountedBundlesAreSeparate(points: seq<Point>, chains: seq<Chain>, tree: Node, usage: map<Spelling, nat>, a: Spelling, b: Spelling)
    requires DistinctChains(chains) && usage == UsageOf(tree, Bundles(points))
    requires a in Counted(points, chains, usage, |chains|) && b in Counted(points, chains, usage, |chains|)
    ensures Normal(a) <= Normal(b) ==> Normal(a) == Normal(b)
    ensures At(tree, Normal(a)).Some? && Complete(At(tree, Normal(a)).value)
    ensures a in usage && usage[a] == PhysicalBytes(At(tree, Normal(a)).value)
  {
    BytesAreCountedOnce(points, chains, usage, |chains|);
    InspectedDirectory(tree, Bundles(points), a);
    InspectedDirectory(tree, Bundles(points), b);
  }

  // ---- Two collections that go wrong ----

  /** The only point of a chain, a FULL. */
  function Sole(id: nat, chain: string, bundle: Spelling): Point {
    Point(id, chain, true, 0, None, Some(bundle))
  }

  function TwoPoints(first: Spelling, second: Spelling): seq<Point> {
    [Sole(0, "a", first), Sole(1, "b", second)]
  }

  const TWO_CHAINS := [Chain("a", true), Chain("b", true)]

  lemma TwoLinearChains(first: Spelling, second: Spelling)
    requires first != second
    ensures var points := TwoPoints(first, second);
      && Members(points, "a") == [points[0]] && Members(points, "b") == [points[1]]
      && ReusedBundles(points) == {} && Bundles(points) == {first, second}
      && LinearChain([points[0]], {}) && LinearChain([points[1]], {})
      && DistinctChains(TWO_CHAINS) && Known(points, TWO_CHAINS)
  {
    var points := TwoPoints(first, second);
    assert points[..1] == [points[0]] && points[..0] == [] && [points[0]][..0] == [];
    assert points[0] in points && points[1] in points;
    assert TWO_CHAINS[0].id == "a" && TWO_CHAINS[1].id == "b";
    assert "a"[0] != "b"[0];
  }

  lemma SoleBytes(p: Point, b: Spelling, usage: map<Spelling, nat>)
    requires p.bundle == Some(b) && b in usage
    ensures Bundles([p]) == {b} && BytesOf({b}, usage) == usage[b]
  {
    assert p in [p];
    BytesWithout({b}, usage, b);
    assert {b} - {b} == {};
  }

  /** A chain with one inspectable bundle is reported with its bytes, and no link stops the collection. */
  lemma SoleIsReported(points: seq<Point>, chain: Chain, p: Point, b: Spelling, usage: map<Spelling, nat>, links: set<Spelling>)
    requires chain.closed && Members(points, chain.id) == [p] && LinearChain([p], ReusedBundles(points))
    requires p.bundle == Some(b) && b in usage && b !in links
    ensures Reclaimable(points, chain, usage) == Some(usage[b]) && !MeetsLink(points, chain, usage, links)
  {
    SoleBytes(p, b, usage);
  }

  lemma ReadableAtBoth(tree: Node, path: Path, b: Spelling, bundles: set<Spelling>)
    requires Inspectable(tree, path) && Normal(b) == path && b in bundles
    ensures b in UsageOf(tree, bundles) && UsageOf(tree, bundles)[b] == PhysicalBytes(At(tree, path).value)
    ensures b !in LinksOf(tree, bundles)
  {
    if RaisesAt(tree, path) {
      var k :| 0 <= k <= |path| && LinkAt(tree, path[..k]);
      NothingBehindLink(tree, path, k);
    }
  }

  /** One bundle under two spellings of its path: both chains report all of its bytes. */
  method CountedTwice(tree: Node, path: Path) returns (facts: Option<seq<Fact>>)
    requires Inspectable(tree, path)
    ensures facts.Some? && |facts.value| == 2
    ensures facts.value[0].physicalBytes == facts.value[1].physicalBytes == Some(PhysicalBytes(At(tree, path).value))
  {
    var other := [""] + path;
    var points := TwoPoints(path, other);
    AnotherSpelling(path);
    PublishedIsNormal(path);
    assert path != other by { assert |path| != |other|; }
    TwoLinearChains(path, other);
    ghost var usage, links := UsageOf(tree, Bundles(points)), LinksOf(tree, Bundles(points));
    ReadableAtBoth(tree, path, path, Bundles(points));
    ReadableAtBoth(tree, path, other, Bundles(points));
    SoleIsReported(points, TWO_CHAINS[0], points[0], path, usage, links);
    SoleIsReported(points, TWO_CHAINS[1], points[1], other, usage, links);
    facts := Collect(TWO_CHAINS, points, tree);
  }

  /** A backup root in which a link stands where the directory of all bundles should be. */
  function LinkedRoot(): Node {
    Folder(1, 1, map["vms" := Link(1, 2)])
  }

  lemma BehindRootLink(path: Path, bundles: set<Spelling>)
    requires ValidatedRelative(path).Some? && path in bundles
    ensures path in LinksOf(LinkedRoot(), bundles)
  {
    PublishedIsNormal(path);
    assert path[..1] == ["vms"] && LinkAt(LinkedRoot(), path[..1]);
  }

  /** Such a link ends the collection of a correct catalog. */
  method LinkEndsCollection(path: Path, other: Path) returns (facts: Option<seq<Fact>>)
    requires ValidatedRelative(path).Some? && path != other
    ensures facts.None?
  {
    var points := TwoPoints(path, other);
    TwoLinearChains(path, other);
    ghost var usage, links := UsageOf(LinkedRoot(), Bundles(points)), LinksOf(LinkedRoot(), Bundles(points));
    BehindRootLink(path, Bundles(points));
    assert RaisesIn([points[0]], usage, links, 0);
    assert MeetsLink(points, TWO_CHAINS[0], usage, links);
    facts := Collect(TWO_CHAINS, points, LinkedRoot());
  }
}
