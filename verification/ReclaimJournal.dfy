/** The rebuilds of the reclaim journal's tables under new keys, row by row. */
module ReclaimJournal {
  import opened Wrappers

  datatype Purpose = ForCapacity | ForRetention

  datatype State =
    | Planned | Retiring | Quarantined | CatalogRemoved | Purging | Purged | Completed | RecoveryRequired | Aborted

  datatype BundleState = BundlePlanned | BundleQuarantined | BundlePurging | BundlePurged

  datatype Operation = Operation(
    id: string, run: string, job: string, vm: string, destination: string, purpose: Option<Purpose>, state: State,
    required: nat, freeBefore: nat, reserve: nat, expected: nat, freeAfter: Option<nat>,
    error: Option<string>, recoveryFrom: Option<State>, created: string, updated: string)

  datatype ChainRow = ChainRow(operation: string, chain: string, ordinal: nat, bytes: nat)

  /** The destination column exists from version 20 on. */
  datatype Bundle = Bundle(
    operation: string, chain: string, point: string, destination: Option<string>, source: string,
    quarantine: Option<string>, bytes: Option<nat>, device: Option<int>, inode: Option<int>, state: BundleState)

  datatype Journal = Journal(operations: seq<Operation>, chains: seq<ChainRow>, bundles: seq<Bundle>)

  datatype MigrationError = AmbiguousPurge | KeyConflict

  // ---- Keys ----

  predicate OperationsClash(a: Operation, b: Operation) {
    a.id == b.id || (a.run == b.run && a.purpose == b.purpose)
  }

  predicate ChainsClash(a: ChainRow, b: ChainRow) {
    a.operation == b.operation && (a.chain == b.chain || a.ordinal == b.ordinal)
  }

  /** The keys of the bundle table: before version 19, in version 19, and from version 20 on. */
  datatype BundleKey = ByPoint | ByPointAndSource | ByDestination

  predicate BundlesClash(key: BundleKey, a: Bundle, b: Bundle) {
    a.operation == b.operation &&
    match key
    case ByPoint => a.point == b.point || a.source == b.source
    case ByPointAndSource => (a.point == b.point && a.source == b.source) || a.source == b.source
    case ByDestination => a.destination == b.destination && a.source == b.source
  }

  predicate OperationKeys(rows: seq<Operation>) {
    forall i, j :: 0 <= i < j < |rows| ==> !OperationsClash(rows[i], rows[j])
  }

  predicate ChainKeys(rows: seq<ChainRow>) {
    forall i, j :: 0 <= i < j < |rows| ==> !ChainsClash(rows[i], rows[j])
  }

  predicate BundleKeys(key: BundleKey, rows: seq<Bundle>) {
    forall i, j :: 0 <= i < j < |rows| ==> !BundlesClash(key, rows[i], rows[j])
  }

  predicate HasOperation(j: Journal, id: string) {
    exists o :: o in j.operations && o.id == id
  }

  predicate HasChain(j: Journal, operation: string, chain: string) {
    exists c :: c in j.chains && c.operation == operation && c.chain == chain
  }

  /** The foreign keys between the three tables and to the storage destinations. */
  predicate References(j: Journal, destinations: set<string>) {
    && (forall o :: o in j.operations ==> o.destination in destinations)
    && (forall c :: c in j.chains ==> HasOperation(j, c.operation))
    && (forall b :: b in j.bundles ==> HasOperation(j, b.operation) && HasChain(j, b.operation, b.chain))
    && (forall b :: b in j.bundles && b.destination.Some? ==> b.destination.value in destinations)
  }

  /** A journal as version 17 stores it: one operation per run, no purpose, no destination. */
  predicate Valid17(j: Journal, destinations: set<string>) {
    && OperationKeys(j.operations) && ChainKeys(j.chains) && BundleKeys(ByPoint, j.bundles) && References(j, destinations)
    && (forall o :: o in j.operations ==> o.purpose.None?)
    && (forall b :: b in j.bundles ==> b.destination.None?)
  }

  predicate Valid18(j: Journal, destinations: set<string>) {
    && OperationKeys(j.operations) && ChainKeys(j.chains) && BundleKeys(ByPoint, j.bundles) && References(j, destinations)
    && (forall o :: o in j.operations ==> o.purpose.Some?)
    && (forall b :: b in j.bundles ==> b.destination.None?)
  }

  predicate Valid20(j: Journal, destinations: set<string>) {
    && OperationKeys(j.operations) && ChainKeys(j.chains) && BundleKeys(ByDestination, j.bundles) && References(j, destinations)
    && (forall o :: o in j.operations ==> o.purpose.Some?)
    && (forall b :: b in j.bundles ==> b.destination.Some?)
  }

  // ---- What the keys mean: a column list is a key when the table has as many distinct values of it as rows ----

  ghost predicate IsKey<K(!new)>(values: seq<K>) {
    |set k | k in values| == |values|
  }

  lemma {:induction false} KeyMeans<K(!new)>(values: seq<K>)
    ensures |set k | k in values| <= |values|
    ensures IsKey(values) <==> forall i, j :: 0 <= i < j < |values| ==> values[i] != values[j]
  {
    if values != [] {
      var n := |values| - 1;
      var all, before := set k | k in values, set k | k in values[..n];
      KeyMeans(values[..n]);
      assert values == values[..n] + [values[n]];
      assert all == before + {values[n]};
      if values[n] in values[..n] {
        assert all == before;
      } else {
        assert |all| == |before| + 1;
      }
    }
  }

  function Ids(rows: seq<Operation>): seq<string> {
    seq(|rows|, i requires 0 <= i < |rows| => rows[i].id)
  }

  function Occasions(rows: seq<Operation>): seq<(string, Option<Purpose>)> {
    seq(|rows|, i requires 0 <= i < |rows| => (rows[i].run, rows[i].purpose))
  }

  /** One row per ID, and one per run and purpose. */
  lemma OperationKeysAre(rows: seq<Operation>)
    ensures OperationKeys(rows) <==> IsKey(Ids(rows)) && IsKey(Occasions(rows))
  {
    KeyMeans(Ids(rows));
    KeyMeans(Occasions(rows));
    forall i, j | 0 <= i < j < |rows|
      ensures OperationsClash(rows[i], rows[j]) <==> Ids(rows)[i] == Ids(rows)[j] || Occasions(rows)[i] == Occasions(rows)[j]
    {
    }
  }

  function ChainIds(rows: seq<ChainRow>): seq<(string, string)> {
    seq(|rows|, i requires 0 <= i < |rows| => (rows[i].operation, rows[i].chain))
  }

  function Positions(rows: seq<ChainRow>): seq<(string, nat)> {
    seq(|rows|, i requires 0 <= i < |rows| => (rows[i].operation, rows[i].ordinal))
  }

  /** Within an operation, one row per chain and one per position. */
  lemma ChainKeysAre(rows: seq<ChainRow>)
    ensures ChainKeys(rows) <==> IsKey(ChainIds(rows)) && IsKey(Positions(rows))
  {
    KeyMeans(ChainIds(rows));
    KeyMeans(Positions(rows));
    forall i, j | 0 <= i < j < |rows|
      ensures ChainsClash(rows[i], rows[j]) <==> ChainIds(rows)[i] == ChainIds(rows)[j] || Positions(rows)[i] == Positions(rows)[j]
    {
    }
  }

  function PointIds(rows: seq<Bundle>): seq<(string, string)> {
    seq(|rows|, i requires 0 <= i < |rows| => (rows[i].operation, rows[i].point))
  }

  function Sources(rows: seq<Bundle>): seq<(string, string)> {
    seq(|rows|, i requires 0 <= i < |rows| => (rows[i].operation, rows[i].source))
  }

  function Places(rows: seq<Bundle>): seq<(string, Option<string>, string)> {
    seq(|rows|, i requires 0 <= i < |rows| => (rows[i].operation, rows[i].destination, rows[i].source))
  }

  /** Within an operation, one row per restore point and one per source at first; */
  lemma FirstKeysAre(rows: seq<Bundle>)
    ensures BundleKeys(ByPoint, rows) <==> IsKey(PointIds(rows)) && IsKey(Sources(rows))
  {
    KeyMeans(PointIds(rows));
    KeyMeans(Sources(rows));
    forall i, j | 0 <= i < j < |rows|
      ensures BundlesClash(ByPoint, rows[i], rows[j]) <==>
        PointIds(rows)[i] == PointIds(rows)[j] || Sources(rows)[i] == Sources(rows)[j]
    {
    }
  }

  /** then one per source; */
  lemma SecondKeysAre(rows: seq<Bundle>)
    ensures BundleKeys(ByPointAndSource, rows) <==> IsKey(Sources(rows))
  {
    KeyMeans(Sources(rows));
    forall i, j | 0 <= i < j < |rows|
      ensures BundlesClash(ByPointAndSource, rows[i], rows[j]) <==> Sources(rows)[i] == Sources(rows)[j]
    {
    }
  }

  /** and at last one per destination and source. */
  lemma ThirdKeysAre(rows: seq<Bundle>)
    ensures BundleKeys(ByDestination, rows) <==> IsKey(Places(rows))
  {
    KeyMeans(Places(rows));
    forall i, j | 0 <= i < j < |rows|
      ensures BundlesClash(ByDestination, rows[i], rows[j]) <==> Places(rows)[i] == Places(rows)[j]
    {
    }
  }

  // ---- Insertion under keys ----

  method InsertOperation(rows: seq<Operation>, row: Operation) returns (r: Option<seq<Operation>>)
    ensures r == if forall i :: 0 <= i < |rows| ==> !OperationsClash(rows[i], row) then Some(rows + [row]) else None
  {
    if exists i :: 0 <= i < |rows| && OperationsClash(rows[i], row) { return None; }
    return Some(rows + [row]);
  }

  method InsertChain(rows: seq<ChainRow>, row: ChainRow) returns (r: Option<seq<ChainRow>>)
    ensures r == if forall i :: 0 <= i < |rows| ==> !ChainsClash(rows[i], row) then Some(rows + [row]) else None
  {
    if exists i :: 0 <= i < |rows| && ChainsClash(rows[i], row) { return None; }
    return Some(rows + [row]);
  }

  method InsertBundle(key: BundleKey, rows: seq<Bundle>, row: Bundle) returns (r: Option<seq<Bundle>>)
    ensures r == if forall i :: 0 <= i < |rows| ==> !BundlesClash(key, rows[i], row) then Some(rows + [row]) else None
  {
    if exists i :: 0 <= i < |rows| && BundlesClash(key, rows[i], row) { return None; }
    return Some(rows + [row]);
  }

  // ---- The rebuilds ----

  /** Refills a bundle table under a key. */
  method CopyBundles(key: BundleKey, rows: seq<Bundle>) returns (r: Option<seq<Bundle>>)
    ensures r == if BundleKeys(key, rows) then Some(rows) else None
  {
    var copied := [];
    for i := 0 to |rows|
      invariant copied == rows[..i] && BundleKeys(key, rows[..i])
    {
      var inserted := InsertBundle(key, copied, rows[i]);
      if inserted.None? {
        ghost var k :| 0 <= k < |copied| && BundlesClash(key, copied[k], rows[i]);
        assert BundlesClash(key, rows[k], rows[i]);
        return None;
      }
      assert rows[..i + 1] == rows[..i] + [rows[i]];
      copied := inserted.value;
    }
    assert rows[..|rows|] == rows;
    return Some(copied);
  }

  method CopyChains(rows: seq<ChainRow>) returns (r: Option<seq<ChainRow>>)
    ensures r == if ChainKeys(rows) then Some(rows) else None
  {
    var copied := [];
    for i := 0 to |rows|
      invariant copied == rows[..i] && ChainKeys(rows[..i])
    {
      var inserted := InsertChain(copied, rows[i]);
      if inserted.None? {
        ghost var k :| 0 <= k < |copied| && ChainsClash(copied[k], rows[i]);
        assert ChainsClash(rows[k], rows[i]);
        return None;
      }
      assert rows[..i + 1] == rows[..i] + [rows[i]];
      copied := inserted.value;
    }
    assert rows[..|rows|] == rows;
    return Some(copied);
  }

  predicate Ambiguous(o: Operation) {
    o.state.Purging? || (o.state.RecoveryRequired? && o.recoveryFrom == Some(Purging))
  }

  /** Version 8 records the intent to purge per bundle: a journal that may be in the middle of a purge is
      refused, any other keeps every row. */
  method Migrate7To8(j: Journal) returns (r: Result<Journal, MigrationError>)
    ensures r == Err(AmbiguousPurge) <==>
      exists o :: o in j.operations && (o.state == Purging || (o.state == RecoveryRequired && o.recoveryFrom == Some(Purging)))
    ensures r != Err(AmbiguousPurge) ==> r == if BundleKeys(ByPoint, j.bundles) then Ok(j) else Err(KeyConflict)
  {
    if exists o :: o in j.operations && Ambiguous(o) { return Err(AmbiguousPurge); }
    var bundles := CopyBundles(ByPoint, j.bundles);
    return if bundles.Some? then Ok(j.(bundles := bundles.value)) else Err(KeyConflict);
  }

  /** A completed operation no longer carries the error that it recovered from. */
  function WithPurpose(o: Operation): Operation {
    if o.state.Completed? then o.(purpose := Some(ForCapacity), error := None, recoveryFrom := None)
    else o.(purpose := Some(ForCapacity))
  }

  /** A version 18 row says what the version 17 row said, and that it was for capacity; only a completed
      operation loses its error and the state from which it recovered. */
  ghost predicate Carried(before: Operation, after: Operation) {
    && after.purpose == Some(ForCapacity)
    && after.(purpose := None, error := None, recoveryFrom := None) == before.(purpose := None, error := None, recoveryFrom := None)
    && (before.state.Completed? ==> after.error.None? && after.recoveryFrom.None?)
    && (!before.state.Completed? ==> after.error == before.error && after.recoveryFrom == before.recoveryFrom)
  }

  /** The rows are carried over one by one, in order. */
  ghost predicate AllCarried(before: seq<Operation>, after: seq<Operation>) {
    |after| == |before| && forall i :: 0 <= i < |before| ==> Carried(before[i], after[i])
  }

  function AllWithPurpose(rows: seq<Operation>): seq<Operation> {
    seq(|rows|, i requires 0 <= i < |rows| => WithPurpose(rows[i]))
  }

  method Migrate17To18(j: Journal) returns (r: Result<Journal, MigrationError>)
    ensures r ==
      if OperationKeys(AllWithPurpose(j.operations)) && ChainKeys(j.chains) && BundleKeys(ByPoint, j.bundles)
      then Ok(Journal(AllWithPurpose(j.operations), j.chains, j.bundles)) else Err(KeyConflict)
    ensures r.Ok? ==> AllCarried(j.operations, r.value.operations)
  {
    var operations := [];
    for i := 0 to |j.operations|
      invariant operations == AllWithPurpose(j.operations)[..i] && OperationKeys(AllWithPurpose(j.operations)[..i])
    {
      var inserted := InsertOperation(operations, WithPurpose(j.operations[i]));
      if inserted.None? {
        ghost var k :| 0 <= k < |operations| && OperationsClash(operations[k], WithPurpose(j.operations[i]));
        assert OperationsClash(AllWithPurpose(j.operations)[k], AllWithPurpose(j.operations)[i]);
        return Err(KeyConflict);
      }
      operations := inserted.value;
    }
    assert AllWithPurpose(j.operations)[..|j.operations|] == AllWithPurpose(j.operations);
    var chains := CopyChains(j.chains);
    if chains.None? { return Err(KeyConflict); }
    var bundles := CopyBundles(ByPoint, j.bundles);
    if bundles.None? { return Err(KeyConflict); }
    return Ok(Journal(operations, chains.value, bundles.value));
  }

  method Migrate18To19(j: Journal) returns (r: Result<Journal, MigrationError>)
    ensures r == if BundleKeys(ByPointAndSource, j.bundles) then Ok(j) else Err(KeyConflict)
  {
    var bundles := CopyBundles(ByPointAndSource, j.bundles);
    return if bundles.Some? then Ok(j.(bundles := bundles.value)) else Err(KeyConflict);
  }

  // ---- The join that adds the destination ----

  predicate IsOperation(rows: seq<Operation>, id: string, k: int) {
    0 <= k < |rows| && rows[k].id == id
  }

  ghost predicate KnownOperation(rows: seq<Operation>, id: string) {
    exists k :: IsOperation(rows, id, k)
  }

  /** The position of the one operation with an ID. */
  ghost function OperationIndex(rows: seq<Operation>, id: string): (k: nat)
    requires KnownOperation(rows, id)
    ensures IsOperation(rows, id, k)
  {
    var k :| IsOperation(rows, id, k);
    k
  }

  ghost predicate AllKnown(operations: seq<Operation>, bundles: seq<Bundle>) {
    forall i :: 0 <= i < |bundles| ==> KnownOperation(operations, bundles[i].operation)
  }

  /** The bundles with the destination of their operation. */
  ghost function Joined(operations: seq<Operation>, bundles: seq<Bundle>): (r: seq<Bundle>)
    requires AllKnown(operations, bundles)
    ensures |r| == |bundles|
  {
    seq(|bundles|, i requires 0 <= i < |bundles| =>
      bundles[i].(destination := Some(operations[OperationIndex(operations, bundles[i].operation)].destination)))
  }

  lemma OneOperation(rows: seq<Operation>, id: string, k: int, m: int)
    requires OperationKeys(rows) && IsOperation(rows, id, k) && IsOperation(rows, id, m)
    ensures k == m
  {
    assert OperationsClash(rows[k], rows[m]) && OperationsClash(rows[m], rows[k]);
  }

  /** Joins one bundle row with the operations, and inserts every match. */
  method JoinRow(operations: seq<Operation>, bundle: Bundle, rows: seq<Bundle>) returns (r: Option<seq<Bundle>>)
    requires OperationKeys(operations) && KnownOperation(operations, bundle.operation)
    ensures var row := bundle.(destination := Some(operations[OperationIndex(operations, bundle.operation)].destination));
      r == if forall i :: 0 <= i < |rows| ==> !BundlesClash(ByDestination, rows[i], row) then Some(rows + [row]) else None
  {
    ghost var m := OperationIndex(operations, bundle.operation);
    var joined := rows;
    for k := 0 to |operations|
      invariant joined == if m < k then rows + [bundle.(destination := Some(operations[m].destination))] else rows
      invariant m < k ==> forall i :: 0 <= i < |rows| ==>
        !BundlesClash(ByDestination, rows[i], bundle.(destination := Some(operations[m].destination)))
    {
      if operations[k].id == bundle.operation {
        OneOperation(operations, bundle.operation, k, m);
        var inserted := InsertBundle(ByDestination, joined, bundle.(destination := Some(operations[k].destination)));
        if inserted.None? { return None; }
        joined := inserted.value;
      }
    }
    return Some(joined);
  }

  method Migrate19To20(j: Journal) returns (r: Result<Journal, MigrationError>)
    requires OperationKeys(j.operations) && AllKnown(j.operations, j.bundles)
    ensures r == if BundleKeys(ByDestination, Joined(j.operations, j.bundles))
                 then Ok(j.(bundles := Joined(j.operations, j.bundles)))
                 else Err(KeyConflict)
  {
    var rows := [];
    ghost var joined := Joined(j.operations, j.bundles);
    for i := 0 to |j.bundles|
      invariant rows == joined[..i] && BundleKeys(ByDestination, joined[..i])
    {
      var inserted := JoinRow(j.operations, j.bundles[i], rows);
      if inserted.None? {
        ghost var k :| 0 <= k < |rows| && BundlesClash(ByDestination, rows[k], joined[i]);
        assert BundlesClash(ByDestination, joined[k], joined[i]);
        return Err(KeyConflict);
      }
      assert joined[..i + 1] == joined[..i] + [joined[i]];
      rows := inserted.value;
    }
    assert joined[..|j.bundles|] == joined;
    return Ok(j.(bundles := rows));
  }

  // ---- Nothing is lost or doubled from version 17 to 20 ----

  function Purposed(j: Journal): Journal {
    Journal(AllWithPurpose(j.operations), j.chains, j.bundles)
  }

  /** The old keys of the operations imply the new ones. */
  lemma PurposeKeepsKeys(j: Journal)
    requires OperationKeys(j.operations) && forall o :: o in j.operations ==> o.purpose.None?
    ensures OperationKeys(AllWithPurpose(j.operations))
  {
    var rows := AllWithPurpose(j.operations);
    forall a, b | 0 <= a < b < |rows|
      ensures !OperationsClash(rows[a], rows[b])
    {
      assert !OperationsClash(j.operations[a], j.operations[b]);
      assert j.operations[a] in j.operations && j.operations[b] in j.operations;
    }
  }

  lemma SameIds(j: Journal, id: string)
    ensures HasOperation(Purposed(j), id) <==> HasOperation(j, id)
  {
    if o :| o in j.operations && o.id == id {
      var k :| 0 <= k < |j.operations| && j.operations[k] == o;
      assert Purposed(j).operations[k] in Purposed(j).operations;
    }
    if o :| o in Purposed(j).operations && o.id == id {
      var k :| 0 <= k < |j.operations| && WithPurpose(j.operations[k]) == o;
      assert j.operations[k] in j.operations;
    }
  }

  lemma PurposeKeepsReferences(j: Journal, destinations: set<string>)
    requires References(j, destinations)
    ensures References(Purposed(j), destinations)
  {
    var p := Purposed(j);
    forall o | o in p.operations
      ensures o.destination in destinations
    {
      var k :| 0 <= k < |j.operations| && WithPurpose(j.operations[k]) == o;
      assert j.operations[k] in j.operations;
    }
    forall c | c in p.chains
      ensures HasOperation(p, c.operation)
    {
      SameIds(j, c.operation);
    }
    forall b | b in p.bundles
      ensures HasOperation(p, b.operation) && HasChain(p, b.operation, b.chain)
    {
      SameIds(j, b.operation);
      var c :| c in j.chains && c.operation == b.operation && c.chain == b.chain;
      assert c in p.chains;
    }
  }

  lemma ValidAfterPurpose(j: Journal, destinations: set<string>)
    requires Valid17(j, destinations)
    ensures Valid18(Purposed(j), destinations)
  {
    PurposeKeepsKeys(j);
    PurposeKeepsReferences(j, destinations);
  }

  lemma BundlesAreKnown(j: Journal, destinations: set<string>)
    requires References(j, destinations)
    ensures AllKnown(j.operations, j.bundles)
  {
    forall i | 0 <= i < |j.bundles|
      ensures KnownOperation(j.operations, j.bundles[i].operation)
    {
      assert j.bundles[i] in j.bundles;
      var o :| o in j.operations && o.id == j.bundles[i].operation;
      var k :| 0 <= k < |j.operations| && j.operations[k] == o;
      assert IsOperation(j.operations, j.bundles[i].operation, k);
    }
  }

  /** The old keys of the bundles imply the new ones: no insertion of any rebuild can fail. */
  lemma BundleKeysWiden(j: Journal)
    requires BundleKeys(ByPoint, j.bundles) && AllKnown(j.operations, j.bundles)
    ensures BundleKeys(ByPointAndSource, j.bundles) && BundleKeys(ByDestination, Joined(j.operations, j.bundles))
  {
    var joined := Joined(j.operations, j.bundles);
    forall a, b | 0 <= a < b < |j.bundles|
      ensures !BundlesClash(ByPointAndSource, j.bundles[a], j.bundles[b])
      ensures !BundlesClash(ByDestination, joined[a], joined[b])
    {
      assert !BundlesClash(ByPoint, j.bundles[a], j.bundles[b]);
    }
  }

  lemma ValidAfterJoin(j: Journal, destinations: set<string>)
    requires Valid18(j, destinations) && AllKnown(j.operations, j.bundles)
    ensures Valid20(j.(bundles := Joined(j.operations, j.bundles)), destinations)
  {
    BundleKeysWiden(j);
    var joined := Joined(j.operations, j.bundles);
    var after := j.(bundles := joined);
    forall c | c in after.chains
      ensures HasOperation(after, c.operation)
    {
      var o :| o in j.operations && o.id == c.operation;
      assert o in after.operations;
    }
    forall b | b in joined
      ensures HasOperation(after, b.operation) && HasChain(after, b.operation, b.chain)
      ensures b.destination.Some? && b.destination.value in destinations
    {
      var i :| 0 <= i < |joined| && joined[i] == b;
      assert j.bundles[i] in j.bundles;
      var o :| o in j.operations && o.id == b.operation;
      assert o in after.operations;
      var c :| c in j.chains && c.operation == b.operation && c.chain == b.chain;
      assert c in after.chains;
      assert j.operations[OperationIndex(j.operations, b.operation)] in j.operations;
    }
  }

  /** The three rebuilds in order. From every journal that meets the keys and references of version 17 they
      lead, without a conflict, to one that meets those of version 20 and has the same rows. */
  method Upgrade(j: Journal, ghost destinations: set<string>) returns (r: Result<Journal, MigrationError>)
    requires Valid17(j, destinations)
    ensures r.Ok? && Valid20(r.value, destinations)
    ensures AllCarried(j.operations, r.value.operations) && r.value.chains == j.chains
    ensures |r.value.bundles| == |j.bundles|
    ensures forall i :: 0 <= i < |j.bundles| ==> r.value.bundles[i].(destination := None) == j.bundles[i]
    ensures forall i, k :: 0 <= i < |j.bundles| && 0 <= k < |j.operations| && j.operations[k].id == j.bundles[i].operation ==>
      r.value.bundles[i].destination == Some(j.operations[k].destination)
  {
    PurposeKeepsKeys(j);
    ValidAfterPurpose(j, destinations);
    r := Migrate17To18(j);
    var j18 := r.value;
    BundlesAreKnown(j18, destinations);
    BundleKeysWiden(j18);
    r := Migrate18To19(j18);
    r := Migrate19To20(r.value);
    ValidAfterJoin(j18, destinations);
    DestinationsCarriedOver(j, j18.bundles);
  }

  lemma DestinationsCarriedOver(j: Journal, bundles: seq<Bundle>)
    requires OperationKeys(AllWithPurpose(j.operations)) && AllKnown(AllWithPurpose(j.operations), bundles)
    ensures forall i, k :: 0 <= i < |bundles| && 0 <= k < |j.operations| && j.operations[k].id == bundles[i].operation ==>
      Joined(AllWithPurpose(j.operations), bundles)[i].destination == Some(j.operations[k].destination)
  {
    var operations := AllWithPurpose(j.operations);
    forall i, k | 0 <= i < |bundles| && 0 <= k < |j.operations| && j.operations[k].id == bundles[i].operation
      ensures Joined(operations, bundles)[i].destination == Some(j.operations[k].destination)
    {
      assert operations[k].id == bundles[i].operation;
      OneOperation(operations, bundles[i].operation, k, OperationIndex(operations, bundles[i].operation));
    }
  }

  // ---- Byte sums ----

  ghost function ChainBytes(rows: seq<ChainRow>, operation: string): nat {
    if rows == [] then 0
    else ChainBytes(rows[..|rows| - 1], operation) +
         if rows[|rows| - 1].operation == operation then rows[|rows| - 1].bytes else 0
  }

  ghost function BundleBytes(rows: seq<Bundle>, operation: string): nat {
    if rows == [] then 0
    else BundleBytes(rows[..|rows| - 1], operation) +
         if rows[|rows| - 1].operation == operation && rows[|rows| - 1].bytes.Some? then rows[|rows| - 1].bytes.value else 0
  }

  /** The chains of every operation add up to what the operation expects to free. */
  ghost predicate Balanced(j: Journal) {
    forall k :: 0 <= k < |j.operations| ==> ChainBytes(j.chains, j.operations[k].id) == j.operations[k].expected
  }

  lemma {:induction false} SameBundleBytes(before: seq<Bundle>, after: seq<Bundle>, operation: string)
    requires |after| == |before|
    requires forall i :: 0 <= i < |before| ==> after[i].(destination := None) == before[i]
    ensures BundleBytes(after, operation) == BundleBytes(before, operation)
  {
    if before != [] {
      var n := |before| - 1;
      assert after[n].(destination := None) == before[n];
      SameBundleBytes(before[..n], after[..n], operation);
    }
  }

  /** Every byte sum of the journal is conserved. */
  lemma UpgradeConservesBytes(j: Journal, after: Journal, operation: string)
    requires AllCarried(j.operations, after.operations)
    requires after.chains == j.chains && |after.bundles| == |j.bundles|
    requires forall i :: 0 <= i < |j.bundles| ==> after.bundles[i].(destination := None) == j.bundles[i]
    ensures Balanced(after) <==> Balanced(j)
    ensures BundleBytes(after.bundles, operation) == BundleBytes(j.bundles, operation)
  {
    forall k | 0 <= k < |j.operations|
      ensures after.operations[k].id == j.operations[k].id && after.operations[k].expected == j.operations[k].expected
    {
      assert Carried(j.operations[k], after.operations[k]);
    }
    SameBundleBytes(j.bundles, after.bundles, operation);
  }
}
