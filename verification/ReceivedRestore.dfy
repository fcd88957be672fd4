/** The restore of a received chain: its validation, and the life of one restore operation over ticks,
    failures, crashes and restarts. */
module ReceivedRestore {
  import opened Wrappers
  import opened RestoreImages

  // ---- The chain ----

  /** One received point with what its bundle says: the ID in its restore-point file and, in sorted order,
      the disk targets in its manifest and among its files. */
  datatype ReceivedPoint = ReceivedPoint(
    id: nat, sourceId: string, full: bool, available: bool, sequence: int, parent: Option<nat>,
    bundlePresent: bool, metadataId: Option<string>, manifestTargets: Option<seq<string>>, fileTargets: seq<string>)

  datatype ChainError =
    | PointNotFound
    | BaseMissing
    | SourceUnavailable
    | ChainInvalid
    | SourceMissing
    | MetadataInvalid
    | MetadataMismatch

  function Targets(p: ReceivedPoint): seq<string> {
    if p.manifestTargets.Some? && p.manifestTargets.value != [] then p.manifestTargets.value else p.fileTargets
  }

  predicate SoundPoint(p: ReceivedPoint) {
    p.available && p.bundlePresent && p.manifestTargets.Some? && p.metadataId == Some(p.sourceId) && Targets(p) != []
  }

  function Predecessor(chain: seq<ReceivedPoint>, i: nat): Option<nat>
    requires i <= |chain|
  {
    if i == 0 then None else Some(chain[i - 1].id)
  }

  /** Point `i` is sound, follows point `i - 1` and has the disks of the FULL. */
  predicate FitsChain(chain: seq<ReceivedPoint>, i: int) {
    && 0 <= i < |chain| && SoundPoint(chain[i]) && chain[i].sequence == i
    && chain[i].parent == Predecessor(chain, i) && Targets(chain[i]) == Targets(chain[0])
  }

  /** An unbroken chain from a FULL, all of whose points have the same disks. */
  predicate ValidChain(chain: seq<ReceivedPoint>) {
    chain != [] && chain[0].full && forall i :: 0 <= i < |chain| ==> FitsChain(chain, i)
  }

  method ValidateChain(chain: seq<ReceivedPoint>) returns (r: Result<seq<string>, ChainError>)
    ensures r.Ok? <==> ValidChain(chain)
    ensures r.Ok? ==> r.value == Targets(chain[0])
  {
    if chain == [] { return Err(PointNotFound); }
    if !chain[0].full { return Err(BaseMissing); }
    var expectedParent: Option<nat>, expectedSequence, diskTargets := None, 0, None;
    for i := 0 to |chain|
      invariant expectedSequence == i && expectedParent == Predecessor(chain, i)
      invariant diskTargets == if i == 0 then None else Some(Targets(chain[0]))
      invariant forall k :: 0 <= k < i ==> FitsChain(chain, k)
    {
      assert ValidChain(chain) ==> FitsChain(chain, i);
      var item := chain[i];
      if !item.available { return Err(SourceUnavailable); }
      if item.sequence != expectedSequence { return Err(ChainInvalid); }
      if item.parent != expectedParent { return Err(ChainInvalid); }
      if !item.bundlePresent { return Err(SourceMissing); }
      if item.manifestTargets.None? || item.metadataId.None? { return Err(MetadataInvalid); }
      if item.metadataId.value != item.sourceId { return Err(MetadataMismatch); }
      var targets := item.manifestTargets.value;
      if targets == [] { targets := item.fileTargets; }
      if targets == [] { return Err(MetadataInvalid); }
      if diskTargets.None? { diskTargets := Some(targets); } else if diskTargets.value != targets { return Err(ChainInvalid); }
      expectedParent, expectedSequence := Some(item.id), expectedSequence + 1;
    }
    return Ok(diskTargets.value);
  }

  // ---- The operation ----

  datatype State = Planned | Verifying | Materializing | Defining | Ready | Starting | Success | Failed

  predicate Unsafe(s: State) {
    s.Materializing? || s.Defining? || s.Starting?
  }

  predicate Terminal(s: State) {
    s.Success? || s.Failed?
  }

  type Images = map<string, seq<Option<Clusters>>>

  /** What one tick meets outside the operation: the received chain and its images, and how each check and
      each call turns out. The image tools stop after `toolLimit` steps, by an error or with the process. */
  datatype World = World(
    chain: seq<ReceivedPoint>, images: Images, targetSafe: bool, nameFree: bool, toolLimit: nat, toolsDie: bool,
    domainXmlFits: bool, accessGranted: bool, defines: bool, visible: bool, observed: nat, registers: bool, starts: bool)
  {
    /** Every disk of a valid chain has one image, or finds it missing, in every bundle. */
    ghost predicate Consistent() {
      ValidChain(chain) ==> Covers(Targets(chain[0]), images) && forall d :: d in images ==> |images[d]| == |chain|
    }
  }

  /** The folder that a valid chain is restored to. */
  ghost predicate RestoredFrom(world: World, folder: Folder) {
    && ValidChain(world.chain) && world.Consistent()
    && AllPresent(Targets(world.chain[0]), world.images)
    && folder == Restored(Targets(world.chain[0]), world.images)
  }

  /** What has to hold before a domain is defined: the target was safe, the name of the domain was free, the
      domain description could be rewritten and the access to the files was granted. */
  predicate Permitted(world: World) {
    ValidChain(world.chain) && world.targetSafe && world.nameFree && world.domainXmlFits && world.accessGranted
  }

  /** Every image is there and the tools last. */
  ghost predicate Buildable(world: World)
    requires world.Consistent()
  {
    && ValidChain(world.chain) && AllPresent(Targets(world.chain[0]), world.images)
    && world.toolLimit >= Steps(Targets(world.chain[0]), |Targets(world.chain[0])|, world.images)
  }

  /** The tools, the domain description and the permissions all work out. */
  ghost predicate Restorable(world: World)
    requires world.Consistent()
  {
    Buildable(world) && world.domainXmlFits && world.accessGranted
  }

  /** Nothing in the way of a restore to SUCCESS. */
  ghost predicate Favourable(world: World, uuid: nat, startAfter: bool)
    requires world.Consistent()
  {
    && Restorable(world) && world.targetSafe && world.nameFree
    && world.defines && world.visible && world.observed == uuid && world.registers && (startAfter ==> world.starts)
  }

  /** Runs the image tools for every disk of the chain. */
  method BuildDisks(world: World) returns (ok: bool, folder: Folder)
    requires ValidChain(world.chain) && world.Consistent()
    ensures ok ==> RestoredFrom(world, folder)
    ensures ok <==> Buildable(world)
  {
    var tools := new Staging(world.toolLimit);
    ok := tools.MaterializeAll(Targets(world.chain[0]), world.images);
    folder := tools.folder;
  }

  datatype Progress = Continue | Raised | Died

  class RestoreOperation {
    const uuid: nat
    const startAfter: bool
    var state: State
    var staging: Option<Folder>
    var target: Option<Folder>
    var defineCalls: nat
    var startCalls: nat
    var alive: bool
    var fuel: nat
    ghost var source: Option<World>
    /** The domain UUID that was observed after the definition. */
    ghost var observed: Option<nat>

    constructor (uuid: nat, startAfter: bool)
      ensures Valid() && state == Planned && alive && staging.None? && this.uuid == uuid && this.startAfter == startAfter
      ensures source.None? && observed.None?
    {
      this.uuid, this.startAfter := uuid, startAfter;
      state, staging, target, defineCalls, startCalls, alive, fuel := Planned, None, None, 0, 0, true, 0;
      source, observed := None, None;
    }

    /** What holds in every state, also in the ones that a crash leaves. */
    ghost predicate Safe()
      reads this
    {
      && defineCalls <= 1 && startCalls <= 1
      && (state.Planned? || state.Verifying? || state.Materializing? ==> defineCalls == 0)
      && (state.Planned? || state.Verifying? ==> target.None?)
      && (startCalls > 0 ==> defineCalls == 1 && startAfter && (state.Starting? || state.Success? || state.Failed?))
      && (target.Some? ==> source.Some? && RestoredFrom(source.value, target.value))
      && (state.Defining? || state.Ready? || state.Starting? || state.Success? ==> target.Some?)
      && (state.Defining? || defineCalls > 0 ==> source.Some? && Permitted(source.value))
      && (state.Ready? || state.Starting? || state.Success? ==> defineCalls == 1 && observed == Some(uuid))
      && (state.Success? ==> (startCalls == 1 <==> startAfter))
    }

    /** Between events no living process is in the middle of a step that must not be repeated. */
    ghost predicate Valid()
      reads this
    {
      Safe() && (alive ==> !Unsafe(state))
    }

    /** One committed transition, or the death of the process. */
    method Commit(next: State) returns (p: Progress)
      modifies this`state, this`fuel, this`alive
      ensures p == (if old(fuel) == 0 then Died else Continue) && fuel == old(fuel) - (if p.Died? then 0 else 1)
      ensures state == if p.Died? then old(state) else next
      ensures alive == (old(alive) && !p.Died?)
    {
      if fuel == 0 {
        alive := false;
        return Died;
      }
      state, fuel := next, fuel - 1;
      return Continue;
    }

    /** One call into the system, or the death of the process before it. */
    method Call() returns (p: Progress)
      modifies this`fuel, this`alive
      ensures p == (if old(fuel) == 0 then Died else Continue) && fuel == old(fuel) - (if p.Died? then 0 else 1)
      ensures alive == (old(alive) && !p.Died?)
    {
      if fuel == 0 {
        alive := false;
        return Died;
      }
      fuel := fuel - 1;
      return Continue;
    }

    /** The one rename that makes a staging folder the target, and then the permissions. */
    method Install(world: World, folder: Folder) returns (p: Progress)
      requires staging.Some? && target.None?
      modifies this`staging, this`target, this`source, this`fuel, this`alive
      ensures if old(fuel) >= 1 then target == Some(folder) && source == Some(world) else target.None? && source == old(source)
      ensures staging.Some? <==> target.None?
      ensures p == if target.None? then Died else if world.accessGranted then Continue else Raised
      ensures alive == (old(alive) && !p.Died?) && fuel == if target.None? then 0 else old(fuel) - 1
    {
      p := Call();
      if p.Died? { return; }
      target, staging, source := Some(folder), None, Some(world);
      return if world.accessGranted then Continue else Raised;
    }

    /** The materialization into a staging folder, which is then installed. */
    method Materialize(world: World) returns (p: Progress)
      requires ValidChain(world.chain) && world.Consistent() && target.None?
      modifies this`staging, this`target, this`source, this`fuel, this`alive
      ensures target.Some? ==> source == Some(world) && RestoredFrom(world, target.value)
      ensures target.Some? <==> old(staging).None? && Buildable(world) && world.domainXmlFits && old(fuel) >= 2
      ensures target.Some? ==> fuel == old(fuel) - 2 && !p.Died?
      ensures staging.Some? <==> old(staging).Some? || (target.None? && old(fuel) >= 1)
      ensures p.Continue? <==> target.Some? && world.accessGranted
      ensures alive == (old(alive) && !p.Died?)
      ensures p.Raised? ==> old(staging).Some? || !Restorable(world)
    {
      if staging.Some? { return Raised; }
      p := Call();
      if p.Died? { return; }
      var ok, folder := BuildDisks(world);
      staging := Some(folder);
      if !ok {
        if world.toolsDie { alive := false; }
        return if world.toolsDie then Died else Raised;
      }
      if !world.domainXmlFits { return Raised; }
      p := Install(world, folder);
    }

    method Verify(world: World) returns (p: Progress)
      requires Safe() && state.Verifying? && world.Consistent() && alive
      modifies this`state, this`staging, this`target, this`source, this`fuel, this`alive
      ensures Safe() && alive == !p.Died?
      ensures p.Continue? ==> state.Defining? && source == Some(world) && Permitted(world)
      ensures state != old(state) || target != old(target) ==> ValidChain(world.chain) && world.targetSafe && world.nameFree
      ensures target != old(target) ==> world.domainXmlFits
      ensures !p.Continue? ==> !Terminal(state)
      ensures p.Continue? ==> old(staging).None? && Restorable(world) && world.targetSafe && world.nameFree && old(fuel) >= 4
      ensures p.Raised? ==> old(staging).Some? || !Restorable(world) || !world.targetSafe || !world.nameFree
      ensures old(fuel) >= 4 && Restorable(world) && world.targetSafe && world.nameFree && old(staging).None? ==>
        p.Continue? && fuel == old(fuel) - 4
    {
      var chain := ValidateChain(world.chain);
      if chain.Err? || !world.targetSafe || target.Some? || !world.nameFree { return Raised; }
      p := Commit(Materializing);
      if p.Died? { return; }
      p := Materialize(world);
      if !p.Continue? { return; }
      p := Commit(Defining);
    }

    method Define(world: World) returns (p: Progress)
      requires Safe() && state.Defining? && defineCalls == 0 && alive
      modifies this`state, this`defineCalls, this`observed, this`fuel, this`alive
      ensures Safe() && alive == !p.Died?
      ensures p.Continue? ==> state.Ready? && world.defines && world.visible && world.registers && world.observed == uuid
      ensures observed == old(observed) || (world.defines && world.visible && observed == Some(world.observed))
      ensures !p.Continue? ==> !Terminal(state)
      ensures p.Raised? ==> !(world.defines && world.visible && world.observed == uuid && world.registers)
      ensures old(fuel) >= 2 && !p.Raised? ==> p.Continue? && fuel == old(fuel) - 2
      ensures defineCalls == if old(fuel) == 0 then 0 else 1
    {
      p := Call();
      if p.Died? { return; }
      defineCalls := defineCalls + 1;
      if !world.defines || !world.visible { return Raised; }
      observed := Some(world.observed);
      if world.observed != uuid { return Raised; }
      if !world.registers { return Raised; }
      p := Commit(Ready);
    }

    method Launch(world: World) returns (p: Progress)
      requires Safe() && state.Ready? && alive
      modifies this`state, this`startCalls, this`fuel, this`alive
      ensures Safe() && alive == !p.Died?
      ensures startCalls == if startAfter && old(fuel) >= 2 then 1 else 0
      ensures state == if p.Continue? then Success else if startAfter && old(fuel) >= 1 then Starting else Ready
      ensures p.Raised? <==> startAfter && !world.starts && old(fuel) >= 2
      ensures p.Continue? <==> old(fuel) >= (if startAfter then 3 else 1) && (startAfter ==> world.starts)
    {
      if startAfter {
        p := Commit(Starting);
        if p.Died? { return; }
        p := Call();
        if p.Died? { return; }
        startCalls := startCalls + 1;
        if !world.starts { return Raised; }
      }
      p := Commit(Success);
    }

    /** Nothing in the way of what is left to do; a staging folder of an earlier attempt is. */
    ghost predicate Succeeds(world: World)
      requires world.Consistent()
      reads this
    {
      if state.Ready? then startAfter ==> world.starts else staging.None? && Favourable(world, uuid, startAfter)
    }

    method TakeSteps(world: World) returns (p: Progress)
      requires Valid() && alive && !Terminal(state) && world.Consistent()
      modifies this
      ensures Safe() && alive == !p.Died?
      ensures p.Continue? ==> state.Success?
      ensures !p.Continue? ==> !Terminal(state)
      ensures defineCalls > old(defineCalls) ==> Permitted(world)
      ensures target != old(target) ==> ValidChain(world.chain) && world.targetSafe && world.nameFree && world.domainXmlFits
      ensures p.Continue? ==> old(Succeeds(world))
      ensures p.Raised? ==> !old(Succeeds(world))
      ensures old(fuel) >= 10 && old(Succeeds(world)) ==> p.Continue?
    {
      if state.Planned? {
        p := Commit(Verifying);
        if p.Died? { return; }
      }
      if state.Verifying? {
        p := Verify(world);
        if !p.Continue? { return; }
      }
      if state.Defining? {
        p := Define(world);
        if !p.Continue? { return; }
      }
      p := Launch(world);
    }

    /** Advances the operation as far as it goes. A process that lives long enough succeeds exactly when nothing
        is in the way, and an operation fails only for a cause. */
    method Advance(world: World)
      requires Valid() && alive && world.Consistent()
      modifies this
      ensures Valid() && (alive ==> Terminal(state))
      ensures defineCalls > old(defineCalls) ==> Permitted(world)
      ensures target != old(target) ==> ValidChain(world.chain) && world.targetSafe && world.nameFree && world.domainXmlFits
      ensures Terminal(old(state)) ==> state == old(state)
      ensures !Terminal(old(state)) ==>
        && (state.Failed? ==> !old(Succeeds(world)))
        && (state.Success? ==> old(Succeeds(world)))
        && (old(fuel) >= 10 && old(Succeeds(world)) ==> state.Success?)
    {
      if Terminal(state) { return; }
      var p := TakeSteps(world);
      if p.Raised? { p := Commit(Failed); }
    }

    /** The start of a new process: an operation that died in an unsafe state is given up. */
    method RecoverStartup()
      requires Safe()
      modifies this`state, this`fuel, this`alive
      ensures Valid()
      ensures !Unsafe(old(state)) ==> state == old(state) && alive && fuel == old(fuel)
      ensures Unsafe(old(state)) ==> if old(fuel) >= 1 then state.Failed? && alive else state == old(state) && !alive
    {
      alive := true;
      if Unsafe(state) {
        var p := Commit(Failed);
      }
    }
  }

  datatype Event = Restart(budget: nat) | Tick(world: World, budget: nat)

  /** Every schedule of ticks, deaths and restarts; a dead process does nothing until it is restarted, and
      a restart recovers before anything else. */
  method Run(operation: RestoreOperation, events: seq<Event>)
    requires operation.Valid() && forall e :: e in events && e.Tick? ==> e.world.Consistent()
    modifies operation
    ensures operation.Valid()
    ensures operation.defineCalls <= 1 && operation.startCalls <= 1
    ensures operation.defineCalls > 0 ==> operation.source.Some? && Permitted(operation.source.value)
    ensures operation.state.Success? ==> operation.observed == Some(operation.uuid)
    ensures operation.target.Some? ==> operation.source.Some? && RestoredFrom(operation.source.value, operation.target.value)
  {
    for i := 0 to |events|
      invariant operation.Valid()
    {
      assert events[i] in events;
      operation.fuel := events[i].budget;
      match events[i] {
        case Restart(_) => operation.RecoverStartup();
        case Tick(world, _) => if operation.alive { operation.Advance(world); }
      }
    }
  }
}
