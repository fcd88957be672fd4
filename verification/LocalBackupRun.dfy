/** The compact executor of one local backup run, driven by ticks that turn every error into FAILED.

    A process may die between any two persisted or external steps; `fuel` counts those it still takes. */
module LocalBackupRun {
  import opened ExternalJobs
  import opened Wrappers

  datatype RunState = Scheduled | Preparing | BackingUp | Verifying | Finalizing | Success | Failed

  /** How far the start of the external job is recorded in the run's context. */
  datatype Phase = StartRequested | StartRejected | Running

  datatype Prepared = Prepared(dev: nat, ino: nat, capacity: nat)

  datatype Found = Found(dev: nat, ino: nat, format: string, virtualSize: nat)

  datatype Outcome = Returned | Raised | Died

  /** What one tick meets outside the persisted state. */
  datatype World = World(
    checksPass: bool, disks: map<string, Prepared>, staged: bool, begin: Begin,
    inspection: Inspection, completedSuccessfully: bool,
    files: map<string, Found>, publishes: bool, finalizes: bool, full: bool, retentionWorks: bool)

  /** Every prepared disk is still the same file, and holds an image of the planned size. */
  predicate AllMatch(prepared: map<string, Prepared>, files: map<string, Found>) {
    forall d :: d in prepared ==>
      && d in files && files[d].dev == prepared[d].dev && files[d].ino == prepared[d].ino
      && files[d].format == "qcow2" && files[d].virtualSize == prepared[d].capacity
  }

  /** The domain is idle and its last job was a successful backup. */
  predicate Completed(w: World) {
    w.inspection.NoJob? && w.completedSuccessfully
  }

  class LocalRun {
    var state: RunState
    var phase: Option<Phase>
    var recoveryRequired: bool
    var prepared: map<string, Prepared>
    var catalogued: Option<map<string, Found>>
    var fuel: nat

    // What really happened.
    var begins: nat
    var publications: nat
    var writer: Writer

    constructor ()
      ensures Safe() && state == Scheduled && phase.None? && !recoveryRequired
    {
      state, phase, recoveryRequired, prepared, catalogued := Scheduled, None, false, map[], None;
      fuel, begins, publications, writer := 0, 0, 0, Idle;
    }

    predicate Started()
      reads this
    {
      state.BackingUp? || state.Verifying? || state.Finalizing? || state.Success?
    }

    /** The job was taken to be completed: its disks are being verified, or were, or were published. */
    predicate PastPoll()
      reads this
    {
      state.Verifying? || state.Finalizing? || state.Success? || publications > 0
    }

    /** What a tick needs in order not to make the run FAILED, state by state. */
    predicate InOrder(w: World)
      reads this
    {
      match state
      case Scheduled => true
      case Preparing => phase.None? && w.checksPass && w.staged && w.begin.Accepted?
      case BackingUp => w.inspection.Match? || Completed(w)
      case Verifying => AllMatch(prepared, w.files) && w.publishes && w.finalizes && (!w.full || w.retentionWorks)
      case Finalizing => false
      case Success => true
      case Failed => true
    }

    /** The state to which such a tick takes it. */
    static function Following(s: RunState, w: World): RunState {
      match s
      case Scheduled => Preparing
      case Preparing => BackingUp
      case BackingUp => if w.inspection.Match? then BackingUp else Verifying
      case Verifying => Success
      case _ => s
    }

    /** The recorded phase leaves open whether the job is running. */
    predicate Uncertain()
      reads this
    {
      phase == Some(StartRequested) || phase == Some(Running)
    }

    /** What holds in every state, also in the ones that a crash leaves. A FAILED run carries the recovery
        mark exactly when its phase is uncertain. */
    ghost predicate Safe()
      reads this
    {
      && begins <= 1 && publications <= 1
      && (phase.None? ==> begins == 0 && !Started())
      && (begins == 0 ==> publications == 0)
      && (Started() ==> phase == Some(Running) && begins == 1)
      && (state.BackingUp? || state.Verifying? ==> publications == 0 && catalogued.None?)
      && (catalogued.Some? ==> publications == 1 && AllMatch(prepared, catalogued.value))
      && (state.Success? ==> catalogued.Some?)
      && (begins == 0 ==> writer.Idle?)
      && (PastPoll() ==> !writer.Active?)
      && (recoveryRequired ==> Uncertain())
      && (state.Failed? && Uncertain() ==> recoveryRequired)
    }

    method Spend() returns (dead: bool)
      modifies this`fuel
      ensures dead == (old(fuel) == 0) && fuel == old(fuel) - (if dead then 0 else 1)
    {
      if fuel == 0 { return true; }
      fuel := fuel - 1;
      return false;
    }

    /** Nothing keeps the run from asking for its start. */
    predicate MayStart(w: World)
      reads this
    {
      phase.None? && w.checksPass && w.staged
    }

    /** What that many steps from the record of the request on leave. */
    ghost predicate Launched(begin: Begin, steps: int)
      reads this
    {
      && phase == (if steps < 1 then None else if steps < 3 then Some(StartRequested) else Answered(begin))
      && begins == (if steps < 2 then 0 else 1)
      && writer == (if steps < 2 then Idle else WriterAfter(begin))
      && state == if begin.Accepted? && steps >= 4 then BackingUp else Preparing
    }

    /** The phase once the answer of the start call is on record. */
    static function Answered(begin: Begin): Option<Phase> {
      Some(if begin.Accepted? then Running else StartRejected)
    }

    /** How they end, and what they take. */
    static function LaunchSteps(begin: Begin): nat {
      if begin.Accepted? then 4 else 3
    }

    static function LaunchEnd(begin: Begin, steps: int): Outcome {
      if steps < LaunchSteps(begin) then Died else if begin.Accepted? then Returned else Raised
    }

    /** Records the request to start, only then starts the external job, and records the answer. Any error of
        the call is recorded as a rejection, whatever it left behind. */
    method Launch(begin: Begin) returns (o: Outcome)
      requires Safe() && state.Preparing? && phase.None? && publications == 0
      modifies this`state, this`phase, this`fuel, this`begins, this`writer
      ensures Safe() && Launched(begin, old(fuel)) && o == LaunchEnd(begin, old(fuel))
      ensures fuel == if o.Died? then 0 else old(fuel) - LaunchSteps(begin)
    {
      var dead := Spend();
      if dead { return Died; }
      phase := Some(StartRequested);
      dead := Spend();
      if dead { return Died; }
      begins, writer := begins + 1, WriterAfter(begin);
      dead := Spend();
      if dead { return Died; }
      if !begin.Accepted? {
        phase := Some(StartRejected);
        return Raised;
      }
      phase := Some(Running);
      dead := Spend();
      if dead { return Died; }
      state := BackingUp;
      return Returned;
    }

    /** Prepares the staging and starts the external job, unless a start was asked for before. */
    method PrepareAndStart(w: World) returns (o: Outcome)
      requires Safe() && state.Preparing?
      modifies this`state, this`phase, this`prepared, this`fuel, this`begins, this`writer
      ensures Safe()
      ensures begins > old(begins) ==> old(fuel) >= 3 && old(MayStart(w)) && begins == 1 && writer == WriterAfter(w.begin) && prepared == w.disks
      ensures begins == old(begins) ==> writer == old(writer)
      ensures phase == Some(StartRejected) && old(phase) != phase ==> !w.begin.Accepted? && begins > old(begins)
      ensures state.Preparing? || (state.BackingUp? && old(MayStart(w)))
      ensures old(fuel) == 0 && old(MayStart(w)) ==> o.Died? && prepared == old(prepared) && phase.None?
      ensures old(fuel) >= 5 && old(MayStart(w)) ==>
        && begins == 1 && phase == Answered(w.begin)
        && if w.begin.Accepted? then o.Returned? && state.BackingUp? else o.Raised? && fuel >= 1
      ensures o.Died? ==> fuel == 0
      ensures !old(MayStart(w)) ==>
        && o.Raised? && state.Preparing? && phase == old(phase) && prepared == old(prepared)
        && fuel == old(fuel) && begins == old(begins) && writer == old(writer)
    {
      if phase.Some? { return Raised; }
      if !w.checksPass || !w.staged { return Raised; }
      var dead := Spend();
      if dead { return Died; }
      prepared := w.disks;
      o := Launch(w.begin);
    }

    /** Looks for the end of the external job. */
    method Poll(w: World) returns (o: Outcome)
      requires Safe() && state.BackingUp? && Truthful(w.inspection, writer)
      modifies this`state, this`fuel
      ensures Safe()
      ensures w.inspection.Match? ==> o.Returned?
      ensures !w.inspection.Match? && !Completed(w) ==> o.Raised?
      ensures w.inspection.Match? || !Completed(w) ==> state.BackingUp? && fuel == old(fuel)
      ensures Completed(w) ==>
        if old(fuel) == 0 then o.Died? && state.BackingUp? && fuel == 0 else o.Returned? && state.Verifying? && fuel == old(fuel) - 1
    {
      if w.inspection.Match? { return Returned; }
      if !w.inspection.NoJob? || !w.completedSuccessfully { return Raised; }
      var dead := Spend();
      if dead { return Died; }
      state := Verifying;
      return Returned;
    }

    /** Checks every disk against its preparation. */
    method CheckDisks(files: map<string, Found>) returns (ok: bool)
      ensures ok == AllMatch(prepared, files)
    {
      var rest := prepared;
      while rest != map[]
        invariant rest.Keys <= prepared.Keys
        invariant forall d :: d in prepared && d !in rest ==> AllMatch(map[d := prepared[d]], files)
        decreases |rest|
      {
        var d :| d in rest;
        if d !in files || files[d].dev != prepared[d].dev || files[d].ino != prepared[d].ino {
          assert !AllMatch(prepared, files);
          return false;
        }
        if files[d].format != "qcow2" || files[d].virtualSize != prepared[d].capacity {
          assert !AllMatch(prepared, files);
          return false;
        }
        rest := rest - {d};
      }
      assert forall d :: d in prepared ==> d in map[d := prepared[d]];
      return true;
    }

    /** Publishes the bundle of verified disks and catalogues it, each recorded before the next. */
    method Publish(w: World) returns (o: Outcome)
      requires Safe() && state.Verifying? && AllMatch(prepared, w.files)
      modifies this`state, this`fuel, this`publications, this`catalogued
      ensures Safe() && (o.Died? ==> fuel == 0)
      ensures publications == if old(fuel) < 2 then 0 else 1
      ensures state ==
        if old(fuel) == 0 then Verifying else if w.publishes && w.finalizes && old(fuel) >= 3 then Success else Finalizing
      ensures catalogued == if state.Success? then Some(w.files) else None
      ensures o.Died? <==> old(fuel) < if w.publishes && w.finalizes then 3 else 2
      ensures o.Returned? <==> state.Success? && (!w.full || w.retentionWorks)
      ensures old(fuel) >= 3 ==> fuel + 3 >= old(fuel)
    {
      var dead := Spend();
      if dead { return Died; }
      state := Finalizing;
      dead := Spend();
      if dead { return Died; }
      publications := publications + 1;
      if !w.publishes || !w.finalizes { return Raised; }
      dead := Spend();
      if dead { return Died; }
      state, catalogued := Success, Some(w.files);
      return if w.full && !w.retentionWorks then Raised else Returned;
    }

    /** Verifies the disks, and then publishes the bundle and catalogues it. */
    method VerifyAndPublish(w: World) returns (o: Outcome)
      requires Safe() && state.Verifying?
      modifies this`state, this`fuel, this`publications, this`catalogued
      ensures Safe()
      ensures publications > old(publications) ==> old(fuel) >= 2 && AllMatch(prepared, w.files)
      ensures catalogued.Some? ==> catalogued == Some(w.files) && state.Success?
      ensures state.Success? ==> old(fuel) >= 3 && AllMatch(prepared, w.files) && w.publishes && w.finalizes
      ensures old(fuel) == 0 && AllMatch(prepared, w.files) ==> o.Died? && state.Verifying?
      ensures o.Died? ==> fuel == 0 && old(fuel) < 3
      ensures old(fuel) >= 3 ==>
        && (state.Success? <==> AllMatch(prepared, w.files) && w.publishes && w.finalizes)
        && (if old(InOrder(w)) then o.Returned? else o.Raised?) && fuel + 3 >= old(fuel)
      ensures state.Verifying? || state.Finalizing? || state.Success?
    {
      var ok := CheckDisks(w.files);
      if !ok { return Raised; }
      o := Publish(w);
    }

    /** One step of the run. With steps enough it goes on exactly when everything is in order, and raises
        otherwise. */
    method AdvanceRun(w: World) returns (o: Outcome)
      requires Safe() && Truthful(w.inspection, writer)
      modifies this`state, this`phase, this`prepared, this`fuel, this`begins, this`writer, this`publications, this`catalogued
      ensures Safe() && (state.Failed? ==> old(state).Failed?) && (o.Died? ==> fuel == 0)
      ensures old(fuel) >= 5 ==>
        if old(InOrder(w)) then o.Returned? && state == Following(old(state), w)
        else o.Raised? && fuel >= if Uncertain() then 2 else 1
      ensures begins > old(begins) ==> old(begins) == 0 && old(phase).None? && writer == WriterAfter(w.begin)
      ensures begins > old(begins) ==> w.checksPass && w.staged && prepared == w.disks
      ensures begins == old(begins) ==> writer == old(writer)
      ensures old(state).Preparing? && old(MayStart(w)) && old(fuel) >= 5 ==> begins == 1 && phase == Answered(w.begin)
      ensures phase == Some(StartRejected) && old(phase) != phase ==> !w.begin.Accepted? && begins > old(begins)
      ensures !old(state).Preparing? ==> prepared == old(prepared) && phase == old(phase)
      ensures state.Verifying? && !old(state).Verifying? ==> old(state).BackingUp? && Completed(w)
      ensures PastPoll() && !old(PastPoll()) ==> old(state).BackingUp? && Completed(w)
      ensures old(state).BackingUp? && w.inspection.Match? ==> o.Returned? && state == old(state)
      ensures publications > old(publications) ==> old(publications) == 0 && old(state).Verifying? && AllMatch(prepared, w.files)
      ensures catalogued == old(catalogued) || (old(catalogued).None? && old(state).Verifying? && catalogued == Some(w.files))
      ensures old(state).Verifying? && AllMatch(prepared, w.files) && w.publishes && w.finalizes && old(fuel) >= 3 ==> catalogued.Some?
      ensures old(state).Scheduled? ==> if old(fuel) >= 1 then state.Preparing? && o.Returned? else state.Scheduled? && o.Died?
    {
      match state {
        case Scheduled =>
          var dead := Spend();
          if dead { return Died; }
          state := Preparing;
          return Returned;
        case Preparing => o := PrepareAndStart(w);
        case BackingUp => o := Poll(w);
        case Verifying => o := VerifyAndPublish(w);
        case Finalizing => return Raised;
        case _ => return Returned;
      }
    }

    /** Turns an error of the run into FAILED, and marks the run for recovery when its phase is uncertain. */
    method Fail()
      requires Safe() && !state.Failed?
      modifies this`state, this`recoveryRequired, this`fuel
      ensures Safe()
      ensures state == if old(fuel) >= (if Uncertain() then 2 else 1) then Failed else old(state)
      ensures recoveryRequired <==> old(recoveryRequired) || (Uncertain() && old(fuel) >= 1)
      ensures !state.Failed? ==> fuel == 0
    {
      if Uncertain() {
        var dead := Spend();
        if dead { return; }
        recoveryRequired := true;
      }
      var dead := Spend();
      if dead { return; }
      state := Failed;
    }

    /** One tick: every error makes the run FAILED, and with steps enough nothing else does. That includes an error of the retention that follows a
        FULL: the run then ends FAILED although its point is catalogued. */
    method Tick(w: World)
      requires Safe() && Truthful(w.inspection, writer)
      modifies this
      ensures Safe()
      ensures old(fuel) >= 5 ==>
        if old(InOrder(w)) then state == Following(old(state), w) && recoveryRequired == old(recoveryRequired) else state.Failed?
      ensures begins > old(begins) ==> old(begins) == 0 && old(phase).None? && writer == WriterAfter(w.begin)
      ensures begins > old(begins) ==> w.checksPass && w.staged && prepared == w.disks
      ensures begins == old(begins) ==> writer == old(writer)
      ensures old(state).Preparing? && old(MayStart(w)) && old(fuel) >= 5 ==> begins == 1 && phase == Answered(w.begin)
      ensures phase == Some(StartRejected) && old(phase) != phase ==> !w.begin.Accepted? && begins > old(begins)
      ensures !old(state).Preparing? ==> prepared == old(prepared) && phase == old(phase)
      ensures state.Verifying? && !old(state).Verifying? ==> old(state).BackingUp? && Completed(w)
      ensures PastPoll() && !old(PastPoll()) ==> old(state).BackingUp? && Completed(w)
      ensures old(state).BackingUp? && w.inspection.Match? ==> state.BackingUp? && recoveryRequired == old(recoveryRequired)
      ensures publications > old(publications) ==> old(publications) == 0 && old(state).Verifying? && AllMatch(prepared, w.files)
      ensures catalogued == old(catalogued) || (old(catalogued).None? && old(state).Verifying? && catalogued == Some(w.files))
      ensures old(state).Verifying? && AllMatch(prepared, w.files) && w.publishes && w.finalizes && old(fuel) >= 3 ==> catalogued.Some?
      ensures old(state).Scheduled? ==> if old(fuel) >= 1 then state.Preparing? else state.Scheduled?
    {
      if state.Success? || state.Failed? { return; }
      var o := AdvanceRun(w);
      if o.Raised? { Fail(); }
    }

    /** The job ends on its own. */
    method WriterFinishes()
      requires Safe()
      modifies this`writer
      ensures Safe() && writer == if old(writer).Active? then Finished else old(writer)
    {
      if writer.Active? { writer := Finished; }
    }

    /** A recovery task puts the run back at its beginning. */
    method Reschedule()
      requires Safe()
      modifies this`state
      ensures Safe() && state == Scheduled
    {
      state := Scheduled;
    }
  }

  datatype Event = Tick(world: World, budget: nat) | Reschedule | WriterEnds

  /** A tick that saw the job completed. */
  predicate Shows(e: Event) {
    e.Tick? && Completed(e.world)
  }

  /** Every schedule of ticks, crashes, recoveries and job endings: the job is started at most once and
      published at most once, and what was catalogued stays as it was. A run whose disks were verified, and so
      every run with a publication or a catalogued point, has seen its job completed in one of the ticks. A
      FAILED run whose job still writes carries the recovery mark exactly when its start was not recorded as
      rejected. An event whose observation would be false of the writer does not happen. */
  method Run(r: LocalRun, events: seq<Event>)
    requires r.Safe()
    modifies r
    ensures r.Safe()
    ensures old(r.catalogued).Some? ==> r.catalogued == old(r.catalogued)
    ensures r.PastPoll() ==> old(r.PastPoll()) || exists e :: e in events && Shows(e)
    ensures r.publications > 0 || r.catalogued.Some? ==> r.PastPoll() && !r.writer.Active?
    ensures r.state.Failed? && r.writer.Active? ==> (r.recoveryRequired <==> r.phase != Some(StartRejected))
  {
    for i := 0 to |events|
      invariant r.Safe() && (old(r.catalogued).Some? ==> r.catalogued == old(r.catalogued))
      invariant r.PastPoll() ==> old(r.PastPoll()) || exists e :: e in events && Shows(e)
    {
      assert events[i] in events;
      match events[i] {
        case Tick(world, budget) =>
          if Truthful(world.inspection, r.writer) {
            r.fuel := budget;
            r.Tick(world);
          }
        case Reschedule => r.Reschedule();
        case WriterEnds => r.WriterFinishes();
      }
    }
    assert r.writer.Active? ==> r.phase.Some? && (r.phase.value.StartRejected? || r.Uncertain());
  }

  /** What the ticks of a healthy run meet. */
  function Healthy(disks: map<string, Prepared>, files: map<string, Found>, inspection: Inspection): World {
    World(true, disks, true, Accepted, inspection, true, files, true, true, true, true)
  }

  /** A new run, taken to where its job writes. */
  method Writing(disks: map<string, Prepared>, files: map<string, Found>) returns (r: LocalRun)
    ensures fresh(r) && r.Safe() && r.state.BackingUp? && r.writer.Active? && r.prepared == disks && !r.recoveryRequired
  {
    r := new LocalRun();
    r.fuel := 5;
    r.Tick(Healthy(disks, files, NoJob));
    r.fuel := 5;
    r.Tick(Healthy(disks, files, NoJob));
  }

  /** A new run whose every tick finds everything in order, however many of them see its job active, ends in
      SUCCESS with its verified disks catalogued. */
  method HealthyRun(disks: map<string, Prepared>, files: map<string, Found>, polls: nat) returns (r: LocalRun)
    requires AllMatch(disks, files)
    ensures r.state.Success? && !r.recoveryRequired && r.catalogued == Some(files)
    ensures r.begins == 1 && r.publications == 1 && r.writer.Finished?
  {
    r := Writing(disks, files);
    for i := 0 to polls
      invariant fresh(r) && r.Safe() && r.state.BackingUp? && r.writer.Active? && r.prepared == disks && !r.recoveryRequired
    {
      r.fuel := 5;
      r.Tick(Healthy(disks, files, Match));
    }
    r.WriterFinishes();
    r.fuel := 5;
    r.Tick(Healthy(disks, files, NoJob));
    r.fuel := 5;
    r.Tick(Healthy(disks, files, NoJob));
  }

  /** A start call that times out after the job was accepted: the run ends in FAILED without a recovery mark
      while the job writes. */
  method UnmarkedWriter() returns (state: RunState, marked: bool, writer: Writer)
    ensures state.Failed? && !marked && writer.Active?
  {
    var r := new LocalRun();
    var w := World(true, map[], true, Ambiguous(true), Unclear, false, map[], false, false, false, false);
    r.fuel := 5;
    r.Tick(w);
    r.fuel := 5;
    r.Tick(w);
    return r.state, r.recoveryRequired, r.writer;
  }
}
