/** The protocol that runs one full backup as an external libvirt job: the persisted state of the run and of
    the job, the process that advances them one step at a time, and the job itself.

    A process may die between any two of its persisted or external steps: `fuel` is the number of such
    steps that it still takes. */
module LibvirtExecution {
  import opened ExternalJobs

  datatype RunState =
    | Scheduled | Queued | Precheck | Preparing | BackingUp | Transferring | Verifying | Finalizing
    | Success | Recovering | Cleanup | Failed

  datatype ExternalState = Planned | StartRequested | Running | Completed | Unknown

  datatype CompletedJob = SuccessfulBackup | NoRecord | FailedOrCancelled | OtherRecord

  /** The space for a start: enough, too little, or a reclaim was begun for it and needs recovery itself. */
  datatype Capacity = Enough | TooLittle | ReclaimBreaks

  /** The reclaim operation of the run, as it is persisted. */
  datatype Reclaim = NoReclaim | NeedsRecovery | Recovered

  /** `preparation` counts the steps that prepare the staged files, up to the request to start. */
  datatype StartConditions = StartConditions(checksPass: bool, capacity: Capacity, prepares: bool, preparation: nat, begin: Begin)

  predicate Startable(c: StartConditions) {
    c.checksPass && c.capacity.Enough? && c.prepares && c.begin.Accepted?
  }

  /** The start gets as far as its call, and the call raises without a definite answer. */
  predicate StartsAmbiguously(c: StartConditions) {
    c.checksPass && c.capacity.Enough? && c.prepares && c.begin.Ambiguous?
  }

  datatype Outcome = Returned | Raised | Died

  /** What one step meets outside the persisted state; `artifacts` counts the disks of the run. */
  datatype World = World(
    planOk: bool, start: StartConditions, inspection: Inspection, completed: CompletedJob, artifacts: nat,
    verifies: Outcome, publishes: bool)

  /** The domain is idle and its last job was a successful backup. */
  predicate CompletedBackup(inspection: Inspection, completed: CompletedJob) {
    inspection.NoJob? && completed.SuccessfulBackup?
  }

  /** The most steps that one step of a run takes. */
  function StepsOf(w: World): nat {
    w.start.preparation + w.artifacts + 5
  }

  predicate PastTransfer(s: RunState) {
    s.Transferring? || s.Verifying? || s.Finalizing? || s.Success?
  }

  /** What is persisted about the progress of a run: its state, that of its job, and the recovery mark. */
  datatype Progress = Progress(run: RunState, external: ExternalState, marked: bool)

  class BackupRun {
    var run: RunState
    var recoveryRequired: bool
    var cleanupAuthorized: bool
    var planned: bool
    var external: ExternalState
    var activeMatch: bool
    var startedAt: bool
    var reclaim: Reclaim
    var staging: bool

    // The process: whether it holds an ownership token for the next step.
    var token: bool
    var fuel: nat

    // The world.
    var writer: Writer
    var begins: nat

    constructor ()
      ensures Safe() && run == Scheduled && external == Planned && reclaim == NoReclaim
      ensures !recoveryRequired && !cleanupAuthorized && !planned && !activeMatch && !startedAt && !staging && !token
      ensures begins == 0 && writer == Idle
    {
      run, recoveryRequired, cleanupAuthorized, planned, external := Scheduled, false, false, false, Planned;
      activeMatch, startedAt, staging, token, fuel, writer, begins := false, false, false, false, 0, Idle, 0;
      reclaim := NoReclaim;
    }

    /** What holds in every state, also in the ones that a crash leaves. */
    ghost predicate Safe()
      reads this
    {
      && begins <= 1
      && (begins == 0 || external.Planned? ==> writer.Idle?)
      && (begins > 0 && external.Planned? && !run.Cleanup? && !run.Failed? ==> staging)
      && (writer.Active? ==> staging && !run.Failed? && !PastTransfer(run))
      && (!planned ==> external.Planned? && begins == 0)
      && (PastTransfer(run) ==> external.Completed?)
      && (run.Recovering? ==> external.Planned? && recoveryRequired && !reclaim.NoReclaim?)
      && (run.BackingUp? || run.Recovering? ==> planned)
      && (Early(run) ==> external.Planned?)
      && (external.Completed? ==> !writer.Active?)
    }

    /** The evidence that a completed job was this run's own: it was once seen active with this run's identity,
        or the process that started it still holds the run in this step. */
    predicate Identified(owned: bool)
      reads this
    {
      activeMatch || (owned && startedAt && !recoveryRequired)
    }

    /** The outcome of the job is recorded as final or unknown, but the run neither moved on nor asks for
        recovery. */
    predicate Stuck()
      reads this
    {
      run.BackingUp? && !recoveryRequired && (external.Completed? || external.Unknown?)
    }

    /** The reclaim was recovered, but the run did not go back to its start. */
    predicate Stranded()
      reads this
    {
      run.Recovering? && reclaim.Recovered?
    }

    /** The process dies, after that many steps, between the commit that records an outcome and the one that
        moves the run or marks it. */
    predicate DiesBetweenCommits(w: World, owned: bool, steps: nat)
      reads this
    {
      run.BackingUp? && !recoveryRequired &&
      match external
      case Planned =>
        StartsAmbiguously(w.start) && !staging && !reclaim.NeedsRecovery? && steps == w.start.preparation + 4
      case StartRequested =>
        !w.inspection.Match? && !w.inspection.InspectionRaises? && steps == 1
      case Running =>
        if w.inspection.Mismatch? then steps == 1
        else if w.inspection.Unclear? then steps == 2
        else if w.inspection.NoJob? then
          if w.completed.SuccessfulBackup? && Identified(owned)
          then CommitsBefore() < steps <= CommitsBefore() + 1 + w.artifacts
          else steps == 2
        else false
      case _ => false
    }

    // ---- Where a step takes a run when the process lives through it ----

    function Now(): Progress
      reads this
    {
      Progress(run, external, recoveryRequired)
    }

    /** The start is given up, waits for a reclaim, stays unclear, or works. */
    function AfterStart(c: StartConditions): Progress
      reads this
    {
      if !c.checksPass then Progress(Cleanup, Planned, false)
      else if reclaim.NeedsRecovery? || (c.capacity.ReclaimBreaks? && reclaim.NoReclaim?) then Progress(Recovering, Planned, true)
      else if !c.capacity.Enough? || staging || !c.prepares || c.begin.Rejected? then Progress(Cleanup, Planned, false)
      else Progress(BackingUp, if c.begin.Ambiguous? then Unknown else Running, c.begin.Ambiguous?)
    }

    /** The job was asked to start, and its end is not on record. */
    predicate Asked()
      reads this
    {
      external.StartRequested? || external.Running?
    }

    /** A job that was asked to start is seen to run, or to have completed, or what became of it is unknown. */
    function AfterInspection(inspection: Inspection, completed: CompletedJob, owned: bool): Progress
      reads this
    {
      if inspection.InspectionRaises? then Now()
      else if inspection.Match? then Progress(BackingUp, Running, false)
      else if external.Running? && CompletedBackup(inspection, completed) && Identified(owned) then
        Progress(Transferring, Completed, false)
      else Progress(BackingUp, Unknown, true)
    }

    /** After the transfer, the staged files are verified and then published. */
    function AfterFinish(w: World): Progress
      reads this
    {
      match run
      case Transferring => Now().(run := Verifying)
      case Verifying => Now().(run := if w.verifies.Returned? then Finalizing else Verifying, marked := w.verifies.Raised?)
      case _ => Now().(run := if w.publishes then Success else Finalizing, marked := !w.publishes)
    }

    function After(w: World, owned: bool): Progress
      reads this
    {
      if recoveryRequired then Now()
      else if run.Preparing? && !planned && !w.planOk then Now().(run := Cleanup)
      else if Early(run) then Now().(run := Following(run))
      else if run.BackingUp? && external.Planned? then AfterStart(w.start)
      else if run.BackingUp? && Asked() then
        AfterInspection(w.inspection, w.completed, owned)
      else if run.Transferring? || run.Verifying? || run.Finalizing? then AfterFinish(w)
      else Now()
    }

    /** Nothing keeps a step with these conditions and that many steps from starting the job. */
    predicate ReadyToStart(c: StartConditions, steps: nat)
      reads this
    {
      external.Planned? && Startable(c) && !staging && !reclaim.NeedsRecovery? && steps >= c.preparation + 4
    }

    /** A reclaim for the start breaks, and the process lives to record that. */
    predicate BreaksReclaim(c: StartConditions, steps: nat)
      reads this
    {
      external.Planned? && c.checksPass && c.capacity.ReclaimBreaks? && reclaim.NoReclaim? && steps >= 2
    }

    /** The job runs under this run. */
    predicate Begun()
      reads this
    {
      run.BackingUp? && external.Running? && startedAt && !recoveryRequired && begins == 1 && writer.Active?
    }

    /** The commits of an accepting poll before the one that records the completion. */
    function CommitsBefore(): nat
      reads this
    {
      if activeMatch then 1 else 2
    }

    /** One persisted or external step, or the death of the process, which loses its ownership. */
    method Spend() returns (dead: bool)
      modifies this`fuel, this`token
      ensures dead == (old(fuel) == 0) && fuel == old(fuel) - (if dead then 0 else 1)
      ensures token == (old(token) && !dead)
    {
      if fuel == 0 {
        token := false;
        return true;
      }
      fuel := fuel - 1;
      return false;
    }

    /** Several steps in a row. */
    method SpendAll(n: nat) returns (dead: bool)
      modifies this`fuel, this`token
      ensures dead == (old(fuel) < n) && fuel == if dead then 0 else old(fuel) - n
      ensures token == (old(token) && !dead)
    {
      for i := 0 to n
        invariant fuel == old(fuel) - i && token == old(token)
      {
        dead := Spend();
        if dead { return; }
      }
      return false;
    }

    /** The start call. The request for it is persisted before. */
    method BeginBackup(begin: Begin)
      requires external.StartRequested? && begins == 0 && staging && writer.Idle?
      modifies this`begins, this`writer
      ensures begins == 1 && writer == WriterAfter(begin)
    {
      begins, writer := begins + 1, WriterAfter(begin);
    }

    /** A run whose reclaim needs recovery waits for it. */
    method EnterRecovery() returns (o: Outcome)
      requires Safe() && run.BackingUp? && external.Planned? && reclaim.NeedsRecovery?
      modifies this`run, this`recoveryRequired, this`fuel, this`token
      ensures Safe() && (token ==> old(token) && !o.Died?) && o == if old(fuel) == 0 then Died else Returned
      ensures if o.Returned? then run.Recovering? else run == old(run) && recoveryRequired == old(recoveryRequired)
    {
      var dead := Spend();
      if dead { return Died; }
      run, recoveryRequired := Recovering, true;
      return Returned;
    }

    /** What is on record once the answer of the start call is; without one the request stays. */
    static function Answered(begin: Begin): ExternalState {
      match begin
      case Accepted => Running
      case Rejected => Planned
      case Ambiguous(_) => StartRequested
    }

    /** Persists the request, calls, and persists the answer. A process that made the call has left the
        request on record, unless the answer was a definite rejection. */
    method Launch(begin: Begin) returns (o: Outcome)
      requires Safe() && run.BackingUp? && external.Planned? && begins == 0 && staging
      modifies this`external, this`startedAt, this`begins, this`writer, this`fuel, this`token
      ensures Safe() && (token ==> old(token) && !o.Died?)
      ensures startedAt || !old(startedAt)
      ensures external == if old(fuel) < 1 then Planned else if old(fuel) < 3 then StartRequested else Answered(begin)
      ensures begins == if old(fuel) < 2 then 0 else 1
      ensures writer == if begins == 0 then old(writer) else WriterAfter(begin)
      ensures begin.Accepted? && old(fuel) >= 3 ==> startedAt
      ensures o ==
        if old(fuel) < (if begin.Ambiguous? then 2 else 3) then Died else if begin.Accepted? then Returned else Raised
      ensures fuel == if o.Died? then 0 else if begin.Ambiguous? then old(fuel) - 2 else old(fuel) - 3
    {
      var dead := Spend();
      if dead { return Died; }
      external := StartRequested;
      dead := Spend();
      if dead { return Died; }
      BeginBackup(begin);
      if begin.Ambiguous? { return Raised; }
      dead := Spend();
      if dead { return Died; }
      if begin.Rejected? {
        external := Planned;
        return Raised;
      }
      external, startedAt := Running, true;
      return Returned;
    }

    /** The decision about the space for a start. `o` tells how the step ends when there is not enough. */
    method SecureSpace(capacity: Capacity) returns (enough: bool, o: Outcome)
      requires Safe() && run.BackingUp? && external.Planned?
      modifies this`run, this`recoveryRequired, this`reclaim, this`fuel, this`token
      ensures Safe() && (token ==> old(token) && !o.Died?)
      ensures enough <==> capacity.Enough? && !old(reclaim).NeedsRecovery?
      ensures enough ==> run == old(run) && reclaim == old(reclaim) && fuel == old(fuel) && token == old(token)
      ensures run.BackingUp? ==> recoveryRequired == old(recoveryRequired)
      ensures run.BackingUp? || (run.Recovering? && reclaim.NeedsRecovery?)
      ensures reclaim == if capacity.ReclaimBreaks? && old(reclaim).NoReclaim? && old(fuel) >= 1 then NeedsRecovery else old(reclaim)
      ensures old(fuel) >= 2 ==>
        && (run.Recovering? <==> old(reclaim).NeedsRecovery? || (capacity.ReclaimBreaks? && old(reclaim).NoReclaim?))
        && (!enough && run.BackingUp? ==> o.Raised? && fuel == old(fuel))
      ensures !enough ==> (o.Returned? <==> run.Recovering?) && (o.Raised? ==> run.BackingUp?)
    {
      if reclaim.NeedsRecovery? {
        o := EnterRecovery();
        return false, o;
      }
      if capacity.Enough? { return true, Returned; }
      if capacity.TooLittle? || reclaim.Recovered? { return false, Raised; }
      var dead := Spend();
      if dead { return false, Died; }
      reclaim := NeedsRecovery;
      o := EnterRecovery();
      return false, o;
    }

    /** The start of the external job: checks, space, staging, and then the one call. */
    method Start(c: StartConditions) returns (o: Outcome)
      requires Safe() && run.BackingUp? && external.Planned?
      modifies this`run, this`recoveryRequired, this`staging, this`external, this`startedAt, this`begins, this`writer, this`reclaim, this`fuel, this`token
      ensures Safe() && (token ==> old(token) && !o.Died?)
      ensures (run.BackingUp? || run.Recovering?) && (staging || !old(staging)) && (startedAt || !old(startedAt))
      ensures o.Returned? ==> external.Running? || run.Recovering?
      ensures run.BackingUp? ==> recoveryRequired == old(recoveryRequired)
      ensures o.Raised? ==> run.BackingUp? && (external.Planned? || external.StartRequested?)
      ensures !external.Completed? && !external.Unknown? && (run.Recovering? ==> !reclaim.Recovered?)
      ensures begins > old(begins) || (begins == old(begins) && writer == old(writer))
      ensures begins > old(begins) ==>
        && old(begins) == 0 && !old(staging) && old(fuel) >= c.preparation + 3
        && writer == WriterAfter(c.begin) && (external.Planned? ==> c.begin.Rejected?)
      ensures staging != old(staging) ==> old(fuel) >= 1
      ensures o.Raised? && external.StartRequested? <==>
        StartsAmbiguously(c) && !old(staging) && !old(reclaim).NeedsRecovery? && old(fuel) >= c.preparation + 3
      ensures o.Raised? && external.StartRequested? ==> fuel == old(fuel) - c.preparation - 3
      ensures old(ReadyToStart(c, fuel)) && !old(recoveryRequired) ==> o.Returned? && Begun()
      ensures old(BreaksReclaim(c, fuel)) ==> o.Returned? && run.Recovering?
      ensures old(fuel) >= c.preparation + 5 && old(AfterStart(c)).run.Recovering? ==> o.Returned? && run.Recovering?
      ensures old(fuel) >= c.preparation + 5 && old(AfterStart(c)).run.Cleanup? ==> o.Raised? && external.Planned? && fuel >= 1
    {
      if !c.checksPass { return Raised; }
      var enough;
      enough, o := SecureSpace(c.capacity);
      if !enough { return; }
      if staging { return Raised; }
      var dead := Spend();
      if dead { return Died; }
      staging := true;
      dead := SpendAll(c.preparation);
      if dead { return Died; }
      if !c.prepares { return Raised; }
      o := Launch(c.begin);
    }

    /** Gives the run up for an operator to decide; an outcome that may still be running is unknown. */
    method Quarantine() returns (o: Outcome)
      requires Safe()
      modifies this`external, this`recoveryRequired, this`fuel, this`token
      ensures Safe() && (token ==> old(token) && !o.Died?)
      ensures o.Returned? ==> recoveryRequired && !external.StartRequested? && !external.Running?
      ensures !o.Raised? && (o.Died? ==> recoveryRequired == old(recoveryRequired))
      ensures o.Died? <==> old(fuel) < if old(Asked()) then 2 else 1
      ensures old(Asked()) ==> (external.Unknown? <==> old(fuel) >= 1)
      ensures external == old(external) || (external.Unknown? && old(Asked()))
    {
      if Asked() {
        var dead := Spend();
        if dead { return Died; }
        external := Unknown;
      }
      var dead := Spend();
      if dead { return Died; }
      recoveryRequired := true;
      return Returned;
    }

    /** The step of a run whose start was requested by a process that did not learn the outcome. */
    method ReconcileStartRequested(inspection: Inspection) returns (o: Outcome)
      requires Safe() && run.BackingUp? && external.StartRequested? && !recoveryRequired && Truthful(inspection, writer)
      modifies this`external, this`recoveryRequired, this`activeMatch, this`fuel, this`token
      ensures Safe() && (token ==> old(token) && !o.Died?) && !o.Raised?
      ensures external.Running? ==> inspection.Match? && activeMatch
      ensures activeMatch && !old(activeMatch) ==> inspection.Match?
      ensures !external.Planned? && !external.Completed?
      ensures external.Unknown? && !recoveryRequired <==> !inspection.Match? && !inspection.InspectionRaises? && old(fuel) == 1
      ensures old(fuel) >= 2 ==> forall completed, owned :: Now() == old(AfterInspection(inspection, completed, owned))
      ensures activeMatch <==> old(activeMatch) || (inspection.Match? && old(fuel) >= 1)
      ensures external.Running? ==> old(fuel) >= 2
    {
      if inspection.InspectionRaises? {
        token := false;
        return Died;
      }
      if inspection.Match? {
        var dead := Spend();
        if dead { return Died; }
        activeMatch := true;
        dead := Spend();
        if dead { return Died; }
        external := Running;
        return Returned;
      }
      o := Quarantine();
    }

    /** The step of a running job. `owned` says that the process holds a token for this step. */
    method PollRunning(inspection: Inspection, completed: CompletedJob, artifacts: nat, owned: bool)
      returns (o: Outcome)
      requires Safe() && run.BackingUp? && external.Running? && !recoveryRequired && Truthful(inspection, writer)
      modifies this`run, this`external, this`recoveryRequired, this`activeMatch, this`fuel, this`token
      ensures Safe() && (token ==> old(token) && !o.Died?) && !o.Raised?
      ensures run.BackingUp? || run.Transferring?
      ensures activeMatch && !old(activeMatch) ==> inspection.Match?
      ensures activeMatch <==> old(activeMatch) || (inspection.Match? && old(fuel) >= 1)
      ensures old(fuel) >= artifacts + 4 ==> Now() == old(AfterInspection(inspection, completed, owned))
      ensures run.Transferring? ==>
        CompletedBackup(inspection, completed) && old(Identified(owned))
      ensures CompletedBackup(inspection, completed) && old(Identified(owned)) ==>
        && (run.Transferring? <==> old(fuel) >= old(CommitsBefore()) + 2 + artifacts)
        && (external.Completed? <==> old(fuel) > old(CommitsBefore())) && !external.Unknown? && !recoveryRequired
      ensures !(CompletedBackup(inspection, completed) && old(Identified(owned))) ==>
        && !external.Completed? && (inspection.Match? || inspection.InspectionRaises? ==> external.Running?)
        && (!inspection.Match? && !inspection.InspectionRaises? ==>
          && (external.Unknown? <==> old(fuel) >= if inspection.Mismatch? then 1 else 2)
          && (recoveryRequired <==> old(fuel) >= if inspection.Mismatch? then 2 else 3))
    {
      if inspection.InspectionRaises? {
        token := false;
        return Died;
      }
      if inspection.Match? {
        var dead := Spend();
        if dead { return Died; }
        activeMatch := true;
        return Returned;
      }
      if inspection.Mismatch? {
        o := Quarantine();
        return;
      }
      var dead := Spend();
      if dead { return Died; }
      if !inspection.NoJob? {
        o := Quarantine();
        return;
      }
      var strongIdentity := activeMatch;
      var fastContinuous := !strongIdentity && owned && startedAt && !recoveryRequired;
      if completed.SuccessfulBackup? && (strongIdentity || fastContinuous) {
        o := AcceptCompletion(fastContinuous, artifacts);
        return;
      }
      o := Quarantine();
    }

    /** Records the completion, then that the disks are complete, and then moves the run. */
    method AcceptCompletion(fastContinuous: bool, artifacts: nat) returns (o: Outcome)
      requires Safe() && run.BackingUp? && external.Running? && !writer.Active?
      modifies this`run, this`external, this`fuel, this`token
      ensures Safe() && (token ==> old(token) && !o.Died?) && !o.Raised?
      ensures var before := if fastContinuous then 1 else 0;
        && (external.Completed? <==> old(fuel) > before) && (external.Running? <==> old(fuel) <= before)
        && (run.Transferring? <==> old(fuel) >= before + 2 + artifacts) && (run.BackingUp? <==> !run.Transferring?)
    {
      var dead := SpendAll(if fastContinuous then 1 else 0);
      if dead { return Died; }
      dead := Spend();
      if dead { return Died; }
      external := Completed;
      dead := SpendAll(artifacts);
      if dead { return Died; }
      dead := Spend();
      if dead { return Died; }
      run := Transferring;
      return Returned;
    }

    /** The step of a run in BACKING_UP. A failed start leads to cleanup only while no start was requested
        or the request was definitely rejected. */
    method AdvanceBackup(w: World, owned: bool) returns (o: Outcome)
      requires Safe() && run.BackingUp? && !recoveryRequired && Truthful(w.inspection, writer)
      modifies this`run, this`external, this`recoveryRequired, this`activeMatch, this`startedAt, this`reclaim, this`staging
      modifies this`token, this`fuel, this`writer, this`begins
      ensures Safe() && (token ==> old(token) && !o.Died?) && !o.Raised?
      ensures run.Cleanup? ==> external.Planned? && writer.Idle?
      ensures !run.Success? && !run.Failed?
      ensures activeMatch && !old(activeMatch) ==> w.inspection.Match?
      ensures PastTransfer(run) ==>
        && run.Transferring? && old(external).Running? && CompletedBackup(w.inspection, w.completed)
        && old(Identified(owned))
      ensures begins > old(begins) ==> old(external).Planned? && !old(staging) && old(begins) == 0
      ensures begins > old(begins) || (begins == old(begins) && writer == old(writer))
      ensures (staging || !old(staging)) && (startedAt || !old(startedAt))
      ensures Stuck() <==> old(Stuck()) || old(DiesBetweenCommits(w, owned, fuel))
      ensures old(Stuck()) ==> external == old(external)
      ensures run.Recovering? ==> !reclaim.Recovered?
      ensures old(ReadyToStart(w.start, fuel)) ==> Begun()
      ensures old(BreaksReclaim(w.start, fuel)) ==> run.Recovering?
      ensures old(external).Running? && CompletedBackup(w.inspection, w.completed) && old(Identified(owned)) ==>
        !external.Unknown? && (run.Transferring? <==> old(fuel) >= old(CommitsBefore()) + 2 + w.artifacts)
      ensures old(activeMatch || (Asked() && w.inspection.Match? && fuel >= 1)) ==> activeMatch
      ensures old(fuel) >= StepsOf(w) ==> Now() == old(After(w, owned))
    {
      match external {
        case Planned => o := BeginOrGiveUp(w.start);
        case StartRequested => o := ReconcileStartRequested(w.inspection);
        case Running => o := PollRunning(w.inspection, w.completed, w.artifacts, owned);
        case _ => o := Returned;
      }
    }

    /** The attempt to start, and what becomes of a failed one. */
    method BeginOrGiveUp(c: StartConditions) returns (o: Outcome)
      requires Safe() && run.BackingUp? && !recoveryRequired && external.Planned?
      modifies this`run, this`external, this`recoveryRequired, this`startedAt, this`reclaim, this`staging
      modifies this`token, this`fuel, this`writer, this`begins
      ensures Safe() && (token ==> old(token) && !o.Died?) && !o.Raised?
      ensures run.BackingUp? || run.Recovering? || (run.Cleanup? && external.Planned? && writer.Idle?)
      ensures begins > old(begins) ==> !old(staging) && old(begins) == 0
      ensures begins > old(begins) || (begins == old(begins) && writer == old(writer))
      ensures (staging || !old(staging)) && (startedAt || !old(startedAt))
      ensures !external.Completed? && (run.Recovering? ==> !reclaim.Recovered?)
      ensures run.BackingUp? && !recoveryRequired && external.Unknown? <==>
        StartsAmbiguously(c) && !old(staging) && !old(reclaim).NeedsRecovery? && old(fuel) == c.preparation + 4
      ensures old(ReadyToStart(c, fuel)) ==> Begun()
      ensures old(BreaksReclaim(c, fuel)) ==> run.Recovering?
      ensures old(fuel) >= c.preparation + 5 ==> Now() == old(AfterStart(c))
    {
      o := Start(c);
      if !o.Raised? { return; }
      if external.Planned? {
        o := Move(Cleanup);
        return;
      }
      o := Quarantine();
    }

    static predicate Early(s: RunState) {
      s.Scheduled? || s.Queued? || s.Precheck? || s.Preparing?
    }

    /** The state after a step of a run that is not backing up yet. */
    static function Following(s: RunState): RunState {
      match s
      case Scheduled => Queued
      case Queued => Precheck
      case Precheck => Preparing
      case _ => BackingUp
    }

    /** Plans the run. */
    method AdvancePreparing(planOk: bool) returns (o: Outcome)
      requires Safe() && run.Preparing?
      modifies this`run, this`planned, this`fuel, this`token
      ensures Safe() && (token ==> old(token) && !o.Died?) && !o.Raised?
      ensures run.Preparing? || run.BackingUp? || (run.Cleanup? && !planned)
      ensures planned || !old(planned)
      ensures run ==
        if old(fuel) < (if old(planned) || !planOk then 1 else 2) then Preparing
        else if old(planned) || planOk then BackingUp
        else Cleanup
      ensures planned <==> old(planned) || (planOk && old(fuel) >= 1)
    {
      if !planned {
        var dead := Spend();
        if dead { return Died; }
        if !planOk {
          run := Cleanup;
          return Returned;
        }
        planned := true;
      }
      var dead := Spend();
      if dead { return Died; }
      run := BackingUp;
      return Returned;
    }

    method Move(next: RunState) returns (o: Outcome)
      modifies this`run, this`fuel, this`token
      ensures o == (if old(fuel) == 0 then Died else Returned)
      ensures run == (if o.Died? then old(run) else next) && (token ==> old(token) && !o.Died?)
    {
      var dead := Spend();
      if dead { return Died; }
      run := next;
      return Returned;
    }

    /** From the completed transfer over the verification of the staged files to the publication. */
    method AdvanceFinish(w: World) returns (o: Outcome)
      requires Safe() && (run.Transferring? || run.Verifying? || run.Finalizing?) && !recoveryRequired
      modifies this`run, this`external, this`recoveryRequired, this`fuel, this`token
      ensures Safe() && (token ==> old(token) && !o.Died?) && !o.Raised?
      ensures
        || run == old(run) || (old(run).Transferring? && run.Verifying?)
        || (old(run).Verifying? && run.Finalizing? && w.verifies.Returned?)
        || (old(run).Finalizing? && run.Success? && w.publishes)
      ensures Now() == if old(fuel) >= 1 then old(AfterFinish(w)) else old(Now())
    {
      if run.Transferring? {
        o := Move(Verifying);
      } else if run.Verifying? {
        if w.verifies.Died? {
          token := false;
          return Died;
        }
        if w.verifies.Raised? {
          o := Quarantine();
          return;
        }
        o := Move(Finalizing);
      } else if w.publishes {
        o := Move(Success);
      } else {
        o := Quarantine();
      }
    }

    /** The steps up to BACKING_UP. */
    method AdvanceEarly(planOk: bool) returns (o: Outcome)
      requires Safe() && Early(run)
      modifies this`run, this`planned, this`fuel, this`token
      ensures Safe() && (token ==> old(token) && !o.Died?) && !o.Raised?
      ensures run == old(run) || run == Following(old(run)) || (run.Cleanup? && !planned)
      ensures planned || !old(planned)
      ensures old(fuel) >= 2 ==>
        run == if old(run.Preparing? && !planned) && !planOk then Cleanup else Following(old(run))
    {
      match run {
        case Scheduled => o := Move(Queued);
        case Queued => o := Move(Precheck);
        case Precheck => o := Move(Preparing);
        case Preparing => o := AdvancePreparing(planOk);
      }
    }

    /** The step of a run, by its state. `owned` says that the process holds a token for it. */
    method AdvanceStep(w: World, owned: bool) returns (o: Outcome)
      requires Safe() && Truthful(w.inspection, writer)
      modifies this`run, this`external, this`recoveryRequired, this`planned, this`activeMatch, this`startedAt, this`reclaim, this`staging
      modifies this`token, this`fuel, this`writer, this`begins
      ensures Safe() && (token ==> old(token) && !o.Died?) && !o.Raised?
      ensures activeMatch && !old(activeMatch) ==> w.inspection.Match?
      ensures begins > old(begins) ==> old(begins) == 0 && old(run).BackingUp? && old(external).Planned? && !old(staging)
      ensures begins > old(begins) || (begins == old(begins) && writer == old(writer))
      ensures PastTransfer(run) && !PastTransfer(old(run)) ==>
        && run.Transferring? && old(run).BackingUp? && old(external).Running?
        && CompletedBackup(w.inspection, w.completed)
        && old(Identified(owned))
      ensures run.Success? && !old(run).Success? ==> old(run).Finalizing? && w.publishes
      ensures run.Finalizing? && !old(run).Finalizing? ==> old(run).Verifying? && w.verifies.Returned?
      ensures run.Cleanup? && !old(run).Cleanup? ==> external.Planned? && writer.Idle?
      ensures old(recoveryRequired) || old(run).Success? || old(run).Failed? || old(run).Cleanup? ==> Now() == old(Now())
      ensures (staging || !old(staging)) && (startedAt || !old(startedAt))
      ensures Stuck() <==> old(Stuck()) || old(DiesBetweenCommits(w, owned, fuel))
      ensures Stranded() <==> old(Stranded())
      ensures old(fuel) >= StepsOf(w) ==> Now() == old(After(w, owned))
      ensures !old(run).BackingUp? ==> staging == old(staging) && reclaim == old(reclaim) && (old(fuel) >= 2 ==> Now() == old(After(w, owned)))
      ensures old(activeMatch || (run.BackingUp? && !recoveryRequired && Asked() && w.inspection.Match? && fuel >= 1)) ==> activeMatch
      ensures old(run).BackingUp? && !old(recoveryRequired) && old(ReadyToStart(w.start, fuel)) ==> Begun()
      ensures old(run).BackingUp? && !old(recoveryRequired) && old(BreaksReclaim(w.start, fuel)) ==> run.Recovering?
      ensures old(run).BackingUp? && !old(recoveryRequired) && old(external).Running? && old(Identified(owned)) ==>
        CompletedBackup(w.inspection, w.completed) ==>
          !external.Unknown? && (run.Transferring? <==> old(fuel) >= old(CommitsBefore()) + 2 + w.artifacts)
    {
      if recoveryRequired || run.Success? || run.Failed? || run.Cleanup? { return Returned; }
      if Early(run) {
        o := AdvanceEarly(w.planOk);
      } else if run.BackingUp? {
        o := AdvanceBackup(w, owned);
      } else if run.Recovering? {
        o := Returned;
      } else {
        o := AdvanceFinish(w);
      }
    }

    /** One step of a run. It consumes the ownership token. It leaves the run stuck exactly when the process
        dies between two commits that belong together. */
    method AdvanceRun(w: World) returns (o: Outcome)
      requires Safe() && Truthful(w.inspection, writer)
      modifies this`run, this`external, this`recoveryRequired, this`planned, this`activeMatch, this`startedAt, this`reclaim, this`staging
      modifies this`token, this`fuel, this`writer, this`begins
      ensures Safe() && !token && !o.Raised?
      ensures activeMatch && !old(activeMatch) ==> w.inspection.Match?
      ensures begins > old(begins) ==> old(begins) == 0 && old(run).BackingUp? && old(external).Planned? && !old(staging)
      ensures begins > old(begins) || (begins == old(begins) && writer == old(writer))
      ensures PastTransfer(run) && !PastTransfer(old(run)) ==>
        && run.Transferring? && old(run).BackingUp? && old(external).Running?
        && CompletedBackup(w.inspection, w.completed)
        && old(Identified(token))
      ensures run.Success? && !old(run).Success? ==> old(run).Finalizing? && w.publishes
      ensures run.Finalizing? && !old(run).Finalizing? ==> old(run).Verifying? && w.verifies.Returned?
      ensures run.Cleanup? && !old(run).Cleanup? ==> external.Planned? && writer.Idle?
      ensures old(recoveryRequired) || old(run).Success? || old(run).Failed? || old(run).Cleanup? ==> Now() == old(Now())
      ensures (staging || !old(staging)) && (startedAt || !old(startedAt))
      ensures Stuck() <==> old(Stuck()) || old(DiesBetweenCommits(w, token, fuel))
      ensures Stranded() <==> old(Stranded())
      ensures old(fuel) >= StepsOf(w) ==> Now() == old(After(w, token))
      ensures !old(run).BackingUp? ==> staging == old(staging) && reclaim == old(reclaim) && (old(fuel) >= 2 ==> Now() == old(After(w, token)))
      ensures old(activeMatch || (run.BackingUp? && !recoveryRequired && Asked() && w.inspection.Match? && fuel >= 1)) ==> activeMatch
      ensures old(run).BackingUp? && !old(recoveryRequired) && old(ReadyToStart(w.start, fuel)) ==> Begun()
      ensures old(run).BackingUp? && !old(recoveryRequired) && old(BreaksReclaim(w.start, fuel)) ==> run.Recovering?
      ensures old(run).BackingUp? && !old(recoveryRequired) && old(external).Running? && old(Identified(token)) ==>
        CompletedBackup(w.inspection, w.completed) ==>
          !external.Unknown? && (run.Transferring? <==> old(fuel) >= old(CommitsBefore()) + 2 + w.artifacts)
    {
      var owned := token;
      token := false;
      o := AdvanceStep(w, owned);
    }

    /** The domain is proved idle now, or was never asked to start. */
    ghost predicate MayClean(inspection: Inspection)
      reads this
    {
      if cleanupAuthorized then planned && inspection.NoJob? else external.Planned?
    }

    /** One step of a run in CLEANUP. The staged files are removed only under a domain that is proved idle
        now, or that was never asked to start. */
    method AdvanceCleanup(inspection: Inspection, removes: bool) returns (o: Outcome)
      requires Safe() && Truthful(inspection, writer)
      modifies this`run, this`recoveryRequired, this`staging, this`fuel, this`token
      ensures Safe() && (token ==> old(token) && !o.Died?) && !o.Raised?
      ensures old(staging) && !staging ==>
        && old(run).Cleanup? && !writer.Active?
        && (if cleanupAuthorized then planned && inspection.NoJob? else external.Planned?)
      ensures run == old(run) || (old(run).Cleanup? && run.Failed? && !staging)
      ensures recoveryRequired != old(recoveryRequired) ==> recoveryRequired && old(run).Cleanup? && !old(MayClean(inspection))
      ensures old(fuel) >= 2 ==> Now() == old(AfterCleanup(inspection, removes))
      ensures old(fuel) == 0 ==> Now() == old(Now()) && staging == old(staging)
    {
      if !run.Cleanup? { return Returned; }
      var unsafe := if cleanupAuthorized then !planned || !inspection.NoJob? else planned && !external.Planned?;
      if unsafe {
        var dead := Spend();
        if dead { return Died; }
        recoveryRequired := true;
        return Returned;
      }
      if !removes {
        token := false;
        return Died;
      }
      var dead := Spend();
      if dead { return Died; }
      staging := false;
      o := Move(Failed);
    }

    ghost function AfterCleanup(inspection: Inspection, removes: bool): Progress
      reads this
    {
      if !run.Cleanup? then Now()
      else if !MayClean(inspection) then Now().(marked := true)
      else Now().(run := if removes then Failed else Cleanup)
    }

    // ---- The operator, the reclaim recovery, and the world ----

    /** A run that has not ended waits for the operator, and its domain is idle. */
    ghost predicate MayGiveUp(inspection: Inspection)
      reads this
    {
      recoveryRequired && !run.Success? && !run.Failed? && planned && inspection.NoJob?
    }

    /** The operator abandons a run; accepted only for a domain that is idle at this moment. */
    method RecoveryFail(inspection: Inspection) returns (o: Outcome)
      requires Safe() && Truthful(inspection, writer)
      modifies this`run, this`recoveryRequired, this`cleanupAuthorized, this`fuel, this`token
      ensures Safe() && (token ==> old(token) && !o.Died?)
      ensures cleanupAuthorized && !old(cleanupAuthorized) ==> old(recoveryRequired) && planned && inspection.NoJob? && !writer.Active?
      ensures run == old(run) || (run.Cleanup? && cleanupAuthorized)
      ensures o.Returned? <==> old(MayGiveUp(inspection)) && old(fuel) >= 1
      ensures Now() == if o.Returned? then old(Now()).(run := Cleanup, marked := false) else old(Now())
      ensures (Stuck() <==> old(Stuck())) && (Stranded() ==> old(Stranded()))
      ensures !old(recoveryRequired) ==> o.Raised?
      ensures o.Died? ==> old(fuel) == 0
    {
      if !recoveryRequired || run.Success? || run.Failed? { return Raised; }
      if !planned || !inspection.NoJob? { return Raised; }
      var dead := Spend();
      if dead { return Died; }
      run, recoveryRequired, cleanupAuthorized := Cleanup, false, true;
      return Returned;
    }

    /** The outcome of the job is on record, so that clearing the recovery mark lets nothing go on. */
    predicate ResumesTooLate(steps: nat)
      reads this
    {
      run.BackingUp? && recoveryRequired && (external.Completed? || external.Unknown?) && steps >= 1
    }

    /** The operator lets a run go on where it stopped. */
    method RecoveryResume() returns (o: Outcome)
      requires Safe()
      modifies this`recoveryRequired, this`fuel, this`token
      ensures Safe() && (token ==> old(token) && !o.Died?) && (recoveryRequired ==> old(recoveryRequired))
      ensures Stuck() <==> old(Stuck()) || old(ResumesTooLate(fuel))
      ensures o == if old(!recoveryRequired || run.Recovering?) then Raised else if old(fuel) == 0 then Died else Returned
      ensures o.Returned? <==> recoveryRequired != old(recoveryRequired)
    {
      if !recoveryRequired || run.Recovering? { return Raised; }
      var dead := Spend();
      if dead { return Died; }
      recoveryRequired := false;
      return Returned;
    }

    /** Recovers the reclaim that interrupted a start, after which the run may try to start again. A process
        that dies between the two leaves a run that this never moves again. */
    method ResumeRecovery(recovers: bool) returns (o: Outcome)
      requires Safe()
      modifies this`run, this`recoveryRequired, this`reclaim, this`fuel, this`token
      ensures Safe() && (token ==> old(token) && !o.Died?)
      ensures run == old(run) || (old(run).Recovering? && run.BackingUp? && old(reclaim).NeedsRecovery? && reclaim.Recovered?)
      ensures Now() ==
        if old(run.Recovering? && reclaim.NeedsRecovery?) && recovers && old(fuel) >= 2
        then old(Now()).(run := BackingUp, marked := false) else old(Now())
      ensures !o.Raised?
      ensures Stranded() <==> old(Stranded()) || (old(run).Recovering? && old(reclaim).NeedsRecovery? && recovers && old(fuel) == 1)
      ensures Stuck() <==> old(Stuck())
    {
      if !run.Recovering? || !reclaim.NeedsRecovery? || !recovers { return Returned; }
      var dead := Spend();
      if dead { return Died; }
      reclaim := Recovered;
      dead := Spend();
      if dead { return Died; }
      run, recoveryRequired := BackingUp, false;
      return Returned;
    }

    /** The external job ends on its own. */
    method WriterFinishes()
      requires Safe()
      modifies this`writer
      ensures Safe() && writer == if old(writer).Active? then Finished else old(writer)
    {
      if writer.Active? { writer := Finished; }
    }
  }

  datatype Event =
    | Tick(owned: bool, world: World, budget: nat)
    | CleanupTick(inspection: Inspection, removes: bool, budget: nat)
    | OperatorFail(inspection: Inspection, budget: nat)
    | OperatorResume(budget: nat)
    | ReclaimRecovery(recovers: bool, budget: nat)
    | WriterEnds

  /** The observations of an event are true of the writer as it is then. */
  predicate TruthfulEvent(e: Event, writer: Writer) {
    match e
    case Tick(_, world, _) => Truthful(world.inspection, writer)
    case CleanupTick(inspection, _, _) => Truthful(inspection, writer)
    case OperatorFail(inspection, _) => Truthful(inspection, writer)
    case _ => true
  }

  /** The events that leave a run stuck: a process that dies between two commits that belong together, and
      an operator who clears the recovery mark of a run whose outcome is on record. */
  predicate Sticks(r: BackupRun, e: Event)
    reads r
  {
    match e
    case Tick(owned, world, budget) => r.DiesBetweenCommits(world, owned, budget)
    case OperatorResume(budget) => r.ResumesTooLate(budget)
    case _ => false
  }

  /** A tick that saw the job completed by a successful backup in an idle domain. */
  predicate ShowsCompletion(e: Event) {
    e.Tick? && CompletedBackup(e.world.inspection, e.world.completed)
  }

  /** A tick that saw the job active with the identity of this run. */
  predicate ShowsMatch(e: Event) {
    e.Tick? && e.world.inspection.Match?
  }

  /** The `i`-th event proves the job completed, and the job is known as this run's own: an earlier event saw
      it active, or the process that started it takes this step under an ownership token. */
  predicate Evidence(events: seq<Event>, i: int) {
    && 0 <= i < |events| && ShowsCompletion(events[i])
    && (events[i].owned || exists j :: 0 <= j < i && ShowsMatch(events[j]))
  }

  /** Every schedule of steps, crashes, operator decisions and job endings. An event whose observation
      would be false of the writer does not happen. A run that is stuck stays so for ever. A run that went
      past its transfer, and so every SUCCESS, has the evidence for it among the events. */
  method Run(r: BackupRun, events: seq<Event>)
    requires r.Safe()
    modifies r
    ensures r.Safe()
    ensures old(r.Stuck()) ==> r.Stuck()
    ensures PastTransfer(r.run) ==> old(PastTransfer(r.run) || r.activeMatch) || exists i :: Evidence(events, i)
    ensures PastTransfer(r.run) ==> old(PastTransfer(r.run)) || exists e :: e in events && ShowsCompletion(e)
  {
    for i := 0 to |events|
      invariant r.Safe() && (old(r.Stuck()) ==> r.Stuck())
      invariant r.activeMatch ==> old(r.activeMatch) || exists j :: 0 <= j < i && ShowsMatch(events[j])
      invariant PastTransfer(r.run) ==> old(PastTransfer(r.run) || r.activeMatch) || exists k :: Evidence(events, k)
      invariant PastTransfer(r.run) ==> old(PastTransfer(r.run)) || exists e :: e in events && ShowsCompletion(e)
    {
      assert events[i] in events;
      ghost var past := PastTransfer(r.run);
      if TruthfulEvent(events[i], r.writer) { Step(r, events[i]); }
      assert PastTransfer(r.run) && !past && !old(r.activeMatch) ==> Evidence(events, i);
    }
  }

  /** One step by a process that dies after so many of its own steps, with or without an ownership token. */
  method TickOnce(r: BackupRun, owned: bool, world: World, budget: nat)
    requires r.Safe() && Truthful(world.inspection, r.writer)
    modifies r
    ensures r.Safe()
    ensures r.Stuck() <==> old(r.Stuck() || r.DiesBetweenCommits(world, owned, budget))
    ensures r.Stranded() <==> old(r.Stranded())
    ensures PastTransfer(r.run) && !old(PastTransfer(r.run)) ==>
      CompletedBackup(world.inspection, world.completed) && old(r.Identified(owned))
    ensures r.activeMatch && !old(r.activeMatch) ==> world.inspection.Match?
    ensures r.run.Success? && !old(r.run).Success? ==> old(r.run).Finalizing? && world.publishes
  {
    r.fuel, r.token := budget, owned;
    var o := r.AdvanceRun(world);
  }

  /** One event. It leaves the run stuck exactly when the run was stuck before or the event is one of those
      that stick it; and only an operator who gives it up moves a run whose reclaim was recovered without
      it. */
  method Step(r: BackupRun, e: Event)
    requires r.Safe() && TruthfulEvent(e, r.writer)
    modifies r
    ensures r.Safe()
    ensures e.CleanupTick? && e.budget >= 2 ==> r.Now() == old(r.AfterCleanup(e.inspection, e.removes))
    ensures e.OperatorFail? && e.budget >= 1 && old(r.MayGiveUp(e.inspection)) ==> r.run.Cleanup? && !r.recoveryRequired
    ensures r.Stuck() <==> old(r.Stuck()) || old(Sticks(r, e))
    ensures PastTransfer(r.run) && !old(PastTransfer(r.run)) ==> ShowsCompletion(e) && old(r.Identified(e.owned))
    ensures r.activeMatch && !old(r.activeMatch) ==> ShowsMatch(e)
    ensures r.run.Success? && !old(r.run).Success? ==> old(r.run).Finalizing? && e.Tick? && e.world.publishes
    ensures old(r.Stranded()) && !r.Stranded() ==> e.OperatorFail? && r.run.Cleanup?
    ensures !old(r.Stranded()) ==>
      (r.Stranded() <==> e.ReclaimRecovery? && e.recovers && e.budget == 1 && old(r.run.Recovering? && r.reclaim.NeedsRecovery?))
  {
    var o;
    match e {
      case Tick(owned, world, budget) => TickOnce(r, owned, world, budget);
      case CleanupTick(inspection, removes, budget) =>
        r.fuel := budget;
        o := r.AdvanceCleanup(inspection, removes);
      case OperatorFail(inspection, budget) =>
        r.fuel := budget;
        o := r.RecoveryFail(inspection);
      case OperatorResume(budget) =>
        r.fuel := budget;
        o := r.RecoveryResume();
      case ReclaimRecovery(recovers, budget) =>
        r.fuel := budget;
        o := r.ResumeRecovery(recovers);
      case WriterEnds => r.WriterFinishes();
    }
  }

  // ---- The states in which runs stay ----

  /** A step in which everything works. */
  function Smooth(inspection: Inspection, completed: CompletedJob): World {
    World(true, StartConditions(true, Enough, true, 0, Accepted), inspection, completed, 1, Returned, true)
  }

  /** A new run, taken to the start of its job. */
  method Planned() returns (r: BackupRun)
    ensures fresh(r) && r.Safe() && r.run.BackingUp? && r.external.Planned?
    ensures !r.recoveryRequired && !r.staging && r.reclaim.NoReclaim?
  {
    r := new BackupRun();
    var w := Smooth(Unclear, NoRecord);
    for i := 0 to 4
      invariant fresh(r) && r.Safe() && r.external.Planned? && !r.recoveryRequired && !r.staging && r.reclaim.NoReclaim?
      invariant r.run == if i == 0 then Scheduled else if i == 1 then Queued else if i == 2 then Precheck else if i == 3 then Preparing else BackingUp
    {
      r.fuel := 2;
      var o := r.AdvanceRun(w);
    }
  }

  /** A new run, taken to where its job is running. */
  method Underway() returns (r: BackupRun)
    ensures fresh(r) && r.Safe() && r.Begun()
  {
    r := Planned();
    r.fuel := 4;
    var o := r.AdvanceRun(Smooth(Unclear, NoRecord));
  }

  /** A run whose job was begun, and whose every later step works, ends in SUCCESS without a mark: the job is
      seen active, or completes under the process that started it, and its files are verified and published. */
  method Complete(r: BackupRun, artifacts: nat, polls: nat, owned: bool)
    requires r.Safe() && r.Begun() && (r.activeMatch || owned || polls > 0)
    modifies r
    ensures r.Safe() && r.run.Success? && !r.recoveryRequired && r.external.Completed?
    ensures r.begins == 1 && r.writer.Finished?
  {
    var active := Smooth(Match, NoRecord);
    for i := 0 to polls
      invariant r.Safe() && r.Begun() && (r.activeMatch || owned || polls > i)
    {
      r.fuel := StepsOf(active);
      var o := r.AdvanceRun(active);
    }
    r.WriterFinishes();
    var done := Smooth(NoJob, SuccessfulBackup).(artifacts := artifacts);
    for i := 0 to 4
      invariant r.Safe() && !r.recoveryRequired && r.begins == 1 && r.writer.Finished?
      invariant r.run == if i == 0 then BackingUp else if i == 1 then Transferring else if i == 2 then Verifying else if i == 3 then Finalizing else Success
      invariant i == 0 ==> r.external.Running? && (r.activeMatch || (owned && r.startedAt))
      invariant i > 0 ==> r.external.Completed?
    {
      r.fuel, r.token := StepsOf(done), owned;
      var o := r.AdvanceRun(done);
    }
  }

  /** So does a new run. */
  method HealthyRun(artifacts: nat, polls: nat, owned: bool) returns (r: BackupRun)
    requires owned || polls > 0
    ensures r.Safe() && r.run.Success? && !r.recoveryRequired && r.external.Completed?
    ensures r.begins == 1 && r.writer.Finished?
  {
    r := Underway();
    Complete(r, artifacts, polls, owned);
  }

  /** The process dies after it recorded the completion: the run stays in BACKING_UP for ever. */
  method DiedAfterCompletion() returns (stuck: bool, external: ExternalState)
    ensures stuck && external.Completed?
  {
    var r := Underway();
    r.WriterFinishes();
    r.fuel, r.token := 3, true;
    var o := r.AdvanceRun(Smooth(NoJob, SuccessfulBackup));
    return r.Stuck(), r.external;
  }

  /** The process dies after it recorded an unknown outcome, before it asked for recovery. */
  method DiedInQuarantine() returns (stuck: bool, writer: Writer)
    ensures stuck && writer.Active?
  {
    var r := Underway();
    r.fuel := 1;
    var o := r.AdvanceRun(Smooth(Mismatch, NoRecord));
    return r.Stuck(), r.writer;
  }

  /** The operator resumes a run whose outcome is unknown. */
  method ResumedTooLate() returns (stuck: bool)
    ensures stuck
  {
    var r := Underway();
    r.fuel := 2;
    var o := r.PollRunning(Mismatch, NoRecord, 0, false);
    r.fuel := 1;
    o := r.RecoveryResume();
    return r.Stuck();
  }

  /** The process dies after it recovered the reclaim of a run, before the run went back to its start. */
  method DiedAfterReclaimRecovery() returns (stranded: bool)
    ensures stranded
  {
    var r := Planned();
    r.fuel := 2;
    var o := r.AdvanceRun(Smooth(Unclear, NoRecord).(start := StartConditions(true, ReclaimBreaks, true, 0, Accepted)));
    r.fuel := 1;
    o := r.ResumeRecovery(true);
    return r.Stranded();
  }
}
