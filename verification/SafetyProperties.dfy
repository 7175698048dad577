/** What every run of the runtime keeps: calls and worker iterations in any order, whatever the
    hardware answers. */
module SafetyProperties {
  import opened Results
  import opened SafetyState

  datatype Step =
    | Connect(c: Connecting)
    | Enable(e: Enabling)
    | Disable(d: Disabling, faultReported: bool)
    | SetPower(b: Batch)
    | QueryPower(complete: bool, snapshot: Snapshot)
    | Maintain(op: Operation, m: Maintenance)
    | TimeOutClearing(faultReported: bool)
    | Estop(hold: Hold)
    | Close(d: Disabling, faultReported: bool)
    | GripperFailed(captured: bool, hold: Hold)
    | TakeOver
    | AcceptCommand
    | PlanCommand(active: bool)
    | Work(it: Iteration)
    | BeginRecovery(r: Recovering)
    | EnableRecovery(e: Enabling, faultReported: bool, fallback: Disabling)
    | PollRecovery(feedback: bool, reached: bool, faultReported: bool, fallback: Disabling)
    | GiveUpRecovery(faultReported: bool, fallback: Disabling)
    | FinishRecovery(d: Disabling, faultReported: bool, fallback: Disabling)

  /** Whether commands are accepted. */
  predicate Accepting(s: State) {
    Controlled(s.mode) && !s.faultLatched
  }

  predicate RoundsFull(rounds: seq<Round>, motors: nat) {
    forall i :: 0 <= i < |rounds| ==> |rounds[i].snapshot| == motors
  }

  predicate DisablingFull(d: Disabling, motors: nat) {
    RoundsFull(d.first, motors) && RoundsFull(d.second, motors)
  }

  predicate EnablingFull(e: Enabling, motors: nat) {
    e.WithCallback? ==>
      DisablingFull(e.rollback, motors) && forall i :: 0 <= i < |e.rounds| ==> |e.rounds[i].snapshot| == motors
  }

  /** Every snapshot the hardware answers with has one reading for each motor of the product. */
  predicate Answered(step: Step, motors: nat) {
    match step
    case Connect(c) => |c.snapshot| == motors
    case Enable(e) => EnablingFull(e, motors)
    case Disable(d, _) => DisablingFull(d, motors)
    case SetPower(b) => |b.after| == motors
    case QueryPower(_, snapshot) => |snapshot| == motors
    case Maintain(_, m) => |m.before.snapshot| == motors == |m.after.snapshot|
    case Close(d, _) => DisablingFull(d, motors)
    case Work(it) => |it.snapshot| == motors
    case BeginRecovery(r) =>
      && |r.connecting.snapshot| == motors == |r.health|
      && DisablingFull(r.disabling, motors) && DisablingFull(r.fallback, motors)
    case EnableRecovery(e, _, fallback) => EnablingFull(e, motors) && DisablingFull(fallback, motors)
    case PollRecovery(_, _, _, fallback) => DisablingFull(fallback, motors)
    case GiveUpRecovery(_, fallback) => DisablingFull(fallback, motors)
    case FinishRecovery(d, _, fallback) => DisablingFull(d, motors) && DisablingFull(fallback, motors)
    case _ => true
  }

  /** Calls that hold the lifecycle lock wait for a recovery to end; commands and the worker do not. */
  predicate Enabled(s: State, step: Step, config: Config) {
    Answered(step, config.motors) && Possible(s, step)
  }

  predicate Possible(s: State, step: Step) {
    match step
    case TimeOutClearing(_) => s.clearing
    case GripperFailed(_, _) => Accepting(s)
    case TakeOver => s.recovery == NoRecovery && (s.mode == Mode.Enabled || s.mode == Running) && !s.faultLatched
    case AcceptCommand => Accepting(s)
    case PlanCommand(_) => Accepting(s)
    case Work(_) => true
    case EnableRecovery(_, _, _) => s.recovery == Prepared
    case PollRecovery(_, _, _, _) => s.recovery == Homing
    case GiveUpRecovery(_, _) => s.recovery == Homing
    case FinishRecovery(_, _, _) => s.recovery == Arrived
    case _ => s.recovery == NoRecovery
  }

  function Next(s: State, step: Step, config: Config): State {
    match step
    case Connect(c) => Connected(s, c)
    case Enable(e) => EnabledBy(s, e)
    case Disable(d, faultReported) => DisabledBy(s, d, faultReported)
    case SetPower(b) => PoweredBy(s, b)
    case QueryPower(complete, snapshot) => QueriedBy(s, complete, snapshot)
    case Maintain(op, m) => Maintained(s, op, m)
    case TimeOutClearing(faultReported) => ClearingTimedOut(s, faultReported)
    case Estop(hold) => EmergencyStopped(s, hold)
    case Close(d, faultReported) => Closed(s, d, faultReported)
    case GripperFailed(captured, hold) => GripperSendFailed(s, captured, hold)
    case TakeOver => s.(mode := Running)
    case AcceptCommand => s.(activity := s.activity.(accepted := true))
    case PlanCommand(active) => s.(activity := s.activity.(planning := active))
    case Work(it) => Iterated(s, it, config)
    case BeginRecovery(r) => RecoveryBegun(s, r)
    case EnableRecovery(e, faultReported, fallback) => RecoveryEnabled(s, e, faultReported, fallback)
    case PollRecovery(feedback, reached, faultReported, fallback) =>
      RecoveryPolled(s, feedback, reached, faultReported, fallback)
    case GiveUpRecovery(faultReported, fallback) => RecoveryFailed(s, faultReported, fallback)
    case FinishRecovery(d, faultReported, fallback) => RecoveryFinished(s, d, faultReported, fallback)
  }

  /** The state after a run; steps that are not enabled do not happen. */
  function Run(steps: seq<Step>, config: Config): State {
    if |steps| == 0 then Initial()
    else
      var before := Run(steps[..|steps| - 1], config);
      if Enabled(before, steps[|steps| - 1], config) then Next(before, steps[|steps| - 1], config) else before
  }

  // ---------- What the worker may do ----------

  /** The modes the worker may lead to. */
  predicate WorkerMoves(from: Mode, to: Mode) {
    || to == from
    || (from != Disconnected && to == Fault)
    || (Controlled(from) && to == SafeStop)
    || (from == Mode.Enabled && (to == Running || to == Degraded))
    || (from == Running && to == Degraded)
  }

  /** What the worker never touches. */
  predicate Same(s: State, s': State) {
    s'.estop == s.estop && s'.recovery == s.recovery && s'.stopping == s.stopping && s'.clearing == s.clearing
    && (s.mode == Disconnected ==> s'.faultLatched == s.faultLatched)
  }

  /** Faults are latched exactly while the runtime reads FAULT, and powered motors are never taken
      for disabled. */
  ghost predicate Consistent(s: State) {
    && (s.mode != Disconnected ==> (s.faultLatched <==> s.mode == Fault))
    && (s.mode == Mode.Enabled || s.mode == Running || s.mode == PartiallyEnabled ==> !s.disableConfirmed)
  }

  /** How long feedback may have been missing in each mode. */
  ghost predicate Escalating(s: State, c: Config) {
    && (s.mode == Mode.Enabled ==> s.failures.feedback == 0)
    && (s.mode == Running ==> s.failures.feedback < c.feedbackThreshold)
    && (s.mode == Degraded ==> s.failures.feedback < 3 * c.feedbackThreshold)
  }

  /** One stage of the worker, or several: a preorder. */
  ghost predicate WorkerStep(s: State, s': State, c: Config) {
    && Same(s, s') && WorkerMoves(s.mode, s'.mode) && (Consistent(s) ==> Consistent(s'))
    && (0 < c.feedbackThreshold && Escalating(s, c) ==> Escalating(s', c))
  }

  lemma WorkerStepsCompose(s: State, t: State, u: State, c: Config)
    requires WorkerStep(s, t, c) && WorkerStep(t, u, c)
    ensures WorkerStep(s, u, c)
  {
  }

  lemma FaultedStep(s: State, hold: Hold, c: Config)
    ensures WorkerStep(s, Faulted(s, hold, true), c)
    ensures Faulted(s, hold, true).mode == if s.mode == Disconnected then Disconnected else Fault
  {
  }

  lemma StoppedStep(s: State, hold: Hold, c: Config)
    ensures WorkerStep(s, StoppedOrFaulted(s, hold), c) || s.mode == SafeHold
    ensures var mode := StoppedOrFaulted(s, hold).mode;
            mode == SafeStop || mode == Fault || (s.mode == Disconnected && mode == Disconnected)
  {
    hide Faulted;
    var prepared := Holding(s, hold.Any());
    FaultedStep(prepared, hold, c);
    SameModeStep(s, prepared, c);
    if !Stopped(s, hold).1 {
      WorkerStepsCompose(s, prepared, Faulted(prepared, hold, true), c);
    }
  }

  /** Changes of counters and activity alone. */
  lemma SameModeStep(s: State, s': State, c: Config)
    requires s' == s.(activity := s'.activity, failures := s'.failures, motorFault := s'.motorFault)
    requires s'.failures.feedback <= s.failures.feedback
    ensures WorkerStep(s, s', c)
  {
  }

  lemma TransmittedStep(s: State, user: bool, newGripper: bool, c: Config)
    ensures WorkerStep(s, Transmitted(s, user, newGripper), c)
  {
  }

  lemma ControlStep(s: State, it: Iteration, c: Config)
    ensures WorkerStep(s, ControlStage(s, it, c).0, c)
  {
    hide Transmitted, StoppedOrFaulted, WorkerStep;
    var s' := ControlStage(s, it, c).0;
    if !Controlled(s.mode) || !it.controlDue {
      SameModeStep(s, s, c);
    } else {
      match it.control
      case Sent(user, newGripper) =>
        var sent := Transmitted(s, user, newGripper);
        TransmittedStep(s, user, newGripper, c);
        assert s' == sent.(failures := s.failures.(sends := 0)) && sent.failures == s.failures by {
          TransmittedFailures(s, user, newGripper);
        }
        SameModeStep(sent, s', c);
        WorkerStepsCompose(s, sent, s', c);
      case NotSent(counted) =>
        var missed := if counted then s.(failures := s.failures.(sends := s.failures.sends + 1)) else s;
        SameModeStep(s, missed, c);
        StoppedStep(missed, it.hold, c);
        if s' != missed {
          WorkerStepsCompose(s, missed, s', c);
        }
    }
  }

  lemma TransmittedFailures(s: State, user: bool, newGripper: bool)
    ensures Transmitted(s, user, newGripper).failures == s.failures
  {
  }

  lemma MissingStopped(s: State, fault: bool, s': State, c: Config)
    requires WorkerStep(Missing(s, fault), s', c) && (s'.mode == SafeStop || s'.mode == Fault)
    ensures WorkerStep(s, s', c)
  {
  }

  lemma MissingKept(s: State, fault: bool, c: Config)
    requires s.mode == Running ==> s.failures.feedback + 1 < c.feedbackThreshold
    requires s.mode == Degraded ==> s.failures.feedback + 1 < 3 * c.feedbackThreshold
    requires Watched(s)
    ensures WorkerStep(s, Missing(s, fault), c)
  {
  }

  lemma MissingDegraded(s: State, fault: bool, c: Config)
    requires s.mode == Running
    ensures WorkerStep(s, Missing(s, fault).(mode := Degraded), c)
  {
  }

  lemma MissedStep(s: State, it: Iteration, c: Config)
    requires Watched(s)
    ensures WorkerStep(s, FeedbackMissed(s, it, c), c)
  {
    hide FeedbackSevere, AnyFault, StoppedOrFaulted, Faulted, WorkerStep;
    var fault := AnyFault(it.snapshot);
    var failed := Missing(s, fault);
    assert failed.mode == s.mode && failed.failures.feedback == s.failures.feedback + 1;
    hide Missing;
    if FeedbackSevere(s, it) {
      FaultedStep(failed, it.hold, c);
      MissingStopped(s, fault, Faulted(failed, it.hold, true), c);
    } else if s.mode == Degraded && 3 * c.feedbackThreshold <= failed.failures.feedback {
      StoppedStep(failed, it.hold, c);
      MissingStopped(s, fault, StoppedOrFaulted(failed, it.hold), c);
    } else if s.mode == Running && c.feedbackThreshold <= failed.failures.feedback {
      MissingDegraded(s, fault, c);
    } else {
      MissingKept(s, fault, c);
    }
  }

  lemma FeedbackStep(due: bool, s: State, it: Iteration, c: Config)
    ensures WorkerStep(s, FeedbackStage(due, s, it, c).0, c)
  {
    hide FeedbackHealthy, FeedbackMissed, Watched, WorkerStep;
    if !due || !Watched(s) || FeedbackHealthy(s, it) {
      SameModeStep(s, FeedbackStage(due, s, it, c).0, c);
    } else {
      MissedStep(s, it, c);
    }
  }

  lemma GripperStep(due: bool, s: State, it: Iteration, c: Config)
    ensures WorkerStep(s, GripperStage(due, s, it).0, c)
  {
    hide Transmitted, StoppedOrFaulted, Faulted, WorkerStep;
    if !due || !Controlled(s.mode) {
      SameModeStep(s, s, c);
    } else {
      match it.gripper
      case GripperSent(newCommand) => TransmittedStep(s, false, newCommand, c);
      case GripperFault => FaultedStep(s, it.hold, c);
      case GripperNotSent =>
        var counted := s.(failures := s.failures.(sends := s.failures.sends + 1));
        SameModeStep(s, counted, c);
        StoppedStep(counted, it.hold, c);
        WorkerStepsCompose(s, counted, StoppedOrFaulted(counted, it.hold), c);
    }
  }

  /** After one more hold that could not be sent. */
  function HoldMissed(s: State): State {
    s.(failures := Failures(s.failures.sends + 1, s.failures.feedback, s.failures.holds + 1))
  }

  lemma HoldMissedStep(s: State, c: Config)
    ensures WorkerStep(s, HoldMissed(s), c) && HoldMissed(s).mode == s.mode
  {
  }

  lemma HoldStep(due: bool, s: State, it: Iteration, c: Config)
    ensures WorkerStep(s, HoldStage(due, s, it, c), c)
  {
    hide Faulted, WorkerStep;
    var s' := HoldStage(due, s, it, c);
    if !due || it.holdSent || (s.mode != SafeHold && s.mode != SafeStop && s.mode != Fault) {
      SameModeStep(s, s', c);
    } else {
      var failed := HoldMissed(s);
      HoldMissedStep(s, c);
      FaultedStep(failed, it.hold, c);
      WorkerStepsCompose(s, failed, Faulted(failed, it.hold, true), c);
    }
  }

  lemma StagedStep(s: State, feedbackDue: bool, gripperDue: bool, holdDue: bool, it: Iteration, c: Config)
    ensures WorkerStep(s, Staged(s, feedbackDue, gripperDue, holdDue, it, c), c)
  {
    hide ControlStage, FeedbackStage, GripperStage, HoldStage, WorkerStep;
    var (controlled, done) := ControlStage(s, it, c);
    ControlStep(s, it, c);
    if !done {
      var (checked, over) := FeedbackStage(feedbackDue, controlled, it, c);
      FeedbackStep(feedbackDue, controlled, it, c);
      WorkerStepsCompose(s, controlled, checked, c);
      if !over {
        var (gripped, ended) := GripperStage(gripperDue, checked, it);
        GripperStep(gripperDue, checked, it, c);
        WorkerStepsCompose(s, checked, gripped, c);
        if !ended {
          HoldStep(holdDue, gripped, it, c);
          WorkerStepsCompose(s, gripped, HoldStage(holdDue, gripped, it, c), c);
        }
      }
    }
  }

  /** An iteration only ever moves towards a stop, keeps latches and modes consistent, and
      escalates missing feedback in time. */
  lemma IteratedStep(s: State, it: Iteration, c: Config)
    ensures WorkerStep(s, Iterated(s, it, c), c)
  {
    hide Staged, StoppedOrFaulted;
    if !s.stopping && (GraceExpired(s, it) || WatchdogExpired(s, it)) {
      StoppedStep(s, it.hold, c);
    } else {
      StagedStep(s, Watched(s) && it.feedbackDue, Controlled(s.mode) && it.gripperDue, HoldDue(s, it), it, c);
    }
  }

  // ---------- Readings ----------

  /** The step read status zero from every motor of the product after its last command to them. */
  ghost predicate VerifiedDisabled(step: Step, config: Config) {
    match step
    case Connect(c) => AllOff(c.snapshot, config)
    case Disable(d, _) => DisableRead(d, config)
    case SetPower(b) => AllOff(b.after, config)
    case QueryPower(_, snapshot) => AllOff(snapshot, config)
    case Maintain(_, m) => AllOff(m.after.snapshot, config)
    case BeginRecovery(r) => DisableRead(r.disabling, config) && AllOff(r.health, config)
    case FinishRecovery(d, _, _) => DisableRead(d, config)
    case _ => false
  }

  predicate AllOff(snapshot: Snapshot, config: Config) {
    |snapshot| == config.motors && AllDisabled(snapshot)
  }

  /** A confirming round of the transaction read every motor as disabled. */
  ghost predicate DisableRead(d: Disabling, config: Config) {
    exists round :: (round in d.first || round in d.second) && Confirms(round) && AllOff(round.snapshot, config)
  }

  lemma ConfirmedMeansDisabled(d: Disabling, config: Config)
    requires DisableSucceeds(d) && DisablingFull(d, config.motors)
    ensures DisableRead(d, config)
  {
    var rounds := if SomeConfirms(d.first) then d.first else d.second;
    var i :| 0 <= i < |rounds| && Confirms(rounds[i]);
    forall k | 0 <= k < |rounds[i].snapshot| ensures rounds[i].snapshot[k].status == Some(0) {
      assert !UnconfirmedAt(rounds[i], k);
    }
    assert rounds[i] in rounds;
  }

  // ---------- Leaving the abnormal states ----------

  /** Still abnormal, or READY after every motor was read as disabled, or shut down for good. */
  ghost predicate LeftSafely(s': State, step: Step, config: Config) {
    || Abnormal(s'.mode)
    || (s'.mode == Ready && VerifiedDisabled(step, config))
    || (s'.mode == Disconnected && s'.stopping)
  }

  lemma LeavingByRecovery(s: State, step: Step, config: Config)
    requires Consistent(s) && Enabled(s, step, config) && Abnormal(s.mode)
    requires step.BeginRecovery? || step.EnableRecovery? || step.PollRecovery? || step.GiveUpRecovery?
             || step.FinishRecovery?
    ensures LeftSafely(Next(s, step, config), step, config)
  {
    hide DisableSucceeds, AnyFault, EnableConfirmed, AllDisabled, DisabledBy, Connected;
    match step
    case FinishRecovery(d, _, _) =>
      if DisableSucceeds(d) {
        ConfirmedMeansDisabled(d, config);
      }
    case BeginRecovery(r) =>
      if DisableSucceeds(r.disabling) {
        ConfirmedMeansDisabled(r.disabling, config);
      }
    case _ =>
  }

  lemma LeavingByPower(s: State, step: Step, config: Config)
    requires Consistent(s) && Enabled(s, step, config) && Abnormal(s.mode)
    requires step.SetPower? || step.QueryPower? || step.Maintain? || step.TimeOutClearing?
    ensures LeftSafely(Next(s, step, config), step, config)
  {
    hide PowerOf, MaintenanceCode, AllDisabled, AllIndices;
    if step.Maintain? {
      MaintenanceVerifies(s, step.op, step.m);
    }
  }

  /** From an abnormal state the only ways out are READY, after every motor has been read as
      disabled, and the terminal shutdown. */
  lemma LeavingAbnormal(s: State, step: Step, config: Config)
    requires Consistent(s) && Enabled(s, step, config) && Abnormal(s.mode)
    ensures LeftSafely(Next(s, step, config), step, config)
  {
    hide Iterated, DisableSucceeds, AnyFault, EnableConfirmed, AllDisabled, PoweredBy, QueriedBy, Maintained,
      ClearingTimedOut, RecoveryBegun, RecoveryEnabled, RecoveryPolled, RecoveryFailed, RecoveryFinished;
    match step
    case Disable(d, _) =>
      if DisableSucceeds(d) {
        ConfirmedMeansDisabled(d, config);
      }
    case Work(it) => IteratedStep(s, it, config);
    case SetPower(_) => LeavingByPower(s, step, config);
    case QueryPower(_, _) => LeavingByPower(s, step, config);
    case Maintain(_, _) => LeavingByPower(s, step, config);
    case TimeOutClearing(_) => LeavingByPower(s, step, config);
    case BeginRecovery(_) => LeavingByRecovery(s, step, config);
    case EnableRecovery(_, _, _) => LeavingByRecovery(s, step, config);
    case PollRecovery(_, _, _, _) => LeavingByRecovery(s, step, config);
    case GiveUpRecovery(_, _) => LeavingByRecovery(s, step, config);
    case FinishRecovery(_, _, _) => LeavingByRecovery(s, step, config);
    case _ =>
  }

  lemma MaintenanceVerifies(s: State, op: Operation, m: Maintenance)
    ensures MaintenanceCode(s, op, m) == Ok ==> AllDisabled(m.after.snapshot)
    ensures MaintenanceCode(s, op, m) == Ok ==> s.mode == Ready || (op == ClearFaults && s.mode == Fault && !s.estop)
  {
  }

  /** After a terminal shutdown the runtime stays shut down, and leaves DISCONNECTED exactly if an attempt to
      clear faults that began before it runs out of time. */
  lemma AfterShutdown(s: State, step: Step, config: Config)
    requires Enabled(s, step, config) && s.mode == Disconnected && s.stopping && s.recovery == NoRecovery
    ensures var s' := Next(s, step, config);
            && s'.stopping && s'.recovery == NoRecovery
            && s'.mode == (if step.TimeOutClearing? then Fault else Disconnected)
  {
    hide DisableSucceeds, PowerOf, AnyFault, EnableConfirmed, AllDisabled;
  }

  lemma RunAppend(steps: seq<Step>, step: Step, config: Config)
    requires Enabled(Run(steps, config), step, config)
    ensures Run(steps + [step], config) == Next(Run(steps, config), step, config)
  {
    hide Next, Enabled;
    assert (steps + [step])[..|steps|] == steps;
  }

  const OFF: Reading := Reading(true, Some(0), true)

  /** Clearing faults whose final feedback does not arrive. */
  const UNANSWERED: Maintenance :=
    Maintenance(true, Round(true, {}, [OFF]), {}, true, true, Round(false, {0}, [OFF]), true, false)

  /** Connect one disabled motor, let clearing its faults go unanswered, shut down, and let clearing time out. */
  function LateClearing(): seq<Step> {
    [Connect(Connecting(false, true, [OFF])), Maintain(ClearFaults, UNANSWERED), Close(Disabling(true, [], []), false),
     TimeOutClearing(false)]
  }

  /** A reachable run in which a runtime that was shut down for good reads FAULT again. */
  lemma LateClearingFaultsAfterShutdown(feedbackThreshold: nat, holdThreshold: nat)
    ensures var config := Configuration(1, feedbackThreshold, holdThreshold);
            var before := Run(LateClearing()[..3], config);
            && before.mode == Disconnected && before.stopping && before.recovery == NoRecovery
            && Run(LateClearing(), config).mode == Fault
  {
    var config, steps := Configuration(1, feedbackThreshold, holdThreshold), LateClearing();
    assert Run([], config) == Initial();
    assert [] + [steps[0]] == steps[..1] && steps[..1] + [steps[1]] == steps[..2];
    assert steps[..2] + [steps[2]] == steps[..3] && steps[..3] + [steps[3]] == steps;
    hide Run;
    AfterConnect(config);
    RunAppend([], steps[0], config);
    RunAppend(steps[..1], steps[1], config);
    RunAppend(steps[..2], steps[2], config);
    RunAppend(steps[..3], steps[3], config);
  }

  const CONNECTED: State := Initial().(mode := Ready, disableConfirmed := true)

  lemma AfterConnect(config: Config)
    requires config.motors == 1
    ensures Enabled(Initial(), LateClearing()[0], config)
    ensures Next(Initial(), LateClearing()[0], config) == CONNECTED
    ensures Enabled(CONNECTED, LateClearing()[1], config)
    ensures var s := Next(CONNECTED, LateClearing()[1], config);
            && s == CONNECTED.(mode := Fault, faultLatched := true, disableConfirmed := false, clearing := true)
            && Enabled(s, LateClearing()[2], config)
            && var closed := Next(s, LateClearing()[2], config);
            && closed.mode == Disconnected && closed.stopping && closed.recovery == NoRecovery && closed.clearing
            && Enabled(closed, LateClearing()[3], config) && Next(closed, LateClearing()[3], config).mode == Fault
  {
    assert !AnyFault([OFF]) && AllDisabled([OFF]);
    assert MotorCodeFrom(ClearFaults, [OFF], {}, 1) == Ok;
  }

  // ---------- Invariants of every step ----------

  /** Outside a recovery, a latched emergency stop means a latched fault in FAULT or DISCONNECTED. */
  ghost predicate EstopHeld(s: State) {
    s.estop && s.recovery == NoRecovery ==> s.faultLatched && (s.mode == Fault || s.mode == Disconnected)
  }

  /** A recovery runs on a connected runtime only, and a shut-down one stays so. */
  ghost predicate RecoveryConnected(s: State) {
    s.recovery != NoRecovery ==> s.mode != Disconnected
  }

  ghost predicate Invariant(s: State, c: Config) {
    Consistent(s) && EstopHeld(s) && RecoveryConnected(s) && (0 < c.feedbackThreshold ==> Escalating(s, c))
  }

  lemma LifecycleKeeps(s: State, step: Step, config: Config)
    requires Invariant(s, config) && Enabled(s, step, config)
    requires step.Connect? || step.Enable? || step.Disable?
    ensures Invariant(Next(s, step, config), config)
  {
    hide DisableSucceeds, AnyFault, EnableConfirmed, AllDisabled;
  }

  lemma EndingKeeps(s: State, step: Step, config: Config)
    requires Invariant(s, config) && Enabled(s, step, config)
    requires step.Close? || step.Estop?
    ensures Invariant(Next(s, step, config), config)
  {
    hide DisableSucceeds, AnyFault, AllDisabled;
  }

  lemma PowerKeeps(s: State, step: Step, config: Config)
    requires Invariant(s, config) && Enabled(s, step, config)
    requires step.SetPower? || step.QueryPower?
    ensures Invariant(Next(s, step, config), config)
  {
    hide PowerOf, AllDisabled, AllIndices;
  }

  lemma MaintenanceKeeps(s: State, step: Step, config: Config)
    requires Invariant(s, config) && Enabled(s, step, config)
    requires step.Maintain? || step.TimeOutClearing?
    ensures Invariant(Next(s, step, config), config)
  {
    hide AllDisabled, MaintenanceCode;
    if step.Maintain? {
      MaintenanceVerifies(s, step.op, step.m);
    }
  }

  lemma CommandKeeps(s: State, step: Step, config: Config)
    requires Invariant(s, config) && Enabled(s, step, config)
    requires step.GripperFailed? || step.TakeOver? || step.AcceptCommand? || step.PlanCommand?
    ensures Invariant(Next(s, step, config), config)
  {
  }

  lemma WorkKeeps(s: State, it: Iteration, config: Config)
    requires Invariant(s, config)
    ensures Invariant(Iterated(s, it, config), config)
  {
    hide Iterated;
    IteratedStep(s, it, config);
  }

  lemma RecoveryKeeps(s: State, step: Step, config: Config)
    requires Invariant(s, config) && Enabled(s, step, config)
    requires step.BeginRecovery? || step.EnableRecovery? || step.PollRecovery? || step.GiveUpRecovery?
             || step.FinishRecovery?
    ensures Invariant(Next(s, step, config), config)
  {
    hide DisableSucceeds, AnyFault, EnableConfirmed, AllDisabled, EnabledBy, Connected, DisabledBy, RecoveryFailed,
      RecoveryPrepares, EnableSucceeds;
    match step
    case BeginRecovery(r) =>
      if s.mode == Disconnected {
        ConnectedShape(s, r.connecting);
        FailedShape(s, r.faultReported, r.fallback, config);
        CheckedShape(Connected(s, r.connecting), r, config);
      } else {
        CheckedShape(s, r, config);
      }
    case EnableRecovery(e, faultReported, fallback) =>
      EnabledShape(s, e, config);
      FailedShape(EnabledBy(s, e), faultReported, fallback, config);
    case FinishRecovery(d, faultReported, fallback) =>
      FailedShape(DisabledBy(s, d, faultReported), faultReported, fallback, config);
    case PollRecovery(_, _, faultReported, fallback) => FailedShape(s, faultReported, fallback, config);
    case GiveUpRecovery(faultReported, fallback) => FailedShape(s, faultReported, fallback, config);
  }

  lemma FailedShape(s: State, faultReported: bool, fallback: Disabling, config: Config)
    ensures var s' := RecoveryFailed(s, faultReported, fallback);
            Invariant(s', config) && s'.mode == Fault && s'.estop == s.estop && s'.stopping == s.stopping
  {
    hide DisableSucceeds;
  }

  lemma ConnectedShape(s: State, c: Connecting)
    ensures Connected(s, c).recovery == s.recovery && Connected(s, c).estop == s.estop
  {
    hide AnyFault, AllDisabled;
  }

  lemma CheckedShape(s: State, r: Recovering, config: Config)
    ensures var s' := RecoveryChecked(s, r);
            Invariant(s', config) && s'.estop == s.estop && (s'.mode == Fault || (s'.mode == Ready && RecoveryPrepares(r)))
  {
    hide DisableSucceeds, AllDisabled, RecoveryFailed;
    FailedShape(Frozen(s, DisableSucceeds(r.disabling)), r.faultReported, r.fallback, config);
    FailedShape(Frozen(s, true).(motorFault := false), r.faultReported, r.fallback, config);
  }

  lemma EnabledShape(s: State, e: Enabling, config: Config)
    ensures EnabledBy(s, e).estop == s.estop && EnabledBy(s, e).recovery == s.recovery
    ensures EnableSucceeds(s, e) ==>
              EnabledBy(s, e).mode == Mode.Enabled && EnabledBy(s, e).faultLatched == s.faultLatched == false
              && !EnabledBy(s, e).disableConfirmed && EnabledBy(s, e).failures.feedback == 0
  {
    hide DisableSucceeds, EnableConfirmed;
  }

  lemma NextIsIterated(s: State, it: Iteration, config: Config)
    ensures Next(s, Work(it), config) == Iterated(s, it, config)
  {
    hide Iterated;
  }

  lemma NextKeeps(s: State, step: Step, config: Config)
    requires Invariant(s, config) && Enabled(s, step, config)
    ensures Invariant(Next(s, step, config), config)
  {
    hide Next, Invariant, Enabled;
    match step
    case Connect(_) => LifecycleKeeps(s, step, config);
    case Enable(_) => LifecycleKeeps(s, step, config);
    case Disable(_, _) => LifecycleKeeps(s, step, config);
    case Close(_, _) => EndingKeeps(s, step, config);
    case Estop(_) => EndingKeeps(s, step, config);
    case SetPower(_) => PowerKeeps(s, step, config);
    case QueryPower(_, _) => PowerKeeps(s, step, config);
    case Maintain(_, _) => MaintenanceKeeps(s, step, config);
    case TimeOutClearing(_) => MaintenanceKeeps(s, step, config);
    case GripperFailed(_, _) => CommandKeeps(s, step, config);
    case TakeOver => CommandKeeps(s, step, config);
    case AcceptCommand => CommandKeeps(s, step, config);
    case PlanCommand(_) => CommandKeeps(s, step, config);
    case Work(it) =>
      assert Next(s, step, config) == Iterated(s, it, config) by { NextIsIterated(s, it, config); }
      WorkKeeps(s, it, config);
    case _ => RecoveryKeeps(s, step, config);
  }

  /** Over every run: faults are latched exactly in FAULT; powered modes never count as disabled; a
      latched emergency stop holds the runtime in FAULT or DISCONNECTED outside a recovery; and
      neither RUNNING nor DEGRADED outlasts its number of consecutive missing feedbacks. */
  lemma {:induction false} RunKeeps(steps: seq<Step>, config: Config)
    ensures Invariant(Run(steps, config), config)
  {
    hide Next, Enabled;
    if |steps| > 0 {
      var before := Run(steps[..|steps| - 1], config);
      RunKeeps(steps[..|steps| - 1], config);
      if Enabled(before, steps[|steps| - 1], config) {
        NextKeeps(before, steps[|steps| - 1], config);
      }
    }
  }

  /** The emergency stop is released only by the end of a recovery whose final disable was
      confirmed, every motor read as disabled. */
  lemma EstopReleased(s: State, step: Step, config: Config)
    requires Enabled(s, step, config) && s.estop && !Next(s, step, config).estop
    ensures step.FinishRecovery? && DisableSucceeds(step.d) && VerifiedDisabled(step, config)
    ensures Next(s, step, config).mode == Ready
  {
    hide VerifiedDisabled, DisableSucceeds;
    if step.FinishRecovery? {
      FinishVerifies(step, config);
    } else {
      hide Next;
      EstopKept(s, step, config);
    }
  }

  lemma EstopKept(s: State, step: Step, config: Config)
    requires s.estop && !step.FinishRecovery?
    ensures Next(s, step, config).estop
  {
    if step.Work? {
      hide Iterated;
      IteratedStep(s, step.it, config);
    } else {
      hide Connected, EnabledBy, DisabledBy, PoweredBy, QueriedBy, Finished, Faulted, GripperSendFailed, Closed,
        RecoveryFailed, RecoveryBegun, RecoveryEnabled, MaintenanceCode, Iterated;
    }
  }

  lemma FinishVerifies(step: Step, config: Config)
    requires step.FinishRecovery? && Answered(step, config.motors)
    ensures DisableSucceeds(step.d) ==> VerifiedDisabled(step, config)
  {
    if DisableSucceeds(step.d) {
      ConfirmedMeansDisabled(step.d, config);
    }
  }

  // ---------- The way back to power ----------

  predicate Powered(mode: Mode) {
    mode == Mode.Enabled || mode == Running || mode == PartiallyEnabled
  }

  /** Step k of the run entered READY having read every motor as disabled. */
  ghost predicate EntersReadyVerified(steps: seq<Step>, config: Config, k: nat) {
    && k < |steps| && Enabled(Run(steps[..k], config), steps[k], config)
    && Next(Run(steps[..k], config), steps[k], config).mode == Ready && VerifiedDisabled(steps[k], config)
  }

  /** Shut down for good, with no recovery going on. */
  predicate ShutDown(s: State) {
    s.stopping && s.recovery == NoRecovery && s.mode == Disconnected
  }

  lemma {:induction false} StaysAbnormal(steps: seq<Step>, config: Config, i: nat, j: nat)
    requires i <= j <= |steps| && Abnormal(Run(steps[..i], config).mode)
    ensures || Abnormal(Run(steps[..j], config).mode)
            || ShutDown(Run(steps[..j], config))
            || exists k: nat :: i <= k < j && EntersReadyVerified(steps, config, k)
    decreases j
  {
    hide Next, Enabled, VerifiedDisabled;
    if i < j {
      StaysAbnormal(steps, config, i, j - 1);
      var before := Run(steps[..j - 1], config);
      assert steps[..j][..j - 1] == steps[..j - 1];
      if Enabled(before, steps[j - 1], config) && (Abnormal(before.mode) || ShutDown(before)) {
        RunKeeps(steps[..j - 1], config);
        OneStepOn(before, steps[j - 1], config);
        if !Abnormal(Next(before, steps[j - 1], config).mode) && !ShutDown(Next(before, steps[j - 1], config)) {
          assert EntersReadyVerified(steps, config, j - 1);
        }
      }
    }
  }

  lemma OneStepOn(s: State, step: Step, config: Config)
    requires Invariant(s, config) && Enabled(s, step, config) && (Abnormal(s.mode) || ShutDown(s))
    ensures var s' := Next(s, step, config);
            Abnormal(s'.mode) || ShutDown(s') || (s'.mode == Ready && VerifiedDisabled(step, config))
  {
    if Abnormal(s.mode) {
      LeavingAbnormal(s, step, config);
      NextKeeps(s, step, config);
      hide Next, VerifiedDisabled, Enabled;
    } else {
      AfterShutdown(s, step, config);
      hide Next, VerifiedDisabled, Enabled;
    }
  }

  /** Over every run: between a moment in DEGRADED, SAFE_HOLD, SAFE_STOP or FAULT and a later one
      with motors enabled, READY was entered by a step that read every motor as disabled. */
  lemma PowerOnlyAfterVerifiedDisable(steps: seq<Step>, config: Config, i: nat, j: nat)
    requires i <= j <= |steps|
    requires Abnormal(Run(steps[..i], config).mode) && Powered(Run(steps[..j], config).mode)
    ensures exists k: nat :: i <= k < j && EntersReadyVerified(steps, config, k)
  {
    StaysAbnormal(steps, config, i, j);
  }

  // ---------- A lost channel ----------

  /** With no severe reading, a disconnected channel stops a running arm at once exactly if no channel before it is
      out of order but connected. */
  lemma LostChannelFaultsExactly(s: State, it: Iteration, config: Config, i: nat)
    requires s.mode == Running && i < |it.channels| && !it.channels[i].connected
    requires forall k: nat :: k < |it.snapshot| ==> !SevereAt(s, it.snapshot, k)
    ensures !FeedbackHealthy(s, it)
    ensures FeedbackMissed(s, it, config).mode == Fault
       <==> forall k: nat :: k < i && NamedChannel(it.channels, k) ==> !it.channels[k].connected
  {
    FirstIsNamed(it.channels, i);
    OneNamed(it.channels);
  }

  lemma {:induction false} FirstIsNamed(channels: seq<Channel>, i: nat)
    requires i < |channels| && !ChannelOk(channels[i])
    ensures exists k: nat :: k <= i && NamedChannel(channels, k)
    decreases i
  {
    if !ChannelsOk(channels[..i]) {
      var k :| 0 <= k < i && !ChannelOk(channels[..i][k]);
      assert channels[..i][k] == channels[k];
      FirstIsNamed(channels, k);
    } else {
      assert NamedChannel(channels, i);
    }
  }

  /** So the second channel can be lost behind a first one that is connected but unhealthy, without a fault: the arm
      runs on until the misses have lasted. */
  lemma LostBehindUnhealthy(s: State, it: Iteration, config: Config)
    requires s.mode == Running && it.channels == [Channel(true, true, false), Channel(true, false, false)]
    requires forall k: nat :: k < |it.snapshot| ==> !SevereAt(s, it.snapshot, k)
    ensures FeedbackMissed(s, it, config).mode
         == if config.feedbackThreshold <= s.failures.feedback + 1 then Degraded else Running
  {
    assert NamedChannel(it.channels, 0);
    OneNamed(it.channels);
  }
}
