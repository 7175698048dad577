/** The safety state of the runtime, what the hardware answers, and what every call makes of it
    (runtime/src/runtime.cpp, runtime_enable.cpp, runtime_maintenance.cpp, runtime_safety.cpp,
    runtime_commands.cpp, runtime_gripper.cpp, runtime_gravity.cpp). */
module SafetyState {
  import opened Results

  datatype Mode = Disconnected | Ready | Enabled | Running | SafeHold | Fault | Degraded | SafeStop | PartiallyEnabled

  /** Where a recovery is; while it runs it holds the lifecycle lock. */
  datatype Recovery = NoRecovery | Prepared | Homing | Arrived

  /** Commands: one was sent, one was accepted but not sent yet, one is being planned; whether a
      protective hold is being sent; and the motors that are disabled on purpose. */
  datatype Activity = Activity(successful: bool, accepted: bool, planning: bool, holding: bool, parked: set<nat>)

  /** Consecutive failures to send, to get feedback, and to hold. */
  datatype Failures = Failures(sends: nat, feedback: nat, holds: nat)

  /** Clearing says that the last attempt to clear faults may be repeated or timed out. */
  datatype State = State(mode: Mode, faultLatched: bool, estop: bool, motorFault: bool, disableConfirmed: bool,
                         stopping: bool, recovery: Recovery, clearing: bool, activity: Activity, failures: Failures)

  const NO_ACTIVITY: Activity := Activity(false, false, false, false, {})
  const NO_FAILURES: Failures := Failures(0, 0, 0)

  function Initial(): State {
    State(Disconnected, false, false, false, false, false, NoRecovery, false, NO_ACTIVITY, NO_FAILURES)
  }

  // ---------- What the motors report ----------

  /** One motor's feedback: status 0 is disabled, 1 enabled, anything else a fault. */
  datatype Reading = Reading(recent: bool, status: Option<nat>, finite: bool)

  type Snapshot = seq<Reading>

  predicate AllDisabled(snapshot: Snapshot) {
    forall i :: 0 <= i < |snapshot| ==> snapshot[i].status == Some(0)
  }

  predicate HasStatus(snapshot: Snapshot, i: nat, status: nat) {
    i < |snapshot| && snapshot[i].status == Some(status)
  }

  predicate FaultAt(snapshot: Snapshot, i: nat) {
    i < |snapshot| && snapshot[i].status.Some? && 1 < snapshot[i].status.value
  }

  predicate AnyFault(snapshot: Snapshot) {
    exists i: nat :: i < |snapshot| && FaultAt(snapshot, i)
  }

  datatype Power = AllOff | AllOn | Mixed | Unknown

  function PowerOf(snapshot: Snapshot): Power {
    if exists i: nat :: i < |snapshot| && (snapshot[i].status.None? || FaultAt(snapshot, i)) then Unknown
    else
      var on := exists i: nat :: i < |snapshot| && HasStatus(snapshot, i, 1);
      var off := exists i: nat :: i < |snapshot| && HasStatus(snapshot, i, 0);
      if on && off then Mixed else if on then AllOn else if off then AllOff else Unknown
  }

  /** One feedback request: complete, or naming the motors that did not answer. */
  datatype Round = Round(complete: bool, missing: set<nat>, snapshot: Snapshot)

  predicate UnconfirmedAt(round: Round, i: nat)
    requires i < |round.snapshot|
  {
    || (!round.complete && round.missing == {})
    || (i in round.missing && round.snapshot[i].status.Some?)
    || !round.snapshot[i].recent || round.snapshot[i].status != Some(0)
  }

  predicate Confirms(round: Round) {
    forall i: nat :: i < |round.snapshot| ==> !UnconfirmedAt(round, i)
  }

  /** A disable transaction: the queue barrier, the rounds before the deadline, and those after the
      one directed retry. */
  datatype Disabling = Disabling(barrier: bool, first: seq<Round>, second: seq<Round>)

  predicate SomeConfirms(rounds: seq<Round>) {
    exists i :: 0 <= i < |rounds| && Confirms(rounds[i])
  }

  predicate DisableSucceeds(d: Disabling) {
    d.barrier && (SomeConfirms(d.first) || SomeConfirms(d.second))
  }

  // ---------- Connecting ----------

  datatype Connecting = Connecting(cachedFault: bool, complete: bool, snapshot: Snapshot)

  predicate CanRevalidate(s: State) {
    s.mode == Fault && s.faultLatched && !s.estop && !s.motorFault
  }

  function Connected(s: State, c: Connecting): (s': State)
    ensures s'.estop == s.estop
  {
    if s.stopping then s
    else if s.mode != Disconnected && !CanRevalidate(s) then s
    else if s.mode != Disconnected && c.cachedFault then s.(motorFault := true)
    else if !c.complete then s
    else if s.mode != Disconnected && !AnyFault(c.snapshot) && !AllDisabled(c.snapshot) then
      s.(disableConfirmed := false)
    else
      var motorFault := s.motorFault || AnyFault(c.snapshot);
      s.(motorFault := motorFault, mode := if s.estop || motorFault then Fault else Ready,
         faultLatched := s.estop || motorFault, disableConfirmed := AllDisabled(c.snapshot))
  }

  // ---------- Enabling and disabling ----------

  /** One round of waiting for every motor to report enabled, and whether re-enabling one failed. */
  datatype EnableRound = EnableRound(complete: bool, snapshot: Snapshot, retryFails: bool)

  predicate FreshFault(snapshot: Snapshot) {
    exists i: nat :: i < |snapshot| && snapshot[i].recent && FaultAt(snapshot, i)
  }

  predicate AllEnabled(snapshot: Snapshot) {
    forall i: nat :: i < |snapshot| ==> snapshot[i].recent && HasStatus(snapshot, i, 1)
  }

  function EnableConfirmed(rounds: seq<EnableRound>, i: nat): bool
    requires i <= |rounds|
    decreases |rounds| - i
  {
    if i == |rounds| || FreshFault(rounds[i].snapshot) then false
    else if rounds[i].complete && AllEnabled(rounds[i].snapshot) then true
    else if rounds[i].retryFails then false
    else EnableConfirmed(rounds, i + 1)
  }

  /** Without a native enable callback the motors are taken as enabled; with one, preparing and
      enabling both sides has to work, then the initial hold, then every motor has to report enabled. */
  datatype Enabling =
    | WithoutCallback(mailbox: bool, seeded: bool)
    | WithCallback(prepared: bool, held: bool, rounds: seq<EnableRound>, faultReported: bool, rollback: Disabling)

  predicate MayEnable(s: State) {
    (s.mode == Ready || s.mode == PartiallyEnabled) && !s.faultLatched
  }

  function EnabledState(s: State): State {
    s.(mode := Enabled, disableConfirmed := false, failures := NO_FAILURES,
       activity := Activity(false, false, false, s.activity.holding, {}))
  }

  function EnabledBy(s: State, e: Enabling): (s': State)
    ensures s'.estop == s.estop
  {
    if !MayEnable(s) then s
    else
      match e
      case WithoutCallback(mailbox, seeded) => if mailbox then EnabledState(s) else s
      case WithCallback(prepared, held, rounds, faultReported, rollback) =>
        if prepared && held && EnableConfirmed(rounds, 0) then EnabledState(s)
        else
          var attempted := if prepared then EnabledState(s) else s;
          attempted.(mode := Fault, faultLatched := true, motorFault := s.motorFault || faultReported,
                     disableConfirmed := DisableSucceeds(rollback))
  }

  /** Whether the call returns rather than throws. */
  predicate EnableSucceeds(s: State, e: Enabling) {
    MayEnable(s) && match e
                    case WithoutCallback(mailbox, seeded) => mailbox && seeded
                    case WithCallback(prepared, held, rounds, _, _) => prepared && held && EnableConfirmed(rounds, 0)
  }

  function DisabledBy(s: State, d: Disabling, faultReported: bool): (s': State)
    ensures s'.estop == s.estop
  {
    if s.mode == Disconnected then s
    else
      var confirmed := DisableSucceeds(d);
      var idle := s.(disableConfirmed := confirmed,
                     activity := Activity(false, false, false, false, if confirmed then {} else s.activity.parked));
      if !confirmed then idle.(mode := Fault, faultLatched := true, motorFault := s.motorFault || faultReported)
      else if s.mode == Fault && s.faultLatched then idle
      else idle.(mode := Ready)
  }

  // ---------- Power of single motors ----------

  datatype Batch = Batch(enable: bool, canEnable: bool, selected: set<nat>, offBefore: set<nat>, succeeded: bool,
                         rolledBack: bool, rollbackConfirmed: bool, faultReported: bool, after: Snapshot)

  predicate Abnormal(mode: Mode) {
    mode == Degraded || mode == SafeHold || mode == SafeStop || mode == Fault
  }

  predicate MayPower(s: State, b: Batch) {
    && s.mode != Disconnected && !s.stopping
    && (b.enable ==> (s.mode == Ready || s.mode == PartiallyEnabled) && !s.faultLatched && b.canEnable)
  }

  function Parking(s: State, parked: set<nat>): Activity {
    s.activity.(parked := parked)
  }

  /** The motors parked once the transaction is through, before its outcome is looked at. */
  function ParkedBy(s: State, b: Batch): set<nat> {
    if !b.enable then s.activity.parked + b.selected
    else
      var noted := s.activity.parked + if s.mode == Ready then b.offBefore else {};
      if b.succeeded then noted - b.selected else noted + b.offBefore * b.selected
  }

  /** The outcome, before a success of enabling is recorded. */
  function PowerSettled(s: State, b: Batch, parked: set<nat>, off: bool): State {
    if b.enable && b.rolledBack && !b.rollbackConfirmed then
      s.(mode := Fault, faultLatched := true, motorFault := s.motorFault || b.faultReported,
         disableConfirmed := false, activity := Parking(s, parked))
    else if !b.enable && Abnormal(s.mode) then
      s.(disableConfirmed := off, activity := Parking(s, if off then parked + AllIndices(b.after) else parked))
    else if s.faultLatched then s.(disableConfirmed := off, activity := Parking(s, parked))
    else
      s.(disableConfirmed := off, mode := if off then Ready else PartiallyEnabled,
         activity := Parking(s, if off then {} else parked))
  }

  function PoweredBy(s: State, b: Batch): (s': State)
    ensures s'.estop == s.estop
  {
    if !MayPower(s, b) then s
    else
      var settled := PowerSettled(s, b, ParkedBy(s, b), PowerOf(b.after) == AllOff);
      if b.enable && b.succeeded && !settled.faultLatched
      then settled.(mode := PartiallyEnabled, disableConfirmed := false) else settled
  }

  predicate IsIndex(snapshot: Snapshot, i: nat) {
    i < |snapshot|
  }

  function AllIndices(snapshot: Snapshot): set<nat> {
    set i: nat | i < |snapshot| && IsIndex(snapshot, i)
  }

  /** Asking for the power state refreshes it while the runtime is ready or partially enabled. */
  function QueriedBy(s: State, complete: bool, snapshot: Snapshot): (s': State)
    ensures s'.estop == s.estop
  {
    if s.mode != Ready && s.mode != PartiallyEnabled then s
    else if !complete then s
    else
      var off := PowerOf(snapshot) == AllOff;
      s.(mode := if off then Ready else PartiallyEnabled, disableConfirmed := off)
  }

  // ---------- Maintenance ----------

  datatype Operation = ConfigureMode | ClearFaults | SetZero

  datatype Code = Ok | InvalidState | Transport | Feedback | NotDisabled | NotStationary | Unsupported | MotorCommand
                | Verification

  /** What the hardware answers during one maintenance transaction. */
  datatype Maintenance = Maintenance(transportOk: bool, before: Round, moving: set<nat>, supported: bool, commandsOk: bool,
                                     after: Round, settled: bool, faultReported: bool)

  /** The first motor from the i-th on that is not fit for the operation, or Ok. */
  function MotorCodeFrom(op: Operation, snapshot: Snapshot, moving: set<nat>, i: nat): Code
    requires i <= |snapshot|
    decreases |snapshot| - i
  {
    if i == |snapshot| then Ok
    else if snapshot[i].status.None? then Feedback
    else if op != ClearFaults && snapshot[i].status != Some(0) then NotDisabled
    else if !snapshot[i].finite then Feedback
    else if op == SetZero && i in moving then NotStationary
    else MotorCodeFrom(op, snapshot, moving, i + 1)
  }

  function Precheck(s: State, op: Operation, m: Maintenance): Code {
    if !(s.mode == Ready || (op == ClearFaults && s.mode == Fault && !s.estop)) then InvalidState
    else if !m.transportOk then Transport
    else if !m.before.complete then Feedback
    else MotorCodeFrom(op, m.before.snapshot, m.moving, 0)
  }

  function MaintenanceCode(s: State, op: Operation, m: Maintenance): Code {
    var precheck := Precheck(s, op, m);
    if precheck != Ok then precheck
    else if !m.supported then Unsupported
    else if !m.commandsOk then MotorCommand
    else if !m.after.complete then Feedback
    else if !AllDisabled(m.after.snapshot) || !m.settled then Verification
    else Ok
  }

  /** Which failures latch a fault. */
  predicate Latches(s: State, op: Operation, m: Maintenance) {
    var code := MaintenanceCode(s, op, m);
    code == Transport || code == Feedback || code == NotDisabled || code == MotorCommand || code == Verification
  }

  function Finished(s: State, op: Operation, code: Code, latch: bool, faultReported: bool): (s': State)
    ensures s'.estop == s.estop
  {
    if code == Ok then
      var ready := s.(mode := Ready, disableConfirmed := true);
      if op == ClearFaults then ready.(faultLatched := false, motorFault := false) else ready
    else if latch then
      s.(mode := Fault, faultLatched := true, motorFault := s.motorFault || faultReported, disableConfirmed := false)
    else s
  }

  function Maintained(s: State, op: Operation, m: Maintenance): State {
    var code := MaintenanceCode(s, op, m);
    Finished(s, op, code, Latches(s, op, m), m.faultReported).(
      clearing := op == ClearFaults && (code == Feedback || code == Verification))
  }

  function ClearingTimedOut(s: State, faultReported: bool): State {
    Finished(s, ClearFaults, Feedback, true, faultReported).(clearing := false)
  }

  // ---------- Faults and protective holds ----------

  /** The protective hold that could be prepared: for arms, and for grippers. */
  datatype Hold = Hold(arm: bool, grippers: bool, faultReported: bool) {
    predicate Any() {
      arm || grippers
    }
  }

  function Holding(s: State, holding: bool): State {
    s.(activity := s.activity.(holding := holding))
  }

  function Faulted(s: State, hold: Hold, allowHold: bool): (s': State)
    ensures s'.estop == s.estop
  {
    if s.mode == Disconnected then s
    else
      s.(mode := Fault, faultLatched := true, motorFault := s.motorFault || hold.faultReported,
         disableConfirmed := false, activity := s.activity.(holding := allowHold && hold.Any()))
  }

  /** A protective stop; without an arm hold, or from a state that has none, it fails. */
  function Stopped(s: State, hold: Hold): (State, bool) {
    var prepared := Holding(s, hold.Any());
    if !hold.arm || s.mode == Disconnected || s.mode == Ready || s.mode == Fault then (prepared, false)
    else (prepared.(mode := SafeStop, faultLatched := false, failures := s.failures.(holds := 0)), true)
  }

  /** Stop protectively, or fault if that is impossible. */
  function StoppedOrFaulted(s: State, hold: Hold): State {
    var (stopped, ok) := Stopped(s, hold);
    if ok then stopped else Faulted(stopped, hold, true)
  }

  function EmergencyStopped(s: State, hold: Hold): State {
    var latched := s.(estop := true, faultLatched := true);
    if s.estop then s.(faultLatched := true)
    else if s.mode == Disconnected then latched
    else
      var requiresHold := !s.disableConfirmed && s.mode != Ready;
      var faulted := Faulted(latched, hold, requiresHold);
      if requiresHold then faulted else faulted.(disableConfirmed := s.disableConfirmed)
  }

  /** A gripper frame that could not be sent: hold the current positions, or fault. */
  function GripperSendFailed(s: State, captured: bool, hold: Hold): (s': State)
    ensures s'.estop == s.estop
  {
    var counted := s.(failures := s.failures.(sends := s.failures.sends + 1));
    if s.mode == Running && s.activity.successful && captured
    then Holding(counted, false).(mode := SafeHold, failures := counted.failures.(holds := 0))
    else Faulted(counted, hold, true)
  }

  // ---------- Closing ----------

  function Closed(s: State, d: Disabling, faultReported: bool): (s': State)
    ensures s'.estop == s.estop
  {
    if s.stopping then s
    else
      var needsDisable := s.mode != Disconnected
                          && (!s.disableConfirmed || s.mode == Enabled || s.mode == Running || s.mode == Degraded
                              || s.mode == SafeHold || s.mode == SafeStop || s.mode == PartiallyEnabled);
      var safe := if needsDisable then DisabledBy(s, d, faultReported) else s;
      safe.(stopping := true, mode := Disconnected,
            activity := Activity(safe.activity.successful, false, false, false, safe.activity.parked))
  }

  // ---------- Recovering ----------

  /** The checks a recovery makes before it lets the motors be enabled again. */
  datatype Recovering = Recovering(connecting: Connecting, disabling: Disabling, cleared: bool, health: Snapshot,
                                   healthy: bool, configured: bool, faultReported: bool, fallback: Disabling)

  function RecoveryFailed(s: State, faultReported: bool, fallback: Disabling): (s': State)
    ensures s'.estop == s.estop
  {
    Holding(s, false).(mode := Fault, faultLatched := true, motorFault := s.motorFault || faultReported,
                       disableConfirmed := DisableSucceeds(fallback), recovery := NoRecovery)
  }

  /** Whether the hardware passes everything up to the moment the runtime reads READY. */
  predicate RecoveryPrepares(r: Recovering) {
    DisableSucceeds(r.disabling) && r.cleared && r.healthy && AllDisabled(r.health) && r.configured
  }

  /** The state a recovery works in until it has checked the hardware. */
  function Frozen(s: State, disabled: bool): State {
    Holding(s, false).(mode := Fault, faultLatched := true, disableConfirmed := s.disableConfirmed || disabled)
  }

  function RecoveryChecked(s: State, r: Recovering): (s': State)
    ensures s'.estop == s.estop
  {
    var frozen := Frozen(s, DisableSucceeds(r.disabling));
    if !DisableSucceeds(r.disabling) || !r.cleared then RecoveryFailed(frozen, r.faultReported, r.fallback)
    else
      var cleared := frozen.(motorFault := false);
      if RecoveryPrepares(r) then cleared.(mode := Ready, faultLatched := false, recovery := Prepared)
      else RecoveryFailed(cleared, r.faultReported, r.fallback)
  }

  function RecoveryBegun(s: State, r: Recovering): (s': State)
    ensures s'.estop == s.estop
  {
    if s.stopping then s
    else if s.mode != Disconnected then RecoveryChecked(s, r)
    else if !r.connecting.complete then RecoveryFailed(s, r.faultReported, r.fallback)
    else RecoveryChecked(Connected(s, r.connecting), r)
  }

  function RecoveryEnabled(s: State, e: Enabling, faultReported: bool, fallback: Disabling): (s': State)
    ensures s'.estop == s.estop
  {
    if EnableSucceeds(s, e) then EnabledBy(s, e).(recovery := Homing)
    else RecoveryFailed(EnabledBy(s, e), faultReported, fallback)
  }

  function RecoveryFinished(s: State, d: Disabling, faultReported: bool, fallback: Disabling): State {
    if s.mode != Disconnected && DisableSucceeds(d) then
      DisabledBy(s, d, faultReported).(mode := Ready, faultLatched := false, motorFault := false, estop := false,
                                       disableConfirmed := true, recovery := NoRecovery,
                                       failures := Failures(0, 0, s.failures.holds))
    else RecoveryFailed(DisabledBy(s, d, faultReported), faultReported, fallback)
  }

  /** One look at the way home: a stop of the runtime or missing feedback ends the recovery. */
  function RecoveryPolled(s: State, feedback: bool, reached: bool, faultReported: bool, fallback: Disabling): State {
    if !feedback || s.mode == Fault || s.mode == SafeStop || s.mode == Degraded
    then RecoveryFailed(s, faultReported, fallback)
    else if reached then s.(recovery := Arrived) else s
  }

  // ---------- The worker ----------

  /** The number of motors, and consecutive misses: of feedback before the arm is degraded, and of holds before
      a fault. */
  datatype Configuration = Configuration(motors: nat, feedbackThreshold: nat, holdThreshold: nat)

  /** Construction accepts between 1 and 32 motors. */
  type Config = c: Configuration | 1 <= c.motors <= 32 witness Configuration(1, 1, 1)

  /** What the query of an active channel says, and whether the last one answered found it connected. */
  datatype Channel = Channel(queried: bool, connected: bool, healthy: bool)

  datatype ControlResult = Sent(user: bool, newGripper: bool) | NotSent(counted: bool)

  datatype GripperResult = GripperSent(newCommand: bool) | GripperNotSent | GripperFault

  /** What the clock and the hardware say during one iteration of the worker. */
  datatype Iteration = Iteration(graceElapsed: bool, timedOut: bool, controlDue: bool, readyDue: bool,
                                 feedbackDue: bool, gripperDue: bool, holdDue: bool,
                                 control: ControlResult, readyComplete: bool,
                                 channels: seq<Channel>, snapshot: Snapshot,
                                 gripper: GripperResult, holdSent: bool, hold: Hold)

  predicate Controlled(mode: Mode) {
    mode == Enabled || mode == Running || mode == Degraded || mode == PartiallyEnabled
  }

  predicate GraceExpired(s: State, it: Iteration) {
    s.mode == Enabled && it.graceElapsed && !s.activity.successful && !s.activity.accepted && !s.activity.planning
  }

  predicate WatchdogExpired(s: State, it: Iteration) {
    (s.mode == Running || s.mode == Degraded || s.mode == PartiallyEnabled) && s.activity.successful && it.timedOut
  }

  function Transmitted(s: State, user: bool, newGripper: bool): State {
    s.(mode := if (user || newGripper) && s.mode == Enabled then Running else s.mode,
       activity := s.activity.(successful := s.activity.successful || user || newGripper,
                               accepted := s.activity.accepted && !user))
  }

  /** The arm control cycle, and whether the iteration ends there. */
  function ControlStage(s: State, it: Iteration, c: Config): (State, bool) {
    if !Controlled(s.mode) || !it.controlDue then (s, false)
    else
      match it.control
      case Sent(user, newGripper) => (Transmitted(s, user, newGripper).(failures := s.failures.(sends := 0)), false)
      case NotSent(counted) =>
        var missed := if counted then s.(failures := s.failures.(sends := s.failures.sends + 1)) else s;
        var limit := if c.feedbackThreshold == 0 then 1 else c.feedbackThreshold;
        if 0 < missed.failures.sends < limit then (missed, true) else (StoppedOrFaulted(missed, it.hold), true)
  }

  predicate Watched(s: State) {
    s.mode == Running || s.mode == Degraded || s.mode == PartiallyEnabled || s.mode == SafeHold || s.mode == SafeStop
    || (s.mode == Fault && s.estop && s.activity.holding)
  }

  /** What makes a motor's feedback unhealthy, and what of it cannot wait. */
  predicate SevereAt(s: State, snapshot: Snapshot, i: nat)
    requires i < |snapshot|
  {
    FaultAt(snapshot, i) || (snapshot[i].status == Some(0) && i !in s.activity.parked)
    || (snapshot[i].status.Some? && !snapshot[i].finite)
  }

  predicate HealthyAt(s: State, snapshot: Snapshot, i: nat)
    requires i < |snapshot|
  {
    snapshot[i].recent && snapshot[i].status.Some? && !SevereAt(s, snapshot, i)
  }

  /** The first n motors are healthy. */
  predicate HealthyTo(s: State, snapshot: Snapshot, n: nat)
    requires n <= |snapshot|
  {
    forall i: nat :: i < n ==> HealthyAt(s, snapshot, i)
  }

  predicate ChannelOk(channel: Channel) {
    channel.queried && channel.connected && channel.healthy
  }

  predicate ChannelsOk(channels: seq<Channel>) {
    forall i :: 0 <= i < |channels| ==> ChannelOk(channels[i])
  }

  /** Channel i is the first that is not in order, the one an error names. */
  predicate NamedChannel(channels: seq<Channel>, i: nat) {
    i < |channels| && !ChannelOk(channels[i]) && ChannelsOk(channels[..i])
  }

  /** The error names a disconnected channel. */
  predicate NamedDisconnected(channels: seq<Channel>) {
    exists i: nat :: i < |channels| && NamedChannel(channels, i) && !channels[i].connected
  }

  predicate FeedbackHealthy(s: State, it: Iteration) {
    ChannelsOk(it.channels) && HealthyTo(s, it.snapshot, |it.snapshot|)
  }

  predicate FeedbackSevere(s: State, it: Iteration) {
    NamedDisconnected(it.channels) || exists i: nat :: i < |it.snapshot| && SevereAt(s, it.snapshot, i)
  }

  /** After one more missing feedback, with a motor fault noted or not. */
  function Missing(s: State, fault: bool): State {
    s.(motorFault := s.motorFault || fault, failures := s.failures.(feedback := s.failures.feedback + 1))
  }

  /** Unhealthy feedback: fault at once, or count it and degrade or stop when it lasts. */
  function FeedbackMissed(s: State, it: Iteration, c: Config): State {
    var failed := Missing(s, AnyFault(it.snapshot));
    if FeedbackSevere(s, it) then Faulted(failed, it.hold, true)
    else if s.mode == Degraded && 3 * c.feedbackThreshold <= failed.failures.feedback
    then StoppedOrFaulted(failed, it.hold)
    else if s.mode == Running && c.feedbackThreshold <= failed.failures.feedback
    then failed.(mode := Degraded)
    else failed
  }

  /** The feedback check, and whether the iteration ends there. */
  function FeedbackStage(due: bool, s: State, it: Iteration, c: Config): (State, bool) {
    if !due then (s, false)
    else if !Watched(s) then (s, true)
    else if FeedbackHealthy(s, it) then (s.(failures := s.failures.(feedback := 0)), false)
    else (FeedbackMissed(s, it, c), true)
  }

  function GripperStage(due: bool, s: State, it: Iteration): (State, bool) {
    if !due || !Controlled(s.mode) then (s, false)
    else
      match it.gripper
      case GripperSent(newCommand) => (Transmitted(s, false, newCommand), false)
      case GripperNotSent => (StoppedOrFaulted(s.(failures := s.failures.(sends := s.failures.sends + 1)), it.hold), true)
      case GripperFault => (Faulted(s, it.hold, true), true)
  }

  function HoldStage(due: bool, s: State, it: Iteration, c: Config): State {
    if !due then s
    else if it.holdSent || (s.mode != SafeHold && s.mode != SafeStop && s.mode != Fault)
    then s.(failures := s.failures.(holds := 0))
    else
      var failed := s.(failures := Failures(s.failures.sends + 1, s.failures.feedback, s.failures.holds + 1));
      if s.mode != Fault && c.holdThreshold <= failed.failures.holds then Faulted(failed, it.hold, true) else failed
  }

  /** The stages of an iteration, each as far as it is due and none before it ended the iteration. */
  function Staged(s: State, feedbackDue: bool, gripperDue: bool, holdDue: bool, it: Iteration, c: Config): State {
    var (controlled, done) := ControlStage(s, it, c);
    if done then controlled
    else
      var (checked, over) := FeedbackStage(feedbackDue, controlled, it, c);
      if over then checked
      else
        var (gripped, ended) := GripperStage(gripperDue, checked, it);
        if ended then gripped else HoldStage(holdDue, gripped, it, c)
  }

  predicate HoldDue(s: State, it: Iteration) {
    (s.mode == SafeHold || s.mode == SafeStop || (s.mode == Fault && s.activity.holding)) && it.holdDue
  }

  /** One iteration of the worker. What is due is decided on the state it starts from. */
  function Iterated(s: State, it: Iteration, c: Config): State {
    if s.stopping then s
    else if GraceExpired(s, it) || WatchdogExpired(s, it) then StoppedOrFaulted(s, it.hold)
    else if s.mode == Ready && it.readyDue then
      if it.readyComplete then s else s.(failures := s.failures.(feedback := s.failures.feedback + 1))
    else
      Staged(s, Watched(s) && it.feedbackDue, Controlled(s.mode) && it.gripperDue, HoldDue(s, it), it, c)
  }

  /** An error names at most one channel. */
  lemma OneNamed(channels: seq<Channel>)
    ensures forall i: nat, k: nat :: NamedChannel(channels, i) && NamedChannel(channels, k) ==> i == k
  {
    forall i: nat, k: nat | NamedChannel(channels, i) && NamedChannel(channels, k) ensures i == k {
      Named(channels, i, k);
      Named(channels, k, i);
    }
  }

  /** The named channel stands behind none that is not in order. */
  lemma Named(channels: seq<Channel>, i: nat, k: nat)
    requires NamedChannel(channels, i) && k < |channels| && !ChannelOk(channels[k])
    ensures i <= k
  {
    assert forall j :: 0 <= j < i ==> channels[..i][j] == channels[j];
  }
}
