/** How often the worker may miss before it acts: consecutive misses of sends, of feedback and of holds
    (runtime/src/runtime_worker.cpp). */
module Escalation {
  import opened Results
  import opened SafetyState
  import opened SafetyProperties
  import opened SafetyTransitions

  /** The state after a sequence of iterations, with nothing in between. */
  function Worked(s: State, its: seq<Iteration>, c: Config): State {
    if |its| == 0 then s else Iterated(Worked(s, its[..|its| - 1], c), its[|its| - 1], c)
  }

  // ---------- Feedback ----------

  /** An iteration that finds feedback missing, but nothing that cannot wait. */
  ghost predicate MissesFeedback(s: State, it: Iteration) {
    && !it.timedOut && (it.controlDue ==> it.control.Sent?)
    && it.feedbackDue && !FeedbackGood(s, it) && !Alarm(s, it)
  }

  lemma FeedbackMiss(s: State, it: Iteration, c: Config)
    requires !s.stopping && s.mode in {Running, Degraded} && MissesFeedback(s, it)
    ensures var s' := Iterated(s, it, c);
            && s'.failures.feedback == s.failures.feedback + 1
            && s'.activity.parked == s.activity.parked && !s'.stopping
            && s'.mode == (if s.mode == Running
                           then (if c.feedbackThreshold <= s.failures.feedback + 1 then Degraded else Running)
                           else if 3 * c.feedbackThreshold <= s.failures.feedback + 1
                           then (if it.hold.arm then SafeStop else Fault)
                           else Degraded)
  {
    WorkLeads(s, it, c);
    FeedbackExactly(s, it);
    FeedbackMissCounts(s, it, c);
    hide Iterated, FeedbackGood, Alarm;
  }

  lemma FeedbackMissCounts(s: State, it: Iteration, c: Config)
    requires !s.stopping && s.mode in {Running, Degraded} && MissesFeedback(s, it)
    ensures var s' := Iterated(s, it, c);
            && s'.failures.feedback == s.failures.feedback + 1
            && s'.activity.parked == s.activity.parked && !s'.stopping
  {
    ControlKeeps(s, it, c);
    var (t, done) := ControlStage(s, it, c);
    SameJudgement(s, t, it);
    FeedbackExactly(t, it);
    MissKeeps(t, it, c);
    hide FeedbackGood, Alarm, FeedbackHealthy, FeedbackMissed, ControlStage, GripperStage, HoldStage;
  }

  lemma ControlKeeps(s: State, it: Iteration, c: Config)
    requires !s.stopping && s.mode in {Running, Degraded} && (it.controlDue ==> it.control.Sent?)
    ensures var (t, done) := ControlStage(s, it, c);
            && !done && t.activity.parked == s.activity.parked && t.failures.feedback == s.failures.feedback
            && t.mode == s.mode && !t.stopping
  {
  }

  lemma MissKeeps(s: State, it: Iteration, c: Config)
    ensures var s' := FeedbackMissed(s, it, c);
            && s'.failures.feedback == s.failures.feedback + 1
            && s'.activity.parked == s.activity.parked && s'.stopping == s.stopping
  {
    hide FeedbackSevere, AnyFault, StoppedOrFaulted, Faulted;
    var failed := Missing(s, AnyFault(it.snapshot));
    StopKeeps(failed, it.hold);
    FaultKeeps(failed, it.hold);
  }

  lemma FaultKeeps(s: State, hold: Hold)
    ensures var s' := Faulted(s, hold, true);
            s'.failures == s.failures && s'.activity.parked == s.activity.parked && s'.stopping == s.stopping
  {
  }

  lemma StopKeeps(s: State, hold: Hold)
    ensures var s' := StoppedOrFaulted(s, hold);
            && s'.failures.feedback == s.failures.feedback && s'.failures.sends == s.failures.sends
            && s'.activity.parked == s.activity.parked && s'.stopping == s.stopping
  {
    hide Faulted;
    FaultKeeps(Holding(s, hold.Any()), hold);
  }

  /** Feedback that stays away degrades a running arm after exactly as many misses as configured, and stops it after
      three times as many. */
  lemma {:induction false} FeedbackEscalates(s: State, its: seq<Iteration>, c: Config)
    requires !s.stopping && s.mode == Running && s.failures.feedback == 0 && 0 < c.feedbackThreshold
    requires 0 < |its| <= 3 * c.feedbackThreshold && forall i :: 0 <= i < |its| ==> MissesFeedback(s, its[i])
    ensures var s' := Worked(s, its, c);
            && s'.failures.feedback == |its| && s'.activity.parked == s.activity.parked && !s'.stopping
            && s'.mode == (if |its| < c.feedbackThreshold then Running
                           else if |its| < 3 * c.feedbackThreshold then Degraded
                           else if its[|its| - 1].hold.arm then SafeStop else Fault)
    decreases |its|
  {
    hide Iterated, FeedbackGood, Alarm;
    var last := its[|its| - 1];
    var before := Worked(s, its[..|its| - 1], c);
    if |its| == 1 {
      assert its[..0] == [];
    } else {
      FeedbackEscalates(s, its[..|its| - 1], c);
    }
    SameJudgement(s, before, last);
    FeedbackMiss(before, last, c);
  }

  /** One good answer of everything starts the count again. */
  lemma GoodFeedbackResets(s: State, it: Iteration, c: Config)
    requires ControlPasses(s, it) && Checks(s, it) && FeedbackGood(s, it)
    ensures Iterated(s, it, c).failures.feedback == 0
  {
    hide FeedbackGood, Alarm;
    ControlLeads(s, it, c);
    var (t, done) := ControlStage(s, it, c);
    SameJudgement(s, t, it);
    FeedbackExactly(t, it);
    hide ControlStage, FeedbackHealthy, FeedbackMissed, GripperStage, HoldStage;
    var checked := FeedbackStage(true, t, it, c).0;
    GripperKeepsFeedback(Controlled(s.mode) && it.gripperDue, checked, it);
    var gripped := GripperStage(Controlled(s.mode) && it.gripperDue, checked, it).0;
    HoldKeepsFeedback(HoldDue(s, it), gripped, it, c);
  }

  lemma GripperKeepsFeedback(due: bool, s: State, it: Iteration)
    ensures GripperStage(due, s, it).0.failures.feedback == s.failures.feedback
  {
    hide StoppedOrFaulted, Faulted;
    StopKeeps(s.(failures := s.failures.(sends := s.failures.sends + 1)), it.hold);
    FaultKeeps(s, it.hold);
  }

  lemma HoldKeepsFeedback(due: bool, s: State, it: Iteration, c: Config)
    ensures HoldStage(due, s, it, c).failures.feedback == s.failures.feedback
  {
    hide Faulted;
    FaultKeeps(HoldMissed(s), it.hold);
  }

  // ---------- Sends ----------

  /** An iteration in which the frames of the arm, due now, could not be sent. */
  predicate MissesSend(it: Iteration) {
    !it.timedOut && !it.graceElapsed && it.controlDue && it.control.NotSent? && it.control.counted
  }

  lemma SendMiss(s: State, it: Iteration, c: Config)
    requires !s.stopping && Controlled(s.mode) && MissesSend(it)
    ensures var s', n := Iterated(s, it, c), s.failures.sends + 1;
            && s'.failures.sends == n && !s'.stopping
            && s'.mode == (if n < c.feedbackThreshold then s.mode else if it.hold.arm then SafeStop else Fault)
  {
    hide StoppedOrFaulted;
    var missed := s.(failures := s.failures.(sends := s.failures.sends + 1));
    StopLeads(missed, it.hold);
    StopKeeps(missed, it.hold);
  }

  /** Frames that cannot be sent stop the arm at the configured number of misses in a row, and not before. */
  lemma {:induction false} SendsEscalate(s: State, its: seq<Iteration>, c: Config)
    requires !s.stopping && Controlled(s.mode) && s.failures.sends == 0
    requires 0 < |its| && (|its| <= c.feedbackThreshold || |its| == 1) && forall i :: 0 <= i < |its| ==> MissesSend(its[i])
    ensures var s' := Worked(s, its, c);
            && s'.failures.sends == |its| && !s'.stopping
            && s'.mode == (if |its| < c.feedbackThreshold then s.mode
                           else if its[|its| - 1].hold.arm then SafeStop else Fault)
    decreases |its|
  {
    hide Iterated;
    if |its| == 1 {
      assert its[..0] == [];
    } else {
      SendsEscalate(s, its[..|its| - 1], c);
    }
    SendMiss(Worked(s, its[..|its| - 1], c), its[|its| - 1], c);
  }

  // ---------- Holds ----------

  /** An iteration in which the protective hold, due now, could not be sent. */
  predicate MissesHold(it: Iteration) {
    !it.feedbackDue && it.holdDue && !it.holdSent
  }

  lemma HoldMiss(s: State, it: Iteration, c: Config)
    requires !s.stopping && s.mode in {SafeHold, SafeStop} && MissesHold(it)
    ensures var s', n := Iterated(s, it, c), s.failures.holds + 1;
            && s'.failures.holds == n && !s'.stopping
            && s'.mode == (if n < c.holdThreshold then s.mode else Fault)
  {
    hide Faulted;
    FaultKeeps(HoldMissed(s), it.hold);
    FaultLeads(HoldMissed(s), it.hold);
  }

  /** A protective hold that cannot be sent leads to a fault at the configured number of misses in a row, and not
      before. */
  lemma {:induction false} HoldsEscalate(s: State, its: seq<Iteration>, c: Config)
    requires !s.stopping && s.mode in {SafeHold, SafeStop} && s.failures.holds == 0
    requires 0 < |its| && (|its| <= c.holdThreshold || |its| == 1) && forall i :: 0 <= i < |its| ==> MissesHold(its[i])
    ensures var s' := Worked(s, its, c);
            && s'.failures.holds == |its| && !s'.stopping
            && s'.mode == if |its| < c.holdThreshold then s.mode else Fault
    decreases |its|
  {
    hide Iterated;
    if |its| == 1 {
      assert its[..0] == [];
    } else {
      HoldsEscalate(s, its[..|its| - 1], c);
    }
    HoldMiss(Worked(s, its[..|its| - 1], c), its[|its| - 1], c);
  }

  // ---------- Commands that count as sent, and motors disabled on purpose ----------

  /** The step forgets what was sent before it. */
  predicate Forgets(s: State, step: Step) {
    match step
    case Enable(e) => MayEnable(s) && (if e.WithCallback? then e.prepared else e.mailbox)
    case EnableRecovery(e, _, _) => MayEnable(s) && (if e.WithCallback? then e.prepared else e.mailbox)
    case Disable(_, _) => s.mode != Disconnected
    case FinishRecovery(_, _, _) => s.mode != Disconnected
    case Close(_, _) =>
      && !s.stopping && s.mode != Disconnected
      && (!s.disableConfirmed || Controlled(s.mode) || s.mode == SafeHold || s.mode == SafeStop)
    case _ => false
  }

  /** A command counts as sent, which arms the watchdog, exactly from the iteration that sends one until the motors
      are next enabled or disabled. */
  lemma SentFollows(s: State, step: Step, config: Config)
    requires SafetyProperties.Enabled(s, step, config)
    ensures Next(s, step, config).activity.successful
       <==> (s.activity.successful && !Forgets(s, step)) || (step.Work? && SendsCommand(s, step.it))
  {
    hide Next, SendsCommand, Forgets, SafetyProperties.Enabled;
    match step
    case Work(it) => WorkSends(s, it, config);
    case SetPower(_) => PowerKeepsSent(s, step, config);
    case QueryPower(_, _) => PowerKeepsSent(s, step, config);
    case Maintain(_, _) => PowerKeepsSent(s, step, config);
    case TimeOutClearing(_) => PowerKeepsSent(s, step, config);
    case BeginRecovery(_) => RecoveryKeepsSent(s, step, config);
    case EnableRecovery(_, _, _) => RecoveryKeepsSent(s, step, config);
    case PollRecovery(_, _, _, _) => RecoveryKeepsSent(s, step, config);
    case GiveUpRecovery(_, _) => RecoveryKeepsSent(s, step, config);
    case FinishRecovery(_, _, _) => RecoveryKeepsSent(s, step, config);
    case Connect(_) => LifecycleKeepsSent(s, step, config);
    case Enable(_) => LifecycleKeepsSent(s, step, config);
    case Disable(_, _) => LifecycleKeepsSent(s, step, config);
    case Close(_, _) => LifecycleKeepsSent(s, step, config);
    case _ => CommandKeepsSent(s, step, config);
  }

  ghost predicate SentAsSaid(s: State, step: Step, s': State) {
    s'.activity.successful <==> s.activity.successful && !Forgets(s, step)
  }

  lemma WorkSends(s: State, it: Iteration, config: Config)
    ensures Next(s, Work(it), config).activity.successful <==> s.activity.successful || SendsCommand(s, it)
    ensures !Forgets(s, Work(it))
  {
    hide Iterated, SendsCommand;
    WorkLeads(s, it, config);
    NextIsIterated(s, it, config);
  }

  lemma PowerKeepsSent(s: State, step: Step, config: Config)
    requires step.SetPower? || step.QueryPower? || step.Maintain? || step.TimeOutClearing?
    ensures SentAsSaid(s, step, Next(s, step, config))
  {
    hide PoweredBy, QueriedBy, Finished, MaintenanceCode, Latches;
    match step
    case SetPower(b) => BatchKeepsSent(s, b);
    case QueryPower(complete, snapshot) => QueryKeepsSent(s, complete, snapshot);
    case Maintain(op, m) => FinishKeepsSent(s, op, MaintenanceCode(s, op, m), Latches(s, op, m), m.faultReported);
    case TimeOutClearing(faultReported) => FinishKeepsSent(s, ClearFaults, Feedback, true, faultReported);
  }

  lemma BatchKeepsSent(s: State, b: Batch)
    ensures PoweredBy(s, b).activity.successful == s.activity.successful
  {
    hide PowerOf, AllIndices, ParkedBy;
  }

  lemma QueryKeepsSent(s: State, complete: bool, snapshot: Snapshot)
    ensures QueriedBy(s, complete, snapshot).activity == s.activity
  {
    hide PowerOf;
  }

  lemma FinishKeepsSent(s: State, op: Operation, code: Code, latch: bool, faultReported: bool)
    ensures Finished(s, op, code, latch, faultReported).activity == s.activity
  {
  }

  lemma CommandKeepsSent(s: State, step: Step, config: Config)
    requires step.Estop? || step.GripperFailed? || step.TakeOver? || step.AcceptCommand? || step.PlanCommand?
    ensures SentAsSaid(s, step, Next(s, step, config))
  {
    hide EmergencyStopped, GripperSendFailed;
    match step
    case Estop(hold) => EstopKeepsSent(s, hold);
    case GripperFailed(captured, hold) => GripperKeepsSent(s, captured, hold);
    case _ =>
  }

  lemma EstopKeepsSent(s: State, hold: Hold)
    ensures EmergencyStopped(s, hold).activity.successful == s.activity.successful
  {
  }

  lemma GripperKeepsSent(s: State, captured: bool, hold: Hold)
    ensures GripperSendFailed(s, captured, hold).activity.successful == s.activity.successful
  {
  }

  lemma LifecycleKeepsSent(s: State, step: Step, config: Config)
    requires step.Connect? || step.Enable? || step.Disable? || step.Close?
    ensures SentAsSaid(s, step, Next(s, step, config))
  {
    hide Connected, EnabledBy, DisabledBy;
    match step
    case Connect(c) => ConnectKeepsSent(s, c);
    case Enable(e) => EnableKeepsSent(s, e);
    case Disable(d, faultReported) => DisableKeepsSent(s, d, faultReported);
    case Close(d, faultReported) => DisableKeepsSent(s, d, faultReported);
  }

  lemma RecoveryKeepsSent(s: State, step: Step, config: Config)
    requires step.BeginRecovery? || step.EnableRecovery? || step.PollRecovery? || step.GiveUpRecovery?
             || step.FinishRecovery?
    ensures SentAsSaid(s, step, Next(s, step, config))
  {
    hide DisableSucceeds, AnyFault, AllDisabled, EnableConfirmed, RecoveryPrepares, RecoveryFailed, EnabledBy, Connected,
      EnableSucceeds, DisabledBy;
    match step
    case BeginRecovery(r) =>
      ConnectKeepsSent(s, r.connecting);
      FailureKeepsSent(s, r.faultReported, r.fallback);
      CheckedKeepsSent(s, r);
      CheckedKeepsSent(Connected(s, r.connecting), r);
    case EnableRecovery(e, faultReported, fallback) =>
      EnableKeepsSent(s, e);
      FailureKeepsSent(EnabledBy(s, e), faultReported, fallback);
    case PollRecovery(_, _, faultReported, fallback) => FailureKeepsSent(s, faultReported, fallback);
    case GiveUpRecovery(faultReported, fallback) => FailureKeepsSent(s, faultReported, fallback);
    case FinishRecovery(d, faultReported, fallback) =>
      DisableKeepsSent(s, d, faultReported);
      FailureKeepsSent(DisabledBy(s, d, faultReported), faultReported, fallback);
  }

  lemma ConnectKeepsSent(s: State, c: Connecting)
    ensures Connected(s, c).activity == s.activity
  {
    hide AnyFault, AllDisabled;
  }

  lemma EnableKeepsSent(s: State, e: Enabling)
    ensures EnabledBy(s, e).activity.successful
       <==> s.activity.successful && !(MayEnable(s) && (if e.WithCallback? then e.prepared else e.mailbox))
  {
    hide EnableConfirmed, DisableSucceeds;
  }

  lemma DisableKeepsSent(s: State, d: Disabling, faultReported: bool)
    ensures DisabledBy(s, d, faultReported).activity.successful <==> s.activity.successful && s.mode == Disconnected
  {
    hide DisableSucceeds;
  }

  lemma FailureKeepsSent(s: State, faultReported: bool, fallback: Disabling)
    ensures RecoveryFailed(s, faultReported, fallback).activity.successful == s.activity.successful
  {
    hide DisableSucceeds;
  }

  lemma CheckedKeepsSent(s: State, r: Recovering)
    ensures RecoveryChecked(s, r).activity.successful == s.activity.successful
  {
    hide DisableSucceeds, RecoveryPrepares, RecoveryFailed;
    FailureKeepsSent(Frozen(s, DisableSucceeds(r.disabling)), r.faultReported, r.fallback);
    FailureKeepsSent(Frozen(s, true).(motorFault := false), r.faultReported, r.fallback);
  }

  /** Motor k is taken for disabled on purpose after a power batch: not once READY is reached; not if the batch just
      enabled it; and else if it was before, if the batch disabled it, or was not to be enabled from READY. */
  lemma ParkedExactly(s: State, b: Batch, k: nat)
    requires TakesBatch(s, b) && |b.after| > 0
    ensures var s' := PoweredBy(s, b);
            k in s'.activity.parked <==>
              && !(BatchDecides(s, b) && ReadsOff(b.after))
              && (if b.enable then
                    if b.succeeded then
                      k !in b.selected && (k in s.activity.parked || (s.mode == Ready && k in b.offBefore))
                    else
                      k in s.activity.parked || (k in b.offBefore && (s.mode == Ready || k in b.selected))
                  else
                    || k in s.activity.parked || k in b.selected
                    || (Abnormal(s.mode) && ReadsOff(b.after) && k < |b.after|))
  {
    ReadExactly(b.after);
    hide PowerOf, ReadsOff;
  }
}
