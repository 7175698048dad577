/** How long the motions of a run are planned to take against their references, and what replacing the running
    motion does to a run (runtime/src/runtime_trajectory.cpp). */
module MotionDurations {
  import opened RealArithmetic
  import opened Results
  import opened TrajectorySegments
  import opened TrajectoryRequest
  import opened TrajectoryRequestProperties
  import opened MotionQueue
  import opened MotionQueueProperties
  import opened StillTrajectory

  /** By how much a plan is longer than its references. */
  function Slack(p: Plan): real {
    p.duration - p.referenceDuration
  }

  /** The active motion or a queued one. */
  ghost predicate InEngine(s: Engine, m: Motion) {
    (m == s.control && m.id != 0) || m in s.queue
  }

  /** Step n of the run started the motion of that id, and its request was planned with that slack. */
  ghost predicate StartedAt(mode: Mode, steps: seq<Step>, sqrt: real -> real, n: nat, id: nat, slack: real) {
    && n < |steps| && steps[n].Start?
    && Starts(Run(Initial(mode), steps[..n], sqrt), steps[n], id)
    && Slack(Planned(steps[n].r).value) == slack
  }

  predicate Starts(s: Engine, step: Step, id: nat)
    requires step.Start?
    ensures Starts(s, step, id) ==> Planned(step.r).Success?
  {
    Started(s, step.r, step.enqueue, 0, step.c).1 == Success(id)
  }

  lemma ReboundKeepsSlack(mode: Mode, plan: Plan, predecessor: Plan, sqrt: real -> real)
    requires Rebind(mode, plan, predecessor, sqrt).Success?
    ensures Slack(Rebind(mode, plan, predecessor, sqrt).value) == Slack(plan)
  {
    hide RebindDuration, RebindSegment, ExtremaWithin, FinalPositions, AllDelayed;
  }

  /** The motion was in the engine before with the same slack. */
  ghost predicate WasThere(s: Engine, m: Motion) {
    exists before :: InEngine(s, before) && before.id == m.id && Slack(before.plan) == Slack(m.plan)
  }

  lemma CancelKeepsSlack(s: Engine, id: nat, sqrt: real -> real, m: Motion)
    requires Invariant(s) && InEngine(CancelMotion(s, id, sqrt).0, m)
    ensures WasThere(s, m)
  {
    hide Rebind, PlanSound, Conserved, Slack, Last;
    if id != 0 && s.control.id == id && s.control.state == Running {
      TerminateKeepsSlack(s, Cancelled, m);
    } else if id == 0 || s.control.id == id {
      assert InEngine(s, m);
    } else {
      var i := QueueIndex(s.queue, id);
      if m in s.queue || m == s.control {
        assert InEngine(s, m);
      } else {
        assert i + 1 < |s.queue| && m.id == s.queue[i + 1].id;
        ReboundKeepsSlack(s.mode, s.queue[i + 1].plan, Before(s, i), sqrt);
        assert InEngine(s, s.queue[i + 1]);
      }
    }
  }

  lemma TerminateKeepsSlack(s: Engine, state: MotionState, m: Motion)
    requires Invariant(s) && (state == Cancelled || state == Faulted) && InEngine(Terminated(s, state), m)
    ensures WasThere(s, m)
  {
    hide PlanSound, Conserved, Slack;
    CancelledAllKeeps(s, |s.queue|);
    assert InEngine(s, s.control);
  }

  lemma StartKeepsSlack(s: Engine, step: Step, m: Motion)
    requires step.Start? && InEngine(Started(s, step.r, step.enqueue, 0, step.c).0, m)
    ensures WasThere(s, m) || (Starts(s, step, m.id) && m.plan == Planned(step.r).value)
  {
    hide Planned, Slack, Last;
    if InEngine(s, m) {
      assert WasThere(s, m);
    }
  }

  lemma NextKeepsSlack(s: Engine, step: Step, sqrt: real -> real, m: Motion)
    requires Invariant(s) && Enabled(s, step) && InEngine(Next(s, step, sqrt), m)
    ensures WasThere(s, m) || (step.Start? && Starts(s, step, m.id) && m.plan == Planned(step.r).value)
  {
    hide Invariant, Started, CancelMotion, Terminated, Last, Slack, Planned;
    match step
    case Start(r, enqueue, c) => StartKeepsSlack(s, step, m);
    case Arrive =>
      if InEngine(s, m) {
      } else if |s.queue| == 0 {
        assert InEngine(s, s.control);
      } else {
        assert InEngine(s, s.queue[0]);
      }
    case Unsettle => assert InEngine(s, if m in s.queue then m else s.control);
    case Terminate(state) => TerminateKeepsSlack(s, state, m);
    case Cancel(id) => CancelKeepsSlack(s, id, sqrt, m);
  }

  /** Over every run each motion, rebound or not, is longer than its references by exactly what the request
      that started it gave it. */
  lemma {:induction false} RunKeepsSlack(mode: Mode, steps: seq<Step>, sqrt: real -> real, m: Motion) returns (n: nat)
    requires InEngine(Run(Initial(mode), steps, sqrt), m)
    ensures StartedAt(mode, steps, sqrt, n, m.id, Slack(m.plan))
    decreases |steps|
  {
    hide Invariant, Next, Slack, Starts;
    var last := |steps| - 1;
    var shorter := steps[..last];
    var before := Run(Initial(mode), shorter, sqrt);
    RunKeeps(mode, shorter, sqrt);
    if Enabled(before, steps[last]) {
      NextKeepsSlack(before, steps[last], sqrt, m);
    } else {
      assert WasThere(before, m);
    }
    if WasThere(before, m) {
      var previous :| InEngine(before, previous) && previous.id == m.id && Slack(previous.plan) == Slack(m.plan);
      n := RunKeepsSlack(mode, shorter, sqrt, previous);
      assert shorter[..n] == steps[..n];
    } else {
      n := last;
    }
  }

  /** So over every run a motion is planned at least as long as its references exactly if the deadline of the
      request that started it covers them. */
  lemma MotionCoversReferences(mode: Mode, steps: seq<Step>, sqrt: real -> real, m: Motion) returns (n: nat)
    requires InEngine(Run(Initial(mode), steps, sqrt), m)
    ensures StartedAt(mode, steps, sqrt, n, m.id, Slack(m.plan))
    ensures m.plan.referenceDuration <= m.plan.duration <==> DeadlineCovers(steps[n].r)
  {
    n := RunKeepsSlack(mode, steps, sqrt, m);
    hide Planned, DeadlineCovers, Run, Started;
    DurationCoversReferences(steps[n].r);
  }

  /** If every request of a run has such a deadline, no motion is ever planned shorter than its references. */
  lemma RunCoversReferences(mode: Mode, steps: seq<Step>, sqrt: real -> real, m: Motion)
    requires forall n :: 0 <= n < |steps| && steps[n].Start? ==> DeadlineCovers(steps[n].r)
    requires InEngine(Run(Initial(mode), steps, sqrt), m)
    ensures m.plan.referenceDuration <= m.plan.duration
  {
    var n := MotionCoversReferences(mode, steps, sqrt, m);
  }

  // ---------- Concrete runs ----------

  lemma RunAppend(s: Engine, steps: seq<Step>, step: Step, sqrt: real -> real)
    requires Enabled(Run(s, steps, sqrt), step)
    ensures Run(s, steps + [step], sqrt) == Next(Run(s, steps, sqrt), step, sqrt)
  {
    hide Next;
    assert (steps + [step])[..|steps|] == steps;
  }

  /** A runtime that accepts motion commands and whose only joint rests at zero. */
  const OPEN: Conditions := Conditions(true, true, false, false, false, [JointReading(0.0, 0.0, 1, false)], {})

  lemma StillIsSynchronized(deadline: real, replaceId: nat)
    ensures |StillRequest(deadline).waypoints| > 0 && ShapedTo(StillRequest(deadline), 1)
    ensures JointRefusalFrom(StillRequest(deadline), OPEN, replaceId, 0).None? && !MaskTooLarge(StillRequest(deadline), OPEN)
  {
    var r := StillRequest(deadline);
    assert Product(1.0, 0.0) == 0.0 && Product(0.0, 1.0) == 0.0;
    assert JointRefusal(r, OPEN, replaceId, 0).None?;
    assert JointRefusalFrom(r, OPEN, replaceId, 1).None?;
  }

  /** A run whose active motion is planned shorter than its references. */
  lemma RunWithShortMotion(sqrt: real -> real)
    ensures var steps := [Start(StillRequest(1.0 - 0.5 * LIMIT_TOLERANCE), false, OPEN)];
            var m := Run(Initial(Pv), steps, sqrt).control;
            m.id == 1 && m.state == Running && m.plan.duration < m.plan.referenceDuration
  {
    var step := Start(StillRequest(1.0 - 0.5 * LIMIT_TOLERANCE), false, OPEN);
    StillIsSynchronized(1.0 - 0.5 * LIMIT_TOLERANCE, 0);
    PlanShorterThanReferences();
    StillIsPlanned(1.0 - 0.5 * LIMIT_TOLERANCE);
    hide Planned, StillRequest;
    RunAppend(Initial(Pv), [], step, sqrt);
    assert [] + [step] == [step];
  }

  /** Start a motion and queue another behind it. */
  function TwoMotions(): seq<Step> {
    [Start(StillRequest(0.0), false, OPEN), Start(StillRequest(0.0), true, OPEN)]
  }

  /** The still request starts, and is queued behind a running motion, whatever the id. */
  lemma StillStarts(s: Engine, enqueue: bool, plan: Plan, sqrt: real -> real)
    requires Planned(StillRequest(0.0)) == Success(plan)
    requires s.mode == Pv && s.queue == [] && (s.control.state == Running <==> enqueue)
    requires enqueue || s.control.id == 0
    ensures var s' := Next(s, Start(StillRequest(0.0), enqueue, OPEN), sqrt);
            && s'.nextId == s.nextId + 1 && s'.mode == Pv
            && (enqueue ==> s'.control == s.control && s'.queue == [Motion(Queued, s.nextId, plan)])
            && (!enqueue ==> s'.queue == [] && s'.control == Motion(Running, s.nextId, plan))
  {
    hide Planned, JointRefusalFrom, MaskTooLarge;
    assert StillRequest(0.0).mode == Pv;
    hide StillRequest;
    StillIsPlanned(0.0);
    StillIsSynchronized(0.0, 0);
  }

  lemma EmptyRun(s: Engine, sqrt: real -> real)
    ensures Run(s, [], sqrt) == s
  {
  }

  lemma TwoMotionsRun(sqrt: real -> real)
    ensures var s := Run(Initial(Pv), TwoMotions(), sqrt);
            && s.control.state == Running && s.control.id == 1 && s.nextId == 3 && s.mode == Pv
            && |s.queue| == 1 && s.queue[0].id == 2
            && Planned(StillRequest(0.0)).Success? && Planned(StillRequest(0.0)).value.approachSegmentCount == 0
  {
    hide Planned, Next, Run, StillRequest;
    StillIsPlanned(0.0);
    var plan := Planned(StillRequest(0.0)).value;
    var first, second := TwoMotions()[0], TwoMotions()[1];
    RunAppend(Initial(Pv), [], first, sqrt);
    RunAppend(Initial(Pv), [first], second, sqrt);
    assert [] + [first] == [first] && [first] + [second] == TwoMotions();
    assert Run(Initial(Pv), [], sqrt) == Initial(Pv) by { EmptyRun(Initial(Pv), sqrt); }
    StillStarts(Initial(Pv), false, plan, sqrt);
    StillStarts(Next(Initial(Pv), first, sqrt), true, plan, sqrt);
  }

  /** A reachable replacement that breaks the order of ids and drops the replaced motion: start, queue a second
      motion, then start a third in place of the first. */
  lemma ReplacementBehindQueue(sqrt: real -> real)
    ensures var s := Run(Initial(Pv), TwoMotions(), sqrt);
            var (s', result) := Started(s, StillRequest(0.0), false, 1, OPEN);
            && Invariant(s) && |s.queue| == 1 && result == Success(3)
            && !Ordered(s') && Accounted(s)[1] == 1 && Accounted(s')[1] == 0
  {
    hide Run, Planned, Invariant;
    TwoMotionsRun(sqrt);
    RunKeeps(Pv, TwoMotions(), sqrt);
    var s := Run(Initial(Pv), TwoMotions(), sqrt);
    assert StillRequest(0.0).mode == Pv;
    StillIsSynchronized(0.0, 1);
    hide JointRefusalFrom, MaskTooLarge;
    assert Started(s, StillRequest(0.0), false, 1, OPEN).1 == Success(3);
    hide Started, StillRequest;
    ReplacementLosesMotion(s, StillRequest(0.0), 1, OPEN);
  }
}
