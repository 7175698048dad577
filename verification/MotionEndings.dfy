/** How motions start and end: what every step of the motion engine makes of every motion, when a start is accepted,
    and what cancelling ends or refuses (runtime/src/runtime_trajectory.cpp). */
module MotionEndings {
  import opened RealArithmetic
  import opened Results
  import opened TrajectorySegments
  import opened TrajectoryRequest
  import opened TrajectoryRequestProperties
  import opened MotionQueue
  import opened MotionQueueProperties
  import WaypointMotion

  // ---------- Cancelling the active motion ----------

  /** The log is the old one followed by the motions of the queue, in order, as cancelled. */
  ghost predicate QueueCancelled(s: Engine, s': Engine) {
    && |s'.log| == |s.log| + |s.queue| && s'.log[..|s.log|] == s.log
    && forall i :: 0 <= i < |s.queue| ==> s'.log[|s.log| + i] == Status(s.queue[i].id, Cancelled)
  }

  lemma {:induction false} CancelledAllLogs(s: Engine, n: nat)
    requires n <= |s.queue| && forall i :: 0 <= i < |s.queue| ==> s.queue[i].id != 0
    ensures var c := CancelledAll(s, n);
            && c == s.(history := c.history, log := c.log)
            && |c.log| == |s.log| + n && c.log[..|s.log|] == s.log
            && forall i :: 0 <= i < n ==> c.log[|s.log| + i] == Status(s.queue[i].id, Cancelled)
    decreases n
  {
    hide Last;
    if n > 0 {
      CancelledAllLogs(s, n - 1);
    }
  }

  /** Ending the active motion also cancels everything queued behind it. */
  lemma TerminateEnds(s: Engine, state: MotionState)
    requires Invariant(s)
    ensures var s' := Terminated(s, state);
            && s'.queue == [] && QueueCancelled(s, s')
            && s'.control == (if s.control.state == Running || s.control.state == Completed
                              then s.control.(state := state) else s.control)
            && s'.nextId == s.nextId && s'.skipped == s.skipped
  {
    hide PlanSound, Conserved, CancelledAll;
    CancelledAllLogs(s, |s.queue|);
  }

  /** Cancelling the active motion: a running one ends as cancelled together with the queue, one that has ended stays
      as it is, and neither is an error. */
  lemma CancelActive(s: Engine, sqrt: real -> real)
    requires Invariant(s) && s.control.id != 0
    ensures var (s', error) := CancelMotion(s, s.control.id, sqrt);
            && error.None?
            && (s.control.state == Running ==>
                  && s'.control == s.control.(state := Cancelled) && s'.queue == [] && QueueCancelled(s, s')
                  && s'.nextId == s.nextId && s'.skipped == s.skipped)
            && (s.control.state != Running ==> s' == s)
  {
    hide PlanSound, Conserved, Terminated, CancelQueuedAt, QueueIndex, Remembered;
    TerminateEnds(s, Cancelled);
  }

  // ---------- What a cancellation refuses ----------

  predicate InQueue(s: Engine, id: nat) {
    exists i :: 0 <= i < |s.queue| && s.queue[i].id == id
  }

  /** The two motions between which queue position i is taken out do not fit together. */
  predicate Detachable(s: Engine, i: nat)
    requires i + 1 < |s.queue|
  {
    |Before(s, i).joints| == |s.queue[i + 1].plan.joints|
  }

  /** Some joint cannot be brought within its limits to where the successor starts. */
  ghost predicate ApproachExceeds(mode: Mode, plan: Plan, predecessor: Plan, sqrt: real -> real) {
    && Sampleable(predecessor) && Startable(plan) && |predecessor.joints| == |plan.joints|
    && var from := FinalPositions(predecessor);
       var duration := RebindDuration(mode, plan, from, sqrt, |plan.joints|);
       exists j :: 0 <= j < |plan.joints| && !JointWithin(RebindCoefficients(plan, from, duration, j), plan.joints[j],
                                                          NotRecovering, duration, true)
  }

  lemma ApproachExceedsExactly(mode: Mode, plan: Plan, predecessor: Plan, sqrt: real -> real)
    requires Sampleable(predecessor) && Startable(plan) && |predecessor.joints| == |plan.joints|
    ensures Rebind(mode, plan, predecessor, sqrt) == Failure(ApproachExceedsLimits)
       <==> ApproachExceeds(mode, plan, predecessor, sqrt)
  {
    hide RebindDuration, RebindCoefficients, Rebound, JointWithin, FinalPositions;
    var from := FinalPositions(predecessor);
    var duration := RebindDuration(mode, plan, from, sqrt, |plan.joints|);
    var approach := RebindSegment(plan, from, duration);
    assert forall j :: 0 <= j < |plan.joints| ==> approach.coefficients[j] == RebindCoefficients(plan, from, duration, j);
  }

  /** The refused ids: zero; those not active, queued or remembered; and a queued motion that is not the last one and
      whose successor cannot be moved to its place. A refusal changes nothing. */
  lemma CancelRefusedExactly(s: Engine, id: nat, sqrt: real -> real)
    requires Invariant(s)
    ensures var (s', error) := CancelMotion(s, id, sqrt);
            && (error == Some(ZeroId) <==> id == 0)
            && (error == Some(UnknownId) <==>
                  && id != 0 && id != s.control.id && !InQueue(s, id)
                  && forall k :: 0 <= k < |s.history| ==> s.history[k].id != id)
            && (error == Some(NotDetachable) <==>
                  exists i: nat :: i + 1 < |s.queue| && s.queue[i].id == id && !Detachable(s, i))
            && (error == Some(ApproachExceedsLimits) <==>
                  exists i: nat :: i + 1 < |s.queue| && s.queue[i].id == id && Detachable(s, i)
                                   && ApproachExceeds(s.mode, s.queue[i + 1].plan, Before(s, i), sqrt))
            && (error.Some? ==> s' == s)
  {
    hide PlanSound, Conserved, Terminated, WithoutQueued, RebindSegment, RebindDuration, Rebound, ExtremaWithin,
      ApproachExceeds, FinalPositions;
    var i := QueueIndex(s.queue, id);
    forall k: nat | k < |s.queue| && s.queue[k].id == id ensures k == i && id != 0 && id != s.control.id {
      assert !(i < k);
    }
    if i + 1 < |s.queue| && id != 0 && id != s.control.id {
      PlansFit(s, i);
      if Detachable(s, i) {
        ApproachExceedsExactly(s.mode, s.queue[i + 1].plan, Before(s, i), sqrt);
      }
    }
  }

  lemma PlansFit(s: Engine, i: nat)
    requires Invariant(s) && i + 1 < |s.queue|
    ensures Sampleable(Before(s, i)) && Startable(s.queue[i + 1].plan)
  {
    hide Conserved, PlanSound;
    assert s.control.id != 0;
    SoundIsSampleable(Before(s, i));
    SoundIsSampleable(s.queue[i + 1].plan);
  }

  // ---------- What a start needs ----------

  /** Everything a start asks of the engine and its surroundings, apart from the joints. */
  ghost predicate Admitted(s: Engine, r: Request, enqueue: bool, replaceId: nat, c: Conditions) {
    && Planned(r).Success? && s.mode == r.mode
    && c.tokenValid && c.accepting && !c.following && !c.degraded
    && (enqueue ==> replaceId == 0 && |s.queue| < QUEUE_CAPACITY)
    && (replaceId != 0 ==> s.control.state == Running && s.control.id == replaceId)
    && (!enqueue && replaceId == 0 ==> s.control.state != Running)
    && (forall joint :: joint in c.tracked ==> joint < |r.joints|)
    && (r.approachSegmentCount == 0 || r.approachDeadline == 0.0
        || Planned(r).value.approachDuration <= r.approachDeadline + LIMIT_TOLERANCE)
  }

  /** A motion is accepted exactly if it is admitted and every joint is ready; it goes to the end of the queue if
      another one runs and it may wait, and becomes the active one otherwise, which archives one that has ended. A
      refused start changes no motion. */
  lemma StartAcceptedExactly(s: Engine, r: Request, enqueue: bool, replaceId: nat, c: Conditions)
    ensures var (s', result) := Started(s, r, enqueue, replaceId, c);
            && (result.Success? <==>
                  && Admitted(s, r, enqueue, replaceId, c) && WellFormed(r)
                  && forall k: nat :: k < |r.joints| ==> ReadyToStart(r, c, replaceId, k))
            && (result.Failure? ==> s' == s.(nextId := s'.nextId, skipped := s'.skipped))
            && (result.Success? ==>
                  && result.value == s.nextId && s'.nextId == s.nextId + 1 && s'.skipped == s.skipped
                  && Planned(r).Success?
                  && var plan := Planned(r).value;
                  && (enqueue && s.control.state == Running ==>
                        && s'.queue == s.queue + [MotionQueue.Motion(Queued, s.nextId, plan)]
                        && s'.control == s.control && s'.log == s.log)
                  && (!(enqueue && s.control.state == Running) ==>
                        && s'.queue == s.queue && s'.control == MotionQueue.Motion(Running, s.nextId, plan)
                        && s'.log == s.log + (if s.control.id != 0 && s.control.state != Running
                                              then [Status(s.control.id, s.control.state)] else [])))
  {
    hide JointRefusalFrom, ReadyToStart, Last;
    if Planned(r).Success? {
      PlanIsWellFormed(r);
      PlanKeepsApproach(r);
      NoJointRefusal(r, c, replaceId, 0);
    }
    hide Planned;
  }

  lemma PlanKeepsApproach(r: Request)
    requires Planned(r).Success?
    ensures Planned(r).value.approachSegmentCount == r.approachSegmentCount
    ensures Planned(r).value.approachDeadline == r.approachDeadline
  {
    hide SegmentWithin, SegmentAt, WaypointErrorFrom, LayoutError;
    AcceptedIsWellFormed(r);
  }

  function Distance(x: real, y: real): real {
    if x < y then y - x else x - y
  }

  /** A joint is ready exactly if it reports the power the runtime gave it and, outside a replacement and a planned
      transaction, stands within 0.05 rad of the first waypoint, turned by its direction, and moves within 0.1 rad/s of the
      velocity the trajectory starts with. */
  lemma ReadyExactly(r: Request, c: Conditions, replaceId: nat, j: nat)
    requires |r.waypoints| > 0 && ShapedTo(r, 1) && j < |r.joints|
    ensures ReadyToStart(r, c, replaceId, j) <==>
              && j < |c.readings| && c.readings[j].JointReading?
              && c.readings[j].status == (if c.readings[j].parked then 0 else 1)
              && (replaceId == 0 && !c.transaction ==>
                    var drive, w := r.joints[j].drive, r.waypoints[0];
                    var starts := if r.trajectoryPv || j in w.velocityMask then w.velocities[j] else 0.0;
                    && Distance(c.readings[j].position, drive.direction * w.positions[j]) <= 0.05
                    && Distance(drive.direction * c.readings[j].velocity * drive.velocityFeedbackScale, starts) <= 0.10)
  {
  }

  /** That is the velocity a quintic plan starts with. */
  lemma StartsAsPlanned(r: Request, j: nat, motion: Kinematics)
    requires Planned(r).Success? && !r.trajectoryPv && j < |r.joints| && |r.waypoints| > 0
    requires WaypointMotion.Passes(Planned(r).value, 0, j, motion)
    ensures Names(r, 0, j) && motion.position == PositionAt(r, 0, j) && motion.velocity == StartVelocity(r, j)
  {
    WaypointMotion.GivenIsKept(r, 0, j);
    hide Planned, WaypointMotion.Passes;
  }

  // ---------- What every step makes of every motion ----------

  function Find(log: seq<Status>, id: nat): Option<MotionState> {
    if |log| == 0 then None else if log[|log| - 1].id == id then Some(log[|log| - 1].state)
    else Find(log[..|log| - 1], id)
  }

  /** The state of a motion: the active one, one in the queue, or one in the log. */
  function StateOf(s: Engine, id: nat): Option<MotionState> {
    if id == 0 then None
    else if s.control.id == id then Some(s.control.state)
    else if InQueue(s, id) then Some(Queued)
    else Find(s.log, id)
  }

  lemma {:induction false} FindAppended(log: seq<Status>, tail: seq<Status>, id: nat)
    ensures Find(log + tail, id) == if Find(tail, id).Some? then Find(tail, id) else Find(log, id)
    decreases |tail|
  {
    if |tail| == 0 {
      assert log + tail == log;
    } else {
      var last := |tail| - 1;
      assert (log + tail)[..|log + tail| - 1] == log + tail[..last];
      FindAppended(log, tail[..last], id);
    }
  }

  /** A start or a cancellation that is not refused; the other steps always happen. */
  predicate Granted(s: Engine, step: Step, sqrt: real -> real) {
    match step
    case Start(r, enqueue, c) => Started(s, r, enqueue, 0, c).1.Success?
    case Cancel(id) => CancelMotion(s, id, sqrt).1.None?
    case _ => true
  }

  /** What a step that is granted makes of the state of a motion. */
  function Becomes(s: Engine, step: Step, id: nat): Option<MotionState> {
    var was := StateOf(s, id);
    match step
    case Start(r, enqueue, c) =>
      if id != s.nextId then was else Some(if enqueue && s.control.state == Running then Queued else Running)
    case Arrive =>
      if id == s.control.id then Some(Completed)
      else if |s.queue| > 0 && id == s.queue[0].id then Some(Running)
      else was
    case Unsettle => if id == s.control.id then Some(Running) else was
    case Terminate(state) =>
      if id == s.control.id && (was == Some(Running) || was == Some(Completed)) then Some(state)
      else if was == Some(Queued) then Some(Cancelled)
      else was
    case Cancel(cancelled) =>
      if StateOf(s, cancelled) == Some(Running) && (id == cancelled || was == Some(Queued)) then Some(Cancelled)
      else if StateOf(s, cancelled) == Some(Queued) && id == cancelled then Some(Cancelled)
      else was
  }

  lemma {:induction false} FindTerminal(log: seq<Status>, id: nat)
    requires forall i :: 0 <= i < |log| ==> Terminal(log[i].state)
    ensures Find(log, id).Some? ==> Terminal(Find(log, id).value)
  {
    if |log| > 0 {
      FindTerminal(log[..|log| - 1], id);
    }
  }

  lemma FindLast(log: seq<Status>, status: Status, id: nat)
    ensures Find(log + [status], id) == if status.id == id then Some(status.state) else Find(log, id)
  {
    assert (log + [status])[..|log|] == log;
  }

  lemma {:induction false} FindIndexed(log: seq<Status>, i: nat)
    requires i < |log| && forall k :: i < k < |log| ==> log[k].id != log[i].id
    ensures Find(log, log[i].id) == Some(log[i].state)
    decreases |log|
  {
    if i + 1 < |log| {
      FindIndexed(log[..|log| - 1], i);
    }
  }

  lemma {:induction false} FindAbsent(log: seq<Status>, id: nat)
    requires forall k :: 0 <= k < |log| ==> log[k].id != id
    ensures Find(log, id).None?
  {
    if |log| > 0 {
      FindAbsent(log[..|log| - 1], id);
    }
  }

  /** After the queue was cancelled its motions, and no others, have become cancelled in the log. */
  lemma FindCancelled(s: Engine, s': Engine, id: nat)
    requires Ordered(s) && QueueCancelled(s, s')
    ensures Find(s'.log, id) == if InQueue(s, id) then Some(Cancelled) else Find(s.log, id)
  {
    var tail := CancelledTail(s, s');
    FindInTail(s, tail, id);
    FindAppended(s.log, tail, id);
    hide *;
  }

  lemma FindInTail(s: Engine, tail: seq<Status>, id: nat)
    requires Ordered(s) && |tail| == |s.queue|
    requires forall i :: 0 <= i < |tail| ==> tail[i] == Status(s.queue[i].id, Cancelled)
    ensures Find(tail, id) == if InQueue(s, id) then Some(Cancelled) else None
  {
    hide Find;
    if InQueue(s, id) {
      var i :| 0 <= i < |s.queue| && s.queue[i].id == id;
      assert tail[i].id == id;
      FindIndexed(tail, i);
    } else {
      FindAbsent(tail, id);
    }
  }

  lemma CancelledTail(s: Engine, s': Engine) returns (tail: seq<Status>)
    requires QueueCancelled(s, s')
    ensures s'.log == s.log + tail && |tail| == |s.queue|
    ensures forall i :: 0 <= i < |tail| ==> tail[i] == Status(s.queue[i].id, Cancelled)
  {
    tail := s'.log[|s.log|..];
    forall i | 0 <= i < |tail| ensures tail[i] == Status(s.queue[i].id, Cancelled) {
      assert tail[i] == s'.log[|s.log| + i];
    }
  }

  lemma StartStates(s: Engine, r: Request, enqueue: bool, c: Conditions, id: nat)
    requires Invariant(s)
    ensures var s' := Started(s, r, enqueue, 0, c).0;
            StateOf(s', id) == if Started(s, r, enqueue, 0, c).1.Success? then Becomes(s, Start(r, enqueue, c), id)
                               else StateOf(s, id)
  {
    StartAcceptedExactly(s, r, enqueue, 0, c);
    hide Started, Admitted, PlanSound, Conserved, WellFormed, Find;
    var s' := Started(s, r, enqueue, 0, c).0;
    if Started(s, r, enqueue, 0, c).1.Success? {
      if enqueue && s.control.state == Running {
        assert s'.queue[|s.queue|].id == s.nextId;
        assert forall i :: 0 <= i < |s.queue| ==> s'.queue[i] == s.queue[i];
      } else {
        FindLast(s.log, StatusOf(s.control), id);
      }
    }
  }

  lemma ArriveStates(s: Engine, id: nat)
    requires Invariant(s) && s.control.state == Running
    ensures StateOf(Arrived(s), id) == Becomes(s, Arrive, id)
  {
    hide PlanSound, Conserved, Find, Last;
    if |s.queue| > 0 {
      FindLast(s.log, Status(s.control.id, Completed), id);
      var s' := Arrived(s);
      assert forall i :: 0 <= i < |s'.queue| ==> s'.queue[i] == s.queue[i + 1];
      assert InQueue(s, s.queue[0].id);
      if InQueue(s, id) && id != s.queue[0].id {
        var i :| 0 <= i < |s.queue| && s.queue[i].id == id;
        assert s'.queue[i - 1].id == id;
      }
    }
  }

  lemma TerminateStates(s: Engine, state: MotionState, id: nat)
    requires Invariant(s)
    ensures StateOf(Terminated(s, state), id) == Becomes(s, Terminate(state), id)
  {
    TerminateEnds(s, state);
    var s' := Terminated(s, state);
    FindCancelled(s, s', id);
    FindTerminal(s.log, id);
    hide Terminated, PlanSound, Conserved, Find;
  }

  lemma CancelActiveStates(s: Engine, id: nat, sqrt: real -> real)
    requires Invariant(s) && s.control.id != 0
    ensures StateOf(CancelMotion(s, s.control.id, sqrt).0, id) == Becomes(s, Cancel(s.control.id), id)
  {
    CancelActive(s, sqrt);
    var s' := CancelMotion(s, s.control.id, sqrt).0;
    if s.control.state == Running {
      FindCancelled(s, s', id);
      FindTerminal(s.log, id);
    }
    hide CancelMotion, PlanSound, Conserved, Find;
  }

  lemma CancelQueuedStates(s: Engine, cancelled: nat, id: nat, sqrt: real -> real)
    requires Invariant(s) && InQueue(s, cancelled) && CancelMotion(s, cancelled, sqrt).1.None?
    ensures StateOf(CancelMotion(s, cancelled, sqrt).0, id) == Becomes(s, Cancel(cancelled), id)
  {
    hide CancelMotion, PlanSound, Conserved, Shapes, Find, QueueIndex, StateOf;
    InQueueIsIds(s, cancelled);
    CancelQueuedOnly(s, cancelled, sqrt);
    hide InQueue, Ids;
    DroppedState(s, CancelMotion(s, cancelled, sqrt).0, QueueIndex(s.queue, cancelled), id);
    QueuedState(s, cancelled);
  }

  lemma QueuedState(s: Engine, id: nat)
    requires Ordered(s) && InQueue(s, id)
    ensures StateOf(s, id) == Some(Queued) && id != s.control.id
  {
  }

  lemma DroppedState(s: Engine, s': Engine, i: nat, id: nat)
    requires Ordered(s) && i < |s.queue| && Ids(s'.queue) == Ids(s.queue[..i]) + Ids(s.queue[i + 1..])
    requires s'.control == s.control && s'.log == s.log + [Status(s.queue[i].id, Cancelled)]
    ensures StateOf(s', id) == if id == s.queue[i].id then Some(Cancelled) else StateOf(s, id)
  {
    FindLast(s.log, Status(s.queue[i].id, Cancelled), id);
    DroppedFromQueue(s, s', i, id);
    assert InQueue(s, s.queue[i].id);
    hide Find, InQueue;
  }

  lemma DroppedFromQueue(s: Engine, s': Engine, i: nat, id: nat)
    requires Ordered(s) && i < |s.queue| && Ids(s'.queue) == Ids(s.queue[..i]) + Ids(s.queue[i + 1..])
    ensures InQueue(s', id) <==> InQueue(s, id) && id != s.queue[i].id
    ensures InQueue(s, id) ==> id != s.control.id && id != 0
  {
    InQueueIsIds(s, id);
    InQueueIsIds(s', id);
    assert Ids(s.queue) == Ids(s.queue[..i]) + [s.queue[i].id] + Ids(s.queue[i + 1..]);
    if id == s.queue[i].id {
      assert id !in Ids(s.queue[..i]) && id !in Ids(s.queue[i + 1..]);
    }
  }

  lemma InQueueIsIds(s: Engine, id: nat)
    ensures InQueue(s, id) <==> id in Ids(s.queue)
  {
    if InQueue(s, id) {
      var i :| 0 <= i < |s.queue| && s.queue[i].id == id;
      assert Ids(s.queue)[i] == id;
    }
  }

  /** Every step makes exactly this of every motion; one that is refused makes nothing of any. */
  lemma StateNext(s: Engine, step: Step, sqrt: real -> real, id: nat)
    requires Invariant(s) && Enabled(s, step)
    ensures StateOf(Next(s, step, sqrt), id) == if Granted(s, step, sqrt) then Becomes(s, step, id) else StateOf(s, id)
  {
    hide Started, Arrived, Terminated, CancelMotion, Invariant;
    match step
    case Start(r, enqueue, c) => StartStates(s, r, enqueue, c, id);
    case Arrive => ArriveStates(s, id);
    case Unsettle =>
    case Terminate(state) => TerminateStates(s, state, id);
    case Cancel(cancelled) => CancelStates(s, cancelled, id, sqrt);
  }

  lemma CancelStates(s: Engine, cancelled: nat, id: nat, sqrt: real -> real)
    requires Invariant(s)
    ensures StateOf(CancelMotion(s, cancelled, sqrt).0, id)
         == if CancelMotion(s, cancelled, sqrt).1.None? then Becomes(s, Cancel(cancelled), id) else StateOf(s, id)
  {
    CancelRefusedExactly(s, cancelled, sqrt);
    if CancelMotion(s, cancelled, sqrt).1.None? {
      if cancelled == s.control.id {
        CancelActiveStates(s, id, sqrt);
      } else if InQueue(s, cancelled) {
        CancelQueuedStates(s, cancelled, id, sqrt);
      } else {
        CancelEndedStates(s, cancelled, sqrt);
        FindTerminal(s.log, cancelled);
        hide CancelMotion, Find;
      }
    }
  }

  lemma CancelEndedStates(s: Engine, cancelled: nat, sqrt: real -> real)
    requires Invariant(s) && cancelled != s.control.id && !InQueue(s, cancelled)
    ensures CancelMotion(s, cancelled, sqrt).0 == s
  {
    hide PlanSound, Conserved, CancelQueuedAt, Terminated;
  }

  /** A motion that was cancelled or faulted stays so, over every run. */
  lemma {:induction false} EndedForGood(mode: Mode, steps: seq<Step>, sqrt: real -> real, n: nat, id: nat)
    requires n <= |steps|
    requires var state := StateOf(Run(Initial(mode), steps[..n], sqrt), id);
             state == Some(Cancelled) || state == Some(Faulted)
    ensures StateOf(Run(Initial(mode), steps, sqrt), id) == StateOf(Run(Initial(mode), steps[..n], sqrt), id)
    decreases |steps|
  {
    hide Next, StateOf, Invariant, Granted;
    if n < |steps| {
      var shorter := steps[..|steps| - 1];
      assert shorter[..n] == steps[..n];
      EndedForGood(mode, shorter, sqrt, n, id);
      RunKeeps(mode, shorter, sqrt);
      var before := Run(Initial(mode), shorter, sqrt);
      if Enabled(before, steps[|steps| - 1]) {
        StateNext(before, steps[|steps| - 1], sqrt, id);
        EndedIsNotActive(before, steps[|steps| - 1], id);
      }
    } else {
      assert steps[..n] == steps;
    }
  }

  lemma EndedIsNotActive(s: Engine, step: Step, id: nat)
    requires Invariant(s) && Enabled(s, step) && (StateOf(s, id) == Some(Cancelled) || StateOf(s, id) == Some(Faulted))
    ensures Becomes(s, step, id) == StateOf(s, id)
  {
    if s.nextId <= id {
      LoggedIsIssued(s, id);
    }
    hide PlanSound, Find, Conserved;
    if |s.queue| > 0 {
      assert InQueue(s, s.queue[0].id);
    }
  }

  lemma LoggedIsIssued(s: Engine, id: nat)
    requires Invariant(s) && s.nextId <= id
    ensures StateOf(s, id).None?
  {
    hide PlanSound;
    forall k | 0 <= k < |s.log| ensures s.log[k].id != id {
      LoggedBefore(s, k);
    }
    FindAbsent(s.log, id);
  }

  lemma LoggedBefore(s: Engine, k: nat)
    requires Conserved(s) && k < |s.log|
    ensures s.log[k].id < s.nextId
  {
    assert LogIds(s.log)[k] == s.log[k].id;
    assert s.log[k].id in LogIds(s.log);
    assert Accounted(s)[s.log[k].id] > 0;
  }

  /** The history is the end of the log, up to the last 128 motions that ended. */
  lemma HistoryIsTheEnd(s: Engine)
    requires Invariant(s)
    ensures var n := if |s.log| <= 128 then |s.log| else 128;
            |s.history| == n && s.history == s.log[|s.log| - n..]
  {
  }
}
