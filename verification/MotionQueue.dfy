/** The active motion, the queue behind it and the history of finished ones
    (runtime/src/runtime_trajectory.cpp). */
module MotionQueue {
  import opened RealArithmetic
  import opened Results
  import opened TrajectorySegments
  import opened TrajectoryRequest
  import opened TrajectoryRequestProperties

  const QUEUE_CAPACITY: nat := 64
  const HISTORY_CAPACITY: nat := 128

  datatype MotionState = Idle | Queued | Running | Completed | Cancelled | Faulted

  /** One planned motion. Id zero is the placeholder before the first one. */
  datatype Motion = Motion(state: MotionState, id: nat, plan: Plan)

  datatype Status = Status(id: nat, state: MotionState)

  datatype StartError =
    | EnqueueAndReplace | Rejected(error: RequestError) | StalePlan | NotAccepting | FollowingActive | RuntimeDegraded
    | WrongMode | AlreadyRunning | ReplacementChanged | QueueFull
    | NoFreshFeedback | PowerDisagrees | PositionNotSynchronized | VelocityNotSynchronized
    | TrackingMaskTooLarge | ApproachDeadlineTooEarly

  datatype CancelError = ZeroId | NotDetachable | ApproachExceedsLimits | UnknownId

  /** Everything about the motions. The log holds every status ever archived, of which the history
      keeps the last ones; skipped are the ids that were drawn but never became a motion. */
  datatype Engine = Engine(mode: Mode, nextId: nat, control: Motion, queue: seq<Motion>, history: seq<Status>,
                           log: seq<Status>, skipped: set<nat>)

  const NO_PLAN: Plan := Plan([], [], 0.0, 0.0, 0, 0.0, 0.0, false, 0.0, 0.0)
  const NO_MOTION: Motion := Motion(Idle, 0, NO_PLAN)

  function Last(statuses: seq<Status>, n: nat): (r: seq<Status>)
    ensures |r| <= n
  {
    if |statuses| <= n then statuses else statuses[|statuses| - n..]
  }

  function StatusOf(m: Motion): Status {
    Status(m.id, m.state)
  }

  function Archived(s: Engine, m: Motion): Engine {
    if m.id == 0 then s
    else s.(history := Last(s.history + [StatusOf(m)], HISTORY_CAPACITY), log := s.log + [StatusOf(m)])
  }

  // ---------- Starting ----------

  const START_POSITION_TOLERANCE: real := 0.05
  const START_VELOCITY_TOLERANCE: real := 0.10

  /** Fresh, fault-free feedback of a joint, or none; parked joints are disabled on purpose. */
  datatype JointReading = NoReading | JointReading(position: real, velocity: real, status: nat, parked: bool)

  /** What a start finds beside the queue: whether its planning token still holds, whether the runtime accepts motion
      commands, follows or is degraded, whether it is part of a planned transaction, what the joints report, and the
      joints whose tracking it asks for. */
  datatype Conditions = Conditions(tokenValid: bool, accepting: bool, following: bool, degraded: bool, transaction: bool,
                                   readings: seq<JointReading>, tracked: set<nat>)

  function ReadingOf(c: Conditions, j: nat): JointReading {
    if j < |c.readings| then c.readings[j] else NoReading
  }

  /** The velocity a trajectory starts with: the first waypoint's own, or rest if a quintic leaves it open. */
  function StartVelocity(r: Request, j: nat): real
    requires Names(r, 0, j)
  {
    if r.trajectoryPv || j in r.waypoints[0].velocityMask then r.waypoints[0].velocities[j] else 0.0
  }

  /** Joint j reports the position and the velocity the trajectory starts with. */
  predicate PositionSynchronized(r: Request, c: Conditions, j: nat)
    requires Names(r, 0, j) && ReadingOf(c, j).JointReading?
  {
    Abs(ReadingOf(c, j).position - Product(r.joints[j].drive.direction, PositionAt(r, 0, j))) <= START_POSITION_TOLERANCE
  }

  predicate VelocitySynchronized(r: Request, c: Conditions, j: nat)
    requires Names(r, 0, j) && ReadingOf(c, j).JointReading?
  {
    var drive := r.joints[j].drive;
    Abs(Product(Product(drive.direction, ReadingOf(c, j).velocity), drive.velocityFeedbackScale) - StartVelocity(r, j))
    <= START_VELOCITY_TOLERANCE
  }

  function JointRefusal(r: Request, c: Conditions, replaceId: nat, j: nat): Option<StartError>
    requires Names(r, 0, j)
  {
    var reading := ReadingOf(c, j);
    if reading.NoReading? || 1 < reading.status then Some(NoFreshFeedback)
    else if (reading.status == 0) != reading.parked then Some(PowerDisagrees)
    else if replaceId != 0 || c.transaction then None
    else if !PositionSynchronized(r, c, j) then Some(PositionNotSynchronized)
    else if !VelocitySynchronized(r, c, j) then Some(VelocityNotSynchronized)
    else None
  }

  function JointRefusalFrom(r: Request, c: Conditions, replaceId: nat, j: nat): Option<StartError>
    requires |r.waypoints| > 0 && ShapedTo(r, 1) && j <= |r.joints|
    decreases |r.joints| - j
  {
    if j == |r.joints| then None
    else
      var refusal := JointRefusal(r, c, replaceId, j);
      if refusal.Some? then refusal else JointRefusalFrom(r, c, replaceId, j + 1)
  }

  function StartRefusal(s: Engine, r: Request, enqueue: bool, replaceId: nat, c: Conditions): Option<StartError> {
    if enqueue && replaceId != 0 then Some(EnqueueAndReplace)
    else if Planned(r).Failure? then Some(Rejected(Planned(r).error))
    else if !c.tokenValid then Some(StalePlan)
    else if !c.accepting then Some(NotAccepting)
    else if c.following then Some(FollowingActive)
    else if c.degraded then Some(RuntimeDegraded)
    else if s.mode != r.mode then Some(WrongMode)
    else if !enqueue && s.control.state == Running && (replaceId == 0 || s.control.id != replaceId)
    then Some(AlreadyRunning)
    else if replaceId != 0 && (s.control.state != Running || s.control.id != replaceId) then Some(ReplacementChanged)
    else if enqueue && QUEUE_CAPACITY <= |s.queue| then Some(QueueFull)
    else
      PlanIsWellFormed(r);
      JointRefusalFrom(r, c, replaceId, 0)
  }

  predicate MaskTooLarge(r: Request, c: Conditions) {
    exists bit :: bit in c.tracked && bit >= |r.joints|
  }

  predicate DeadlineTooEarly(plan: Plan) {
    plan.approachSegmentCount != 0 && plan.approachDeadline != 0.0
    && plan.approachDeadline + LIMIT_TOLERANCE < plan.approachDuration
  }

  /** Draw an id, then queue the motion behind a running one or make it the active one. */
  function Started(s: Engine, r: Request, enqueue: bool, replaceId: nat, c: Conditions)
    : (Engine, Result<nat, StartError>)
  {
    var refusal := StartRefusal(s, r, enqueue, replaceId, c);
    if refusal.Some? then (s, Failure(refusal.value))
    else
      var id, plan := s.nextId, Planned(r).value;
      var drawn := s.(nextId := id + 1);
      if MaskTooLarge(r, c) then (drawn.(skipped := s.skipped + {id}), Failure(TrackingMaskTooLarge))
      else if DeadlineTooEarly(plan) then (drawn.(skipped := s.skipped + {id}), Failure(ApproachDeadlineTooEarly))
      else if enqueue && s.control.state == Running then
        (drawn.(queue := s.queue + [Motion(Queued, id, plan)]), Success(id))
      else
        var kept := if s.control.state != Running then Archived(drawn, s.control) else drawn;
        (kept.(control := Motion(Running, id, plan)), Success(id))
  }

  // ---------- Completion and termination ----------

  /** The running motion has arrived: it is done, or hands over to the next in the queue. */
  function Arrived(s: Engine): Engine {
    var done := s.control.(state := Completed);
    if |s.queue| == 0 then s.(control := done)
    else Archived(s, done).(control := s.queue[0].(state := Running), queue := s.queue[1..])
  }

  /** A completed motion whose hold became unstable settles again. */
  function Unsettled(s: Engine): Engine {
    s.(control := s.control.(state := Running))
  }

  function CancelledAll(s: Engine, n: nat): Engine
    requires n <= |s.queue|
  {
    if n == 0 then s else Archived(CancelledAll(s, n - 1), s.queue[n - 1].(state := Cancelled))
  }

  /** End the active motion in the given state and cancel everything queued behind it. */
  function Terminated(s: Engine, state: MotionState): Engine {
    var active := s.control.state == Running || s.control.state == Completed;
    CancelledAll(s, |s.queue|).(queue := [], control := if active then s.control.(state := state) else s.control)
  }

  // ---------- Cancelling one motion ----------

  predicate Sampleable(plan: Plan) {
    && |plan.segments| > 0 && |plan.joints| > 0
    && |plan.segments[|plan.segments| - 1].coefficients| == |plan.joints|
  }

  /** The positions a motion ends at. */
  function FinalPositions(plan: Plan): (p: seq<real>)
    requires Sampleable(plan)
    ensures |p| == |plan.joints|
  {
    var last := plan.segments[|plan.segments| - 1].coefficients;
    seq(|last|, j requires 0 <= j < |last| => Position(last[j], 1.0))
  }

  /** The first segment can be sampled for every joint. */
  predicate Startable(plan: Plan) {
    && |plan.segments| > 0 && |plan.segments[0].coefficients| == |plan.joints| && 0.0 < plan.segments[0].duration
  }

  /** The positions a motion starts from. */
  function InitialPositions(plan: Plan): (p: seq<real>)
    requires Startable(plan)
    ensures |p| == |plan.joints|
  {
    var first := plan.segments[0].coefficients;
    seq(|first|, j requires 0 <= j < |first| => Position(first[j], 0.0))
  }

  const SHORTEST_REBIND: real := 0.10
  const SLOWEST: real := 0.01

  function RebindVelocity(plan: Plan, joint: Joint): real {
    if plan.trajectoryPv then Min(joint.velocityLimit, plan.pvReferenceVelocity)
    else if 0.0 < joint.pvVelocityLimit then Min(joint.velocityLimit, joint.pvVelocityLimit)
    else joint.velocityLimit
  }

  function RebindAcceleration(plan: Plan, joint: Joint): real {
    if plan.trajectoryPv then plan.pvReferenceAcceleration else joint.accelerationLimit
  }

  /** The time one joint needs for a step. */
  function StepDuration(mode: Mode, plan: Plan, joint: Joint, step: real, sqrt: real -> real): real {
    Max(Ratio((if mode == Mit then 1.875 else 1.0) * step, Max(SLOWEST, RebindVelocity(plan, joint))),
        sqrt(Ratio(8.0 * step, Max(SLOWEST, RebindAcceleration(plan, joint)))))
  }

  /** The time the first n joints need to get from the given positions to the plan's start. */
  function RebindDuration(mode: Mode, plan: Plan, from: seq<real>, sqrt: real -> real, n: nat): (d: real)
    requires Startable(plan) && |from| == |plan.joints| && n <= |plan.joints|
    ensures SHORTEST_REBIND <= d
  {
    if n == 0 then SHORTEST_REBIND
    else
      var step := Abs(InitialPositions(plan)[n - 1] - from[n - 1]);
      Max(RebindDuration(mode, plan, from, sqrt, n - 1), StepDuration(mode, plan, plan.joints[n - 1], step, sqrt))
  }

  function RebindCoefficients(plan: Plan, from: seq<real>, duration: real, j: nat): Coefficients
    requires Startable(plan) && |from| == |plan.joints| && j < |plan.joints|
  {
    var first := plan.segments[0];
    var target := Sampled(first.coefficients[j], 0.0, first.duration);
    if plan.trajectoryPv then LinearCoefficients(from[j], target.position)
    else QuinticCoefficients(Kinematics(from[j], 0.0, 0.0), target, duration)
  }

  function RebindSegment(plan: Plan, from: seq<real>, duration: real): Segment
    requires Startable(plan) && |from| == |plan.joints|
  {
    Segment(0.0, duration, seq(|plan.joints|, j requires 0 <= j < |plan.joints| =>
                                 RebindCoefficients(plan, from, duration, j)))
  }

  function Delayed(s: Segment, delay: real): Segment {
    s.(start := s.start + delay)
  }

  function AllDelayed(segments: seq<Segment>, delay: real): (r: seq<Segment>)
    ensures |r| == |segments|
  {
    seq(|segments|, i requires 0 <= i < |segments| => Delayed(segments[i], delay))
  }

  /** The plan with an approach segment from the given positions in front. */
  function Rebound(plan: Plan, from: seq<real>, duration: real): Plan
    requires Startable(plan) && |from| == |plan.joints|
  {
    plan.(segments := [RebindSegment(plan, from, duration)] + AllDelayed(plan.segments, duration),
          duration := plan.duration + duration,
          referenceDuration := plan.referenceDuration + duration,
          approachDuration := plan.approachDuration + duration,
          approachDeadline := if 0.0 < plan.approachDeadline then plan.approachDeadline + duration
                              else plan.approachDeadline,
          approachSegmentCount := plan.approachSegmentCount + 1)
  }

  function NoRecovery(n: nat): (r: seq<Recovery>)
    ensures |r| == n
  {
    seq(n, _ => NotRecovering)
  }

  /** Make a plan start where the motion before it now ends. */
  function Rebind(mode: Mode, plan: Plan, predecessor: Plan, sqrt: real -> real): Result<Plan, CancelError> {
    if !Sampleable(predecessor) || |predecessor.joints| != |plan.joints| || !Startable(plan) then Failure(NotDetachable)
    else
      var from := FinalPositions(predecessor);
      var duration := RebindDuration(mode, plan, from, sqrt, |plan.joints|);
      var approach := RebindSegment(plan, from, duration);
      if !ExtremaWithin(duration, approach.coefficients, plan.joints, NoRecovery(|plan.joints|), true)
      then Failure(ApproachExceedsLimits)
      else Success(Rebound(plan, from, duration))
  }

  /** The place of a motion in the queue, or its length. */
  function QueueIndex(queue: seq<Motion>, id: nat): (i: nat)
    ensures i <= |queue| && (i < |queue| ==> queue[i].id == id) && forall k :: 0 <= k < i ==> queue[k].id != id
  {
    if |queue| == 0 || queue[0].id == id then 0 else 1 + QueueIndex(queue[1..], id)
  }

  function WithoutQueued(s: Engine, i: nat, queue: seq<Motion>): Engine
    requires i < |queue|
  {
    Archived(s, queue[i].(state := Cancelled)).(queue := queue[..i] + queue[i + 1..])
  }

  /** The plan in front of queue position i. */
  function Before(s: Engine, i: nat): Plan
    requires i <= |s.queue|
  {
    if i == 0 then s.control.plan else s.queue[i - 1].plan
  }

  /** Take a motion out of the queue, with its successor rebound to its predecessor. */
  function CancelQueuedAt(s: Engine, i: nat, sqrt: real -> real): (Engine, Option<CancelError>)
    requires i < |s.queue|
  {
    if i + 1 == |s.queue| then (WithoutQueued(s, i, s.queue), None)
    else
      match Rebind(s.mode, s.queue[i + 1].plan, Before(s, i), sqrt)
      case Failure(error) => (s, Some(error))
      case Success(plan) => (WithoutQueued(s, i, s.queue[i + 1 := s.queue[i + 1].(plan := plan)]), None)
  }

  predicate Remembered(history: seq<Status>, id: nat) {
    exists k :: 0 <= k < |history| && history[k].id == id
  }

  function CancelMotion(s: Engine, id: nat, sqrt: real -> real): (Engine, Option<CancelError>) {
    var i := QueueIndex(s.queue, id);
    if id == 0 then (s, Some(ZeroId))
    else if s.control.id == id then (if s.control.state == Running then Terminated(s, Cancelled) else s, None)
    else if i < |s.queue| then CancelQueuedAt(s, i, sqrt)
    else (s, if Remembered(s.history, id) then None else Some(UnknownId))
  }

  class MotionEngine {
    const mode: Mode
    var nextId: nat
    var control: Motion
    var queue: seq<Motion>
    var history: seq<Status>
    ghost var log: seq<Status>
    ghost var skipped: set<nat>

    constructor (mode: Mode)
      ensures State() == Engine(mode, 1, NO_MOTION, [], [], [], {})
    {
      this.mode := mode;
      nextId, control, queue, history := 1, NO_MOTION, [], [];
      log, skipped := [], {};
    }

    ghost function State(): Engine
      reads this
    {
      Engine(mode, nextId, control, queue, history, log, skipped)
    }

    method Archive(m: Motion)
      modifies `history, `log
      ensures State() == Archived(old(State()), m)
    {
      if m.id == 0 {
        return;
      }
      history := history + [StatusOf(m)];
      log := log + [StatusOf(m)];
      ghost var all := history;
      while |history| > HISTORY_CAPACITY
        invariant |history| <= |all| && history == all[|all| - |history|..]
        invariant |all| <= HISTORY_CAPACITY ==> history == all
        invariant HISTORY_CAPACITY < |all| ==> HISTORY_CAPACITY <= |history|
        invariant nextId == old(nextId) && control == old(control) && queue == old(queue) && skipped == old(skipped)
        invariant log == old(log) + [StatusOf(m)]
      {
        history := history[1..];
      }
    }

    /** Compare the feedback of every joint with the start of the trajectory. */
    method CheckStartFeedback(r: Request, c: Conditions, replaceId: nat) returns (refusal: Option<StartError>)
      requires |r.waypoints| > 0 && ShapedTo(r, 1)
      ensures refusal == JointRefusalFrom(r, c, replaceId, 0)
    {
      hide Abs, Product;
      for j := 0 to |r.joints|
        invariant JointRefusalFrom(r, c, replaceId, j) == JointRefusalFrom(r, c, replaceId, 0)
      {
        var reading := ReadingOf(c, j);
        if reading.NoReading? || reading.status > 1 {
          return Some(NoFreshFeedback);
        }
        if (!reading.parked && reading.status != 1) || (reading.parked && reading.status != 0) {
          return Some(PowerDisagrees);
        }
        if replaceId == 0 && !c.transaction {
          var drive := r.joints[j].drive;
          var requestedStart := Product(drive.direction, r.waypoints[0].positions[j]);
          if Abs(reading.position - requestedStart) > START_POSITION_TOLERANCE {
            return Some(PositionNotSynchronized);
          }
          var actualVelocity := Product(Product(drive.direction, reading.velocity), drive.velocityFeedbackScale);
          var requestedVelocity := 0.0;
          if r.trajectoryPv || j in r.waypoints[0].velocityMask {
            requestedVelocity := r.waypoints[0].velocities[j];
          }
          if Abs(actualVelocity - requestedVelocity) > START_VELOCITY_TOLERANCE {
            return Some(VelocityNotSynchronized);
          }
        }
      }
      return None;
    }

    method StartTrajectory(r: Request, enqueue: bool, replaceId: nat, c: Conditions)
      returns (result: Result<nat, StartError>)
      modifies this
      ensures (State(), result) == Started(old(State()), r, enqueue, replaceId, c)
    {
      hide Planned, Last, JointRefusalFrom;
      if enqueue && replaceId != 0 {
        return Failure(EnqueueAndReplace);
      }
      var planned := PlanTrajectory(r);
      if planned.Failure? {
        return Failure(Rejected(planned.error));
      }
      if !c.tokenValid {
        return Failure(StalePlan);
      }
      if !c.accepting {
        return Failure(NotAccepting);
      }
      if c.following {
        return Failure(FollowingActive);
      }
      if c.degraded {
        return Failure(RuntimeDegraded);
      }
      if mode != r.mode {
        return Failure(WrongMode);
      }
      if !enqueue && control.state == Running && (replaceId == 0 || control.id != replaceId) {
        return Failure(AlreadyRunning);
      }
      if replaceId != 0 && (control.state != Running || control.id != replaceId) {
        return Failure(ReplacementChanged);
      }
      if enqueue && |queue| >= QUEUE_CAPACITY {
        return Failure(QueueFull);
      }
      PlanIsWellFormed(r);
      var refusal := CheckStartFeedback(r, c, replaceId);
      if refusal.Some? {
        return Failure(refusal.value);
      }
      var prepared := Motion(Queued, nextId, planned.value);
      nextId := nextId + 1;
      if exists bit :: bit in c.tracked && bit >= |r.joints| {
        skipped := skipped + {prepared.id};
        return Failure(TrackingMaskTooLarge);
      }
      if prepared.plan.approachSegmentCount != 0 && prepared.plan.approachDeadline != 0.0
         && prepared.plan.approachDeadline + LIMIT_TOLERANCE < prepared.plan.approachDuration {
        skipped := skipped + {prepared.id};
        return Failure(ApproachDeadlineTooEarly);
      }
      var active := control.state == Running;
      if enqueue && active {
        queue := queue + [prepared];
      } else {
        if control.id != 0 && control.state != Running {
          Archive(control);
        }
        control := prepared.(state := Running);
      }
      return Success(prepared.id);
    }

    /** The running motion has physically arrived, or hands over without settling. */
    method Arrive()
      modifies this
      ensures State() == Arrived(old(State()))
    {
      control := control.(state := Completed);
      if |queue| != 0 {
        Archive(control);
        var next := queue[0];
        queue := queue[1..];
        control := next.(state := Running);
      }
    }

    method Unsettle()
      modifies this
      ensures State() == Unsettled(old(State()))
    {
      control := control.(state := Running);
    }

    method Terminate(state: MotionState)
      modifies this
      ensures State() == Terminated(old(State()), state)
    {
      var active := control.state == Running || control.state == Completed;
      ghost var before := State();
      if active {
        control := control.(state := state);
      }
      for i := 0 to |queue|
        invariant State() == CancelledAll(before, i).(control := control)
        invariant queue == before.queue
        invariant control == if active then before.control.(state := state) else before.control
      {
        Archive(queue[i].(state := Cancelled));
      }
      queue := [];
    }

    method FindQueued(id: nat) returns (i: nat)
      ensures i == QueueIndex(queue, id)
    {
      i := 0;
      while i < |queue| && queue[i].id != id
        invariant i <= |queue| && QueueIndex(queue, id) == i + QueueIndex(queue[i..], id)
      {
        i := i + 1;
      }
    }

    method Cancel(id: nat, sqrt: real -> real) returns (error: Option<CancelError>)
      modifies this
      ensures (State(), error) == CancelMotion(old(State()), id, sqrt)
    {
      hide Rebind, Last, Archived, Terminated;
      if id == 0 {
        return Some(ZeroId);
      }
      if control.id == id {
        if control.state == Running {
          Terminate(Cancelled);
        }
        return None;
      }
      var i := FindQueued(id);
      if i < |queue| {
        if i + 1 < |queue| {
          var predecessor := if i == 0 then control.plan else queue[i - 1].plan;
          var rebound := RebindPlan(mode, queue[i + 1].plan, predecessor, sqrt);
          if rebound.Failure? {
            return Some(rebound.error);
          }
          queue := queue[i + 1 := queue[i + 1].(plan := rebound.value)];
        }
        Archive(queue[i].(state := Cancelled));
        ArchivedKeepsQueue(old(State()), queue[i].(state := Cancelled), queue);
        queue := queue[..i] + queue[i + 1..];
        return None;
      }
      if exists k :: 0 <= k < |history| && history[k].id == id {
        return None;
      }
      return Some(UnknownId);
    }
  }

  lemma ArchivedKeepsQueue(s: Engine, m: Motion, queue: seq<Motion>)
    ensures Archived(s.(queue := queue), m) == Archived(s, m).(queue := queue)
  {
  }

  method StepTime(mode: Mode, plan: Plan, joint: Joint, step: real, sqrt: real -> real) returns (time: real)
    ensures time == StepDuration(mode, plan, joint, step, sqrt)
  {
    hide Ratio;
    var velocityLimit := joint.velocityLimit;
    if plan.trajectoryPv {
      velocityLimit := Min(velocityLimit, plan.pvReferenceVelocity);
    } else if joint.pvVelocityLimit > 0.0 {
      velocityLimit := Min(velocityLimit, joint.pvVelocityLimit);
    }
    var accelerationLimit := if plan.trajectoryPv then plan.pvReferenceAcceleration else joint.accelerationLimit;
    time := Ratio((if mode == Mit then 1.875 else 1.0) * step, Max(SLOWEST, velocityLimit));
    time := Max(time, sqrt(Ratio(8.0 * step, Max(SLOWEST, accelerationLimit))));
  }

  method SampleFinal(plan: Plan) returns (positions: seq<real>)
    requires Sampleable(plan)
    ensures positions == FinalPositions(plan)
  {
    hide Position;
    var last := plan.segments[|plan.segments| - 1].coefficients;
    positions := [];
    for j := 0 to |last|
      invariant |positions| == j && forall k :: 0 <= k < j ==> positions[k] == Position(last[k], 1.0)
    {
      var position := SamplePolynomial(last[j], 1.0);
      positions := positions + [position];
    }
  }

  method RebindTime(mode: Mode, plan: Plan, from: seq<real>, sqrt: real -> real) returns (duration: real)
    requires Startable(plan) && |from| == |plan.joints|
    ensures duration == RebindDuration(mode, plan, from, sqrt, |plan.joints|)
  {
    hide Position, StepDuration, Abs;
    var first := plan.segments[0];
    duration := SHORTEST_REBIND;
    for j := 0 to |plan.joints|
      invariant duration == RebindDuration(mode, plan, from, sqrt, j)
    {
      var target := SamplePolynomial(first.coefficients[j], 0.0);
      var time := StepTime(mode, plan, plan.joints[j], Abs(target - from[j]), sqrt);
      duration := Max(duration, time);
    }
  }

  method BuildRebindCoefficients(plan: Plan, from: seq<real>, duration: real) returns (coefficients: seq<Coefficients>)
    requires Startable(plan) && |from| == |plan.joints|
    ensures coefficients == RebindSegment(plan, from, duration).coefficients
  {
    hide Position, Velocity, Acceleration, LinearCoefficients, QuinticCoefficients;
    var first := plan.segments[0];
    coefficients := [];
    for j := 0 to |plan.joints|
      invariant |coefficients| == j
      invariant forall k :: 0 <= k < j ==> coefficients[k] == RebindCoefficients(plan, from, duration, k)
    {
      var position := SamplePolynomial(first.coefficients[j], 0.0);
      var velocity := SampleVelocity(first.coefficients[j], 0.0, first.duration);
      var acceleration := SampleAcceleration(first.coefficients[j], 0.0, first.duration);
      coefficients := coefficients + [
        if plan.trajectoryPv then LinearCoefficients(from[j], position)
        else QuinticCoefficients(Kinematics(from[j], 0.0, 0.0), Kinematics(position, velocity, acceleration), duration)];
    }
  }

  method DelaySegments(segments: seq<Segment>, delay: real) returns (delayed: seq<Segment>)
    ensures delayed == AllDelayed(segments, delay)
  {
    delayed := segments;
    for i := 0 to |segments|
      invariant |delayed| == |segments|
      invariant forall k :: 0 <= k < i ==> delayed[k] == Delayed(segments[k], delay)
      invariant forall k :: i <= k < |segments| ==> delayed[k] == segments[k]
    {
      delayed := delayed[i := delayed[i].(start := delayed[i].start + delay)];
    }
  }

  method RebindPlan(mode: Mode, plan: Plan, predecessor: Plan, sqrt: real -> real)
    returns (rebound: Result<Plan, CancelError>)
    ensures rebound == Rebind(mode, plan, predecessor, sqrt)
  {
    hide FinalPositions, RebindDuration, RebindCoefficients, ExtremaWithin, AllDelayed;
    if |predecessor.segments| == 0 || |predecessor.joints| == 0
       || |predecessor.segments[|predecessor.segments| - 1].coefficients| != |predecessor.joints|
       || |predecessor.joints| != |plan.joints| || !Startable(plan) {
      return Failure(NotDetachable);
    }
    var from := SampleFinal(predecessor);
    var duration := RebindTime(mode, plan, from, sqrt);
    var coefficients := BuildRebindCoefficients(plan, from, duration);
    var within := ValidateSegmentExtrema(duration, coefficients, plan.joints, NoRecovery(|plan.joints|), true);
    if !within {
      return Failure(ApproachExceedsLimits);
    }
    var delayed := DelaySegments(plan.segments, duration);
    var deadline := if plan.approachDeadline > 0.0 then plan.approachDeadline + duration else plan.approachDeadline;
    return Success(plan.(segments := [Segment(0.0, duration, coefficients)] + delayed,
                         duration := plan.duration + duration,
                         referenceDuration := plan.referenceDuration + duration,
                         approachDuration := plan.approachDuration + duration,
                         approachDeadline := deadline, approachSegmentCount := plan.approachSegmentCount + 1));
  }
}
