/** What every run of the motion engine keeps. */
module MotionQueueProperties {
  import opened RealArithmetic
  import opened Results
  import opened TrajectorySegments
  import opened TrajectoryRequest
  import opened TrajectoryRequestProperties
  import opened MotionQueue

  // ---------- Plans ----------

  /** Gap-free segments with a matching schedule. */
  ghost predicate PlanSound(p: Plan) {
    && |p.joints| > 0 && Contiguous(p.segments)
    && (forall i :: 0 <= i < |p.segments| ==> |p.segments[i].coefficients| == |p.joints|)
    && End(p.segments[|p.segments| - 1]) == p.referenceDuration <= p.duration + LIMIT_TOLERANCE
    && p.approachSegmentCount <= |p.segments|
    && p.approachDuration ==
       (if p.approachSegmentCount == 0 then 0.0 else End(p.segments[p.approachSegmentCount - 1]))
    && (p.approachDeadline == 0.0 || 0.0 < p.approachDeadline < p.duration)
    && !DeadlineTooEarly(p)
  }

  lemma PlannedIsSound(r: Request)
    requires Planned(r).Success? && !DeadlineTooEarly(Planned(r).value)
    ensures PlanSound(Planned(r).value)
  {
    PlanIsWellFormed(r);
    PlanIsScheduled(r);
    hide SegmentAt, SegmentWithin, WaypointErrorFrom, LayoutError, SegmentDuration, TimeAt;
  }

  /** A rebound plan is as sound as it was, starts where its new predecessor ends, ends where it
      used to, and leaves its approach in the state the original first segment starts from. */
  lemma ReboundIsSound(mode: Mode, plan: Plan, predecessor: Plan, sqrt: real -> real)
    requires PlanSound(plan) && Rebind(mode, plan, predecessor, sqrt).Success?
    ensures Sampleable(predecessor) && Sampleable(plan) && Startable(plan)
    ensures var rebound := Rebind(mode, plan, predecessor, sqrt).value;
            && PlanSound(rebound) && Sampleable(rebound) && Startable(rebound)
            && InitialPositions(rebound) == FinalPositions(predecessor)
            && FinalPositions(rebound) == FinalPositions(plan)
            && rebound.referenceDuration >= plan.referenceDuration + SHORTEST_REBIND
  {
    hide RebindDuration, RebindCoefficients, ExtremaWithin, PlanSound, FinalPositions, InitialPositions;
    SoundIsSampleable(plan);
    var from := FinalPositions(predecessor);
    var duration := RebindDuration(mode, plan, from, sqrt, |plan.joints|);
    ReboundSchedule(plan, from, duration);
    ReboundEnds(plan, from, duration);
  }

  lemma SoundIsSampleable(plan: Plan)
    requires PlanSound(plan)
    ensures Sampleable(plan) && Startable(plan)
  {
  }

  lemma ReboundEnds(plan: Plan, from: seq<real>, duration: real)
    requires Sampleable(plan) && Startable(plan) && |from| == |plan.joints| && 0.0 < duration
    ensures Sampleable(Rebound(plan, from, duration)) && Startable(Rebound(plan, from, duration))
    ensures InitialPositions(Rebound(plan, from, duration)) == from
    ensures FinalPositions(Rebound(plan, from, duration)) == FinalPositions(plan)
  {
    forall j | 0 <= j < |plan.joints|
      ensures Position(RebindCoefficients(plan, from, duration, j), 0.0) == from[j]
    {
      RebindJoins(plan, from, duration, j);
    }
    hide RebindCoefficients, Position;
    var rebound := Rebound(plan, from, duration);
    assert rebound.segments[|rebound.segments| - 1].coefficients == plan.segments[|plan.segments| - 1].coefficients;
  }

  lemma ReboundSchedule(plan: Plan, from: seq<real>, duration: real)
    requires PlanSound(plan) && |from| == |plan.joints| && SHORTEST_REBIND <= duration
    ensures Sampleable(plan) && Startable(plan)
    ensures PlanSound(Rebound(plan, from, duration))
    ensures Sampleable(Rebound(plan, from, duration)) && Startable(Rebound(plan, from, duration))
  {
    hide RebindCoefficients;
    var rebound := Rebound(plan, from, duration);
    assert forall i :: 0 < i < |rebound.segments| ==> rebound.segments[i] == Delayed(plan.segments[i - 1], duration);
    var c := plan.approachSegmentCount;
    assert rebound.approachDuration == End(rebound.segments[c]);
  }

  /** The new first segment leaves at rest from the given position and hands over to the original
      one: in position, and unless the plan is position-sampled also in velocity and acceleration. */
  lemma RebindJoins(plan: Plan, from: seq<real>, duration: real, j: nat)
    requires Startable(plan) && |from| == |plan.joints| && j < |plan.joints| && 0.0 < duration
    ensures var c := RebindCoefficients(plan, from, duration, j);
            var target := Sampled(plan.segments[0].coefficients[j], 0.0, plan.segments[0].duration);
            && Position(c, 0.0) == from[j] && Position(c, 1.0) == target.position
            && (!plan.trajectoryPv ==>
                  && Sampled(c, 0.0, duration) == Kinematics(from[j], 0.0, 0.0)
                  && Sampled(c, 1.0, duration) == target)
  {
    hide Position, Velocity, Acceleration, LinearCoefficients, QuinticCoefficients;
    var target := Sampled(plan.segments[0].coefficients[j], 0.0, plan.segments[0].duration);
    if plan.trajectoryPv {
      LinearIsStraight(from[j], target.position, 0.0);
      LinearIsStraight(from[j], target.position, 1.0);
    } else {
      QuinticMeetsBoundary(Kinematics(from[j], 0.0, 0.0), target, duration);
    }
  }

  // ---------- The invariant of the engine ----------

  function Ids(queue: seq<Motion>): seq<nat> {
    seq(|queue|, i requires 0 <= i < |queue| => queue[i].id)
  }

  function LogIds(log: seq<Status>): seq<nat> {
    seq(|log|, i requires 0 <= i < |log| => log[i].id)
  }

  /** Every place an id is accounted for: archived, active, or queued. */
  function Accounted(s: Engine): multiset<nat> {
    multiset(LogIds(s.log)) + (if s.control.id == 0 then multiset{} else multiset{s.control.id}) + multiset(Ids(s.queue))
  }

  predicate Terminal(state: MotionState) {
    state == Completed || state == Cancelled || state == Faulted
  }

  /** Ids increase from the active motion through the queue. */
  ghost predicate Ordered(s: Engine) {
    && s.control.id < s.nextId
    && (forall i :: 0 <= i < |s.queue| ==> s.control.id < s.queue[i].id < s.nextId)
    && (forall i, k :: 0 <= i < k < |s.queue| ==> s.queue[i].id < s.queue[k].id)
  }

  ghost predicate Shapes(s: Engine) {
    && (|s.queue| > 0 ==> s.control.state == Running) && |s.queue| <= QUEUE_CAPACITY
    && (forall i :: 0 <= i < |s.queue| ==> s.queue[i].state == Queued && PlanSound(s.queue[i].plan))
    && (if s.control.id == 0 then s.control.state == Idle
        else (s.control.state == Running || Terminal(s.control.state)) && PlanSound(s.control.plan))
    && s.history == Last(s.log, HISTORY_CAPACITY)
    && (forall i :: 0 <= i < |s.log| ==> Terminal(s.log[i].state))
  }

  /** The ids that became motions, each once. */
  function Issued(nextId: nat, skipped: set<nat>): multiset<nat> {
    multiset(set id: nat | 0 < id < nextId && id !in skipped)
  }

  /** Every id that became a motion is accounted for exactly once, and no other id is. */
  ghost predicate Conserved(s: Engine) {
    Accounted(s) == Issued(s.nextId, s.skipped)
  }

  ghost predicate Invariant(s: Engine) {
    Ordered(s) && Shapes(s) && Conserved(s) && forall id :: id in s.skipped ==> id < s.nextId
  }

  datatype Step =
    | Start(r: Request, enqueue: bool, c: Conditions)
    | Arrive
    | Unsettle
    | Terminate(state: MotionState)
    | Cancel(id: nat)

  /** When the runtime takes a step. */
  predicate Enabled(s: Engine, step: Step) {
    match step
    case Arrive => s.control.state == Running
    case Unsettle => s.control.state == Completed && s.control.id != 0
    case Terminate(state) => state == Cancelled || state == Faulted
    case _ => true
  }

  function Next(s: Engine, step: Step, sqrt: real -> real): Engine {
    match step
    case Start(r, enqueue, c) => Started(s, r, enqueue, 0, c).0
    case Arrive => Arrived(s)
    case Unsettle => Unsettled(s)
    case Terminate(state) => Terminated(s, state)
    case Cancel(id) => CancelMotion(s, id, sqrt).0
  }

  /** The engine after a run; steps that are not enabled do not happen. */
  function Run(s: Engine, steps: seq<Step>, sqrt: real -> real): Engine
    decreases |steps|
  {
    if |steps| == 0 then s
    else
      var before := Run(s, steps[..|steps| - 1], sqrt);
      if Enabled(before, steps[|steps| - 1]) then Next(before, steps[|steps| - 1], sqrt) else before
  }

  function Initial(mode: Mode): Engine {
    Engine(mode, 1, NO_MOTION, [], [], [], {})
  }

  // ---------- Archiving ----------

  lemma LastOfAppended(log: seq<Status>, status: Status, n: nat)
    requires n > 0
    ensures Last(Last(log, n) + [status], n) == Last(log + [status], n)
  {
  }

  lemma ArchivedKeeps(s: Engine, m: Motion)
    requires Terminal(m.state) && m.id != 0
    ensures var a := Archived(s, m);
            && multiset(LogIds(a.log)) == multiset(LogIds(s.log)) + multiset{m.id}
            && (s.history == Last(s.log, HISTORY_CAPACITY) ==> a.history == Last(a.log, HISTORY_CAPACITY))
            && ((forall i :: 0 <= i < |s.log| ==> Terminal(s.log[i].state)) ==>
                  forall i :: 0 <= i < |a.log| ==> Terminal(a.log[i].state))
  {
    hide Last;
    LastOfAppended(s.log, StatusOf(m), HISTORY_CAPACITY);
    assert LogIds(s.log + [StatusOf(m)]) == LogIds(s.log) + [m.id];
  }

  lemma QueueSplit(queue: seq<Motion>, i: nat)
    requires i < |queue|
    ensures multiset(Ids(queue)) == multiset(Ids(queue[..i] + queue[i + 1..])) + multiset{queue[i].id}
  {
    assert Ids(queue) == Ids(queue[..i]) + [queue[i].id] + Ids(queue[i + 1..]);
    assert Ids(queue[..i] + queue[i + 1..]) == Ids(queue[..i]) + Ids(queue[i + 1..]);
  }

  lemma QueueAppend(queue: seq<Motion>, m: Motion)
    ensures multiset(Ids(queue + [m])) == multiset(Ids(queue)) + multiset{m.id}
  {
    assert Ids(queue + [m]) == Ids(queue) + [m.id];
  }

  lemma EmptyIds()
    ensures Ids([]) == [] && multiset(Ids([])) == multiset{}
  {
  }

  // ---------- Every step keeps the invariant ----------

  lemma IssueOne(id: nat, skipped: set<nat>)
    requires 0 < id && forall k :: k in skipped ==> k < id
    ensures Issued(id + 1, skipped) == Issued(id, skipped) + multiset{id}
    ensures Issued(id + 1, skipped + {id}) == Issued(id, skipped)
  {
    var before := set k: nat | 0 < k < id && k !in skipped;
    assert (set k: nat | 0 < k < id + 1 && k !in skipped) == before + {id};
    assert (set k: nat | 0 < k < id + 1 && k !in skipped + {id}) == before;
  }

  /** A motion that is done leaves the active place for the archive. */
  lemma ArchiveAccounts(s: Engine, m: Motion, control: Motion, queue: seq<Motion>)
    requires Terminal(m.state) && m.id != 0 && control.id != 0
    ensures Accounted(Archived(s, m).(control := control, queue := queue))
         == multiset(LogIds(s.log)) + multiset{m.id} + multiset{control.id} + multiset(Ids(queue))
  {
    ArchivedKeeps(s, m);
    hide Last, Ids, LogIds;
  }

  /** Feedback of joint j that a start accepts: its power is as the runtime set it, and outside a replacement and a
      planned transaction it stands where the trajectory starts, with the velocity it starts with. */
  predicate ReadyToStart(r: Request, c: Conditions, replaceId: nat, j: nat)
    requires Names(r, 0, j)
  {
    && ReadingOf(c, j).JointReading?
    && ReadingOf(c, j).status == (if ReadingOf(c, j).parked then 0 else 1)
    && (replaceId == 0 && !c.transaction ==> PositionSynchronized(r, c, j) && VelocitySynchronized(r, c, j))
  }

  lemma {:induction false} NoJointRefusal(r: Request, c: Conditions, replaceId: nat, j: nat)
    requires |r.waypoints| > 0 && ShapedTo(r, 1) && j <= |r.joints|
    ensures JointRefusalFrom(r, c, replaceId, j).None?
       <==> forall k: nat :: j <= k < |r.joints| ==> ReadyToStart(r, c, replaceId, k)
    decreases |r.joints| - j
  {
    hide PositionSynchronized, VelocitySynchronized;
    if j < |r.joints| {
      NoJointRefusal(r, c, replaceId, j + 1);
      assert JointRefusal(r, c, replaceId, j).None? <==> ReadyToStart(r, c, replaceId, j);
    }
  }

  /** A motion starts, or is queued, only from a runtime that accepts it and only if every joint is ready for it. */
  lemma StartIsSynchronized(s: Engine, r: Request, enqueue: bool, replaceId: nat, c: Conditions)
    requires Started(s, r, enqueue, replaceId, c).1.Success?
    ensures c.tokenValid && c.accepting && !c.following && !c.degraded && s.mode == r.mode
    ensures WellFormed(r)
    ensures forall k: nat :: k < |r.joints| ==> ReadyToStart(r, c, replaceId, k)
  {
    PlanIsWellFormed(r);
    hide Planned, JointRefusalFrom, ReadyToStart, MaskTooLarge, DeadlineTooEarly;
    NoJointRefusal(r, c, replaceId, 0);
  }

  lemma StartShapes(s: Engine, r: Request, enqueue: bool, c: Conditions)
    requires Ordered(s) && Shapes(s) && StartRefusal(s, r, enqueue, 0, c).None?
    ensures Ordered(Started(s, r, enqueue, 0, c).0) && Shapes(Started(s, r, enqueue, 0, c).0)
  {
    hide Planned, PlanSound, Last, DeadlineTooEarly, JointRefusalFrom, MaskTooLarge;
    if !MaskTooLarge(r, c) && !DeadlineTooEarly(Planned(r).value) {
      PlannedIsSound(r);
      if !(enqueue && s.control.state == Running) && s.control.id != 0 {
        ArchivedKeeps(s.(nextId := s.nextId + 1), s.control);
      }
    }
  }

  lemma StartAccounts(s: Engine, r: Request, enqueue: bool, c: Conditions)
    requires 0 < s.nextId && StartRefusal(s, r, enqueue, 0, c).None?
    requires s.control.id == 0 || s.control.state == Running || Terminal(s.control.state)
    requires s.control.id == 0 ==> s.control.state == Idle
    ensures var s' := Started(s, r, enqueue, 0, c).0;
            if MaskTooLarge(r, c) || DeadlineTooEarly(Planned(r).value) then
              Accounted(s') == Accounted(s) && s'.nextId == s.nextId + 1 && s'.skipped == s.skipped + {s.nextId}
            else
              && Accounted(s') == Accounted(s) + multiset{s.nextId}
              && s'.nextId == s.nextId + 1 && s'.skipped == s.skipped
  {
    hide Planned, PlanSound, Last, Ids, LogIds, DeadlineTooEarly, JointRefusalFrom, MaskTooLarge;
    var plan := Planned(r).value;
    QueueAppend(s.queue, MotionQueue.Motion(Queued, s.nextId, plan));
    if !(enqueue && s.control.state == Running) && s.control.id != 0 {
      ArchiveAccounts(s.(nextId := s.nextId + 1), s.control, MotionQueue.Motion(Running, s.nextId, plan), s.queue);
    }
  }

  lemma StartKeeps(s: Engine, r: Request, enqueue: bool, c: Conditions)
    requires Invariant(s)
    ensures Invariant(Started(s, r, enqueue, 0, c).0)
  {
    hide Started, Shapes, Ordered, Accounted, Issued, DeadlineTooEarly, StartRefusal, Planned, Terminal;
    ControlShape(s);
    if StartRefusal(s, r, enqueue, 0, c).None? {
      StartShapes(s, r, enqueue, c);
      StartAccounts(s, r, enqueue, c);
      IssueOne(s.nextId, s.skipped);
    } else {
      StartRefused(s, r, enqueue, c);
    }
  }

  lemma ControlShape(s: Engine)
    requires Ordered(s) && Shapes(s)
    ensures 0 < s.nextId
    ensures s.control.id == 0 || s.control.state == Running || Terminal(s.control.state)
    ensures s.control.id == 0 ==> s.control.state == Idle
  {
    hide PlanSound, Last;
  }

  lemma StartRefused(s: Engine, r: Request, enqueue: bool, c: Conditions)
    requires StartRefusal(s, r, enqueue, 0, c).Some?
    ensures Started(s, r, enqueue, 0, c).0 == s
  {
    hide Planned, StartRefusal;
  }

  lemma ArriveKeeps(s: Engine)
    requires Invariant(s) && s.control.state == Running
    ensures Invariant(Arrived(s))
  {
    hide PlanSound, Last, Ids, LogIds, Issued;
    if |s.queue| > 0 {
      var done := s.control.(state := Completed);
      ArchivedKeeps(s, done);
      ArchiveAccounts(s, done, s.queue[0].(state := Running), s.queue[1..]);
      QueueSplit(s.queue, 0);
      assert s.queue[..0] + s.queue[0 + 1..] == s.queue[1..];
      assert Accounted(Arrived(s)) == Accounted(s);
    } else {
      assert Accounted(Arrived(s)) == Accounted(s);
    }
  }

  lemma {:induction false} CancelledAllKeeps(s: Engine, n: nat)
    requires Ordered(s) && Shapes(s) && n <= |s.queue|
    ensures var c := CancelledAll(s, n);
            && c == s.(history := c.history, log := c.log)
            && c.history == Last(c.log, HISTORY_CAPACITY)
            && (forall i :: 0 <= i < |c.log| ==> Terminal(c.log[i].state))
            && multiset(LogIds(c.log)) == multiset(LogIds(s.log)) + multiset(Ids(s.queue[..n]))
    decreases n
  {
    hide PlanSound, Last, Ids, LogIds;
    if n == 0 {
      EmptyIds();
      assert s.queue[..0] == [];
    } else {
      CancelledAllKeeps(s, n - 1);
      ArchivedKeeps(CancelledAll(s, n - 1), s.queue[n - 1].(state := Cancelled));
      QueueAppend(s.queue[..n - 1], s.queue[n - 1]);
      assert s.queue[..n] == s.queue[..n - 1] + [s.queue[n - 1]];
    }
  }

  lemma TerminateKeeps(s: Engine, state: MotionState)
    requires Invariant(s) && (state == Cancelled || state == Faulted)
    ensures Invariant(Terminated(s, state))
  {
    hide PlanSound, Last, Ids, LogIds, CancelledAll, Issued, Accounted;
    CancelledAllKeeps(s, |s.queue|);
    TerminateAccounts(s, state);
  }

  lemma TerminateAccounts(s: Engine, state: MotionState)
    requires Ordered(s) && Shapes(s)
    ensures Accounted(Terminated(s, state)) == Accounted(s)
  {
    CancelledAllKeeps(s, |s.queue|);
    hide PlanSound, Last, Ids, LogIds, CancelledAll, Ordered, Shapes;
    EmptyIds();
    assert s.queue[..|s.queue|] == s.queue;
  }

  lemma WithoutQueuedAccounts(s: Engine, i: nat, queue: seq<Motion>)
    requires i < |s.queue| == |queue| && queue[i].id != 0 && Ids(queue) == Ids(s.queue)
    ensures Accounted(WithoutQueued(s, i, queue)) == Accounted(s)
  {
    hide Last, Ids, LogIds;
    ArchivedKeeps(s, queue[i].(state := Cancelled));
    QueueSplit(queue, i);
  }

  /** Dropping a queued motion, with the plan of its successor replaced or not. */
  lemma WithoutQueuedKeeps(s: Engine, i: nat, queue: seq<Motion>)
    requires Invariant(s) && i < |s.queue| == |queue|
    requires forall k :: 0 <= k < |queue| ==> queue[k].id == s.queue[k].id && queue[k].state == Queued
    requires forall k :: 0 <= k < |queue| ==> PlanSound(queue[k].plan)
    ensures Invariant(WithoutQueued(s, i, queue))
    ensures WithoutQueued(s, i, queue).log == s.log + [Status(s.queue[i].id, Cancelled)]
  {
    hide PlanSound, Last, LogIds, Accounted, Issued;
    ArchivedKeeps(s, queue[i].(state := Cancelled));
    assert Ids(queue) == Ids(s.queue);
    WithoutQueuedAccounts(s, i, queue);
  }

  lemma CancelAtKeeps(s: Engine, i: nat, sqrt: real -> real)
    requires Invariant(s) && i < |s.queue|
    ensures Invariant(CancelQueuedAt(s, i, sqrt).0)
  {
    hide PlanSound, WithoutQueued, Rebind, Conserved;
    if i + 1 == |s.queue| {
      WithoutQueuedKeeps(s, i, s.queue);
    } else if Rebind(s.mode, s.queue[i + 1].plan, Before(s, i), sqrt).Success? {
      var plan := Rebind(s.mode, s.queue[i + 1].plan, Before(s, i), sqrt).value;
      ReboundIsSound(s.mode, s.queue[i + 1].plan, Before(s, i), sqrt);
      WithoutQueuedKeeps(s, i, s.queue[i + 1 := s.queue[i + 1].(plan := plan)]);
    }
  }

  lemma CancelKeeps(s: Engine, id: nat, sqrt: real -> real)
    requires Invariant(s)
    ensures Invariant(CancelMotion(s, id, sqrt).0)
  {
    hide Invariant, CancelQueuedAt, Terminated, QueueIndex, Remembered;
    if s.control.id == id {
      TerminateKeeps(s, Cancelled);
    } else if QueueIndex(s.queue, id) < |s.queue| {
      CancelAtKeeps(s, QueueIndex(s.queue, id), sqrt);
    }
  }

  lemma NextKeeps(s: Engine, step: Step, sqrt: real -> real)
    requires Invariant(s) && Enabled(s, step)
    ensures Invariant(Next(s, step, sqrt))
  {
    hide Started, Arrived, Terminated, CancelMotion, PlanSound, Conserved;
    match step
    case Start(r, enqueue, c) => StartKeeps(s, r, enqueue, c);
    case Arrive => ArriveKeeps(s);
    case Unsettle => UnsettleKeeps(s);
    case Terminate(state) => TerminateKeeps(s, state);
    case Cancel(id) => CancelKeeps(s, id, sqrt);
  }

  lemma UnsettleKeeps(s: Engine)
    requires Invariant(s) && s.control.state == Completed && s.control.id != 0
    ensures Invariant(Unsettled(s))
  {
    hide PlanSound, Last, Ids, LogIds;
    assert Accounted(Unsettled(s)) == Accounted(s);
  }

  /** Over every run without replacement: the queue is only ever behind a running motion, ids
      strictly increase from the active motion through the queue, plans stay sound, the history
      is the end of the log, and every motion ever accepted is either archived once in a terminal
      state, or active, or queued, and only one of these. */
  lemma {:induction false} RunKeeps(mode: Mode, steps: seq<Step>, sqrt: real -> real)
    ensures Invariant(Run(Initial(mode), steps, sqrt))
    decreases |steps|
  {
    hide Next, Invariant;
    if |steps| == 0 {
      InitialInvariant(mode);
    } else {
      RunKeeps(mode, steps[..|steps| - 1], sqrt);
      var before := Run(Initial(mode), steps[..|steps| - 1], sqrt);
      if Enabled(before, steps[|steps| - 1]) {
        NextKeeps(before, steps[|steps| - 1], sqrt);
      }
    }
  }

  lemma InitialInvariant(mode: Mode)
    ensures Invariant(Initial(mode))
  {
  }

  // ---------- Each queued motion starts where its predecessor ends ----------

  ghost predicate Follows(first: Plan, second: Plan) {
    Sampleable(first) && Startable(second) && FinalPositions(first) == InitialPositions(second)
  }

  ghost predicate Linked(s: Engine) {
    forall i :: 0 <= i < |s.queue| ==> Follows(Before(s, i), s.queue[i].plan)
  }

  /** A motion put in the queue was planned from the end of the last motion there. */
  ghost predicate PlannedFromTail(s: Engine, step: Step) {
    step.Start? && step.enqueue && s.control.state == Running && Planned(step.r).Success? ==>
      Follows(Before(s, |s.queue|), Planned(step.r).value)
  }

  /** The rebound plan takes the place of two. */
  lemma ReboundFollows(s: Engine, i: nat, sqrt: real -> real)
    requires Invariant(s) && Linked(s) && i + 1 < |s.queue|
    requires Rebind(s.mode, s.queue[i + 1].plan, Before(s, i), sqrt).Success?
    ensures var plan := Rebind(s.mode, s.queue[i + 1].plan, Before(s, i), sqrt).value;
            && Follows(Before(s, i), plan)
            && (i + 2 < |s.queue| ==> Follows(plan, s.queue[i + 2].plan))
  {
    hide PlanSound, Rebind, Conserved, FinalPositions, InitialPositions, Sampleable, Startable;
    ReboundIsSound(s.mode, s.queue[i + 1].plan, Before(s, i), sqrt);
    assert i + 2 < |s.queue| ==> Follows(Before(s, i + 2), s.queue[i + 2].plan);
  }

  lemma DroppingKeepsLinks(s: Engine, i: nat, queue: seq<Motion>)
    requires Linked(s) && i < |s.queue| == |queue|
    requires forall k :: 0 <= k < |queue| && k != i + 1 ==> queue[k] == s.queue[k]
    requires i + 1 < |queue| ==> Follows(Before(s, i), queue[i + 1].plan)
    requires i + 2 < |queue| ==> Follows(queue[i + 1].plan, queue[i + 2].plan)
    ensures Linked(WithoutQueued(s, i, queue))
  {
    hide Archived, Follows;
    var s' := WithoutQueued(s, i, queue);
    ArchivedKeepsOthers(s, queue[i].(state := Cancelled));
    forall k | 0 <= k < |s'.queue| ensures Follows(Before(s', k), s'.queue[k].plan) {
      if k < i {
        assert Follows(Before(s, k), s.queue[k].plan);
      } else if k > i + 1 {
        assert Follows(Before(s, k + 1), s.queue[k + 1].plan);
      }
    }
  }

  lemma CancelAtKeepsLinks(s: Engine, i: nat, sqrt: real -> real)
    requires Invariant(s) && Linked(s) && i < |s.queue|
    ensures Linked(CancelQueuedAt(s, i, sqrt).0)
  {
    hide Invariant, Rebind, Follows, WithoutQueued;
    if i + 1 == |s.queue| {
      DroppingKeepsLinks(s, i, s.queue);
    } else if Rebind(s.mode, s.queue[i + 1].plan, Before(s, i), sqrt).Success? {
      var plan := Rebind(s.mode, s.queue[i + 1].plan, Before(s, i), sqrt).value;
      ReboundFollows(s, i, sqrt);
      DroppingKeepsLinks(s, i, s.queue[i + 1 := s.queue[i + 1].(plan := plan)]);
    }
  }

  lemma CancelKeepsLinks(s: Engine, id: nat, sqrt: real -> real)
    requires Invariant(s) && Linked(s)
    ensures Linked(CancelMotion(s, id, sqrt).0)
  {
    hide Invariant, CancelQueuedAt, Terminated, QueueIndex, Remembered, Follows;
    if s.control.id == id {
      TerminatedIsEmpty(s, Cancelled);
    } else if QueueIndex(s.queue, id) < |s.queue| {
      CancelAtKeepsLinks(s, QueueIndex(s.queue, id), sqrt);
    }
  }

  lemma TerminatedIsEmpty(s: Engine, state: MotionState)
    ensures Terminated(s, state).queue == []
  {
  }

  lemma ArchivedKeepsOthers(s: Engine, m: Motion)
    ensures Archived(s, m) == s.(history := Archived(s, m).history, log := Archived(s, m).log)
  {
  }

  lemma NextKeepsLinks(s: Engine, step: Step, sqrt: real -> real)
    requires Invariant(s) && Linked(s) && Enabled(s, step) && PlannedFromTail(s, step)
    ensures Linked(Next(s, step, sqrt))
  {
    hide CancelMotion, PlanSound, Conserved, Planned, Follows, DeadlineTooEarly, JointRefusalFrom, MaskTooLarge, Last, CancelledAll;
    match step
    case Start(r, enqueue, c) =>
    case Arrive =>
      if |s.queue| > 0 {
        var s' := Arrived(s);
        forall i | 0 <= i < |s'.queue| ensures Follows(Before(s', i), s'.queue[i].plan) {
          assert Follows(Before(s, i + 1), s.queue[i + 1].plan);
        }
      }
    case Unsettle =>
    case Terminate(state) =>
    case Cancel(id) => CancelKeepsLinks(s, id, sqrt);
  }

  /** Every enqueued motion of the run was planned from the tail it met. */
  ghost predicate AlwaysFromTail(s: Engine, steps: seq<Step>, sqrt: real -> real) {
    forall n :: 0 <= n < |steps| ==> PlannedFromTail(Run(s, steps[..n], sqrt), steps[n])
  }

  /** Over every such run each queued motion starts where the one before it ends, whatever was
      cancelled in between. */
  lemma {:induction false} RunKeepsLinks(mode: Mode, steps: seq<Step>, sqrt: real -> real)
    requires AlwaysFromTail(Initial(mode), steps, sqrt)
    ensures Linked(Run(Initial(mode), steps, sqrt))
    decreases |steps|
  {
    hide Next, Invariant, Linked, PlannedFromTail;
    if |steps| == 0 {
      InitialLinked(mode);
    } else {
      var shorter := steps[..|steps| - 1];
      forall n | 0 <= n < |shorter| ensures PlannedFromTail(Run(Initial(mode), shorter[..n], sqrt), shorter[n]) {
        assert shorter[..n] == steps[..n];
        assert PlannedFromTail(Run(Initial(mode), steps[..n], sqrt), steps[n]);
      }
      RunKeepsLinks(mode, shorter, sqrt);
      RunKeeps(mode, shorter, sqrt);
      var before := Run(Initial(mode), shorter, sqrt);
      assert PlannedFromTail(before, steps[|steps| - 1]);
      if Enabled(before, steps[|steps| - 1]) {
        NextKeepsLinks(before, steps[|steps| - 1], sqrt);
      }
    }
  }

  lemma InitialLinked(mode: Mode)
    ensures Linked(Initial(mode))
  {
  }

  // ---------- Cancelling one queued motion ----------

  /** Cancelling a queued motion archives that motion alone; every other motion keeps its id and
      place, and every one but its successor its plan. A refused cancellation changes nothing. */
  lemma CancelQueuedOnly(s: Engine, id: nat, sqrt: real -> real)
    requires Invariant(s) && id in Ids(s.queue)
    ensures var (s', error) := CancelMotion(s, id, sqrt);
            var i := QueueIndex(s.queue, id);
            && i < |s.queue| && s.queue[i].id == id
            && (error.Some? ==> s' == s)
            && (error.None? ==>
                  && s'.log == s.log + [Status(id, Cancelled)]
                  && s'.control == s.control && s'.nextId == s.nextId && s'.skipped == s.skipped
                  && Ids(s'.queue) == Ids(s.queue[..i]) + Ids(s.queue[i + 1..])
                  && s'.queue[..i] == s.queue[..i]
                  && (i + 1 < |s.queue| ==> s'.queue[i + 1..] == s.queue[i + 2..]))
  {
    hide Rebind, Last, QueueIndex, PlanSound, Conserved, WithoutQueued, Remembered;
    var k :| 0 <= k < |s.queue| && s.queue[k].id == id;
    var i := QueueIndex(s.queue, id);
    assert i < |s.queue| && id != s.control.id && id != 0;
    if i + 1 < |s.queue| && Rebind(s.mode, s.queue[i + 1].plan, Before(s, i), sqrt).Success? {
      var plan := Rebind(s.mode, s.queue[i + 1].plan, Before(s, i), sqrt).value;
      DroppedAt(s, i, s.queue[i + 1 := s.queue[i + 1].(plan := plan)]);
    } else {
      DroppedAt(s, i, s.queue);
    }
  }

  lemma DroppedAt(s: Engine, i: nat, queue: seq<Motion>)
    requires i < |s.queue| == |queue| && queue[i].id != 0
    requires forall k :: 0 <= k < |queue| ==> queue[k].id == s.queue[k].id
    requires forall k :: 0 <= k < |queue| && k != i + 1 ==> queue[k] == s.queue[k]
    ensures var s' := WithoutQueued(s, i, queue);
            && s'.log == s.log + [Status(queue[i].id, Cancelled)]
            && s'.control == s.control && s'.nextId == s.nextId && s'.skipped == s.skipped
            && Ids(s'.queue) == Ids(s.queue[..i]) + Ids(s.queue[i + 1..])
            && s'.queue[..i] == s.queue[..i]
            && (i + 1 < |s.queue| ==> s'.queue[i + 1..] == s.queue[i + 2..])
  {
    hide Last;
    var s' := WithoutQueued(s, i, queue);
    assert s'.queue == queue[..i] + queue[i + 1..];
    assert i + 1 < |s.queue| ==> s'.queue[i + 1..] == queue[i + 2..] == s.queue[i + 2..];
  }

  // ---------- Replacing the running motion ----------

  /** Replacing the running motion keeps ids in order exactly when nothing is queued behind it, and
      the replaced motion is then accounted for nowhere: it is neither active, queued nor archived. */
  lemma ReplacementLosesMotion(s: Engine, r: Request, replaceId: nat, c: Conditions)
    requires Invariant(s) && replaceId != 0 && Started(s, r, false, replaceId, c).1.Success?
    ensures var s' := Started(s, r, false, replaceId, c).0;
            && (Ordered(s') <==> |s.queue| == 0)
            && s'.queue == s.queue && s'.log == s.log && s'.control.id == s.nextId
            && Accounted(s)[replaceId] == 1 && Accounted(s')[replaceId] == 0
  {
    hide Planned, PlanSound, Last, Ids, LogIds, DeadlineTooEarly, JointRefusalFrom, MaskTooLarge;
    var s' := Started(s, r, false, replaceId, c).0;
    assert Accounted(s)[replaceId] == 1;
    if |s.queue| > 0 {
      assert !(s'.control.id < s'.queue[0].id);
    }
  }
}
