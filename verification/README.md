# Verified model of the Articore arm runtime

The Articore runtime drives a dual-arm robot with grippers over CAN and offers it
to remote clients over DDS. This project models the parts of it where a mistake
would move the robot wrongly, and proves what they promise. Nothing here runs the
runtime: the Dafny verifier is the only judge.

    dafny verify dfyconfig.toml

How the model is built:

- An object the runtime updates in place is a class whose methods update its
  fields, and a loop is a loop with invariants. Each such method is proved equal
  to a function of its inputs or of the old state; what the runtime promises is
  then proved about that function, over every call and over whole runs.
- Threads are interleavings: every step is one critical section, or one write,
  of one thread. Calls of the safety runtime and iterations of its worker are
  single steps; a recovery, which lets the worker run in between, is split into
  its phases.
- Clocks, feedback, hardware results and operating system answers are inputs of
  the steps. Nothing is assumed of them but that clocks do not run backwards.
- Floats are exact reals, square roots are taken as exact, counters are
  unbounded, and inputs the runtime has checked to be finite are finite.

## Components

- **Cartesian planner** (`QuinticProgress`, `CartesianPath`, `StretchFactor`,
  `CartesianTiming`, `CartesianTimingProperties`, `TimingExactness`,
  `CartesianApproach`, `CartesianApproachProperties`, `ApproachMotion`,
  `JunctionExample`): the eased progress curve and its inverse by bisection, the
  adaptive subdivision of a joint path with its stretched retries, when an attempt
  settles and which one is returned, the piecewise form, and the approach put in
  front of a plan.
- **Trajectory engine** (`PolynomialRoots`, `PolynomialRootsProperties`,
  `TrajectorySegments`, `SegmentBounds`, `TrajectoryRequest`,
  `TrajectoryRequestProperties`, `WaypointMotion`, `PlanAcceptance`,
  `ReferenceBounds`, `StillTrajectory`): polynomial roots, segments, their extrema
  and what those say about every other point, the checks and the plan of a request,
  which requests are accepted, and how the plan passes its waypoints.
- **Motion queue** (`MotionQueue`, `MotionQueueProperties`, `MotionEndings`,
  `Rebinding`, `MotionDurations`): the queue of motions, how each of them ends, and
  the rebinding of a successor to where its predecessor ended.
- **Safety state machine** (`SafetyState`, `SafetyRuntime`, `SafetyProperties`,
  `SafetyTransitions`, `SafetyFields`, `Escalation`, `CommandWatchdog`,
  `CommandCycles`): nine states, their latches, every lifecycle call, the worker,
  what leads to every state, when misses become a stop or a fault, and the
  watchdog over streamed commands.
- **Concurrent protocols** (`BatchPartition`, `GroupProtocol`, `Discovery`,
  `Lease`, `LeaseHistory`, `LeaseDeliveries`, `MotionEvents`, `MotionOutcomes`,
  `CompletionTimes`): the generation barrier over the controllers, motor discovery
  as a transaction, the control lease with the one-slot mailbox and what it
  delivers, and the events of finite motions, which of them can end, and what a
  completion rests on.
- **Gripper and codec** (`GripperProtection`, `GripperProperties`,
  `GripperMotion`, `GripperCommands`, `MitCodec`, `CodecLayout`,
  `TorqueLimiter`): the sliding-window contact detector and its retreats, how a
  command approaches its request, opening commands for all grippers, the Damiao
  frames, and the torque limit of MIT commands.
- `RealArithmetic` and `Results` hold facts about reals and the option and
  result types.

## What the proofs found

Each of these is a behaviour of the code that a reader of its promises would not
expect, kept in the model as it is:

- Replacing the running motion leaves no status of the replaced one, and breaks
  the rising order of ids exactly when other motions are queued
  (`MotionQueueProperties.ReplacementLosesMotion`), as they are in the run of
  `MotionDurations.ReplacementBehindQueue`. A replaced motion is named by the
  `replace_motion_id` parameter of `SafetyRuntime::start_trajectory`
  (`runtime/include/articore/detail/runtime.hpp:500-504`,
  `runtime/src/runtime_trajectory.cpp:677-688`); the command layer itself always
  passes zero.
- A trajectory whose completion deadline is up to 1e-6 s before its last reference
  is accepted and planned shorter than its references
  (`StillTrajectory.PlanShorterThanReferences`). That is the only way: a plan, and
  after any run and any rebinding a motion, is at least as long as its references
  exactly if its request has no deadline or one that is not so early
  (`TrajectoryRequestProperties.DurationCoversReferences`,
  `MotionDurations.MotionCoversReferences`).
- Where two pieces of a Cartesian plan meet, the acceleration can exceed the limit
  that each piece keeps, by up to a factor of two; nowhere else
  (`CartesianApproachProperties.PiecewiseSound`,
  `JunctionExample.JointExceedsLimit`). Planning with half the limit keeps the whole
  of it everywhere (`CartesianApproachProperties.HalfLimitKeepsLimit`).
- Two kinds of accepted finite motions can never get COMPLETED or CANCELLED: those
  requested under number zero, and those whose place is taken by the next motion
  before they end. There is no third kind (`MotionOutcomes.CanEndExactly`,
  `MotionOutcomes.ZeroRequestRun`, `MotionOutcomes.SupersededRun`).
- A motion can be reported completed from a robot state read before the runtime had
  started it (`CompletionTimes.StaleRun`), exactly if the execution that started it
  ended between that read and the claim (`CompletionTimes.StaleExactly`).
- A stream command that the lease manager accepted can be dropped by the mailbox
  because a command of an older lease, replaced without an announcement, waits
  there with a higher sequence; this is the only way
  (`LeaseHistory.KeptUnlessStaleHigher`, `LeaseHistory.StaleCommandBlocks`).
- A runtime that was shut down can still enter FAULT, by a clear-faults call that
  was retrying when the shutdown came and then times out; by nothing else
  (`SafetyProperties.AfterShutdown`,
  `SafetyProperties.LateClearingFaultsAfterShutdown`).
- A gripper can detect a contact exactly if its motion window and its closing
  direction are not zero; the runtime accepts zero for both in a descriptor without
  a product profile (`GripperProperties.ContactReachableExactly`,
  `GripperProperties.NeverContacts`).
- A lost CAN channel stops a running arm at once only if it is the first channel out
  of order. The second one can be lost behind a first one that is connected but
  unhealthy, and then only counts as missing feedback
  (`SafetyProperties.LostChannelFaultsExactly`,
  `SafetyProperties.LostBehindUnhealthy`).
- Feedback of a motor close to the lower end of its range can be taken for a
  register reply, exactly if its position and velocity fields have the form of one;
  above -11 rad they never have (`MitCodec.LowFeedbackLooksLikeReply`,
  `MitCodec.DeliveredExactly`, `MitCodec.FeedbackIsDelivered`).

## Model

| member | source | states |
|---|---|---|
| QuinticProgress.RateBounds | runtime/src/product_cartesian.cpp:42-47 | the progress curve never runs backwards and never faster than 15/8 |
| QuinticProgress.ProgressStrict | runtime/src/product_cartesian.cpp:42-47 | progress rises strictly between two different amounts |
| QuinticProgress.ProgressIncrement | runtime/src/product_cartesian.cpp:42-47 | progress over any stretch of time lies between zero and 15/8 of that stretch |
| QuinticProgress.InverseQuinticProgress | runtime/src/product_cartesian.cpp:49-62 | sixty halvings of the unit interval compute the inverse that the next lemmas are about |
| QuinticProgress.InverseBracket | runtime/src/product_cartesian.cpp:53-61 | the halvings keep the wanted progress bracketed, and the bracket ends exactly 2^-60 wide |
| QuinticProgress.InverseInverts | runtime/src/product_cartesian.cpp:49-62 | progress of the inverse is within 15/8 times 2^-61 of the clamped request |
| QuinticProgress.InverseRecovers | runtime/src/product_cartesian.cpp:49-62 | the inverse of a progress value is within 2^-61 of the amount it came from |
| QuinticProgress.InverseMonotone | runtime/src/product_cartesian.cpp:49-62 | the inverse keeps the order of any two requests |
| QuinticProgress.InverseStrict | runtime/src/product_cartesian.cpp:49-62 | requests further apart than 15/8 times 2^-60 get different, ordered amounts |
| TimingExactness.ProgressIsRestToRest | runtime/src/product_cartesian.cpp:42-47 | the progress curve is the quintic that leaves zero and reaches one without velocity and acceleration, as the trajectory samplers read it |
| CartesianPath.SampleCartesianJointPath | runtime/src/product_cartesian.cpp:64-86 | joint by joint the sample is the blend of the two path points around the eased position, the ends being the path ends |
| CartesianPath.SampleStaysInBox | runtime/src/product_cartesian.cpp:64-86 | no sample leaves a joint range that holds the whole path |
| CartesianPath.SampleIsProportional | runtime/src/product_cartesian.cpp:70-82 | within one path segment the samples of any two amounts differ, joint by joint, by exactly the progress between them, counted in segments, times the step of that segment |
| CartesianPath.SampleAtPathPoint | runtime/src/product_cartesian.cpp:70-84 | where the progress is that of a path point the sample is that very point |
| StretchFactor.MeasureInterval | runtime/src/product_cartesian.cpp:98-115 | one interval yields every joint velocity and raises the factor to the demand of every joint on it |
| StretchFactor.VariablePathStretchFactor | runtime/src/product_cartesian.cpp:88-126 | the factor is the largest demand of any interval, joint and of the final stop, and a list that is not increasing is refused |
| StretchFactor.DemandCovered | runtime/src/product_cartesian.cpp:93-117 | no speed or acceleration demand of any interval and joint exceeds the factor |
| StretchFactor.StoppingCovered | runtime/src/product_cartesian.cpp:118-125 | nor does the demand of stopping any joint at the end |
| StretchFactor.FactorBounds | runtime/src/product_cartesian.cpp:88-126 | all speeds stay within the factor times the limit, all accelerations, the first from rest and the last to rest, within its square times the limit |
| TimingExactness.FactorIsLeast | runtime/src/product_cartesian.cpp:88-126 | from one on, a factor brings a knot list within its limits exactly if it is at least the one computed |
| CartesianTiming.MaximumStep | runtime/src/product_cartesian.cpp:193-198 | the largest joint step between two knots |
| CartesianTiming.MaximumLinearizationError | runtime/src/product_cartesian.cpp:199-207 | the largest distance of the path middle from the middle of the chord |
| CartesianTiming.MandatoryAmounts | runtime/src/product_cartesian.cpp:154-162 | one due amount for every path point: zero, the inverse progress of the equal shares, one |
| CartesianTiming.KnotBuilder.AppendInterval | runtime/src/product_cartesian.cpp:181-242 | in place, an interval is split until step, length and bend are small enough, or refused at depth 32 or full capacity; an interval too short to split asks for more time |
| CartesianTiming.BuildKnots | runtime/src/product_cartesian.cpp:171-257 | the subdivided knots of all path segments in order, with the scale they ask for |
| CartesianTiming.SubdivideGrows | runtime/src/product_cartesian.cpp:181-242 | subdividing only appends: what was there stays, the interval end comes last, and capacity is kept |
| CartesianTiming.TimeParameterizeCartesianTrajectory | runtime/src/product_cartesian.cpp:128-270 | the result of at most twenty stretched attempts, with every error of the code; what it guarantees is TimingSound |
| CartesianTimingProperties.SubdivideSound | runtime/src/product_cartesian.cpp:181-242 | new knots are in order, and if no more time was asked for every new pair keeps all spacing limits |
| CartesianTimingProperties.MandatoryStrict | runtime/src/product_cartesian.cpp:154-162 | for fewer than 2^58 segments the due amounts rise strictly from 0 to 1 |
| CartesianTimingProperties.FactorAtLeastOne | runtime/src/product_cartesian.cpp:92-117 | the stretch factor never asks for less than the planned duration |
| CartesianTimingProperties.TimingSound | runtime/src/product_cartesian.cpp:128-270 | whatever is returned: times rise strictly from 0, both path ends and every path point have their knot, every adjacent pair keeps interval, step and linearisation limits, speed is within 1.0001 and acceleration within 1.0001 squared of the limit, and count and duration are within capacity |
| TimingExactness.KnotsMeetPathPoints | runtime/src/product_cartesian.cpp:154-180 | every path point is met by a knot, up to the error of the inverse: 15/8 times 2^-61 of the neighbouring steps for each path segment |
| TimingExactness.FirstDurationLeast | runtime/src/product_cartesian.cpp:140-152 | a duration of at least 0.1 s is at least the first one exactly if it keeps the speed limit over the largest travel at the steepest of the curve, and the acceleration limit with six times that travel |
| TimingExactness.TravelOneWay | runtime/src/product_cartesian.cpp:140-148 | where a joint goes one way only, its travel is the distance it covers |
| TimingExactness.LargestTravel | runtime/src/product_cartesian.cpp:140-148 | the largest travel is that of some joint, and no joint travels further |
| TimingExactness.SplitExactly | runtime/src/product_cartesian.cpp:208-212 | an interval stays whole exactly if it lasts at most 50 ms, moves no joint by more than 0.02 rad, and bulges by no more than 0.001 rad from its chord |
| TimingExactness.SubdivideNeeded | runtime/src/product_cartesian.cpp:181-242 | every knot a subdivision adds before its end halves an interval that had to be split and was long enough |
| TimingExactness.SettlesExactly | runtime/src/product_cartesian.cpp:259-266 | an attempt is accepted exactly if all its intervals are admissible and its speeds and accelerations are within the settled limits |
| TimingExactness.FirstAttemptSuffices | runtime/src/product_cartesian.cpp:163-266 | if the attempt at the first duration is that good, it is returned |
| TimingExactness.AttemptAsks | runtime/src/product_cartesian.cpp:163-266 | an attempt asks for the largest of one, what lengthens each interval left too short by one percent more than it lacks, and one percent more than the factor its speeds and accelerations need |
| TimingExactness.FirstSettledIsReturned | runtime/src/product_cartesian.cpp:152-268 | the timing returned is the first settled of at most twenty attempts, each as much longer than the one before as that one asked for |
| TimingExactness.TimingIsLean | runtime/src/product_cartesian.cpp:128-270 | no returned timing has a knot it does not need: each is due for a path point or halves an interval that was too long, too steep or too bent |
| CartesianApproach.TimeParameterizePiecewise | runtime/src/product_cartesian.cpp:272-311 | pieces between control points are timed one by one and joined, the first failing piece deciding |
| CartesianApproachProperties.JoinRespects | runtime/src/product_cartesian.cpp:298-303 | joining two respectful parts at their common point keeps every spacing, step and speed limit and the single acceleration limit at every knot; only the interval that leaves the new joint may change speed by up to twice the limit |
| CartesianApproachProperties.PiecewiseExactly | runtime/src/product_cartesian.cpp:272-313 | a piecewise path is timed exactly if its control points run forward from its first point to its last, every piece can be timed by itself, and the pieces have at most 30000 knots together |
| CartesianApproachProperties.PiecewiseSound | runtime/src/product_cartesian.cpp:272-311 | a returned path fits the capacity and runs from the first to the last path point; every control point has its knot, between two of them stands an accepted timing of their stretch with all its limits, linearisation included, and only intervals that leave an inner control knot may exceed the acceleration, up to twice |
| CartesianApproachProperties.HalfLimitKeepsLimit | runtime/src/product_cartesian.cpp:272-311 | a piecewise plan made with half the acceleration limit keeps the whole limit at every knot, joints included |
| CartesianApproachProperties.OnePieceKeepsLimit | runtime/src/product_cartesian.cpp:272-311 | a plan with two control points keeps its acceleration limit at every knot |
| CartesianApproachProperties.PiecesSound | runtime/src/product_cartesian.cpp:283-304 | all this holds for the first n pieces, for every n |
| JunctionExample.ShortTiming | runtime/src/product_cartesian.cpp:128-270 | under the limits of the example, any three points between which no joint travels more than a thousandth settle at the first attempt, in a tenth of a second, with one knot for each point |
| JunctionExample.JointExceedsLimit | runtime/src/product_cartesian.cpp:272-311 | a concrete path of two accepted pieces whose joined timing changes every speed at the joint by more than 1.2 times the acceleration limit |
| CartesianApproach.CartesianPlan.constructor | runtime/src/product_cartesian.cpp:573-660 | the assembled plan: one waypoint a knot, moving only at its start, deadline the last time |
| CartesianApproach.CartesianPlan.Prepend | runtime/src/product_cartesian.cpp:493-571 | in place, the plan becomes the approach followed by the moved waypoints, or stays exactly as it was on an error |
| CartesianApproachProperties.ApproachIsAccepted | runtime/src/product_cartesian.cpp:500-530 | an approach leads strictly in time from the reference to the first waypoint within duration and capacity |
| CartesianApproachProperties.ApproachPassesSchedule | runtime/src/runtime_trajectory.cpp:548-572 | a prepended plan always passes the count, timestamp and deadline checks of a trajectory start: times rise, the count stays in capacity, the waypoint at the approach count rests at the approach deadline on the old first point, and the approach duration computed equals that deadline |
| ApproachMotion.PlanStartsAndRests | runtime/src/product_cartesian.cpp:573-660 | an assembled plan has a waypoint at every knot and its time; planned as quintics it starts with the given derivatives and ends at rest |
| ApproachMotion.ApproachRests | runtime/src/product_cartesian.cpp:518-548 | behind its approach a plan planned as quintics starts at rest at the reference and passes the meeting point at rest, at the time the approach takes |
| ApproachMotion.ApproachIsStraight | runtime/src/product_cartesian.cpp:531-556 | a position-sampled approach runs straight from knot to knot at the times of its timing |
| ApproachMotion.PrependedExactly | runtime/src/product_cartesian.cpp:493-528 | an approach is put in front exactly if the plan has waypoints, the reference names all joints, the way to the first waypoint can be timed, and both together stay within 30000 waypoints and 60 s |
| ApproachMotion.BehindApproachUnchanged | runtime/src/product_cartesian.cpp:518-561 | behind the approach every segment of the plan is the one it was, only later; for quintic plans from the second waypoint on, for position-sampled ones from the first |
| PolynomialRoots.HornerEvaluate | runtime/src/runtime_trajectory.cpp:63-69 | the loop computes the polynomial value |
| PolynomialRoots.AppendUniqueRoot | runtime/src/runtime_trajectory.cpp:80-90 | a value is kept, clamped, unless it is outside the unit interval or within 1e-8 of a kept one |
| PolynomialRoots.BisectRoot | runtime/src/runtime_trajectory.cpp:117-142 | up to eighty halvings of one bracket; what they leave is BisectNarrows |
| PolynomialRoots.RootsOnUnitInterval | runtime/src/runtime_trajectory.cpp:92-145 | terminates by the degree and computes the roots specified, sorted |
| PolynomialRootsProperties.DerivativeIsSlope | runtime/src/runtime_trajectory.cpp:71-78 | the derivative coefficients evaluate to the slope, the limit of the chords |
| PolynomialRootsProperties.SlopeIsChord | runtime/src/runtime_trajectory.cpp:63-78 | the chord of a polynomial is the slope between its ends times their distance |
| PolynomialRootsProperties.RootsOrderedAndSpaced | runtime/src/runtime_trajectory.cpp:92-145 | the roots lie in [0, 1], ascend, and neighbours are more than 1e-8 apart |
| PolynomialRootsProperties.BisectNarrows | runtime/src/runtime_trajectory.cpp:126-140 | bisection ends in a point of value at most 1e-13, or in a bracket with opposite signs of the halved width |
| PolynomialRootsProperties.BracketRootJustified | runtime/src/runtime_trajectory.cpp:117-142 | every bisected root is exact to 1e-13 or the middle of a sign change at most 2^-80 wide |
| PolynomialRootsProperties.RootsJustified | runtime/src/runtime_trajectory.cpp:92-145 | every returned root is an exact zero of a line, a boundary of value at most 1e-9, or a bisected one, up to clamping |
| PolynomialRootsProperties.RootsCover | runtime/src/runtime_trajectory.cpp:105-143 | every boundary of value at most 1e-9 and every sign change between boundaries has a returned root within 1e-8 of it |
| TrajectorySegments.SamplePolynomial | runtime/src/runtime_trajectory.cpp:301-307 | the position sampler is the polynomial value |
| TrajectorySegments.SampleVelocity | runtime/src/runtime_trajectory.cpp:309-316 | the velocity sampler is the derivative over the duration |
| TrajectorySegments.SampleAcceleration | runtime/src/runtime_trajectory.cpp:318-326 | the acceleration sampler is the second derivative over the squared duration |
| TrajectorySegments.QuinticMeetsBoundary | runtime/src/runtime_trajectory.cpp:147-169 | read by the samplers, a quintic segment starts and ends with exactly the six given values |
| TrajectorySegments.LinearIsStraight | runtime/src/runtime_trajectory.cpp:171-173 | a TrajectoryPv segment is the straight line between its ends |
| TrajectorySegments.ValidateSegmentExtrema | runtime/src/runtime_trajectory.cpp:204-298 | a segment passes exactly if position, and for quintics velocity and acceleration, are allowed at the ends and at every computed extremum |
| SegmentBounds.ChordAtLeast | runtime/src/runtime_trajectory.cpp:71-78 | the mean value inequality: where the derivative stays above a bound, so does the slope of every chord |
| SegmentBounds.Crossing | runtime/src/runtime_trajectory.cpp:105-145 | two clear values of opposite signs have, between them, a negligible value with a reported root next to it |
| SegmentBounds.RootsSeparate | runtime/src/runtime_trajectory.cpp:92-145 | between neighbouring reported roots a polynomial of any degree keeps one sign, up to a slack computed from its coefficients and the tolerances of the search |
| SegmentBounds.QuinticSlack | runtime/src/runtime_trajectory.cpp:92-145 | for the derivatives of a quintic that slack is at most 1e-8 plus 8e-7 times the sum of the coefficient sizes |
| SegmentBounds.BetweenCandidates | runtime/src/runtime_trajectory.cpp:218-230 | at every point of the unit interval a polynomial lies between two of its values at the ends and the computed extrema, up to that slack |
| SegmentBounds.PassedSegmentBounded | runtime/src/runtime_trajectory.cpp:204-298 | a segment that passes the check keeps its position limits at every moment, and its speed and acceleration limits if they were checked, up to 1e-6 and the slack |
| PlanAcceptance.WithinPasses | runtime/src/runtime_trajectory.cpp:204-298 | conversely, a segment on which a joint is within its limits at every moment passes |
| PlanAcceptance.RefusalHasAMoment | runtime/src/runtime_trajectory.cpp:204-298 | so every refused segment takes some joint beyond a limit, by more than the tolerance, at some moment, and no passed one does at its ends |
| TrajectoryRequest.CheckJoints | runtime/src/runtime_trajectory.cpp:377-445 | the first error of the joint layout and configuration in the order of the code, or none |
| TrajectoryRequestProperties.JointsCoverArm | runtime/src/runtime_trajectory.cpp:376-395 | an accepted request drives every arm motor by exactly one of its joints |
| TrajectoryRequest.CheckWaypoints | runtime/src/runtime_trajectory.cpp:450-547 | the first waypoint error in order, or none and with it the recovery direction of every joint |
| TrajectoryRequest.FillDerivatives | runtime/src/runtime_trajectory.cpp:574-615 | velocities and accelerations that are not given are zero at the ends, at rest and by differences inside |
| TrajectoryRequest.BuildSegment | runtime/src/runtime_trajectory.cpp:618-636 | a straight or a quintic segment between two waypoints |
| TrajectoryRequest.PlanTrajectory | runtime/src/runtime_trajectory.cpp:346-645 | the first refusal of the code in its order, or the plan of all segments with duration and approach end |
| PlanAcceptance.PlannedExactly | runtime/src/runtime_trajectory.cpp:346-645 | a request is planned exactly if its header and schedule fit, every arm motor has its soundly configured joint, every waypoint is shaped, in time and within limits or on its way in, and every segment passes |
| TrajectoryRequestProperties.FindSegment | runtime/src/runtime_trajectory.cpp:1005-1021 | the segment the elapsed time falls into, and the place in it |
| TrajectoryRequestProperties.SegmentSpansTime | runtime/src/runtime_trajectory.cpp:1010-1021 | the segment found really spans the elapsed time |
| TrajectoryRequestProperties.PlanIsScheduled | runtime/src/runtime_trajectory.cpp:548-570 | an accepted plan is contiguous, its segments end at its reference duration, which exceeds its duration by at most 1e-6, and its approach ends with the approach segments |
| TrajectoryRequestProperties.DurationCoversReferences | runtime/src/runtime_trajectory.cpp:555-565 | an accepted plan lasts at least as long as its references exactly if the request has no completion deadline, or one that is not before the last reference |
| StillTrajectory.PlanShorterThanReferences | runtime/src/runtime_trajectory.cpp:555-565 | a concrete accepted request whose plan is shorter than its references |
| TrajectoryRequestProperties.QuinticTrajectoryContinuous | runtime/src/runtime_trajectory.cpp:616-645 | at every waypoint the segment before and the segment after it have the same position, velocity and acceleration: those of the waypoint |
| WaypointMotion.LineIsFollowed | runtime/src/runtime_trajectory.cpp:580-611 | an accepted quintic plan passes an inner waypoint that lies on a line with its neighbours, its derivatives left open, with the slope of that line and without acceleration |
| WaypointMotion.ParabolaIsFollowed | runtime/src/runtime_trajectory.cpp:580-611 | one on a parabola it passes with the acceleration of the parabola, and with the velocity the parabola has in the middle between the neighbours |
| WaypointMotion.EquallySpacedParabola | runtime/src/runtime_trajectory.cpp:580-611 | at equal spacing that is the velocity of the parabola at the waypoint |
| WaypointMotion.GivenIsKept | runtime/src/runtime_trajectory.cpp:574-611 | the plan passes every waypoint at its position with the derivatives that are given, and an end at rest where they are left open |
| TrajectoryRequestProperties.ReachesInside | runtime/src/runtime_trajectory.cpp:480-531 | every accepted joint is inside its limits at some waypoint, and at the last one |
| TrajectoryRequestProperties.StaysInside | runtime/src/runtime_trajectory.cpp:499-526 | once inside at a waypoint it is inside at all later ones |
| TrajectoryRequestProperties.OutwardDrift | runtime/src/runtime_trajectory.cpp:506-511 | before that it drifts outwards by at most the tolerance per segment |
| TrajectoryRequestProperties.SegmentContained | runtime/src/runtime_trajectory.cpp:211-247 | every point of a TrajectoryPv segment is inside, or within the recovery allowance before the first inside waypoint |
| TrajectoryRequestProperties.SampledReferenceContained | runtime/src/runtime_trajectory.cpp:1203-1237 | the reference sampled at any time is contained so, and inside the limits from the first inside waypoint on |
| TrajectoryRequestProperties.CycleSample | runtime/src/runtime_trajectory.cpp:1192-1237 | one control cycle reads the segment and the place in it that belong to the clamped wall time, or to the end of the approach while that is not complete |
| TrajectoryRequestProperties.CycleReferenceContained | runtime/src/runtime_trajectory.cpp:1192-1237 | the reference of any control cycle, held at the end of the approach or not, satisfies the same bounds |
| ReferenceBounds.SampledReferenceBounded | runtime/src/runtime_trajectory.cpp:1192-1237 | for straight and quintic plans alike, the position sampled at any elapsed time is within the limits up to 1e-6 and the slack, and so are the speed and acceleration of quintic segments |
| MotionQueue.MotionEngine.Archive | runtime/src/runtime_trajectory.cpp:974-979 | a motion with an id is logged, and the history keeps the last 128 |
| MotionQueue.MotionEngine.StartTrajectory | runtime/src/runtime_trajectory.cpp:646-829 | the first refusal in the order of the code, or the motion is queued or activated under the next id; a mask or deadline refused late uses up an id |
| MotionQueue.MotionEngine.CheckStartFeedback | runtime/src/runtime_trajectory.cpp:695-733 | the first joint whose feedback is missing, faulty, of the wrong power, or away from where the trajectory starts |
| MotionQueue.MotionEngine.Arrive | runtime/src/runtime_trajectory.cpp:1906-1938 | arrival completes the active motion and activates the head of the queue |
| MotionQueue.MotionEngine.Unsettle | runtime/src/runtime_trajectory.cpp:1706-1712 | an unstable final hold takes the completed motion back to RUNNING |
| MotionQueue.MotionEngine.Terminate | runtime/src/runtime_trajectory.cpp:2007-2040 | terminating ends the active motion and cancels the whole queue |
| MotionQueue.SampleFinal | runtime/src/runtime_trajectory.cpp:870-887 | the final positions are the last segment read at its end |
| MotionQueue.RebindTime | runtime/src/runtime_trajectory.cpp:2087-2114 | the approach of a rebound motion takes the longest of its joint times |
| MotionQueue.BuildRebindCoefficients | runtime/src/runtime_trajectory.cpp:2116-2136 | straight for TrajectoryPv, otherwise a quintic from rest at the predecessor |
| MotionQueue.DelaySegments | runtime/src/runtime_trajectory.cpp:2140-2142 | all segments shift by the approach |
| MotionQueue.RebindPlan | runtime/src/runtime_trajectory.cpp:2074-2156 | refuses a successor that cannot be detached or exceeds its limits, or rebinds it |
| MotionQueue.MotionEngine.Cancel | runtime/src/runtime_trajectory.cpp:2051-2167 | cancels the active motion with its queue, one queued motion with rebinding, or refuses an unknown id |
| MotionQueueProperties.RunKeeps | runtime/src/runtime_trajectory.cpp:646-829 | over every run without replacement: a non-empty queue means a running active motion, ids rise from the active motion through the queue, every plan keeps a sound schedule, and every id drawn is in exactly one place: active, queued or logged once, or drawn and refused |
| MotionQueueProperties.StartIsSynchronized | runtime/src/runtime_trajectory.cpp:646-733 | a motion starts or is queued only from a runtime that accepts it, every joint powered as the runtime has set it and, outside a replacement and a planned transaction, within 0.05 rad and 0.1 rad/s of the start of the trajectory |
| MotionEndings.StartAcceptedExactly | runtime/src/runtime_trajectory.cpp:646-829 | a start succeeds exactly if the request is planned, the runtime accepts it in this mode, there is room or no running motion or the one to be replaced, the approach deadline and tracking mask fit, and every joint is ready; it then queues the motion at the end or makes it active, and a refused start changes no motion |
| MotionEndings.ReadyExactly | runtime/src/runtime_trajectory.cpp:695-733 | a joint is ready exactly if its power is as the runtime set it and, where that is asked, it stands within 0.05 rad and moves within 0.1 rad/s of the start of the trajectory |
| MotionQueueProperties.RunKeepsLinks | runtime/src/runtime_trajectory.cpp:2072-2162 | if motions are planned from the tail of the queue, then over every run each queued motion starts where its predecessor ends, cancellations included |
| MotionQueueProperties.CancelQueuedOnly | runtime/src/runtime_trajectory.cpp:2066-2162 | cancelling a queued motion archives that id alone, leaves the active motion and all others but the successor, and changes nothing if it fails |
| MotionEndings.CancelActive | runtime/src/runtime_trajectory.cpp:2057-2065 | cancelling the running active motion returns without error and leaves it CANCELLED, the queue empty, and the log longer by exactly the queued ids, in order, as CANCELLED; cancelling an active motion that has ended changes nothing |
| MotionEndings.CancelRefusedExactly | runtime/src/runtime_trajectory.cpp:2051-2167 | refused are exactly zero, ids that are neither active nor queued nor remembered, and a queued motion before the last whose successor has another number of joints or whose approach exceeds a limit; a refusal changes nothing |
| MotionEndings.StateNext | runtime/src/runtime_trajectory.cpp:1906-2167 | every step of the engine makes exactly the stated change of state of every motion, and a refused one makes none |
| MotionEndings.EndedForGood | runtime/src/runtime_trajectory.cpp:974-979 | over every run a motion that was cancelled or faulted stays so |
| MotionEndings.HistoryIsTheEnd | runtime/src/runtime_trajectory.cpp:974-979 | the history is exactly the last 128 statuses of the log |
| MotionQueueProperties.ReboundIsSound | runtime/src/runtime_trajectory.cpp:2083-2156 | a rebound motion keeps a sound schedule, starts at the end of its new predecessor, ends where it ended, and is longer by at least the shortest approach |
| MotionQueueProperties.RebindJoins | runtime/src/runtime_trajectory.cpp:2116-2136 | the approach starts at the predecessor at rest and meets the successor in position, velocity and acceleration |
| Rebinding.ApproachTakesLeast | runtime/src/runtime_trajectory.cpp:2087-2114 | the approach of a rebound motion takes the least time, from 0.1 s on, in which every joint gets through its step within the speed and acceleration it may use |
| Rebinding.ScheduleShifts | runtime/src/runtime_trajectory.cpp:2140-2156 | all times of a rebound plan, its deadlines included, are later by the approach, and nothing else about it changes |
| Rebinding.ReboundReplays | runtime/src/runtime_trajectory.cpp:2138-2156 | after its approach a rebound motion yields at every time, for every joint, the very reference it would have yielded before |
| MotionQueueProperties.TerminateAccounts | runtime/src/runtime_trajectory.cpp:2007-2040 | terminating loses and duplicates no motion |
| MotionEndings.TerminateEnds | runtime/src/runtime_trajectory.cpp:2007-2040 | terminating puts an active motion into the given state, empties the queue and logs its ids, in order, as CANCELLED |
| MotionQueueProperties.ReplacementLosesMotion | runtime/src/runtime_trajectory.cpp:811-824 | replacing the running motion leaves no trace of it anywhere, and keeps ids rising exactly if the queue is empty |
| MotionDurations.ReplacementBehindQueue | runtime/src/runtime_trajectory.cpp:677-688 | a concrete run: start, queue a second motion, replace the first; the replacement is accepted, the order of ids breaks and the first motion has no status left |
| MotionDurations.RunKeepsSlack | runtime/src/runtime_trajectory.cpp:2072-2162 | over every run, rebinding included, each motion exceeds its references by exactly the time the request that started it gave it |
| MotionDurations.MotionCoversReferences | runtime/src/runtime_trajectory.cpp:555-565 | so over every run a motion is planned at least as long as its references exactly if that request has no completion deadline or one not before its last reference |
| MotionDurations.RunCoversReferences | runtime/src/runtime_trajectory.cpp:555-565 | if every started request has such a deadline, no motion is ever planned shorter than its references |
| MotionDurations.RunWithShortMotion | runtime/src/runtime_trajectory.cpp:555-565 | a concrete run whose active motion is planned shorter than its references |
| BatchPartition.FindOwner | motor/src/runtime.cpp:1347-1348 | the owner of a motor is the first controller that has it |
| BatchPartition.PartitionInto | motor/src/runtime.cpp:1326-1363 | in place, every batch gets its share or the first refusal stops the loop |
| BatchPartition.PartitionExact | motor/src/runtime.cpp:1326-1363 | a batch is accepted exactly if it is small enough, every motor is owned and none repeats; then the shares together hold as many commands as were given and each is in the share of its first owner |
| BatchPartition.PartitionAccepts | motor/src/runtime.cpp:1326-1363 | in terms of the batch alone: accepted exactly with at most 32 commands, for different motors, each owned by some controller |
| BatchPartition.CommandDelivered | motor/src/runtime.cpp:1354 | every owned command stands in the share of its owner, after the earlier ones |
| BatchPartition.ShareGrows | motor/src/runtime.cpp:1334-1354 | shares grow in submission order |
| GroupProtocol.DispatchKeeps | motor/src/runtime.cpp:1292-1320 | publishing a call keeps the barrier invariant |
| GroupProtocol.WorkerCheckKeeps | motor/src/runtime.cpp:1371-1381 | taking a generation, or going to sleep, keeps it |
| GroupProtocol.WorkerFinishKeeps | motor/src/runtime.cpp:1398-1402 | reporting a result keeps it |
| GroupProtocol.CallerCheckKeeps | motor/src/runtime.cpp:1407-1413 | looking at the counter, or going to sleep, keeps it |
| GroupProtocol.NextKeeps | motor/src/runtime.cpp:1292-1423 | every step of caller and workers keeps the barrier, the history of every worker and that no wake-up is lost |
| GroupProtocol.FinishedCallsAreComplete | motor/src/runtime.cpp:1292-1423 | over every interleaving, whenever no call is in progress every worker is idle and has sent its share of every generation exactly once, in order; and every call raised exactly if one of its shares failed |
| GroupProtocol.CallOpensExactly | motor/src/runtime.cpp:1292-1320 | a call opens the next generation exactly if its batch can be split; any other leaves caller and workers where they were |
| GroupProtocol.ClosedAfterExit | motor/src/runtime.cpp:1279-1290 | over every interleaving the group is destroyed only after every worker has left |
| GroupProtocol.NeverStuck | motor/src/runtime.cpp:1365-1413 | a call in progress always has a step it can take, spurious wake-ups not needed |
| GroupProtocol.InternalStepsProgress | motor/src/runtime.cpp:1365-1413 | every such step brings the call closer to its end |
| GroupProtocol.CallCanReturn | motor/src/runtime.cpp:1292-1423 | so from every reachable state a bounded number of steps ends the call |
| Discovery.Validate | motor/src/runtime.cpp:777-802 | the first invalid candidate decides: role, model or a repeated identity |
| Discovery.DistinctMotorIds | motor/src/runtime.cpp:794-797 | valid active candidates have different motor ids |
| Discovery.ValidExactly | motor/src/runtime.cpp:777-802 | candidates are valid exactly if all roles are there and different, and active ones have a model and different motor and feedback numbers |
| Discovery.Controller.AddCandidates | motor/src/runtime.cpp:822-841 | the table holds exactly the active candidates, all waiting |
| Discovery.Attempt | motor/src/runtime.cpp:843-896 | one attempt confirms whoever answered, keeps the others waiting, and stops at a transport error |
| Discovery.Controller.DropAbsent | motor/src/runtime.cpp:898-913 | silent optional motors leave the table; silent required ones are named |
| Discovery.Controller.Rollback | motor/src/runtime.cpp:933-943 | every active candidate leaves the table |
| Discovery.Controller.Discover | motor/src/runtime.cpp:764-944 | a transaction: it succeeds exactly if every required candidate answered in some attempt and nothing broke, and then the table holds exactly the confirmed ones and is final; otherwise table and flag are as before |
| Lease.LeaseManager.Acquire | dds/src/lease.cpp:11-32 | renews for the holder, refuses another client while the lease is in force, otherwise issues the next id |
| Lease.LeaseManager.Authorize | dds/src/lease.cpp:34-52 | accepts only the holder, in time, with a rising sequence on the channel, and then remembers it |
| Lease.LeaseManager.RefreshAfterControl | dds/src/lease.cpp:62-77 | extends the lease of the holder |
| Lease.LeaseManager.Release | dds/src/lease.cpp:79-96 | ends the lease of the holder with one announcement, refuses anybody else |
| Lease.LeaseManager.ExpireIfNeeded | dds/src/lease.cpp:98-111 | ends an expired lease with one announcement and nothing else |
| Lease.LeaseManager.Revoke | dds/src/lease.cpp:113-123 | ends whatever is active, announcing it once |
| Lease.LatestCommandMailbox.Store | dds/src/protocol.cpp:102-107 | keeps the higher sequence |
| Lease.LatestCommandMailbox.Take | dds/src/protocol.cpp:109-120 | empties the slot and gives the command only while it is at most 20 ms old |
| LeaseHistory.AcquiringKeeps | dds/src/lease.cpp:11-32 | acquiring keeps every property of the history |
| LeaseHistory.HistoryKeeps | dds/src/lease.cpp:11-123 | over every call sequence ids count the leases issued, each acceptance is from the client of its then newest lease, none is of an older lease than the one before, and every lease is active, announced lost once, or silently replaced: exactly one of these |
| LeaseHistory.DeliveriesAreOrdered | dds/src/cyclone_service.cpp:396-434 | over every call sequence stream commands are delivered at most once, in order, within 20 ms, under the lease that accepted them, with rising sequences inside a lease |
| LeaseHistory.KeptUnlessStaleHigher | dds/src/protocol.cpp:102-107 | an accepted stream command is not kept exactly if a command of an older, silently replaced lease waits with a sequence at least as high |
| LeaseHistory.StaleCommandBlocks | dds/src/protocol.cpp:102-107 | a concrete run in which an accepted command of the new lease is dropped so |
| LeaseDeliveries.PumpDeliversExactly | dds/src/cyclone_service.cpp:427-434 | after every history a pump delivers exactly if it is not busy, has a runtime, and a command accepted at most 20 ms ago waits; it delivers that very command, now and under the active lease, and no other step delivers |
| LeaseDeliveries.DeliveredExactly | dds/src/protocol.cpp:102-120 | over every run a waiting command is delivered exactly if such a pump comes within 20 ms of its acceptance, before any other look, the end of its lease and a newer command |
| LeaseDeliveries.AcceptedExactly | dds/src/lease.cpp:34-60 | over every run a request is accepted exactly if its client holds that lease, in time, and nothing was accepted under it on that channel with a sequence at least as high |
| LeaseDeliveries.LeaseFollows | dds/src/lease.cpp:11-123 | over every run a step issues the next lease, renews the one in force for a full period, ends it with one announcement, or leaves it alone, each exactly where stated |
| MotionEvents.PlacedNext | dds/src/cyclone_service.cpp:571-613 | every step leaves a motion in exactly one place: announced, pending, superseded, or claimed by one event |
| MotionEvents.AnnouncementsNext | dds/src/cyclone_service.cpp:596-605 | every ending event follows the announcement of its motion |
| MotionEvents.LossHandledNext | dds/src/cyclone_service.cpp:144-150 | a motion pending under a lost lease always has a thread about to claim it |
| MotionEvents.AtMostOneEnd | dds/src/cyclone_service.cpp:837-856 | over every interleaving a motion gets at most one COMPLETED or CANCELLED event, after its ACCEPTED |
| MotionEvents.AtRest | dds/src/cyclone_service.cpp:571-613 | when both threads rest, a motion has no end exactly if it was superseded or is still in the slot, and nothing claimable is pending under a lost lease |
| MotionEvents.ZeroRequestNeverEnds | dds/src/cyclone_service.cpp:837-845 | no event ever ends a motion under request number zero |
| MotionOutcomes.SupersededExactly | dds/src/cyclone_service.cpp:590-592 | over every run, a motion is superseded exactly if another motion is put into the slot while it is there |
| MotionOutcomes.SupersededNeverEnds | dds/src/cyclone_service.cpp:590-592 | a superseded motion gets no COMPLETED or CANCELLED, however the run goes on |
| MotionOutcomes.CanEndExactly | dds/src/cyclone_service.cpp:837-851 | after any run, a motion has ended or some continuation ends it exactly if its request number is not zero and it has not been superseded |
| MotionOutcomes.ZeroRequestRun | dds/src/cyclone_service.cpp:571-600 | a concrete run to rest that accepts a motion under request zero, which no continuation ends |
| MotionOutcomes.SupersededRun | dds/src/cyclone_service.cpp:571-600 | a concrete run to rest that accepts requests 7 and 8 in a row, after which no continuation ends the first |
| CompletionTimes.RunRecords | dds/src/cyclone_service.cpp:817-851 | over every run the steps recorded for starts, announcements, slot entries and completions are those where they happened |
| CompletionTimes.CompletionOrder | dds/src/cyclone_service.cpp:571-600 | over every run a completion was claimed after its motion was started, announced and put into the slot, in this order, and after a read of an arrived state |
| CompletionTimes.StaleExactly | dds/src/cyclone_service.cpp:571-613 | a completion rests on a state read before its motion was started in the runtime exactly if the execution that started it ended between that read and the claim |
| CompletionTimes.UnannouncedExactly | dds/src/cyclone_service.cpp:817-851 | a completion rests on a state read before its motion was announced exactly if that read did not know the motion, as is every stale one |
| CompletionTimes.PendingAtReadIsFresh | dds/src/cyclone_service.cpp:817-851 | a motion that was pending when the state was read was announced, and so started, before it |
| CompletionTimes.StaleRun | dds/src/cyclone_service.cpp:571-600 | a concrete run whose motion is reported completed from a state read while it had not been started |
| SafetyRuntime.ConfirmUntilDeadline | runtime/src/runtime_enable.cpp:1264-1320 | a disable is confirmed by the first round in which every motor reads disabled |
| SafetyRuntime.DisableHardware | runtime/src/runtime_enable.cpp:1215-1384 | confirmed exactly if the queue barrier held and some round before the deadline, or after the one directed retry, read every motor as freshly disabled |
| SafetyTransitions.DisableSucceedsExactly | runtime/src/runtime_enable.cpp:1215-1384 | a disable succeeds exactly if the queue was drained and some round, before or after the retry, has a recent reading of every motor as off |
| SafetyRuntime.ConfirmEnabledFeedback | runtime/src/runtime_enable.cpp:325-416 | enabled only when a round is complete with every motor fresh and enabled, before a fresh fault or a failed retry |
| SafetyTransitions.EnableConfirmedExactly | runtime/src/runtime_enable.cpp:343-416 | the native enable is confirmed exactly if some complete round reads every motor of the product as recent with status 1, with no fresh fault in it or before it and no failed retry before it |
| SafetyRuntime.Runtime.Connect | runtime/src/runtime.cpp:384-619 | connecting ends in FAULT exactly with a latched emergency stop or a motor fault, otherwise in READY; a system fault is revalidated only without either, and only if every motor reads disabled |
| SafetyRuntime.Runtime.InitializeEnabledState | runtime/src/runtime_enable.cpp:472-526 | ENABLED with every failure count zero, nothing parked, no command successful and disabling unconfirmed |
| SafetyRuntime.Runtime.Enable | runtime/src/runtime_enable.cpp:1025-1213 | a transaction: refused outside READY and PARTIALLY_ENABLED or under a latched fault; ENABLED once every motor is confirmed; otherwise FAULT, disabled only as far as the rollback was confirmed |
| SafetyTransitions.EnableSucceedsExactly | runtime/src/runtime_enable.cpp:1025-1213 | enabling succeeds exactly from READY or PARTIALLY_ENABLED without a latched fault, if the mailboxes are filled, or, with a native callback, if it was prepared and held and confirmed in that way |
| SafetyTransitions.EnabledIsConfirmed | runtime/src/runtime_enable.cpp:1025-1213 | so over every run ENABLED is entered only by a step in which the motors have just turned on, with a callback by a round that reads all of them as enabled |
| SafetyRuntime.Runtime.Disable | runtime/src/runtime_enable.cpp:1490-1558 | an unconfirmed disable latches a fault in FAULT; a confirmed one leads to READY, but never out of a latched FAULT |
| SafetyRuntime.Runtime.SetMotorPower | runtime/src/runtime_enable.cpp:650-1012 | READY only when all motors read off, PARTIALLY_ENABLED otherwise; an abnormal state is kept; a rollback that was not confirmed latches a fault |
| SafetyRuntime.Runtime.QueryMotorPower | runtime/src/runtime_enable.cpp:598-648 | a power query refreshes READY and PARTIALLY_ENABLED only |
| SafetyRuntime.Runtime.PrecheckMaintenance | runtime/src/runtime_maintenance.cpp:142-243 | the first failing check: state, transport, feedback, disabled motors, finite readings, rest |
| SafetyRuntime.Runtime.Maintain | runtime/src/runtime_maintenance.cpp:323-434 | OK only if every motor reads disabled afterwards; transport, feedback, not-disabled, command and verification failures latch a fault, others change nothing |
| SafetyTransitions.MaintenanceExactly | runtime/src/runtime_maintenance.cpp:142-434 | an operation succeeds exactly if it is permitted, the motors fit it, and it was carried out and read back; it latches a fault exactly if it is permitted and the transport, the feedback, a motor that is not off, or the operation fails |
| SafetyRuntime.Runtime.FinishMaintenance | runtime/src/runtime_maintenance.cpp:90-140 | success leads to READY with disabling confirmed, and only clearing faults releases the latches; a latching failure leads to FAULT |
| SafetyRuntime.Runtime.TimeOutClearing | runtime/src/runtime_maintenance.cpp:476-514 | clearing faults gives up after its window and latches the fault |
| SafetyRuntime.Runtime.EnterFault | runtime/src/runtime_safety.cpp:635-711 | FAULT with its latch, disabling unconfirmed, and a hold only if allowed and available; nothing when disconnected |
| SafetyRuntime.Runtime.EnterSafeStop | runtime/src/runtime_commands.cpp:428-458 | entering SAFE_STOP needs an arm hold and a connected, active state |
| SafetyRuntime.Runtime.Estop | runtime/src/runtime_enable.cpp:1560-1625 | the stop is latched in every state; a connected runtime goes to FAULT, holding unless its motors are known to be disabled |
| SafetyRuntime.Runtime.FailGripperSend | runtime/src/runtime_gripper.cpp:318-331 | SAFE_HOLD from RUNNING with a successful command and captured positions, FAULT otherwise |
| SafetyRuntime.Runtime.Close | runtime/src/runtime.cpp:750-780 | ends disconnected for good, after a disable wherever motors may be powered |
| SafetyRuntime.Runtime.FailRecovery | runtime/src/runtime_enable.cpp:1658-1705 | FAULT with its latch, disabled only as far as the fallback was confirmed, the emergency stop kept |
| SafetyRuntime.Runtime.BeginRecovery | runtime/src/runtime_enable.cpp:1707-1876 | READY is reached only after a confirmed disable, cleared faults and a healthy, disabled snapshot; any failure ends the recovery in FAULT |
| SafetyRuntime.Runtime.EnableForRecovery | runtime/src/runtime_enable.cpp:1866-1900 | the way to zero starts only if every motor was enabled, any failure ends the recovery in FAULT |
| SafetyRuntime.Runtime.PollRecovery | runtime/src/runtime_enable.cpp:1915-1970 | missing feedback, FAULT, SAFE_STOP or DEGRADED end the recovery in FAULT; arrival moves it on |
| SafetyRuntime.Runtime.FinishRecovery | runtime/src/runtime_enable.cpp:1971-2003 | the confirmed final disable releases emergency stop and every latch into READY, an unconfirmed one ends in FAULT |
| SafetyRuntime.Runtime.CommitSent | runtime/src/runtime_commands.cpp:1228-1236 | a user or new gripper command turns ENABLED into RUNNING and marks a success; a hold frame does not |
| SafetyRuntime.Runtime.RunArmControl | runtime/src/runtime_worker.cpp:200-244 | a sent cycle resets the send failures; failed ones stop the arm once they reach the threshold, or at once when none has been counted |
| SafetyRuntime.Runtime.CheckReadings | runtime/src/runtime_safety.cpp:387-577 | healthy only if every channel is in order and every motor is fresh, finite, enabled or parked; severe on a fault, a non-finite value, a motor disabled unasked, or if the first channel out of order is a disconnected one |
| SafetyRuntime.Runtime.RefreshTransport | runtime/src/runtime_safety.cpp:579-624 | healthy exactly if every active channel is, and disconnected exactly if the first one that is not in order is not connected |
| SafetyProperties.LostChannelFaultsExactly | runtime/src/runtime_worker.cpp:265-310 | with no severe reading, a disconnected channel stops a running arm at once exactly if no channel before it is the first out of order and still connected |
| SafetyProperties.LostBehindUnhealthy | runtime/src/runtime_safety.cpp:612-618 | a second channel lost behind a first one that is connected but unhealthy only counts as missing feedback |
| SafetyRuntime.Runtime.RunFeedbackCheck | runtime/src/runtime_worker.cpp:245-304 | severe feedback faults at once; missing feedback degrades RUNNING at the threshold and stops DEGRADED at three times the threshold |
| SafetyRuntime.Runtime.RunGripperControl | runtime/src/runtime_worker.cpp:305-326 | a send failure stops or faults, a gripper fault faults |
| SafetyRuntime.Runtime.RunHold | runtime/src/runtime_worker.cpp:327-350 | consecutive hold failures fault at their threshold, unless already in FAULT |
| SafetyRuntime.Runtime.Iterate | runtime/src/runtime_worker.cpp:63-350 | one iteration: grace and watchdog first, then the idle check or the control, feedback, gripper and hold stages, each ending the iteration when it escalates |
| SafetyTransitions.WorkLeads | runtime/src/runtime_worker.cpp:63-350 | an iteration leads exactly into the mode its findings call for: a stop for an expired grace or watchdog, exhausted sends, lasting misses in DEGRADED or a failed gripper frame; a fault for an alarm, a gripper fault or lasting hold misses; DEGRADED for lasting misses; RUNNING for a first command |
| Escalation.FeedbackEscalates | runtime/src/runtime_worker.cpp:265-304 | feedback that stays away degrades a running arm after exactly the configured number of misses, and stops it after three times as many |
| Escalation.GoodFeedbackResets | runtime/src/runtime_worker.cpp:265-275 | one good answer of every channel and motor starts the count again |
| Escalation.SendsEscalate | runtime/src/runtime_worker.cpp:214-244 | frames that cannot be sent stop the arm at exactly the configured number of misses in a row |
| Escalation.HoldsEscalate | runtime/src/runtime_worker.cpp:327-350 | a protective hold that cannot be sent faults at exactly the configured number of misses in a row |
| Escalation.SentFollows | runtime/src/runtime_commands.cpp:1228-1236 | a command counts as sent, which arms the watchdog, exactly from the iteration that sends one until the motors are next enabled or disabled |
| Escalation.ParkedExactly | runtime/src/runtime_enable.cpp:955-1005 | which motors a power batch leaves taken for disabled on purpose |
| SafetyProperties.IteratedStep | runtime/src/runtime_worker.cpp:28-350 | an iteration only moves towards a stop, never touches the emergency stop or recovery, keeps latch and state consistent, and escalates missing feedback in time |
| SafetyProperties.LeavingAbnormal | runtime/src/runtime_enable.cpp:1490-1558 | from an abnormal state one step leads to READY only with every motor read as disabled, or to the terminal shutdown |
| SafetyProperties.NextKeeps | runtime/src/runtime.cpp:384-619 | every call and iteration keeps latch, emergency stop, recovery and escalation invariants |
| SafetyProperties.RunKeeps | runtime/src/runtime_worker.cpp:276-301 | over every run faults are latched exactly in FAULT, a latched emergency stop outside a recovery means a latched fault in FAULT or DISCONNECTED, powered states are never taken for disabled, and neither RUNNING nor DEGRADED outlasts its missing feedback |
| SafetyTransitions.ModeNext | runtime/src/runtime.cpp:384-780 | every step of a run changes the mode exactly by its stated causes, read off the answers of the hardware and the clock, for all nine modes |
| SafetyTransitions.EveryModeHasACause | runtime/src/runtime.cpp:384-780 | so over every run the mode it is in was entered by one of the causes of that mode and kept since |
| SafetyTransitions.LatchesFollow | runtime/src/runtime_enable.cpp:1560-2003 | the emergency stop is set by its call alone and released by the confirmed end of a recovery alone, and a shutdown is for good |
| SafetyFields.FieldsNext | runtime/src/runtime_enable.cpp:1215-2003 | every step leaves the phase of the recovery, the confirmed disable and the protective hold exactly as stated |
| SafetyProperties.EstopReleased | runtime/src/runtime_enable.cpp:1971-2003 | the emergency stop is released only by the end of a recovery whose final disable was confirmed on every motor |
| SafetyProperties.PowerOnlyAfterVerifiedDisable | runtime/src/runtime_enable.cpp:1025-1213 | over every run, between DEGRADED, SAFE_HOLD, SAFE_STOP or FAULT and later powered motors, READY was entered by a step that read every motor as disabled |
| SafetyProperties.AfterShutdown | runtime/src/runtime.cpp:750-780 | a step after a terminal shutdown leaves the runtime disconnected, or in FAULT exactly if a clear-faults call in progress times out |
| SafetyProperties.LateClearingFaultsAfterShutdown | runtime/src/runtime_maintenance.cpp:476-514 | a concrete run: clearing faults without feedback, shutdown, and the timeout of the clearing, which latches a fault on the runtime that was shut down |
| CommandWatchdog.CommandSender.SubmitCommand | runtime/src/runtime_commands.cpp:465-563 | a submitted command waits as the newest generation |
| CommandWatchdog.CommandSender.EnableArm | runtime/src/runtime_enable.cpp:1030-1160 | enabling, from READY or PARTIALLY_ENABLED, loads a fresh hold that is no user command and forgets the last success; a waiting command keeps waiting |
| CommandWatchdog.CommandSender.FinishPowerBatch | runtime/src/runtime_enable.cpp:963-1015 | a power batch changes the state alone and leaves a loaded mailbox loaded |
| CommandWatchdog.CommandSender.ConsumePending | runtime/src/runtime_commands.cpp:22-27 | the waiting command replaces the current one |
| CommandWatchdog.CommandSender.CommitSent | runtime/src/runtime_commands.cpp:1228-1236 | only the first frame of a generation moves the watchdog |
| CommandWatchdog.CommandSender.RunCycle | runtime/src/runtime_worker.cpp:81-97 | the watchdog is looked at before anything is sent |
| CommandWatchdog.NextKeeps | runtime/src/runtime_worker.cpp:81-162 | every call, power batch, fault and cycle keeps the window of every streamed command |
| CommandWatchdog.StreamedCommandsExpire | runtime/src/runtime_worker.cpp:81-97 | over every run no streamed command is transmitted again at or after the timeout since its own first transmission, repetitions included |
| CommandCycles.StreamedUntilTimeout | runtime/src/runtime_worker.cpp:81-162 | over every run a streamed command that no newer one replaces is sent again by every cycle of a moving arm before its timeout, counted from its first frame, and stops the arm in every later one |
| CommandCycles.CycleSendsExactly | runtime/src/runtime_worker.cpp:81-162 | a cycle kills an expired command and stops; else it sends exactly one frame, of the trajectory or of the newest command, if there is one and it can be sent |
| CommandCycles.SubmittedIsSent | runtime/src/runtime_commands.cpp:465-563 | a command submitted to a powered runtime is the next one sent |
| CommandCycles.OtherStepsFollow | runtime/src/runtime_commands.cpp:22-27 | no other step sends anything, and each changes the phase and the watchdog exactly as stated |
| GripperProtection.MotorRecord.SetOpening | runtime/src/runtime_gripper.cpp:370-469 | what an opening command makes of one gripper: an invalid target changes nothing; a new motion or mode drops all evidence, a new force level that of a running motion |
| GripperCommands.Grippers.SetOpenings | runtime/src/runtime_gripper.cpp:370-462 | a command for all grippers is applied as a whole, each gripper getting its new target, or refused as a whole with every gripper unchanged; refused exactly if it is empty, incomplete, names a gripper twice or an unknown one, asks for what a gripper cannot do, or comes while commands are not accepted |
| GripperCommands.Grippers.AcceptedExactly | runtime/src/runtime_gripper.cpp:370-420 | commands are accepted exactly if there are as many as grippers, every gripper is named, and each asks for what its gripper can do |
| GripperCommands.Grippers.EveryGripperTargeted | runtime/src/runtime_gripper.cpp:378-462 | accepted commands give every gripper the target that exactly one of them asks for |
| GripperProtection.MotorRecord.AddSample | runtime/src/runtime_gripper.cpp:592-596 | the oldest samples go while the next one reaches back to the window |
| GripperProtection.MotorRecord.Extent | runtime/src/runtime_gripper.cpp:681-687 | lowest and highest position among the samples |
| GripperProtection.MotorRecord.IsStalled | runtime/src/runtime_gripper.cpp:675-688 | the window is filled and the positions in it span at most the stall movement |
| GripperProtection.MotorRecord.Prepare | runtime/src/runtime_gripper.cpp:589-656 | a protected gripper is sampled, its contact becomes a hold and so does a finished retreat; an unprotected one drops all evidence and protection and moves |
| GripperProtection.MotorRecord.Move | runtime/src/runtime_gripper.cpp:658-711 | the command moves toward the request by at most a step; a contact that lasted becomes a clamped protective target, any gap restarts it; close enough to the request the gripper is idle |
| GripperProtection.MotorRecord.UpdateOverload | runtime/src/runtime_gripper.cpp:613-621 | notes the start of an overload, keeps it while it lasts and forgets it with the first reading below |
| GripperProtection.MotorRecord.Hold | runtime/src/runtime_gripper.cpp:613-641 | retreats by the retreat distance, clamped to the limits, exactly when an overload has lasted and the retry time has passed |
| GripperProtection.MotorRecord.ControlCycle | runtime/src/runtime_gripper.cpp:526-734 | missing feedback changes nothing, a status other than enabled is a gripper fault and fails the cycle, otherwise the state decides between moving, holding and arriving |
| GripperProtection.MotorRecord.HoldSafe | runtime/src/runtime_gripper.cpp:792-882 | missing or stale feedback changes nothing; a lasting overload retreats from the measured position, its end turns a retreat into a hold |
| GripperProtection.MotorRecord.SubmitDirect | runtime/src/runtime_gripper.cpp:289-317 | a direct command forgets evidence and retreats |
| GripperProtection.MotorRecord.Enable | runtime/src/runtime_enable.cpp:492-514 | enabling starts without target and evidence |
| GripperProperties.OpeningRoundTrip | runtime/src/runtime_gripper.cpp:29-47 | every opening survives the way to a position and back |
| GripperProperties.PositionRoundTrip | runtime/src/runtime_gripper.cpp:29-47 | every position between the stops survives the way to an opening and back |
| GripperMotion.OpeningIsLinear | runtime/src/runtime_gripper.cpp:29-47 | an opening is a place on the line from the closed to the open position, in thousandths |
| GripperProperties.SamplesAreTheWindow | runtime/src/runtime_gripper.cpp:592-596 | over every run the samples are the suffix of all samples since the last clear from the newest one at least a window old |
| GripperProperties.StalledIffHeldStill | runtime/src/runtime_gripper.cpp:675-688 | the test over the samples holds exactly if the whole history shows the gripper still for a window, which cannot be empty |
| GripperProperties.TestsAreKept | runtime/src/runtime_gripper.cpp:592-706 | over every run the noted times of contact and overload are those of the unbroken series of passed tests since the evidence was dropped |
| GripperProperties.ContactIffLastingStall | runtime/src/runtime_gripper.cpp:674-706 | over every run CONTACT is declared exactly when a cycle looks for a contact and the stall and torque test, judged on the whole history, has passed on every such cycle for the contact time |
| GripperProperties.RetreatIffLastingOverload | runtime/src/runtime_gripper.cpp:613-641 | over every run a retreat starts exactly when a cycle looks for an overload, the overload test has passed on every such cycle for the overload time, and the last retreat is the retry time ago |
| GripperMotion.CommandAdvances | runtime/src/runtime_gripper.cpp:527-672 | without a contact the command of a moving gripper comes closer to the request by exactly its speed times the time since the last cycle, a quarter of it while degraded and no more than the longest step, or arrives |
| GripperMotion.ContactHolds | runtime/src/runtime_gripper.cpp:700-711 | a contact holds the offset beyond the position met in the closing direction, within the limits |
| GripperMotion.RetreatGoesBack | runtime/src/runtime_gripper.cpp:624-641 | a retreat goes back by its distance against the closing direction, within the limits, from the position or from the last retreat in force |
| GripperMotion.CycleStates | runtime/src/runtime_gripper.cpp:527-737 | what a cycle makes of every state: contact and idle come from moving, a retreat from holding, a fault from a motor that is not enabled |
| GripperMotion.SafeHoldStates | runtime/src/runtime_gripper.cpp:792-882 | what a protective hold cycle makes of every state |
| GripperMotion.TargetFollows | runtime/src/runtime_gripper.cpp:416-462 | an accepted target asks for its position at its share of the closing speed, and starts a motion without evidence exactly if position or mode are new |
| GripperProperties.RetreatsAreSpacedWithinLimits | runtime/src/runtime_gripper.cpp:624-641 | over every run retreats are the retry time apart, and protective and retreat targets within the position limits |
| GripperProperties.CommandsStayWithinLimits | runtime/src/runtime_gripper.cpp:658-717 | with stops and seeds inside the limits no command position ever leaves them |
| GripperProperties.ContactReachableExactly | runtime/src/runtime_gripper.cpp:658-706 | some run of a gripper reaches CONTACT exactly if its window and its closing direction are not zero |
| GripperProperties.NeverContacts | runtime/src/runtime.cpp:228-241 | with a window or a closing direction of zero, both of which construction accepts, no run reaches CONTACT |
| MitCodec.FloatToUint | motor/include/damiao/protocol.hpp:67-72 | never more than the highest field value |
| MitCodec.QuantisationError | motor/include/damiao/protocol.hpp:67-78 | decoding loses less than one step below the clipped value |
| MitCodec.QuantiseDequantised | motor/include/damiao/protocol.hpp:67-78 | encoding a decoded field gives it back |
| MitCodec.QuantisationMonotone | motor/include/damiao/protocol.hpp:67-72 | a larger value never gets a smaller field |
| MitCodec.UnpackPack | motor/include/damiao/protocol.hpp:92-101 | the 16, 12, 12, 12 and 12 bit fields come back exactly |
| MitCodec.PackUnpack | motor/include/damiao/protocol.hpp:92-101 | every frame is the packing of its fields |
| MitCodec.MitCommandRoundTrip | motor/include/damiao/protocol.hpp:80-102 | a motor reads every value to within one step |
| MitCodec.MitFrameRoundTrip | motor/include/damiao/protocol.hpp:80-102 | sending what was read repeats the frame |
| CodecLayout.CommandEncoded | motor/include/damiao/protocol.hpp:80-102 | a command is the 64-bit word of its quantised parts: position above bit 48, velocity above bit 36, stiffness above bit 24, damping above bit 12, and torque, each over its own range |
| CodecLayout.FieldIsLinear | motor/include/damiao/protocol.hpp:74-79 | a field spreads its range evenly from the lower to the upper bound |
| MitCodec.FeedbackRoundTrip | motor/include/damiao/protocol.hpp:147-164 | decoding feedback returns identity, status and every quantised reading |
| CodecLayout.FeedbackWord | motor/include/damiao/protocol.hpp:147-164 | the parts of a feedback frame: status above identity in the first byte, position, velocity and torque in the next forty bits, and the temperatures |
| MitCodec.RegisterIffFields | motor/include/damiao/protocol.hpp:170-180 | a frame has the form of a register frame exactly if its position field is in the lowest sixteenth with one of two low bytes and its velocity field starts with a known register |
| MitCodec.RegisterReadsBelow | motor/include/damiao/protocol.hpp:170-180 | a register frame read as feedback is at most -11 rad on every installed model |
| MitCodec.FeedbackIsDelivered | motor/src/runtime.cpp:543-600 | feedback above -11 rad reaches the reader with its values, or is rejected by identity alone |
| MitCodec.DeliveredExactly | motor/src/runtime.cpp:543-600 | feedback with the identity of the motor is delivered exactly if its position and velocity fields do not have the form of a register frame |
| MitCodec.LowFeedbackLooksLikeReply | motor/src/runtime.cpp:573-578 | below it a reading can be taken for a register reply |
| MitCodec.WriteF32Le | motor/include/damiao/protocol.hpp:104-112 | four bytes in place, the others untouched |
| MitCodec.WriteU16Le | motor/include/damiao/protocol.hpp:128-131 | two bytes in place, low first, the others untouched |
| MitCodec.EncodePositionVelocityCommand | motor/include/damiao/protocol.hpp:114-120 | the frame is the four bytes of the position followed by those of the velocity |
| MitCodec.EncodeForcePositionCommand | motor/include/damiao/protocol.hpp:133-145 | the four bytes of the position, then the clamped limits to within one hundredth and one ten-thousandth below, each read back low byte first |
| TorqueLimiter.Limited | runtime/src/runtime_commands.cpp:618-645 | the limited command makes the motor produce the requested torque clamped to the limit, toward the same targets |
| TorqueLimiter.LimitedScales | runtime/src/runtime_commands.cpp:633-645 | limiting weakens both gains and the feedforward by one common factor of at most one, and by none within the limit |
| TorqueLimiter.PrepareLimitedCommands | runtime/src/runtime_commands.cpp:565-649 | all or nothing: succeeds exactly if every joint is known, reporting and enabled, and then limits every command |

## Left out

- Floating-point rounding, casts between widths, NaN and infinity, 64-bit counter wrap-around.
- CAN sockets, polling, thread scheduling, DDS entities and wire copying: inputs and outputs of the steps.
- CartesianPath.SampleCartesianJointPath: paths of fewer than two points, which every caller has refused before, are excluded by the path type.
- Kinematics, inverse kinematics, gravity torques, arcs and pose sampling: any list of joint points stands for them.
- Error texts, reports, health snapshots, traces and their counters; an error keeps its kind only.
- Settling monitors: when a motion has arrived, when a final hold has become unstable and when a FIFO successor may take over without settling are inputs of the queue.
- Adaptive Cartesian time scaling, pausing and the PV drive velocity: references are sampled at the elapsed time given, velocities and accelerations without the tracking scale.
- Gravity compensation and bimanual following: only what they do to the watchdog is modelled.
- MotionQueue.MotionEngine.StartTrajectory: a call is one step, so the second look at the runtime state before an id is drawn finds what the first one found.
- MotionQueueProperties.RunKeeps: runs with a replaced motion are excluded, because replacement breaks the property; ReplacementLosesMotion says when.
- MotionDurations.RunKeepsSlack: runs with a replaced motion are excluded here too.
- SegmentBounds.QuinticSlack: the slack is a bound, not the largest excess a passed segment can reach.
- MotionQueueProperties.RunKeepsLinks: asks that motions are planned from the tail of the queue, as the command layer does.
- SafetyRuntime.Runtime.Estop: waits for a running recovery, as the lifecycle lock makes it; races inside a lifecycle call between its separate lock sections are not modelled.
- SafetyRuntime.Runtime.EnterFault: the variant that also switches torque off has no caller and is not modelled.
- SafetyRuntime.Runtime.RefreshTransport: texts that a driver adds to an error, which the worker searches too, are not modelled.
- SafetyRuntime.Runtime.Enable: the flags of a call in progress, which only keep the worker away from it, are not modelled, because calls are single steps.
- Discovery.Controller.Discover: the pause between attempts, retained state reports and per-motor reply details are not modelled.
- GroupProtocol.NextKeeps: thread start-up failures and the controllers' own send errors beyond success or failure are not modelled.
- MotionEvents.AtMostOneEnd: failed requests, which are announced FAILED and never become pending, and replies are not modelled.
- GripperProtection.MotorRecord.ControlCycle: gains, the repeated last frame while feedback is missing, and the contact and stall flags of the status report are not modelled.
- MitCodec.UnpackPack: shifts and masks of unsigned words are divisions and remainders, an or of disjoint fields is a sum.
- MitCodec.WriteF32Le: a float is given by its four bytes in memory.
- TorqueLimiter.PrepareLimitedCommands: the limiter's statistics and its checks for infinite torques are not modelled.
