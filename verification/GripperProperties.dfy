/** What the gripper protection promises over whole runs, against the full history of its samples and tests. */
module GripperProperties {
  import opened RealArithmetic
  import opened Results
  import opened GripperProtection

  // ---------- Openings ----------

  lemma ProductBetween(d: real, u: real)
    requires 0.0 <= u <= 1.0
    ensures if 0.0 <= d then 0.0 <= Product(d, u) <= d else d <= Product(d, u) <= 0.0
  {
    OffsetBetween(u, d);
    assert Product(d, u) == Product(u, d);
  }

  lemma PositionBetween(p: Profile, opening: real)
    ensures Min(p.open, p.closed) <= ToPosition(p, opening) <= Max(p.open, p.closed)
  {
    hide Product;
    ProductBetween(p.open - p.closed, Clamp(opening, 0.0, FULL_OPENING) / FULL_OPENING);
  }

  lemma ScaledRatio(k: real, d: real, u: real, x: real)
    requires d != 0.0 && x == Product(d, u)
    ensures k * x / d == k * u
  {
    assert k * x == k * u * d;
    DivMul(k * u, d);
  }

  lemma UnitRatio(x: real, d: real)
    requires if 0.0 < d then 0.0 <= x <= d else d <= x <= 0.0 && d < 0.0
    ensures 0.0 <= x / d <= 1.0 && Product(d, x / d) == x
  {
    DivMul(x, d);
    UnitFactor(x, d, x / d);
  }

  lemma UnitFactor(x: real, d: real, u: real)
    requires u * d == x && if 0.0 < d then 0.0 <= x <= d else d <= x <= 0.0 && d < 0.0
    ensures 0.0 <= u <= 1.0
  {
    if u < 0.0 { MulPositive(-u, Abs(d)); }
    if 1.0 < u { MulPositive(u - 1.0, Abs(d)); }
  }

  /** Every opening the product accepts survives the way to a position and back. */
  lemma OpeningRoundTrip(p: Profile, opening: real)
    requires p.open != p.closed
    ensures ToOpening(p, ToPosition(p, opening)) == Clamp(opening, 0.0, FULL_OPENING)
  {
    hide Product;
    var u := Clamp(opening, 0.0, FULL_OPENING) / FULL_OPENING;
    ScaledRatio(FULL_OPENING, p.open - p.closed, u, Product(p.open - p.closed, u));
  }

  /** Every position between the end stops survives the way to an opening and back. */
  lemma PositionRoundTrip(p: Profile, position: real)
    requires p.open != p.closed && Min(p.open, p.closed) <= position <= Max(p.open, p.closed)
    ensures ToPosition(p, ToOpening(p, position)) == position
  {
    hide Product;
    var range := p.open - p.closed;
    var u := (position - p.closed) / range;
    UnitRatio(position - p.closed, range);
    ScaledRatio(FULL_OPENING, range, u, position - p.closed);
  }

  // ---------- The history of a gripper ----------

  /** One test of a cycle, and whether it held. */
  datatype Test = Test(at: nat, passed: bool)

  /** Samples, contact tests of moving cycles and overload tests of holding cycles, all since the evidence was last
      dropped; and the retreats since their last reset. */
  datatype Log = Log(recorded: seq<Sample>, contacts: seq<Test>, overloads: seq<Test>, retreats: seq<nat>)

  datatype Run = Run(gripper: Gripper, log: Log, now: nat)

  datatype Step =
    | Elapse(ticks: nat)
    | Enable
    | Seed(position: real, activate: bool)
    | SetOpening(opening: real, speed: real, level: nat, mode: Mode)
    | SubmitDirect
    | Protect(covered: bool)
    | PowerOff
    | ControlCycle(reading: Reading, degraded: bool)
    | HoldSafe(reading: Reading)

  /** The whole history shows the gripper still for at least one window. */
  ghost predicate HeldStill(p: Profile, recorded: seq<Sample>, now: nat) {
    0 < p.window && exists i :: 0 <= i < |recorded| && StillSince(p, recorded, now, i)
  }

  ghost predicate StillSince(p: Profile, recorded: seq<Sample>, now: nat, i: nat)
    requires i < |recorded|
  {
    recorded[i].at <= now - p.window && AllWithin(recorded[i..], p.stallMovement)
  }

  ghost predicate AllWithin(samples: seq<Sample>, movement: real) {
    forall j, k :: 0 <= j < |samples| && 0 <= k < |samples| ==> samples[j].position - samples[k].position <= movement
  }

  /** The stall and torque test of a moving cycle, judged on the history. */
  ghost predicate ContactTest(p: Profile, g: Gripper, recorded: seq<Sample>, now: nat, reading: Reading, step: real)
    requires reading.Reading?
  {
    && Guarded(g.target)
    && Closing(p, g.target.requested, reading.position)
    && Abs(reading.torque) >= ActiveForce(p, g.target.level).contactTorque
    && Abs(Toward(g.command, g.target.requested, step) - reading.position) >= p.minError
    && HeldStill(p, recorded, now)
  }

  /** A cycle without protection, or one that does not close, drops the evidence. */
  predicate DropsEvidence(p: Profile, g: Gripper, now: nat, reading: Reading)
    requires Usable(reading)
  {
    || !Guarded(g.target)
    || (Prepared(p, g, now, reading.position).state == Moving && !Closing(p, g.target.requested, reading.position))
  }

  function WithoutEvidence(log: Log): Log {
    log.(recorded := [], contacts := [], overloads := [])
  }

  predicate RetreatsNow(p: Profile, g: Gripper, now: nat, torque: real) {
    RetreatDue(p, OverloadNoted(p, g, now, torque), now)
  }

  ghost function CycleLog(p: Profile, s: Run, reading: Reading, degraded: bool): Log
    requires Usable(reading)
  {
    var ready := Prepared(p, s.gripper, s.now, reading.position);
    var log := s.log.(recorded := s.log.recorded + [Sample(s.now, reading.position)]);
    var step := StepSize(p, s.gripper.target.speed, s.gripper.updated, s.now, Scale(degraded));
    if DropsEvidence(p, s.gripper, s.now, reading) then WithoutEvidence(s.log)
    else if ready.state == Moving
    then log.(contacts := log.contacts + [Test(s.now, ContactTest(p, ready, log.recorded, s.now, reading, step))])
    else if ready.state == Holding then HoldLog(p, ready, log, s.now, reading.torque)
    else log
  }

  function HoldLog(p: Profile, g: Gripper, log: Log, now: nat, torque: real): Log {
    log.(overloads := log.overloads + [Test(now, Overloaded(p, g, torque))],
         retreats := if RetreatsNow(p, g, now, torque) then log.retreats + [now] else log.retreats)
  }

  ghost function Next(p: Profile, s: Run, step: Step): Run
    requires p.lower <= p.upper
  {
    match step
    case Elapse(ticks) => s.(now := s.now + ticks)
    case Enable => s.(gripper := Enabled(p, s.gripper), log := WithoutEvidence(s.log).(retreats := []))
    case Seed(position, activate) => s.(gripper := Seeded(s.gripper, position, activate))
    case SetOpening(opening, speed, level, mode) =>
      if !Acceptable(p, opening, speed, level) then s
      else
        var drops := NewMotion(p, s.gripper.target, opening, mode)
                     || (s.gripper.target.level != level && s.gripper.state == Moving);
        s.(gripper := Targeted(p, s.gripper, opening, speed, level, mode),
           log := if drops then WithoutEvidence(s.log) else s.log)
    case SubmitDirect => s.(gripper := Overridden(s.gripper), log := WithoutEvidence(s.log).(retreats := []))
    case Protect(covered) =>
      if covered && s.gripper.state == Retreating then s
      else s.(gripper := s.gripper.(state := if covered then Holding else Fault))
    case PowerOff => s.(gripper := s.gripper.(state := Disabled))
    case ControlCycle(reading, degraded) =>
      s.(gripper := Cycled(p, s.gripper, s.now, reading, degraded),
         log := if s.gripper.target.given && Usable(reading) then CycleLog(p, s, reading, degraded) else s.log)
    case HoldSafe(reading) =>
      s.(gripper := GripperProtection.HeldSafe(p, s.gripper, s.now, reading),
         log := if Usable(reading) && !reading.stale && Guarded(s.gripper.target)
                then HoldLog(p, s.gripper, s.log, s.now, reading.torque) else s.log)
  }

  ghost function After(p: Profile, steps: seq<Step>): Run
    requires p.lower <= p.upper
  {
    if |steps| == 0 then Run(Initial(p), Log([], [], [], []), 0)
    else Next(p, After(p, steps[..|steps| - 1]), steps[|steps| - 1])
  }

  // ---------- The sliding window ----------

  ghost predicate Ordered(recorded: seq<Sample>) {
    forall i, k :: 0 <= i < k < |recorded| ==> recorded[i].at <= recorded[k].at
  }

  /** Index k is the newest sample at or before the cutoff, or the oldest of all. */
  ghost predicate IsStart(recorded: seq<Sample>, cutoff: int, k: nat) {
    && k < |recorded|
    && (k == 0 || recorded[k].at <= cutoff)
    && forall i :: k < i < |recorded| ==> recorded[i].at > cutoff
  }

  /** The kept samples are exactly the history from the newest sample at or before the cutoff on. */
  ghost predicate IsWindow(samples: seq<Sample>, recorded: seq<Sample>, cutoff: int) {
    exists k: nat :: IsStart(recorded, cutoff, k) && samples == recorded[k..]
  }

  ghost predicate WindowKept(p: Profile, s: Run) {
    var recorded := s.log.recorded;
    && Ordered(recorded)
    && (forall i :: 0 <= i < |recorded| ==> recorded[i].at <= s.now)
    && if recorded == [] then s.gripper.evidence.samples == []
       else IsWindow(s.gripper.evidence.samples, recorded, recorded[|recorded| - 1].at - p.window)
  }

  lemma OrderedTail(recorded: seq<Sample>)
    requires |recorded| > 0 && Ordered(recorded)
    ensures Ordered(recorded[1..])
  {
  }

  lemma OrderedFrom(recorded: seq<Sample>, k: nat)
    requires k < |recorded| && Ordered(recorded)
    ensures forall i :: k < i < |recorded| ==> recorded[k].at <= recorded[i].at
  {
  }

  lemma OrderedAppend(recorded: seq<Sample>, next: Sample)
    requires Ordered(recorded) && (forall i :: 0 <= i < |recorded| ==> recorded[i].at <= next.at)
    ensures Ordered(recorded + [next])
  {
  }

  lemma OrderedSuffix(recorded: seq<Sample>, k: nat)
    requires k <= |recorded| && Ordered(recorded)
    ensures Ordered(recorded[k..])
  {
  }

  lemma {:induction false} TrimmedStart(samples: seq<Sample>, cutoff: int) returns (k: nat)
    requires |samples| > 0 && Ordered(samples)
    ensures IsStart(samples, cutoff, k) && Trimmed(samples, cutoff) == samples[k..]
  {
    hide Ordered;
    if |samples| > 1 && samples[1].at <= cutoff {
      OrderedTail(samples);
      var rest := TrimmedStart(samples[1..], cutoff);
      k := rest + 1;
      assert samples[1..][rest..] == samples[k..];
      assert forall i :: k < i < |samples| ==> samples[i] == samples[1..][i - 1];
    } else {
      k := 0;
      if |samples| > 1 {
        OrderedFrom(samples, 1);
      }
    }
  }

  lemma WindowMoves(samples: seq<Sample>, recorded: seq<Sample>, cutoff: int, next: Sample, later: int)
    requires |recorded| > 0 && IsWindow(samples, recorded, cutoff) && cutoff <= later
    requires Ordered(recorded + [next])
    ensures IsWindow(Trimmed(samples + [next], later), recorded + [next], later)
  {
    hide Ordered, Trimmed;
    var all := recorded + [next];
    var k: nat :| IsStart(recorded, cutoff, k) && samples == recorded[k..];
    var kept := samples + [next];
    assert kept == all[k..];
    OrderedSuffix(all, k);
    var rest := TrimmedStart(kept, later);
    forall i | k + rest < i < |all| ensures all[i].at > later {
      assert all[i] == kept[i - k];
    }
    assert all[k + rest] == kept[rest];
    assert IsStart(all, later, k + rest);
    assert kept[rest..] == all[k + rest..];
  }

  lemma FirstWindow(next: Sample, cutoff: int)
    ensures IsWindow(Trimmed([next], cutoff), [next], cutoff)
  {
    assert IsStart([next], cutoff, 0) && [next][0..] == [next];
  }

  /** The sample of a guarded cycle keeps the window. */
  lemma SampleKeeps(p: Profile, s: Run, position: real)
    requires WindowKept(p, s)
    ensures var next := Sample(s.now, position);
            var recorded := s.log.recorded + [next];
            && Ordered(recorded)
            && IsWindow(Trimmed(s.gripper.evidence.samples + [next], s.now - p.window), recorded, s.now - p.window)
  {
    hide Ordered, Trimmed, IsWindow;
    var next := Sample(s.now, position);
    OrderedAppend(s.log.recorded, next);
    if s.log.recorded == [] {
      assert s.log.recorded + [next] == [next] == s.gripper.evidence.samples + [next];
      FirstWindow(next, s.now - p.window);
    } else {
      WindowMoves(s.gripper.evidence.samples, s.log.recorded,
                  s.log.recorded[|s.log.recorded| - 1].at - p.window, next, s.now - p.window);
    }
  }

  lemma SpanWithin(samples: seq<Sample>, movement: real)
    requires |samples| > 0
    ensures Highest(samples) - Lowest(samples) <= movement <==> AllWithin(samples, movement)
  {
    var high :| 0 <= high < |samples| && samples[high].position == Highest(samples);
    var low :| 0 <= low < |samples| && samples[low].position == Lowest(samples);
  }

  lemma SuffixWithin(recorded: seq<Sample>, i: nat, k: nat, movement: real)
    requires i <= k <= |recorded| && AllWithin(recorded[i..], movement)
    ensures AllWithin(recorded[k..], movement)
  {
    assert recorded[k..] == recorded[i..][k - i..];
  }

  /** The kept samples span a window exactly if some sample is that old. */
  lemma ReachesBack(p: Profile, recorded: seq<Sample>, now: nat, k: nat)
    requires IsStart(recorded, now - p.window, k) && recorded[|recorded| - 1].at == now
    ensures recorded[k].at <= now - p.window && k < |recorded| - 1 ==> 0 < p.window
    ensures forall i :: 0 <= i < |recorded| && 0 < p.window && recorded[i].at <= now - p.window ==>
              i <= k < |recorded| - 1 && recorded[k].at <= now - p.window
  {
  }

  /** The test over the kept samples agrees with the whole history. */
  lemma StalledIffHeldStill(p: Profile, samples: seq<Sample>, recorded: seq<Sample>, now: nat)
    requires |recorded| > 0 && recorded[|recorded| - 1].at == now
    requires IsWindow(samples, recorded, now - p.window)
    ensures Stalled(p, samples) <==> HeldStill(p, recorded, now)
  {
    hide AllWithin, Highest, Lowest;
    var k: nat :| IsStart(recorded, now - p.window, k) && samples == recorded[k..];
    ReachesBack(p, recorded, now, k);
    hide IsStart;
    assert samples[0] == recorded[k] && samples[|samples| - 1] == recorded[|recorded| - 1];
    SpanWithin(samples, p.stallMovement);
    if Stalled(p, samples) {
      assert StillSince(p, recorded, now, k);
    }
    if HeldStill(p, recorded, now) {
      var i :| 0 <= i < |recorded| && StillSince(p, recorded, now, i);
      SuffixWithin(recorded, i, k, p.stallMovement);
    }
  }

  /** A usable cycle: what it records and what it keeps. */
  lemma CycleWindow(p: Profile, s: Run, reading: Reading)
    requires WindowKept(p, s) && Usable(reading) && Guarded(s.gripper.target)
    ensures var ready := Prepared(p, s.gripper, s.now, reading.position);
            var recorded := s.log.recorded + [Sample(s.now, reading.position)];
            && Ordered(recorded)
            && IsWindow(ready.evidence.samples, recorded, s.now - p.window)
            && (Stalled(p, ready.evidence.samples) <==> HeldStill(p, recorded, s.now))
  {
    SampleKeeps(p, s, reading.position);
    var recorded := s.log.recorded + [Sample(s.now, reading.position)];
    var ready := Prepared(p, s.gripper, s.now, reading.position);
    assert ready.evidence.samples
        == Trimmed(s.gripper.evidence.samples + [Sample(s.now, reading.position)], s.now - p.window);
    hide IsWindow, Stalled, HeldStill, Ordered, Trimmed;
    StalledIffHeldStill(p, ready.evidence.samples, recorded, s.now);
  }

  lemma ControlKeepsWindow(p: Profile, s: Run, reading: Reading, degraded: bool)
    requires p.lower <= p.upper && WindowKept(p, s) && s.gripper.target.given && Usable(reading)
    ensures WindowKept(p, Next(p, s, ControlCycle(reading, degraded)))
  {
    hide Trimmed, IsWindow, Ordered, Stalled, HeldStill;
    var next := Next(p, s, ControlCycle(reading, degraded));
    var ready := Prepared(p, s.gripper, s.now, reading.position);
    if Guarded(s.gripper.target) {
      CycleWindow(p, s, reading);
      var recorded := s.log.recorded + [Sample(s.now, reading.position)];
      if next.log.recorded != [] {
        assert next.log.recorded == recorded;
        assert next.gripper.evidence.samples == ready.evidence.samples;
      } else {
        assert Ordered([]) by { EmptyOrdered(); }
        assert next.gripper.evidence.samples == [];
      }
    } else {
      EmptyOrdered();
      assert next.log.recorded == [];
    }
  }

  lemma EmptyOrdered()
    ensures Ordered([])
  {
  }

  lemma NextKeepsWindow(p: Profile, s: Run, step: Step)
    requires p.lower <= p.upper && WindowKept(p, s)
    ensures WindowKept(p, Next(p, s, step))
  {
    hide Trimmed, IsWindow;
    match step
    case ControlCycle(reading, degraded) =>
      if s.gripper.target.given && Usable(reading) {
        ControlKeepsWindow(p, s, reading, degraded);
      }
    case _ =>
  }

  /** Over every run the kept samples are the suffix of all samples since the last clear that starts at the
      newest one at least a window old. */
  lemma {:induction false} SamplesAreTheWindow(p: Profile, steps: seq<Step>)
    requires p.lower <= p.upper
    ensures WindowKept(p, After(p, steps))
  {
    hide Next;
    if |steps| == 0 {
      EmptyOrdered();
    } else {
      SamplesAreTheWindow(p, steps[..|steps| - 1]);
      NextKeepsWindow(p, After(p, steps[..|steps| - 1]), steps[|steps| - 1]);
    }
  }

  // ---------- Contacts and retreats rest on lasting tests ----------

  /** When the series of passed tests that is still unbroken began. */
  function PassingSince(tests: seq<Test>): Option<nat> {
    if |tests| == 0 || !tests[|tests| - 1].passed then None
    else
      var before := PassingSince(tests[..|tests| - 1]);
      if before.Some? then before else Some(tests[|tests| - 1].at)
  }

  ghost predicate PassedFrom(tests: seq<Test>, j: nat)
    requires j < |tests|
  {
    forall i :: j <= i < |tests| ==> tests[i].passed
  }

  /** The tests have passed without a gap from at least the given duration ago until now. */
  ghost predicate LastedFor(tests: seq<Test>, now: nat, duration: nat) {
    && |tests| > 0 && tests[|tests| - 1].at == now
    && exists j :: 0 <= j < |tests| && PassedFrom(tests, j) && now - tests[j].at >= duration
  }

  ghost predicate TestsOrdered(tests: seq<Test>, now: nat) {
    && (forall i :: 0 <= i < |tests| ==> tests[i].at <= now)
    && (forall i, j :: 0 <= i < j < |tests| ==> tests[i].at <= tests[j].at)
  }

  /** The unbroken series starts at the test that passed after the last one that failed. */
  lemma {:induction false} SeriesStart(tests: seq<Test>) returns (j: nat)
    requires PassingSince(tests).Some?
    ensures j < |tests| && PassedFrom(tests, j) && tests[j].at == PassingSince(tests).value
    ensures j > 0 ==> !tests[j - 1].passed
  {
    var before := tests[..|tests| - 1];
    if PassingSince(before).Some? {
      j := SeriesStart(before);
      assert forall i :: 0 <= i < |before| ==> before[i] == tests[i];
    } else {
      j := |tests| - 1;
    }
  }

  /** The time noted for a series says how long it has lasted. */
  lemma LastedExactly(tests: seq<Test>, now: nat, duration: nat)
    requires TestsOrdered(tests, now) && |tests| > 0 && tests[|tests| - 1].at == now
    ensures LastedFor(tests, now, duration) <==> PassingSince(tests).Some? && now - PassingSince(tests).value >= duration
  {
    if PassingSince(tests).Some? {
      var start := SeriesStart(tests);
      if LastedFor(tests, now, duration) {
        var j :| 0 <= j < |tests| && PassedFrom(tests, j) && now - tests[j].at >= duration;
        assert start <= j;
      }
    } else {
      assert !tests[|tests| - 1].passed;
    }
  }

  lemma PassingAppend(tests: seq<Test>, test: Test)
    ensures PassingSince(tests + [test])
         == if !test.passed then None else if PassingSince(tests).Some? then PassingSince(tests) else Some(test.at)
  {
    assert (tests + [test])[..|tests|] == tests;
  }

  lemma TestsAppend(tests: seq<Test>, now: nat, passed: bool)
    requires TestsOrdered(tests, now)
    ensures TestsOrdered(tests + [Test(now, passed)], now)
  {
  }

  /** The noted times are those of the unbroken series of tests. */
  ghost predicate TestsKept(s: Run) {
    && TestsOrdered(s.log.contacts, s.now) && TestsOrdered(s.log.overloads, s.now)
    && s.gripper.evidence.contactSince == PassingSince(s.log.contacts)
    && s.gripper.evidence.overloadSince == PassingSince(s.log.overloads)
  }

  lemma NothingTested(now: nat)
    ensures TestsOrdered([], now) && PassingSince([]) == None
  {
  }

  /** The test a moving cycle makes is the one judged on the history. */
  lemma MovingTestAgrees(p: Profile, s: Run, reading: Reading, step: real)
    requires WindowKept(p, s) && Usable(reading)
    ensures var ready := Prepared(p, s.gripper, s.now, reading.position);
            var recorded := s.log.recorded + [Sample(s.now, reading.position)];
            ready.state == Moving ==>
              (Touching(p, Followed(p, ready, step, reading.position), reading.position, reading.torque)
               <==> ContactTest(p, ready, recorded, s.now, reading, step))
  {
    hide Trimmed, IsWindow, Ordered, Stalled, HeldStill, Toward;
    if Guarded(s.gripper.target) {
      CycleWindow(p, s, reading);
    }
  }

  /** A usable cycle that looks for a contact. */
  predicate TestsContact(p: Profile, s: Run, step: Step) {
    && step.ControlCycle? && s.gripper.target.given && Usable(step.reading)
    && Prepared(p, s.gripper, s.now, step.reading.position).state == Moving
    && !DropsEvidence(p, s.gripper, s.now, step.reading)
  }

  lemma MovedKeepsTests(p: Profile, s: Run, reading: Reading, degraded: bool)
    requires p.lower <= p.upper && WindowKept(p, s) && TestsKept(s) && TestsContact(p, s, ControlCycle(reading, degraded))
    ensures var next := Next(p, s, ControlCycle(reading, degraded));
            TestsKept(next) && (next.gripper.state == Contact <==> LastedFor(next.log.contacts, s.now, p.contactHold))
  {
    hide Trimmed, IsWindow, Ordered, Stalled, HeldStill, Toward, LastedFor, ContactTest, StepSize, TestsOrdered,
      PassingSince;
    var step := StepSize(p, s.gripper.target.speed, s.gripper.updated, s.now, Scale(degraded));
    MovingTestAgrees(p, s, reading, step);
    var ready := Prepared(p, s.gripper, s.now, reading.position);
    var recorded := s.log.recorded + [Sample(s.now, reading.position)];
    var passed := ContactTest(p, ready, recorded, s.now, reading, step);
    PassingAppend(s.log.contacts, Test(s.now, passed));
    TestsAppend(s.log.contacts, s.now, passed);
    LastedExactly(s.log.contacts + [Test(s.now, passed)], s.now, p.contactHold);
  }

  lemma HoldKeepsTests(p: Profile, g: Gripper, log: Log, now: nat, torque: real)
    requires TestsOrdered(log.overloads, now) && g.evidence.overloadSince == PassingSince(log.overloads)
    ensures var overloads := HoldLog(p, g, log, now, torque).overloads;
            && TestsOrdered(overloads, now)
            && OverloadNoted(p, g, now, torque).evidence.overloadSince == PassingSince(overloads)
            && (RetreatsNow(p, g, now, torque)
                <==> LastedFor(overloads, now, p.overloadHold) && Elapsed(g.protection.lastRetreat, now, p.retreatRetry))
  {
    hide LastedFor, TestsOrdered, PassingSince, Overloaded;
    var passed := Overloaded(p, g, torque);
    PassingAppend(log.overloads, Test(now, passed));
    TestsAppend(log.overloads, now, passed);
    LastedExactly(log.overloads + [Test(now, passed)], now, p.overloadHold);
  }

  /** A cycle that drops the evidence drops its noted times too. */
  lemma DropKeepsNothing(p: Profile, g: Gripper, now: nat, reading: Reading, degraded: bool)
    requires p.lower <= p.upper && g.target.given && Usable(reading) && DropsEvidence(p, g, now, reading)
    ensures Cycled(p, g, now, reading, degraded).evidence.contactSince.None?
    ensures Cycled(p, g, now, reading, degraded).evidence.overloadSince.None?
  {
    hide Trimmed, Stalled, StepSize, Toward, Closing, ActiveForce;
  }

  /** A cycle that is neither moving nor dropping evidence changes the overload time at most. */
  lemma RestKeepsContact(p: Profile, g: Gripper, now: nat, reading: Reading, degraded: bool)
    requires p.lower <= p.upper && g.target.given && Usable(reading) && !DropsEvidence(p, g, now, reading)
    requires Prepared(p, g, now, reading.position).state != Moving
    ensures var ready, next := Prepared(p, g, now, reading.position), Cycled(p, g, now, reading, degraded);
            && next.evidence.contactSince == g.evidence.contactSince
            && ready.evidence.overloadSince == g.evidence.overloadSince
            && next.evidence.overloadSince
               == if ready.state == Holding then OverloadNoted(p, ready, now, reading.torque).evidence.overloadSince
                  else g.evidence.overloadSince
  {
    hide Trimmed, Stalled, Closing, Overloaded, RetreatDue;
  }

  /** What such cycles log. */
  lemma RestLog(p: Profile, s: Run, reading: Reading, degraded: bool)
    requires Usable(reading)
    ensures var log, ready := CycleLog(p, s, reading, degraded), Prepared(p, s.gripper, s.now, reading.position);
            && (DropsEvidence(p, s.gripper, s.now, reading) ==> log.contacts == [] && log.overloads == [])
            && (!DropsEvidence(p, s.gripper, s.now, reading) && ready.state != Moving ==>
                  && log.contacts == s.log.contacts
                  && log.overloads == if ready.state == Holding
                                      then HoldLog(p, ready, s.log, s.now, reading.torque).overloads else s.log.overloads)
  {
    hide Prepared, ContactTest, StepSize, Overloaded, RetreatsNow, DropsEvidence;
  }

  lemma NextCycle(p: Profile, s: Run, reading: Reading, degraded: bool)
    requires p.lower <= p.upper && s.gripper.target.given && Usable(reading)
    ensures Next(p, s, ControlCycle(reading, degraded))
         == s.(gripper := Cycled(p, s.gripper, s.now, reading, degraded), log := CycleLog(p, s, reading, degraded))
  {
    hide Cycled, CycleLog;
  }

  lemma DropKeepsTests(p: Profile, s: Run, reading: Reading, degraded: bool)
    requires p.lower <= p.upper && s.gripper.target.given && Usable(reading)
    requires DropsEvidence(p, s.gripper, s.now, reading)
    ensures TestsKept(Next(p, s, ControlCycle(reading, degraded)))
  {
    hide Next, Cycled, CycleLog, Prepared, DropsEvidence, PassingSince, TestsOrdered;
    NextCycle(p, s, reading, degraded);
    RestLog(p, s, reading, degraded);
    NothingTested(s.now);
    DropKeepsNothing(p, s.gripper, s.now, reading, degraded);
  }

  lemma RestKeepsTests(p: Profile, s: Run, reading: Reading, degraded: bool)
    requires p.lower <= p.upper && TestsKept(s) && s.gripper.target.given && Usable(reading)
    requires !DropsEvidence(p, s.gripper, s.now, reading)
    requires Prepared(p, s.gripper, s.now, reading.position).state != Moving
    ensures TestsKept(Next(p, s, ControlCycle(reading, degraded)))
  {
    hide Next, Cycled, CycleLog, Prepared, DropsEvidence, PassingSince, TestsOrdered, HoldLog, OverloadNoted, LastedFor;
    NextCycle(p, s, reading, degraded);
    RestLog(p, s, reading, degraded);
    RestKeepsContact(p, s.gripper, s.now, reading, degraded);
    HoldKeepsTests(p, Prepared(p, s.gripper, s.now, reading.position), s.log, s.now, reading.torque);
  }

  lemma ControlKeepsTests(p: Profile, s: Run, reading: Reading, degraded: bool)
    requires p.lower <= p.upper && WindowKept(p, s) && TestsKept(s) && s.gripper.target.given && Usable(reading)
    ensures TestsKept(Next(p, s, ControlCycle(reading, degraded)))
  {
    hide Next, WindowKept, TestsKept, Prepared, DropsEvidence, LastedFor;
    if DropsEvidence(p, s.gripper, s.now, reading) {
      DropKeepsTests(p, s, reading, degraded);
    } else if Prepared(p, s.gripper, s.now, reading.position).state == Moving {
      MovedKeepsTests(p, s, reading, degraded);
    } else {
      RestKeepsTests(p, s, reading, degraded);
    }
  }

  lemma NextKeepsTests(p: Profile, s: Run, step: Step)
    requires p.lower <= p.upper && WindowKept(p, s) && TestsKept(s)
    ensures TestsKept(Next(p, s, step))
  {
    hide Trimmed, Cycled, CycleLog, PassingSince;
    NothingTested(s.now);
    match step
    case ControlCycle(reading, degraded) =>
      if s.gripper.target.given && Usable(reading) {
        ControlKeepsTests(p, s, reading, degraded);
      } else {
        UnusableKeepsEvidence(p, s.gripper, s.now, reading, degraded);
      }
    case HoldSafe(reading) =>
      HoldKeepsTests(p, s.gripper, s.log, s.now, if reading.Reading? then reading.torque else 0.0);
    case _ =>
  }

  lemma UnusableKeepsEvidence(p: Profile, g: Gripper, now: nat, reading: Reading, degraded: bool)
    requires p.lower <= p.upper && !(g.target.given && Usable(reading))
    ensures Cycled(p, g, now, reading, degraded).evidence == g.evidence
    ensures Cycled(p, g, now, reading, degraded).protection == g.protection
    ensures Cycled(p, g, now, reading, degraded).command == g.command
    ensures Cycled(p, g, now, reading, degraded).state in {g.state, Fault}
  {
  }

  /** Over every run the noted times are those of the unbroken series of tests since the evidence was dropped. */
  lemma {:induction false} TestsAreKept(p: Profile, steps: seq<Step>)
    requires p.lower <= p.upper
    ensures TestsKept(After(p, steps))
  {
    hide Next;
    if |steps| == 0 {
    } else {
      var before := steps[..|steps| - 1];
      TestsAreKept(p, before);
      SamplesAreTheWindow(p, before);
      NextKeepsTests(p, After(p, before), steps[|steps| - 1]);
    }
  }

  /** A contact is declared exactly when the stall and torque test, judged on the whole history, has passed on every
      cycle that looked for a contact for at least the contact time. */
  lemma ContactIffLastingStall(p: Profile, steps: seq<Step>, step: Step)
    requires p.lower <= p.upper && After(p, steps).gripper.state != Contact
    ensures After(p, steps + [step]).gripper.state == Contact
       <==> TestsContact(p, After(p, steps), step)
            && LastedFor(After(p, steps + [step]).log.contacts, After(p, steps).now, p.contactHold)
  {
    hide LastedFor, TestsKept, WindowKept, TestsContact, Next;
    assert (steps + [step])[..|steps|] == steps;
    SamplesAreTheWindow(p, steps);
    TestsAreKept(p, steps);
    if TestsContact(p, After(p, steps), step) {
      assert step == ControlCycle(step.reading, step.degraded) by { IsControlCycle(p, After(p, steps), step); }
      MovedKeepsTests(p, After(p, steps), step.reading, step.degraded);
    } else {
      OnlyTestsDeclare(p, After(p, steps), step);
    }
  }

  lemma IsControlCycle(p: Profile, s: Run, step: Step)
    requires TestsContact(p, s, step)
    ensures step.ControlCycle? && step == ControlCycle(step.reading, step.degraded)
  {
  }

  lemma OnlyTestsDeclare(p: Profile, s: Run, step: Step)
    requires p.lower <= p.upper && s.gripper.state != Contact && !TestsContact(p, s, step)
    ensures Next(p, s, step).gripper.state != Contact
  {
    hide Trimmed, StepSize, Stalled, Toward, Closing, CycleLog, ToPosition, ActiveForce;
  }

  /** A cycle, or a protective hold, that looks for an overload. */
  predicate TestsOverload(p: Profile, s: Run, step: Step) {
    match step
    case ControlCycle(reading, _) =>
      && s.gripper.target.given && Usable(reading) && Guarded(s.gripper.target)
      && Prepared(p, s.gripper, s.now, reading.position).state == Holding
    case HoldSafe(reading) => Usable(reading) && !reading.stale && Guarded(s.gripper.target)
    case _ => false
  }

  /** The last retreat, if any since the reset, is at least the retry time ago. */
  predicate RetryElapsed(p: Profile, retreats: seq<nat>, now: nat) {
    |retreats| > 0 ==> now - retreats[|retreats| - 1] >= p.retreatRetry
  }

  /** A retreat starts exactly when the overload test has passed on every cycle that looked for an overload for at least
      the overload time, and the last retreat is long enough ago; and it is logged. */
  lemma RetreatIffLastingOverload(p: Profile, steps: seq<Step>, step: Step)
    requires p.lower <= p.upper && After(p, steps).gripper.state != Retreating
    ensures var s, next := After(p, steps), After(p, steps + [step]);
            && (next.gripper.state == Retreating
                <==> TestsOverload(p, s, step) && LastedFor(next.log.overloads, s.now, p.overloadHold)
                     && RetryElapsed(p, s.log.retreats, s.now))
            && (next.gripper.state == Retreating ==> next.log.retreats == s.log.retreats + [s.now])
  {
    hide LastedFor, TestsKept, TestsOverload, Next;
    assert (steps + [step])[..|steps|] == steps;
    TestsAreKept(p, steps);
    RetreatsAreSpacedWithinLimits(p, steps);
    if TestsOverload(p, After(p, steps), step) {
      OverloadRetreats(p, After(p, steps), step);
    } else {
      OnlyOverloadsRetreat(p, After(p, steps), step);
    }
  }

  lemma OverloadRetreats(p: Profile, s: Run, step: Step)
    requires p.lower <= p.upper && TestsKept(s) && RetreatsKept(p, s) && TestsOverload(p, s, step)
    requires s.gripper.state != Retreating
    ensures var next := Next(p, s, step);
            && (next.gripper.state == Retreating
                <==> LastedFor(next.log.overloads, s.now, p.overloadHold) && RetryElapsed(p, s.log.retreats, s.now))
            && (next.gripper.state == Retreating ==> next.log.retreats == s.log.retreats + [s.now])
  {
    hide LastedFor, Trimmed, StepSize, Stalled, Toward, Closing, Overloaded, PassingSince, TestsOrdered, Spaced, Product;
    match step
    case ControlCycle(reading, _) =>
      HoldKeepsTests(p, Prepared(p, s.gripper, s.now, reading.position), s.log, s.now, reading.torque);
    case HoldSafe(reading) =>
      HoldKeepsTests(p, s.gripper, s.log, s.now, reading.torque);
  }

  lemma OnlyOverloadsRetreat(p: Profile, s: Run, step: Step)
    requires p.lower <= p.upper && s.gripper.state != Retreating && !TestsOverload(p, s, step)
    ensures Next(p, s, step).gripper.state != Retreating
  {
    hide Trimmed, StepSize, Stalled, Toward, Closing, CycleLog, ToPosition, ActiveForce;
  }

  // ---------- Spacing and limits ----------

  ghost predicate Spaced(p: Profile, retreats: seq<nat>) {
    forall i :: 0 <= i < |retreats| - 1 ==> retreats[i + 1] - retreats[i] >= p.retreatRetry
  }

  ghost predicate RetreatsKept(p: Profile, s: Run) {
    && Spaced(p, s.log.retreats)
    && s.gripper.protection.lastRetreat
       == if |s.log.retreats| == 0 then None else Some(s.log.retreats[|s.log.retreats| - 1])
  }

  /** Protective and retreat targets lie within the position limits. */
  predicate WithinLimits(p: Profile, protection: Protection) {
    && (protection.active ==> p.lower <= protection.target <= p.upper)
    && (protection.retreating ==> p.lower <= protection.retreat <= p.upper)
  }

  lemma SpacedAppend(p: Profile, retreats: seq<nat>, now: nat)
    requires Spaced(p, retreats)
    requires Elapsed(if |retreats| == 0 then None else Some(retreats[|retreats| - 1]), now, p.retreatRetry)
    ensures Spaced(p, retreats + [now])
  {
  }

  /** The cycle is one that starts a retreat. */
  predicate CycleRetreats(p: Profile, g: Gripper, now: nat, reading: Reading) {
    && g.target.given && Usable(reading) && Guarded(g.target)
    && Prepared(p, g, now, reading.position).state == Holding
    && RetreatsNow(p, Prepared(p, g, now, reading.position), now, reading.torque)
  }

  lemma CycledProtection(p: Profile, g: Gripper, now: nat, reading: Reading, degraded: bool)
    requires p.lower <= p.upper && WithinLimits(p, g.protection)
    ensures var protection := Cycled(p, g, now, reading, degraded).protection;
            && WithinLimits(p, protection)
            && protection.lastRetreat == if CycleRetreats(p, g, now, reading) then Some(now) else g.protection.lastRetreat
    ensures CycleRetreats(p, g, now, reading) ==> Elapsed(g.protection.lastRetreat, now, p.retreatRetry)
  {
    hide Trimmed, Stalled, StepSize, Toward, Product, Closing, ActiveForce;
  }

  lemma CycleLogRetreats(p: Profile, s: Run, reading: Reading, degraded: bool)
    requires Usable(reading) && s.gripper.target.given
    ensures CycleLog(p, s, reading, degraded).retreats
         == if CycleRetreats(p, s.gripper, s.now, reading) then s.log.retreats + [s.now] else s.log.retreats
  {
    hide Trimmed, ContactTest, StepSize, Closing, RetreatsNow;
  }

  lemma ControlKeepsRetreats(p: Profile, s: Run, reading: Reading, degraded: bool)
    requires p.lower <= p.upper && RetreatsKept(p, s) && WithinLimits(p, s.gripper.protection)
    ensures var next := Next(p, s, ControlCycle(reading, degraded));
            RetreatsKept(p, next) && WithinLimits(p, next.gripper.protection)
  {
    hide Cycled, CycleLog, CycleRetreats, Spaced;
    CycledProtection(p, s.gripper, s.now, reading, degraded);
    if s.gripper.target.given && Usable(reading) {
      CycleLogRetreats(p, s, reading, degraded);
      if CycleRetreats(p, s.gripper, s.now, reading) {
        SpacedAppend(p, s.log.retreats, s.now);
      }
    } else {
      UnusableKeepsEvidence(p, s.gripper, s.now, reading, degraded);
    }
  }

  lemma NextKeepsRetreats(p: Profile, s: Run, step: Step)
    requires p.lower <= p.upper && RetreatsKept(p, s) && WithinLimits(p, s.gripper.protection)
    ensures RetreatsKept(p, Next(p, s, step)) && WithinLimits(p, Next(p, s, step).gripper.protection)
  {
    hide Cycled, CycleLog, Product, Spaced, ToPosition;
    assert Spaced(p, []) by { NoneSpaced(p); }
    match step
    case ControlCycle(reading, degraded) => ControlKeepsRetreats(p, s, reading, degraded);
    case HoldSafe(reading) =>
      if reading.Reading? && RetreatsNow(p, s.gripper, s.now, reading.torque) {
        SpacedAppend(p, s.log.retreats, s.now);
      }
    case _ =>
  }

  lemma NoneSpaced(p: Profile)
    ensures Spaced(p, [])
  {
  }

  /** Over every run successive retreats are at least the retry time apart, and every protective and every
      retreat target lies within the limits. */
  lemma {:induction false} RetreatsAreSpacedWithinLimits(p: Profile, steps: seq<Step>)
    requires p.lower <= p.upper
    ensures RetreatsKept(p, After(p, steps)) && WithinLimits(p, After(p, steps).gripper.protection)
  {
    hide Next;
    if |steps| == 0 {
    } else {
      RetreatsAreSpacedWithinLimits(p, steps[..|steps| - 1]);
      NextKeepsRetreats(p, After(p, steps[..|steps| - 1]), steps[|steps| - 1]);
    }
  }

  // ---------- Whether a gripper can detect a contact ----------

  lemma NextWithoutContact(p: Profile, s: Run, step: Step)
    requires p.lower <= p.upper && (p.window == 0 || p.closing == 0.0) && WindowKept(p, s) && s.gripper.state != Contact
    ensures Next(p, s, step).gripper.state != Contact
  {
    hide Trimmed, StepSize, IsWindow, Ordered, Stalled, StillSince, Toward, CycleLog, ToPosition;
    match step
    case ControlCycle(reading, degraded) =>
      if s.gripper.target.given && Usable(reading) {
        MovingTestAgrees(p, s, reading, StepSize(p, s.gripper.target.speed, s.gripper.updated, s.now, Scale(degraded)));
      }
    case _ =>
  }

  /** Without a window, or without a closing direction, there is no contact, whatever happens. */
  lemma {:induction false} NeverContacts(p: Profile, steps: seq<Step>)
    requires p.lower <= p.upper && (p.window == 0 || p.closing == 0.0)
    ensures After(p, steps).gripper.state != Contact
  {
    hide Next;
    if |steps| > 0 {
      var before := steps[..|steps| - 1];
      NeverContacts(p, before);
      SamplesAreTheWindow(p, before);
      NextWithoutContact(p, After(p, before), steps[|steps| - 1]);
    }
  }

  /** Where an object stops a gripper on its way to the closed position. */
  function Obstacle(p: Profile): real
    requires p.closing != 0.0
  {
    var distance := p.minError + 1.0 / Abs(p.closing);
    if 0.0 < p.closing then p.closed - distance else p.closed + distance
  }

  /** The motor stands at the obstacle and presses with the contact torque. */
  function Blocked(p: Profile): Reading
    requires p.closing != 0.0 && DEFAULT_LEVEL in p.forces
  {
    Reading(1, Obstacle(p), p.forces[DEFAULT_LEVEL].contactTorque, false)
  }

  lemma ObstacleBlocks(p: Profile)
    requires p.closing != 0.0 && 0.0 <= p.minError
    ensures Closing(p, p.closed, Obstacle(p)) && Abs(p.closed - Obstacle(p)) > p.minError
  {
    var size := Abs(p.closing);
    DivMul(1.0, size);
    MulNonNegative(p.minError, size);
    assert 0.0 < 1.0 / size;
    assert (p.minError + 1.0 / size) * size == p.minError * size + 1.0;
  }

  /** Closing on the obstacle with full speed at the default force, the samples kept so far all taken there. */
  ghost predicate Pressing(p: Profile, s: Run, samples: seq<Sample>, since: Option<nat>)
    requires p.closing != 0.0
  {
    && s.gripper.state == Moving && s.gripper.command == p.closed
    && s.gripper.target.given && s.gripper.target.requested == p.closed && s.gripper.target.level == DEFAULT_LEVEL
    && s.gripper.target.mode == Protected && 0.0 <= s.gripper.target.speed
    && (s.gripper.updated.Some? ==> s.gripper.updated.value <= s.now)
    && s.gripper.evidence.samples == samples && s.gripper.evidence.contactSince == since
    && forall i :: 0 <= i < |samples| ==> samples[i].position == Obstacle(p)
  }

  lemma StaysStill(p: Profile, samples: seq<Sample>)
    requires p.closing != 0.0 && 0.0 <= p.stallMovement && |samples| >= 2
    requires forall i :: 0 <= i < |samples| ==> samples[i].position == Obstacle(p)
    ensures Stalled(p, samples) <==> samples[|samples| - 1].at - samples[0].at >= p.window
  {
    hide Obstacle;
    SpanWithin(samples, p.stallMovement);
  }

  lemma {:induction false} TrimmedStays(p: Profile, samples: seq<Sample>, cutoff: int)
    requires p.closing != 0.0 && forall i :: 0 <= i < |samples| ==> samples[i].position == Obstacle(p)
    ensures forall i :: 0 <= i < |Trimmed(samples, cutoff)| ==> Trimmed(samples, cutoff)[i].position == Obstacle(p)
  {
    hide Obstacle;
    if |samples| > 1 && samples[1].at <= cutoff {
      TrimmedStays(p, samples[1..], cutoff);
    }
  }

  /** The samples kept span the window. */
  predicate Spans(p: Profile, samples: seq<Sample>) {
    |samples| >= 2 && samples[|samples| - 1].at - samples[0].at >= p.window
  }

  lemma PressingTest(p: Profile, g: Gripper)
    requires p.Valid() && p.closing != 0.0 && g.command == p.closed && g.target.requested == p.closed
    requires g.target.level == DEFAULT_LEVEL && g.target.mode == Protected
    requires forall i :: 0 <= i < |g.evidence.samples| ==> g.evidence.samples[i].position == Obstacle(p)
    ensures Closing(p, p.closed, Obstacle(p)) && Abs(p.closed - Obstacle(p)) > p.minError
    ensures Touching(p, g, Obstacle(p), Blocked(p).torque) <==> Spans(p, g.evidence.samples)
  {
    ObstacleBlocks(p);
    if |g.evidence.samples| >= 2 {
      StaysStill(p, g.evidence.samples);
    }
    hide Obstacle, Closing, Highest, Lowest;
  }

  /** The state branch of a cycle against the obstacle. */
  lemma PressingMoves(p: Profile, g: Gripper, now: nat, step: real)
    requires p.Valid() && p.closing != 0.0 && g.command == p.closed && g.target.requested == p.closed
    requires g.target.level == DEFAULT_LEVEL && g.target.mode == Protected && g.state == Moving && 0.0 <= step
    requires forall i :: 0 <= i < |g.evidence.samples| ==> g.evidence.samples[i].position == Obstacle(p)
    ensures var moved := Moved(p, g, now, Obstacle(p), Blocked(p).torque, step);
            var from := if g.evidence.contactSince.None? then now else g.evidence.contactSince.value;
            if !Spans(p, g.evidence.samples) then moved == g.(evidence := g.evidence.(contactSince := None))
            else if now - from >= p.contactHold then moved.state == Contact
            else moved == g.(evidence := g.evidence.(contactSince := Some(from)))
  {
    PressingTest(p, g);
    hide Obstacle, Touching, Closing, Spans, Product;
    assert Toward(p.closed, p.closed, step) == p.closed;
    assert Followed(p, g, step, Obstacle(p)) == g;
  }

  lemma PressingReady(p: Profile, s: Run, samples: seq<Sample>, since: Option<nat>)
    requires p.Valid() && p.closing != 0.0 && Pressing(p, s, samples, since)
    ensures var kept := Trimmed(samples + [Sample(s.now, Obstacle(p))], s.now - p.window);
            (Prepared(p, s.gripper, s.now, Obstacle(p))
             == s.gripper.(updated := Some(s.now), evidence := s.gripper.evidence.(samples := kept)))
  {
    hide Obstacle, Trimmed;
  }

  /** One cycle against the obstacle: the series of passed tests starts, or goes on, once the samples span the window. */
  lemma PressingCycle(p: Profile, s: Run, samples: seq<Sample>, since: Option<nat>)
    requires p.Valid() && p.closing != 0.0 && Pressing(p, s, samples, since)
    ensures var next := Next(p, s, ControlCycle(Blocked(p), false));
            var kept := Trimmed(samples + [Sample(s.now, Obstacle(p))], s.now - p.window);
            var from := if since.None? then s.now else since.value;
            && next.now == s.now
            && if !Spans(p, kept) then Pressing(p, next, kept, None)
               else if s.now - from >= p.contactHold then next.gripper.state == Contact
               else Pressing(p, next, kept, Some(from))
  {
    var kept := Trimmed(samples + [Sample(s.now, Obstacle(p))], s.now - p.window);
    var step := StepSize(p, s.gripper.target.speed, s.gripper.updated, s.now, Scale(false));
    var ready := Prepared(p, s.gripper, s.now, Obstacle(p));
    StepNonNegative(p, s.gripper.target.speed, s.gripper.updated, s.now, Scale(false));
    TrimmedStays(p, samples + [Sample(s.now, Obstacle(p))], s.now - p.window);
    PressingReady(p, s, samples, since);
    hide Obstacle, StepSize, Trimmed, CycleLog, Spans, Moved, Prepared;
    assert Next(p, s, ControlCycle(Blocked(p), false)).gripper
        == Moved(p, ready, s.now, Obstacle(p), Blocked(p).torque, step);
    PressingMoves(p, ready, s.now, step);
  }

  /** Enable, close at the default force, and stand at the obstacle for one window. */
  function PressingSteps(p: Profile): seq<Step>
    requires p.Valid() && p.closing != 0.0
  {
    [Seed(p.closed, false), Enable, SetOpening(0.0, FULL_SPEED, DEFAULT_LEVEL, Protected),
     ControlCycle(Blocked(p), false), Elapse(p.window), ControlCycle(Blocked(p), false)]
  }

  /** And then for the contact time, if there is one. */
  function ContactSteps(p: Profile): seq<Step>
    requires p.Valid() && p.closing != 0.0
  {
    if p.contactHold == 0 then PressingSteps(p)
    else PressingSteps(p) + [Elapse(p.contactHold)] + [ControlCycle(Blocked(p), false)]
  }

  lemma AfterAppend(p: Profile, steps: seq<Step>, step: Step)
    requires p.lower <= p.upper
    ensures After(p, steps + [step]) == Next(p, After(p, steps), step)
  {
    assert (steps + [step])[..|steps|] == steps;
  }

  lemma PressingStarts(p: Profile)
    requires p.Valid() && p.closing != 0.0
    ensures After(p, PressingSteps(p)[..3]).now == 0 && Pressing(p, After(p, PressingSteps(p)[..3]), [], None)
  {
    var n := PressingSteps(p);
    assert n[..1] == [] + [n[0]] && n[..2] == n[..1] + [n[1]] && n[..3] == n[..2] + [n[2]];
    AfterAppend(p, [], n[0]);
    AfterAppend(p, n[..1], n[1]);
    AfterAppend(p, n[..2], n[2]);
    assert After(p, []) == Run(Initial(p), Log([], [], [], []), 0);
    assert ToPosition(p, 0.0) == p.closed;
    hide After;
    assert p.closeSpeed * FULL_SPEED / FULL_SPEED == p.closeSpeed;
  }

  lemma PressingFirst(p: Profile, s: Run)
    requires p.Valid() && p.closing != 0.0 && Pressing(p, s, [], None) && s.now == 0 && 0 < p.window
    ensures var next := Next(p, Next(p, s, ControlCycle(Blocked(p), false)), Elapse(p.window));
            next.now == p.window && Pressing(p, next, [Sample(0, Obstacle(p))], None)
  {
    hide Obstacle, Blocked, Cycled, CycleLog;
    PressingCycle(p, s, [], None);
    var cutoff: int := 0 - p.window;
    assert [] + [Sample(0, Obstacle(p))] == [Sample(0, Obstacle(p))] == Trimmed([Sample(0, Obstacle(p))], cutoff);
  }

  lemma PressingGoesOn(p: Profile)
    requires p.Valid() && p.closing != 0.0 && 0 < p.window
    ensures var s := After(p, PressingSteps(p)[..5]);
            s.now == p.window && Pressing(p, s, [Sample(0, Obstacle(p))], None)
  {
    hide After, Obstacle, Blocked, Pressing, Next;
    var n := PressingSteps(p);
    PressingStarts(p);
    assert n[..4] == n[..3] + [n[3]] && n[..5] == n[..4] + [n[4]];
    AfterAppend(p, n[..3], n[3]);
    AfterAppend(p, n[..4], n[4]);
    PressingFirst(p, After(p, n[..3]));
  }

  /** After one window at the obstacle the series of passed tests begins; without a contact time that is a contact. */
  lemma PressingLasts(p: Profile)
    requires p.Valid() && p.closing != 0.0 && 0 < p.window
    ensures var s, x := After(p, PressingSteps(p)), Obstacle(p);
            && s.now == p.window
            && (p.contactHold == 0 ==> s.gripper.state == Contact)
            && (p.contactHold > 0 ==> Pressing(p, s, [Sample(0, x), Sample(p.window, x)], Some(p.window)))
  {
    var n, x := PressingSteps(p), Obstacle(p);
    PressingGoesOn(p);
    assert n == n[..5] + [n[5]] && n[5] == ControlCycle(Blocked(p), false);
    AfterAppend(p, n[..5], n[5]);
    hide After, Obstacle, Blocked, PressingSteps, Pressing, Next;
    PressingCycle(p, After(p, n[..5]), [Sample(0, x)], None);
    var both := [Sample(0, x), Sample(p.window, x)];
    assert [Sample(0, x)] + [Sample(p.window, x)] == both == Trimmed(both, 0);
  }

  lemma ContactReached(p: Profile)
    requires p.Valid() && p.closing != 0.0 && 0 < p.window
    ensures After(p, ContactSteps(p)).gripper.state == Contact
  {
    PressingLasts(p);
    if p.contactHold > 0 {
      var n, x := PressingSteps(p), Obstacle(p);
      AfterAppend(p, n, Elapse(p.contactHold));
      AfterAppend(p, n + [Elapse(p.contactHold)], ControlCycle(Blocked(p), false));
      hide After, Obstacle, Blocked, PressingSteps;
      var s := After(p, n + [Elapse(p.contactHold)]);
      var samples := [Sample(0, x), Sample(p.window, x)];
      PressingCycle(p, s, samples, Some(p.window));
      var all := samples + [Sample(s.now, x)];
      assert all == [Sample(0, x), Sample(p.window, x), Sample(s.now, x)];
      assert all[1..] == [Sample(p.window, x), Sample(s.now, x)];
      assert Trimmed(all[1..], p.contactHold) == all[1..];
    }
  }

  /** A gripper can detect a contact exactly if its window is not zero and its closing direction is not zero; both are
      values that construction accepts. */
  lemma ContactReachableExactly(p: Profile)
    requires p.Valid()
    ensures (exists steps :: After(p, steps).gripper.state == Contact) <==> 0 < p.window && p.closing != 0.0
  {
    hide After;
    if 0 < p.window && p.closing != 0.0 {
      ContactReached(p);
    } else {
      forall steps ensures After(p, steps).gripper.state != Contact {
        NeverContacts(p, steps);
      }
    }
  }

  // ---------- The command position ----------

  predicate InLimits(p: Profile, position: real) {
    p.lower <= position <= p.upper
  }

  lemma TowardBetween(p: Profile, from: real, to: real, step: real)
    requires InLimits(p, from) && InLimits(p, to) && 0.0 <= step
    ensures InLimits(p, Toward(from, to, step))
  {
  }

  lemma StepNonNegative(p: Profile, speed: real, updated: Option<nat>, now: nat, scale: real)
    requires 0.0 <= speed && 0.0 <= scale && (updated.Some? ==> updated.value <= now)
    ensures 0.0 <= StepSize(p, speed, updated, now, scale)
  {
    var elapsed := if updated.None? then 0
                   else if now - updated.value < p.maxStep then now - updated.value else p.maxStep;
    MulNonNegative(speed, scale);
    MulNonNegative(Product(speed, scale), elapsed as real / SECOND);
  }

  /** Command and request lie within the limits, and the command speed is not negative. */
  ghost predicate Contained(p: Profile, s: Run) {
    && InLimits(p, s.gripper.command) && InLimits(p, s.gripper.target.requested)
    && 0.0 <= s.gripper.target.speed
    && (s.gripper.updated.Some? ==> s.gripper.updated.value <= s.now)
    && WithinLimits(p, s.gripper.protection)
  }

  /** The end stops are the position limits or lie within them, as a bound product profile sets them. */
  predicate StopsInLimits(p: Profile) {
    InLimits(p, p.open) && InLimits(p, p.closed)
  }

  lemma ControlContained(p: Profile, s: Run, reading: Reading, degraded: bool)
    requires p.Valid() && Contained(p, s)
    ensures Contained(p, Next(p, s, ControlCycle(reading, degraded)))
  {
    hide Trimmed, Stalled, StepSize, Toward, Product, Closing, CycleLog, Overloaded, ActiveForce;
    var step := StepSize(p, s.gripper.target.speed, s.gripper.updated, s.now, Scale(degraded));
    StepNonNegative(p, s.gripper.target.speed, s.gripper.updated, s.now, Scale(degraded));
    TowardBetween(p, s.gripper.command, s.gripper.target.requested, step);
  }

  lemma SpeedNonNegative(p: Profile, speed: real)
    requires p.Valid() && 0.0 <= speed
    ensures 0.0 <= p.closeSpeed * speed / FULL_SPEED
  {
    MulNonNegative(p.closeSpeed, speed);
  }

  lemma NextContained(p: Profile, s: Run, step: Step)
    requires p.Valid() && StopsInLimits(p) && Contained(p, s)
    requires step.Seed? ==> InLimits(p, step.position)
    ensures Contained(p, Next(p, s, step))
  {
    hide Cycled, CycleLog, Product, ToPosition;
    match step
    case ControlCycle(reading, degraded) => ControlContained(p, s, reading, degraded);
    case SetOpening(opening, speed, level, mode) =>
      if Acceptable(p, opening, speed, level) {
        PositionBetween(p, opening);
        SpeedNonNegative(p, speed);
      }
    case _ =>
  }

  /** While feedback seeds the command within the limits, no command ever leaves them. */
  lemma {:induction false} CommandsStayWithinLimits(p: Profile, steps: seq<Step>)
    requires p.Valid() && StopsInLimits(p) && InLimits(p, 0.0)
    requires forall i :: 0 <= i < |steps| && steps[i].Seed? ==> InLimits(p, steps[i].position)
    ensures Contained(p, After(p, steps))
  {
    hide Next;
    if |steps| == 0 {
    } else {
      CommandsStayWithinLimits(p, steps[..|steps| - 1]);
      NextContained(p, After(p, steps[..|steps| - 1]), steps[|steps| - 1]);
    }
  }
}
