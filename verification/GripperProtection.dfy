/** One protected gripper (runtime/src/runtime_gripper.cpp). Times are nanoseconds. */
module GripperProtection {
  import opened RealArithmetic
  import opened Results

  const SECOND: real := 1000000000.0
  const SAME_POSITION: real := 0.000001
  const FULL_OPENING: real := 1000.0
  const FULL_SPEED: real := 1000.0
  const DEGRADED_SCALE: real := 0.25
  const WEAKEST: nat := 0
  const DEFAULT_LEVEL: nat := 5

  datatype Force = Force(contactTorque: real, overloadTorque: real)

  /** The descriptor of a gripper motor, its force profiles by level. */
  datatype Profile = Profile(open: real, closed: real, lower: real, upper: real, closing: real, closeSpeed: real,
                             window: nat, stallMovement: real, minError: real, contactHold: nat, overloadHold: nat,
                             holdOffset: real, retreatDistance: real, retreatRetry: nat, maxStep: nat,
                             forces: map<nat, Force>)
  {
    /** What construction of the runtime has checked. */
    ghost predicate Valid() {
      && open != closed && lower <= upper && 0.0 < closeSpeed
      && 0.0 <= stallMovement && 0.0 <= minError && 0.0 <= holdOffset && 0.0 <= retreatDistance
      && DEFAULT_LEVEL in forces
    }
  }

  datatype Mode = Protected | Direct
  datatype State = Disabled | Idle | Moving | Contact | Holding | Retreating | Fault
  datatype Sample = Sample(at: nat, position: real)

  /** What the motor last reported; status 1 is the enabled motor. */
  datatype Reading = Missing | Reading(status: nat, position: real, torque: real, stale: bool)

  /** What a cycle has observed so far; None stands for the unset time. */
  datatype Evidence = Evidence(samples: seq<Sample>, contactSince: Option<nat>, overloadSince: Option<nat>)

  const NO_EVIDENCE: Evidence := Evidence([], None, None)

  datatype Protection = Protection(active: bool, target: real, retreating: bool, retreat: real, lastRetreat: Option<nat>)

  datatype Target = Target(given: bool, requested: real, speed: real, level: nat, mode: Mode)

  datatype Gripper = Gripper(state: State, target: Target, command: real, updated: Option<nat>,
                             evidence: Evidence, protection: Protection)

  // ---------- Openings and positions ----------

  function ToPosition(p: Profile, opening: real): real {
    p.closed + Product(p.open - p.closed, Clamp(opening, 0.0, FULL_OPENING) / FULL_OPENING)
  }

  function ToOpening(p: Profile, position: real): real {
    if p.open - p.closed == 0.0 then 0.0
    else Clamp(FULL_OPENING * (position - p.closed) / (p.open - p.closed), 0.0, FULL_OPENING)
  }

  // ---------- The sliding window ----------

  /** The oldest samples go while the next one already reaches back to the cutoff. */
  function Trimmed(samples: seq<Sample>, cutoff: int): (r: seq<Sample>)
    ensures |samples| > 0 ==> |r| > 0 && r[|r| - 1] == samples[|samples| - 1]
  {
    if |samples| > 1 && samples[1].at <= cutoff then Trimmed(samples[1..], cutoff) else samples
  }

  function Highest(samples: seq<Sample>): (r: real)
    requires |samples| > 0
    ensures forall i :: 0 <= i < |samples| ==> samples[i].position <= r
    ensures exists i :: 0 <= i < |samples| && samples[i].position == r
  {
    var last := samples[|samples| - 1].position;
    if |samples| == 1 then last else Max(Highest(samples[..|samples| - 1]), last)
  }

  function Lowest(samples: seq<Sample>): (r: real)
    requires |samples| > 0
    ensures forall i :: 0 <= i < |samples| ==> r <= samples[i].position
    ensures exists i :: 0 <= i < |samples| && samples[i].position == r
  {
    var last := samples[|samples| - 1].position;
    if |samples| == 1 then last else Min(Lowest(samples[..|samples| - 1]), last)
  }

  /** The window is filled, and the gripper has not moved within it. */
  predicate Stalled(p: Profile, samples: seq<Sample>) {
    && |samples| >= 2
    && samples[|samples| - 1].at - samples[0].at >= p.window
    && Highest(samples) - Lowest(samples) <= p.stallMovement
  }

  // ---------- One control cycle as functions ----------

  predicate Guarded(target: Target) {
    target.mode == Protected && target.level != WEAKEST
  }

  function ActiveForce(p: Profile, level: nat): Force {
    if level in p.forces then p.forces[level] else Force(0.0, 0.0)
  }

  predicate Elapsed(since: Option<nat>, now: nat, duration: nat) {
    since.None? || now - since.value >= duration
  }

  predicate Closing(p: Profile, requested: real, position: real) {
    Product(requested - position, p.closing) > SAME_POSITION
  }

  /** The sample of a guarded cycle; an unguarded one drops all protection. */
  function Sampled(p: Profile, g: Gripper, now: nat, position: real): Gripper {
    if Guarded(g.target)
    then g.(evidence := g.evidence.(samples := Trimmed(g.evidence.samples + [Sample(now, position)], now - p.window)))
    else g.(evidence := NO_EVIDENCE, protection := g.protection.(active := false, retreating := false),
            state := if g.state == Contact || g.state == Holding || g.state == Retreating then Moving else g.state)
  }

  /** A contact becomes a hold, and so does a finished retreat. */
  function Settled(p: Profile, g: Gripper, now: nat, position: real): Gripper {
    if !Guarded(g.target) then g
    else if g.state == Contact then g.(state := Holding)
    else if g.state == Retreating
            && (Abs(position - g.protection.retreat) <= p.minError
                || Elapsed(g.protection.lastRetreat, now, p.retreatRetry))
    then g.(state := Holding)
    else g
  }

  function Toward(from: real, to: real, step: real): real {
    if to - from < 0.0 then from - Min(from - to, step) else from + Min(to - from, step)
  }

  function StepSize(p: Profile, speed: real, updated: Option<nat>, now: nat, scale: real): real {
    var elapsed := if updated.None? then 0
                   else if now - updated.value < p.maxStep then now - updated.value else p.maxStep;
    Product(Product(speed, scale), elapsed as real / SECOND)
  }

  /** The command follows the request, and the samples only count while closing. */
  function Followed(p: Profile, g: Gripper, step: real, position: real): Gripper {
    var moved := g.(command := Toward(g.command, g.target.requested, step));
    if Closing(p, g.target.requested, position) then moved else moved.(evidence := NO_EVIDENCE)
  }

  /** The test of one cycle: closing, against the torque, behind the command, and stalled. */
  predicate Touching(p: Profile, g: Gripper, position: real, torque: real) {
    && Guarded(g.target)
    && Closing(p, g.target.requested, position)
    && Abs(torque) >= ActiveForce(p, g.target.level).contactTorque
    && Abs(g.command - position) >= p.minError
    && Stalled(p, g.evidence.samples)
  }

  /** A contact that lasted becomes the protective target. */
  function Contacted(p: Profile, g: Gripper, now: nat, position: real): Gripper
    requires p.lower <= p.upper
  {
    var since := if g.evidence.contactSince.None? then now else g.evidence.contactSince.value;
    var noted := g.(evidence := g.evidence.(contactSince := Some(since)));
    if now - since >= p.contactHold
    then
      var target := Clamp(position + Product(p.closing, p.holdOffset), p.lower, p.upper);
      noted.(command := target, protection := g.protection.(active := true, target := target), state := Contact)
    else noted
  }

  function Arrived(p: Profile, g: Gripper, position: real): Gripper {
    if g.state == Moving && Abs(g.target.requested - position) <= p.minError then g.(state := Idle) else g
  }

  function Moved(p: Profile, g: Gripper, now: nat, position: real, torque: real, step: real): Gripper
    requires p.lower <= p.upper
  {
    var followed := Followed(p, g, step, position);
    Arrived(p, if Touching(p, followed, position, torque) then Contacted(p, followed, now, position)
               else followed.(evidence := followed.evidence.(contactSince := None)), position)
  }

  predicate Overloaded(p: Profile, g: Gripper, torque: real) {
    Abs(torque) >= ActiveForce(p, g.target.level).overloadTorque
  }

  function OverloadNoted(p: Profile, g: Gripper, now: nat, torque: real): Gripper {
    g.(evidence := g.evidence.(overloadSince :=
      if !Overloaded(p, g, torque) then None
      else if g.evidence.overloadSince.None? then Some(now)
      else g.evidence.overloadSince))
  }

  /** A lasting overload, and the last retreat long enough ago. */
  predicate RetreatDue(p: Profile, g: Gripper, now: nat) {
    && g.evidence.overloadSince.Some?
    && now - g.evidence.overloadSince.value >= p.overloadHold
    && Elapsed(g.protection.lastRetreat, now, p.retreatRetry)
  }

  function Retreated(p: Profile, g: Gripper, now: nat, base: real): Gripper
    requires p.lower <= p.upper
  {
    var retreat := Clamp(base - Product(p.closing, p.retreatDistance), p.lower, p.upper);
    g.(protection := Protection(true, retreat, true, retreat, Some(now)), state := Retreating)
  }

  function Held(p: Profile, g: Gripper, now: nat, position: real, torque: real): Gripper
    requires p.lower <= p.upper
  {
    var noted := OverloadNoted(p, g, now, torque);
    if RetreatDue(p, noted, now)
    then
      var retreated := Retreated(p, noted, now, if g.protection.retreating then g.protection.retreat else position);
      retreated.(command := retreated.protection.target)
    else noted
  }

  predicate Usable(reading: Reading) {
    reading.Reading? && reading.status == 1
  }

  /** The gripper as the state branch of a usable cycle finds it. */
  function Prepared(p: Profile, g: Gripper, now: nat, position: real): Gripper {
    Settled(p, Sampled(p, g.(updated := Some(now)), now, position), now, position)
  }

  function Scale(degraded: bool): real {
    if degraded then DEGRADED_SCALE else 1.0
  }

  function Cycled(p: Profile, g: Gripper, now: nat, reading: Reading, degraded: bool): Gripper
    requires p.lower <= p.upper
  {
    if !g.target.given || reading.Missing? then g
    else if reading.status != 1 then g.(state := Fault)
    else
      var ready := Prepared(p, g, now, reading.position);
      if ready.state == Moving
      then
        var step := StepSize(p, g.target.speed, g.updated, now, Scale(degraded));
        Moved(p, ready, now, reading.position, reading.torque, step)
      else if ready.state == Holding && Guarded(ready.target)
      then Held(p, ready, now, reading.position, reading.torque)
      else if ready.state == Idle then ready.(command := ready.target.requested)
      else ready
  }

  /** A protective hold cycle, run while the arms are stopped. */
  function HeldSafe(p: Profile, g: Gripper, now: nat, reading: Reading): Gripper
    requires p.lower <= p.upper
  {
    if reading.Missing? then g
    else if reading.status != 1 then g.(state := Fault)
    else if reading.stale || !Guarded(g.target) then g
    else
      var noted := OverloadNoted(p, g, now, reading.torque);
      if RetreatDue(p, noted, now) then Retreated(p, noted, now, reading.position)
      else if !Overloaded(p, g, reading.torque) && g.state == Retreating then noted.(state := Holding)
      else noted
  }

  // ---------- Targets ----------

  datatype Error = InvalidTarget

  predicate Acceptable(p: Profile, opening: real, speed: real, level: nat) {
    0.0 <= opening <= FULL_OPENING && 0.0 < speed <= FULL_SPEED && level in p.forces
  }

  predicate NewMotion(p: Profile, target: Target, opening: real, mode: Mode) {
    !target.given || Abs(ToPosition(p, opening) - target.requested) > SAME_POSITION || target.mode != mode
  }

  /** A new motion starts without evidence; a new force level only drops the evidence of a running one. */
  function Targeted(p: Profile, g: Gripper, opening: real, speed: real, level: nat, mode: Mode): Gripper {
    var accepted := g.(target := Target(true, ToPosition(p, opening), p.closeSpeed * speed / FULL_SPEED, level, mode));
    if NewMotion(p, g.target, opening, mode)
    then accepted.(state := Moving, evidence := NO_EVIDENCE,
                   protection := g.protection.(active := false, retreating := false))
    else if g.target.level != level && g.state == Moving then accepted.(evidence := NO_EVIDENCE)
    else accepted
  }

  /** A direct command takes the gripper over and forgets evidence and retreats. */
  function Overridden(g: Gripper): Gripper {
    g.(evidence := NO_EVIDENCE, protection := g.protection.(active := false, retreating := false, lastRetreat := None))
  }

  function Enabled(p: Profile, g: Gripper): Gripper {
    Overridden(g).(state := Idle, updated := None,
                   target := g.target.(given := false, speed := p.closeSpeed, level := DEFAULT_LEVEL))
  }

  function Seeded(g: Gripper, position: real, activate: bool): Gripper {
    g.(command := position, target := g.target.(given := activate, requested := position))
  }

  function Initial(p: Profile): Gripper {
    Gripper(Disabled, Target(false, 0.0, p.closeSpeed, DEFAULT_LEVEL, Protected), 0.0, None, NO_EVIDENCE,
            Protection(false, 0.0, false, 0.0, None))
  }

  // ---------- The record the runtime updates ----------

  class MotorRecord {
    const profile: Profile
    var state: State
    var target: Target
    var command: real
    var updated: Option<nat>
    var samples: seq<Sample>
    var contactSince: Option<nat>
    var overloadSince: Option<nat>
    var protection: Protection

    ghost function Value(): Gripper
      reads this
    {
      Gripper(state, target, command, updated, Evidence(samples, contactSince, overloadSince), protection)
    }

    constructor (profile: Profile)
      requires profile.Valid()
      ensures this.profile == profile && Value() == Initial(profile)
    {
      this.profile := profile;
      state, command, updated, samples, contactSince, overloadSince := Disabled, 0.0, None, [], None, None;
      target := Target(false, 0.0, profile.closeSpeed, DEFAULT_LEVEL, Protected);
      protection := Protection(false, 0.0, false, 0.0, None);
    }

    method ClearEvidence()
      modifies `samples, `contactSince, `overloadSince
      ensures Value() == old(Value()).(evidence := NO_EVIDENCE)
    {
      samples, contactSince, overloadSince := [], None, None;
    }

    method SetOpening(opening: real, speed: real, level: nat, mode: Mode) returns (r: Result<(), Error>)
      requires profile.Valid()
      modifies this
      ensures r.Success? <==> Acceptable(profile, opening, speed, level)
      ensures Value() == if r.Success? then Targeted(profile, old(Value()), opening, speed, level, mode) else old(Value())
    {
      if opening < 0.0 || opening > FULL_OPENING || speed <= 0.0 || speed > FULL_SPEED || level !in profile.forces {
        return Failure(InvalidTarget);
      }
      var position := ToPosition(profile, opening);
      var targetChanged := !target.given || Abs(position - target.requested) > SAME_POSITION;
      var modeChanged := target.mode != mode;
      var forceChanged := target.level != level;
      target := Target(true, position, profile.closeSpeed * speed / FULL_SPEED, level, mode);
      if targetChanged || modeChanged {
        state := Moving;
        protection := protection.(active := false, retreating := false);
        ClearEvidence();
      } else if forceChanged && state == Moving {
        ClearEvidence();
      }
      return Success(());
    }

    method AddSample(now: nat, position: real)
      modifies `samples
      ensures samples == Trimmed(old(samples) + [Sample(now, position)], now - profile.window)
    {
      samples := samples + [Sample(now, position)];
      ghost var all := samples;
      while |samples| > 1 && samples[1].at <= now - profile.window
        invariant Trimmed(all, now - profile.window) == Trimmed(samples, now - profile.window)
        decreases |samples|
      {
        samples := samples[1..];
      }
    }

    /** The extent of the recorded positions, kept up sample by sample. */
    method Extent() returns (low: real, high: real)
      requires |samples| > 0
      ensures low == Lowest(samples) && high == Highest(samples)
    {
      low, high := samples[0].position, samples[0].position;
      var i := 1;
      while i < |samples|
        invariant 1 <= i <= |samples|
        invariant low == Lowest(samples[..i]) && high == Highest(samples[..i])
      {
        assert samples[..i + 1][..i] == samples[..i];
        low, high := Min(low, samples[i].position), Max(high, samples[i].position);
        i := i + 1;
      }
      assert samples[..i] == samples;
    }

    method IsStalled() returns (stalled: bool)
      ensures stalled == Stalled(profile, samples)
    {
      if |samples| < 2 || samples[|samples| - 1].at - samples[0].at < profile.window {
        return false;
      }
      var low, high := Extent();
      return high - low <= profile.stallMovement;
    }

    method Prepare(now: nat, position: real)
      modifies this
      ensures Value() == Prepared(profile, old(Value()), now, position)
    {
      updated := Some(now);
      if Guarded(target) {
        AddSample(now, position);
        if state == Contact {
          state := Holding;
        }
        if state == Retreating {
          if Abs(position - protection.retreat) <= profile.minError
             || Elapsed(protection.lastRetreat, now, profile.retreatRetry)
          {
            state := Holding;
          }
        }
      } else {
        protection := protection.(active := false, retreating := false);
        ClearEvidence();
        if state == Contact || state == Holding || state == Retreating {
          state := Moving;
        }
      }
    }

    method Move(now: nat, position: real, torque: real, step: real)
      requires profile.Valid()
      modifies this
      ensures Value() == Moved(profile, old(Value()), now, position, torque, step)
    {
      command := Toward(command, target.requested, step);
      var closing := Closing(profile, target.requested, position);
      if !closing {
        ClearEvidence();
      }
      var stalled := IsStalled();
      if Guarded(target) && closing && Abs(torque) >= ActiveForce(profile, target.level).contactTorque
         && Abs(command - position) >= profile.minError && stalled
      {
        if contactSince.None? {
          contactSince := Some(now);
        }
        if now - contactSince.value >= profile.contactHold {
          command := Clamp(position + Product(profile.closing, profile.holdOffset), profile.lower, profile.upper);
          protection := protection.(active := true, target := command);
          state := Contact;
        }
      } else {
        contactSince := None;
      }
      if state == Moving && Abs(target.requested - position) <= profile.minError {
        state := Idle;
      }
    }

    method UpdateOverload(now: nat, torque: real)
      modifies `overloadSince
      ensures Value() == OverloadNoted(profile, old(Value()), now, torque)
    {
      if Abs(torque) < ActiveForce(profile, target.level).overloadTorque {
        overloadSince := None;
      } else if overloadSince.None? {
        overloadSince := Some(now);
      }
    }

    method Retreat(now: nat, base: real)
      requires profile.Valid()
      modifies `protection, `state
      ensures Value() == Retreated(profile, old(Value()), now, base)
    {
      var retreat := Clamp(base - Product(profile.closing, profile.retreatDistance), profile.lower, profile.upper);
      protection := Protection(true, retreat, true, retreat, Some(now));
      state := Retreating;
    }

    method Hold(now: nat, position: real, torque: real)
      requires profile.Valid()
      modifies this
      ensures Value() == Held(profile, old(Value()), now, position, torque)
    {
      UpdateOverload(now, torque);
      if overloadSince.Some? && now - overloadSince.value >= profile.overloadHold
         && Elapsed(protection.lastRetreat, now, profile.retreatRetry)
      {
        Retreat(now, if protection.retreating then protection.retreat else position);
        command := protection.target;
      }
    }

    /** A control cycle; ok is false when the motor reports a fault. */
    method ControlCycle(now: nat, reading: Reading, degraded: bool) returns (ok: bool)
      requires profile.Valid()
      modifies this
      ensures Value() == Cycled(profile, old(Value()), now, reading, degraded)
      ensures ok <==> !old(target.given) || reading.Missing? || reading.status == 1
    {
      hide Moved, Held, Prepared;
      ok := true;
      if !target.given || reading.Missing? {
        return;
      }
      if reading.status != 1 {
        state := Fault;
        return false;
      }
      var step := StepSize(profile, target.speed, updated, now, Scale(degraded));
      Prepare(now, reading.position);
      if state == Moving {
        Move(now, reading.position, reading.torque, step);
      } else if state == Holding && Guarded(target) {
        Hold(now, reading.position, reading.torque);
      } else if state == Idle {
        command := target.requested;
      }
    }

    method HoldSafe(now: nat, reading: Reading)
      requires profile.Valid()
      modifies this
      ensures Value() == HeldSafe(profile, old(Value()), now, reading)
    {
      if reading.Missing? {
        return;
      }
      if reading.status != 1 {
        state := Fault;
        return;
      }
      if reading.stale || !Guarded(target) {
        return;
      }
      UpdateOverload(now, reading.torque);
      if overloadSince.Some? {
        if now - overloadSince.value >= profile.overloadHold
           && Elapsed(protection.lastRetreat, now, profile.retreatRetry)
        {
          Retreat(now, reading.position);
        }
      } else if state == Retreating {
        state := Holding;
      }
    }

    method SubmitDirect()
      modifies this
      ensures Value() == Overridden(old(Value()))
    {
      ClearEvidence();
      protection := protection.(active := false, retreating := false, lastRetreat := None);
    }

    method Enable()
      modifies this
      ensures Value() == Enabled(profile, old(Value()))
    {
      SubmitDirect();
      state, updated := Idle, None;
      target := target.(given := false, speed := profile.closeSpeed, level := DEFAULT_LEVEL);
    }
  }
}
