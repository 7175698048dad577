/** How a gripper moves: its commands cycle by cycle, the positions it holds and retreats to, and every change of its
    state (runtime/src/runtime_gripper.cpp). */
module GripperMotion {
  import opened RealArithmetic
  import opened Results
  import opened GripperProtection
  import opened GripperProperties

  // ---------- Openings ----------

  /** An opening is a place on the line from the closed to the open position, in thousandths. */
  lemma OpeningIsLinear(p: Profile, opening: real)
    requires 0.0 <= opening <= FULL_OPENING
    ensures ToPosition(p, 0.0) == p.closed && ToPosition(p, FULL_OPENING) == p.open
    ensures (ToPosition(p, opening) - p.closed) * 1000.0 == (p.open - p.closed) * opening
  {
    var u := opening / FULL_OPENING;
    assert u * 1000.0 == opening;
    assert Product(p.open - p.closed, u) * 1000.0 == (p.open - p.closed) * (u * 1000.0);
  }

  /** An accepted target asks for its position at its share of the closing speed; it starts a motion without evidence
      if it is a new position or mode, and leaves what goes on alone otherwise. */
  lemma TargetFollows(p: Profile, g: Gripper, opening: real, speed: real, level: nat, mode: Mode)
    requires Acceptable(p, opening, speed, level)
    ensures var g' := Targeted(p, g, opening, speed, level, mode);
            var moves := !g.target.given || g.target.mode != mode
                         || Abs(ToPosition(p, opening) - g.target.requested) > 0.000001;
            && g'.target.given && g'.target.mode == mode && g'.target.level == level
            && g'.target.requested == ToPosition(p, opening) && g'.target.speed * 1000.0 == p.closeSpeed * speed
            && g'.command == g.command && g'.updated == g.updated
            && (moves ==>
                  && g'.state == Moving && g'.evidence == Evidence([], None, None)
                  && !g'.protection.active && !g'.protection.retreating
                  && g'.protection.lastRetreat == g.protection.lastRetreat)
            && (!moves ==>
                  && g'.state == g.state && g'.protection == g.protection
                  && g'.evidence == if g.target.level != level && g.state == Moving then Evidence([], None, None)
                                    else g.evidence)
  {
    hide ToPosition;
  }

  // ---------- The command of a moving cycle ----------

  /** The time a cycle may count, in nanoseconds: since the last one, but never more than the longest step. */
  function Counted(p: Profile, g: Gripper, now: nat): (d: int) {
    match g.updated
    case None => 0
    case Some(at) => if now - at < p.maxStep then now - at else p.maxStep
  }

  /** The way the command may go in a cycle. */
  function Reach(p: Profile, g: Gripper, now: nat, degraded: bool): real {
    g.target.speed * (if degraded then 0.25 else 1.0) * (Counted(p, g, now) as real / 1000000000.0)
  }

  /** Without a contact, the command of a moving gripper goes straight toward the request: it arrives if it can reach
      it, and is closer to it by exactly the reach of the cycle if not. */
  lemma CommandAdvances(p: Profile, g: Gripper, now: nat, reading: Reading, degraded: bool)
    requires p.lower <= p.upper && g.target.given && reading.Reading? && reading.status == 1
    requires Prepared(p, g, now, reading.position).state == Moving && 0.0 <= g.target.speed
    requires g.updated.Some? ==> g.updated.value <= now
    ensures var g' := Cycled(p, g, now, reading, degraded);
            var reach, way := Reach(p, g, now, degraded), Abs(g.target.requested - g.command);
            && g'.updated == Some(now)
            && (g'.state != Contact ==>
                  && Abs(g'.command - g.command) == Min(reach, way)
                  && Abs(g.target.requested - g'.command) == Max(way - reach, 0.0))
  {
    hide Trimmed, Stalled, Product, Closing, ActiveForce;
    StepNonNegative(p, g.target.speed, g.updated, now, Scale(degraded));
    StepIsReach(p, g, now, degraded);
    hide StepSize, Reach;
    TowardExactly(g.command, g.target.requested, Reach(p, g, now, degraded));
  }

  lemma StepIsReach(p: Profile, g: Gripper, now: nat, degraded: bool)
    ensures StepSize(p, g.target.speed, g.updated, now, Scale(degraded)) == Reach(p, g, now, degraded)
  {
  }

  lemma TowardExactly(from: real, to: real, step: real)
    requires 0.0 <= step
    ensures var x := Toward(from, to, step);
            Abs(x - from) == Min(step, Abs(to - from)) && Abs(to - x) == Max(Abs(to - from) - step, 0.0)
  {
  }

  // ---------- Where a gripper holds and retreats to ----------

  /** A contact holds the offset beyond the position met, in the closing direction, within the limits. */
  lemma ContactHolds(p: Profile, g: Gripper, now: nat, reading: Reading, degraded: bool)
    requires p.lower <= p.upper && g.target.given && reading.Reading? && reading.status == 1
    requires Cycled(p, g, now, reading, degraded).state == Contact
    ensures var g' := Cycled(p, g, now, reading, degraded);
            && g'.protection.active && g'.command == g'.protection.target
            && g'.protection.target == Clamp(reading.position + p.closing * p.holdOffset, p.lower, p.upper)
  {
    hide Trimmed, Stalled, Closing, ActiveForce, Toward, StepSize;
  }

  /** A retreat goes back by its distance against the closing direction, within the limits: from where the gripper
      stands, or from the last retreat while one is in force. */
  lemma RetreatGoesBack(p: Profile, g: Gripper, now: nat, reading: Reading, degraded: bool)
    requires p.lower <= p.upper && g.target.given && reading.Reading? && reading.status == 1
    requires Prepared(p, g, now, reading.position).state != Retreating
    requires Cycled(p, g, now, reading, degraded).state == Retreating
    ensures var g' := Cycled(p, g, now, reading, degraded);
            var base := if g.protection.retreating then g.protection.retreat else reading.position;
            && g'.protection.active && g'.protection.retreating && g'.protection.lastRetreat == Some(now)
            && g'.command == g'.protection.retreat == g'.protection.target
            && g'.protection.retreat == Clamp(base - p.closing * p.retreatDistance, p.lower, p.upper)
  {
    hide Trimmed, Stalled, Closing, ActiveForce, Toward, StepSize;
  }

  /** While the arms are stopped a retreat is noted but the command stays. */
  lemma SafeHoldRetreats(p: Profile, g: Gripper, now: nat, reading: Reading)
    requires p.lower <= p.upper && reading.Reading? && g.state != Retreating
    ensures var g' := HeldSafe(p, g, now, reading);
            && g'.command == g.command
            && (g'.state == Retreating ==>
                  && g'.protection.retreating && g'.protection.lastRetreat == Some(now)
                  && g'.protection.retreat == Clamp(reading.position - p.closing * p.retreatDistance, p.lower, p.upper))
  {
    hide ActiveForce;
  }

  // ---------- Every change of state in a cycle ----------

  /** The way back has ended, by place or by time. */
  predicate RetreatOver(p: Profile, g: Gripper, now: nat, position: real) {
    || Abs(position - g.protection.retreat) <= p.minError
    || (g.protection.lastRetreat.Some? ==> now - g.protection.lastRetreat.value >= p.retreatRetry)
  }

  /** The state a usable cycle works in. */
  function WorksIn(p: Profile, g: Gripper, now: nat, position: real): State {
    var guarded := g.target.mode == Protected && g.target.level != 0;
    if !guarded then (if g.state in {Contact, Holding, Retreating} then Moving else g.state)
    else if g.state == Contact then Holding
    else if g.state == Retreating && RetreatOver(p, g, now, position) then Holding
    else g.state
  }

  /** What a cycle makes of the state: nothing without a target or an answer, a fault for a motor that is not enabled;
      a contact and an idle gripper come from moving, the latter at its request; a retreat from holding; a moving
      gripper goes on, a holding one holds, and an idle one follows its request at once. */
  lemma CycleStates(p: Profile, g: Gripper, now: nat, reading: Reading, degraded: bool)
    requires p.lower <= p.upper
    ensures var g' := Cycled(p, g, now, reading, degraded);
            && (!g.target.given || reading.Missing? ==> g' == g)
            && (g.target.given && reading.Reading? && reading.status != 1 ==> g' == g.(state := Fault))
            && (g.target.given && reading.Reading? && reading.status == 1 ==>
                  var works := WorksIn(p, g, now, reading.position);
                  && (g'.state == Contact ==> works == Moving)
                  && (g'.state == Idle <==>
                        works == Idle
                        || (works == Moving && g'.state != Contact
                            && Abs(g.target.requested - reading.position) <= p.minError))
                  && (g'.state == Moving ==> works == Moving)
                  && (g'.state == Retreating ==>
                        works == Retreating || (works == Holding && g'.protection.lastRetreat == Some(now)))
                  && (works == Retreating ==> g'.state == Retreating)
                  && (g'.state == Holding ==> works == Holding)
                  && (works in {Disabled, Fault} ==> g'.state == works)
                  && (works == Idle ==> g'.command == g.target.requested))
  {
    hide Trimmed, Stalled, Product, Closing, ActiveForce, Toward, StepSize;
  }

  /** Unguarded cycles forget the evidence and give up what protects; they keep the time of the last retreat. */
  lemma UnguardedForgets(p: Profile, g: Gripper, now: nat, reading: Reading, degraded: bool)
    requires p.lower <= p.upper && g.target.given && reading.Reading? && reading.status == 1
    requires g.target.mode == Direct || g.target.level == 0
    ensures var g' := Cycled(p, g, now, reading, degraded);
            && g'.evidence == Evidence([], None, None) && !g'.protection.active && !g'.protection.retreating
            && g'.protection.lastRetreat == g.protection.lastRetreat
  {
    hide Stalled, Product, Closing, ActiveForce, Toward, StepSize;
  }

  /** What a protective hold cycle makes of the state: a fault for a motor that is not enabled, a hold where a retreat is
      no longer pressed, a new retreat, and nothing else. */
  lemma SafeHoldStates(p: Profile, g: Gripper, now: nat, reading: Reading)
    requires p.lower <= p.upper
    ensures var g' := HeldSafe(p, g, now, reading);
            var looks := reading.Reading? && reading.status == 1 && !reading.stale
                         && g.target.mode == Protected && g.target.level != 0;
            && (reading.Reading? && reading.status != 1 ==> g' == g.(state := Fault))
            && (reading.Missing? || (reading.status == 1 && !looks) ==> g' == g)
            && (looks && g'.protection.lastRetreat == g.protection.lastRetreat && !(g'.state == Retreating) ==>
                  g'.state == if g.state == Retreating then Holding else g.state)
            && (looks && g.state == Retreating && !Pressed(p, g, reading.torque) ==> g'.state == Holding)
            && (looks && g'.state == Retreating ==>
                  Pressed(p, g, reading.torque) && (g.state == Retreating || g'.protection.lastRetreat == Some(now)))
  {
    hide Product;
  }

  /** The motor works against at least the overload torque of the level asked for. */
  predicate Pressed(p: Profile, g: Gripper, torque: real) {
    var least := if g.target.level in p.forces then p.forces[g.target.level].overloadTorque else 0.0;
    least <= torque || least <= -torque
  }

  /** The tests of a cycle, in terms of its readings. */
  lemma TestsMean(p: Profile, g: Gripper, position: real, torque: real)
    ensures Overloaded(p, g, torque) <==> Pressed(p, g, torque)
    ensures Closing(p, g.target.requested, position) <==> (g.target.requested - position) * p.closing > 0.000001
    ensures g.target.level in p.forces ==> ActiveForce(p, g.target.level) == p.forces[g.target.level]
  {
  }

  /** A target is acceptable exactly within the whole opening, at a positive speed up to the full one, and at a force level
      of the product. */
  lemma AcceptableExactly(p: Profile, opening: real, speed: real, level: nat)
    ensures Acceptable(p, opening, speed, level)
       <==> 0.0 <= opening <= 1000.0 && 0.0 < speed <= 1000.0 && level in p.forces
  {
  }

  /** Enabling starts idle, without a target, without evidence or protection, at the closing speed and the fifth level;
      the command stays, and seeding sets it to where the gripper stands. */
  lemma EnableStarts(p: Profile, g: Gripper, position: real, activate: bool)
    ensures var g' := Enabled(p, g);
            && g'.state == Idle && !g'.target.given && g'.target.speed == p.closeSpeed && g'.target.level == 5
            && g'.evidence == Evidence([], None, None) && g'.updated == None && g'.command == g.command
            && !g'.protection.active && !g'.protection.retreating && g'.protection.lastRetreat == None
    ensures var g' := Seeded(g, position, activate);
            && g'.command == g'.target.requested == position && g'.target.given == activate && g'.state == g.state
  {
  }
}
