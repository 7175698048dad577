/** The torque limit of MIT arm commands (runtime/src/runtime_commands.cpp). */
module TorqueLimiter {
  import opened RealArithmetic
  import opened Results

  const DUAL_ARM_DOF: nat := 14

  datatype Command = Command(motor: nat, position: real, velocity: real, stiffness: real, damping: real,
                             feedforward: real)

  /** What a motor last reported; None when there is no usable state. */
  datatype Feedback = Feedback(status: nat, position: real, velocity: real)

  datatype Error = TooManyJoints | Unconfigured(motor: nat) | NoFeedback(motor: nat) | NotEnabled(motor: nat)

  /** The torque the motor will produce: both springs and the feedforward. */
  function Resultant(c: Command, f: Feedback): real {
    Product(c.stiffness, c.position - f.position) + Product(c.damping, c.velocity - f.velocity) + c.feedforward
  }

  /** Gains and feedforward scaled, the targets kept. */
  function ScaledBy(c: Command, scale: real): Command {
    c.(stiffness := Product(c.stiffness, scale), damping := Product(c.damping, scale),
       feedforward := Product(c.feedforward, scale))
  }

  /** A command is limited to a torque exactly if the motor then produces the requested torque clamped to it,
      toward the same targets. */
  ghost predicate IsLimited(applied: Command, requested: Command, f: Feedback, limit: real)
    requires 0.0 <= limit
  {
    && Resultant(applied, f) == Clamp(Resultant(requested, f), -limit, limit)
    && applied.motor == requested.motor
    && applied.position == requested.position && applied.velocity == requested.velocity
  }

  lemma ScaleFirst(x: real, y: real, scale: real)
    ensures Product(Product(x, scale), y) == Product(Product(x, y), scale)
  {
    assert x * scale * y == x * y * scale;
  }

  lemma ScaleSum(x: real, y: real, z: real, scale: real)
    ensures Product(x + y + z, scale) == Product(x, scale) + Product(y, scale) + Product(z, scale)
  {
  }

  /** Scaling gains and feedforward scales the torque. */
  lemma ScaledResultant(c: Command, f: Feedback, scale: real)
    ensures Resultant(ScaledBy(c, scale), f) == Product(Resultant(c, f), scale)
  {
    ScaleFirst(c.stiffness, c.position - f.position, scale);
    ScaleFirst(c.damping, c.velocity - f.velocity, scale);
    hide Product;
    ScaleSum(Product(c.stiffness, c.position - f.position), Product(c.damping, c.velocity - f.velocity),
             c.feedforward, scale);
  }

  lemma ScaledToLimit(torque: real, limit: real)
    requires 0.0 <= limit < Abs(torque)
    ensures Product(torque, Ratio(limit, Abs(torque))) == Clamp(torque, -limit, limit)
  {
    DivMul(limit, Abs(torque));
    if torque < 0.0 {
      assert torque * Ratio(limit, -torque) == -(-torque * Ratio(limit, -torque));
    }
  }

  function Limited(c: Command, f: Feedback, limit: real): (r: Command)
    requires 0.0 <= limit
    ensures IsLimited(r, c, f, limit)
    ensures Abs(Resultant(c, f)) <= limit ==> r == c
  {
    hide Product, Ratio, ScaledBy;
    var torque := Resultant(c, f);
    if Abs(torque) > limit
    then
      ScaledResultant(c, f, Ratio(limit, Abs(torque)));
      ScaledToLimit(torque, limit);
      KeepsTargets(c, Ratio(limit, Abs(torque)));
      ScaledBy(c, Ratio(limit, Abs(torque)))
    else c
  }

  lemma KeepsTargets(c: Command, scale: real)
    ensures var r := ScaledBy(c, scale);
            r.motor == c.motor && r.position == c.position && r.velocity == c.velocity
  {
  }

  /** Limiting weakens gains and feedforward by one common factor, and by none at all within the limit. */
  lemma LimitedScales(c: Command, f: Feedback, limit: real) returns (scale: real)
    requires 0.0 <= limit
    ensures 0.0 <= scale <= 1.0 && (Abs(Resultant(c, f)) <= limit ==> scale == 1.0)
    ensures var r := Limited(c, f, limit);
            && r.stiffness == c.stiffness * scale && r.damping == c.damping * scale
            && r.feedforward == c.feedforward * scale && r.position == c.position && r.velocity == c.velocity
  {
    var torque := Resultant(c, f);
    if Abs(torque) <= limit {
      scale := 1.0;
    } else {
      scale := Ratio(limit, Abs(torque));
      RatioNonNegative(limit, Abs(torque));
      DivMul(limit, Abs(torque));
      FactorBelowOne(scale, Abs(torque), limit);
      hide Ratio, Resultant;
    }
  }

  lemma FactorBelowOne(scale: real, whole: real, part: real)
    requires 0.0 < whole && scale * whole == part < whole
    ensures scale <= 1.0
  {
    if 1.0 < scale {
      MulStrictlyMonotone(1.0, scale, whole);
    }
  }

  /** All or nothing: either every joint is known and enabled and every command is limited, or none is applied. */
  method PrepareLimitedCommands(requested: seq<Command>, limits: map<nat, real>, states: map<nat, Feedback>, scale: real)
    returns (r: Result<seq<Command>, Error>)
    requires 0.0 <= scale && forall motor :: motor in limits ==> 0.0 <= limits[motor]
    ensures r.Success? <==>
              && |requested| <= DUAL_ARM_DOF
              && (limits == map[] ||
                  forall i :: 0 <= i < |requested| ==> Ready(requested[i].motor, limits, states))
    ensures r.Success? ==> |r.value| == |requested|
    ensures r.Success? && limits == map[] ==> r.value == requested
    ensures r.Success? && limits != map[] ==>
              forall i :: 0 <= i < |requested| ==> LimitedAt(r.value[i], requested[i], limits, states, scale)
  {
    hide IsLimited, Limited, Resultant;
    if |requested| > DUAL_ARM_DOF {
      return Failure(TooManyJoints);
    }
    if limits == map[] {
      return Success(requested);
    }
    for i := 0 to |requested|
      invariant forall k :: 0 <= k < i ==> Ready(requested[k].motor, limits, states)
    {
      var motor := requested[i].motor;
      if motor !in limits {
        return Failure(Unconfigured(motor));
      }
      if motor !in states {
        return Failure(NoFeedback(motor));
      }
      if states[motor].status != 1 {
        return Failure(NotEnabled(motor));
      }
    }
    var applied := requested;
    for i := 0 to |requested|
      invariant |applied| == |requested|
      invariant forall k :: i <= k < |requested| ==> applied[k] == requested[k]
      invariant forall k :: 0 <= k < i ==> LimitedAt(applied[k], requested[k], limits, states, scale)
    {
      var motor := requested[i].motor;
      assert Ready(motor, limits, states);
      MulNonNegative(limits[motor], scale);
      applied := applied[i := Limited(requested[i], states[motor], Product(limits[motor], scale))];
    }
    return Success(applied);
  }

  predicate Ready(motor: nat, limits: map<nat, real>, states: map<nat, Feedback>) {
    motor in limits && motor in states && states[motor].status == 1
  }

  ghost predicate LimitedAt(applied: Command, requested: Command, limits: map<nat, real>, states: map<nat, Feedback>,
                            scale: real)
    requires 0.0 <= scale && forall motor :: motor in limits ==> 0.0 <= limits[motor]
  {
    && Ready(requested.motor, limits, states)
    && 0.0 <= Product(limits[requested.motor], scale)
    && IsLimited(applied, requested, states[requested.motor], Product(limits[requested.motor], scale))
  }
}
