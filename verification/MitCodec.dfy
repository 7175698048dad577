/** The Damiao frame codec (motor/include/damiao/protocol.hpp, registers.hpp, motor.hpp). Floats are reals. A shift
    of an unsigned word is a division or a product, a mask a remainder, and an or of disjoint fields a sum. */
module MitCodec {
  import opened RealArithmetic
  import opened Results

  type Byte = n: nat | n < 256
  type Frame = f: seq<Byte> | |f| == 8 witness [0, 0, 0, 0, 0, 0, 0, 0]

  datatype Limits = Limits(pMin: real, pMax: real, vMin: real, vMax: real, tMin: real, tMax: real) {
    predicate Valid() {
      pMin < pMax && vMin < vMax && tMin < tMax
    }
  }

  datatype Error = UnknownModel

  const KP_MAX: real := 500.0
  const KD_MAX: real := 5.0

  /** The highest value of a 16-bit and of a 12-bit field. */
  const WIDE: nat := 0xFFFF
  const NARROW: nat := 0xFFF

  function ModelLimits(model: string): Result<Limits, Error> {
    if model == "4310" then Success(Limits(-12.5, 12.5, -30.0, 30.0, -10.0, 10.0))
    else if model == "4340P" then Success(Limits(-12.5, 12.5, -10.0, 10.0, -28.0, 28.0))
    else if model == "8009" then Success(Limits(-12.5, 12.5, -45.0, 45.0, -54.0, 54.0))
    else Failure(UnknownModel)
  }

  // ---------- Quantisation ----------

  lemma RatioBetween(x: real, y: real, low: real, high: real)
    requires 0.0 < y && Product(low, y) <= x <= Product(high, y)
    ensures low <= Ratio(x, y) <= high
  {
    DivMul(x, y);
    if Ratio(x, y) < low { MulStrictlyMonotone(Ratio(x, y), low, y); }
    if high < Ratio(x, y) { MulStrictlyMonotone(high, Ratio(x, y), y); }
  }

  lemma RatioProduct(x: real, y: real)
    requires 0.0 < y
    ensures Product(Ratio(x, y), y) == x
  {
    DivMul(x, y);
  }

  lemma ProductMonotone(low: real, high: real, y: real)
    requires 0.0 < y && low <= high
    ensures Product(low, y) <= Product(high, y)
    ensures low < high ==> Product(low, y) < Product(high, y)
  {
    if low < high {
      MulPositive(high - low, y);
      assert high * y == low * y + (high - low) * y;
    }
  }

  lemma RatioFloor(x: real, y: real, n: real)
    requires 0.0 < y && n <= Ratio(x, y) < n + 1.0
    ensures Product(n, y) <= x < Product(n + 1.0, y)
  {
    hide Product, Ratio;
    RatioProduct(x, y);
    ProductMonotone(n, Ratio(x, y), y);
    ProductMonotone(Ratio(x, y), n + 1.0, y);
  }

  lemma OffsetProduct(offset: real, span: real, k: real)
    requires 0.0 <= offset <= span && 0.0 <= k
    ensures Product(0.0, span) <= Product(offset, k) <= Product(k, span)
  {
    MulNonNegative(offset, k);
    MulMonotone(offset, span, k);
  }

  /** A clipped value as a whole number of steps, truncated. */
  function FloatToUint(x: real, min: real, max: real, levels: nat): (n: nat)
    requires min < max
    ensures n <= levels
  {
    hide Product, Ratio;
    OffsetProduct(Clamp(x, min, max) - min, max - min, levels as real);
    RatioBetween(Product(Clamp(x, min, max) - min, levels as real), max - min, 0.0, levels as real);
    Ratio(Product(Clamp(x, min, max) - min, levels as real), max - min).Floor
  }

  function UintToFloat(n: nat, min: real, max: real, levels: nat): real
    requires 0 < levels
  {
    Ratio(Product(n as real, max - min), levels as real) + min
  }

  predicate Close(decoded: real, x: real, min: real, max: real, levels: nat)
    requires min < max && 0 < levels
  {
    decoded <= Clamp(x, min, max) < decoded + Ratio(max - min, levels as real)
  }

  lemma ProductSum(x: real, y: real, k: real)
    ensures Product(x + y, k) == Product(x, k) + Product(y, k)
  {
  }

  lemma StepBelow(n: real, k: real, span: real, offset: real)
    requires 0.0 < k && Product(n, span) <= Product(offset, k) < Product(n + 1.0, span)
    ensures Ratio(Product(n, span), k) <= offset < Ratio(Product(n, span), k) + Ratio(span, k)
  {
    var low := Ratio(Product(n, span), k);
    var step := Ratio(span, k);
    RatioProduct(Product(n, span), k);
    RatioProduct(span, k);
    ProductSum(low, step, k);
    ProductSum(n, 1.0, span);
    assert Product(1.0, span) == span;
    hide Product, Ratio;
    if offset < low { ProductMonotone(offset, low, k); }
    if low + step <= offset { ProductMonotone(low + step, offset, k); }
  }

  /** Decoding a quantised value loses less than one step below the clipped value. */
  lemma QuantisationError(x: real, min: real, max: real, levels: nat)
    requires min < max && 0 < levels
    ensures Close(UintToFloat(FloatToUint(x, min, max, levels), min, max, levels), x, min, max, levels)
  {
    hide Product, Ratio;
    var offset := Clamp(x, min, max) - min;
    RatioFloor(Product(offset, levels as real), max - min, FloatToUint(x, min, max, levels) as real);
    StepBelow(FloatToUint(x, min, max, levels) as real, levels as real, max - min, offset);
  }

  lemma RatioOfProduct(x: real, y: real)
    requires 0.0 < y
    ensures Ratio(Product(x, y), y) == x
  {
    DivMul(x, y);
  }

  lemma ProductSwap(x: real, y: real)
    ensures Product(x, y) == Product(y, x)
  {
  }

  lemma DequantisedOffset(n: real, span: real, k: real)
    requires 0.0 <= n <= k && 0.0 < k && 0.0 < span
    ensures 0.0 <= Ratio(Product(n, span), k) <= span
    ensures Ratio(Product(Ratio(Product(n, span), k), k), span) == n
  {
    OffsetProduct(n, k, span);
    ProductSwap(k, span);
    RatioProduct(Product(n, span), k);
    RatioOfProduct(n, span);
    hide Product, Ratio;
    RatioBetween(Product(n, span), k, 0.0, span);
  }

  /** Encoding a decoded value gives the same number back. */
  lemma QuantiseDequantised(n: nat, min: real, max: real, levels: nat)
    requires min < max && 0 < levels && n <= levels
    ensures FloatToUint(UintToFloat(n, min, max, levels), min, max, levels) == n
  {
    hide Product, Ratio;
    DequantisedOffset(n as real, max - min, levels as real);
    var x := UintToFloat(n, min, max, levels);
    assert Clamp(x, min, max) - min == Ratio(Product(n as real, max - min), levels as real);
  }

  /** Quantisation keeps the order of values. */
  lemma QuantisationMonotone(x: real, y: real, min: real, max: real, levels: nat)
    requires min < max && x <= y && 0 < levels
    ensures FloatToUint(x, min, max, levels) <= FloatToUint(y, min, max, levels)
  {
    var low, high := Clamp(x, min, max) - min, Clamp(y, min, max) - min;
    hide Product, Ratio;
    ProductMonotone(low, high, levels as real);
    RatioMonotone(Product(low, levels as real), Product(high, levels as real), max - min);
  }

  // ---------- Bit packing ----------

  datatype Fields = Fields(pos: nat, vel: nat, kp: nat, kd: nat, torq: nat) {
    predicate Fit() {
      pos <= WIDE && vel <= NARROW && kp <= NARROW && kd <= NARROW && torq <= NARROW
    }
  }

  function Low(n: nat): (b: Byte)
    ensures b == n % 256
  {
    n % 256
  }

  function Shifted(n: nat, size: nat): nat
    requires 0 < size
  {
    n / size
  }

  /** The low nibble of one 12-bit field above the high nibble of the next. */
  function Joined(x: nat, y: nat): Byte {
    x % 16 * 16 + Shifted(y, 256) % 16
  }

  function Pack(q: Fields): Frame {
    [Low(Shifted(q.pos, 256)), Low(q.pos),
     Low(Shifted(q.vel, 16)), Joined(q.vel, q.kp), Low(q.kp),
     Low(Shifted(q.kd, 16)), Joined(q.kd, q.torq), Low(q.torq)]
  }

  function WideField(high: Byte, low: Byte): nat {
    high * 256 + low
  }

  function HighField(high: Byte, shared: Byte): nat {
    high * 16 + Shifted(shared, 16)
  }

  function LowField(shared: Byte, low: Byte): nat {
    shared % 16 * 256 + low
  }

  /** The 16, 12, 12, 12 and 12 bit fields of a frame. */
  function Unpack(f: Frame): Fields {
    Fields(WideField(f[0], f[1]), HighField(f[2], f[3]), LowField(f[3], f[4]),
           HighField(f[5], f[6]), LowField(f[6], f[7]))
  }

  lemma WidePacked(n: nat)
    requires n <= WIDE
    ensures WideField(Low(Shifted(n, 256)), Low(n)) == n
  {
  }

  lemma PairPacked(x: nat, y: nat)
    requires x <= NARROW && y <= NARROW
    ensures HighField(Low(Shifted(x, 16)), Joined(x, y)) == x
    ensures LowField(Joined(x, y), Low(y)) == y
  {
  }

  lemma WideUnpacked(high: Byte, low: Byte)
    ensures var n := WideField(high, low); n <= WIDE && Low(Shifted(n, 256)) == high && Low(n) == low
  {
  }

  lemma PairUnpacked(high: Byte, shared: Byte, low: Byte)
    ensures var x := HighField(high, shared); var y := LowField(shared, low);
            x <= NARROW && y <= NARROW && Low(Shifted(x, 16)) == high && Joined(x, y) == shared && Low(y) == low
  {
  }

  /** No field overlaps another: unpacking returns all five exactly. */
  lemma UnpackPack(q: Fields)
    requires q.Fit()
    ensures Unpack(Pack(q)) == q
  {
    hide Low, Shifted, Joined, WideField, HighField, LowField;
    WidePacked(q.pos);
    PairPacked(q.vel, q.kp);
    PairPacked(q.kd, q.torq);
  }

  /** No bit is unused: every frame is the packing of its fields. */
  lemma PackUnpack(f: Frame)
    ensures Unpack(f).Fit() && Pack(Unpack(f)) == f
  {
    hide Low, Shifted, Joined, WideField, HighField, LowField;
    WideUnpacked(f[0], f[1]);
    PairUnpacked(f[2], f[3], f[4]);
    PairUnpacked(f[5], f[6], f[7]);
  }

  // ---------- MIT commands ----------

  datatype MitCommand = MitCommand(pos: real, vel: real, torq: real, kp: real, kd: real)

  function Quantised(c: MitCommand, limits: Limits): Fields
    requires limits.Valid()
  {
    Fields(FloatToUint(c.pos, limits.pMin, limits.pMax, WIDE), FloatToUint(c.vel, limits.vMin, limits.vMax, NARROW),
           FloatToUint(c.kp, 0.0, KP_MAX, NARROW), FloatToUint(c.kd, 0.0, KD_MAX, NARROW),
           FloatToUint(c.torq, limits.tMin, limits.tMax, NARROW))
  }

  function EncodeMitCommand(c: MitCommand, limits: Limits): Frame
    requires limits.Valid()
  {
    Pack(Quantised(c, limits))
  }

  /** What a motor reads out of a command frame. */
  function DecodeMitCommand(f: Frame, limits: Limits): MitCommand {
    var q := Unpack(f);
    MitCommand(UintToFloat(q.pos, limits.pMin, limits.pMax, WIDE), UintToFloat(q.vel, limits.vMin, limits.vMax, NARROW),
               UintToFloat(q.torq, limits.tMin, limits.tMax, NARROW),
               UintToFloat(q.kp, 0.0, KP_MAX, NARROW), UintToFloat(q.kd, 0.0, KD_MAX, NARROW))
  }

  /** A motor reads every part of a command to within one step below its clipped value. */
  lemma MitCommandRoundTrip(c: MitCommand, limits: Limits)
    requires limits.Valid()
    ensures var d := DecodeMitCommand(EncodeMitCommand(c, limits), limits);
            && Close(d.pos, c.pos, limits.pMin, limits.pMax, WIDE)
            && Close(d.vel, c.vel, limits.vMin, limits.vMax, NARROW)
            && Close(d.torq, c.torq, limits.tMin, limits.tMax, NARROW)
            && Close(d.kp, c.kp, 0.0, KP_MAX, NARROW)
            && Close(d.kd, c.kd, 0.0, KD_MAX, NARROW)
  {
    hide FloatToUint, UintToFloat, Pack, Unpack, Close;
    UnpackPack(Quantised(c, limits));
    QuantisationError(c.pos, limits.pMin, limits.pMax, WIDE);
    QuantisationError(c.vel, limits.vMin, limits.vMax, NARROW);
    QuantisationError(c.torq, limits.tMin, limits.tMax, NARROW);
    QuantisationError(c.kp, 0.0, KP_MAX, NARROW);
    QuantisationError(c.kd, 0.0, KD_MAX, NARROW);
  }

  /** Sending what a motor has read repeats the frame. */
  lemma MitFrameRoundTrip(f: Frame, limits: Limits)
    requires limits.Valid()
    ensures EncodeMitCommand(DecodeMitCommand(f, limits), limits) == f
  {
    hide FloatToUint, UintToFloat, Pack, Unpack;
    PackUnpack(f);
    var q := Unpack(f);
    QuantiseDequantised(q.pos, limits.pMin, limits.pMax, WIDE);
    QuantiseDequantised(q.vel, limits.vMin, limits.vMax, NARROW);
    QuantiseDequantised(q.torq, limits.tMin, limits.tMax, NARROW);
    QuantiseDequantised(q.kp, 0.0, KP_MAX, NARROW);
    QuantiseDequantised(q.kd, 0.0, KD_MAX, NARROW);
  }

  // ---------- Frames from the motor ----------

  datatype Feedback = Feedback(id: nat, status: nat, pos: real, vel: real, torq: real, tMos: nat, tRotor: nat)

  function PositionField(f: Frame): nat {
    WideField(f[1], f[2])
  }

  function VelocityField(f: Frame): nat {
    HighField(f[3], f[4])
  }

  function TorqueField(f: Frame): nat {
    LowField(f[4], f[5])
  }

  function DecodeSensorFeedback(f: Frame, limits: Limits): Feedback {
    Feedback(f[0] % 16, Shifted(f[0], 16),
             UintToFloat(PositionField(f), limits.pMin, limits.pMax, WIDE),
             UintToFloat(VelocityField(f), limits.vMin, limits.vMax, NARROW),
             UintToFloat(TorqueField(f), limits.tMin, limits.tMax, NARROW),
             f[6], f[7])
  }

  function Nibbles(high: nat, low: nat): Byte {
    high % 16 * 16 + low % 16
  }

  lemma NibblesPacked(high: nat, low: nat)
    requires high < 16 && low < 16
    ensures Nibbles(high, low) % 16 == low && Shifted(Nibbles(high, low), 16) == high
  {
  }

  /** The frame a motor sends for a reading. */
  function SensorFrame(id: nat, status: nat, pos: nat, vel: nat, torq: nat, tMos: Byte, tRotor: Byte): Frame {
    [Nibbles(status, id), Low(Shifted(pos, 256)), Low(pos),
     Low(Shifted(vel, 16)), Joined(vel, torq), Low(torq), tMos, tRotor]
  }

  /** Decoding returns the identity, the status and every quantised reading a motor has put into its frame. */
  lemma FeedbackRoundTrip(id: nat, status: nat, pos: nat, vel: nat, torq: nat, tMos: Byte, tRotor: Byte, limits: Limits)
    requires id < 16 && status < 16 && pos <= WIDE && vel <= NARROW && torq <= NARROW
    ensures DecodeSensorFeedback(SensorFrame(id, status, pos, vel, torq, tMos, tRotor), limits)
         == Feedback(id, status, UintToFloat(pos, limits.pMin, limits.pMax, WIDE),
                     UintToFloat(vel, limits.vMin, limits.vMax, NARROW),
                     UintToFloat(torq, limits.tMin, limits.tMax, NARROW), tMos, tRotor)
  {
    NibblesPacked(status, id);
    WidePacked(pos);
    PairPacked(vel, torq);
    hide Nibbles, Shifted, UintToFloat, Low, Joined, WideField, HighField, LowField;
  }

  predicate IsKnownRegister(rid: nat) {
    rid <= 36 || 50 <= rid <= 56 || 59 <= rid <= 65 || rid == 80 || rid == 81
  }

  const REPLY: Byte := 0x33
  const ACK: Byte := 0x55

  predicate IsRegisterFrame(f: Frame, marker: Byte) {
    f[1] <= 0x0F && f[2] == marker && IsKnownRegister(f[3])
  }

  predicate IsRegister(f: Frame) {
    IsRegisterFrame(f, REPLY) || IsRegisterFrame(f, ACK)
  }

  /** A received frame, as the handle of one motor takes it. */
  datatype Received =
    | Rejected
    | Reply(rid: nat, value: seq<Byte>)
    | WriteAck(rid: nat, value: seq<Byte>)
    | Sensor(feedback: Feedback)

  /** Matching and processing of an 8-byte frame on the motor's feedback identifier. */
  function Receive(f: Frame, motorId: nat, limits: Limits): Received {
    var decoded := if IsRegister(f) then WideField(f[1], f[0]) else f[0] % 16;
    var expected := if IsRegister(f) then motorId else motorId % 16;
    if decoded != expected then Rejected
    else if IsRegisterFrame(f, REPLY) then Reply(f[3], f[4..8])
    else if IsRegisterFrame(f, ACK) then WriteAck(f[3], f[4..8])
    else Sensor(DecodeSensorFeedback(f, limits))
  }

  /** The position and velocity fields of a frame that is taken for a register frame. */
  predicate LooksLikeRegister(f: Frame) {
    && PositionField(f) <= 0x0FFF
    && (Low(PositionField(f)) == 0x33 || Low(PositionField(f)) == 0x55)
    && IsKnownRegister(Low(Shifted(VelocityField(f), 16)))
  }

  /** The register frames are the feedback frames of two position values in each of the sixteen lowest blocks
      of 256, with the velocity above a known register number. */
  lemma RegisterIffFields(f: Frame)
    ensures IsRegister(f) <==> LooksLikeRegister(f)
  {
    WideUnpacked(f[1], f[2]);
    PairUnpacked(f[3], f[4], f[5]);
    hide Shifted, HighField, LowField;
  }

  /** On every installed model a frame taken for a register frame reads as a position of at most -11. */
  lemma RegisterReadsBelow(f: Frame, model: string)
    requires ModelLimits(model).Success? && IsRegister(f)
    ensures DecodeSensorFeedback(f, ModelLimits(model).value).pos <= -11.0
  {
    assert PositionField(f) <= 0x0F55;
  }

  /** So feedback above -11 is never mistaken, and reaches the reader with its position, velocity and torque. */
  lemma FeedbackIsDelivered(f: Frame, motorId: nat, model: string)
    requires ModelLimits(model).Success?
    requires DecodeSensorFeedback(f, ModelLimits(model).value).pos > -11.0
    ensures Receive(f, motorId, ModelLimits(model).value)
         == if f[0] % 16 == motorId % 16 then Sensor(DecodeSensorFeedback(f, ModelLimits(model).value)) else Rejected
  {
    hide DecodeSensorFeedback;
    if IsRegister(f) {
      RegisterReadsBelow(f, model);
    }
  }

  /** Feedback that carries the identity of the motor is delivered exactly if its position and velocity do not look
      like a register frame. */
  lemma DeliveredExactly(f: Frame, motorId: nat, limits: Limits)
    requires f[0] % 16 == motorId % 16
    ensures Receive(f, motorId, limits) == Sensor(DecodeSensorFeedback(f, limits)) <==> !LooksLikeRegister(f)
  {
    RegisterIffFields(f);
    hide DecodeSensorFeedback, PositionField, VelocityField, Shifted, WideField, IsKnownRegister;
  }

  /** Below it a genuine reading can look like a register reply: that of a motor close to the lower end of its
      range is taken for a reply about register 1. */
  lemma LowFeedbackLooksLikeReply(limits: Limits)
    ensures var f := SensorFrame(1, 0, 0x0033, 0x010, 0x800, 30, 30);
            DecodeSensorFeedback(f, limits).id == 1 && Receive(f, 1, limits) == Reply(1, [8, 0, 30, 30])
  {
    LowFrame();
    LowReply(limits);
  }

  const LOW_FRAME: Frame := [1, 0, 0x33, 1, 8, 0, 30, 30]

  lemma LowFrame()
    ensures SensorFrame(1, 0, 0x0033, 0x010, 0x800, 30, 30) == LOW_FRAME
  {
  }

  lemma LowReply(limits: Limits)
    ensures DecodeSensorFeedback(LOW_FRAME, limits).id == 1 && Receive(LOW_FRAME, 1, limits) == Reply(1, [8, 0, 30, 30])
  {
    hide UintToFloat, LowField, HighField, Shifted;
    assert LOW_FRAME[4..8] == [8, 0, 30, 30];
  }

  // ---------- Little-endian fields ----------

  function HalfAt(f: seq<Byte>, offset: nat): nat
    requires offset + 2 <= |f|
  {
    WideField(f[offset + 1], f[offset])
  }

  /** The four bytes of a float, as they stand in memory. */
  type RawFloat = f: seq<Byte> | |f| == 4 witness [0, 0, 0, 0]

  method WriteF32Le(out: array<Byte>, offset: nat, raw: RawFloat)
    requires offset + 4 <= out.Length
    modifies out
    ensures out[..] == old(out[..])[..offset] + raw + old(out[..])[offset + 4..]
  {
    out[offset] := raw[0];
    out[offset + 1] := raw[1];
    out[offset + 2] := raw[2];
    out[offset + 3] := raw[3];
  }

  method WriteU16Le(out: array<Byte>, offset: nat, value: nat)
    requires offset + 2 <= out.Length && value <= WIDE
    modifies out
    ensures HalfAt(out[..], offset) == value
    ensures forall i :: 0 <= i < out.Length && !(offset <= i < offset + 2) ==> out[i] == old(out[i])
  {
    WidePacked(value);
    out[offset] := Low(value);
    out[offset + 1] := Low(Shifted(value, 0x100));
  }

  method EncodePositionVelocityCommand(position: RawFloat, velocity: RawFloat) returns (f: Frame)
    ensures f == position + velocity
  {
    var out := new Byte[8](_ => 0);
    WriteF32Le(out, 0, position);
    WriteF32Le(out, 4, velocity);
    f := out[..];
  }

  const HUNDREDTHS: real := 100.0
  const TEN_THOUSANDTHS: real := 10000.0
  const CAP: nat := 10000

  function Scaled(x: real, max: real, factor: real): (n: nat)
    requires 0.0 <= max && 0.0 <= factor
    ensures n <= CAP
  {
    MulNonNegative(Clamp(x, 0.0, max), factor);
    var n := (Clamp(x, 0.0, max) * factor).Floor;
    if n < CAP then n else CAP
  }

  /** Position by its bits, the velocity limit in hundredths up to 100, the torque ratio in ten thousandths. */
  method EncodeForcePositionCommand(position: RawFloat, velocityLimit: real, torqueRatio: real) returns (f: Frame)
    ensures f[..4] == position
    ensures HalfAt(f, 4) as real <= Clamp(velocityLimit, 0.0, 100.0) * 100.0 < HalfAt(f, 4) as real + 1.0
    ensures HalfAt(f, 6) as real <= Clamp(torqueRatio, 0.0, 1.0) * 10000.0 < HalfAt(f, 6) as real + 1.0
  {
    var out := new Byte[8](_ => 0);
    WriteF32Le(out, 0, position);
    WriteU16Le(out, 4, Scaled(velocityLimit, 100.0, HUNDREDTHS));
    ghost var second := out[..];
    WriteU16Le(out, 6, Scaled(torqueRatio, 1.0, TEN_THOUSANDTHS));
    assert out[4..6] == second[4..6];
    f := out[..];
  }
}
