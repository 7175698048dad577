/** Where the fields of a Damiao frame stand, counted in the bits of its big-endian words
    (motor/include/damiao/protocol.hpp). */
module CodecLayout {
  import opened RealArithmetic
  import opened MitCodec

  /** The number a sequence of bytes spells, the most significant first. */
  function BigEndian(bytes: seq<Byte>): nat {
    if |bytes| == 0 then 0 else BigEndian(bytes[..|bytes| - 1]) * 256 + bytes[|bytes| - 1]
  }

  const BIT_12: nat := 0x1000
  const BIT_24: nat := 0x100_0000
  const BIT_36: nat := 0x10_0000_0000
  const BIT_48: nat := 0x1_0000_0000_0000

  lemma TwoMore(bytes: seq<Byte>, a: Byte, b: Byte)
    ensures BigEndian(bytes + [a, b]) == BigEndian(bytes) * 65536 + (a as int * 256 + b as int)
  {
    BigEndianNext(bytes, a);
    BigEndianNext(bytes + [a], b);
    assert bytes + [a] + [b] == bytes + [a, b];
  }

  lemma ThreeMore(bytes: seq<Byte>, a: Byte, b: Byte, c: Byte)
    ensures BigEndian(bytes + [a, b, c]) == BigEndian(bytes) * 16777216 + (a as int * 65536 + b as int * 256 + c as int)
  {
    TwoMore(bytes, a, b);
    BigEndianNext(bytes + [a, b], c);
    assert bytes + [a, b] + [c] == bytes + [a, b, c];
  }

  lemma BigEndianNext(bytes: seq<Byte>, next: Byte)
    ensures BigEndian(bytes + [next]) == BigEndian(bytes) * 256 + next
  {
    assert (bytes + [next])[..|bytes|] == bytes;
  }

  lemma WideWord(high: Byte, low: Byte)
    ensures BigEndian([high, low]) == WideField(high, low)
  {
    TwoMore([], high, low);
    assert [] + [high, low] == [high, low];
  }

  lemma PairWord(high: Byte, shared: Byte, low: Byte)
    ensures high as int * 65536 + shared as int * 256 + low as int
         == HighField(high, shared) * BIT_12 + LowField(shared, low)
  {
    assert shared == Shifted(shared, 16) * 16 + shared % 16;
  }

  /** A command frame is one 64-bit word: position above bit 48, velocity above bit 36, the stiffness above bit 24, the
      damping above bit 12, and the torque. */
  lemma CommandWord(f: Frame)
    ensures var q := Unpack(f);
            BigEndian(f) == q.pos * BIT_48 + q.vel * BIT_36 + q.kp * BIT_24 + q.kd * BIT_12 + q.torq
  {
    hide WideField, HighField, LowField, BigEndian;
    WideWord(f[0], f[1]);
    PairWord(f[2], f[3], f[4]);
    PairWord(f[5], f[6], f[7]);
    ThreeMore(f[..2], f[2], f[3], f[4]);
    ThreeMore(f[..5], f[5], f[6], f[7]);
    assert f[..2] == [f[0], f[1]] && f[..2] + [f[2], f[3], f[4]] == f[..5] && f[..5] + [f[5], f[6], f[7]] == f;
  }

  /** So a command is encoded as the word of its quantised parts, each over its own range. */
  lemma CommandEncoded(c: MitCommand, limits: Limits)
    requires limits.Valid()
    ensures BigEndian(EncodeMitCommand(c, limits))
         == FloatToUint(c.pos, limits.pMin, limits.pMax, 65535) * BIT_48
            + FloatToUint(c.vel, limits.vMin, limits.vMax, 4095) * BIT_36
            + FloatToUint(c.kp, 0.0, 500.0, 4095) * BIT_24 + FloatToUint(c.kd, 0.0, 5.0, 4095) * BIT_12
            + FloatToUint(c.torq, limits.tMin, limits.tMax, 4095)
  {
    hide FloatToUint, Pack, Unpack, BigEndian;
    var q := Quantised(c, limits);
    UnpackPack(q);
    CommandWord(Pack(q));
  }

  /** Feedback: the status above the identity in the first byte; position, velocity and torque in the next forty bits;
      and the two temperatures. */
  lemma FeedbackWord(f: Frame, limits: Limits)
    ensures var d := DecodeSensorFeedback(f, limits);
            && f[0] == d.status * 16 + d.id && d.id < 16 && d.tMos == f[6] && d.tRotor == f[7]
            && BigEndian(f[1..6]) == PositionField(f) * BIT_24 + VelocityField(f) * BIT_12 + TorqueField(f)
            && PositionField(f) <= 65535 && VelocityField(f) <= 4095 && TorqueField(f) <= 4095
            && d.pos == UintToFloat(PositionField(f), limits.pMin, limits.pMax, 65535)
            && d.vel == UintToFloat(VelocityField(f), limits.vMin, limits.vMax, 4095)
            && d.torq == UintToFloat(TorqueField(f), limits.tMin, limits.tMax, 4095)
  {
    hide WideField, HighField, LowField, BigEndian, UintToFloat, Shifted, Low, Joined;
    WideWord(f[1], f[2]);
    PairWord(f[3], f[4], f[5]);
    WideUnpacked(f[1], f[2]);
    PairUnpacked(f[3], f[4], f[5]);
    ThreeMore(f[1..3], f[3], f[4], f[5]);
    assert f[1..3] == [f[1], f[2]] && f[1..3] + [f[3], f[4], f[5]] == f[1..6];
    FirstByte(f[0]);
  }

  lemma FirstByte(b: Byte)
    ensures b == Shifted(b, 16) * 16 + b % 16
  {
  }

  /** A field spreads its range evenly: its lowest value is the lower bound, its highest the upper one, and every value is
      one step above the one before. */
  lemma FieldIsLinear(n: nat, min: real, max: real, levels: nat)
    requires 0 < levels
    ensures UintToFloat(0, min, max, levels) == min && UintToFloat(levels, min, max, levels) == max
    ensures UintToFloat(n + 1, min, max, levels) == UintToFloat(n, min, max, levels) + Ratio(max - min, levels as real)
  {
    var k, span := levels as real, max - min;
    ProductSum(n as real, 1.0, span);
    assert Product((n + 1) as real, span) == Product(n as real, span) + span;
    assert Product(0.0, span) == 0.0;
    RatioOfProduct(span, k);
    ProductSwap(span, k);
    assert Ratio(Product(n as real, span) + span, k) == Ratio(Product(n as real, span), k) + Ratio(span, k);
  }

  /** The installed models and their ranges, of which the position range is common and every one is symmetric. */
  lemma InstalledModels(model: string)
    ensures ModelLimits(model).Success? <==> model in {"4310", "4340P", "8009"}
    ensures ModelLimits(model).Success? ==>
              var l := ModelLimits(model).value;
              && l.Valid() && l.pMax == 12.5 && l.pMin == -12.5 && l.vMin == -l.vMax && l.tMin == -l.tMax
              && l.vMax == (if model == "4310" then 30.0 else if model == "4340P" then 10.0 else 45.0)
              && l.tMax == (if model == "4310" then 10.0 else if model == "4340P" then 28.0 else 54.0)
  {
  }
}
