/** The commands that the host sends to the heat-recovery unit, and what the unit makes of
    them.
  */
module RekuHost {
  import opened Wrappers
  import opened Crc8
  import opened RekuRx

  // ---------- any command ----------

  /** A command as it is laid out: mark, off and bypass bits, both duties, CRC. */
  function Encoded(intake: Byte, exhaust: Byte, bypass: bool, off: bool): Buffer {
    var head: Byte := if off then (if bypass then 0x57 else 0x56) else if bypass then 0x55 else 0x54;
    [head, intake, exhaust, Crc([head, intake, exhaust])]
  }

  /** The unit obeys it: both fans as told and the bypass; or all off. */
  lemma EncodedIsObeyed(intake: Byte, exhaust: Byte, bypass: bool, off: bool)
    ensures var f := Encoded(intake, exhaust, bypass, off);
            && Command(f)
            && Obey(f) == if off then Outputs(0, 0, false, false) else Outputs(intake, exhaust, true, bypass)
  {
    var f := Encoded(intake, exhaust, bypass, off);
    assert f[..3] == [f[0], f[1], f[2]];
    hide Crc;
  }

  /** And it obeys nothing else. */
  lemma CommandsAreEncoded(f: Buffer)
    requires Command(f)
    ensures f == Encoded(f[1], f[2], f[0] == 0x55 || f[0] == 0x57, f[0] == 0x56 || f[0] == 0x57)
  {
    FourHeads(f[0]);
    assert f[..3] == [f[0], f[1], f[2]];
    hide Crc, Marked;
  }

  lemma FourHeads(b: Byte)
    requires Marked(b)
    ensures b == 0x54 || b == 0x55 || b == 0x56 || b == 0x57
  {
  }

  // ---------- the host's commands ----------

  /** The conversion to an int. */
  function Truncated(x: real): int { if x < 0.0 then -(-x).Floor else x.Floor }

  /** A percentage as a duty; what is not one gives 0. */
  function Duty8(v: Option<real>): (d: int)
    ensures 0 <= d <= 255
  {
    if v == None then 0
    else
      var rv := Truncated(255.0 * v.value / 100.0);
      if rv > 255 || rv < 0 then 0 else rv
  }

  function Pwm8(v: Option<real>): Byte { Duty8(v) as Byte }

  /** The frame of one round: flow and exhaust flow in percent. */
  function HostFrame(flow: Option<real>, exhaust: Option<real>, bypass: bool): Buffer {
    var pwm8 := Pwm8(flow);
    var pwm8Exht := if exhaust != None then Pwm8(flow) else pwm8;
    var ctrl: Byte := if bypass then 0x54 | 1 else 0x54;
    [ctrl, pwm8, pwm8Exht, Crc([ctrl, pwm8, pwm8Exht])]
  }

  /** A percentage within the range gives the duty just below its share of 255, full for 100,
      and more for more. */
  lemma DutyIsShare(v: real, w: real)
    requires 0.0 <= v <= w <= 100.0
    ensures var d := Duty8(Some(v)); d as real <= 2.55 * v < d as real + 1.0 && d <= Duty8(Some(w))
    ensures Duty8(Some(0.0)) == 0 && Duty8(Some(100.0)) == 255
  {
    assert 255.0 * v / 100.0 == 2.55 * v && 255.0 * w / 100.0 == 2.55 * w;
  }

  /** What is no percentage stops the fan. */
  lemma NoPercentage(v: Option<real>)
    requires v == None || v.value < 0.0 || 2.55 * v.value >= 256.0
    ensures Duty8(v) == 0
  {
    if v != None {
      assert 255.0 * v.value / 100.0 == 2.55 * v.value;
    }
  }

  /** Whatever is set at the host, the unit obeys its frame, after which both fans run with the
      duty of the one flow, and the bypass is as set: a flow of its own for the exhaust has no
      effect. */
  lemma OneFlowForBoth(flow: Option<real>, exhaust: Option<real>, bypass: bool)
    ensures var f := HostFrame(flow, exhaust, bypass);
            && Command(f) && f == HostFrame(flow, None, bypass)
            && Obey(f) == Outputs(Pwm8(flow), Pwm8(flow), true, bypass)
  {
    hide *;
    HostFrameIs(flow, exhaust, bypass);
    HostFrameIs(flow, None, bypass);
    EncodedIsObeyed(Pwm8(flow), Pwm8(flow), bypass, false);
  }

  lemma HostFrameIs(flow: Option<real>, exhaust: Option<real>, bypass: bool)
    ensures HostFrame(flow, exhaust, bypass) == Encoded(Pwm8(flow), Pwm8(flow), bypass, false)
  {
    hide Crc, Pwm8;
  }
}
