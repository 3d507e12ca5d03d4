/**
 * The conversion sequence of MAX31865::get_resistance_raw (components/max31865/max31865.cpp),
 * stated as a function of what the device's registers hold at the three moments the driver cannot
 * control: when the call starts, after the bias-settling delay and after the conversion delay.
 * The driver's method is proved to follow it; the lemmas here say what it guarantees.
 */
module Conversion {

  import opened Wrappers
  import opened Config
  import opened Registers
  import opened Transport

  /** Time for the bias network to settle once bias is on. */
  const BiasSettleMs := 10
  /** Time one ONESHOT conversion takes. */
  const ConversionMs := 50

  /** The CONFIG byte of a register snapshot. */
  function ConfigByte(bank: seq<bv8>): bv8
    requires |bank| == RegisterCount
  {
    bank[Address(Configuration) as int]
  }

  /** The two RTD bytes of a register snapshot, from RTD_H upward. */
  function RtdBytes(bank: seq<bv8>): (bytes: seq<bv8>)
    requires |bank| == RegisterCount
    ensures |bytes| == 2
  {
    bank[Address(RtdH) as int..Address(RtdL) as int + 1]
  }

  /**
   * set_vbias on a CONFIG byte: vbias as asked, oneshot, fault_detect and fault_clear cleared,
   * conv_mode, nwires and mainsfilter as they were.
   */
  function BiasedByte(b: bv8, on: bool): (r: bv8)
    ensures r & 0x8A == b & 0x8A
    ensures r & 0x74 == 0
    ensures r & 0x01 == if on then 1 else 0
  {
    var c := DecodeConfig(b);
    EncodeConfig(c.(vbias := if on then 1 else 0, oneshot := 0, faultDetect := 0, faultClear := 0))
  }

  /** start_one_shot_conversion on a CONFIG byte: the oneshot bit set and every other bit kept. */
  function OneShotByte(b: bv8): (r: bv8)
    ensures r & 0xFB == b & 0xFB
    ensures r & 0x04 == 0x04
  {
    EncodeConfig(DecodeConfig(b).(oneshot := 1))
  }

  /** Whether a CONFIG byte selects ONESHOT conversion: its conv_mode bit (bit 1) is clear. */
  predicate OneShotMode(b: bv8)
    ensures OneShotMode(b) <==> b & 0x02 == 0
  {
    ConvModeOfBit(DecodeConfig(b).convMode) == OneShot
  }

  /** The value get_resistance_raw returns for the RTD register, if its fault flag is clear. */
  function Reading(rtd: RtdReg): (r: Option<int16>)
    ensures r.Some? <==> rtd.fault == 0
    ensures r.Some? ==> 0 <= r.value <= 32767 && r.value as int == rtd.ratio as int
  {
    if rtd.fault == 1 then None else Some(rtd.ratio as int as int16)
  }

  /** The registers the completion check reads: after the conversion delay in ONESHOT mode, else after settling. */
  function AtCheck(settled: seq<bv8>, converted: seq<bv8>): (now: seq<bv8>)
    requires |settled| == |converted| == RegisterCount
    ensures |now| == RegisterCount
  {
    if OneShotMode(ConfigByte(settled)) then converted else settled
  }

  /** What one call of get_resistance_raw returns, does on the bus, and leaves in the registers. */
  datatype ReadOutcome = ReadOutcome(result: Option<int16>, events: seq<Event>, after: seq<bv8>)

  /**
   * set_vbias(true), then the bias-settling delay: a CONFIG read, a CONFIG write with bias on and
   * oneshot, fault_detect and fault_clear off, then 10 ms.
   */
  function Settle(before: seq<bv8>): (s: seq<Event>)
    requires |before| == RegisterCount
    ensures |s| == 3 && s[0] == Read(Address(Configuration), [ConfigByte(before)]) && s[2] == Delay(BiasSettleMs)
    ensures s[1].Write? && s[1].addr == Address(Configuration) && |s[1].data| == 1
    ensures s[1].data[0] & 0x01 == 0x01 && s[1].data[0] & 0x74 == 0
  {
    [Read(Address(Configuration), [ConfigByte(before)]),
     Write(Address(Configuration), [BiasedByte(ConfigByte(before), true)]),
     Delay(BiasSettleMs)]
  }

  /**
   * The mode check, a CONFIG read; in ONESHOT mode only, start_one_shot_conversion (a CONFIG read
   * and a CONFIG write with the oneshot bit set), then 50 ms.
   */
  function Trigger(settled: seq<bv8>): (t: seq<Event>)
    requires |settled| == RegisterCount
    ensures |t| == if OneShotMode(ConfigByte(settled)) then 4 else 1
    ensures t[0] == Read(Address(Configuration), [ConfigByte(settled)])
    ensures |t| == 4 ==>
              t[2].Write? && t[2].addr == Address(Configuration) && |t[2].data| == 1 &&
              t[2].data[0] & 0x04 == 0x04 && t[3] == Delay(ConversionMs)
  {
    var mode := ConfigByte(settled);
    if OneShotMode(mode)
    then [Read(Address(Configuration), [mode]), Read(Address(Configuration), [mode]),
          Write(Address(Configuration), [OneShotByte(mode)]), Delay(ConversionMs)]
    else [Read(Address(Configuration), [mode])]
  }

  /**
   * The completion check, a CONFIG read; once the oneshot bit has cleared, the RTD read and
   * set_vbias(false), whose CONFIG write has bias off.
   */
  function Finish(now: seq<bv8>): (f: seq<Event>)
    requires |now| == RegisterCount
    ensures |f| == if DecodeConfig(ConfigByte(now)).oneshot == 1 then 1 else 4
    ensures f[0] == Read(Address(Configuration), [ConfigByte(now)])
    ensures |f| == 4 ==>
              f[1] == Read(Address(RtdH), RtdBytes(now)) &&
              f[3].Write? && f[3].addr == Address(Configuration) && |f[3].data| == 1 && f[3].data[0] & 0x01 == 0
  {
    var check := ConfigByte(now);
    if DecodeConfig(check).oneshot == 1 then [Read(Address(Configuration), [check])]
    else [Read(Address(Configuration), [check]), Read(Address(RtdH), RtdBytes(now)),
          Read(Address(Configuration), [check]), Write(Address(Configuration), [BiasedByte(check, false)])]
  }

  /**
   * The completion stretch of get_resistance_raw from the registers `now`: the conversion-done
   * check and, once it passes, the RTD read and set_vbias(false).
   */
  function Completion(now: seq<bv8>): (c: ReadOutcome)
    requires |now| == RegisterCount
    ensures c.result.Some? <==> DecodeConfig(ConfigByte(now)).oneshot == 0 && DecodeRtd(RtdBytes(now)).fault == 0
    ensures |c.after| == RegisterCount
    ensures forall i :: Address(Configuration) as int < i < RegisterCount ==> c.after[i] == now[i]
    ensures DecodeConfig(ConfigByte(now)).oneshot == 1 ==> c.after == now
  {
    var check := ConfigByte(now);
    if DecodeConfig(check).oneshot == 1 then ReadOutcome(None, Finish(now), now)
    else ReadOutcome(Reading(DecodeRtd(RtdBytes(now))), Finish(now), now[Address(Configuration) as int := BiasedByte(check, false)])
  }

  /**
   * get_resistance_raw, given whether the driver is initialized and the registers when the call
   * starts (`before`), after the bias-settling delay (`settled`) and after the conversion delay
   * (`converted`, which only ONESHOT mode waits for).
   */
  function ReadRawSpec(initialized: bool, before: seq<bv8>, settled: seq<bv8>, converted: seq<bv8>): (o: ReadOutcome)
    requires |before| == |settled| == |converted| == RegisterCount
    ensures |o.after| == RegisterCount
    ensures o.result.Some? ==> initialized
    ensures initialized ==>
              forall i :: Address(Configuration) as int < i < RegisterCount ==> o.after[i] == AtCheck(settled, converted)[i]
  {
    if !initialized then ReadOutcome(None, [], before)
    else
      var c := Completion(AtCheck(settled, converted));
      ReadOutcome(c.result, Settle(before) + Trigger(settled) + c.events, c.after)
  }

  /** The byte an event writes to CONFIG, if it is such a write. */
  function ConfigWritten(e: Event): seq<bv8>
  {
    if e.Write? && e.addr == Address(Configuration) && |e.data| == 1 then [e.data[0]] else []
  }

  /** The bytes written to CONFIG, in order. */
  function ConfigWrites(events: seq<Event>): seq<bv8>
  {
    if events == [] then [] else ConfigWritten(events[0]) + ConfigWrites(events[1..])
  }

  lemma {:induction false} ConfigWritesCons(e: Event, rest: seq<Event>)
    ensures ConfigWrites([e] + rest) == ConfigWritten(e) + ConfigWrites(rest)
  {
    assert ([e] + rest)[1..] == rest;
  }

  lemma {:induction false} ConfigWritesAppend(a: seq<Event>, b: seq<Event>)
    ensures ConfigWrites(a + b) == ConfigWrites(a) + ConfigWrites(b)
  {
    if a == [] {
      assert a + b == b;
    } else {
      assert (a + b)[1..] == a[1..] + b;
      ConfigWritesAppend(a[1..], b);
    }
  }

  /** Whether an event reads the RTD register. */
  predicate IsRtdRead(e: Event)
  {
    e.Read? && e.addr == Address(RtdH)
  }

  /** Whether an event writes a CONFIG byte whose vbias bit is `vbias`. */
  predicate IsBiasWrite(e: Event, vbias: bv1)
  {
    e.Write? && e.addr == Address(Configuration) && |e.data| == 1 && DecodeConfig(e.data[0]).vbias == vbias
  }
}
