/**
 * The MAX31865 driver object of components/max31865/max31865.hpp and max31865.cpp: it owns the
 * transport and an `initialized` flag, writes the configuration and fault thresholds once, and
 * runs the conversion sequence on every read.
 */
module Driver {

  import opened Wrappers
  import opened Config
  import opened Registers
  import opened Transport
  import opened Conversion

  /**
   * set_config's CONFIG: bias off, no oneshot trigger, and the supplied mode codes, each of which
   * reads back as the mode supplied (a FOUR-wire selector as TWO).
   */
  function InitialConfig(nwires: NWires, faultDetect: FaultDetect, faultClear: FaultClear, filter: Filter, convMode: ConvMode): (c: ConfigReg)
    ensures c.vbias == 0 && c.oneshot == 0
    ensures ConvModeOfBit(c.convMode) == convMode
    ensures FaultDetectOfBits(c.faultDetect) == faultDetect
    ensures FaultClearOfBit(c.faultClear) == faultClear
    ensures FilterOfBit(c.mainsFilter) == filter
    ensures NWiresOfBit(c.nwires) == (if nwires == Four then Two else nwires)
  {
    ConvModeRoundTrip(convMode);
    FaultDetectRoundTrip(faultDetect);
    FaultClearRoundTrip(faultClear);
    FilterRoundTrip(filter);
    ConfigReg(
      vbias := 0,
      convMode := ConvModeBit(convMode),
      oneshot := 0,
      nwires := NWiresBit(nwires),
      faultDetect := FaultDetectBits(faultDetect),
      faultClear := FaultClearBit(faultClear),
      mainsFilter := FilterBit(filter))
  }

  /**
   * The bus traffic of initialize: three writes and no read, CONFIG first, then HIGH_FAULT from
   * 0x03 with `thresholdMax`, then LOW_FAULT from 0x05 with `thresholdMin`. Read back, the bytes
   * give every supplied setting again (except that a FOUR-wire selector reads back as TWO) and
   * both thresholds.
   */
  function InitializeEvents(
    thresholdMin: int16, thresholdMax: int16,
    nwires: NWires, faultDetect: FaultDetect, faultClear: FaultClear, filter: Filter, convMode: ConvMode
  ): (events: seq<Event>)
    ensures |events| == 3 && events[0].Write? && events[1].Write? && events[2].Write?
    ensures events[0].addr == Address(Configuration) && |events[0].data| == 1
    ensures events[1].addr == Address(HighFaultH) && |events[1].data| == 2
    ensures events[2].addr == Address(LowFaultH) && |events[2].data| == 2
    ensures var c := DecodeConfig(events[0].data[0]);
            c.vbias == 0 && c.oneshot == 0 &&
            ConvModeOfBit(c.convMode) == convMode &&
            FaultDetectOfBits(c.faultDetect) == faultDetect &&
            FaultClearOfBit(c.faultClear) == faultClear &&
            FilterOfBit(c.mainsFilter) == filter &&
            NWiresOfBit(c.nwires) == (if nwires == Four then Two else nwires)
    ensures Int16OfBits(DecodeHighFault(events[1].data).highFault) == thresholdMax
    ensures Int16OfBits(DecodeLowFault(events[2].data).lowFault) == thresholdMin
  {
    var config := InitialConfig(nwires, faultDetect, faultClear, filter, convMode);
    ConfigRoundTrip(config);
    HighFaultRoundTrip(thresholdMax);
    LowFaultRoundTrip(thresholdMin);
    [Write(Address(Configuration), [EncodeConfig(config)]),
     Write(Address(HighFaultH), EncodeHighFault(HighFaultOf(thresholdMax))),
     Write(Address(LowFaultH), EncodeLowFault(LowFaultOf(thresholdMin)))]
  }

  /** A transport whose registers all hold 0, standing for a default-constructed SPIDevice. */
  function BlankRegisters(): (regs: seq<bv8>)
    ensures |regs| == RegisterCount
  {
    seq(RegisterCount, _ => 0)
  }

  /** struct MAX31865. Copying is deleted in the source, so the model offers no copy. */
  class Max31865 {
    /** initialized_ */
    var initialized: bool
    /** spi_device_, owned by this driver */
    var device: RegisterBank

    ghost predicate Valid()
      reads this
    {
      device.Valid()
    }

    /** MAX31865() = default: no transport to speak of and not initialized, so every read is empty. */
    constructor Default()
      ensures Valid() && fresh(device) && fresh(device.regs) && !initialized
      ensures device.trace == []
    {
      initialized := false;
      device := new RegisterBank(BlankRegisters());
    }

    /**
     * The constructor: takes the transport over and initializes the device through it. Ownership
     * is not enforced: the caller keeps its reference to `device`, and two drivers may be built
     * over one transport.
     */
    constructor (
      device: RegisterBank,
      thresholdMin: int16, thresholdMax: int16,
      nwires: NWires, faultDetect: FaultDetect, faultClear: FaultClear, filter: Filter, convMode: ConvMode)
      requires device.Valid()
      modifies device`trace, device.regs
      ensures Valid() && this.device == device && initialized
      ensures device.trace
              == old(device.trace) + InitializeEvents(thresholdMin, thresholdMax, nwires, faultDetect, faultClear, filter, convMode)
      ensures var events := InitializeEvents(thresholdMin, thresholdMax, nwires, faultDetect, faultClear, filter, convMode);
              device.regs[..] == Overwrite(Overwrite(old(device.regs[..])[0 := events[0].data[0]], 3, events[1].data), 5, events[2].data)
    {
      this.device := device;
      initialized := false;
      new;
      Initialize(thresholdMin, thresholdMax, nwires, faultDetect, faultClear, filter, convMode);
    }

    /**
     * The defaulted move constructor: the new driver takes the transport and a copy of the flag.
     * Nothing resets the source's flag; its transport is left in the moved-from state, modelled as
     * a fresh default transport, so the two drivers do not share one.
     */
    constructor MoveFrom(other: Max31865)
      requires other.Valid()
      modifies other`device
      ensures Valid() && device == old(other.device) && initialized == old(other.initialized)
      ensures other.Valid() && fresh(other.device) && fresh(other.device.regs) && other.device != device
      ensures other.initialized == old(other.initialized)
    {
      device := other.device;
      initialized := other.initialized;
      new;
      other.device := new RegisterBank(BlankRegisters());
    }

    /** The defaulted move assignment: memberwise, like the move constructor; no bus traffic. */
    method MoveAssign(other: Max31865)
      requires Valid() && other.Valid() && other != this
      modifies this, other`device
      ensures Valid() && device == old(other.device) && initialized == old(other.initialized)
      ensures other.Valid() && fresh(other.device) && fresh(other.device.regs) && other.device != device
      ensures other.initialized == old(other.initialized)
      ensures device.trace == old(other.device.trace)
    {
      device := other.device;
      initialized := other.initialized;
      other.device := new RegisterBank(BlankRegisters());
    }

    /** ~MAX31865: deinitialize, and no bus traffic. */
    method Destroy()
      requires Valid()
      modifies this`initialized
      ensures Valid() && !initialized
      ensures device == old(device) && device.trace == old(device.trace)
    {
      Deinitialize();
    }

    /** initialize: writes CONFIG, HIGH_FAULT and LOW_FAULT, in that order, then sets the flag. */
    method Initialize(
      thresholdMin: int16, thresholdMax: int16,
      nwires: NWires, faultDetect: FaultDetect, faultClear: FaultClear, filter: Filter, convMode: ConvMode)
      requires Valid()
      modifies this`initialized, device`trace, device.regs
      ensures Valid() && initialized
      ensures device.trace
              == old(device.trace) + InitializeEvents(thresholdMin, thresholdMax, nwires, faultDetect, faultClear, filter, convMode)
      ensures var events := InitializeEvents(thresholdMin, thresholdMax, nwires, faultDetect, faultClear, filter, convMode);
              device.regs[..] == Overwrite(Overwrite(old(device.regs[..])[0 := events[0].data[0]], 3, events[1].data), 5, events[2].data)
    {
      ghost var events := InitializeEvents(thresholdMin, thresholdMax, nwires, faultDetect, faultClear, filter, convMode);
      ghost var regs0, start := device.regs[..], device.trace;
      SetConfig(nwires, faultDetect, faultClear, filter, convMode);
      ghost var regs1 := device.regs[..];
      assert regs1 == regs0[0 := events[0].data[0]];
      SetHighFault(thresholdMax);
      ghost var regs2 := device.regs[..];
      assert regs2 == Overwrite(regs1, 3, events[1].data);
      SetLowFault(thresholdMin);
      assert device.trace == start + [events[0]] + [events[1]] + [events[2]];
      initialized := true;
    }

    /** deinitialize: clears the flag and nothing else; doing it twice is doing it once. */
    method Deinitialize()
      requires Valid()
      modifies this`initialized
      ensures Valid() && !initialized
      ensures device == old(device) && device.trace == old(device.trace)
    {
      initialized := false;
    }

    /** set_config_register: one write of the encoded CONFIG to 0x00. */
    method SetConfigRegister(config: ConfigReg)
      requires Valid()
      modifies device`trace, device.regs
      ensures Valid()
      ensures device.regs[..] == old(device.regs[..])[Address(Configuration) as int := EncodeConfig(config)]
      ensures device.trace == old(device.trace) + [Write(Address(Configuration), [EncodeConfig(config)])]
    {
      device.WriteByte(Address(Configuration), EncodeConfig(config));
    }

    /** get_config_register: one read of 0x00, decoded. */
    method GetConfigRegister() returns (config: ConfigReg)
      requires Valid()
      modifies device`trace
      ensures config == DecodeConfig(ConfigByte(device.regs[..]))
      ensures EncodeConfig(config) == ConfigByte(device.regs[..])
      ensures device.trace == old(device.trace) + [Read(Address(Configuration), [ConfigByte(device.regs[..])])]
    {
      var b := device.ReadByte(Address(Configuration));
      config := DecodeConfig(b);
    }

    /** set_high_fault_registers: one two-byte write from HIGH_FAULT_H. */
    method SetHighFaultRegisters(highFault: HighFaultReg)
      requires Valid()
      modifies device`trace, device.regs
      ensures Valid()
      ensures device.regs[..] == Overwrite(old(device.regs[..]), 3, EncodeHighFault(highFault))
      ensures device.trace == old(device.trace) + [Write(Address(HighFaultH), EncodeHighFault(highFault))]
    {
      device.WriteBytes(Address(HighFaultH), EncodeHighFault(highFault));
    }

    /** get_high_fault_registers: one two-byte read from HIGH_FAULT_H, decoded. */
    method GetHighFaultRegisters() returns (highFault: HighFaultReg)
      requires Valid()
      modifies device`trace
      ensures EncodeHighFault(highFault) == device.regs[3..5]
      ensures device.trace == old(device.trace) + [Read(Address(HighFaultH), device.regs[3..5])]
    {
      var bytes := device.ReadBytes(Address(HighFaultH), 2);
      highFault := DecodeHighFault(bytes);
    }

    /** set_low_fault_registers: one two-byte write from LOW_FAULT_H. */
    method SetLowFaultRegisters(lowFault: LowFaultReg)
      requires Valid()
      modifies device`trace, device.regs
      ensures Valid()
      ensures device.regs[..] == Overwrite(old(device.regs[..]), 5, EncodeLowFault(lowFault))
      ensures device.trace == old(device.trace) + [Write(Address(LowFaultH), EncodeLowFault(lowFault))]
    {
      device.WriteBytes(Address(LowFaultH), EncodeLowFault(lowFault));
    }

    /** get_low_fault_registers: one two-byte read from LOW_FAULT_H, decoded. */
    method GetLowFaultRegisters() returns (lowFault: LowFaultReg)
      requires Valid()
      modifies device`trace
      ensures EncodeLowFault(lowFault) == device.regs[5..7]
      ensures device.trace == old(device.trace) + [Read(Address(LowFaultH), device.regs[5..7])]
    {
      var bytes := device.ReadBytes(Address(LowFaultH), 2);
      lowFault := DecodeLowFault(bytes);
    }

    /** get_rtd_registers: one two-byte read from RTD_H, decoded. */
    method GetRtdRegisters() returns (rtd: RtdReg)
      requires Valid()
      modifies device`trace
      ensures rtd == DecodeRtd(RtdBytes(device.regs[..]))
      ensures EncodeRtd(rtd) == RtdBytes(device.regs[..])
      ensures device.trace == old(device.trace) + [Read(Address(RtdH), RtdBytes(device.regs[..]))]
    {
      var bytes := device.ReadBytes(Address(RtdH), 2);
      rtd := DecodeRtd(bytes);
    }

    /** set_config: writes InitialConfig. */
    method SetConfig(nwires: NWires, faultDetect: FaultDetect, faultClear: FaultClear, filter: Filter, convMode: ConvMode)
      requires Valid()
      modifies device`trace, device.regs
      ensures Valid()
      ensures var b := EncodeConfig(InitialConfig(nwires, faultDetect, faultClear, filter, convMode));
              device.regs[..] == old(device.regs[..])[Address(Configuration) as int := b] &&
              device.trace == old(device.trace) + [Write(Address(Configuration), [b])]
    {
      SetConfigRegister(InitialConfig(nwires, faultDetect, faultClear, filter, convMode));
    }

    /** set_high_fault: the threshold's bits, written from HIGH_FAULT_H. */
    method SetHighFault(thresholdMax: int16)
      requires Valid()
      modifies device`trace, device.regs
      ensures Valid()
      ensures device.regs[..] == Overwrite(old(device.regs[..]), 3, EncodeHighFault(HighFaultOf(thresholdMax)))
      ensures device.trace == old(device.trace) + [Write(Address(HighFaultH), EncodeHighFault(HighFaultOf(thresholdMax)))]
    {
      SetHighFaultRegisters(HighFaultOf(thresholdMax));
    }

    /** set_low_fault: the threshold's bits, written from LOW_FAULT_H. */
    method SetLowFault(thresholdMin: int16)
      requires Valid()
      modifies device`trace, device.regs
      ensures Valid()
      ensures device.regs[..] == Overwrite(old(device.regs[..]), 5, EncodeLowFault(LowFaultOf(thresholdMin)))
      ensures device.trace == old(device.trace) + [Write(Address(LowFaultH), EncodeLowFault(LowFaultOf(thresholdMin)))]
    {
      SetLowFaultRegisters(LowFaultOf(thresholdMin));
    }

    /**
     * set_vbias: read CONFIG, set vbias as asked, clear oneshot, fault_detect and fault_clear,
     * write it back.
     */
    method SetVbias(vbias: bool)
      requires Valid()
      modifies device`trace, device.regs
      ensures Valid()
      ensures var b := ConfigByte(old(device.regs[..]));
              device.regs[..] == old(device.regs[..])[Address(Configuration) as int := BiasedByte(b, vbias)] &&
              device.trace == old(device.trace)
                              + [Read(Address(Configuration), [b]), Write(Address(Configuration), [BiasedByte(b, vbias)])]
    {
      var config := GetConfigRegister();
      config := config.(vbias := if vbias then 1 else 0, faultClear := 0, faultDetect := 0, oneshot := 0);
      SetConfigRegister(config);
    }

    /** start_one_shot_conversion: read CONFIG, set the oneshot bit, write it back. */
    method StartOneShotConversion()
      requires Valid()
      modifies device`trace, device.regs
      ensures Valid()
      ensures var b := ConfigByte(old(device.regs[..]));
              device.regs[..] == old(device.regs[..])[Address(Configuration) as int := OneShotByte(b)] &&
              device.trace == old(device.trace)
                              + [Read(Address(Configuration), [b]), Write(Address(Configuration), [OneShotByte(b)])]
    {
      var config := GetConfigRegister();
      config := config.(oneshot := 1);
      SetConfigRegister(config);
    }

    /**
     * The first half of get_resistance_raw: bias on, the settling delay, and in ONESHOT mode the
     * conversion trigger and its delay. `settled` and `converted` are the registers as the device
     * left them after each delay.
     */
    method BiasAndTrigger() returns (ghost settled: seq<bv8>, ghost converted: seq<bv8>)
      requires Valid()
      modifies device`trace, device.regs
      ensures Valid()
      ensures |settled| == |converted| == RegisterCount
      ensures device.trace == old(device.trace) + Settle(old(device.regs[..])) + Trigger(settled)
      ensures device.regs[..] == AtCheck(settled, converted)
    {
      ghost var before, start := device.regs[..], device.trace;
      SetVbias(true);
      device.Sleep(BiasSettleMs);
      settled := device.regs[..];
      converted := settled;
      assert device.trace == start + Settle(before);

      var config := GetConfigRegister();
      if ConvModeOfBit(config.convMode) == OneShot {
        StartOneShotConversion();
        device.Sleep(ConversionMs);
        converted := device.regs[..];
      }
    }

    /**
     * The second half of get_resistance_raw: the conversion-done check and, once it passes, the
     * RTD read and bias off.
     */
    method Complete() returns (r: Option<int16>)
      requires Valid()
      modifies device`trace, device.regs
      ensures Valid()
      ensures var c := Completion(old(device.regs[..]));
              r == c.result && device.trace == old(device.trace) + c.events && device.regs[..] == c.after
    {
      ghost var now, start := device.regs[..], device.trace;
      var config := GetConfigRegister();
      if config.oneshot == 1 {
        return None;
      }
      var rtd := GetRtdRegisters();
      ghost var read := device.trace;
      assert read == start + Finish(now)[..2];
      SetVbias(false);
      assert device.trace == read + Finish(now)[2..];
      r := Reading(rtd);
    }

    /**
     * get_resistance_raw. `settled` and `converted` are the registers as the device left them
     * after the bias-settling and the conversion delay: the result, the bus traffic and the final
     * registers are those ReadRawSpec gives for them, whatever they are.
     */
    method ReadRaw() returns (r: Option<int16>, ghost settled: seq<bv8>, ghost converted: seq<bv8>)
      requires Valid()
      modifies device`trace, device.regs
      ensures Valid() && initialized == old(initialized)
      ensures |settled| == |converted| == RegisterCount
      ensures var o := ReadRawSpec(initialized, old(device.regs[..]), settled, converted);
              r == o.result && device.trace == old(device.trace) + o.events && device.regs[..] == o.after
    {
      settled, converted := device.regs[..], device.regs[..];
      if !initialized {
        return None, settled, converted;
      }
      ghost var before, start := device.regs[..], device.trace;
      settled, converted := BiasAndTrigger();
      r := Complete();
      assert device.trace == start + (Settle(before) + Trigger(settled) + Completion(AtCheck(settled, converted)).events);
    }

    /**
     * get_resistance_scaled: the same optional as ReadRaw, the value as a real number. The
     * source's float holds every int16 exactly, so nothing is lost here.
     */
    method ReadScaled() returns (r: Option<real>, ghost settled: seq<bv8>, ghost converted: seq<bv8>)
      requires Valid()
      modifies device`trace, device.regs
      ensures Valid() && initialized == old(initialized)
      ensures |settled| == |converted| == RegisterCount
      ensures var o := ReadRawSpec(initialized, old(device.regs[..]), settled, converted);
              r == (if o.result.Some? then Some(o.result.value as real) else None) &&
              device.trace == old(device.trace) + o.events && device.regs[..] == o.after
    {
      var raw;
      raw, settled, converted := ReadRaw();
      r := if raw.Some? then Some(raw.value as real) else None;
    }
  }

  /** A default-constructed driver is not initialized, so its read returns nothing and makes no transaction. */
  method DefaultDriverReadsNothing() returns (r: Option<int16>)
    ensures r == None
  {
    var driver := new Max31865.Default();
    ghost var settled, converted;
    r, settled, converted := driver.ReadRaw();
    assert driver.device.trace == [];
  }
}
