/** What the conversion sequence of get_resistance_raw guarantees, for every register contents. */
module ConversionProperties {

  import opened Wrappers
  import opened Config
  import opened Registers
  import opened Transport
  import opened Conversion

  /** Uninitialized, the read returns no value and touches neither the bus nor the registers. */
  lemma UninitializedReadIsSilent(before: seq<bv8>, settled: seq<bv8>, converted: seq<bv8>)
    requires |before| == |settled| == |converted| == RegisterCount
    ensures ReadRawSpec(false, before, settled, converted) == ReadOutcome(None, [], before)
  {
  }

  /**
   * A value comes back exactly when the driver is initialized, the conversion had finished by the
   * completion check and the RTD fault flag read then is clear; it is then the ratio read.
   */
  lemma ReadRawResult(initialized: bool, before: seq<bv8>, settled: seq<bv8>, converted: seq<bv8>)
    requires |before| == |settled| == |converted| == RegisterCount
    ensures var o := ReadRawSpec(initialized, before, settled, converted);
            var now := AtCheck(settled, converted);
            o.result.Some? <==>
              initialized && DecodeConfig(ConfigByte(now)).oneshot == 0 && DecodeRtd(RtdBytes(now)).fault == 0
    ensures var o := ReadRawSpec(initialized, before, settled, converted);
            o.result.Some? ==> o.result.value as int == DecodeRtd(RtdBytes(AtCheck(settled, converted))).ratio as int
  {
  }

  lemma {:induction false} SettleWrites(before: seq<bv8>)
    requires |before| == RegisterCount
    ensures ConfigWrites(Settle(before)) == [BiasedByte(ConfigByte(before), true)]
  {
    var s := Settle(before);
    ConfigWritesCons(s[0], s[1..]);
    ConfigWritesCons(s[1], s[2..]);
    ConfigWritesCons(s[2], []);
    assert s == [s[0]] + ([s[1]] + ([s[2]] + []));
  }

  lemma {:induction false} TriggerWrites(settled: seq<bv8>)
    requires |settled| == RegisterCount
    ensures ConfigWrites(Trigger(settled))
            == if OneShotMode(ConfigByte(settled)) then [OneShotByte(ConfigByte(settled))] else []
  {
    var t := Trigger(settled);
    ConfigWritesCons(t[0], t[1..]);
    if |t| == 4 {
      ConfigWritesCons(t[1], t[2..]);
      ConfigWritesCons(t[2], t[3..]);
      ConfigWritesCons(t[3], []);
      assert t == [t[0]] + ([t[1]] + ([t[2]] + ([t[3]] + [])));
    } else {
      assert t == [t[0]] + [];
    }
  }

  lemma {:induction false} FinishWrites(now: seq<bv8>)
    requires |now| == RegisterCount
    ensures ConfigWrites(Finish(now))
            == if DecodeConfig(ConfigByte(now)).oneshot == 1 then [] else [BiasedByte(ConfigByte(now), false)]
  {
    var f := Finish(now);
    ConfigWritesCons(f[0], f[1..]);
    if |f| == 4 {
      ConfigWritesCons(f[1], f[2..]);
      ConfigWritesCons(f[2], f[3..]);
      ConfigWritesCons(f[3], []);
      assert f == [f[0]] + ([f[1]] + ([f[2]] + ([f[3]] + [])));
    } else {
      assert f == [f[0]] + [];
    }
  }

  /** The CONFIG writes of an initialized read, stretch by stretch. */
  lemma {:induction false} ReadRawPieces(before: seq<bv8>, settled: seq<bv8>, converted: seq<bv8>)
    requires |before| == |settled| == |converted| == RegisterCount
    ensures ReadRawSpec(true, before, settled, converted).events
            == Settle(before) + Trigger(settled) + Finish(AtCheck(settled, converted))
    ensures ConfigWrites(ReadRawSpec(true, before, settled, converted).events)
            == ConfigWrites(Settle(before)) + ConfigWrites(Trigger(settled))
               + ConfigWrites(Finish(AtCheck(settled, converted)))
    ensures ConfigWrites(Settle(before)) == [BiasedByte(ConfigByte(before), true)]
    ensures ConfigWrites(Trigger(settled))
            == if OneShotMode(ConfigByte(settled)) then [OneShotByte(ConfigByte(settled))] else []
    ensures var check := ConfigByte(AtCheck(settled, converted));
            ConfigWrites(Finish(AtCheck(settled, converted)))
            == if DecodeConfig(check).oneshot == 1 then [] else [BiasedByte(check, false)]
  {
    var s, t, f := Settle(before), Trigger(settled), Finish(AtCheck(settled, converted));
    ConfigWritesAppend(s, t);
    ConfigWritesAppend(s + t, f);
    SettleWrites(before);
    TriggerWrites(settled);
    FinishWrites(AtCheck(settled, converted));
  }

  /**
   * The value returned is the ratio of the RTD bytes on the bus, at most 32767, and no RTD read
   * whose fault flag is set lets any value through, whatever its ratio.
   */
  lemma {:induction false} ReadingComesFromRtdRead(initialized: bool, before: seq<bv8>, settled: seq<bv8>, converted: seq<bv8>)
    requires |before| == |settled| == |converted| == RegisterCount
    ensures var o := ReadRawSpec(initialized, before, settled, converted);
            o.result.Some? ==>
              0 <= o.result.value <= 32767 &&
              exists i :: 0 <= i < |o.events| && IsRtdRead(o.events[i]) && |o.events[i].data| == 2 &&
                          DecodeRtd(o.events[i].data).fault == 0 &&
                          o.result.value as int == DecodeRtd(o.events[i].data).ratio as int
    ensures var o := ReadRawSpec(initialized, before, settled, converted);
            forall i :: (0 <= i < |o.events| && IsRtdRead(o.events[i]) && |o.events[i].data| == 2 &&
                         DecodeRtd(o.events[i].data).fault == 1) ==> o.result == None
  {
    var o := ReadRawSpec(initialized, before, settled, converted);
    if initialized {
      var now := AtCheck(settled, converted);
      if DecodeConfig(ConfigByte(now)).oneshot == 0 {
        var s, t, f := Settle(before), Trigger(settled), Finish(now);
        assert o.events == s + t + f;
        var j := |s| + |t| + 1;
        assert o.events[j] == f[1] == Read(Address(RtdH), RtdBytes(now));
        forall i | 0 <= i < |s| + |t|
          ensures !IsRtdRead(o.events[i])
        {
          if i < |s| { assert o.events[i] == s[i]; }
          else { assert o.events[i] == t[i - |s|]; }
        }
        forall i | |s| + |t| <= i < |o.events| && IsRtdRead(o.events[i])
          ensures i == j
        {
          assert o.events[i] == f[i - |s| - |t|];
        }
      }
    }
  }

  /**
   * A successful read turns bias on (clearing oneshot, fault_detect and fault_clear), triggers one
   * conversion in ONESHOT mode only, and turns bias off: those are all its CONFIG writes, in order.
   */
  lemma {:induction false} SuccessfulReadWrites(initialized: bool, before: seq<bv8>, settled: seq<bv8>, converted: seq<bv8>)
    requires |before| == |settled| == |converted| == RegisterCount
    requires ReadRawSpec(initialized, before, settled, converted).result.Some?
    ensures var o := ReadRawSpec(initialized, before, settled, converted);
            var mode := ConfigByte(settled);
            ConfigWrites(o.events) ==
              if OneShotMode(mode)
              then [BiasedByte(ConfigByte(before), true), OneShotByte(mode), BiasedByte(ConfigByte(converted), false)]
              else [BiasedByte(ConfigByte(before), true), BiasedByte(ConfigByte(settled), false)]
  {
    ReadRawPieces(before, settled, converted);
  }

  /** In a successful read the RTD read comes after bias went on and before it went off. */
  lemma {:induction false} SuccessfulReadOrder(initialized: bool, before: seq<bv8>, settled: seq<bv8>, converted: seq<bv8>)
    requires |before| == |settled| == |converted| == RegisterCount
    requires ReadRawSpec(initialized, before, settled, converted).result.Some?
    ensures var o := ReadRawSpec(initialized, before, settled, converted);
            exists i, j, k :: 0 <= i < j < k < |o.events| &&
              IsBiasWrite(o.events[i], 1) && IsRtdRead(o.events[j]) && IsBiasWrite(o.events[k], 0)
  {
    var o := ReadRawSpec(initialized, before, settled, converted);
    var now := AtCheck(settled, converted);
    var s, t, f := Settle(before), Trigger(settled), Finish(now);
    assert o.events == s + t + f;
    assert |f| == 4;
    var n := |o.events|;
    assert o.events[1] == s[1];
    assert o.events[n - 3] == f[1];
    assert o.events[n - 1] == f[3];
    assert IsBiasWrite(o.events[1], 1);
    assert IsRtdRead(o.events[n - 3]);
    assert IsBiasWrite(o.events[n - 1], 0);
  }

  /**
   * The 10 ms settling delay always comes before the mode check, and the mode read there decides
   * alone whether the 50 ms conversion delay happens.
   */
  lemma {:induction false} ModeDecidesTrigger(before: seq<bv8>, settled: seq<bv8>, converted: seq<bv8>)
    requires |before| == |settled| == |converted| == RegisterCount
    ensures var o := ReadRawSpec(true, before, settled, converted);
            |o.events| >= 4 && o.events[2] == Delay(BiasSettleMs) &&
            o.events[3] == Read(Address(Configuration), [ConfigByte(settled)])
    ensures var o := ReadRawSpec(true, before, settled, converted);
            Delay(ConversionMs) in o.events <==> OneShotMode(ConfigByte(settled))
  {
    var o := ReadRawSpec(true, before, settled, converted);
    var s, t, f := Settle(before), Trigger(settled), Finish(AtCheck(settled, converted));
    assert o.events == s + t + f;
    if OneShotMode(ConfigByte(settled)) {
      assert o.events[6] == Delay(ConversionMs);
    } else {
      assert Delay(ConversionMs) !in o.events by {
        forall i | 0 <= i < |o.events| ensures o.events[i] != Delay(ConversionMs) {
          if i < |s| { assert o.events[i] == s[i]; }
          else if i < |s| + |t| { assert o.events[i] == t[i - |s|]; }
          else { assert o.events[i] == f[i - |s| - |t|]; }
        }
      }
    }
  }

  /** The mode also shows in what is written to CONFIG: only ONESHOT mode writes the oneshot bit. */
  lemma {:induction false} ModeShowsInConfigWrites(before: seq<bv8>, settled: seq<bv8>, converted: seq<bv8>)
    requires |before| == |settled| == |converted| == RegisterCount
    ensures var w := ConfigWrites(ReadRawSpec(true, before, settled, converted).events);
            (exists k :: 0 <= k < |w| && w[k] & 0x04 == 0x04) <==> OneShotMode(ConfigByte(settled))
  {
    ReadRawPieces(before, settled, converted);
    var w := ConfigWrites(ReadRawSpec(true, before, settled, converted).events);
    if OneShotMode(ConfigByte(settled)) {
      assert w[1] & 0x04 == 0x04;
    }
  }

  /**
   * When the completion check still sees the oneshot bit, there is no value and the RTD register
   * is never read.
   */
  lemma {:induction false} UnfinishedConversionReadsNothing(before: seq<bv8>, settled: seq<bv8>, converted: seq<bv8>)
    requires |before| == |settled| == |converted| == RegisterCount
    requires DecodeConfig(ConfigByte(AtCheck(settled, converted))).oneshot == 1
    ensures ReadRawSpec(true, before, settled, converted).result == None
    ensures var o := ReadRawSpec(true, before, settled, converted);
            forall i :: 0 <= i < |o.events| ==> !IsRtdRead(o.events[i])
  {
    var o := ReadRawSpec(true, before, settled, converted);
    var s, t, f := Settle(before), Trigger(settled), Finish(AtCheck(settled, converted));
    assert o.events == s + t + f;
    assert |s| == 3 && |f| == 1;
    forall i | 0 <= i < |o.events|
      ensures !IsRtdRead(o.events[i])
    {
      if i < |s| { assert o.events[i] == s[i]; }
      else if i < |s| + |t| { assert o.events[i] == t[i - |s|]; }
      else { assert o.events[i] == f[i - |s| - |t|]; }
    }
  }

  /** With the conversion unfinished, the only CONFIG writes are bias on and, in ONESHOT mode, the trigger. */
  lemma {:induction false} UnfinishedConversionConfigWrites(before: seq<bv8>, settled: seq<bv8>, converted: seq<bv8>)
    requires |before| == |settled| == |converted| == RegisterCount
    requires DecodeConfig(ConfigByte(AtCheck(settled, converted))).oneshot == 1
    ensures ConfigWrites(ReadRawSpec(true, before, settled, converted).events) ==
            if OneShotMode(ConfigByte(settled))
            then [BiasedByte(ConfigByte(before), true), OneShotByte(ConfigByte(settled))]
            else [BiasedByte(ConfigByte(before), true)]
  {
    ReadRawPieces(before, settled, converted);
  }

  /**
   * With the conversion unfinished, bias stays on unless the device itself cleared it: the
   * trigger keeps the vbias bit the device reported, and no other write turns bias off.
   */
  lemma {:induction false} UnfinishedConversionLeavesBiasOn(before: seq<bv8>, settled: seq<bv8>, converted: seq<bv8>)
    requires |before| == |settled| == |converted| == RegisterCount
    requires DecodeConfig(ConfigByte(AtCheck(settled, converted))).oneshot == 1
    requires DecodeConfig(ConfigByte(settled)).vbias == 1
    ensures var o := ReadRawSpec(true, before, settled, converted);
            forall i :: 0 <= i < |o.events| ==> !IsBiasWrite(o.events[i], 0)
  {
    var o := ReadRawSpec(true, before, settled, converted);
    var s, t, f := Settle(before), Trigger(settled), Finish(AtCheck(settled, converted));
    assert o.events == s + t + f;
    assert |s| == 3 && |f| == 1;
    forall i | 0 <= i < |o.events|
      ensures !IsBiasWrite(o.events[i], 0)
    {
      if i < |s| { assert o.events[i] == s[i]; }
      else if i < |s| + |t| { assert o.events[i] == t[i - |s|]; }
      else { assert o.events[i] == f[i - |s| - |t|]; }
    }
  }
}
