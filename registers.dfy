/**
 * The register layouts of components/max31865/max31865_registers.hpp, which the driver moves
 * between fields and bytes with std::bit_cast over packed bit-field structs. Here each layout is an
 * explicit pair of encode/decode functions built from masks and shifts.
 */
module Registers {

  /** std::int16_t: the thresholds passed to the driver and the reading it returns. */
  newtype int16 = x: int | -0x8000 <= x < 0x8000

  /*
   * LAYOUT, as the code produces it on its target (GCC on the little-endian ESP32):
   *  - bit-fields are allocated from the least significant bit upward in declaration order, so
   *    CONFIG is vbias = bit 0, conv_mode = bit 1, oneshot = bit 2, nwires = bit 3,
   *    fault_detect = bits 4-5, fault_clear = bit 6, mainsfilter = bit 7 (the shifts below);
   *  - a two-byte register becomes a two-element byte array whose element 0 is the low-order
   *    byte, and that element goes to (and comes from) the register's `H` address, the lower one
   *    (Word and WordBytes below).
   * This is not the MAX31865 datasheet's map, which puts the most significant byte at the `H`
   * address; the model keeps what the code does.
   */
  const VbiasShift := 0
  const ConvModeShift := 1
  const OneshotShift := 2
  const NWiresShift := 3
  const FaultDetectShift := 4
  const FaultClearShift := 6
  const MainsFilterShift := 7

  /** The 16-bit value of a two-byte register whose `H` address holds `lo` and `L` address `hi`. */
  function Word(lo: bv8, hi: bv8): (w: bv16)
    ensures WordNumber(w) == lo as int + 0x100 * hi as int
  {
    var w := (lo as bv16) | ((hi as bv16) << 8);
    assert (w & 0xFF) as bv8 == lo && (w >> 8) as bv8 == hi;
    w
  }

  /** The two bytes of a 16-bit register value, in the order they go out from the `H` address. */
  function WordBytes(w: bv16): (bytes: seq<bv8>)
    ensures |bytes| == 2
    ensures WordNumber(w) == bytes[0] as int + 0x100 * bytes[1] as int
  {
    [(w & 0xFF) as bv8, (w >> 8) as bv8]
  }

  /** The 16-bit register value of two bytes read from the `H` address. */
  function BytesWord(bytes: seq<bv8>): (w: bv16)
    requires |bytes| == 2
    ensures WordNumber(w) == bytes[0] as int + 0x100 * bytes[1] as int
  {
    Word(bytes[0], bytes[1])
  }

  lemma WordBytesRoundTrip(w: bv16)
    ensures BytesWord(WordBytes(w)) == w
  {
  }

  lemma BytesWordRoundTrip(bytes: seq<bv8>)
    requires |bytes| == 2
    ensures WordBytes(BytesWord(bytes)) == bytes
  {
    assert WordBytes(BytesWord(bytes))[0] == bytes[0];
  }

  /**
   * The unsigned number a 16-bit register value stands for: the byte at the `H` address counts
   * once and the other 256 times.
   */
  function WordNumber(w: bv16): (n: int)
    ensures 0 <= n < 0x10000
  {
    ((w & 0xFF) as bv8) as int + 0x100 * ((w >> 8) as bv8) as int
  }

  /** Bytes of a word built from two bytes are those bytes. */
  lemma WordParts(lo: bv8, hi: bv8)
    ensures (Word(lo, hi) & 0xFF) as bv8 == lo
    ensures (Word(lo, hi) >> 8) as bv8 == hi
  {
  }

  /** A word is built from its two bytes. */
  lemma WordOfParts(w: bv16)
    ensures Word((w & 0xFF) as bv8, (w >> 8) as bv8) == w
  {
  }

  /** The two base-256 digits of a 16-bit number are its bytes. */
  lemma DigitsOfWord(u: int, lo: bv8, hi: bv8)
    requires u == lo as int + 0x100 * hi as int
    ensures u % 0x100 == lo as int && u / 0x100 == hi as int
  {
  }

  /** A byte converted to a number and back is unchanged. */
  lemma ByteValue(b: bv8)
    ensures (b as int) as bv8 == b
  {
  }

  /** A number below 256 converted to a byte and back is unchanged. */
  lemma NumberByte(n: int)
    requires 0 <= n < 0x100
    ensures (n as bv8) as int == n
  {
    assert (n as bv16) as bv8 == n as bv8;
  }

  /**
   * The shifts give every CONFIG field its own bits, in declaration order, filling the byte: a
   * CONFIG byte is the OR of its fields encoded one at a time, and all fields at their largest fill
   * all 8 bits.
   */
  lemma ConfigFieldsTileByte(c: ConfigReg)
    ensures ConvModeShift == VbiasShift + 1
    ensures OneshotShift == ConvModeShift + 1
    ensures NWiresShift == OneshotShift + 1
    ensures FaultDetectShift == NWiresShift + 1
    ensures FaultClearShift == FaultDetectShift + 2
    ensures MainsFilterShift == FaultClearShift + 1
    ensures MainsFilterShift + 1 == 8
    ensures EncodeConfig(c) ==
              EncodeConfig(ConfigReg(c.vbias, 0, 0, 0, 0, 0, 0))
              | EncodeConfig(ConfigReg(0, c.convMode, 0, 0, 0, 0, 0))
              | EncodeConfig(ConfigReg(0, 0, c.oneshot, 0, 0, 0, 0))
              | EncodeConfig(ConfigReg(0, 0, 0, c.nwires, 0, 0, 0))
              | EncodeConfig(ConfigReg(0, 0, 0, 0, c.faultDetect, 0, 0))
              | EncodeConfig(ConfigReg(0, 0, 0, 0, 0, c.faultClear, 0))
              | EncodeConfig(ConfigReg(0, 0, 0, 0, 0, 0, c.mainsFilter))
    ensures EncodeConfig(ConfigReg(1, 1, 1, 1, 3, 1, 1)) == 0xFF
  {
  }

  /**
   * Each CONFIG field encoded alone lands only in its own mask: 0x01, 0x02, 0x04, 0x08, 0x30,
   * 0x40 and 0x80, which are pairwise disjoint.
   */
  lemma ConfigFieldMasks(c: ConfigReg)
    ensures EncodeConfig(ConfigReg(c.vbias, 0, 0, 0, 0, 0, 0)) & 0xFE == 0
    ensures EncodeConfig(ConfigReg(0, c.convMode, 0, 0, 0, 0, 0)) & 0xFD == 0
    ensures EncodeConfig(ConfigReg(0, 0, c.oneshot, 0, 0, 0, 0)) & 0xFB == 0
    ensures EncodeConfig(ConfigReg(0, 0, 0, c.nwires, 0, 0, 0)) & 0xF7 == 0
    ensures EncodeConfig(ConfigReg(0, 0, 0, 0, c.faultDetect, 0, 0)) & 0xCF == 0
    ensures EncodeConfig(ConfigReg(0, 0, 0, 0, 0, c.faultClear, 0)) & 0xBF == 0
    ensures EncodeConfig(ConfigReg(0, 0, 0, 0, 0, 0, c.mainsFilter)) & 0x7F == 0
  {
  }

  /** struct CONFIG: seven fields of 1+1+1+1+2+1+1 bits. */
  datatype ConfigReg = ConfigReg(
    vbias: bv1,
    convMode: bv1,
    oneshot: bv1,
    nwires: bv1,
    faultDetect: bv2,
    faultClear: bv1,
    mainsFilter: bv1)

  /** The CONFIG byte of the fields: each field sits at its own shift, as LAYOUT says. */
  function EncodeConfig(c: ConfigReg): (b: bv8)
    ensures (b >> VbiasShift) & 1 == c.vbias as bv8
    ensures (b >> ConvModeShift) & 1 == c.convMode as bv8
    ensures (b >> OneshotShift) & 1 == c.oneshot as bv8
    ensures (b >> NWiresShift) & 1 == c.nwires as bv8
    ensures (b >> FaultDetectShift) & 3 == c.faultDetect as bv8
    ensures (b >> FaultClearShift) & 1 == c.faultClear as bv8
    ensures b >> MainsFilterShift == c.mainsFilter as bv8
  {
    ((c.vbias as bv8) << VbiasShift)
    | ((c.convMode as bv8) << ConvModeShift)
    | ((c.oneshot as bv8) << OneshotShift)
    | ((c.nwires as bv8) << NWiresShift)
    | ((c.faultDetect as bv8) << FaultDetectShift)
    | ((c.faultClear as bv8) << FaultClearShift)
    | ((c.mainsFilter as bv8) << MainsFilterShift)
  }

  /** Every byte is the encoding of the fields decoded from it. */
  function DecodeConfig(b: bv8): (c: ConfigReg)
    ensures EncodeConfig(c) == b
  {
    ConfigReg(
      vbias := ((b >> VbiasShift) & 1) as bv1,
      convMode := ((b >> ConvModeShift) & 1) as bv1,
      oneshot := ((b >> OneshotShift) & 1) as bv1,
      nwires := ((b >> NWiresShift) & 1) as bv1,
      faultDetect := ((b >> FaultDetectShift) & 3) as bv2,
      faultClear := ((b >> FaultClearShift) & 1) as bv1,
      mainsFilter := ((b >> MainsFilterShift) & 1) as bv1)
  }

  /** Every combination of field values survives encoding. */
  lemma ConfigRoundTrip(c: ConfigReg)
    ensures DecodeConfig(EncodeConfig(c)) == c
  {
  }

  /** struct RTD: a 15-bit resistance ratio and, above it, a 1-bit fault flag. */
  datatype RtdReg = RtdReg(ratio: bv15, fault: bv1)

  /**
   * The two RTD bytes of the fields, as they come from RTD_H: the fault flag is the top bit of the
   * second byte and the ratio is the rest of the little-endian word.
   */
  function EncodeRtd(r: RtdReg): (bytes: seq<bv8>)
    ensures |bytes| == 2
    ensures bytes[1] & 0x80 == (r.fault as bv8) << 7
    ensures Word(bytes[0], bytes[1] & 0x7F) == r.ratio as bv16
  {
    WordBytes((r.ratio as bv16) | ((r.fault as bv16) << 15))
  }

  /** The fields of the two bytes read from RTD_H; every pair of bytes encodes its fields. */
  function DecodeRtd(bytes: seq<bv8>): (r: RtdReg)
    requires |bytes| == 2
    ensures EncodeRtd(r) == bytes
  {
    var w := BytesWord(bytes);
    RtdWordSplit(w);
    BytesWordRoundTrip(bytes);
    RtdReg((w & 0x7FFF) as bv15, (w >> 15) as bv1)
  }

  /** The fifteen low bits and the top bit of a word make up the word. */
  lemma RtdWordSplit(w: bv16)
    ensures ((w & 0x7FFF) as bv15 as bv16) | (((w >> 15) as bv1 as bv16) << 15) == w
  {
  }

  /** The fault flag is the top bit of the byte read from address 0x02. */
  lemma RtdFaultBit(bytes: seq<bv8>)
    requires |bytes| == 2
    ensures DecodeRtd(bytes).fault == 1 <==> bytes[1] & 0x80 == 0x80
  {
  }

  /** The ratio is the other fifteen bits, the byte from address 0x01 being the low-order one. */
  lemma RtdRatioBits(bytes: seq<bv8>)
    requires |bytes| == 2
    ensures DecodeRtd(bytes).ratio as bv16 == Word(bytes[0], bytes[1] & 0x7F)
  {
  }

  lemma RtdRoundTrip(r: RtdReg)
    ensures DecodeRtd(EncodeRtd(r)) == r
  {
  }

  /** The ratio never exceeds 32767, and flipping the fault flag's bit never changes it. */
  lemma RtdFaultIndependent(bytes: seq<bv8>)
    requires |bytes| == 2
    ensures DecodeRtd(bytes).ratio as int <= 32767
    ensures DecodeRtd([bytes[0], bytes[1] ^ 0x80]).ratio == DecodeRtd(bytes).ratio
    ensures DecodeRtd([bytes[0], bytes[1] ^ 0x80]).fault != DecodeRtd(bytes).fault
  {
  }

  /** The 16-bit value whose number is `u`: its base-256 digits, low-order first. */
  function NumberWord(u: int): bv16
    requires 0 <= u < 0x10000
  {
    Word((u % 0x100) as bv8, (u / 0x100) as bv8)
  }

  /** The number in 0..65535 that has the same two's-complement bits as an int16. */
  function Unsigned(t: int16): (u: int)
    ensures 0 <= u < 0x10000
  {
    if t < 0 then t as int + 0x10000 else t as int
  }

  /** The int16 with the same two's-complement bits as a number in 0..65535: bit 15 weighs -32768. */
  function Signed(u: int): int16
    requires 0 <= u < 0x10000
  {
    if u < 0x8000 then u as int16 else (u - 0x10000) as int16
  }

  /** The two's-complement bits of an int16, which is what std::bit_cast of it to 16 bits gives. */
  function Int16Bits(t: int16): (w: bv16)
    ensures WordNumber(w) == Unsigned(t)
  {
    NumberWordRoundTrip(Unsigned(t));
    NumberWord(Unsigned(t))
  }

  /** The int16 whose two's-complement bits a 16-bit value holds. */
  function Int16OfBits(w: bv16): int16
  {
    Signed(WordNumber(w))
  }

  /** A number below 65536 is the number of the word built from its base-256 digits. */
  lemma {:induction false} NumberWordRoundTrip(u: int)
    requires 0 <= u < 0x10000
    ensures WordNumber(NumberWord(u)) == u
  {
    WordParts((u % 0x100) as bv8, (u / 0x100) as bv8);
    NumberByte(u % 0x100);
    NumberByte(u / 0x100);
  }

  /** A word is the word built from the base-256 digits of its number. */
  lemma {:induction false} WordNumberRoundTrip(w: bv16)
    ensures NumberWord(WordNumber(w)) == w
  {
    var lo, hi := (w & 0xFF) as bv8, (w >> 8) as bv8;
    DigitsOfWord(WordNumber(w), lo, hi);
    ByteValue(lo);
    ByteValue(hi);
    WordOfParts(w);
  }

  /** The bits of an int16 are the one word whose number is its two's-complement value. */
  lemma {:induction false} Int16BitsOfNumber(t: int16, w: bv16)
    requires WordNumber(w) == Unsigned(t)
    ensures Int16Bits(t) == w
  {
    WordNumberRoundTrip(w);
    WordNumberRoundTrip(Int16Bits(t));
  }

  /** Every int16 survives the cast to 16 bits and back. */
  lemma {:induction false} Int16RoundTrip(t: int16)
    ensures Int16OfBits(Int16Bits(t)) == t
  {
    NumberWordRoundTrip(Unsigned(t));
  }

  /** Every 16-bit value is the cast of an int16, so a threshold can set any register value. */
  lemma {:induction false} Int16BitsRoundTrip(w: bv16)
    ensures Int16Bits(Int16OfBits(w)) == w
  {
    var u := WordNumber(w);
    assert Unsigned(Signed(u)) == u;
    WordNumberRoundTrip(w);
  }

  /** The value is negative exactly when bit 15 is set. */
  lemma Int16SignBit(w: bv16)
    ensures Int16OfBits(w) < 0 <==> w & 0x8000 == 0x8000
  {
  }

  /** struct HIGH_FAULT: one 16-bit field. */
  datatype HighFaultReg = HighFaultReg(highFault: bv16)

  /** struct LOW_FAULT: one 16-bit field. */
  datatype LowFaultReg = LowFaultReg(lowFault: bv16)

  /** The two HIGH_FAULT bytes of the field, as they go out from HIGH_FAULT_H. */
  function EncodeHighFault(h: HighFaultReg): (bytes: seq<bv8>)
    ensures |bytes| == 2
    ensures BytesWord(bytes) == h.highFault
  {
    WordBytesRoundTrip(h.highFault);
    WordBytes(h.highFault)
  }

  function DecodeHighFault(bytes: seq<bv8>): (h: HighFaultReg)
    requires |bytes| == 2
    ensures EncodeHighFault(h) == bytes
  {
    BytesWordRoundTrip(bytes);
    HighFaultReg(BytesWord(bytes))
  }

  /** The two LOW_FAULT bytes of the field, as they go out from LOW_FAULT_H. */
  function EncodeLowFault(l: LowFaultReg): (bytes: seq<bv8>)
    ensures |bytes| == 2
    ensures BytesWord(bytes) == l.lowFault
  {
    WordBytesRoundTrip(l.lowFault);
    WordBytes(l.lowFault)
  }

  function DecodeLowFault(bytes: seq<bv8>): (l: LowFaultReg)
    requires |bytes| == 2
    ensures EncodeLowFault(l) == bytes
  {
    BytesWordRoundTrip(bytes);
    LowFaultReg(BytesWord(bytes))
  }

  /** The HIGH_FAULT value a threshold is bit_cast into: its bits read back as the threshold. */
  function HighFaultOf(threshold: int16): (h: HighFaultReg)
    ensures Int16OfBits(h.highFault) == threshold
  {
    Int16RoundTrip(threshold);
    HighFaultReg(Int16Bits(threshold))
  }

  /** The LOW_FAULT value a threshold is bit_cast into: its bits read back as the threshold. */
  function LowFaultOf(threshold: int16): (l: LowFaultReg)
    ensures Int16OfBits(l.lowFault) == threshold
  {
    Int16RoundTrip(threshold);
    LowFaultReg(Int16Bits(threshold))
  }

  /** A threshold written as HIGH_FAULT bytes and read back is the same threshold. */
  lemma {:induction false} HighFaultRoundTrip(threshold: int16)
    ensures Int16OfBits(DecodeHighFault(EncodeHighFault(HighFaultOf(threshold))).highFault) == threshold
  {
    WordBytesRoundTrip(HighFaultOf(threshold).highFault);
  }

  /** A threshold written as LOW_FAULT bytes and read back is the same threshold. */
  lemma {:induction false} LowFaultRoundTrip(threshold: int16)
    ensures Int16OfBits(DecodeLowFault(EncodeLowFault(LowFaultOf(threshold))).lowFault) == threshold
  {
    WordBytesRoundTrip(LowFaultOf(threshold).lowFault);
  }

  /** The thresholds the polling task passes: 1000 goes out as E8 03, 0 as 00 00. */
  lemma ThresholdBytesExample()
    ensures EncodeHighFault(HighFaultOf(1000)) == [0xE8, 0x03]
    ensures EncodeLowFault(LowFaultOf(0)) == [0x00, 0x00]
  {
    Int16BitsOfNumber(1000, 0x03E8);
    Int16BitsOfNumber(0, 0x0000);
  }

  /** A negative threshold goes out in two's complement: -1 as FF FF. */
  lemma NegativeThresholdExample()
    ensures EncodeLowFault(LowFaultOf(-1)) == [0xFF, 0xFF]
  {
  }

  /** struct FAULT_STATUS: one 8-bit field, so every byte is a fault status. */
  datatype FaultStatusReg = FaultStatusReg(faultStatus: bv8)

  /** The FAULT_STATUS byte of the field: the field is the whole byte. */
  function EncodeFaultStatus(f: FaultStatusReg): (b: bv8)
    ensures DecodeFaultStatus(b) == f
  {
    f.faultStatus
  }

  /** The FAULT_STATUS field of a byte: any byte is one, taken whole. */
  function DecodeFaultStatus(b: bv8): (f: FaultStatusReg)
    ensures f.faultStatus == b
  {
    FaultStatusReg(b)
  }

  /** Every byte is the encoding of the field decoded from it. */
  lemma FaultStatusBytesRoundTrip(b: bv8)
    ensures EncodeFaultStatus(DecodeFaultStatus(b)) == b
  {
  }

  lemma FaultStatusRoundTrip(f: FaultStatusReg)
    ensures DecodeFaultStatus(EncodeFaultStatus(f)) == f
  {
  }
}
