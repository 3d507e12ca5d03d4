/**
 * The enumerations of components/max31865/max31865_config.hpp: register addresses and the codes
 * of the configuration fields, each with the value the source gives it and a decoder back.
 */
module Config {

  import opened Wrappers

  /** The register addresses (enum RA). A two-byte register has an `H` and an `L` address. */
  datatype Register =
    | Configuration
    | RtdH | RtdL
    | HighFaultH | HighFaultL
    | LowFaultH | LowFaultL
    | FaultStatus

  /** The register's address (enum RA): all eight fit below 0x08. */
  function Address(r: Register): (a: bv8)
    ensures a <= 0x07
  {
    match r
    case Configuration => 0x00
    case RtdH => 0x01
    case RtdL => 0x02
    case HighFaultH => 0x03
    case HighFaultL => 0x04
    case LowFaultH => 0x05
    case LowFaultL => 0x06
    case FaultStatus => 0x07
  }

  /** The register an address names, if any: exactly the addresses 0x00..0x07 are registers. */
  function RegisterAt(a: bv8): (r: Option<Register>)
    ensures r.Some? <==> a <= 0x07
    ensures r.Some? ==> Address(r.value) == a
  {
    if a == 0x00 then Some(Configuration)
    else if a == 0x01 then Some(RtdH)
    else if a == 0x02 then Some(RtdL)
    else if a == 0x03 then Some(HighFaultH)
    else if a == 0x04 then Some(HighFaultL)
    else if a == 0x05 then Some(LowFaultH)
    else if a == 0x06 then Some(LowFaultL)
    else if a == 0x07 then Some(FaultStatus)
    else None
  }

  /** Every register has its own address, and the address names it back. */
  lemma AddressRoundTrip(r: Register)
    ensures RegisterAt(Address(r)) == Some(r)
  {
  }

  /** The low-order address of each two-byte register follows its high-order address. */
  lemma LowAddressFollowsHigh()
    ensures Address(RtdL) == Address(RtdH) + 1
    ensures Address(HighFaultL) == Address(HighFaultH) + 1
    ensures Address(LowFaultL) == Address(LowFaultH) + 1
  {
  }

  /** Wiring selector (enum NWires). TWO and FOUR share the value 0. */
  datatype NWires = Two | Three | Four

  /** The nwires bit is set for three-wire sensors only. */
  function NWiresBit(n: NWires): (b: bv1)
    ensures b == 1 <==> n == Three
  {
    match n
    case Three => 1
    case Two => 0
    case Four => 0
  }

  /** Reading the bit back can only name THREE or TWO: it never recovers FOUR. */
  function NWiresOfBit(b: bv1): (n: NWires)
    ensures NWiresBit(n) == b
    ensures n != Four
  {
    if b == 1 then Three else Two
  }

  /** Two selectors encode alike exactly when they are equal or are TWO and FOUR. */
  lemma NWiresBitCollision(m: NWires, n: NWires)
    ensures NWiresBit(m) == NWiresBit(n) <==> m == n || (m != Three && n != Three)
  {
  }

  /** Decoding recovers every selector but FOUR. */
  lemma NWiresRoundTrip(n: NWires)
    ensures NWiresOfBit(NWiresBit(n)) == n <==> n != Four
  {
  }

  /** Fault-detection cycle (enum FaultDetect): the four two-bit codes 0b00..0b11. */
  datatype FaultDetect = NoAction | AutoDelay | ManualDelayCycle1 | ManualDelayCycle2

  /** The two-bit code of each mode: bit 1 is set for the two manual cycles, bit 0 for AUTO_DELAY and cycle 2. */
  function FaultDetectBits(f: FaultDetect): (b: bv2)
    ensures b & 1 == 1 <==> f == AutoDelay || f == ManualDelayCycle2
    ensures b & 2 == 2 <==> f == ManualDelayCycle1 || f == ManualDelayCycle2
  {
    match f
    case NoAction => 0
    case AutoDelay => 1
    case ManualDelayCycle1 => 2
    case ManualDelayCycle2 => 3
  }

  /** Every two-bit value is the code of one fault-detection mode. */
  function FaultDetectOfBits(b: bv2): (f: FaultDetect)
    ensures FaultDetectBits(f) == b
  {
    if b == 0 then NoAction
    else if b == 1 then AutoDelay
    else if b == 2 then ManualDelayCycle1
    else ManualDelayCycle2
  }

  lemma FaultDetectRoundTrip(f: FaultDetect)
    ensures FaultDetectOfBits(FaultDetectBits(f)) == f
  {
  }

  /** Mains notch filter (enum Filter). */
  datatype Filter = Hz50 | Hz60

  /** The filter bit is set for 50 Hz mains. */
  function FilterBit(f: Filter): (b: bv1)
    ensures b == 1 <==> f == Hz50
  {
    match f
    case Hz50 => 1
    case Hz60 => 0
  }

  function FilterOfBit(b: bv1): (f: Filter)
    ensures FilterBit(f) == b
  {
    if b == 1 then Hz50 else Hz60
  }

  lemma FilterRoundTrip(f: Filter)
    ensures FilterOfBit(FilterBit(f)) == f
  {
  }

  /** Fault-status clearing (enum FaultClear). */
  datatype FaultClear = AutoClear | ManualClear

  /** The fault-clear bit is set for automatic clearing. */
  function FaultClearBit(f: FaultClear): (b: bv1)
    ensures b == 1 <==> f == AutoClear
  {
    match f
    case AutoClear => 1
    case ManualClear => 0
  }

  function FaultClearOfBit(b: bv1): (f: FaultClear)
    ensures FaultClearBit(f) == b
  {
    if b == 1 then AutoClear else ManualClear
  }

  lemma FaultClearRoundTrip(f: FaultClear)
    ensures FaultClearOfBit(FaultClearBit(f)) == f
  {
  }

  /** Conversion mode (enum ConvMode): continuous or one conversion per trigger. */
  datatype ConvMode = AutoConversion | OneShot

  /** The conversion-mode bit is set for continuous conversion. */
  function ConvModeBit(m: ConvMode): (b: bv1)
    ensures b == 1 <==> m == AutoConversion
  {
    match m
    case AutoConversion => 1
    case OneShot => 0
  }

  function ConvModeOfBit(b: bv1): (m: ConvMode)
    ensures ConvModeBit(m) == b
  {
    if b == 1 then AutoConversion else OneShot
  }

  lemma ConvModeRoundTrip(m: ConvMode)
    ensures ConvModeOfBit(ConvModeBit(m)) == m
  {
  }

  /** Fault causes (enum Error). Nothing in the driver decodes the fault status into them. */
  datatype Error = NoError | Voltage | RtdInLow | RefLow | RefHigh | RtdLow | RtdHigh

  /** The error codes: 0 for no error, 1 unused, at most 7. */
  function ErrorCode(e: Error): (b: bv8)
    ensures b <= 7 && b != 1
    ensures b == 0 <==> e == NoError
  {
    match e
    case NoError => 0
    case Voltage => 2
    case RtdInLow => 3
    case RefLow => 4
    case RefHigh => 5
    case RtdLow => 6
    case RtdHigh => 7
  }

  /** The codes in use are 0 and 2..7; every other byte names no error. */
  function ErrorOfCode(b: bv8): (e: Option<Error>)
    ensures e.Some? <==> b == 0 || 2 <= b <= 7
    ensures e.Some? ==> ErrorCode(e.value) == b
  {
    if b == 0 then Some(NoError)
    else if b == 2 then Some(Voltage)
    else if b == 3 then Some(RtdInLow)
    else if b == 4 then Some(RefLow)
    else if b == 5 then Some(RefHigh)
    else if b == 6 then Some(RtdLow)
    else if b == 7 then Some(RtdHigh)
    else None
  }

  lemma ErrorRoundTrip(e: Error)
    ensures ErrorOfCode(ErrorCode(e)) == Some(e)
  {
  }

  /** After VOLTAGE the causes take consecutive codes, as the enumerators that follow it carry no value. */
  lemma ErrorCodesConsecutive()
    ensures ErrorCode(RtdInLow) == ErrorCode(Voltage) + 1
    ensures ErrorCode(RefLow) == ErrorCode(RtdInLow) + 1
    ensures ErrorCode(RefHigh) == ErrorCode(RefLow) + 1
    ensures ErrorCode(RtdLow) == ErrorCode(RefHigh) + 1
    ensures ErrorCode(RtdHigh) == ErrorCode(RtdLow) + 1
  {
  }
}
