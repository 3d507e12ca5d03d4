# MAX31865 RTD-to-digital converter driver, modelled in Dafny

This project models the ESP32 driver for the MAX31865 resistance-to-digital converter (directory
`components/max31865`). The model has two parts.

- **Register codec.** It covers the register map (`RA`), the field encodings (`NWires`,
  `FaultDetect`, `Filter`, `FaultClear`, `ConvMode`, `Error`) and the packed bitfield layouts of
  CONFIG, RTD, HIGH_FAULT, LOW_FAULT and FAULT_STATUS. The source converts between fields and bytes
  with `std::bit_cast`. Here each conversion is an explicit encode/decode pair built from masks and
  shifts, and round-trip lemmas are proved about each pair (`config.dfy`, `registers.dfy`).
- **Driver object.** `struct MAX31865` becomes the class `Driver.Max31865`. It owns a transport and
  an `initialized` flag (`driver.dfy`). The transport is `Transport.RegisterBank`: the device's
  eight byte registers as an array, plus a ghost trace of every register read, register write and
  delay (`transport.dfy`).
  - A delay promises nothing about the registers afterwards. The proofs about a read therefore hold
    for whatever the device reports after each delay: a finished or unfinished conversion, a fault,
    or the oneshot bit cleared or not.
  - `get_resistance_raw` is specified by the pure function `Conversion.ReadRawSpec`. Given the flag
    and the registers before the call, after the 10 ms settling delay and after the 50 ms conversion
    delay, it gives the result, the exact bus traffic and the final registers.
  - `ReadRaw` is proved to do what `ReadRawSpec` gives. The ordering and result properties are
    lemmas about `ReadRawSpec` (`conversion.dfy`, `conversion_properties.dfy`).

## Byte and bit order

The layout is the one the code produces with GCC on the little-endian ESP32. It is stated once, in
the `LAYOUT` comment of `registers.dfy`:

- Bitfields are allocated LSB-first in declaration order. In CONFIG, `vbias` is bit 0,
  `conv_mode` bit 1, `oneshot` bit 2, `nwires` bit 3, `fault_detect` bits 4-5, `fault_clear`
  bit 6 and `mainsfilter` bit 7.
- In a two-byte register, array element 0 is the low-order byte. It is the byte read from or
  written to the `_H` address. So `threshold_max = 1000` goes out as `[0xE8, 0x03]` from 0x03, and
  the RTD fault flag is the top bit of the byte at 0x02.

The MAX31865 datasheet's register map is MSB-first, and so are the `_H`/`_L` names. The code does
not follow them. The model follows the code, not the datasheet.

## Model

| member | source | states |
|---|---|---|
| Config.Address | components/max31865/max31865_config.hpp:11-20 | every register address fits below 0x08 |
| Config.RegisterAt | components/max31865/max31865_config.hpp:11-20 | an address names a register exactly when it is 0x00..0x07, and then the register whose address it is |
| Config.AddressRoundTrip | components/max31865/max31865_config.hpp:11-20 | every register's address decodes back to that register |
| Config.LowAddressFollowsHigh | components/max31865/max31865_config.hpp:13-18 | RTD_L, HIGH_FAULT_L and LOW_FAULT_L are each their `_H` address plus one |
| Config.NWiresBit | components/max31865/max31865_config.hpp:22-26 | the nwires bit is 1 exactly for THREE; TWO and FOUR both give 0 |
| Config.NWiresOfBit | components/max31865/max31865_config.hpp:22-26 | a decoded nwires bit gives a selector that encodes back to that bit, and never FOUR |
| Config.NWiresBitCollision | components/max31865/max31865_config.hpp:22-26 | two selectors share a bit exactly when they are equal or neither is THREE, so TWO and FOUR collide |
| Config.NWiresRoundTrip | components/max31865/max31865_config.hpp:22-26 | decoding an encoded selector gives it back exactly when it is not FOUR |
| Config.FaultDetectBits | components/max31865/max31865_config.hpp:28-33 | bit 0 of the code is set exactly for AUTO_DELAY and MANUAL_DELAY_CYCLE2, bit 1 exactly for the two manual cycles |
| Config.FaultDetectOfBits | components/max31865/max31865_config.hpp:28-33 | every 2-bit value is the code of some FaultDetect, which encodes back to it |
| Config.FaultDetectRoundTrip | components/max31865/max31865_config.hpp:28-33 | every FaultDetect decodes back from its code |
| Config.FilterBit | components/max31865/max31865_config.hpp:35-38 | the filter bit is 1 exactly for HZ50 |
| Config.FilterOfBit | components/max31865/max31865_config.hpp:35-38 | either bit value is the code of a Filter that encodes back to it |
| Config.FilterRoundTrip | components/max31865/max31865_config.hpp:35-38 | every Filter decodes back from its bit (HZ50 = 1, HZ60 = 0) |
| Config.ErrorCode | components/max31865/max31865_config.hpp:40-48 | every code is at most 7 and never 1, and it is 0 exactly for NO_ERROR |
| Config.ErrorOfCode | components/max31865/max31865_config.hpp:40-48 | a byte is an error code exactly when it is 0 or 2..7, and then it is that Error's code |
| Config.ErrorRoundTrip | components/max31865/max31865_config.hpp:40-48 | every Error decodes back from its code |
| Config.ErrorCodesConsecutive | components/max31865/max31865_config.hpp:42-47 | VOLTAGE..RTD_HIGH take consecutive codes, from 2 to 7 |
| Config.FaultClearBit | components/max31865/max31865_config.hpp:50-53 | the fault-clear bit is 1 exactly for AUTO |
| Config.FaultClearOfBit | components/max31865/max31865_config.hpp:50-53 | either bit value is the code of a FaultClear that encodes back to it |
| Config.FaultClearRoundTrip | components/max31865/max31865_config.hpp:50-53 | every FaultClear decodes back from its bit (AUTO = 1, MANUAL = 0) |
| Config.ConvModeBit | components/max31865/max31865_config.hpp:55-58 | the conversion-mode bit is 1 exactly for AUTO |
| Config.ConvModeOfBit | components/max31865/max31865_config.hpp:55-58 | either bit value is the code of a ConvMode that encodes back to it |
| Config.ConvModeRoundTrip | components/max31865/max31865_config.hpp:55-58 | every ConvMode decodes back from its bit (AUTO = 1, ONESHOT = 0) |
| Registers.ConfigFieldsTileByte | components/max31865/max31865_registers.hpp:10-18 | the CONFIG fields sit side by side from bit 0 in declaration order: a CONFIG byte is the OR of its fields encoded one at a time, and all fields at their largest fill all 8 bits |
| Registers.ConfigFieldMasks | components/max31865/max31865_registers.hpp:10-18 | each CONFIG field encoded alone lands only in its own mask: 0x01, 0x02, 0x04, 0x08, 0x30, 0x40 or 0x80 |
| Registers.EncodeConfig | components/max31865/max31865_registers.hpp:10-18 | each CONFIG field is found at its own bit position of the byte: vbias bit 0, conv_mode 1, oneshot 2, nwires 3, fault_detect 4-5, fault_clear 6, mainsfilter 7 |
| Registers.DecodeConfig | components/max31865/max31865_registers.hpp:10-18 | every CONFIG byte is the encoding of the fields decoded from it |
| Registers.ConfigRoundTrip | components/max31865/max31865_registers.hpp:10-18 | decoding an encoded CONFIG gives back every field, for every combination of field values |
| Registers.Word | components/max31865/max31865.cpp:131-133 | two bytes read from a two-byte register make the word whose number is the first byte plus 256 times the second |
| Registers.WordBytes | components/max31865/max31865.cpp:124-128 | the bytes a 16-bit value goes out as are its base-256 digits, low-order first |
| Registers.BytesWord | components/max31865/max31865.cpp:130-134 | the word two bytes read from a two-byte register make has the number of those bytes, the first counting once and the second 256 times |
| Registers.WordBytesRoundTrip | components/max31865/max31865.cpp:124-128 | a 16-bit value split into its two register bytes is rebuilt from them |
| Registers.BytesWordRoundTrip | components/max31865/max31865.cpp:130-134 | two register bytes joined into a 16-bit value split back into the same bytes |
| Registers.EncodeRtd | components/max31865/max31865_registers.hpp:20-23 | the fault flag is the top bit of the second byte, and the two bytes with that bit masked off are the 15-bit ratio |
| Registers.DecodeRtd | components/max31865/max31865_registers.hpp:20-23 | every pair of RTD bytes is the encoding of the ratio and fault flag decoded from it |
| Registers.RtdRoundTrip | components/max31865/max31865_registers.hpp:20-23 | decoding encoded RTD fields gives back the 15-bit ratio and the fault flag |
| Registers.RtdFaultBit | components/max31865/max31865_registers.hpp:20-23 | the fault flag is set exactly when the top bit of the byte at RTD_L (0x02) is set |
| Registers.RtdRatioBits | components/max31865/max31865_registers.hpp:20-23 | the ratio is the two bytes as a little-endian word with the fault bit masked off |
| Registers.RtdFaultIndependent | components/max31865/max31865_registers.hpp:20-23 | the ratio is at most 32767, and flipping the fault bit changes the flag and never the ratio |
| Registers.Int16Bits | components/max31865/max31865.cpp:114-122 | the 16 bits of a threshold, read as an unsigned word, are its two's-complement value |
| Registers.Int16BitsOfNumber | components/max31865/max31865.cpp:114-122 | the bits of a threshold are the only word whose number is its two's-complement value |
| Registers.Int16RoundTrip | components/max31865/max31865.cpp:114-122 | an int16 reinterpreted as its 16 two's-complement bits and back is unchanged |
| Registers.Int16BitsRoundTrip | components/max31865/max31865.cpp:114-122 | 16 bits read as an int16 and back are unchanged |
| Registers.Int16SignBit | components/max31865/max31865.cpp:114-122 | a threshold is negative exactly when bit 15 of its register value is set |
| Registers.EncodeHighFault | components/max31865/max31865_registers.hpp:25-27 | the two HIGH_FAULT bytes join back into the 16-bit field |
| Registers.DecodeHighFault | components/max31865/max31865_registers.hpp:25-27 | every pair of HIGH_FAULT bytes is the encoding of the 16-bit field decoded from it |
| Registers.EncodeLowFault | components/max31865/max31865_registers.hpp:29-31 | the two LOW_FAULT bytes join back into the 16-bit field |
| Registers.DecodeLowFault | components/max31865/max31865_registers.hpp:29-31 | every pair of LOW_FAULT bytes is the encoding of the 16-bit field decoded from it |
| Registers.HighFaultOf | components/max31865/max31865.cpp:114-117 | the HIGH_FAULT field made from a threshold reads back as that threshold |
| Registers.LowFaultOf | components/max31865/max31865.cpp:119-122 | the LOW_FAULT field made from a threshold reads back as that threshold |
| Registers.HighFaultRoundTrip | components/max31865/max31865.cpp:124-134 | a threshold written as HIGH_FAULT bytes and read back is the same int16 |
| Registers.LowFaultRoundTrip | components/max31865/max31865.cpp:136-146 | a threshold written as LOW_FAULT bytes and read back is the same int16 |
| Registers.ThresholdBytesExample | components/max31865/max31865.cpp:114-128 | threshold 1000 goes out as [0xE8, 0x03] and threshold 0 as [0x00, 0x00] |
| Registers.NegativeThresholdExample | components/max31865/max31865.cpp:119-122 | threshold -1 goes out as [0xFF, 0xFF] |
| Registers.EncodeFaultStatus | components/max31865/max31865_registers.hpp:33-35 | the FAULT_STATUS byte of a field decodes back to that field |
| Registers.DecodeFaultStatus | components/max31865/max31865_registers.hpp:33-35 | the FAULT_STATUS field decoded from a byte is that whole byte |
| Registers.FaultStatusBytesRoundTrip | components/max31865/max31865_registers.hpp:33-35 | every FAULT_STATUS byte is the encoding of the field decoded from it |
| Registers.FaultStatusRoundTrip | components/max31865/max31865_registers.hpp:33-35 | decoding an encoded FAULT_STATUS gives it back |
| Transport.RegisterBank.ReadByte | components/max31865/max31865.cpp:96 | a one-byte read returns the register at the address, records the read and changes no register |
| Transport.RegisterBank.ReadBytes | components/max31865/max31865.cpp:150 | a multi-byte read returns consecutive registers from the address, records the read and changes no register |
| Transport.RegisterBank.WriteByte | components/max31865/max31865.cpp:91 | a one-byte write changes that register only and records the write |
| Transport.RegisterBank.WriteBytes | components/max31865/max31865.cpp:126-127 | element i goes to the address plus i, every other register is unchanged, and the write is recorded |
| Transport.RegisterBank.Sleep | components/max31865/max31865.cpp:37 | a delay is recorded, and the device may change any register meanwhile |
| Conversion.OneShotMode | components/max31865/max31865.cpp:39 | a CONFIG byte selects ONESHOT conversion exactly when its conv_mode bit (bit 1) is clear |
| Conversion.BiasedByte | components/max31865/max31865.cpp:79-87 | set_vbias keeps conv_mode, nwires and mainsfilter, clears oneshot, fault_detect and fault_clear, and sets vbias as asked |
| Conversion.OneShotByte | components/max31865/max31865.cpp:153-158 | the trigger sets the oneshot bit and keeps every other bit |
| Conversion.Settle | components/max31865/max31865.cpp:36-37 | the settling stretch is a CONFIG read of the current byte, one CONFIG write with vbias set and oneshot, fault_detect and fault_clear clear, then the 10 ms delay |
| Conversion.Trigger | components/max31865/max31865.cpp:39-42 | the trigger stretch reads CONFIG; only in ONESHOT mode does it go on to write CONFIG with the oneshot bit set and wait 50 ms |
| Conversion.Finish | components/max31865/max31865.cpp:44-50 | the completion stretch reads CONFIG; only when the oneshot bit is clear does it go on to read RTD from 0x01 and write CONFIG with vbias clear |
| Conversion.Completion | components/max31865/max31865.cpp:44-52 | a value comes back exactly when the conversion is done and the fault flag is clear; only CONFIG can change, and only when the conversion is done |
| Conversion.Reading | components/max31865/max31865.cpp:52 | a value comes back exactly when the fault flag is clear, and it is the ratio, within 0..32767 |
| Conversion.ReadRawSpec | components/max31865/max31865.cpp:30-53 | a value comes back only when the driver is initialized, and then every register but CONFIG ends as the device reported it at the completion check |
| ConversionProperties.UninitializedReadIsSilent | components/max31865/max31865.cpp:32-34 | uninitialized, a read returns no value, makes no transaction and changes no register |
| ConversionProperties.ReadRawResult | components/max31865/max31865.cpp:30-53 | a value comes back exactly when the driver is initialized, the conversion is done at the completion check and the fault flag is clear; it is then the ratio read |
| ConversionProperties.SettleWrites | components/max31865/max31865.cpp:36-37 | the settling stretch writes CONFIG once, with bias on |
| ConversionProperties.TriggerWrites | components/max31865/max31865.cpp:39-42 | the trigger stretch writes CONFIG once with the oneshot bit in ONESHOT mode, and never otherwise |
| ConversionProperties.FinishWrites | components/max31865/max31865.cpp:44-50 | the completion stretch writes CONFIG once, with bias off, when the conversion is done, and never otherwise |
| ConversionProperties.ReadRawPieces | components/max31865/max31865.cpp:36-50 | an initialized read's traffic is settling, then trigger, then completion, and its CONFIG writes are theirs in that order |
| ConversionProperties.ReadingComesFromRtdRead | components/max31865/max31865.cpp:48-52 | a returned value is within 0..32767 and is the ratio of an RTD read whose fault flag is clear; an RTD read with the flag set lets no value through |
| ConversionProperties.SuccessfulReadWrites | components/max31865/max31865.cpp:36-52 | a successful read writes CONFIG as bias on, then the oneshot trigger in ONESHOT mode only, then bias off, and nothing else |
| ConversionProperties.SuccessfulReadOrder | components/max31865/max31865.cpp:36-52 | in a successful read the RTD read comes after a bias-on write and before a bias-off write |
| ConversionProperties.ModeDecidesTrigger | components/max31865/max31865.cpp:36-42 | the 10 ms delay always comes before the mode check, and the 50 ms delay happens exactly in ONESHOT mode |
| ConversionProperties.ModeShowsInConfigWrites | components/max31865/max31865.cpp:39-42 | some CONFIG write carries the oneshot bit exactly in ONESHOT mode; in AUTO mode it is never written as 1 |
| ConversionProperties.UnfinishedConversionReadsNothing | components/max31865/max31865.cpp:44-46 | with the oneshot bit still set at the check there is no value and no RTD read |
| ConversionProperties.UnfinishedConversionConfigWrites | components/max31865/max31865.cpp:44-46 | with the oneshot bit still set at the check the only CONFIG writes are bias on and, in ONESHOT mode, the trigger |
| ConversionProperties.UnfinishedConversionLeavesBiasOn | components/max31865/max31865.cpp:44-46 | with the oneshot bit still set at the check and vbias still set by the device, the read never writes bias off |
| Driver.InitialConfig | components/max31865/max31865.cpp:99-112 | set_config's byte has vbias and oneshot clear and carries each supplied mode, which reads back as given (FOUR wires reading back as TWO) |
| Driver.InitializeEvents | components/max31865/max31865.cpp:60-72 | initialize makes three writes and no read: CONFIG with bias and oneshot off and the supplied modes (FOUR wires reading back as TWO), then HIGH_FAULT from 0x03 holding threshold_max, then LOW_FAULT from 0x05 holding threshold_min |
| Driver.Max31865.Default | components/max31865/max31865.hpp:13 | a default-constructed driver is not initialized, owns a transport of its own and has made no transaction |
| Driver.Max31865.constructor | components/max31865/max31865.cpp:12-23 | the constructor takes over the transport, makes initialize's traffic, leaves CONFIG, HIGH_FAULT and LOW_FAULT as written and every other register unchanged, and leaves the driver initialized |
| Driver.Max31865.MoveFrom | components/max31865/max31865.hpp:24 | a moved-to driver has the source's transport and flag; the source keeps its flag and no longer shares the transport |
| Driver.Max31865.MoveAssign | components/max31865/max31865.hpp:27 | move assignment takes the source's transport and flag with no bus traffic; the source keeps its flag |
| Driver.Max31865.Destroy | components/max31865/max31865.cpp:25-28 | destruction clears the flag and makes no transaction |
| Driver.Max31865.Initialize | components/max31865/max31865.cpp:60-72 | the traffic is that of InitializeEvents, CONFIG, HIGH_FAULT and LOW_FAULT change as written, and the flag is set |
| Driver.Max31865.Deinitialize | components/max31865/max31865.cpp:74-77 | the flag is cleared from any state, with no transaction and nothing else changed |
| Driver.Max31865.SetConfigRegister | components/max31865/max31865.cpp:89-92 | one write of the encoded CONFIG to 0x00 |
| Driver.Max31865.GetConfigRegister | components/max31865/max31865.cpp:94-97 | one read of 0x00, decoded into fields that encode back to the byte read |
| Driver.Max31865.SetHighFaultRegisters | components/max31865/max31865.cpp:124-128 | one two-byte write of the encoded HIGH_FAULT from 0x03 |
| Driver.Max31865.GetHighFaultRegisters | components/max31865/max31865.cpp:130-134 | one two-byte read from 0x03, decoded into a field that encodes back to the bytes read |
| Driver.Max31865.SetLowFaultRegisters | components/max31865/max31865.cpp:136-140 | one two-byte write of the encoded LOW_FAULT from 0x05 |
| Driver.Max31865.GetLowFaultRegisters | components/max31865/max31865.cpp:142-146 | one two-byte read from 0x05, decoded into a field that encodes back to the bytes read |
| Driver.Max31865.GetRtdRegisters | components/max31865/max31865.cpp:148-151 | one two-byte read from 0x01, decoded into a ratio and flag that encode back to the bytes read |
| Driver.Max31865.SetConfig | components/max31865/max31865.cpp:99-112 | one CONFIG write with bias and oneshot off and the supplied mode codes |
| Driver.Max31865.SetHighFault | components/max31865/max31865.cpp:114-117 | one write, from 0x03, of the bits of threshold_max |
| Driver.Max31865.SetLowFault | components/max31865/max31865.cpp:119-122 | one write, from 0x05, of the bits of threshold_min |
| Driver.Max31865.SetVbias | components/max31865/max31865.cpp:79-87 | a CONFIG read, then a write of the byte read with vbias as asked and oneshot, fault_detect and fault_clear cleared |
| Driver.Max31865.StartOneShotConversion | components/max31865/max31865.cpp:153-158 | a CONFIG read, then a write of the byte read with the oneshot bit set |
| Driver.Max31865.BiasAndTrigger | components/max31865/max31865.cpp:36-42 | bias on and the settling delay, then the mode check and, in ONESHOT mode, the trigger and the conversion delay |
| Driver.Max31865.Complete | components/max31865/max31865.cpp:44-52 | the completion check and, when the conversion is done, the RTD read, bias off and the reading |
| Driver.Max31865.ReadRaw | components/max31865/max31865.cpp:30-53 | the result, the bus traffic and the final registers are those ReadRawSpec gives for whatever the device reported after each delay; the flag is unchanged |
| Driver.Max31865.ReadScaled | components/max31865/max31865.cpp:55-58 | the same optional as ReadRaw, its value as a real number, with the same traffic |
| Driver.DefaultDriverReadsNothing | components/max31865/max31865.hpp:13 | a read on a default-constructed driver returns no value |

## Left out

- `max31865_task.cpp` is not part of this model. It holds the SPI bus and GPIO setup, task creation and the poll-and-log loop, which are hardware I/O and scheduling.
- `main/main.cpp` is not part of this model. It is an idle loop with no logic.
- `Utility::SPIDevice` is not part of this model. Its `read_byte`, `read_bytes`, `write_byte` and `write_bytes` become `Transport.RegisterBank`. The model assumes that `write_bytes` and `read_bytes` handle element 0 first, at the start address.
- Real timing: `vTaskDelay` becomes a `Delay(ms)` trace event with the same milliseconds. Whatever the device does during a delay is left open, and the device's timing is not modelled.
- Concurrency: the driver has no locking, and the model makes no claim about simultaneous use.
- Driver.Max31865.ReadScaled: the float result is a Dafny `real`. Every int16 is exact as a float, so no rounding is modelled.
- Driver.Max31865.MoveFrom: the state of a moved-from `SPIDevice` is not visible, so the source driver gets a fresh transport whose registers all hold 0.
- Driver.Max31865.MoveAssign: self-move assignment is excluded by `other != this`. The transport the target held before is dropped with no traffic.
- Driver.Max31865.Destroy: Dafny has no destructors, so destruction is an explicit call.
- Deleted copy operations: the model has no copy member. It does not enforce exclusive ownership of a transport either: two drivers may be built over one `RegisterBank`, which the source's move-only `SPIDevice` rules out.
- Public and private access: Dafny class members here are all callable. The model does not enforce that only the two reads are public.
- Driver.Max31865.BiasAndTrigger and Driver.Max31865.Complete: these are the two halves of `get_resistance_raw`, split only to keep the proof small. `ReadRaw` runs them in order with the same early returns.
- Decoding FAULT_STATUS into `Error` causes and converting a ratio to a temperature: the code does neither. The model decodes only the register and the codes.
- NWires: TWO and FOUR are the same enumerator value in the source. The model keeps three selectors and proves that TWO and FOUR encode alike.
- Register memory between delays: registers change only during `Sleep`; between two delays every read returns what was last written or reported. In AUTO mode, for example, the RTD value cannot change between the completion check and the RTD read, which a continuously converting device may do.
