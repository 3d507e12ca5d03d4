/**
 * The serial transport the driver owns (Utility::SPIDevice, whose source is not part of this
 * model), seen as the device's bank of eight byte registers plus a ghost record of every
 * transaction: register reads, register writes and the driver's delays.
 */
module Transport {

  /** One transaction, as the ghost trace records it. */
  datatype Event =
    | Read(addr: bv8, data: seq<bv8>)
    | Write(addr: bv8, data: seq<bv8>)
    | Delay(ms: nat)

  /** Addresses 0x00..0x07. */
  const RegisterCount := 8

  /** `regs` with `bytes` laid over it from index `at` upward. */
  function Overwrite(regs: seq<bv8>, at: nat, bytes: seq<bv8>): (r: seq<bv8>)
    requires at + |bytes| <= |regs|
    ensures |r| == |regs|
    ensures forall i :: 0 <= i < |r| ==> r[i] == if at <= i < at + |bytes| then bytes[i - at] else regs[i]
  {
    regs[..at] + bytes + regs[at + |bytes|..]
  }

  class RegisterBank {
    /** The device's registers, indexed by address. */
    const regs: array<bv8>
    /** Every transaction so far, oldest first. */
    ghost var trace: seq<Event>

    ghost predicate Valid()
    {
      regs.Length == RegisterCount
    }

    /** A transport to a device whose registers hold `contents`. */
    constructor (contents: seq<bv8>)
      requires |contents| == RegisterCount
      ensures Valid() && fresh(regs)
      ensures regs[..] == contents && trace == []
    {
      regs := new bv8[RegisterCount](i requires 0 <= i < RegisterCount => contents[i]);
      trace := [];
    }

    /** read_byte: the register at `addr`. */
    method ReadByte(addr: bv8) returns (b: bv8)
      requires Valid() && addr as int < RegisterCount
      modifies this`trace
      ensures b == regs[addr as int]
      ensures trace == old(trace) + [Read(addr, [b])]
    {
      b := regs[addr as int];
      trace := trace + [Read(addr, [b])];
    }

    /** read_bytes<N>: `n` registers from `addr` upward. */
    method ReadBytes(addr: bv8, n: nat) returns (bytes: seq<bv8>)
      requires Valid() && addr as int + n <= RegisterCount
      modifies this`trace
      ensures bytes == regs[addr as int..addr as int + n]
      ensures trace == old(trace) + [Read(addr, bytes)]
    {
      bytes := regs[addr as int..addr as int + n];
      trace := trace + [Read(addr, bytes)];
    }

    /** write_byte: the register at `addr` takes `b`; nothing else changes. */
    method WriteByte(addr: bv8, b: bv8)
      requires Valid() && addr as int < RegisterCount
      modifies this`trace, regs
      ensures regs[..] == old(regs[..])[addr as int := b]
      ensures trace == old(trace) + [Write(addr, [b])]
    {
      regs[addr as int] := b;
      trace := trace + [Write(addr, [b])];
    }

    /** write_bytes: element i of `bytes` goes to the register at `addr + i`; nothing else changes. */
    method WriteBytes(addr: bv8, bytes: seq<bv8>)
      requires Valid() && addr as int + |bytes| <= RegisterCount
      modifies this`trace, regs
      ensures regs[..] == Overwrite(old(regs[..]), addr as int, bytes)
      ensures trace == old(trace) + [Write(addr, bytes)]
    {
      forall i | 0 <= i < |bytes| {
        regs[addr as int + i] := bytes[i];
      }
      trace := trace + [Write(addr, bytes)];
    }

    /**
     * vTaskDelay: the driver waits `ms` milliseconds while the device works on its own. The
     * contract promises nothing about the registers afterwards, so whatever is proved about the
     * driver holds for every value the device may put in any register meanwhile (conversion
     * results, the self-clearing oneshot bit, faults).
     */
    method Sleep(ms: nat)
      requires Valid()
      modifies this`trace, regs
      ensures trace == old(trace) + [Delay(ms)]
    {
      trace := trace + [Delay(ms)];
    }
  }
}
