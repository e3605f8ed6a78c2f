/**
 * The I2C bus, abstracted. The platform's bus library is replaced by a register file that reads
 * return from, a count of the bytes the device delivers for the read issued in a call (fewer
 * than requested is a short read or a dead bus), and a trace of the register writes issued.
 */
module Bus {
  import opened Types
  import opened Registers

  /** The device's 256 register addresses and their current values. */
  type RegisterFile = s: seq<Byte> | |s| == 0x100 witness seq(0x100, _ => 0)

  /** What the bus offers one driver call. */
  datatype Bus = Bus(regs: RegisterFile, delivers: nat)

  /** One register write: a transmission of the register address followed by one data byte. */
  datatype Write = Write(reg: Byte, value: Byte)

  /** The outcome of a multi-byte register read. */
  datatype ReadResult = ReadOk(data: seq<Byte>) | ReadFailed(code: int)

  /** The outcome of a single register write and the writes it put on the bus. */
  datatype WriteResult = WriteResult(code: int, writes: seq<Write>)

  /**
   * The `n` registers from `reg` upwards, as the device returns them on one read: its register
   * pointer advances after every byte.
   */
  function Block(regs: RegisterFile, reg: Byte, n: nat): (b: seq<Byte>)
  {
    seq(n, i requires 0 <= i < n => regs[(reg + i) % 0x100])
  }

  /**
   * One six-byte read from DATAX0 returns exactly the six named data registers, in header
   * order, because their addresses are consecutive.
   */
  lemma DataBlockLayout(regs: RegisterFile)
    ensures |Block(regs, RegDataX0, 6)| == |DataRegisters|
    ensures forall i :: 0 <= i < 6 ==> Block(regs, RegDataX0, 6)[i] == regs[DataRegisters[i]]
  {
    DataRegistersConsecutive();
  }

  /** The bytes the bus can hand out after a request for `len` bytes: at most `len`. */
  function Available(bus: Bus, reg: Byte, len: Byte): (s: seq<Byte>)
    ensures |s| <= len && |s| <= bus.delivers
    ensures |s| == len <==> bus.delivers >= len
    ensures s == Block(bus.regs, reg, len)[..|s|]
  {
    Block(bus.regs, reg, if bus.delivers < len then bus.delivers else len)
  }

  /** The reference meaning of a register read issued by a driver whose stored address is `addr`. */
  function ReadBytes(addr: Byte, bus: Bus, reg: Byte, len: Byte): (r: ReadResult)
  {
    if addr == 0 then ReadFailed(ErrNotInitialized)
    else if bus.delivers < len then ReadFailed(ShortRead)
    else ReadOk(Block(bus.regs, reg, len))
  }

  /**
   * i2cReadBytes: refuses with `ErrNotInitialized` on address 0, otherwise requests `len` bytes
   * and copies bytes while the bus has any, stopping at `len`; fewer than `len` is a failure.
   */
  method I2cReadBytes(addr: Byte, bus: Bus, reg: Byte, len: Byte) returns (code: int, data: seq<Byte>)
    ensures code == 0 <==> addr != 0 && bus.delivers >= len
    ensures code == 0 ==> |data| == len
    ensures code == 0 ==> forall i :: 0 <= i < len ==> data[i] == bus.regs[(reg + i) % 0x100]
    ensures addr == 0 ==> code == ErrNotInitialized
    ensures addr != 0 && bus.delivers < len ==> code == ShortRead
    ensures ReadBytes(addr, bus, reg, len) == if code == 0 then ReadOk(data) else ReadFailed(code)
  {
    if addr == 0 {
      return ErrNotInitialized, [];
    }
    var stream := Available(bus, reg, len);
    var i: nat := 0;
    data := [];
    while i < |stream|
      invariant i <= |stream|
      invariant data == stream[..i]
    {
      data := data + [stream[i]];
      i := i + 1;
      if i == len {
        break;
      }
    }
    if i != len {
      return ShortRead, data;
    }
    return Success, data;
  }

  /**
   * i2cWriteByte: refuses with `ErrNotInitialized` on address 0, otherwise transmits the
   * register address and the byte; the bus's own status is ignored, so the write succeeds.
   */
  function I2cWriteByte(addr: Byte, reg: Byte, value: Byte): (r: WriteResult)
    ensures r.code == Success <==> addr != 0
    ensures r.code != Success ==> r.code == ErrNotInitialized && r.writes == []
    ensures r.code == Success ==> r.writes == [Write(reg, value)]
  {
    if addr == 0 then WriteResult(ErrNotInitialized, [])
    else WriteResult(Success, [Write(reg, value)])
  }
}
