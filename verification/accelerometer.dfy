/**
 * The Accelerometer class: two fields of driver state and its public operations, each a pure
 * function from the state and the bus to a return code, the new state and the writes issued.
 */
module Accelerometer {
  import opened Types
  import opened Registers
  import opened Bits
  import opened Codec
  import opened Bus

  /** The fields `i2cAddr_` (0 until `begin` stores an address) and `sensitivity_` (a range code). */
  datatype Driver = Driver(addr: Byte, sensitivity: Byte)

  /** A freshly constructed object: no address, range ±2G. */
  const Fresh: Driver := Driver(0, RangePm2G)

  /** The result of a call that returns a code and may change the state and write registers. */
  datatype Reply = Reply(code: int, drv: Driver, writes: seq<Write>)

  /** The three values `readRaw` stores through its pointer arguments. */
  datatype Sample = Sample(x: Int16, y: Int16, z: Int16)

  /** The result of `readRaw`: the code and the caller's three variables afterwards. */
  datatype RawReply = RawReply(code: int, sample: Sample)

  /** A successful `readGs`: the raw sample and the counts-per-g it is divided by. */
  datatype Scaled = Scaled(raw: Sample, divisor: nat)

  /** The result of `readGs`; `None` when the caller's variables are left untouched. */
  datatype GsReply = GsReply(code: int, scaled: Option<Scaled>)

  /**
   * The result of `setOffsets`. Its code is `None` when the function reaches its end without a
   * return statement, which leaves the value it returns undefined.
   */
  datatype OffsetsReply = OffsetsReply(code: Option<int>, writes: seq<Write>)

  /** The configuration a successful `begin` writes, in order. */
  const InitWrites: seq<Write> :=
    [Write(RegBwRate, 0x08), Write(RegPwCtl, 0x08), Write(RegIntEn, 0x00), Write(RegDataFormat, RangePm2G)]

  /** The state every reachable object keeps: its stored range is one of the four range codes. */
  predicate WellFormed(d: Driver)
  {
    ValidRange(d.sensitivity)
  }

  /**
   * setSensitivity: a code above 3 is refused before anything changes; otherwise the code is
   * stored, masked with 0x03 and written to DATA_FORMAT, and a refused write becomes
   * `ErrI2cWrite`.
   */
  function SetSensitivity(d: Driver, s: Byte): (r: Reply)
    ensures r.code == ErrSensOutOfRange <==> !ValidRange(s)
    ensures !ValidRange(s) ==> r.drv == d && r.writes == []
    ensures ValidRange(s) ==> r.drv == d.(sensitivity := s)
    ensures ValidRange(s) && d.addr != 0 ==> r.code == Success && r.writes == [Write(RegDataFormat, s)]
    ensures ValidRange(s) && d.addr == 0 ==> r.code == ErrI2cWrite && r.writes == []
    ensures WellFormed(d) ==> WellFormed(r.drv)
  {
    if s > 3 then Reply(ErrSensOutOfRange, d, [])
    else
      var d1 := d.(sensitivity := s);
      assert Pow2(2) == 4;
      BitAndMaskKeeps(s, 2);
      var w := I2cWriteByte(d1.addr, RegDataFormat, BitAnd(s, 0x03));
      if w.code != 0 then Reply(ErrI2cWrite, d1, w.writes)
      else Reply(Success, d1, w.writes)
  }

  /**
   * begin: stores the address, refuses address 0, reads DEVID and refuses a failed read or a
   * wrong ID; then configures data rate, power control and interrupts and sets range ±2G.
   */
  function Begin(d: Driver, bus: Bus, addr: Byte): (r: Reply)
    ensures r.drv.addr == addr
    ensures r.code == Success <==> addr != 0 && bus.delivers >= 1 && bus.regs[RegDevId] == DeviceId
    ensures addr == 0 ==> r.code == ErrNotInitialized
    ensures addr != 0 && bus.delivers == 0 ==> r.code == ErrI2cRead
    ensures addr != 0 && bus.delivers >= 1 && bus.regs[RegDevId] != DeviceId ==> r.code == ErrWrongDevice
    ensures r.code != Success ==> r.writes == [] && r.drv.sensitivity == d.sensitivity
    ensures r.code == Success ==> r.writes == InitWrites && r.drv.sensitivity == RangePm2G
    ensures WellFormed(d) ==> WellFormed(r.drv)
  {
    var d1 := d.(addr := addr);
    if d1.addr == 0 then Reply(ErrNotInitialized, d1, [])
    else match ReadBytes(d1.addr, bus, RegDevId, 1)
      case ReadFailed(_) => Reply(ErrI2cRead, d1, [])
      case ReadOk(id) =>
        if id[0] != DeviceId then Reply(ErrWrongDevice, d1, [])
        else
          var w1 := I2cWriteByte(d1.addr, RegBwRate, 0x08);
          var w2 := I2cWriteByte(d1.addr, RegPwCtl, 0x08);
          var w3 := I2cWriteByte(d1.addr, RegIntEn, 0x00);
          var s := SetSensitivity(d1, RangePm2G);
          Reply(Success, s.drv, w1.writes + w2.writes + w3.writes + s.writes)
  }

  /**
   * readRaw: refuses address 0, reads the six data registers in one block starting at DATAX0 and
   * decodes x, y and z from byte pairs 0-1, 2-3 and 4-5. On failure the caller's variables,
   * passed in as `prev`, are left as they were.
   */
  function ReadRaw(d: Driver, bus: Bus, prev: Sample): (r: RawReply)
    ensures d.addr == 0 ==> r == RawReply(ErrNotInitialized, prev)
    ensures d.addr != 0 && bus.delivers < 6 ==> r == RawReply(ErrI2cRead, prev)
    ensures r.code == Success <==> d.addr != 0 && bus.delivers >= 6
    ensures r.code == Success ==> r.sample == Sample(
              Conv2Byte2Signed16(bus.regs[RegDataX0], bus.regs[RegDataX1]),
              Conv2Byte2Signed16(bus.regs[RegDataY0], bus.regs[RegDataY1]),
              Conv2Byte2Signed16(bus.regs[RegDataZ0], bus.regs[RegDataZ1]))
  {
    if d.addr == 0 then RawReply(ErrNotInitialized, prev)
    else match ReadBytes(d.addr, bus, RegDataX0, 6)
      case ReadFailed(_) => RawReply(ErrI2cRead, prev)
      case ReadOk(data) =>
        DataBlockLayout(bus.regs);
        RawReply(Success, Sample(Conv2Byte2Signed16(data[0], data[1]),
                                 Conv2Byte2Signed16(data[2], data[3]),
                                 Conv2Byte2Signed16(data[4], data[5])))
  }

  /** The divisor `readGs` selects for a stored range code; any other value falls back to 128. */
  function CountsPerG(s: Byte): (c: nat)
    ensures ValidRange(s) ==> c == ShiftRight(256, s) == 256 / Pow2(s)
    ensures ValidRange(s) ==> c * RangeInG(s) == 512
    ensures !ValidRange(s) ==> c == 128
  {
    assert ShiftRight(256, 0) == 256;
    assert ShiftRight(256, 1) == 128;
    assert ShiftRight(256, 2) == 64;
    assert ShiftRight(256, 3) == 32;
    ShiftRightIsDivision(256, s);
    if s == RangePm2G then 256
    else if s == RangePm4G then 128
    else if s == RangePm8G then 64
    else if s == RangePm16G then 32
    else 128
  }

  /**
   * readGs: passes any error of readRaw through unchanged; otherwise divides each raw value by
   * the counts-per-g of the stored range. Only the divisor is modelled, not the division.
   */
  function ReadGs(d: Driver, bus: Bus): (r: GsReply)
    ensures r.code == ReadRaw(d, bus, Sample(0, 0, 0)).code
    ensures r.scaled.None? <==> r.code != Success
    ensures r.scaled.Some? ==> r.scaled.value.raw == ReadRaw(d, bus, Sample(0, 0, 0)).sample
    ensures r.scaled.Some? ==> r.scaled.value.divisor == CountsPerG(d.sensitivity)
  {
    var raw := ReadRaw(d, bus, Sample(0, 0, 0));
    if raw.code != 0 then GsReply(raw.code, None)
    else GsReply(Success, Some(Scaled(raw.sample, CountsPerG(d.sensitivity))))
  }

  /**
   * setOffsets: writes OFSX, OFSY and OFSZ in that order and returns the first write's error;
   * when all three writes succeed no value is returned.
   */
  function SetOffsets(d: Driver, x: Int8, y: Int8, z: Int8): (r: OffsetsReply)
    ensures d.addr == 0 ==> r == OffsetsReply(Some(ErrNotInitialized), [])
    ensures d.addr != 0 ==> r.code == None
    ensures d.addr != 0 ==>
              r.writes == [Write(RegOfsX, ByteOfInt8(x)), Write(RegOfsY, ByteOfInt8(y)), Write(RegOfsZ, ByteOfInt8(z))]
    ensures forall i :: 0 <= i < |r.writes| ==> Int8OfByte(r.writes[i].value) == [x, y, z][i]
  {
    var wx := I2cWriteByte(d.addr, RegOfsX, ByteOfInt8(x));
    if wx.code != 0 then OffsetsReply(Some(wx.code), wx.writes)
    else
      var wy := I2cWriteByte(d.addr, RegOfsY, ByteOfInt8(y));
      if wy.code != 0 then OffsetsReply(Some(wy.code), wx.writes + wy.writes)
      else
        var wz := I2cWriteByte(d.addr, RegOfsZ, ByteOfInt8(z));
        if wz.code != 0 then OffsetsReply(Some(wz.code), wx.writes + wy.writes + wz.writes)
        else OffsetsReply(None, wx.writes + wy.writes + wz.writes)
  }

  /** The data registers hold sample `s` as the device stores it: low byte first, X, Y, Z. */
  predicate RegistersHold(regs: RegisterFile, s: Sample)
  {
    && regs[RegDataX0] == LowByte(s.x) && regs[RegDataX1] == HighByte(s.x)
    && regs[RegDataY0] == LowByte(s.y) && regs[RegDataY1] == HighByte(s.y)
    && regs[RegDataZ0] == LowByte(s.z) && regs[RegDataZ1] == HighByte(s.z)
  }

  /** Whatever sample the device stores, one successful `readRaw` returns exactly that sample. */
  lemma ReadRawRoundTrip(d: Driver, bus: Bus, prev: Sample, s: Sample)
    requires d.addr != 0 && bus.delivers >= 6
    requires RegistersHold(bus.regs, s)
    ensures ReadRaw(d, bus, prev) == RawReply(Success, s)
  {
    SplitThenCombine(s.x);
    SplitThenCombine(s.y);
    SplitThenCombine(s.z);
  }

  /** Conversely, a successful `readRaw` returns the sample the data registers hold. */
  lemma ReadRawReportsRegisters(d: Driver, bus: Bus, prev: Sample)
    requires d.addr != 0 && bus.delivers >= 6
    ensures ReadRaw(d, bus, prev).code == Success
    ensures RegistersHold(bus.regs, ReadRaw(d, bus, prev).sample)
  {
    var regs := bus.regs;
    CombineThenSplit(regs[RegDataX0], regs[RegDataX1]);
    CombineThenSplit(regs[RegDataY0], regs[RegDataY1]);
    CombineThenSplit(regs[RegDataZ0], regs[RegDataZ1]);
  }

  /**
   * `begin` must come first: on a freshly constructed object every other public call returns a
   * non-zero code and writes nothing.
   */
  lemma FreshObjectRefuses(bus: Bus, prev: Sample, s: Byte, x: Int8, y: Int8, z: Int8)
    ensures Fresh.sensitivity == RangePm2G && WellFormed(Fresh)
    ensures ReadRaw(Fresh, bus, prev) == RawReply(ErrNotInitialized, prev)
    ensures ReadGs(Fresh, bus) == GsReply(ErrNotInitialized, None)
    ensures SetSensitivity(Fresh, s).code != Success && SetSensitivity(Fresh, s).writes == []
    ensures SetOffsets(Fresh, x, y, z) == OffsetsReply(Some(ErrNotInitialized), [])
  {
  }

  /**
   * A `begin` refused for a wrong device ID or a failed read has still stored the address, so
   * later calls no longer report `ErrNotInitialized`: a full read then succeeds.
   */
  lemma FailedBeginKeepsAddress(d: Driver, bus: Bus, addr: Byte, later: Bus, prev: Sample)
    requires addr != 0 && Begin(d, bus, addr).code != Success
    requires later.delivers >= 6
    ensures Begin(d, bus, addr).code == ErrWrongDevice || Begin(d, bus, addr).code == ErrI2cRead
    ensures ReadRaw(Begin(d, bus, addr).drv, later, prev).code == Success
  {
  }
}
