/** The constants of the ADXL345 header: bus addresses, device ID, error codes, register map, ranges. */
module Registers {
  import opened Types

  /** Bus address of the OSEPP board with its address switch ON. */
  const OseppSwitchOn: Byte := 0x53
  /** Bus address of the OSEPP board with its address switch OFF. */
  const OseppSwitchOff: Byte := 0x1D
  /** The value the DEVID register of a genuine ADXL345 holds. */
  const DeviceId: Byte := 0xE5

  /** Return code of every successful call. */
  const Success: int := 0
  /** `begin` was not called (the stored address is 0). */
  const ErrNotInitialized: int := -2
  /** The DEVID register did not hold `DeviceId`. */
  const ErrWrongDevice: int := -3
  /** Fewer bytes than requested arrived on a read. */
  const ErrI2cRead: int := -4
  /** A register write was refused. */
  const ErrI2cWrite: int := -5
  /** The range argument of `setSensitivity` is not one of the four range codes. */
  const ErrSensOutOfRange: int := -6
  /** The undocumented code of the bus read helper for a short read; callers map it to `ErrI2cRead`. */
  const ShortRead: int := -1

  /** The five documented error codes, in header order. */
  const ErrorCodes: seq<int> :=
    [ErrNotInitialized, ErrWrongDevice, ErrI2cRead, ErrI2cWrite, ErrSensOutOfRange]

  // Register map
  const RegDevId: Byte := 0x00
  const RegOfsX: Byte := 0x1E
  const RegOfsY: Byte := 0x1F
  const RegOfsZ: Byte := 0x20
  const RegBwRate: Byte := 0x2C
  const RegPwCtl: Byte := 0x2D
  const RegIntEn: Byte := 0x2E
  const RegDataFormat: Byte := 0x31
  const RegDataX0: Byte := 0x32
  const RegDataX1: Byte := 0x33
  const RegDataY0: Byte := 0x34
  const RegDataY1: Byte := 0x35
  const RegDataZ0: Byte := 0x36
  const RegDataZ1: Byte := 0x37

  /** The six data registers in the order a block read starting at `RegDataX0` returns them. */
  const DataRegisters: seq<Byte> :=
    [RegDataX0, RegDataX1, RegDataY0, RegDataY1, RegDataZ0, RegDataZ1]

  // Range codes
  const RangePm2G: Byte := 0
  const RangePm4G: Byte := 1
  const RangePm8G: Byte := 2
  const RangePm16G: Byte := 3

  /** A range code is valid when it is one of the four named ranges. */
  predicate ValidRange(s: int)
  {
    s == RangePm2G || s == RangePm4G || s == RangePm8G || s == RangePm16G
  }

  /** The full-scale range, in g, that a valid range code selects (±2G … ±16G). */
  function RangeInG(s: int): (g: nat)
    requires ValidRange(s)
    ensures g == 2 || g == 4 || g == 8 || g == 16
  {
    if s == RangePm2G then 2
    else if s == RangePm4G then 4
    else if s == RangePm8G then 8
    else 16
  }

  /** Every documented error code is negative, so none reads as success, and no two coincide. */
  lemma ErrorCodesDistinctNegative()
    ensures forall i :: 0 <= i < |ErrorCodes| ==> ErrorCodes[i] < Success
    ensures forall i, j :: 0 <= i < j < |ErrorCodes| ==> ErrorCodes[i] != ErrorCodes[j]
    ensures ShortRead < Success && ShortRead !in ErrorCodes
  {
  }

  /** The valid range codes are exactly 0 to 3: every `uint8_t` above 3 is out of range. */
  lemma ValidRangeExactly(s: Byte)
    ensures ValidRange(s) <==> s <= 3
  {
  }

  /** The data registers are consecutive, low byte before high byte, X then Y then Z. */
  lemma DataRegistersConsecutive()
    ensures forall i :: 0 <= i < |DataRegisters| ==> DataRegisters[i] == RegDataX0 + i
    ensures |DataRegisters| == 6
  {
  }
}
