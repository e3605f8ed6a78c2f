/** Fixed-width integer types of the driver and a small Option wrapper. */
module Types {

  /** A C `uint8_t`: a register address, a register value, an I2C address. */
  type Byte = x: int | 0 <= x < 0x100

  /** A C `int8_t`: a calibration offset. */
  type Int8 = x: int | -0x80 <= x < 0x80

  /** A C `int16_t`: one raw acceleration sample. */
  type Int16 = x: int | -0x8000 <= x < 0x8000

  datatype Option<+T> = None | Some(value: T)

  /** The implicit C conversion of an `int8_t` to `uint8_t`: two's complement, modulo 256. */
  function ByteOfInt8(v: Int8): (b: Byte)
    ensures b % 0x80 == v % 0x80
    ensures (b >= 0x80) == (v < 0)
  {
    if v < 0 then v + 0x100 else v
  }

  /** Reads a byte back as a two's-complement `int8_t`. */
  function Int8OfByte(b: Byte): (v: Int8)
    ensures ByteOfInt8(v) == b
  {
    if b >= 0x80 then b - 0x100 else b
  }

  /** The conversion to `uint8_t` loses nothing: it is inverted by `Int8OfByte`. */
  lemma Int8ByteRoundTrip(v: Int8)
    ensures Int8OfByte(ByteOfInt8(v)) == v
  {
  }
}
