# ADXL345 accelerometer driver, modelled in Dafny

This project models the `Accelerometer` class of an Arduino driver for the ADXL345 three-axis
accelerometer on an I2C bus. The class keeps two fields: `i2cAddr_`, the bus address, which is
0 until `begin` stores one, and `sensitivity_`, the range code. Its public calls are:

- `begin` checks the device ID and writes the start-up configuration.
- `setSensitivity` selects ±2G, ±4G, ±8G or ±16G.
- `readRaw` reads the six data registers and decodes three signed 16-bit samples.
- `readGs` scales those samples by a counts-per-g divisor.
- `setOffsets` writes the three calibration offset registers.

The bus library is replaced by an abstract bus (`Bus.Bus`), which has two parts:

- a register file of 256 bytes that reads return from;
- `delivers`, the number of bytes the device hands back for the read made in this call. Fewer
  than were asked for models a short read or a failed read.

Each call that writes returns the list of register writes it issued. `Session.Run` appends these lists into
one append-only trace across a sequence of calls.

Every operation is a pure function of its inputs:

- `begin` takes the driver state and the bus. It returns the code, the new state and the writes.
- `setSensitivity` takes only the driver state, because it never reads. It returns the code, the
  new state and the writes.
- `setOffsets` takes only the driver state. It returns the code and the writes, because it never
  changes the state.
- `readRaw` and `readGs` take the driver state and the bus. They return only the code and the
  values read, because they neither change the state nor write.

The bus-level read helper `i2cReadBytes` is a method with the loop of the C++ `i2cReadBytes`. It is proved equal to a reference function, `Bus.ReadBytes`.

Files:

- `types.dfy`: `uint8_t`, `int8_t` and `int16_t` as subset types, and `Option`.
- `registers.dfy`: the header's constants. These are the bus addresses, the device ID, the error
  codes, the register map and the range codes.
- `bits.dfy`: C's `|`, `&`, `<<` and `>>` on non-negative integers, defined bit by bit, with the
  facts the driver relies on.
- `codec.dfy`: `conv2Byte2Signed16` and its inverse, the split of a sample into register bytes.
- `bus.dfy`: the abstract bus, `i2cReadBytes` and `i2cWriteByte`.
- `accelerometer.dfy`: the driver state and the five public calls.
- `session.dfy`: sequences of calls, and the invariants they keep.

Some behaviour of the code is worth knowing:

- An uninitialised `setSensitivity` returns -5, not -2. This is because the write helper reports
  -2 and `setSensitivity` maps every write failure to -5.
- An uninitialised `setOffsets` passes the helper's -2 through unchanged.
- Even on an uninitialised object, a valid range is stored before the write fails.
- A `begin` refused for a wrong ID or a failed read has still stored the address. Later calls
  therefore act as if the object were initialised (`Accelerometer.FailedBeginKeepsAddress`).

## Model

| member | source | states |
|---|---|---|
| Registers.ErrorCodesDistinctNegative | ADXL345lib.h:32-41 | the five error codes are negative and pairwise distinct, so none reads as success; the bus helper's -1 is none of them |
| Registers.ValidRangeExactly | ADXL345lib.h:59-66 | a range code is one of the four named ranges exactly when it is at most 3 |
| Registers.DataRegistersConsecutive | ADXL345lib.h:52-57 | DATAX0 to DATAZ1 are six consecutive addresses from 0x32, low byte before high byte, X then Y then Z |
| Types.Int8ByteRoundTrip | ADXL345lib.cpp:120 | passing an `int8_t` offset where a `uint8_t` is expected loses nothing: reading the byte back as two's complement gives the offset |
| Bus.DataBlockLayout | ADXL345lib.h:52-57 | one six-byte read starting at DATAX0 returns the registers DATAX0, DATAX1, DATAY0, DATAY1, DATAZ0, DATAZ1 in that order; `readRaw` relies on this |
| Codec.OrIsAddition | ADXL345lib.cpp:111-113 | OR-ing the LSB into the MSB shifted left by 8 equals LSB + 256 * MSB, because the two occupy disjoint bits |
| Codec.Conv2Byte2Signed16 | ADXL345lib.cpp:107-114 | the result is LSB + 256 * MSB, minus 65536 exactly when MSB >= 0x80; it is negative exactly then, and it lies in the int16 range |
| Codec.SplitThenCombine | ADXL345lib.h:175-186 | every int16 is recovered by combining its low and high bytes |
| Codec.CombineThenSplit | ADXL345lib.cpp:107-114 | splitting a combined value gives back both bytes, so no two byte pairs decode to the same value |
| Bus.I2cReadBytes | ADXL345lib.cpp:133-162 | address 0 gives -2; otherwise the read succeeds exactly when the device delivers at least `len` bytes, and then the data are the `len` consecutive registers from `reg`; a short read gives -1; agrees with the reference read |
| Bus.I2cWriteByte | ADXL345lib.cpp:164-182 | a write fails only on address 0, with -2 and nothing sent; otherwise it sends exactly the one (register, byte) pair |
| Accelerometer.SetSensitivity | ADXL345lib.cpp:184-199 | -6 exactly for codes outside 0..3, and then nothing changes or is written; a valid code is stored and written unmasked to DATA_FORMAT, or gives -5 with nothing written on address 0; the stored range stays valid |
| Accelerometer.Begin | ADXL345lib.cpp:18-47 | the address is always stored; success exactly when the address is non-zero, one byte arrives and DEVID reads 0xE5; otherwise -2, -4 or -3 with no writes and range unchanged; success writes BW_RATE=0x08, POWER_CTL=0x08, INT_ENABLE=0x00, DATA_FORMAT=0 in that order and sets range ±2G |
| Accelerometer.ReadRaw | ADXL345lib.cpp:90-105 | -2 on address 0 and -4 on a short read, both leaving the caller's variables unchanged; otherwise 0 with x, y, z decoded from the DATAX, DATAY, DATAZ register pairs |
| Accelerometer.ReadRawRoundTrip | ADXL345lib.cpp:95-102 | whatever sample the data registers hold, a successful read returns exactly that sample |
| Accelerometer.ReadRawReportsRegisters | ADXL345lib.cpp:95-102 | conversely, the sample a successful read returns is the one the data registers hold, byte for byte |
| Accelerometer.CountsPerG | ADXL345lib.cpp:60-81 | the divisor for a valid range is 256 >> range, which equals 256 / 2^range and which times the range in g is 512; any other stored value gives 128 |
| Accelerometer.ReadGs | ADXL345lib.cpp:49-88 | the code is readRaw's code, passed through; the output is present exactly on success, with readRaw's sample and the stored range's divisor |
| Accelerometer.SetOffsets | ADXL345lib.cpp:116-131 | on address 0 it returns -2 with nothing written; otherwise it writes OFSX, OFSY, OFSZ in that order with no defined return value; each written byte reads back as its offset |
| Accelerometer.FreshObjectRefuses | ADXL345lib.h:68-71 | on a newly constructed object (address 0, range ±2G) readRaw, readGs, setSensitivity and setOffsets all return non-zero codes and write nothing |
| Accelerometer.FailedBeginKeepsAddress | ADXL345lib.cpp:21-34 | a begin refused with a non-zero address returns -3 or -4 but leaves the address stored, after which a full read succeeds |
| Session.Step | ADXL345lib.h:72-142 | the read calls leave the object unchanged, and only begin changes the stored address |
| Session.StepInvariant | ADXL345lib.cpp:184-191 | every call keeps the stored range one of the four range codes and writes only configuration or offset registers, with a range code whenever it writes DATA_FORMAT |
| Session.RunPrefix | ADXL345lib.cpp:37-44 | a property of the trace abstraction `Session.Run`, which appends each call's writes after those of earlier calls, in the order the code issues them; so the trace and return codes of any prefix of a call sequence are prefixes of those of the whole sequence; it holds whatever the individual calls do |
| Session.RunInvariant | ADXL345lib.cpp:188-193 | from a valid state, any call sequence keeps the stored range valid and writes only known registers |
| Session.ReadGsDivisorAfterRun | ADXL345lib.cpp:62-81 | after any calls on a fresh object, readGs divides by 256 >> range for a valid range; the fallback branch is never reached |
| Session.UninitialisedRunRefuses | ADXL345lib.cpp:164-167 | until a begin with a non-zero address, every call returns a non-zero code, the address stays 0 and nothing is written |

## Left out

- The bus library calls (`begin`, `beginTransmission`, `write`, `endTransmission`, `requestFrom`, `available`, `read`) are foreign code. They are replaced by the abstract bus. `WIRE.begin()` in `begin` has no modelled effect.
- The status of `endTransmission` is ignored by the code, so a write on a non-zero address always succeeds in the model too.
- A block read that runs past register 0xFF wraps to 0x00 in the model. This is a modelling choice, and the driver never does it: it reads 1 byte at 0x00 and 6 bytes at 0x32.
- `Bus.Bus.delivers` is at most one read per call, because no call issues more than one read.
- Accelerometer.ReadGs: does not compute the floating-point quotients `raw / divisor`; only the integer divisor and the error pass-through are modelled.
- Accelerometer.SetOffsets: the return value after three successful writes is `None`. The function reaches its end without a `return`, so that value is undefined in C++.
- Bus.I2cReadBytes: its -1 is not a documented code; it is modelled only as "the read failed", which both callers turn into -4.
- Codec.Int16OfInt: the model takes the two's-complement wrapped value modulo 2^16, which is what avr-gcc produces. The C++ code does not guarantee this result:
  - On targets where `int` is 16 bits wide, such as AVR Arduino boards, `(int16_t)MSB << 8` itself overflows when MSB >= 0x80. Before C++14 this is undefined behaviour, and from C++14 it is implementation-defined.
  - On targets where `int` is 32 bits wide, the shift is exact. Storing a result of 32768 or more in an `int16_t` is then implementation-defined before C++20.
- The Arduino header selection and the `stdio` include are build plumbing with no behaviour.
- The interrupt-pin, calibration and application behaviour of the device itself are out of scope: only the driver's reads and writes are modelled.
