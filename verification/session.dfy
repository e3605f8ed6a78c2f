/**
 * Sequences of calls on one object. Each call sees its own bus (the registers and how many bytes
 * the device delivers at that moment); the writes of all calls form one append-only trace.
 */
module Session {
  import opened Types
  import opened Registers
  import Bits
  import opened Bus
  import opened Accelerometer

  /** A public call on the object and its arguments. */
  datatype Call =
    | BeginCall(addr: Byte)
    | SetSensitivityCall(range: Byte)
    | ReadRawCall
    | ReadGsCall
    | SetOffsetsCall(x: Int8, y: Int8, z: Int8)

  /** One call's return code (`None` when none is defined), the new state and its writes. */
  datatype Outcome = Outcome(code: Option<int>, drv: Driver, writes: seq<Write>)

  /** The state after a run, the return codes in call order and the full write trace. */
  datatype History = History(drv: Driver, codes: seq<Option<int>>, trace: seq<Write>)

  /** The effect of one call; the object never changes on a read. */
  function Step(d: Driver, c: Call, bus: Bus): (o: Outcome)
    ensures !c.BeginCall? && !c.SetSensitivityCall? ==> o.drv == d
    ensures o.drv.addr == (if c.BeginCall? then c.addr else d.addr)
  {
    match c
    case BeginCall(addr) =>
      var r := Begin(d, bus, addr);
      Outcome(Some(r.code), r.drv, r.writes)
    case SetSensitivityCall(s) =>
      var r := SetSensitivity(d, s);
      Outcome(Some(r.code), r.drv, r.writes)
    case ReadRawCall =>
      Outcome(Some(ReadRaw(d, bus, Sample(0, 0, 0)).code), d, [])
    case ReadGsCall =>
      Outcome(Some(ReadGs(d, bus).code), d, [])
    case SetOffsetsCall(x, y, z) =>
      var r := SetOffsets(d, x, y, z);
      Outcome(r.code, d, r.writes)
  }

  /** Runs the calls in order; each call's writes are appended to the trace of those before it. */
  function Run(d: Driver, calls: seq<(Call, Bus)>): (h: History)
    ensures |h.codes| == |calls|
    decreases |calls|
  {
    if |calls| == 0 then History(d, [], [])
    else
      var h := Run(d, calls[..|calls| - 1]);
      var o := Step(h.drv, calls[|calls| - 1].0, calls[|calls| - 1].1);
      History(o.drv, h.codes + [o.code], h.trace + o.writes)
  }

  /** A write the driver can issue: a configuration or offset register, and only ranges to DATA_FORMAT. */
  predicate KnownWrite(w: Write)
  {
    || w.reg == RegBwRate || w.reg == RegPwCtl || w.reg == RegIntEn
    || w.reg == RegOfsX || w.reg == RegOfsY || w.reg == RegOfsZ
    || (w.reg == RegDataFormat && ValidRange(w.value))
  }

  /** Every call keeps the stored range valid and writes only known registers. */
  lemma StepInvariant(d: Driver, c: Call, bus: Bus)
    requires WellFormed(d)
    ensures WellFormed(Step(d, c, bus).drv)
    ensures forall i :: 0 <= i < |Step(d, c, bus).writes| ==> KnownWrite(Step(d, c, bus).writes[i])
  {
  }

  /** The trace is append-only: the history of a prefix of the calls is a prefix of the history. */
  lemma {:induction false} RunPrefix(d: Driver, calls: seq<(Call, Bus)>, k: nat)
    requires k <= |calls|
    ensures Run(d, calls[..k]).trace <= Run(d, calls).trace
    ensures Run(d, calls[..k]).codes <= Run(d, calls).codes
    decreases |calls|
  {
    if k < |calls| {
      var front := calls[..|calls| - 1];
      assert front[..k] == calls[..k];
      RunPrefix(d, front, k);
    } else {
      assert calls[..k] == calls;
    }
  }

  /**
   * From any well-formed state, every run keeps the stored range valid and writes only known
   * registers, with a range code whenever it writes DATA_FORMAT.
   */
  lemma {:induction false} RunInvariant(d: Driver, calls: seq<(Call, Bus)>)
    requires WellFormed(d)
    ensures WellFormed(Run(d, calls).drv)
    ensures forall i :: 0 <= i < |Run(d, calls).trace| ==> KnownWrite(Run(d, calls).trace[i])
    decreases |calls|
  {
    if |calls| > 0 {
      var front := calls[..|calls| - 1];
      RunInvariant(d, front);
      var h := Run(d, front);
      StepInvariant(h.drv, calls[|calls| - 1].0, calls[|calls| - 1].1);
    }
  }

  /**
   * After any sequence of calls on a fresh object, `readGs` divides by 256 >> range for a valid
   * range: the fallback divisor for an unknown stored value is never reached.
   */
  lemma {:induction false} ReadGsDivisorAfterRun(calls: seq<(Call, Bus)>, bus: Bus)
    ensures ValidRange(Run(Fresh, calls).drv.sensitivity)
    ensures ReadGs(Run(Fresh, calls).drv, bus).scaled.Some? ==>
              var d := Run(Fresh, calls).drv;
              ReadGs(d, bus).scaled.value.divisor == Bits.ShiftRight(256, d.sensitivity)
  {
    RunInvariant(Fresh, calls);
  }

  /** No call in the run is a `begin` with a non-zero address. */
  predicate NeverBegun(calls: seq<(Call, Bus)>)
  {
    forall i :: 0 <= i < |calls| ==> !calls[i].0.BeginCall? || calls[i].0.addr == 0
  }

  /**
   * Until `begin` stores a non-zero address, every call returns a non-zero code and nothing is
   * written to the bus.
   */
  lemma {:induction false} UninitialisedRunRefuses(d: Driver, calls: seq<(Call, Bus)>)
    requires d.addr == 0 && NeverBegun(calls)
    ensures Run(d, calls).drv.addr == 0
    ensures Run(d, calls).trace == []
    ensures forall i :: 0 <= i < |calls| ==>
              Run(d, calls).codes[i].Some? && Run(d, calls).codes[i].value != Success
    decreases |calls|
  {
    if |calls| > 0 {
      var front := calls[..|calls| - 1];
      assert NeverBegun(front) by {
        forall i | 0 <= i < |front|
          ensures !front[i].0.BeginCall? || front[i].0.addr == 0
        {
          assert front[i] == calls[i];
        }
      }
      UninitialisedRunRefuses(d, front);
    }
  }
}
