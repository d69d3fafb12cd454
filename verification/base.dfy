/**
 * The framework every driver shares: the injected transport, the fault a
 * failed transaction raises, the raising and the error-code call forms, the
 * `noexcept_*` helpers and the chip's printable name
 * (include/chappi_base.h, include/chappi_except.h).
 *
 * The transport functions are oracles: a deterministic function of the
 * transactions issued so far, the device address, the register address and
 * the value (for a read: the value the destination held before the call).
 * Every call is recorded in a trace, so a contract can say which bus
 * transactions an operation issued, in which order, and what came back.
 */
module Base {

  /** ErrorType is fixed to int and NoerrorValue to 0. */
  const NoError: int := 0

  /** addr_type and dev_addr_type are uint8_t in every driver. */
  type Addr = x: int | 0 <= x < 0x100

  /** The driver's value_type: uint8_t or uint16_t. Values travel as bv16. */
  datatype Width = W8 | W16 {
    function Mask(): bv16 {
      if W8? then 0xFF else 0xFFFF
    }
  }

  /** One call into the transport: what was passed and the code it returned. */
  datatype Tx =
    | WriteTx(dev: Addr, addr: Addr, value: bv16, code: int)
    | ReadTx(dev: Addr, addr: Addr, value: bv16, code: int)  // value: what the destination holds afterwards

  /** reg_write_fn: (history, device, register, value) -> error code. */
  type WriteFn = (seq<Tx>, Addr, Addr, bv16) -> int
  /** reg_read_fn: (history, device, register, destination) -> (error code, destination afterwards). */
  type ReadFn = (seq<Tx>, Addr, Addr, bv16) -> (int, bv16)

  datatype Option<T> = None | Some(value: T)

  /**
   * What an operation can raise: runtime_error<ErrorType> carrying the
   * transport's code; std::bad_function_call when the transport was never
   * installed (an empty std::function); a std::runtime_error without a code
   * (Si57x's "can't calculate parameters").
   */
  datatype Fault = BusError(code: int) | NoTransport | Unsolvable

  datatype Outcome = Pass | Fail(fault: Fault)
  datatype Result<T> = Ok(value: T) | Err(fault: Fault)

  /** What an error-code overload leaves in its `error` out-parameter, unless the process terminates. */
  datatype Reported = Reported(error: int) | Terminated

  /** A uint8_t register byte as a bus value, and a bus value as the byte it is stored in. */
  function ToBus(b: bv8): bv16 {
    b as bv16
  }

  function FromBus(v: bv16): bv8 {
    (v & 0xFF) as bv8
  }

  /** A uint16_t value passes through a 16-bit bus unchanged, and a byte through an 8-bit one. */
  lemma FullWord(v: bv16)
    ensures v & W16.Mask() == v
  {
  }

  lemma FullByte(b: bv8)
    ensures ToBus(b) & W8.Mask() == ToBus(b)
    ensures FromBus(ToBus(b)) == b
  {
  }

  /** The part of chip_base the transactions depend on, plus the trace of transactions so far. */
  datatype Bus = Bus(width: Width, dev: Addr, regRead: Option<ReadFn>, regWrite: Option<WriteFn>, trace: seq<Tx>)

  datatype Done = Done(bus: Bus, outcome: Outcome)
  datatype Got = Got(bus: Bus, value: bv16, outcome: Outcome)
  datatype Run = Run(bus: Bus, done: nat, outcome: Outcome)

  predicate Installed(b: Bus) {
    b.regRead.Some? && b.regWrite.Some?
  }

  /** The code a write transaction returns, given what it is called with. */
  function WriteCode(b: Bus, addr: int, value: bv16): int
    requires b.regWrite.Some?
  {
    b.regWrite.value(b.trace, b.dev, addr % 0x100, value & b.width.Mask())
  }

  /** chip_base::write(addr, value): one transaction; raises iff the code differs from NoError. */
  function BusWrite(b: Bus, addr: int, value: bv16): (d: Done)
    ensures d.bus.width == b.width && d.bus.dev == b.dev
    ensures d.bus.regRead == b.regRead && d.bus.regWrite == b.regWrite
  {
    match b.regWrite
    case None => Done(b, Fail(NoTransport))
    case Some(f) =>
      var a, v := addr % 0x100, value & b.width.Mask();
      var code := f(b.trace, b.dev, a, v);
      var b' := b.(trace := b.trace + [WriteTx(b.dev, a, v, code)]);
      if code != NoError then Done(b', Fail(BusError(code))) else Done(b', Pass)
  }

  /**
   * chip_base::read(addr, value): one transaction; the destination keeps
   * whatever the transport left in it, then a code other than NoError raises.
   */
  function BusRead(b: Bus, addr: int, dest: bv16): (g: Got)
    ensures g.bus.width == b.width && g.bus.dev == b.dev
    ensures g.bus.regRead == b.regRead && g.bus.regWrite == b.regWrite
    ensures g.value & b.width.Mask() == g.value
  {
    if b.regRead.None? then Got(b, dest & b.width.Mask(), Fail(NoTransport))
    else
      var reply := ReadReply(b, addr, dest);
      var code, v' := reply.0, reply.1 & b.width.Mask();
      var b' := b.(trace := b.trace + [ReadTx(b.dev, addr % 0x100, v', code)]);
      if code != NoError then Got(b', v', Fail(BusError(code))) else Got(b', v', Pass)
  }

  /** The code and the destination a read transaction leaves, given what it is called with. */
  function ReadReply(b: Bus, addr: int, dest: bv16): (int, bv16)
    requires b.regRead.Some?
  {
    b.regRead.value(b.trace, b.dev, addr % 0x100, dest & b.width.Mask())
  }

  /** The non-raising write(addr, value, error): the code comes back verbatim. */
  function BusWriteReport(b: Bus, addr: int, value: bv16): (r: (Bus, Reported))
  {
    if b.regWrite.None? then (b, Terminated)
    else (BusWrite(b, addr, value).bus, Reported(WriteCode(b, addr, value)))
  }

  /** The non-raising read(addr, value, error). */
  function BusReadReport(b: Bus, addr: int, dest: bv16): (r: (Bus, bv16, Reported))
  {
    if b.regRead.None? then (b, dest, Terminated)
    else
      var g := BusRead(b, addr, dest);
      (g.bus, g.value, Reported(ReadReply(b, addr, dest).0))
  }

  /**
   * The try/catch of every `helpers::noexcept_*` function: NoError when the
   * wrapped call completes, the carried code when it raised
   * runtime_error<ErrorType>; any other exception leaves a noexcept function,
   * which terminates the process. The bus effects are those of the wrapped
   * call: nothing is undone.
   */
  function Catch(o: Outcome): Reported {
    match o
    case Pass => Reported(NoError)
    case Fail(BusError(code)) => Reported(code)
    case Fail(_) => Terminated
  }

  lemma WriteTransaction(b: Bus, addr: int, value: bv16)
    requires b.regWrite.Some?
    ensures var d := BusWrite(b, addr, value);
      && d.bus == b.(trace := b.trace + [WriteTx(b.dev, addr % 0x100, value & b.width.Mask(), WriteCode(b, addr, value))])
      && (d.outcome.Fail? <==> WriteCode(b, addr, value) != NoError)
      && (d.outcome.Fail? ==> d.outcome.fault == BusError(WriteCode(b, addr, value)))
  {
  }

  /**
   * A single raising write whose error-code form is reported: one transaction
   * to the bus's device carrying the value unchanged, completing exactly when
   * the code is NoError, and the code reported verbatim.
   */
  ghost predicate WroteOnce(b: Bus, d: Done, report: Reported, addr: Addr, value: bv16)
    requires b.regWrite.Some?
  {
    var code := WriteCode(b, addr, value);
    && d.bus.trace == b.trace + [WriteTx(b.dev, addr, value, code)]
    && (d.outcome.Pass? <==> code == NoError)
    && report == Reported(code)
  }

  lemma WriteOnce(b: Bus, addr: Addr, value: bv16)
    requires b.regWrite.Some? && value & b.width.Mask() == value
    ensures var d := BusWrite(b, addr, value);
      WroteOnce(b, d, Catch(d.outcome), addr, value)
  {
    WriteTransaction(b, addr, value);
  }

  lemma ReadTransaction(b: Bus, addr: int, dest: bv16)
    requires b.regRead.Some?
    ensures var g := BusRead(b, addr, dest);
      var code := ReadReply(b, addr, dest).0;
      && g.value == ReadReply(b, addr, dest).1 & b.width.Mask()
      && g.bus == b.(trace := b.trace + [ReadTx(b.dev, addr % 0x100, g.value, code)])
      && (g.outcome.Fail? <==> code != NoError)
      && (g.outcome.Fail? ==> g.outcome.fault == BusError(code))
  {
    ReadTransactionBus(b, addr, dest);
    ReadTransactionOutcome(b, addr, dest);
  }

  lemma ReadTransactionBus(b: Bus, addr: int, dest: bv16)
    requires b.regRead.Some?
    ensures var g := BusRead(b, addr, dest);
      && g.value == ReadReply(b, addr, dest).1 & b.width.Mask()
      && g.bus == b.(trace := b.trace + [ReadTx(b.dev, addr % 0x100, g.value, ReadReply(b, addr, dest).0)])
  {
  }

  lemma ReadTransactionOutcome(b: Bus, addr: int, dest: bv16)
    requires b.regRead.Some?
    ensures var g := BusRead(b, addr, dest);
      var code := ReadReply(b, addr, dest).0;
      && (g.outcome.Fail? <==> code != NoError)
      && (g.outcome.Fail? ==> g.outcome.fault == BusError(code))
  {
  }

  /** The non-raising overloads report the code verbatim and agree with the raising form caught. */
  lemma ReportAgreesWithCatch(b: Bus, addr: int, value: bv16)
    requires Installed(b)
    ensures BusWriteReport(b, addr, value).1 == Reported(WriteCode(b, addr, value))
    ensures BusWriteReport(b, addr, value).0 == BusWrite(b, addr, value).bus
    ensures Catch(BusWrite(b, addr, value).outcome) == BusWriteReport(b, addr, value).1
    ensures BusReadReport(b, addr, value).0 == BusRead(b, addr, value).bus
    ensures BusReadReport(b, addr, value).2 == Reported(ReadReply(b, addr, value).0)
    ensures Catch(BusRead(b, addr, value).outcome) == BusReadReport(b, addr, value).2
  {
  }

  /** An error-code overload reports NoError exactly when the raising form completes. */
  lemma CatchReportsNoErrorIffPass(o: Outcome)
    requires o.Fail? && o.fault.BusError? ==> o.fault.code != NoError
    ensures Catch(o) == Reported(NoError) <==> o.Pass?
    ensures o.Fail? && o.fault.BusError? ==> Catch(o) == Reported(o.fault.code)
    ensures o.Fail? && !o.fault.BusError? ==> Catch(o) == Terminated
  {
  }

  /**
   * A sequence of raising writes, as straight-line code or a loop issues them:
   * the first fault ends it. `done` counts the writes that completed.
   */
  function WriteAll(b: Bus, plan: seq<(int, bv16)>): (r: Run)
    ensures r.done <= |plan|
    ensures r.outcome.Pass? ==> r.done == |plan|
    ensures r.bus.width == b.width && r.bus.dev == b.dev
    ensures r.bus.regRead == b.regRead && r.bus.regWrite == b.regWrite
    decreases |plan|
  {
    if plan == [] then Run(b, 0, Pass)
    else
      var prior := WriteAll(b, plan[..|plan| - 1]);
      if prior.outcome.Fail? then prior
      else
        var d := BusWrite(prior.bus, plan[|plan| - 1].0, plan[|plan| - 1].1);
        Run(d.bus, if d.outcome.Pass? then prior.done + 1 else prior.done, d.outcome)
  }

  /** One more step of a loop of writes whose earlier writes all completed. */
  lemma WriteAllStep(b: Bus, plan: seq<(int, bv16)>, i: nat)
    requires i < |plan|
    requires WriteAll(b, plan[..i]).outcome.Pass?
    ensures var d := BusWrite(WriteAll(b, plan[..i]).bus, plan[i].0, plan[i].1);
      && WriteAll(b, plan[..i + 1]).bus == d.bus
      && WriteAll(b, plan[..i + 1]).outcome == d.outcome
      && WriteAll(b, plan[..i + 1]).done == if d.outcome.Pass? then i + 1 else i
  {
    assert plan[..i + 1][..i] == plan[..i];
  }

  /** Once a write has failed, the rest of the plan is not issued. */
  lemma {:induction false} WriteAllStops(b: Bus, plan: seq<(int, bv16)>, k: nat)
    requires k <= |plan|
    requires WriteAll(b, plan[..k]).outcome.Fail?
    ensures WriteAll(b, plan) == WriteAll(b, plan[..k])
    decreases |plan| - k
  {
    if k < |plan| {
      var next := plan[..k + 1];
      assert next[..k] == plan[..k];
      WriteAllStops(b, plan, k + 1);
    } else {
      assert plan[..k] == plan;
    }
  }

  /** A recorded write is the planned one: same device, register and (truncated) value. */
  predicate IsWrite(tx: Tx, b: Bus, step: (int, bv16))
  {
    tx.WriteTx? && tx.dev == b.dev && tx.addr == step.0 % 0x100 && tx.value == step.1 & b.width.Mask()
  }

  /** How a run of `done` completed steps, ended by `outcome`, extends a trace. */
  ghost predicate Extends(before: seq<Tx>, after: seq<Tx>, done: nat, outcome: Outcome)
  {
    && |before| <= |after|
    && after[..|before|] == before
    && |after| - |before| == done + (if outcome.Fail? && outcome.fault.BusError? then 1 else 0)
    && (forall i :: |before| <= i < |after| ==> (after[i].code == NoError <==> i < |before| + done))
    && (outcome.Fail? && outcome.fault.BusError? ==> outcome.fault.code != NoError)
  }

  /** Two sequences of writes issued one after the other: the second starts only if the first completed. */
  lemma {:induction false} WriteAllConcat(b: Bus, p: seq<(int, bv16)>, q: seq<(int, bv16)>)
    ensures var first := WriteAll(b, p);
      var second := WriteAll(first.bus, q);
      WriteAll(b, p + q) == if first.outcome.Fail? then first else Run(second.bus, first.done + second.done, second.outcome)
    decreases |q|
  {
    if q == [] {
      assert p + q == p;
    } else {
      var n := |q| - 1;
      WriteAllConcat(b, p, q[..n]);
      assert (p + q)[..|p + q| - 1] == p + q[..n];
      assert (p + q)[|p + q| - 1] == q[n];
    }
  }

  /** A single write, as a sequence of one. */
  lemma WriteAllSingle(b: Bus, step: (int, bv16))
    ensures var d := BusWrite(b, step.0, step.1);
      WriteAll(b, [step]) == Run(d.bus, if d.outcome.Pass? then 1 else 0, d.outcome)
  {
    assert [step][..0] == [];
  }

  /** The transactions a sequence of writes adds to the trace. */
  ghost predicate WroteAll(b: Bus, plan: seq<(int, bv16)>, r: Run)
  {
    && Extends(b.trace, r.bus.trace, r.done, r.outcome)
    && |r.bus.trace| - |b.trace| <= |plan|
    && forall i :: |b.trace| <= i < |r.bus.trace| ==> IsWrite(r.bus.trace[i], b, plan[i - |b.trace|])
  }

  /**
   * A sequence of writes issues the planned writes in order, each to the
   * bus's device, until the first one whose code is not NoError; that one is
   * the last, and it is the fault the sequence raises.
   */
  lemma {:induction false} WriteAllTrace(b: Bus, plan: seq<(int, bv16)>)
    ensures WroteAll(b, plan, WriteAll(b, plan))
    decreases |plan|
  {
    if plan != [] {
      var n := |plan| - 1;
      var prefix := plan[..n];
      WriteAllTrace(b, prefix);
      var prior := WriteAll(b, prefix);
      var r := WriteAll(b, plan);
      if prior.outcome.Pass? && prior.bus.regWrite.Some? {
        WriteTransaction(prior.bus, plan[n].0, plan[n].1);
        assert r.bus.trace == prior.bus.trace + [r.bus.trace[|r.bus.trace| - 1]];
        forall i | |b.trace| <= i < |r.bus.trace|
          ensures IsWrite(r.bus.trace[i], b, plan[i - |b.trace|])
        {
          if i < |prior.bus.trace| {
            assert plan[i - |b.trace|] == prefix[i - |b.trace|];
          }
        }
      }
    }
  }

  /** A run of reads, and the values they left, one per read issued. */
  datatype Reads = Reads(run: Run, values: seq<bv16>)

  /**
   * A sequence of raising reads, each into a destination that starts at 0
   * (the zero-initialised locals of the drivers); the first fault ends it.
   */
  function ReadAll(b: Bus, addrs: seq<int>): (r: Reads)
    ensures r.run.done <= |addrs| && |r.values| <= |addrs|
    ensures r.run.outcome.Pass? ==> r.run.done == |addrs| && |r.values| == |addrs|
    ensures r.run.bus.width == b.width && r.run.bus.dev == b.dev
    ensures r.run.bus.regRead == b.regRead && r.run.bus.regWrite == b.regWrite
    decreases |addrs|
  {
    if addrs == [] then Reads(Run(b, 0, Pass), [])
    else
      var prior := ReadAll(b, addrs[..|addrs| - 1]);
      if prior.run.outcome.Fail? then prior
      else
        var g := BusRead(prior.run.bus, addrs[|addrs| - 1], 0);
        Reads(Run(g.bus, if g.outcome.Pass? then prior.run.done + 1 else prior.run.done, g.outcome),
              prior.values + [g.value])
  }

  lemma ReadAllStep(b: Bus, addrs: seq<int>, i: nat)
    requires i < |addrs|
    requires ReadAll(b, addrs[..i]).run.outcome.Pass?
    ensures var g := BusRead(ReadAll(b, addrs[..i]).run.bus, addrs[i], 0);
      && ReadAll(b, addrs[..i + 1]).run.bus == g.bus
      && ReadAll(b, addrs[..i + 1]).run.outcome == g.outcome
      && ReadAll(b, addrs[..i + 1]).values == ReadAll(b, addrs[..i]).values + [g.value]
      && ReadAll(b, addrs[..i + 1]).run.done == if g.outcome.Pass? then i + 1 else i
  {
    assert addrs[..i + 1][..i] == addrs[..i];
  }

  /** Once a read has failed, the rest of the plan is not issued. */
  lemma {:induction false} ReadAllStops(b: Bus, addrs: seq<int>, k: nat)
    requires k <= |addrs|
    requires ReadAll(b, addrs[..k]).run.outcome.Fail?
    ensures ReadAll(b, addrs) == ReadAll(b, addrs[..k])
    decreases |addrs| - k
  {
    if k < |addrs| {
      var next := addrs[..k + 1];
      assert next[..k] == addrs[..k];
      ReadAllStops(b, addrs, k + 1);
    } else {
      assert addrs[..k] == addrs;
    }
  }

  /** Two sequences of reads issued one after the other: the second starts only if the first completed. */
  lemma {:induction false} ReadAllConcat(b: Bus, p: seq<int>, q: seq<int>)
    ensures var first := ReadAll(b, p);
      var second := ReadAll(first.run.bus, q);
      ReadAll(b, p + q) == if first.run.outcome.Fail? then first
        else Reads(Run(second.run.bus, first.run.done + second.run.done, second.run.outcome), first.values + second.values)
    decreases |q|
  {
    if q == [] {
      assert p + q == p;
    } else {
      var n := |q| - 1;
      ReadAllConcat(b, p, q[..n]);
      assert (p + q)[..|p + q| - 1] == p + q[..n];
      assert (p + q)[|p + q| - 1] == q[n];
      var first := ReadAll(b, p);
      var mid := ReadAll(first.run.bus, q[..n]);
      if first.run.outcome.Pass? && mid.run.outcome.Pass? {
        assert first.values + (mid.values + [BusRead(mid.run.bus, q[n], 0).value])
          == (first.values + mid.values) + [BusRead(mid.run.bus, q[n], 0).value];
      }
    }
  }

  /** A value decoded from what a read left, present only when the read completed. */
  datatype Measured = Measured(bus: Bus, code: Option<nat>, outcome: Outcome)

  /** A recorded read is the planned one, and it left the value returned for it. */
  predicate IsRead(tx: Tx, b: Bus, addr: int, value: bv16)
  {
    tx.ReadTx? && tx.dev == b.dev && tx.addr == addr % 0x100 && tx.value == value
  }

  /**
   * A sequence of reads issues the planned reads in order, to the bus's
   * device, until the first one whose code is not NoError; the values
   * returned are the values those reads left.
   */
  lemma {:induction false} ReadAllTrace(b: Bus, addrs: seq<int>)
    ensures var r := ReadAll(b, addrs);
      && Extends(b.trace, r.run.bus.trace, r.run.done, r.run.outcome)
      && |r.run.bus.trace| - |b.trace| <= |r.values|
      && forall i :: |b.trace| <= i < |r.run.bus.trace| ==>
           IsRead(r.run.bus.trace[i], b, addrs[i - |b.trace|], r.values[i - |b.trace|])
    decreases |addrs|
  {
    if addrs != [] {
      var n := |addrs| - 1;
      var prefix := addrs[..n];
      ReadAllTrace(b, prefix);
      var prior := ReadAll(b, prefix);
      var r := ReadAll(b, addrs);
      if prior.run.outcome.Pass? && prior.run.bus.regRead.Some? {
        ReadTransaction(prior.run.bus, addrs[n], 0);
        assert r.run.bus.trace == prior.run.bus.trace + [r.run.bus.trace[|r.run.bus.trace| - 1]];
        forall i | |b.trace| <= i < |r.run.bus.trace|
          ensures IsRead(r.run.bus.trace[i], b, addrs[i - |b.trace|], r.values[i - |b.trace|])
        {
          if i < |prior.run.bus.trace| {
            assert addrs[i - |b.trace|] == prefix[i - |b.trace|];
          }
        }
      }
    }
  }

  /**
   * chip_base: the transport and the device address, replaceable at run
   * time, and the trace of the transactions issued through them.
   */
  class ChipBase {
    const width: Width
    var devAddr: Addr
    var regRead: Option<ReadFn>
    var regWrite: Option<WriteFn>
    var trace: seq<Tx>

    function State(): Bus
      reads this
    {
      Bus(width, devAddr, regRead, regWrite, trace)
    }

    /** The protected constructor; an empty std::function is None. */
    constructor (width: Width, regRead: Option<ReadFn>, regWrite: Option<WriteFn>, devAddr: Addr)
      ensures State() == Bus(width, devAddr, regRead, regWrite, [])
    {
      this.width := width;
      this.devAddr := devAddr;
      this.regRead := regRead;
      this.regWrite := regWrite;
      this.trace := [];
    }

    method Write(addr: int, value: bv16) returns (o: Outcome)
      modifies this`trace
      ensures BusWrite(old(State()), addr, value) == Done(State(), o)
    {
      var d := BusWrite(State(), addr, value);
      trace := d.bus.trace;
      o := d.outcome;
    }

    method Read(addr: int, dest: bv16) returns (value: bv16, o: Outcome)
      modifies this`trace
      ensures BusRead(old(State()), addr, dest) == Got(State(), value, o)
    {
      var g := BusRead(State(), addr, dest);
      trace := g.bus.trace;
      value, o := g.value, g.outcome;
    }

    method WriteReport(addr: int, value: bv16) returns (error: Reported)
      modifies this`trace
      ensures BusWriteReport(old(State()), addr, value) == (State(), error)
    {
      var r := BusWriteReport(State(), addr, value);
      trace := r.0.trace;
      error := r.1;
    }

    method ReadReport(addr: int, dest: bv16) returns (value: bv16, error: Reported)
      modifies this`trace
      ensures BusReadReport(old(State()), addr, dest) == (State(), value, error)
    {
      var r := BusReadReport(State(), addr, dest);
      trace := r.0.trace;
      value, error := r.1, r.2;
    }

    /** setup_io: both transport functions and the device address are replaced. */
    method SetupIo(regRead: Option<ReadFn>, regWrite: Option<WriteFn>, devAddr: Addr)
      modifies this
      ensures State() == old(State()).(regRead := regRead, regWrite := regWrite, dev := devAddr)
    {
      this.regRead := regRead;
      this.regWrite := regWrite;
      this.devAddr := devAddr;
    }

    method SetDevAddr(devAddr: Addr)
      modifies this`devAddr
      ensures State() == old(State()).(dev := devAddr)
      ensures GetDevAddr() == devAddr
    {
      this.devAddr := devAddr;
    }

    function GetDevAddr(): Addr
      reads this
    {
      devAddr
    }
  }

  /** std::to_string of a non-negative int. */
  function Decimal(n: nat): (s: string)
    ensures |s| >= 1 && forall i :: 0 <= i < |s| ==> '0' <= s[i] <= '9'
  {
    if n < 10 then [Digit(n)] else Decimal(n / 10) + [Digit(n % 10)]
  }

  function Digit(d: nat): char
    requires d < 10
  {
    "0123456789"[d]
  }

  function DigitValue(c: char): nat
  {
    if '0' <= c <= '9' then c as nat - '0' as nat else 0
  }

  function ParseDecimal(s: string): nat
  {
    if s == [] then 0 else 10 * ParseDecimal(s[..|s| - 1]) + DigitValue(s[|s| - 1])
  }

  /** std::to_string(int): a minus sign before the magnitude of a negative number. */
  function IntToString(n: int): (s: string)
  {
    if n < 0 then "-" + Decimal(-n) else Decimal(n)
  }

  lemma {:induction false} DecimalRoundTrip(n: nat)
    ensures ParseDecimal(Decimal(n)) == n
    ensures Decimal(n)[0] != '0' || n == 0
    decreases n
  {
    if n >= 10 {
      DecimalRoundTrip(n / 10);
      DigitRoundTrip(n % 10);
      var s := Decimal(n);
      assert s[..|s| - 1] == Decimal(n / 10);
      assert s[|s| - 1] == Digit(n % 10);
    } else {
      DigitRoundTrip(n);
    }
  }

  lemma DigitRoundTrip(d: nat)
    requires d < 10
    ensures DigitValue(Digit(d)) == d
    ensures Digit(d) == '0' <==> d == 0
  {
  }

  /**
   * chip_base::get_name(chip_name, count): the chip name, a dash and the
   * instance number in decimal; `count` is not used.
   */
  function Name(chipName: string, num: int, count: int): (r: string)
    ensures |r| > |chipName| + 1
    ensures r[..|chipName| + 1] == chipName + "-"
  {
    chipName + "-" + IntToString(num)
  }

  lemma NameRecoversNumber(chipName: string, num: int, count: int)
    ensures var tail := Name(chipName, num, count)[|chipName| + 1..];
      if num < 0 then tail[0] == '-' && ParseDecimal(tail[1..]) == -num
      else ParseDecimal(tail) == num
    ensures Name(chipName, num, count) == Name(chipName, num, 0)
  {
    var tail := Name(chipName, num, count)[|chipName| + 1..];
    NameTail(chipName, num, count);
    if num < 0 {
      var digits := Decimal(-num);
      assert tail == "-" + digits;
      assert tail[1..] == digits;
      DecimalRoundTrip(-num);
    } else {
      DecimalRoundTrip(num);
    }
  }

  lemma NameTail(chipName: string, num: int, count: int)
    ensures Name(chipName, num, count)[|chipName| + 1..] == IntToString(num)
  {
    var prefix := chipName + "-";
    assert Name(chipName, num, count) == prefix + IntToString(num);
  }
}
