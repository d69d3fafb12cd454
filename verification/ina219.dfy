/**
 * INA219 current and power monitor (include/chappi_ina219.h). Its registers
 * are 16 bits wide: configuration at 0x00, shunt voltage at 0x01, bus
 * voltage at 0x02. The getters return raw codes; the model keeps them as
 * integers, before any unit scaling.
 */
module Ina219 {
  import opened Base

  const ConfigAddr: int := 0x00
  const ShuntAddr: int := 0x01
  const BusVoltageAddr: int := 0x02

  /** The configuration word with RST (bit 15) set: `value |= 0x8000`. */
  function WithReset(v: bv16): (w: bv16)
    ensures w >= 0x8000 && w & 0x7FFF == v & 0x7FFF
  {
    v | 0x8000
  }

  /**
   * The shunt-voltage code: the low 14 bits of the register. With the two
   * bits it drops it gives the register back.
   */
  function ShuntCode(v: bv16): (c: bv16)
    ensures c <= 0x3FFF
    ensures c | (v & 0xC000) == v
  {
    v & 0x3FFF
  }

  /**
   * The bus-voltage code: bits 3..15 of the register. Shifted back it gives
   * the register with its three low (status) bits cleared.
   */
  function BusCode(v: bv16): (c: bv16)
    ensures c <= 0x1FFF
    ensures c << 3 == v & 0xFFF8
  {
    (v >> 3) & 0x1FFF
  }

  /** configure(value): one write of the value to the configuration register. */
  function Configure(b: Bus, value: bv16): Done
  {
    BusWrite(b, ConfigAddr, value)
  }

  /**
   * reset(): read the configuration register into a zeroed local, set RST,
   * write it back. A read that raises ends the call before the write.
   */
  function Reset(b: Bus): Done
  {
    var g := BusRead(b, ConfigAddr, 0);
    if g.outcome.Fail? then Done(g.bus, g.outcome)
    else BusWrite(g.bus, ConfigAddr, WithReset(g.value))
  }

  /** A getter: one read into a zeroed local, decoded when the read completed. */
  function Get(b: Bus, addr: int, shunt: bool): (m: Measured)
    ensures m.code.Some? <==> m.outcome.Pass?
    ensures m.code.Some? ==> m.code.value <= if shunt then 16383 else 8191
  {
    var g := BusRead(b, addr, 0);
    var code := if shunt then ShuntCode(g.value) as nat else BusCode(g.value) as nat;
    Measured(g.bus, if g.outcome.Pass? then Some(code) else None, g.outcome)
  }

  /** get_shunt_voltage() */
  function ShuntVoltage(b: Bus): Measured
  {
    Get(b, ShuntAddr, true)
  }

  /** get_bus_voltage() */
  function BusVoltage(b: Bus): Measured
  {
    Get(b, BusVoltageAddr, false)
  }

  /**
   * The error-code overloads: `noexcept_*` around the raising form. A getter's
   * value is the uninitialised local of the helper when the call raised; the
   * model leaves it unspecified (None).
   */
  function ConfigureReport(b: Bus, value: bv16): (Bus, Reported)
  {
    var d := Configure(b, value);
    (d.bus, Catch(d.outcome))
  }

  function ResetReport(b: Bus): (Bus, Reported)
  {
    var d := Reset(b);
    (d.bus, Catch(d.outcome))
  }

  function GetReport(m: Measured): (Bus, Option<nat>, Reported)
  {
    (m.bus, m.code, Catch(m.outcome))
  }

  /** configure writes its value unchanged to 0x00, once; the overload reports the transport's code. */
  lemma ConfigureWritesValue(b: Bus, value: bv16)
    requires b.width == W16 && b.regWrite.Some?
    ensures var code := WriteCode(b, 0x00, value);
      && Configure(b, value).bus.trace == b.trace + [WriteTx(b.dev, 0x00, value, code)]
      && (Configure(b, value).outcome.Pass? <==> code == NoError)
      && ConfigureReport(b, value).1 == Reported(code)
  {
    WriteTransaction(b, ConfigAddr, value);
    FullWord(value);
  }

  /**
   * reset reads 0x00 and writes back the value read with bit 15 set and every
   * other bit kept; if the read raises, nothing is written and its code is
   * the one reported.
   */
  lemma ResetReadModifyWrite(b: Bus)
    requires b.width == W16 && Installed(b)
    ensures var g := BusRead(b, 0x00, 0);
      var d := Reset(b);
      var readCode := ReadReply(b, 0x00, 0).0;
      && g.bus.trace == b.trace + [ReadTx(b.dev, 0x00, g.value, readCode)]
      && (readCode != NoError ==> d.bus == g.bus && ResetReport(b).1 == Reported(readCode))
      && (readCode == NoError ==>
            var w := WithReset(g.value);
            var writeCode := WriteCode(g.bus, 0x00, w);
            && d.bus.trace == g.bus.trace + [WriteTx(b.dev, 0x00, w, writeCode)]
            && ResetReport(b).1 == Reported(writeCode))
  {
    var g := BusRead(b, ConfigAddr, 0);
    ReadTransaction(b, ConfigAddr, 0);
    if g.outcome.Pass? {
      WriteTransaction(g.bus, ConfigAddr, WithReset(g.value));
      FullWord(WithReset(g.value));
    }
  }

  /** get_shunt_voltage reads 0x01 once and returns its low 14 bits. */
  lemma ShuntVoltageReads(b: Bus)
    requires b.width == W16 && b.regRead.Some?
    ensures var m := ShuntVoltage(b);
      var reply := ReadReply(b, 0x01, 0);
      && m.bus.trace == b.trace + [ReadTx(b.dev, 0x01, reply.1, reply.0)]
      && (reply.0 == NoError <==> m.code.Some?)
      && (reply.0 == NoError ==> m.code == Some(ShuntCode(reply.1) as nat))
  {
    ReadTransaction(b, ShuntAddr, 0);
  }

  /** get_bus_voltage reads 0x02 once and returns bits 3..15. */
  lemma BusVoltageReads(b: Bus)
    requires b.width == W16 && b.regRead.Some?
    ensures var m := BusVoltage(b);
      var reply := ReadReply(b, 0x02, 0);
      && m.bus.trace == b.trace + [ReadTx(b.dev, 0x02, reply.1, reply.0)]
      && (reply.0 == NoError <==> m.code.Some?)
      && (reply.0 == NoError ==> m.code == Some(BusCode(reply.1) as nat))
  {
    ReadTransaction(b, BusVoltageAddr, 0);
  }
}
