/**
 * TCA6424 24-bit I/O expander (include/chappi_tca6424.h). Its registers are
 * bytes, one per 8-bit port. The output registers start at 0x04 and the
 * configuration (direction) registers at 0x0C, one register per port.
 */
module Tca6424 {
  import opened Base

  /** tca6424_port: _0, _1, _2. */
  datatype Port = P0 | P1 | P2 {
    /** static_cast<int>(port) */
    function Index(): (i: nat)
      ensures i < 3
    {
      match this
      case P0 => 0
      case P1 => 1
      case P2 => 2
    }
  }

  /** tca6424_port_data */
  datatype PortData = PortData(port: Port, value: bv8)

  const OutputBase: int := 0x04
  const ConfigBase: int := 0x0C

  function OutputAddr(p: Port): (a: int)
    ensures 0x04 <= a <= 0x06
  {
    OutputBase + p.Index()
  }

  function ConfigAddr(p: Port): (a: int)
    ensures 0x0C <= a <= 0x0E
  {
    ConfigBase + p.Index()
  }

  /** Each port has its own output and configuration register, and the two ranges do not meet. */
  lemma AddressesDistinct(p: Port, q: Port)
    ensures OutputAddr(p) == OutputAddr(q) <==> p == q
    ensures ConfigAddr(p) == ConfigAddr(q) <==> p == q
    ensures OutputAddr(p) != ConfigAddr(q)
  {
  }

  /** configure_port(data): one write of data.value to 0x0C + port. */
  function ConfigurePort(b: Bus, data: PortData): Done
  {
    BusWrite(b, ConfigAddr(data.port), ToBus(data.value))
  }

  /** set_port(data): one write of data.value to 0x04 + port. */
  function SetPort(b: Bus, data: PortData): Done
  {
    BusWrite(b, OutputAddr(data.port), ToBus(data.value))
  }

  /**
   * get_port(port): one read of 0x04 + port into a zeroed tca6424_port_data;
   * the byte returned is what the read left there.
   */
  function GetPort(b: Bus, p: Port): (r: (Got, bv8))
    ensures ToBus(r.1) == r.0.value & 0xFF
  {
    var g := BusRead(b, OutputAddr(p), 0);
    (g, FromBus(g.value))
  }

  /**
   * The error-code overloads, `noexcept_set_function` around the raising
   * forms, as intended: as written, their const-reference functors do not
   * match the helper's by-value functor type.
   */
  function ConfigurePortReport(b: Bus, data: PortData): (Bus, Reported)
  {
    var d := ConfigurePort(b, data);
    (d.bus, Catch(d.outcome))
  }

  function SetPortReport(b: Bus, data: PortData): (Bus, Reported)
  {
    var d := SetPort(b, data);
    (d.bus, Catch(d.outcome))
  }

  /**
   * get_port(port, error): `noexcept_get_function` around get_port(data); the
   * byte comes back whether or not the read raised.
   */
  function GetPortReport(b: Bus, p: Port): (Bus, bv8, Reported)
  {
    var r := GetPort(b, p);
    (r.0.bus, r.1, Catch(r.0.outcome))
  }

  lemma WriteByte(b: Bus, addr: Addr, value: bv8)
    requires b.width == W8 && b.regWrite.Some?
    ensures var d := BusWrite(b, addr, ToBus(value));
      WroteOnce(b, d, Catch(d.outcome), addr, ToBus(value))
  {
    FullByte(value);
    WriteOnce(b, addr, ToBus(value));
  }

  /** configure_port writes its value unchanged to 0x0C + port and reports the transport's code. */
  lemma ConfigurePortWrites(b: Bus, data: PortData)
    requires b.width == W8 && b.regWrite.Some?
    ensures WroteOnce(b, ConfigurePort(b, data), ConfigurePortReport(b, data).1, 0x0C + data.port.Index(), ToBus(data.value))
  {
    WriteByte(b, ConfigAddr(data.port), data.value);
  }

  /** set_port writes its value unchanged to 0x04 + port and reports the transport's code. */
  lemma SetPortWrites(b: Bus, data: PortData)
    requires b.width == W8 && b.regWrite.Some?
    ensures WroteOnce(b, SetPort(b, data), SetPortReport(b, data).1, 0x04 + data.port.Index(), ToBus(data.value))
  {
    WriteByte(b, OutputAddr(data.port), data.value);
  }

  /**
   * get_port reads 0x04 + port once and returns the byte the transport left;
   * the overload reports the transport's code.
   */
  lemma GetPortReads(b: Bus, p: Port)
    requires b.width == W8 && b.regRead.Some?
    ensures var r := GetPort(b, p);
      var reply := ReadReply(b, 0x04 + p.Index(), 0);
      && r.0.bus.trace == b.trace + [ReadTx(b.dev, 0x04 + p.Index(), reply.1 & 0xFF, reply.0)]
      && ToBus(r.1) == reply.1 & 0xFF
      && (r.0.outcome.Pass? <==> reply.0 == NoError)
      && GetPortReport(b, p).2 == Reported(reply.0)
  {
    ReadTransaction(b, OutputAddr(p), 0);
  }
}
