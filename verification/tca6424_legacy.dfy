/**
 * The older TCA6424 driver (TCA6424/tca6424.h): one method per port instead
 * of a port argument. Port n's configuration register is 0x0C + n and its
 * output register 0x04 + n.
 *
 * Its error-code `get_port_1(error)` wraps `get_port_2`, so it reads port
 * 2's register. The as-written table below keeps that; the corrected table
 * reads port 1's register, as the raising `get_port_1` does.
 */
module Tca6424Legacy {
  import opened Base
  import Tca6424

  /** configure_port_0/1/2 */
  const ConfigureAddrs: seq<int> := [0x0c, 0x0d, 0x0e]
  /** set_port_0/1/2 and the raising get_port_0/1/2 */
  const PortAddrs: seq<int> := [0x04, 0x05, 0x06]
  /** The register each error-code get_port_N reads, as written: port 1's form reads 0x06. */
  const ReportAddrsAsWritten: seq<int> := [0x04, 0x06, 0x06]

  function ConfigurePort(b: Bus, n: nat, value: bv8): Done
    requires n < 3
  {
    BusWrite(b, ConfigureAddrs[n], ToBus(value))
  }

  function SetPort(b: Bus, n: nat, value: bv8): Done
    requires n < 3
  {
    BusWrite(b, PortAddrs[n], ToBus(value))
  }

  /**
   * get_port_N(value): one read into the caller's destination, which holds
   * `dest` before the call.
   */
  function GetPort(b: Bus, n: nat, dest: bv8): Got
    requires n < 3
  {
    BusRead(b, PortAddrs[n], ToBus(dest))
  }

  /** configure_port_N(value, error) and set_port_N(value, error). */
  function WriteReport(d: Done): (Bus, Reported)
  {
    (d.bus, Catch(d.outcome))
  }

  /**
   * get_port_N(error), as written: `noexcept_get_function` reads into its own
   * uninitialised local (`dest` here) with the functor the table names.
   */
  function GetPortReportAsWritten(b: Bus, n: nat, dest: bv8): (Bus, bv8, Reported)
    requires n < 3
  {
    var g := BusRead(b, ReportAddrsAsWritten[n], ToBus(dest));
    (g.bus, FromBus(g.value), Catch(g.outcome))
  }

  /** get_port_N(error), corrected: it wraps get_port_N itself. */
  function GetPortReport(b: Bus, n: nat, dest: bv8): (Bus, bv8, Reported)
    requires n < 3
  {
    var g := GetPort(b, n, dest);
    (g.bus, FromBus(g.value), Catch(g.outcome))
  }

  function PortOf(n: nat): (p: Tca6424.Port)
    requires n < 3
    ensures p.Index() == n
  {
    if n == 0 then Tca6424.P0 else if n == 1 then Tca6424.P1 else Tca6424.P2
  }

  /**
   * The per-port methods are the port-argument driver's operations: the same
   * transactions, to 0x0C + n and 0x04 + n, with the same outcome.
   */
  lemma AgreesWithPortDriver(b: Bus, n: nat, value: bv8)
    requires n < 3
    ensures ConfigurePort(b, n, value) == Tca6424.ConfigurePort(b, Tca6424.PortData(PortOf(n), value))
    ensures SetPort(b, n, value) == Tca6424.SetPort(b, Tca6424.PortData(PortOf(n), value))
    ensures GetPort(b, n, 0) == Tca6424.GetPort(b, PortOf(n)).0
    ensures ConfigureAddrs[n] == 0x0C + n && PortAddrs[n] == 0x04 + n
  {
  }

  /**
   * As written, the error-code get_port_1 reads register 0x06 where the
   * raising get_port_1 reads 0x05: the two forms of the same getter read
   * different ports.
   */
  lemma GetPort1ReportReadsPort2(b: Bus, dest: bv8)
    requires b.regRead.Some?
    ensures var asWritten := GetPortReportAsWritten(b, 1, dest).0.trace;
      var raising := GetPort(b, 1, dest).bus.trace;
      && |asWritten| == |raising| == |b.trace| + 1
      && asWritten[|b.trace|].addr == 0x06
      && raising[|b.trace|].addr == 0x05
  {
    ReadTransaction(b, 0x06, ToBus(dest));
    ReadTransaction(b, 0x05, ToBus(dest));
  }

  /**
   * Corrected, every error-code get_port_N issues exactly the transaction of
   * the raising get_port_N, returns the same byte and reports the
   * transport's code.
   */
  lemma GetPortReportMatchesRaising(b: Bus, n: nat, dest: bv8)
    requires n < 3 && b.regRead.Some?
    ensures var r := GetPortReport(b, n, dest);
      var g := GetPort(b, n, dest);
      && r.0 == g.bus && r.1 == FromBus(g.value)
      && g.bus.trace == b.trace + [ReadTx(b.dev, 0x04 + n, g.value, ReadReply(b, 0x04 + n, ToBus(dest)).0)]
      && r.2 == Reported(ReadReply(b, 0x04 + n, ToBus(dest)).0)
  {
    ReadTransaction(b, PortAddrs[n], ToBus(dest));
  }

  /** Each configure_port_N and set_port_N writes its byte unchanged to its register and reports the code. */
  lemma WritesReportCode(b: Bus, n: nat, value: bv8)
    requires n < 3 && b.width == W8 && b.regWrite.Some?
    ensures var d := ConfigurePort(b, n, value);
      WroteOnce(b, d, WriteReport(d).1, 0x0C + n, ToBus(value))
    ensures var d := SetPort(b, n, value);
      WroteOnce(b, d, WriteReport(d).1, 0x04 + n, ToBus(value))
  {
    Tca6424.WriteByte(b, 0x0C + n, value);
    Tca6424.WriteByte(b, 0x04 + n, value);
  }
}
