/**
 * LTC2991 octal voltage and temperature monitor (include/chappi_ltc2991.h).
 * Its registers are bytes. The channel-enable register is 0x01 and the
 * control register 0x08. The internal temperature is read as MSB 0x1A and
 * LSB 0x1B. Voltage channel k (1..8) is read as MSB 0x0A + 2(k - 1) and the
 * LSB after it. The getters return raw codes, kept as integers before any
 * unit scaling.
 */
module Ltc2991 {
  import opened Base

  const EnableAddr: int := 0x01
  const ControlAddr: int := 0x08
  const TemperatureAddrs: seq<int> := [0x1A, 0x1B]

  /** `value |= 0b11111000`: the V1..V8 and temperature enables on, bits 0..2 kept. */
  function AllChannelsOn(v: bv8): (w: bv8)
    ensures w & 0xF8 == 0xF8 && w & 0x07 == v & 0x07
  {
    v | 0xF8
  }

  /**
   * Bit 4 (repeated acquisition) set or cleared; `value &= ~0b00010000` on
   * a uint8_t clears exactly that bit.
   */
  function WithRepeated(v: bv8, enable: bool): (w: bv8)
    ensures (w & 0x10 == 0x10) == enable
    ensures w & 0xEF == v & 0xEF
  {
    if enable then v | 0x10 else v & 0xEF
  }

  /** The 13-bit temperature code ((msb & 0x1F) << 8) | lsb. */
  function TemperatureCode(msb: bv8, lsb: bv8): (c: nat)
    ensures c < 0x2000
  {
    (msb & 0x1F) as nat * 0x100 + lsb as nat
  }

  /** The 14-bit voltage code ((msb & 0x3F) << 8) | lsb. */
  function VoltageCode(msb: bv8, lsb: bv8): (c: nat)
    ensures c < 0x4000
  {
    (msb & 0x3F) as nat * 0x100 + lsb as nat
  }

  /** The codes give back the bytes they were made of, less the masked-off bits. */
  lemma CodesRecoverBytes(msb: bv8, lsb: bv8)
    ensures TemperatureCode(msb, lsb) / 0x100 == (msb & 0x1F) as nat
    ensures TemperatureCode(msb, lsb) % 0x100 == lsb as nat
    ensures VoltageCode(msb, lsb) / 0x100 == (msb & 0x3F) as nat
    ensures VoltageCode(msb, lsb) % 0x100 == lsb as nat
  {
  }

  /** _get_voltage(addr_msb) for channel k: the MSB address, the LSB one after it. */
  function VoltageAddr(k: nat): (a: int)
    requires 1 <= k <= 8
    ensures 0x0A <= a <= 0x18 && a % 2 == 0
  {
    0x0A + 2 * (k - 1)
  }

  /**
   * A read-modify-write on a zeroed local: read the register, change it,
   * write it back. A read that raises ends the call before the write.
   */
  function Update(b: Bus, addr: int, change: bv8 -> bv8): Done
  {
    var g := BusRead(b, addr, 0);
    if g.outcome.Fail? then Done(g.bus, g.outcome)
    else BusWrite(g.bus, addr, ToBus(change(FromBus(g.value))))
  }

  /** enable_all_channels() */
  function EnableAllChannels(b: Bus): Done
  {
    Update(b, EnableAddr, AllChannelsOn)
  }

  /** repeated_mode(enable) */
  function RepeatedMode(b: Bus, enable: bool): Done
  {
    Update(b, ControlAddr, v => WithRepeated(v, enable))
  }

  /** Two reads, MSB then LSB, each into a zeroed local; decoded when both completed. */
  function ReadPair(b: Bus, addrs: seq<int>, temperature: bool): (m: Measured)
    requires |addrs| == 2
    ensures m.code.Some? <==> m.outcome.Pass?
    ensures m.code.Some? ==> m.code.value < if temperature then 0x2000 else 0x4000
  {
    var r := ReadAll(b, addrs);
    if r.run.outcome.Fail? then Measured(r.run.bus, None, r.run.outcome)
    else
      var msb, lsb := FromBus(r.values[0]), FromBus(r.values[1]);
      var code := if temperature then TemperatureCode(msb, lsb) else VoltageCode(msb, lsb);
      Measured(r.run.bus, Some(code), Pass)
  }

  /** get_temperature() */
  function Temperature(b: Bus): Measured
  {
    ReadPair(b, TemperatureAddrs, true)
  }

  /** get_voltage_k(), through _get_voltage. */
  function Voltage(b: Bus, k: nat): Measured
    requires 1 <= k <= 8
  {
    ReadPair(b, [VoltageAddr(k), VoltageAddr(k) + 1], false)
  }

  /** ltc2991_data, as raw codes: Tint and V1..V8. */
  datatype Data = Data(tint: nat, v: seq<nat>)

  /** get_voltage_1() .. get_voltage_k() in turn, each on the bus the last one left; the first fault ends it. */
  function Channels(b: Bus, k: nat): (r: (Bus, seq<nat>, Outcome))
    requires k <= 8
    ensures r.2.Pass? ==> |r.1| == k
  {
    if k == 0 then (b, [], Pass)
    else
      var prior := Channels(b, k - 1);
      if prior.2.Fail? then prior
      else
        var m := Voltage(prior.0, k);
        if m.outcome.Fail? then (m.bus, prior.1, m.outcome)
        else (m.bus, prior.1 + [m.code.value], Pass)
  }

  /** get_data(): the temperature, then V1..V8; a getter that raises ends it. */
  function GetData(b: Bus): (r: (Bus, Option<Data>, Outcome))
    ensures r.1.Some? <==> r.2.Pass?
    ensures r.1.Some? ==> r.1.value.tint < 0x2000 && |r.1.value.v| == 8
  {
    var t := Temperature(b);
    if t.outcome.Fail? then (t.bus, None, t.outcome)
    else
      var c := Channels(t.bus, 8);
      if c.2.Fail? then (c.0, None, c.2)
      else (c.0, Some(Data(t.code.value, c.1)), Pass)
  }

  /** The error-code overloads: `noexcept_*` around the raising forms. */
  function UpdateReport(d: Done): (Bus, Reported)
  {
    (d.bus, Catch(d.outcome))
  }

  /** The register addresses get_data reads, in the order it reads them. */
  function DataAddrs(k: nat): (s: seq<int>)
    requires k <= 8
    ensures |s| == 2 + 2 * k
  {
    if k == 0 then TemperatureAddrs else DataAddrs(k - 1) + [VoltageAddr(k), VoltageAddr(k) + 1]
  }

  /** The voltage codes of consecutive (MSB, LSB) pairs of read values. */
  function PairCodes(values: seq<bv16>): (codes: seq<nat>)
    requires |values| % 2 == 0
    ensures |codes| == |values| / 2
  {
    if values == [] then []
    else
      var n := |values| - 2;
      PairCodes(values[..n]) + [VoltageCode(FromBus(values[n]), FromBus(values[n + 1]))]
  }

  /** get_data reads 0x1A, 0x1B, then the MSB and the LSB of V1, V2, ... V8. */
  lemma {:induction false} DataAddrsOrder(k: nat)
    requires k <= 8
    ensures DataAddrs(k)[..2] == [0x1A, 0x1B]
    ensures forall j :: 1 <= j <= k ==> DataAddrs(k)[2 * j] == 0x0A + 2 * (j - 1) && DataAddrs(k)[2 * j + 1] == 0x0B + 2 * (j - 1)
  {
    if k > 0 {
      DataAddrsOrder(k - 1);
      var s, p := DataAddrs(k), DataAddrs(k - 1);
      assert s == p + [VoltageAddr(k), VoltageAddr(k) + 1];
      assert s[..2] == p[..2];
      forall j | 1 <= j <= k
        ensures s[2 * j] == 0x0A + 2 * (j - 1) && s[2 * j + 1] == 0x0B + 2 * (j - 1)
      {
        if j < k {
          assert s[2 * j] == p[2 * j] && s[2 * j + 1] == p[2 * j + 1];
        }
      }
    }
  }

  /**
   * Channels 1..k issue exactly the reads of one sequence over their
   * addresses, and yield the codes of the value pairs those reads left.
   */
  lemma {:induction false} ChannelsAreOneReadSequence(b: Bus, k: nat)
    requires k <= 8
    ensures var c := Channels(b, k);
      var r := ReadAll(b, DataAddrs(k)[2..]);
      && c.0 == r.run.bus && c.2 == r.run.outcome
      && (c.2.Pass? ==> |r.values| == 2 * k && c.1 == PairCodes(r.values))
  {
    if k > 0 {
      ChannelsAreOneReadSequence(b, k - 1);
      var p := DataAddrs(k - 1)[2..];
      var q := [VoltageAddr(k), VoltageAddr(k) + 1];
      assert DataAddrs(k)[2..] == p + q;
      ReadAllConcat(b, p, q);
      var first := ReadAll(b, p);
      if first.run.outcome.Pass? {
        var second := ReadAll(first.run.bus, q);
        var all := first.values + second.values;
        if second.run.outcome.Pass? {
          assert all[..|all| - 2] == first.values;
        }
      }
    }
  }

  /**
   * get_data issues exactly the reads of one sequence over 0x1A, 0x1B,
   * 0x0A..0x19 in that order, stops at the first that raises, and decodes
   * the temperature from the first two values and V1..V8 from the pairs
   * after them.
   */
  lemma GetDataIsOneReadSequence(b: Bus)
    ensures var d := GetData(b);
      var r := ReadAll(b, DataAddrs(8));
      && d.0 == r.run.bus && d.2 == r.run.outcome
      && (d.2.Pass? ==>
            && |r.values| == 18
            && d.1.value.tint == TemperatureCode(FromBus(r.values[0]), FromBus(r.values[1]))
            && d.1.value.v == PairCodes(r.values[2..]))
  {
    var all := DataAddrs(8);
    assert all == TemperatureAddrs + all[2..];
    ReadAllConcat(b, TemperatureAddrs, all[2..]);
    var t := ReadAll(b, TemperatureAddrs);
    if t.run.outcome.Pass? {
      ChannelsAreOneReadSequence(t.run.bus, 8);
      var rest := ReadAll(t.run.bus, all[2..]);
      if rest.run.outcome.Pass? {
        assert (t.values + rest.values)[2..] == rest.values;
      }
    }
  }

  /**
   * enable_all_channels reads 0x01 and writes back to 0x01 the byte read with
   * bits 3..7 set and bits 0..2 kept; a read that raises means no write.
   */
  lemma EnableAllChannelsWrites(b: Bus)
    requires b.width == W8 && Installed(b)
    ensures var g := BusRead(b, 0x01, 0);
      var d := EnableAllChannels(b);
      var readCode := ReadReply(b, 0x01, 0).0;
      && g.bus.trace == b.trace + [ReadTx(b.dev, 0x01, g.value, readCode)]
      && (readCode != NoError ==> d.bus == g.bus && UpdateReport(d).1 == Reported(readCode))
      && (readCode == NoError ==>
            var w := AllChannelsOn(FromBus(g.value));
            var writeCode := WriteCode(g.bus, 0x01, ToBus(w));
            && d.bus.trace == g.bus.trace + [WriteTx(b.dev, 0x01, ToBus(w), writeCode)]
            && UpdateReport(d).1 == Reported(writeCode))
  {
    UpdateWrites(b, EnableAddr, AllChannelsOn);
  }

  /**
   * repeated_mode(enable) reads 0x08 and writes back to 0x08 the byte read
   * with bit 4 equal to `enable` and every other bit kept.
   */
  lemma RepeatedModeWrites(b: Bus, enable: bool)
    requires b.width == W8 && Installed(b)
    ensures var g := BusRead(b, 0x08, 0);
      var d := RepeatedMode(b, enable);
      var readCode := ReadReply(b, 0x08, 0).0;
      && g.bus.trace == b.trace + [ReadTx(b.dev, 0x08, g.value, readCode)]
      && (readCode != NoError ==> d.bus == g.bus && UpdateReport(d).1 == Reported(readCode))
      && (readCode == NoError ==>
            var w := WithRepeated(FromBus(g.value), enable);
            var writeCode := WriteCode(g.bus, 0x08, ToBus(w));
            && d.bus.trace == g.bus.trace + [WriteTx(b.dev, 0x08, ToBus(w), writeCode)]
            && UpdateReport(d).1 == Reported(writeCode))
  {
    UpdateWrites(b, ControlAddr, v => WithRepeated(v, enable));
  }

  lemma UpdateWrites(b: Bus, addr: int, change: bv8 -> bv8)
    requires b.width == W8 && Installed(b) && 0 <= addr < 0x100
    ensures var g := BusRead(b, addr, 0);
      var d := Update(b, addr, change);
      var readCode := ReadReply(b, addr, 0).0;
      && g.bus.trace == b.trace + [ReadTx(b.dev, addr, g.value, readCode)]
      && (readCode != NoError ==> d.bus == g.bus && UpdateReport(d).1 == Reported(readCode))
      && (readCode == NoError ==>
            var w := change(FromBus(g.value));
            var writeCode := WriteCode(g.bus, addr, ToBus(w));
            && d.bus.trace == g.bus.trace + [WriteTx(b.dev, addr, ToBus(w), writeCode)]
            && UpdateReport(d).1 == Reported(writeCode))
  {
    var g := BusRead(b, addr, 0);
    ReadTransaction(b, addr, 0);
    if g.outcome.Pass? {
      var w := change(FromBus(g.value));
      WriteTransaction(g.bus, addr, ToBus(w));
      FullByte(w);
    }
  }

  /** get_temperature reads 0x1A, then 0x1B, and decodes the bytes those reads left. */
  lemma TemperatureReads(b: Bus)
    requires b.regRead.Some?
    ensures var m := Temperature(b);
      var r := ReadAll(b, [0x1A, 0x1B]);
      && m.bus == r.run.bus
      && (m.outcome.Pass? ==>
            && |m.bus.trace| == |b.trace| + 2
            && IsRead(m.bus.trace[|b.trace|], b, 0x1A, r.values[0])
            && IsRead(m.bus.trace[|b.trace| + 1], b, 0x1B, r.values[1])
            && m.code == Some(TemperatureCode(FromBus(r.values[0]), FromBus(r.values[1]))))
  {
    ReadAllTrace(b, [0x1A, 0x1B]);
  }

  /** get_voltage_k reads 0x0A + 2(k - 1), then the address after it. */
  lemma VoltageReads(b: Bus, k: nat)
    requires b.regRead.Some? && 1 <= k <= 8
    ensures var m := Voltage(b, k);
      var a := 0x0A + 2 * (k - 1);
      var r := ReadAll(b, [a, a + 1]);
      && m.bus == r.run.bus
      && (m.outcome.Pass? ==>
            && |m.bus.trace| == |b.trace| + 2
            && IsRead(m.bus.trace[|b.trace|], b, a, r.values[0])
            && IsRead(m.bus.trace[|b.trace| + 1], b, a + 1, r.values[1])
            && m.code == Some(VoltageCode(FromBus(r.values[0]), FromBus(r.values[1]))))
  {
    var a := VoltageAddr(k);
    ReadAllTrace(b, [a, a + 1]);
  }
}
