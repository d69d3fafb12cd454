/**
 * The older ADN4600 driver (ADN4600/adn4600.h): the same three register
 * writes, with `xpt_config` taking the input and the output as two
 * arguments. Only `reset` and `xpt_update` have error-code overloads.
 */
module Adn4600Legacy {
  import opened Base
  import Adn4600

  function Reset(b: Bus): Done
  {
    BusWrite(b, 0x00, 0x01)
  }

  /** xpt_config(in, out): the packed value computed in value_type (uint16_t). */
  function XptConfig(b: Bus, input: bv16, output: bv16): Done
  {
    BusWrite(b, 0x40, ((input << 4) & 0x70) | (output & 0x07))
  }

  function XptUpdate(b: Bus): Done
  {
    BusWrite(b, 0x41, 0x01)
  }

  function ResetReport(b: Bus): (Bus, Reported)
  {
    var d := Reset(b);
    (d.bus, Catch(d.outcome))
  }

  function XptUpdateReport(b: Bus): (Bus, Reported)
  {
    var d := XptUpdate(b);
    (d.bus, Catch(d.outcome))
  }

  /**
   * The older driver issues the same transactions as the newer one, so the
   * packed value is at most 0x77 with bits 3 and 7 clear.
   */
  lemma AgreesWithCurrentDriver(b: Bus, input: bv16, output: bv16)
    ensures Reset(b) == Adn4600.Reset(b)
    ensures XptConfig(b, input, output) == Adn4600.XptConfig(b, Adn4600.XptData(input, output))
    ensures XptUpdate(b) == Adn4600.XptUpdate(b)
    ensures ResetReport(b) == Adn4600.Report(Adn4600.Reset(b))
    ensures XptUpdateReport(b) == Adn4600.Report(Adn4600.XptUpdate(b))
    ensures var w := ((input << 4) & 0x70) | (output & 0x07);
      w <= 0x77 && w & 0x08 == 0 && w & 0x80 == 0
  {
    var w := Adn4600.XptValue(input, output);
  }
}
