/**
 * ADN4600 crosspoint switch (include/chappi_adn4600.h). Its registers are
 * 16 bits wide. 0x00 is the reset register, 0x40 the crosspoint select and
 * 0x41 the crosspoint update strobe.
 */
module Adn4600 {
  import opened Base

  const ResetAddr: Addr := 0x00
  const XptConfigAddr: Addr := 0x40
  const XptUpdateAddr: Addr := 0x41

  /** adn4600_xpt_data */
  datatype XptData = XptData(input: bv16, output: bv16)

  /**
   * ((input << 4) & 0x70) | (output & 0x07): the input's low three bits in
   * bits 4..6 and the output's in bits 0..2. Bit 3 and bits 7..15 stay clear.
   */
  function XptValue(input: bv16, output: bv16): (w: bv16)
    ensures w <= 0x77
    ensures w & 0xFF88 == 0
  {
    ((input << 4) & 0x70) | (output & 0x07)
  }

  /** Decoding the packed value recovers the input and the output modulo 8. */
  lemma XptValueDecodes(input: bv16, output: bv16)
    ensures (XptValue(input, output) >> 4) & 7 == input % 8
    ensures XptValue(input, output) & 7 == output % 8
  {
  }

  /** Two selections pack to the same value exactly when they agree modulo 8. */
  lemma XptValueInjectiveModEight(i1: bv16, o1: bv16, i2: bv16, o2: bv16)
    ensures XptValue(i1, o1) == XptValue(i2, o2) <==> i1 % 8 == i2 % 8 && o1 % 8 == o2 % 8
  {
    XptValueDecodes(i1, o1);
    XptValueDecodes(i2, o2);
  }

  /** reset(): write 0x01 to 0x00. */
  function Reset(b: Bus): Done
  {
    BusWrite(b, ResetAddr, 0x01)
  }

  /** xpt_config(data): write the packed selection to 0x40. */
  function XptConfig(b: Bus, data: XptData): Done
  {
    BusWrite(b, XptConfigAddr, XptValue(data.input, data.output))
  }

  /** xpt_update(): write 0x01 to 0x41. */
  function XptUpdate(b: Bus): Done
  {
    BusWrite(b, XptUpdateAddr, 0x01)
  }

  /**
   * The error-code overloads of all three: `noexcept_*` around the raising
   * form. For xpt_config this is the intent: as written, its const-reference
   * functor does not match noexcept_set_function's by-value functor type.
   */
  function Report(d: Done): (Bus, Reported)
  {
    (d.bus, Catch(d.outcome))
  }

  /**
   * reset writes 0x01 to 0x00, xpt_config the packed selection to 0x40 and
   * xpt_update 0x01 to 0x41, each once; the overloads report the code.
   */
  lemma OperationsWrite(b: Bus, data: XptData)
    requires b.width == W16 && b.regWrite.Some?
    ensures WroteOnce(b, Reset(b), Report(Reset(b)).1, 0x00, 0x01)
    ensures WroteOnce(b, XptConfig(b, data), Report(XptConfig(b, data)).1, 0x40,
                      ((data.input << 4) & 0x70) | (data.output & 0x07))
    ensures WroteOnce(b, XptUpdate(b), Report(XptUpdate(b)).1, 0x41, 0x01)
  {
    WriteOnce(b, ResetAddr, 0x01);
    WriteOnce(b, XptConfigAddr, XptValue(data.input, data.output));
    WriteOnce(b, XptUpdateAddr, 0x01);
  }
}
