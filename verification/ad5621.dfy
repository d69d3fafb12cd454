/**
 * AD5621 12-bit DAC (include/chappi_ad5621.h): the value, shifted left by
 * two, is written as one 16-bit word to address 0x00.
 */
module Ad5621 {
  import opened Base

  /**
   * `value << 2` in value_type (uint16_t): four times the value modulo 2^16.
   * The two low bits are zero and the two top input bits are lost.
   */
  function Word(value: bv16): (w: bv16)
    ensures w == value * 4
    ensures w & 3 == 0
    ensures w >> 2 == value & 0x3FFF
  {
    value << 2
  }

  /** Below 2^14 the word gives the value back; above, only its low 14 bits. */
  lemma WordRecoversValue(value: bv16)
    ensures value <= 0x3FFF ==> Word(value) >> 2 == value
    ensures Word(value) == Word(value & 0x3FFF)
  {
  }

  /** set_value(value): one write of the word to 0x00. */
  function SetValue(b: Bus, value: bv16): Done
  {
    BusWrite(b, 0x00, Word(value))
  }

  /** set_value(value, error) */
  function SetValueReport(b: Bus, value: bv16): (Bus, Reported)
  {
    var d := SetValue(b, value);
    (d.bus, Catch(d.outcome))
  }

  /** set_value issues exactly one write, of the shifted word to 0x00, and the overload reports the code. */
  lemma SetValueWrites(b: Bus, value: bv16)
    requires b.width == W16 && b.regWrite.Some?
    ensures WroteOnce(b, SetValue(b, value), SetValueReport(b, value).1, 0x00, Word(value))
  {
    FullWord(Word(value));
    WriteOnce(b, 0x00, Word(value));
  }
}
