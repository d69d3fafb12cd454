/**
 * The LMX2594 wideband synthesizer (include/chappi_lmx2594.h): a bank of 113
 * 16-bit registers R0..R112 held in memory with a bit-field view of the
 * registers the driver touches, a constant table of power-on defaults, the
 * SYSREF divider encoding, and the driver operations that change fields in
 * memory and write registers to the chip.
 */
module Lmx2594 {
  import opened Base

  /** register_max_num: the number of words in registers_map. */
  const RegisterMaxNum: nat := 113

  /**
   * registers_map_defaults, one word per register, with the bit-fields
   * allocated from the least significant bit (TI datasheet SNAS696C).
   */
  const Defaults: seq<bv16> := seq(RegisterMaxNum, DefaultOf)

  /** The default of register R<n>; the registers not listed default to 0. */
  function DefaultOf(n: int): bv16 {
    match n
    case 0 => 0x2410
    case 1 => 0x080B
    case 2 => 0x0500
    case 3 => 0x0642
    case 4 => 0x0043
    case 5 => 0x00C8
    case 6 => 0xC802
    case 7 => 0x00B2
    case 8 => 0x2000
    case 9 => 0x0604
    case 10 => 0x10D8
    case 11 => 0x0018
    case 12 => 0x5001
    case 13 => 0x4000
    case 14 => 0x1E70
    case 15 => 0x064F
    case 16 => 0x0080
    case 17 => 0x00FA
    case 18 => 0x0064
    case 19 => 0x27B7
    case 20 => 0xF848
    case 21 => 0x0401
    case 22 => 0x0001
    case 23 => 0x007C
    case 24 => 0x071A
    case 25 => 0x0C2B
    case 26 => 0x0DB0
    case 27 => 0x0002
    case 28 => 0x0488
    case 29 => 0x318C
    case 30 => 0x318C
    case 31 => 0x03EC
    case 32 => 0x0393
    case 33 => 0x1E21
    case 35 => 0x0004
    case 36 => 0x0064
    case 37 => 0x0004
    case 44 => 0x1FA0
    case 45 => 0xC8C0
    case 46 => 0x07FD
    case 47 => 0x0300
    case 48 => 0x0300
    case 49 => 0x4180
    case 51 => 0x0080
    case 52 => 0x0820
    case 57 => 0x0020
    case 58 => 0x8001
    case 59 => 0x0001
    case 61 => 0x00A8
    case 62 => 0x0322
    case 64 => 0x1388
    case 66 => 0x01F4
    case 68 => 0x03E8
    case 71 => 0x0081
    case 73 => 0x003F
    case 75 => 0x0800
    case 76 => 0x000C
    case 78 => 0x0001
    case 97 => 0x0800
    case _ => 0x0000
  }


  datatype Range = Range(begin: int, end: int)

  const RangeCommon := Range(0, 78)
  const RangeRamping := Range(79, 106)
  const RangeReadback := Range(107, 112)

  predicate InRange(r: Range, n: int) {
    r.begin <= n <= r.end
  }

  /** The three register ranges are disjoint and together are exactly the bank. */
  lemma RangesPartitionBank(n: int)
    ensures |Defaults| == RegisterMaxNum
    ensures 0 <= n < RegisterMaxNum <==> InRange(RangeCommon, n) || InRange(RangeRamping, n) || InRange(RangeReadback, n)
    ensures !(InRange(RangeCommon, n) && InRange(RangeRamping, n))
    ensures !(InRange(RangeCommon, n) && InRange(RangeReadback, n))
    ensures !(InRange(RangeRamping, n) && InRange(RangeReadback, n))
  {
  }

  /*
   * Bit-field accessors, least significant bit first. Reading a field shifts
   * its bits down; assigning one truncates the value to the field's width
   * (as an assignment to an unsigned bit-field does) and keeps every other bit.
   */

  // register_R0: POWERDOWN bit 0, RESET bit 1, FCAL_EN bit 3
  function GetPowerdown(w: bv16): bv16 { w & 0x1 }
  function GetReset(w: bv16): bv16 { (w >> 1) & 0x1 }
  function SetReset(w: bv16, v: bv16): bv16 { (w & !0x0002) | ((v & 0x1) << 1) }
  function GetFcalEn(w: bv16): bv16 { (w >> 3) & 0x1 }
  function SetFcalEn(w: bv16, v: bv16): bv16 { (w & !0x0008) | ((v & 0x1) << 3) }

  // register_R44: MASH_ORDER bits 0-2, MASH_RESET_N bit 5, OUTA_PD bit 6, OUTB_PD bit 7, OUTA_PWR bits 8-13
  function GetMashOrder(w: bv16): bv16 { w & 0x7 }
  function GetMashResetN(w: bv16): bv16 { (w >> 5) & 0x1 }
  function GetOutAPd(w: bv16): bv16 { (w >> 6) & 0x1 }
  function SetOutAPd(w: bv16, v: bv16): bv16 { (w & !0x0040) | ((v & 0x1) << 6) }
  function GetOutBPd(w: bv16): bv16 { (w >> 7) & 0x1 }
  function SetOutBPd(w: bv16, v: bv16): bv16 { (w & !0x0080) | ((v & 0x1) << 7) }
  function GetOutAPwr(w: bv16): bv16 { (w >> 8) & 0x3F }
  function SetOutAPwr(w: bv16, v: bv16): bv16 { (w & !0x3F00) | ((v & 0x3F) << 8) }

  // register_R45: OUTB_PWR bits 0-5, OUT_ISET bits 9-10, OUTA_MUX bits 11-12
  function GetOutBPwr(w: bv16): bv16 { w & 0x3F }
  function SetOutBPwr(w: bv16, v: bv16): bv16 { (w & !0x003F) | (v & 0x3F) }
  function GetOutIset(w: bv16): bv16 { (w >> 9) & 0x3 }
  function GetOutAMux(w: bv16): bv16 { (w >> 11) & 0x3 }

  // register_R72: SYSREF_DIV bits 0-10
  function GetSysrefDiv(w: bv16): bv16 { w & 0x7FF }
  function SetSysrefDiv(w: bv16, v: bv16): bv16 { (w & !0x07FF) | (v & 0x7FF) }

  /** OUT_PD_type and its enum_cast to and from the register type. */
  datatype OutPd = Active | PowerDown

  function OutPdCast(p: OutPd): (v: bv16)
    ensures v <= 1
  {
    if p.Active? then 0 else 1
  }

  /** enum_cast back from a one-bit field. */
  function OutPdOf(v: bv16): (p: OutPd)
    requires v <= 1
    ensures OutPdCast(p) == v
  {
    if v == 0 then Active else PowerDown
  }

  lemma OutPdCastRoundTrip(p: OutPd)
    ensures OutPdOf(OutPdCast(p)) == p
  {
  }

  /** The defaults of the fields the driver operations use. */
  lemma DefaultFields()
    ensures Defaults[0] == 0x2410 && Defaults[44] == 0x1FA0 && Defaults[45] == 0xC8C0 && Defaults[72] == 0
    ensures GetPowerdown(Defaults[0]) == 0 && GetReset(Defaults[0]) == 0 && GetFcalEn(Defaults[0]) == 0
    ensures GetMashOrder(Defaults[44]) == 0 && GetMashResetN(Defaults[44]) == 1
    ensures OutPdOf(GetOutAPd(Defaults[44])) == Active
    ensures OutPdOf(GetOutBPd(Defaults[44])) == PowerDown
    ensures GetOutAPwr(Defaults[44]) == 31 && GetOutBPwr(Defaults[45]) == 0
    ensures GetOutIset(Defaults[45]) == 0 && GetOutAMux(Defaults[45]) == 1
    ensures GetSysrefDiv(Defaults[72]) == 0
  {
  }

  /** uint16_t. */
  type U16 = x: int | 0 <= x < 0x10000

  /**
   * get_SYSREF_DIV: the SYSREF divider d is programmed as (d - 4) / 2,
   * clamped to the field's range for divisors below 4 or above 4098.
   */
  function SysrefDiv(d: U16): (r: nat)
    ensures r < 2048
    ensures d < 4 ==> r == 0
    ensures d > 4098 ==> r == 2047
    ensures 4 <= d <= 4098 ==> 2 * r + 4 <= d <= 2 * r + 5
  {
    if d < 4 then 0
    else if d > 4098 then 2047
    else (d - 4) / 2
  }

  /** Every even divisor in range is encoded exactly; larger divisors never get smaller codes. */
  lemma SysrefDivExact(d: U16, e: U16)
    ensures 4 <= d <= 4098 && d % 2 == 0 ==> 2 * SysrefDiv(d) + 4 == d
    ensures d <= e ==> SysrefDiv(d) <= SysrefDiv(e)
  {
  }

  /** The code always fits the 11-bit SYSREF_DIV field of R72 unchanged. */
  lemma SysrefDivFitsField(word: bv16, d: U16)
    ensures GetSysrefDiv(SetSysrefDiv(word, SysrefDiv(d) as bv16)) == SysrefDiv(d) as bv16
  {
    var v := SysrefDiv(d) as bv16;
    assert v <= 0x7FF;
    Fits11(v);
    GetSetSysrefDiv(word, v);
  }

  lemma Fits11(v: bv16)
    requires v <= 0x7FF
    ensures v & 0x7FF == v
  {
  }

  lemma GetSetSysrefDiv(word: bv16, v: bv16)
    ensures GetSysrefDiv(SetSysrefDiv(word, v)) == v & 0x7FF
  {
  }

  /** lmx2594_output. */
  datatype Output = OutA | OutB {
    function Other(): Output {
      if OutA? then OutB else OutA
    }
  }

  /** The single bit of R44 that powers an output down. */
  function PdBit(o: Output): bv16 {
    if o.OutA? then 0x40 else 0x80
  }

  function GetPd(r44: bv16, o: Output): (v: bv16)
    ensures v <= 1
  {
    if o.OutA? then GetOutAPd(r44) else GetOutBPd(r44)
  }

  /** OUTA_PD/OUTB_PD for an enabled or disabled output. */
  function PdValue(enabled: bool): bv16 {
    OutPdCast(if enabled then Active else PowerDown)
  }

  /** What is_output_enabled reports for a value of R44. */
  predicate Enabled(r44: bv16, o: Output) {
    OutPdOf(GetPd(r44, o)) == Active
  }

  /** The R44 word set_output_enabled writes. */
  function EnableWord(r44: bv16, o: Output, enabled: bool): bv16 {
    if o.OutA? then SetOutAPd(r44, PdValue(enabled)) else SetOutBPd(r44, PdValue(enabled))
  }

  /**
   * set_output_enabled changes only bit 6 (OUTA) or bit 7 (OUTB) of R44, to 0
   * when enabling and 1 when disabling; is_output_enabled reads the setting
   * back, and the other output's setting is untouched.
   */
  lemma EnableWordEffect(r44: bv16, o: Output, enabled: bool)
    ensures EnableWord(r44, o, enabled) & !PdBit(o) == r44 & !PdBit(o)
    ensures EnableWord(r44, o, enabled) & PdBit(o) == if enabled then 0 else PdBit(o)
    ensures Enabled(EnableWord(r44, o, enabled), o) == enabled
    ensures Enabled(EnableWord(r44, o, enabled), o.Other()) == Enabled(r44, o.Other())
  {
    var v := PdValue(enabled);
    var w := EnableWord(r44, o, enabled);
    if o.OutA? {
      PdAKeeps(r44, v);
      PdASets(r44, v);
      PdAReads(r44, v);
      PdBUnaffected(r44, v);
    } else {
      PdBKeeps(r44, v);
      PdBSets(r44, v);
      PdBReads(r44, v);
      PdAUnaffected(r44, v);
    }
  }

  lemma PdAKeeps(w: bv16, v: bv16)
    ensures SetOutAPd(w, v) & !0x40 == w & !0x40
  {
  }

  lemma PdASets(w: bv16, v: bv16)
    requires v <= 1
    ensures SetOutAPd(w, v) & 0x40 == if v == 0 then 0 else 0x40
  {
  }

  lemma PdAReads(w: bv16, v: bv16)
    requires v <= 1
    ensures GetOutAPd(SetOutAPd(w, v)) == v
  {
  }

  lemma PdBUnaffected(w: bv16, v: bv16)
    ensures GetOutBPd(SetOutAPd(w, v)) == GetOutBPd(w)
  {
  }

  lemma PdBKeeps(w: bv16, v: bv16)
    ensures SetOutBPd(w, v) & !0x80 == w & !0x80
  {
  }

  lemma PdBSets(w: bv16, v: bv16)
    requires v <= 1
    ensures SetOutBPd(w, v) & 0x80 == if v == 0 then 0 else 0x80
  {
  }

  lemma PdBReads(w: bv16, v: bv16)
    requires v <= 1
    ensures GetOutBPd(SetOutBPd(w, v)) == v
  {
  }

  lemma PdAUnaffected(w: bv16, v: bv16)
    ensures GetOutAPd(SetOutBPd(w, v)) == GetOutAPd(w)
  {
  }

  /** The register that holds an output's power field: R44 for OUTA, R45 for OUTB. */
  function PwrRegister(o: Output): nat {
    if o.OutA? then 44 else 45
  }

  /** The bits of that register the power field occupies. */
  function PwrBits(o: Output): bv16 {
    if o.OutA? then 0x3F00 else 0x003F
  }

  function GetPwr(word: bv16, o: Output): bv16 {
    if o.OutA? then GetOutAPwr(word) else GetOutBPwr(word)
  }

  /** The word set_output_power writes: the int power converted to the 6-bit field. */
  function PowerWord(word: bv16, o: Output, power: int): bv16 {
    var v := (power % 64) as bv16;
    if o.OutA? then SetOutAPwr(word, v) else SetOutBPwr(word, v)
  }

  /** The field then holds power mod 64 and every other bit of the register is kept. */
  lemma PowerWordEffect(word: bv16, o: Output, power: int)
    ensures PowerWord(word, o, power) & !PwrBits(o) == word & !PwrBits(o)
    ensures GetPwr(PowerWord(word, o, power), o) == (power % 64) as bv16
  {
    var v := (power % 64) as bv16;
    assert v <= 0x3F;
    if o.OutA? {
      PwrAKeeps(word, v);
      PwrAReads(word, v);
    } else {
      PwrBKeeps(word, v);
      PwrBReads(word, v);
    }
  }

  lemma PwrAKeeps(w: bv16, v: bv16)
    ensures SetOutAPwr(w, v) & !0x3F00 == w & !0x3F00
  {
  }

  lemma PwrAReads(w: bv16, v: bv16)
    requires v <= 0x3F
    ensures GetOutAPwr(SetOutAPwr(w, v)) == v
  {
  }

  lemma PwrBKeeps(w: bv16, v: bv16)
    ensures SetOutBPwr(w, v) & !0x003F == w & !0x003F
  {
  }

  lemma PwrBReads(w: bv16, v: bv16)
    requires v <= 0x3F
    ensures GetOutBPwr(SetOutBPwr(w, v)) == v
  {
  }

  /** The descending register numbers n, n-1, ..., 1. */
  function Descending(n: nat): (s: seq<int>)
    ensures |s| == n
    ensures forall j :: 0 <= j < n ==> s[j] == n - j
  {
    seq(n, j requires 0 <= j < n => n - j)
  }

  /** The register indices reset's do-while sweep visits, as written: from register_max_num down to 1. */
  function SweepAsWritten(): seq<int> {
    Descending(RegisterMaxNum)
  }

  /** The evidently intended sweep: from the last register, R112, down to R1. */
  function Sweep(): seq<int> {
    Descending(RegisterMaxNum - 1)
  }

  /** The sweep as written starts by reading registers_map.array[113], one past the 113-word bank. */
  lemma SweepAsWrittenLeavesBank()
    ensures SweepAsWritten()[0] == RegisterMaxNum == |Defaults|
    ensures !(forall j :: 0 <= j < |SweepAsWritten()| ==> SweepAsWritten()[j] < RegisterMaxNum)
  {
    assert SweepAsWritten()[0] == 113;
  }

  /** The corrected sweep visits every register but R0 exactly once, in descending order, and stays in the bank. */
  lemma SweepCoversBank()
    ensures forall j :: 0 <= j < |Sweep()| ==> 1 <= Sweep()[j] < RegisterMaxNum
    ensures forall n :: 1 <= n < RegisterMaxNum ==> n in Sweep()
    ensures forall j, k :: 0 <= j < k < |Sweep()| ==> Sweep()[j] > Sweep()[k]
  {
    forall n | 1 <= n < RegisterMaxNum
      ensures n in Sweep()
    {
      assert Sweep()[RegisterMaxNum - 1 - n] == n;
    }
  }

  /** R0 after each of reset's three in-memory changes. */
  function ResetR0(r0: bv16, stage: nat): bv16 {
    var raised := SetReset(r0, 1);
    var lowered := SetReset(raised, 0);
    if stage == 0 then raised
    else if stage == 1 then lowered
    else SetFcalEn(lowered, 1)
  }

  /**
   * Reset's three R0 words: RESET set, then RESET cleared, then FCAL_EN set
   * with RESET still clear; each keeps R0's other bits as they were.
   */
  lemma ResetR0Words(r0: bv16)
    ensures GetReset(ResetR0(r0, 0)) == 1 && ResetR0(r0, 0) & !0x0002 == r0 & !0x0002
    ensures ResetR0(r0, 1) == r0 & !0x0002
    ensures GetFcalEn(ResetR0(r0, 2)) == 1 && GetReset(ResetR0(r0, 2)) == 0
    ensures ResetR0(r0, 2) & !0x000A == r0 & !0x000A
  {
    RaiseReset(r0);
    RaiseResetKeeps(r0);
    LowerReset(r0);
    Calibrate(r0);
    CalibrateClearsReset(r0);
    CalibrateKeeps(r0);
  }

  lemma RaiseReset(r0: bv16)
    ensures GetReset(ResetR0(r0, 0)) == 1
  {
  }

  lemma RaiseResetKeeps(r0: bv16)
    ensures ResetR0(r0, 0) & !0x0002 == r0 & !0x0002
  {
  }

  lemma LowerReset(r0: bv16)
    ensures ResetR0(r0, 1) == r0 & !0x0002
  {
  }

  lemma Calibrate(r0: bv16)
    ensures GetFcalEn(ResetR0(r0, 2)) == 1
  {
  }

  lemma CalibrateClearsReset(r0: bv16)
    ensures GetReset(ResetR0(r0, 2)) == 0
  {
  }

  lemma CalibrateKeeps(r0: bv16)
    ensures ResetR0(r0, 2) & !0x000A == r0 & !0x000A
  {
  }

  /** The writes of reset's sweep: each register of the sweep with its value in memory. */
  function SweepPlan(bank: seq<bv16>): (plan: seq<(int, bv16)>)
    requires |bank| == RegisterMaxNum
    ensures |plan| == RegisterMaxNum - 1
  {
    seq(|Sweep()|, j requires 0 <= j < |Sweep()| => (Sweep()[j], bank[Sweep()[j]]))
  }

  /** The j-th write of the sweep writes register 112 - j with its value in memory. */
  lemma SweepPlanAt(bank: seq<bv16>, j: nat)
    requires |bank| == RegisterMaxNum && j < RegisterMaxNum - 1
    ensures SweepPlan(bank)[j] == (RegisterMaxNum - 1 - j, bank[RegisterMaxNum - 1 - j])
  {
  }

  /** The writes reset issues, given the bank as it is when reset starts. */
  function ResetPlan(bank: seq<bv16>): (plan: seq<(int, bv16)>)
    requires |bank| == RegisterMaxNum
    ensures |plan| == RegisterMaxNum + 2
  {
    [(0, ResetR0(bank[0], 0)), (0, ResetR0(bank[0], 1))] + SweepPlan(bank) + [(0, ResetR0(bank[0], 2))]
  }

  /**
   * Reset writes R0 three times (first, second and last), and in between
   * every other register from R112 down to R1 with its value in memory.
   */
  lemma ResetPlanShape(bank: seq<bv16>)
    requires |bank| == RegisterMaxNum
    ensures var plan := ResetPlan(bank);
      && plan[0] == (0, ResetR0(bank[0], 0))
      && plan[1] == (0, ResetR0(bank[0], 1))
      && (forall n :: 1 <= n < RegisterMaxNum ==> plan[RegisterMaxNum + 1 - n] == (n, bank[n]))
      && plan[RegisterMaxNum + 1] == (0, ResetR0(bank[0], 2))
  {
    var plan := ResetPlan(bank);
    forall n | 1 <= n < RegisterMaxNum
      ensures plan[RegisterMaxNum + 1 - n] == (n, bank[n])
    {
      SweepPlanAt(bank, RegisterMaxNum - 1 - n);
      assert plan[RegisterMaxNum + 1 - n] == SweepPlan(bank)[RegisterMaxNum - 1 - n];
    }
  }

  /** From the defaults, the three R0 words reset writes are 0x2412, 0x2410 and 0x2418. */
  lemma ResetFromDefaults()
    ensures ResetPlan(Defaults)[0] == (0, 0x2412)
    ensures ResetPlan(Defaults)[1] == (0, 0x2410)
    ensures ResetPlan(Defaults)[RegisterMaxNum + 1] == (0, 0x2418)
  {
    assert Defaults[0] == 0x2410;
    ResetPlanShape(Defaults);
  }

  /**
   * Reset's run, stage by stage: the two R0 writes, the sweep, the last R0
   * write; each stage starts only if the previous one completed.
   */
  lemma ResetRunStages(b0: Bus, bank: seq<bv16>)
    requires |bank| == RegisterMaxNum
    ensures var d0 := BusWrite(b0, 0, ResetR0(bank[0], 0));
      var d1 := BusWrite(d0.bus, 0, ResetR0(bank[0], 1));
      var sweep := WriteAll(d1.bus, SweepPlan(bank));
      var d2 := BusWrite(sweep.bus, 0, ResetR0(bank[0], 2));
      WriteAll(b0, ResetPlan(bank)) ==
        if d0.outcome.Fail? then Run(d0.bus, 0, d0.outcome)
        else if d1.outcome.Fail? then Run(d1.bus, 1, d1.outcome)
        else if sweep.outcome.Fail? then Run(sweep.bus, 2 + sweep.done, sweep.outcome)
        else Run(d2.bus, if d2.outcome.Pass? then RegisterMaxNum + 2 else RegisterMaxNum + 1, d2.outcome)
  {
    var head := [(0, ResetR0(bank[0], 0)), (0, ResetR0(bank[0], 1))];
    var tail := [(0, ResetR0(bank[0], 2))];
    assert ResetPlan(bank) == (head + SweepPlan(bank)) + tail;
    WriteAllConcat(b0, head + SweepPlan(bank), tail);
    WriteAllConcat(b0, head, SweepPlan(bank));
    WriteAllConcat(b0, [head[0]], [head[1]]);
    assert [head[0]] + [head[1]] == head;
    var d0 := BusWrite(b0, 0, ResetR0(bank[0], 0));
    WriteAllSingle(b0, head[0]);
    WriteAllSingle(d0.bus, head[1]);
    var d1 := BusWrite(d0.bus, 0, ResetR0(bank[0], 1));
    var sweep := WriteAll(d1.bus, SweepPlan(bank));
    WriteAllSingle(sweep.bus, tail[0]);
  }

  /** R0 in memory once `done` of reset's writes have completed. */
  function R0AfterReset(r0: bv16, done: nat): bv16 {
    if done == 0 then ResetR0(r0, 0)
    else if done <= RegisterMaxNum then ResetR0(r0, 1)
    else ResetR0(r0, 2)
  }

  /** The lmx2594 driver: its chip_base and its mutable registers_map. */
  class Lmx2594 {
    const base: ChipBase
    const regs: array<bv16>

    ghost predicate Valid()
      reads this
    {
      regs.Length == RegisterMaxNum && base.width == W16
    }

    /** The transport arguments are accepted but not passed on: only setup_io installs a transport. */
    constructor (regRead: Option<ReadFn>, regWrite: Option<WriteFn>)
      ensures Valid() && fresh(base) && fresh(regs)
      ensures base.State() == Bus(W16, 0, None, None, [])
      ensures regs[..] == Defaults
    {
      base := new ChipBase(W16, None, None, 0);
      regs := new bv16[RegisterMaxNum](i requires 0 <= i < RegisterMaxNum => Defaults[i]);
    }

    method Reset() returns (o: Outcome)
      requires Valid()
      modifies base`trace, regs
      ensures var r := WriteAll(old(base.State()), ResetPlan(old(regs[..])));
        && base.State() == r.bus && o == r.outcome
        && regs[..] == old(regs[..])[0 := R0AfterReset(old(regs[0]), r.done)]
    {
      ghost var bank := regs[..];
      ResetRunStages(base.State(), bank);
      regs[0] := SetReset(regs[0], 1);
      assert regs[..] == bank[0 := ResetR0(bank[0], 0)];
      o := base.Write(0, regs[0]);
      if o.Fail? {
        return;
      }
      regs[0] := SetReset(regs[0], 0);
      assert regs[..] == bank[0 := ResetR0(bank[0], 1)];
      o := base.Write(0, regs[0]);
      if o.Fail? {
        return;
      }
      assert SweepPlan(regs[..]) == SweepPlan(bank);
      o := WriteSweep();
      if o.Fail? {
        return;
      }
      regs[0] := SetFcalEn(regs[0], 1);
      assert regs[..] == bank[0 := ResetR0(bank[0], 2)];
      o := base.Write(0, regs[0]);
    }

    /** The do-while sweep of reset, from R112 down to R1. */
    method WriteSweep() returns (o: Outcome)
      requires Valid()
      modifies base`trace
      ensures var r := WriteAll(old(base.State()), SweepPlan(old(regs[..])));
        base.State() == r.bus && o == r.outcome
    {
      ghost var b0 := base.State();
      ghost var plan := SweepPlan(regs[..]);
      ghost var n := 0;
      var i := RegisterMaxNum - 1;
      o := Pass;
      assert plan[..0] == [];
      while i > 0
        invariant 0 <= i < RegisterMaxNum && n == RegisterMaxNum - 1 - i
        invariant base.State() == WriteAll(b0, plan[..n]).bus
        invariant WriteAll(b0, plan[..n]).outcome.Pass?
        invariant o.Pass?
      {
        WriteAllStep(b0, plan, n);
        SweepPlanAt(regs[..], n);
        o := base.Write(i, regs[i]);
        if o.Fail? {
          WriteAllStops(b0, plan, n + 1);
          return;
        }
        i := i - 1;
        n := n + 1;
      }
      assert plan[..n] == plan;
    }

    /** reset(error): the same transactions, the fault reported instead of raised. */
    method ResetReport() returns (error: Reported)
      requires Valid()
      modifies base`trace, regs
      ensures var r := WriteAll(old(base.State()), ResetPlan(old(regs[..])));
        && base.State() == r.bus && error == Catch(r.outcome)
        && regs[..] == old(regs[..])[0 := R0AfterReset(old(regs[0]), r.done)]
    {
      var o := Reset();
      error := Catch(o);
    }

    method SetOutputEnabled(output: Output, enabled: bool) returns (o: Outcome)
      requires Valid()
      modifies base`trace, regs
      ensures regs[..] == old(regs[..])[44 := EnableWord(old(regs[44]), output, enabled)]
      ensures BusWrite(old(base.State()), 44, regs[44]) == Done(base.State(), o)
    {
      regs[44] := EnableWord(regs[44], output, enabled);
      o := base.Write(44, regs[44]);
    }

    /** The intended error-code overload: as written its template arguments do not match noexcept_set_function. */
    method SetOutputEnabledReport(output: Output, enabled: bool) returns (error: Reported)
      requires Valid()
      modifies base`trace, regs
      ensures regs[..] == old(regs[..])[44 := EnableWord(old(regs[44]), output, enabled)]
      ensures var d := BusWrite(old(base.State()), 44, regs[44]);
        d.bus == base.State() && error == Catch(d.outcome)
    {
      var o := SetOutputEnabled(output, enabled);
      error := Catch(o);
    }

    /**
     * is_output_enabled: R44 in memory is overwritten by the read, whether or
     * not the read fails; the answer is the selected PD bit being 0, and
     * false when the read fails.
     */
    method IsOutputEnabled(output: Output) returns (enabled: bool, o: Outcome)
      requires Valid()
      modifies base`trace, regs
      ensures var g := BusRead(old(base.State()), 44, old(regs[44]));
        && base.State() == g.bus && o == g.outcome
        && regs[..] == old(regs[..])[44 := g.value]
        && enabled == (o.Pass? && Enabled(g.value, output))
    {
      var value;
      value, o := base.Read(44, regs[44]);
      regs[44] := value;
      enabled := o.Pass? && OutPdOf(GetPd(regs[44], output)) == Active;
    }

    /** The intended error-code overload: as written it names the wrong GetType for noexcept_get_function. */
    method IsOutputEnabledReport(output: Output) returns (enabled: bool, error: Reported)
      requires Valid()
      modifies base`trace, regs
      ensures var g := BusRead(old(base.State()), 44, old(regs[44]));
        && base.State() == g.bus && error == Catch(g.outcome)
        && regs[..] == old(regs[..])[44 := g.value]
        && enabled == (g.outcome.Pass? && Enabled(g.value, output))
    {
      var o;
      enabled, o := IsOutputEnabled(output);
      error := Catch(o);
    }

    method SetOutputPower(output: Output, power: int) returns (o: Outcome)
      requires Valid()
      modifies base`trace, regs
      ensures var n := PwrRegister(output);
        && regs[..] == old(regs[..])[n := PowerWord(old(regs[n]), output, power)]
        && BusWrite(old(base.State()), n, regs[n]) == Done(base.State(), o)
    {
      var n := PwrRegister(output);
      regs[n] := PowerWord(regs[n], output, power);
      o := base.Write(n, regs[n]);
    }

    /** The intended error-code overload: as written its template arguments do not match noexcept_set_function. */
    method SetOutputPowerReport(output: Output, power: int) returns (error: Reported)
      requires Valid()
      modifies base`trace, regs
      ensures var n := PwrRegister(output);
        && regs[..] == old(regs[..])[n := PowerWord(old(regs[n]), output, power)]
        && var d := BusWrite(old(base.State()), n, regs[n]);
           d.bus == base.State() && error == Catch(d.outcome)
    {
      var o := SetOutputPower(output, power);
      error := Catch(o);
    }

    /**
     * set_output_frequency is unfinished in the driver: it issues nothing and
     * changes nothing. Its error-code overload, modelled by `error`, does not
     * match noexcept_set_function as written.
     */
    method SetOutputFrequency(output: Output, frequency: nat) returns (error: Reported)
      requires Valid()
      ensures error == Catch(Pass)
    {
      error := Catch(Pass);
    }
  }
}
