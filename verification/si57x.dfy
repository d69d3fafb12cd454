/**
 * The Si570/Si571 programmable oscillator (include/chappi_si57x.h): the
 * integer part of the frequency programming. A target frequency selects a
 * high-speed divider HS_DIV and an output divider N1 so that the DCO
 * frequency f * HS_DIV * N1 lies in its band; the two dividers and the
 * 38-bit RFREQ are packed into the six frequency registers 7..12, mirrored to
 * 13..18. Frequencies are whole hertz.
 */
module Si57x {
  import opened Base

  /** The first frequency register, and how many there are. */
  const StartAddr: nat := 7
  const FreqRegsNum: nat := 12

  /** The valid high-speed dividers, in the order the search tries them. */
  const HsDivs: seq<nat> := [4, 5, 6, 7, 9, 11]

  /** The DCO band, in hertz. */
  const DcoMin: nat := 4_850_000_000
  const DcoMax: nat := 5_670_000_000

  /** Targets below this are raised to it before the search. */
  const FreqFloor: nat := 10_000_000

  /** At or above these, the dividers are fixed: (4, 1), then (5, 1). */
  const FixedHs4Min: nat := 1_212_500_000
  const FixedHs5Min: nat := 970_000_000

  /** The search tries the 64 even N1 in 2..128, and for each the 6 HS_DIV. */
  const CandidateCount: nat := 384

  datatype Divider = Divider(hs: nat, n1: nat)

  /** The i-th pair the search tries: N1 in the outer loop, HS_DIV in the inner one, both ascending. */
  function Candidate(i: nat): (c: Divider)
    requires i < CandidateCount
    ensures 4 <= c.hs && 2 <= c.n1
  {
    Divider(HsDivs[i % 6], 2 * (i / 6) + 2)
  }

  lemma CandidateSelectable(i: nat)
    requires i < CandidateCount
    ensures Selectable(Candidate(i)) && Candidate(i).n1 != 1
  {
  }

  /** The candidates for an even N1 come in a block of six, one per HS_DIV. */
  lemma CandidateAt(f: nat, m: nat, h: nat)
    requires m < 64 && h < 6
    ensures 6 * m + h < CandidateCount
    ensures Candidate(6 * m + h) == Divider(HsDivs[h], 2 * m + 2)
    ensures Dcos(f)[6 * m + h] == Dco(f, Divider(HsDivs[h], 2 * m + 2))
  {
  }

  /** The DCO frequency a divider pair gives for a target. */
  function Dco(f: nat, c: Divider): nat {
    f * c.hs * c.n1
  }

  /** The DCO frequency of every candidate, in the order the search tries them. */
  function Dcos(f: nat): (v: seq<nat>)
    ensures |v| == CandidateCount
    ensures forall i :: 0 <= i < CandidateCount ==> v[i] == Dco(f, Candidate(i))
  {
    seq(CandidateCount, i requires 0 <= i < CandidateCount => Dco(f, Candidate(i)))
  }

  predicate InBand(x: nat) {
    DcoMin <= x <= DcoMax
  }

  /**
   * The search's running choice after the first k values: a value replaces
   * the current choice when it is in band and at most the current choice's
   * value (at most DcoMax while there is none).
   */
  function Best(v: seq<nat>, k: nat): (r: Option<nat>)
    requires k <= |v|
    ensures r.Some? ==> r.value < k
    decreases k
  {
    if k == 0 then None
    else
      var prev := Best(v, k - 1);
      var bound := if prev.None? then DcoMax else v[prev.value];
      if DcoMin <= v[k - 1] <= bound then Some(k - 1) else prev
  }

  /**
   * The index the search settles on among the first k: in band, with the
   * smallest value of all in-band ones, and the last one tried with that value.
   */
  ghost predicate Chosen(v: seq<nat>, k: nat, i: nat)
    requires k <= |v|
  {
    && i < k
    && InBand(v[i])
    && (forall j :: 0 <= j < k && InBand(v[j]) ==> v[i] <= v[j])
    && (forall j :: i < j < k && InBand(v[j]) ==> v[i] < v[j])
  }

  /** After k values the running choice is the chosen one among them, and there is none iff none is in band. */
  lemma {:induction false} BestIsChosen(v: seq<nat>, k: nat)
    requires k <= |v|
    ensures Best(v, k).None? <==> forall j :: 0 <= j < k ==> !InBand(v[j])
    ensures Best(v, k).Some? ==> Chosen(v, k, Best(v, k).value)
    decreases k
  {
    if k > 0 {
      BestIsChosen(v, k - 1);
    }
  }

  /** At most one index is chosen. */
  lemma ChosenUnique(v: seq<nat>, k: nat, i: nat, j: nat)
    requires k <= |v|
    requires Chosen(v, k, i) && Chosen(v, k, j)
    ensures i == j
  {
    assert v[i] <= v[j];
    assert v[j] <= v[i];
  }

  /** What _calculate_divider decides, as a function of the target. */
  function DividerFor(f: nat): Option<Divider> {
    if f >= FixedHs4Min then Some(Divider(4, 1))
    else if f >= FixedHs5Min then Some(Divider(5, 1))
    else match Best(Dcos(f), CandidateCount)
      case None => None
      case Some(i) => Some(Candidate(i))
  }

  /**
   * The fixed pairs from 970 MHz up (with no upper limit), and below it the
   * chosen pair, or none when no pair puts the DCO in band.
   */
  lemma DividerChoice(f: nat)
    ensures f >= FixedHs4Min ==> DividerFor(f) == Some(Divider(4, 1))
    ensures FixedHs5Min <= f < FixedHs4Min ==> DividerFor(f) == Some(Divider(5, 1))
    ensures f < FixedHs5Min ==>
      (DividerFor(f).None? <==> forall j :: 0 <= j < CandidateCount ==> !InBand(Dco(f, Candidate(j))))
    ensures f < FixedHs5Min && DividerFor(f).Some? ==>
      exists i :: Chosen(Dcos(f), CandidateCount, i) && DividerFor(f) == Some(Candidate(i))
  {
    var v := Dcos(f);
    BestIsChosen(v, CandidateCount);
    if f < FixedHs5Min && DividerFor(f).Some? {
      var i := Best(v, CandidateCount).value;
      assert Chosen(v, CandidateCount, i);
    }
  }

  lemma AtLeastEightfold(f: nat, c: Divider)
    requires c.hs >= 4 && c.n1 >= 2
    ensures Dco(f, c) >= 8 * f
  {
    assert c.hs * c.n1 >= 8 by {
      assert c.hs * c.n1 >= 4 * c.n1;
    }
    assert f * c.hs * c.n1 == f * (c.hs * c.n1);
    assert f * (c.hs * c.n1) >= f * 8;
  }

  /** Every target strictly between 708.75 MHz and 970 MHz is unsolvable: even the smallest product, 8 f, is above the band. */
  lemma NoDividerInGap(f: nat)
    requires 708_750_000 < f < FixedHs5Min
    ensures DividerFor(f).None?
  {
    var v := Dcos(f);
    forall j | 0 <= j < CandidateCount
      ensures !InBand(v[j])
    {
      AtLeastEightfold(f, Candidate(j));
    }
    BestIsChosen(v, CandidateCount);
  }

  /** The running state of the search loops agrees with the running choice after k candidates. */
  ghost predicate Tracks(v: seq<nat>, k: nat, freqDco: nat, hsTmp: nat, n1Tmp: nat)
    requires k <= |v| == CandidateCount
  {
    match Best(v, k)
    case None => freqDco == DcoMax && hsTmp == 0 && n1Tmp == 0
    case Some(i) => freqDco == v[i] && Divider(hsTmp, n1Tmp) == Candidate(i)
  }

  /** One candidate tried: the running state follows the running choice. */
  lemma TracksStep(v: seq<nat>, k: nat, freqDco: nat, hsTmp: nat, n1Tmp: nat, x: nat, c: Divider)
    requires k < |v| == CandidateCount
    requires Tracks(v, k, freqDco, hsTmp, n1Tmp)
    requires v[k] == x && Candidate(k) == c
    ensures DcoMin <= x <= freqDco ==> Tracks(v, k + 1, x, c.hs, c.n1)
    ensures !(DcoMin <= x <= freqDco) ==> Tracks(v, k + 1, freqDco, hsTmp, n1Tmp)
  {
  }

  /** _calculate_divider: the fixed pairs, else the nested search loops. */
  method CalculateDivider(f: nat) returns (d: Option<Divider>)
    ensures d == DividerFor(f)
  {
    if f >= FixedHs4Min {
      return Some(Divider(4, 1));
    } else if f >= FixedHs5Min {
      return Some(Divider(5, 1));
    }
    d := SearchDivider(f);
  }

  /** After all candidates, the running state gives the choice, and no pair iff none was chosen. */
  lemma TracksResult(v: seq<nat>, freqDco: nat, hsTmp: nat, n1Tmp: nat)
    requires |v| == CandidateCount
    requires Tracks(v, CandidateCount, freqDco, hsTmp, n1Tmp)
    ensures (hsTmp == 0 || n1Tmp == 0) <==> Best(v, CandidateCount).None?
    ensures Best(v, CandidateCount).Some? ==> Divider(hsTmp, n1Tmp) == Candidate(Best(v, CandidateCount).value)
  {
  }

  lemma Parity(m: nat)
    ensures (2 * m + 1) % 2 == 1 && (2 * m + 2) % 2 == 0
  {
  }

  /** The nested loops of the search, for targets below 970 MHz: the outer one over n1. */
  method SearchDivider(f: nat) returns (d: Option<Divider>)
    ensures d == match Best(Dcos(f), CandidateCount) case None => None case Some(i) => Some(Candidate(i))
  {
    ghost var m := 0;
    var hsTmp: nat := 0;
    var n1Tmp: nat := 0;
    var freqDco: nat := DcoMax;
    var n1Count := 1;
    while n1Count <= 128
      invariant 0 <= m <= 64 && (n1Count == 2 * m + 1 || (n1Count == 2 * m + 2 && m < 64))
      invariant Tracks(Dcos(f), 6 * m, freqDco, hsTmp, n1Tmp)
    {
      Parity(m);
      if n1Count % 2 == 1 {
        n1Count := n1Count + 1;
        continue;
      }
      freqDco, hsTmp, n1Tmp := SearchHsDivs(f, n1Count, m, freqDco, hsTmp, n1Tmp);
      m := m + 1;
      n1Count := n1Count + 1;
    }
    assert m == 64;
    TracksResult(Dcos(f), freqDco, hsTmp, n1Tmp);
    if hsTmp == 0 || n1Tmp == 0 {
      return None;
    }
    return Some(Divider(hsTmp, n1Tmp));
  }

  /** The inner loop over the HS dividers, for one even n1 (the m-th one). */
  method SearchHsDivs(f: nat, n1Count: nat, ghost m: nat, freqDco0: nat, hsTmp0: nat, n1Tmp0: nat)
    returns (freqDco: nat, hsTmp: nat, n1Tmp: nat)
    requires m < 64 && n1Count == 2 * m + 2
    requires Tracks(Dcos(f), 6 * m, freqDco0, hsTmp0, n1Tmp0)
    ensures Tracks(Dcos(f), 6 * m + 6, freqDco, hsTmp, n1Tmp)
  {
    ghost var v := Dcos(f);
    freqDco, hsTmp, n1Tmp := freqDco0, hsTmp0, n1Tmp0;
    var h := 0;
    while h < |HsDivs|
      invariant 0 <= h <= |HsDivs|
      invariant Tracks(v, 6 * m + h, freqDco, hsTmp, n1Tmp)
    {
      CandidateAt(f, m, h);
      var freqTmp := Dco(f, Divider(HsDivs[h], n1Count));
      TracksStep(v, 6 * m + h, freqDco, hsTmp, n1Tmp, freqTmp, Divider(HsDivs[h], n1Count));
      if freqTmp >= DcoMin && freqTmp <= freqDco {
        freqDco := freqTmp;
        hsTmp := HsDivs[h];
        n1Tmp := n1Count;
      }
      h := h + 1;
    }
  }

  /*
   * Register fields. HS_DIV is stored as hs - 4 in 3 bits, N1 as n1 - 1 in 7
   * bits, RFREQ as a 10-bit integer part and a 28-bit fraction; the driver
   * computes them in uint32_t.
   */

  /** The bytes a uint32_t expression is truncated to when stored in a uint8_t register. */
  function Byte(x: bv32): bv8 {
    (x & 0xFF) as bv8
  }

  /** A uint8_t register, or a small field value, as a uint32_t. */
  function Widen(b: bv8): bv32 {
    b as bv32
  }

  /** _make_freq_regs' packing of the four fields into registers 7..12, mirrored to 13..18. */
  function Pack(hs: bv32, n1: bv32, hi: bv32, lo: bv32): (regs: seq<bv8>)
    ensures |regs| == FreqRegsNum
  {
    Mirrored(FreqBytes(hs, n1, hi, lo))
  }

  /** The values of registers 7..12. */
  function FreqBytes(hs: bv32, n1: bv32, hi: bv32, lo: bv32): (six: seq<bv8>)
    ensures |six| == 6
  {
    [Byte((hs << 5) | (n1 >> 2)), Byte((n1 << 6) | (hi >> 4)), Byte((hi << 4) | (lo >> 24)),
     Byte((lo >> 16) & 0xFF), Byte((lo >> 8) & 0xFF), Byte(lo & 0xFF)]
  }

  /** Twelve registers each holding its value from the six, or its mirror's. */
  lemma MirroredFrom(regs: seq<bv8>, six: seq<bv8>)
    requires |regs| == FreqRegsNum && |six| == 6
    requires regs[0] == six[0] && regs[1] == six[1] && regs[2] == six[2]
    requires regs[3] == six[3] && regs[4] == six[4] && regs[5] == six[5]
    requires regs[6] == six[0] && regs[7] == six[1] && regs[8] == six[2]
    requires regs[9] == six[3] && regs[10] == six[4] && regs[11] == six[5]
    ensures regs == Mirrored(six)
  {
    assert forall i :: 0 <= i < 6 ==> regs[i] == six[i] && regs[i + 6] == six[i];
  }

  /** Registers 7..12 followed by their copies in 13..18. */
  function Mirrored(six: seq<bv8>): (regs: seq<bv8>)
    requires |six| == 6
    ensures |regs| == FreqRegsNum
  {
    six + six
  }

  /** The register of a given address, in a block read from or written to 7..18. */
  function At(regs: seq<bv8>, addr: nat): bv32
    requires |regs| == FreqRegsNum && StartAddr <= addr < StartAddr + FreqRegsNum
  {
    Widen(regs[addr - StartAddr])
  }

  /** The unpacking shared by _calculate_freq and _calculate_fxtal. */
  function RfreqLo(regs: seq<bv8>): bv32
    requires |regs| == FreqRegsNum
  {
    (0xFF & At(regs, 12)) | ((0xFF & At(regs, 11)) << 8) | ((0xFF & At(regs, 10)) << 16) | ((0xF & At(regs, 9)) << 24)
  }

  function RfreqHi(regs: seq<bv8>): bv32
    requires |regs| == FreqRegsNum
  {
    ((0xF0 & At(regs, 9)) >> 4) | ((0x3F & At(regs, 8)) << 4)
  }

  function HsField(regs: seq<bv8>): bv32
    requires |regs| == FreqRegsNum
  {
    (0xE0 & At(regs, 7)) >> 5
  }

  function N1Field(regs: seq<bv8>): bv32
    requires |regs| == FreqRegsNum
  {
    ((0xC0 & At(regs, 8)) >> 6) | ((0x1F & At(regs, 7)) << 2)
  }

  /** Registers 13..18 repeat registers 7..12. */
  lemma PackMirrors(hs: bv32, n1: bv32, hi: bv32, lo: bv32)
    ensures forall i :: 0 <= i < 6 ==> Pack(hs, n1, hi, lo)[i + 6] == Pack(hs, n1, hi, lo)[i]
  {
  }

  /** Unpacking what was packed gives back the four fields, as long as each fits its width. */
  lemma PackRoundTrip(hs: bv32, n1: bv32, hi: bv32, lo: bv32)
    requires hs < 8 && n1 < 128 && hi < 1024 && lo < 0x1000_0000
    ensures HsField(Pack(hs, n1, hi, lo)) == hs
    ensures N1Field(Pack(hs, n1, hi, lo)) == n1
    ensures RfreqHi(Pack(hs, n1, hi, lo)) == hi
    ensures RfreqLo(Pack(hs, n1, hi, lo)) == lo
  {
    UnpackHs(hs, n1, hi, lo);
    UnpackN1(hs, n1, hi, lo);
    UnpackHi(hs, n1, hi, lo);
    UnpackLo(hs, n1, hi, lo);
  }

  lemma UnpackHs(hs: bv32, n1: bv32, hi: bv32, lo: bv32)
    requires hs < 8 && n1 < 128 && hi < 1024 && lo < 0x1000_0000
    ensures HsField(Pack(hs, n1, hi, lo)) == hs
  {
  }

  lemma UnpackN1(hs: bv32, n1: bv32, hi: bv32, lo: bv32)
    requires hs < 8 && n1 < 128 && hi < 1024 && lo < 0x1000_0000
    ensures N1Field(Pack(hs, n1, hi, lo)) == n1
  {
  }

  lemma UnpackHi(hs: bv32, n1: bv32, hi: bv32, lo: bv32)
    requires hs < 8 && n1 < 128 && hi < 1024 && lo < 0x1000_0000
    ensures RfreqHi(Pack(hs, n1, hi, lo)) == hi
  {
  }

  lemma UnpackLo(hs: bv32, n1: bv32, hi: bv32, lo: bv32)
    requires hs < 8 && n1 < 128 && hi < 1024 && lo < 0x1000_0000
    ensures RfreqLo(Pack(hs, n1, hi, lo)) == lo
  {
  }

  /**
   * The encoded fields of a divider pair: hs - 4 and n1 - 1, which the
   * driver converts from double to uint32_t; both are below 2^8.
   */
  function EncodeHs(d: Divider): bv8
    requires 4 <= d.hs <= 11
  {
    (d.hs - 4) as bv8
  }

  function EncodeN1(d: Divider): bv8
    requires 1 <= d.n1 <= 128
  {
    (d.n1 - 1) as bv8
  }

  /** _calculate_freq's decoding of HS_DIV. */
  function DecodeHs(field: bv32): bv32 {
    field + 4
  }

  /** _calculate_freq's decoding of N1: field 0 is 1, any other field is field + 1 rounded down to even. */
  function DecodeN1(field: bv32): bv32 {
    if field == 0 then 1 else 0xFE & (field + 1)
  }

  /** The pairs the divider selection can produce. */
  predicate Selectable(d: Divider) {
    d.hs in HsDivs && (d.n1 == 1 || (d.n1 % 2 == 0 && 2 <= d.n1 <= 128))
  }

  lemma SelectedAreSelectable(f: nat)
    ensures DividerFor(f).Some? ==> Selectable(DividerFor(f).value)
  {
    if f < FixedHs5Min && DividerFor(f).Some? {
      CandidateSelectable(Best(Dcos(f), CandidateCount).value);
    }
  }

  /** The HS_DIV field fits its 3 bits and decodes to the selected HS_DIV. */
  lemma DecodeRecoversHs(d: Divider)
    requires Selectable(d)
    ensures EncodeHs(d) < 8
    ensures DecodeHs(Widen(EncodeHs(d))) as int == d.hs
  {
    var hs := d.hs;
    assert 4 <= hs <= 11;
    FieldValue(hs - 4);
    DecodeHsValue(EncodeHs(d));
  }

  /** The N1 field fits its 7 bits and decodes to the selected N1. */
  lemma DecodeRecoversN1(d: Divider)
    requires Selectable(d)
    ensures EncodeN1(d) < 128
    ensures DecodeN1(Widen(EncodeN1(d))) as int == d.n1
  {
    var n1 := d.n1;
    var x := EncodeN1(d);
    FieldValue(n1 - 1);
    if n1 != 1 {
      OddField(x);
    }
    DecodeN1Value(x);
  }

  lemma FieldValue(n: int)
    requires 0 <= n < 0x100
    ensures (n as bv8) as int == n
  {
    assert n % 0x100 == n;
  }

  lemma OddField(x: bv8)
    requires x as int % 2 == 1
    ensures x & 1 == 1
  {
  }

  lemma DecodeHsValue(x: bv8)
    requires x < 8
    ensures DecodeHs(Widen(x)) as int == x as int + 4
  {
  }

  lemma DecodeN1Value(x: bv8)
    requires x < 128 && (x == 0 || x & 1 == 1)
    ensures DecodeN1(Widen(x)) as int == x as int + 1
  {
    DecodeN1Step(x);
    WidenSucc(x);
  }

  lemma DecodeN1Step(x: bv8)
    requires x < 128 && (x == 0 || x & 1 == 1)
    ensures DecodeN1(Widen(x)) == Widen(x + 1)
  {
  }

  lemma WidenSucc(x: bv8)
    requires x < 128
    ensures Widen(x + 1) as int == x as int + 1
  {
  }

  /** _calculate_fxtal's decoding of N1, as written: it tests for field 1 where _calculate_freq tests for 0. */
  function FxtalN1AsWritten(field: bv32): bv32 {
    if field == 1 then 1 else 0xFE & (field + 1)
  }

  /**
   * The two decoders disagree exactly on fields 0 and 1: the field of N1 = 1
   * (every target from 970 MHz up) decodes to 0 in _calculate_fxtal, and the
   * field of N1 = 2 decodes to 1.
   */
  lemma FxtalN1AsWrittenDisagrees(field: bv32)
    ensures FxtalN1AsWritten(Widen(EncodeN1(Divider(5, 1)))) == 0 && DecodeN1(Widen(EncodeN1(Divider(5, 1)))) == 1
    ensures FxtalN1AsWritten(Widen(EncodeN1(Divider(4, 2)))) == 1 && DecodeN1(Widen(EncodeN1(Divider(4, 2)))) == 2
    ensures field >= 2 ==> FxtalN1AsWritten(field) == DecodeN1(field)
  {
  }

  /**
   * The correction is to decode N1 in _calculate_fxtal with _calculate_freq's
   * own decoder, DecodeN1. It recovers every selectable N1, while the decoder
   * as written recovers exactly those above 2.
   */
  lemma FxtalN1RecoversDivider(d: Divider)
    requires Selectable(d)
    ensures DecodeN1(Widen(EncodeN1(d))) as int == d.n1
    ensures FxtalN1AsWritten(Widen(EncodeN1(d))) as int == d.n1 <==> d.n1 > 2
  {
    DecodeRecoversN1(d);
    FieldValue(d.n1 - 1);
    FxtalN1AsWrittenDisagrees(Widen(EncodeN1(d)));
    if d.n1 == 2 {
      assert EncodeN1(d) == 1;
    }
  }

  /**
   * RFREQ = f * HS_DIV * N1 / fxtal, split into the uint32_t integer part and
   * the 28-bit fraction: a floating-point computation, supplied as a function
   * of the target and the pair.
   */
  type RfreqFn = (nat, Divider) -> (bv32, bv32)

  /** The target actually searched for: below 10 MHz it is raised to 10 MHz. */
  function Clamped(f: nat): (g: nat)
    ensures g >= FreqFloor && (f >= FreqFloor ==> g == f)
  {
    if f < FreqFloor then FreqFloor else f
  }

  /** The twelve register values _make_freq_regs produces, or None when no pair is found. */
  function FreqRegs(f: nat, rfreq: RfreqFn): (r: Option<seq<bv8>>)
    ensures r.Some? ==> |r.value| == FreqRegsNum
  {
    var g := Clamped(f);
    match DividerFor(g)
    case None => None
    case Some(d) =>
      var (hi, lo) := rfreq(g, d);
      Some(Pack(Widen(EncodeHs(d)), Widen(EncodeN1(d)), hi, lo))
  }

  /** A target with a divider pair whose RFREQ parts fit their 10 and 28 bits. */
  predicate Solvable(f: nat, rfreq: RfreqFn) {
    var g := Clamped(f);
    && DividerFor(g).Some?
    && rfreq(g, DividerFor(g).value).0 < 1024
    && rfreq(g, DividerFor(g).value).1 < 0x1000_0000
  }

  /** The registers of a solvable target decode to the selected HS_DIV. */
  lemma FreqRegsHs(f: nat, rfreq: RfreqFn)
    requires Solvable(f, rfreq)
    ensures DecodeHs(HsField(FreqRegs(f, rfreq).value)) as int == DividerFor(Clamped(f)).value.hs
  {
    var d := DividerFor(Clamped(f)).value;
    var (hi, lo) := rfreq(Clamped(f), d);
    SelectedAreSelectable(Clamped(f));
    DecodeRecoversHs(d);
    DecodeRecoversN1(d);
    UnpackHs(Widen(EncodeHs(d)), Widen(EncodeN1(d)), hi, lo);
  }

  /** The registers of a solvable target decode to the selected N1. */
  lemma FreqRegsN1(f: nat, rfreq: RfreqFn)
    requires Solvable(f, rfreq)
    ensures DecodeN1(N1Field(FreqRegs(f, rfreq).value)) as int == DividerFor(Clamped(f)).value.n1
  {
    var d := DividerFor(Clamped(f)).value;
    var (hi, lo) := rfreq(Clamped(f), d);
    SelectedAreSelectable(Clamped(f));
    DecodeRecoversHs(d);
    DecodeRecoversN1(d);
    UnpackN1(Widen(EncodeHs(d)), Widen(EncodeN1(d)), hi, lo);
  }

  /** The registers of a solvable target hold its RFREQ, and 13..18 repeat 7..12. */
  lemma FreqRegsRfreq(f: nat, rfreq: RfreqFn)
    requires Solvable(f, rfreq)
    ensures var regs := FreqRegs(f, rfreq).value;
      var d := DividerFor(Clamped(f)).value;
      && RfreqHi(regs) == rfreq(Clamped(f), d).0
      && RfreqLo(regs) == rfreq(Clamped(f), d).1
      && forall i :: 0 <= i < 6 ==> regs[i + 6] == regs[i]
  {
    var d := DividerFor(Clamped(f)).value;
    var (hi, lo) := rfreq(Clamped(f), d);
    SelectedAreSelectable(Clamped(f));
    DecodeRecoversHs(d);
    DecodeRecoversN1(d);
    UnpackHi(Widen(EncodeHs(d)), Widen(EncodeN1(d)), hi, lo);
    UnpackLo(Widen(EncodeHs(d)), Widen(EncodeN1(d)), hi, lo);
    PackMirrors(Widen(EncodeHs(d)), Widen(EncodeN1(d)), hi, lo);
  }

  /** The writes set_freq issues: register values to addresses 7..18, ascending. */
  function FreqPlan(regs: seq<bv8>): (plan: seq<(int, bv16)>)
    requires |regs| == FreqRegsNum
    ensures |plan| == FreqRegsNum
    ensures forall i :: 0 <= i < FreqRegsNum ==> plan[i] == (StartAddr + i, ToBus(regs[i]))
  {
    seq(FreqRegsNum, i requires 0 <= i < FreqRegsNum => (StartAddr + i, ToBus(regs[i])))
  }

  /** The addresses get_freq reads, ascending. */
  function FreqAddrs(): (addrs: seq<int>)
    ensures |addrs| == FreqRegsNum
    ensures forall i :: 0 <= i < FreqRegsNum ==> addrs[i] == StartAddr + i
  {
    seq(FreqRegsNum, i requires 0 <= i < FreqRegsNum => StartAddr + i)
  }

  /** The register bytes the bus values read are stored as. */
  function RegsOf(values: seq<bv16>): (regs: seq<bv8>)
    ensures |regs| == |values|
    ensures forall i :: 0 <= i < |values| ==> regs[i] == FromBus(values[i])
  {
    if values == [] then [] else RegsOf(values[..|values| - 1]) + [FromBus(values[|values| - 1])]
  }

  /** What set_freq does: nothing and a fault when unsolvable, else the twelve writes. */
  function SetFreqRun(b: Bus, f: nat, rfreq: RfreqFn): Run
  {
    match FreqRegs(f, rfreq)
    case None => Run(b, 0, Fail(Unsolvable))
    case Some(regs) => WriteAll(b, FreqPlan(regs))
  }

  /** An unsolvable target raises std::runtime_error before any write, which the error-code form cannot catch. */
  lemma SetFreqUnsolvable(b: Bus, f: nat, rfreq: RfreqFn)
    requires 708_750_000 < Clamped(f) < FixedHs5Min
    ensures SetFreqRun(b, f, rfreq) == Run(b, 0, Fail(Unsolvable))
    ensures Catch(SetFreqRun(b, f, rfreq).outcome) == Terminated
  {
    NoDividerInGap(Clamped(f));
  }

  /** The decoded integer fields of a block of frequency registers. */
  datatype Fields = Fields(hs: bv32, n1: bv32, rfreqHi: bv32, rfreqLo: bv32)

  function Decode(regs: seq<bv8>): Fields
    requires |regs| == FreqRegsNum
  {
    Fields(DecodeHs(HsField(regs)), DecodeN1(N1Field(regs)), RfreqHi(regs), RfreqLo(regs))
  }

  /** The si57x driver: a chip_base with one-byte registers. */
  class Si57x {
    const base: ChipBase

    ghost predicate Valid()
      reads this
    {
      base.width == W8
    }

    /** The transport arguments are accepted but not passed on: only setup_io installs a transport. */
    constructor (regRead: Option<ReadFn>, regWrite: Option<WriteFn>)
      ensures Valid() && fresh(base)
      ensures base.State() == Bus(W8, 0, None, None, [])
    {
      base := new ChipBase(W8, None, None, 0);
    }

    method Reset() returns (o: Outcome)
      modifies base`trace
      ensures BusWrite(old(base.State()), 135, 0x80) == Done(base.State(), o)
    {
      o := base.Write(135, 0x80);
    }

    method FreezeDco(enabled: bool) returns (o: Outcome)
      modifies base`trace
      ensures BusWrite(old(base.State()), 137, if enabled then 0x10 else 0x00) == Done(base.State(), o)
    {
      o := base.Write(137, if enabled then 0x10 else 0x00);
    }

    method ApplyFreq() returns (o: Outcome)
      modifies base`trace
      ensures BusWrite(old(base.State()), 135, 0x40) == Done(base.State(), o)
    {
      o := base.Write(135, 0x40);
    }

    /** _make_freq_regs: fills the caller's twelve registers, or leaves them and reports false. */
    method MakeFreqRegs(f: nat, rfreq: RfreqFn, reg: array<bv8>) returns (ok: bool)
      requires reg.Length == FreqRegsNum
      modifies reg
      ensures ok <==> FreqRegs(f, rfreq).Some?
      ensures ok ==> reg[..] == FreqRegs(f, rfreq).value
      ensures !ok ==> reg[..] == old(reg[..])
    {
      var g := f;
      if g < FreqFloor {
        g := FreqFloor;
      }
      var d := CalculateDivider(g);
      if d.None? {
        return false;
      }
      var (hi, lo) := rfreq(g, d.value);
      var six := FreqBytes(Widen(EncodeHs(d.value)), Widen(EncodeN1(d.value)), hi, lo);
      StoreFreqRegs(reg, six);
      MirroredFrom(reg[..], six);
      return true;
    }

    /** The stores at the end of _make_freq_regs: each of registers 7..12 and its mirror in 13..18. */
    static method StoreFreqRegs(reg: array<bv8>, six: seq<bv8>)
      requires reg.Length == FreqRegsNum && |six| == 6
      modifies reg
      ensures reg[0] == six[0] && reg[1] == six[1] && reg[2] == six[2]
      ensures reg[3] == six[3] && reg[4] == six[4] && reg[5] == six[5]
      ensures reg[6] == six[0] && reg[7] == six[1] && reg[8] == six[2]
      ensures reg[9] == six[3] && reg[10] == six[4] && reg[11] == six[5]
    {
      reg[0] := six[0];
      reg[6] := reg[0];
      reg[1] := six[1];
      reg[7] := reg[1];
      reg[2] := six[2];
      reg[8] := reg[2];
      reg[3] := six[3];
      reg[9] := reg[3];
      reg[4] := six[4];
      reg[10] := reg[4];
      reg[5] := six[5];
      reg[11] := reg[5];
    }

    method SetFreq(f: nat, rfreq: RfreqFn) returns (o: Outcome)
      requires Valid()
      modifies base`trace
      ensures var r := SetFreqRun(old(base.State()), f, rfreq);
        base.State() == r.bus && o == r.outcome
    {
      var reg := new bv8[FreqRegsNum];
      var ok := MakeFreqRegs(f, rfreq, reg);
      if !ok {
        return Fail(Unsolvable);
      }
      o := WriteFreqRegs(reg);
    }

    /** The write loop of set_freq: registers 7..18 in ascending order, stopping at the first failure. */
    method WriteFreqRegs(reg: array<bv8>) returns (o: Outcome)
      requires reg.Length == FreqRegsNum
      modifies base`trace
      ensures var r := WriteAll(old(base.State()), FreqPlan(reg[..]));
        base.State() == r.bus && o == r.outcome
    {
      ghost var b0 := base.State();
      ghost var plan := FreqPlan(reg[..]);
      var addr := StartAddr;
      var i := 0;
      o := Pass;
      assert plan[..0] == [];
      while i < FreqRegsNum
        invariant 0 <= i <= FreqRegsNum && addr == StartAddr + i
        invariant base.State() == WriteAll(b0, plan[..i]).bus
        invariant WriteAll(b0, plan[..i]).outcome.Pass?
        invariant o.Pass?
      {
        WriteAllStep(b0, plan, i);
        o := base.Write(addr, ToBus(reg[i]));
        if o.Fail? {
          WriteAllStops(b0, plan, i + 1);
          return;
        }
        addr := addr + 1;
        i := i + 1;
      }
      assert plan[..FreqRegsNum] == plan;
    }

    method SetFreqReport(f: nat, rfreq: RfreqFn) returns (error: Reported)
      requires Valid()
      modifies base`trace
      ensures var r := SetFreqRun(old(base.State()), f, rfreq);
        base.State() == r.bus && error == Catch(r.outcome)
    {
      var o := SetFreq(f, rfreq);
      error := Catch(o);
    }

    /**
     * get_freq: reads 7..18 ascending, each into a zeroed register, then
     * decodes them; the frequency formula itself is floating point.
     */
    method GetFreq() returns (fields: Option<Fields>, o: Outcome)
      requires Valid()
      modifies base`trace
      ensures var r := ReadAll(old(base.State()), FreqAddrs());
        && base.State() == r.run.bus && o == r.run.outcome
        && (o.Pass? ==> |r.values| == FreqRegsNum && fields == Some(Decode(RegsOf(r.values))))
        && (o.Fail? ==> fields.None?)
    {
      var reg := new bv8[FreqRegsNum];
      o := ReadFreqRegs(reg);
      fields := None;
      if o.Pass? {
        fields := Some(Decode(reg[..]));
      }
    }

    /** The read loop of get_freq: registers 7..18 in ascending order, stopping at the first failure. */
    method ReadFreqRegs(reg: array<bv8>) returns (o: Outcome)
      requires reg.Length == FreqRegsNum
      modifies base`trace, reg
      ensures var r := ReadAll(old(base.State()), FreqAddrs());
        && base.State() == r.run.bus && o == r.run.outcome
        && (o.Pass? ==> |r.values| == FreqRegsNum && reg[..] == RegsOf(r.values))
    {
      ghost var b0 := base.State();
      ghost var addrs := FreqAddrs();
      ghost var r := ReadAll(b0, addrs[..0]);
      var addr := StartAddr;
      var i := 0;
      o := Pass;
      assert addrs[..0] == [];
      while i < FreqRegsNum
        invariant 0 <= i <= FreqRegsNum && addr == StartAddr + i
        invariant r == ReadAll(b0, addrs[..i])
        invariant base.State() == r.run.bus && r.run.outcome.Pass?
        invariant StoredPrefix(reg[..], r.values)
        invariant o.Pass?
      {
        ReadAllStep(b0, addrs, i);
        assert addrs[i] == addr;
        ghost var before := reg[..];
        var value;
        value, o := base.Read(addr, 0);
        reg[i] := FromBus(value);
        if o.Fail? {
          ReadAllStops(b0, addrs, i + 1);
          return;
        }
        StoredPrefixStep(before, reg[..], r.values, value);
        r := ReadAll(b0, addrs[..i + 1]);
        addr := addr + 1;
        i := i + 1;
      }
      assert addrs[..FreqRegsNum] == addrs;
      StoredAll(reg[..], r.values);
    }
  }

  ghost predicate StoredPrefix(regs: seq<bv8>, values: seq<bv16>)
  {
    |values| <= |regs| && forall j :: 0 <= j < |values| ==> regs[j] == FromBus(values[j])
  }

  lemma StoredPrefixStep(before: seq<bv8>, after: seq<bv8>, values: seq<bv16>, v: bv16)
    requires StoredPrefix(before, values) && |values| < |before|
    requires after == before[|values| := FromBus(v)]
    ensures StoredPrefix(after, values + [v])
  {
  }

  lemma StoredAll(regs: seq<bv8>, values: seq<bv16>)
    requires StoredPrefix(regs, values) && |values| == |regs|
    ensures regs == RegsOf(values)
  {
  }
}
