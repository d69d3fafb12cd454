/**
 * LTC6953 clock distributor (include/chappi_ltc6953.h): a seven-byte copy in
 * memory of the chip registers h00, h02 and h06..h0A, the tracker of bank
 * slots changed but not yet sent, and the operations over them.
 */
module Ltc6953 {
  import opened Base
  import opened Registers

  const RegisterMaxNum: nat := 7

  /** The defaults: h00 has D0 and D5 set, h02 has D3 set, the other five bytes are 0. */
  const Defaults: seq<bv8> := [0x21, 0x08, 0, 0, 0, 0, 0]

  /** The chip register each slot of the bank holds a copy of. */
  const ChipAddrs: seq<int> := [0x00, 0x02, 0x06, 0x07, 0x08, 0x09, 0x0A]

  /** h00 bit 2, VCOOK, and h02 bit 7, PDALL. */
  function GetVcoOk(w: bv8): bv8 { (w >> 2) & 1 }
  function GetPdAll(w: bv8): bv8 { (w >> 7) & 1 }
  function SetPdAll(w: bv8, v: bv8): bv8 { (w & 0x7F) | ((v & 1) << 7) }

  /** The bank's layout: seven slots, the status register with VCOOK clear, the powerdown register with PDALL clear. */
  lemma DefaultBank()
    ensures |Defaults| == |ChipAddrs| == RegisterMaxNum
    ensures GetVcoOk(Defaults[0]) == 0 && GetPdAll(Defaults[1]) == 0
    ensures forall i, j :: 0 <= i < j < RegisterMaxNum ==> ChipAddrs[i] < ChipAddrs[j]
  {
  }

  /** powerdown's byte: PDALL becomes the flag, the other seven bits stay. */
  function PowerdownByte(w: bv8, enabled: bool): (r: bv8)
    ensures GetPdAll(r) == (if enabled then 1 else 0)
    ensures r & 0x7F == w & 0x7F
  {
    SetPdAll(w, if enabled then 1 else 0)
  }

  /** is_vco_valid's answer for the byte read: VCOOK set. */
  predicate VcoOk(w: bv8) {
    GetVcoOk(w) == 1
  }

  /*
   * update_changes drains the tracker: it takes the front entry, writes that
   * slot, then clears every copy of it, until the tracker is empty.
   */

  /** The slots update_changes writes, in order: each pending slot once, by first occurrence from the front. */
  function Order(p: seq<SizeT>): (r: seq<SizeT>)
    ensures forall x :: x in r <==> x in p
    ensures forall i, j :: 0 <= i < j < |r| ==> r[i] != r[j]
    ensures p != [] ==> r != [] && r[0] == p[0]
    decreases |p|
  {
    if p == [] then [] else [p[0]] + Order(Without(p, p[0]))
  }

  /** The tracker after k rounds of the drain loop. */
  function Remaining(p: seq<SizeT>, k: nat): seq<SizeT>
  {
    if k == 0 then p
    else
      var q := Remaining(p, k - 1);
      if q == [] then [] else Without(q, q[0])
  }

  /** After k rounds exactly the slots not yet written are pending, in the same drain order. */
  lemma {:induction false} RemainingOrder(p: seq<SizeT>, k: nat)
    requires k <= |Order(p)|
    ensures Order(Remaining(p, k)) == Order(p)[k..]
  {
    if k > 0 {
      RemainingOrder(p, k - 1);
      var q := Remaining(p, k - 1);
      assert Order(q) == Order(p)[k - 1..];
      assert q != [];
      assert Order(q) == [q[0]] + Order(Without(q, q[0]));
    }
  }

  /**
   * The drain: the round k writes the k-th slot of the drain order; the
   * tracker is empty after as many rounds as there are distinct slots, and
   * after a round that fails the failing slot and every slot not yet
   * written are still pending.
   */
  lemma DrainRounds(p: seq<SizeT>, k: nat)
    requires k <= |Order(p)|
    ensures Remaining(p, k) == [] <==> k == |Order(p)|
    ensures k < |Order(p)| ==> Remaining(p, k)[0] == Order(p)[k]
    ensures forall x :: x in Remaining(p, k) <==> x in Order(p)[k..]
  {
    RemainingOrder(p, k);
    var q := Remaining(p, k);
    if q != [] {
      assert q[0] in Order(q);
    }
  }

  /**
   * One round of the drain, as update_changes runs it: the front of what is
   * pending is the next slot of the drain order, its write is the next step
   * of the drain plan, and clearing it leaves what the next round starts from.
   */
  lemma DrainStep(bank: seq<bv8>, p: seq<SizeT>, k: nat)
    requires InBank(p, |bank|)
    requires k <= |Order(p)| && Remaining(p, k) != []
    ensures k < |Order(p)|
    ensures var n := Remaining(p, k)[0];
      && n < |bank| && n == Order(p)[k]
      && DrainPlan(bank, p)[k] == (n as int, ToBus(bank[n]))
      && Remaining(p, k + 1) == Without(Remaining(p, k), n)
  {
    DrainRounds(p, k);
    OrderInBank(p, |bank|);
    SlotPlanAt(bank, Order(p), k);
  }

  /** Every slot listed is a slot of a bank of the given size. */
  predicate InBank(nums: seq<SizeT>, size: nat) {
    forall i :: 0 <= i < |nums| ==> nums[i] < size
  }

  /** _update_registers(n1, ..., nk): slot n written to bus address n with its byte in memory, in argument order. */
  function SlotPlan(bank: seq<bv8>, nums: seq<SizeT>): (plan: seq<(int, bv16)>)
    requires InBank(nums, |bank|)
    ensures |plan| == |nums|
  {
    seq(|nums|, i requires 0 <= i < |nums| => (nums[i] as int, ToBus(bank[nums[i]])))
  }

  lemma SlotPlanAt(bank: seq<bv8>, nums: seq<SizeT>, i: nat)
    requires InBank(nums, |bank|)
    requires i < |nums|
    ensures SlotPlan(bank, nums)[i] == (nums[i] as int, ToBus(bank[nums[i]]))
  {
  }

  lemma OrderInBank(p: seq<SizeT>, size: nat)
    requires InBank(p, size)
    ensures InBank(Order(p), size)
  {
    var order := Order(p);
    forall i | 0 <= i < |order|
      ensures order[i] < size
    {
      assert order[i] in p;
    }
  }

  /** update_changes' writes: _update_registers over the drain order. */
  function DrainPlan(bank: seq<bv8>, p: seq<SizeT>): (plan: seq<(int, bv16)>)
    requires InBank(p, |bank|)
    ensures |plan| == |Order(p)|
  {
    OrderInBank(p, |bank|);
    SlotPlan(bank, Order(p))
  }

  /**
   * The bus address is the slot number, as written; the chip register of
   * slot 1 is h02, which is where powerdown writes the same byte.
   */
  lemma SlotOneGoesToAddressOne(bank: seq<bv8>)
    requires |bank| == RegisterMaxNum
    ensures DrainPlan(bank, [1])[0].0 == 1
    ensures ChipAddrs[1] == 0x02 != DrainPlan(bank, [1])[0].0
  {
    assert Order([1]) == [1];
    SlotPlanAt(bank, [1], 0);
  }

  /** The evidently intended writes: each slot to the chip register it holds a copy of. */
  function ChipPlan(bank: seq<bv8>, nums: seq<SizeT>): (plan: seq<(int, bv16)>)
    requires |bank| == RegisterMaxNum
    requires InBank(nums, RegisterMaxNum)
    ensures |plan| == |nums|
  {
    seq(|nums|, i requires 0 <= i < |nums| => (ChipAddrs[nums[i]], ToBus(bank[nums[i]])))
  }

  /** The corrected drain: the drain order, each slot to its chip register. */
  function ChipDrainPlan(bank: seq<bv8>, p: seq<SizeT>): (plan: seq<(int, bv16)>)
    requires |bank| == RegisterMaxNum
    requires InBank(p, RegisterMaxNum)
    ensures |plan| == |Order(p)|
  {
    OrderInBank(p, RegisterMaxNum);
    ChipPlan(bank, Order(p))
  }

  /**
   * The corrected drain sends every slot's byte to its own chip register,
   * distinct slots to distinct registers, and slot 1 to h02 as powerdown does.
   */
  lemma ChipPlanAddresses(bank: seq<bv8>, p: seq<SizeT>)
    requires |bank| == RegisterMaxNum
    requires InBank(p, RegisterMaxNum)
    ensures var order := Order(p);
      var plan := ChipDrainPlan(bank, p);
      && InBank(order, RegisterMaxNum)
      && (forall i :: 0 <= i < |plan| ==> plan[i] == (ChipAddrs[order[i]], ToBus(bank[order[i]])))
      && (forall i, j :: 0 <= i < j < |plan| ==> plan[i].0 != plan[j].0)
      && (forall i :: 0 <= i < |plan| && order[i] == 1 ==> plan[i].0 == 0x02)
  {
    var order := Order(p);
    var plan := ChipDrainPlan(bank, p);
    OrderInBank(p, RegisterMaxNum);
    forall i, j | 0 <= i < j < |plan|
      ensures plan[i].0 != plan[j].0
    {
      DefaultBank();
      assert order[i] != order[j];
      if order[i] < order[j] {
        assert ChipAddrs[order[i]] < ChipAddrs[order[j]];
      } else {
        assert ChipAddrs[order[j]] < ChipAddrs[order[i]];
      }
    }
  }

  /** The ltc6953 driver: its chip_base, its mutable registers_map and its registers_update. */
  class Ltc6953 {
    const base: ChipBase
    const bank: array<bv8>
    const pending: RegistersUpdate

    ghost predicate Valid()
      reads this, pending
    {
      && base.width == W8
      && bank.Length == RegisterMaxNum
      && pending.maxNum == RegisterMaxNum as SizeT
      && pending.Inv()
    }

    /** Unlike most drivers, this one passes the transport and the device address on to chip_base. */
    constructor (regRead: Option<ReadFn>, regWrite: Option<WriteFn>, devAddr: Addr)
      ensures Valid() && fresh(base) && fresh(bank) && fresh(pending)
      ensures base.State() == Bus(W8, devAddr, regRead, regWrite, [])
      ensures bank[..] == Defaults && pending.changed == []
    {
      base := new ChipBase(W8, regRead, regWrite, devAddr);
      bank := new bv8[RegisterMaxNum](i requires 0 <= i < RegisterMaxNum => Defaults[i]);
      pending := new RegistersUpdate(RegisterMaxNum as SizeT);
    }

    /** Every pending slot is a slot of the bank. */
    lemma PendingInBank()
      requires Valid()
      ensures InBank(pending.changed, bank.Length)
    {
      forall i | 0 <= i < |pending.changed|
        ensures pending.changed[i] < bank.Length
      {
        assert pending.changed[i] in pending.changed;
        ValidMeansBelowMax(pending.maxNum, pending.changed[i]);
      }
    }

    /**
     * update_changes: the writes of the drain plan for the bank as it is,
     * stopping at the first failure; the tracker loses the slots written.
     */
    method UpdateChanges() returns (o: Outcome)
      requires Valid()
      modifies base`trace, pending`changed
      ensures Valid()
      ensures InBank(old(pending.changed), bank.Length) &&
        var r := WriteAll(old(base.State()), DrainPlan(bank[..], old(pending.changed)));
        && base.State() == r.bus && o == r.outcome
        && pending.changed == Remaining(old(pending.changed), r.done)
    {
      PendingInBank();
      ghost var b0 := base.State();
      ghost var p0 := pending.changed;
      ghost var order := Order(p0);
      ghost var plan := DrainPlan(bank[..], p0);
      ghost var k := 0;
      o := Pass;
      assert plan[..0] == [];
      var more := pending.IsAnyChanged();
      while more
        invariant Valid()
        invariant k <= |order| && pending.changed == Remaining(p0, k)
        invariant more <==> pending.changed != []
        invariant base.State() == WriteAll(b0, plan[..k]).bus
        invariant WriteAll(b0, plan[..k]).outcome.Pass? && WriteAll(b0, plan[..k]).done == k
        invariant o.Pass?
        decreases |order| - k
      {
        o := DrainRound(b0, p0, k);
        if o.Fail? {
          WriteAllStops(b0, plan, k + 1);
          return;
        }
        k := k + 1;
        more := pending.IsAnyChanged();
      }
      DrainRounds(p0, k);
      assert plan[..k] == plan;
    }

    /**
     * One round of update_changes' loop: get_changed, the write of that slot,
     * and clear_changed of it once the write completed.
     */
    method DrainRound(ghost b0: Bus, ghost p0: seq<SizeT>, ghost k: nat) returns (o: Outcome)
      requires Valid() && InBank(p0, bank.Length)
      requires k <= |Order(p0)| && pending.changed == Remaining(p0, k) && pending.changed != []
      requires var r := WriteAll(b0, DrainPlan(bank[..], p0)[..k]);
        base.State() == r.bus && r.outcome.Pass? && r.done == k
      modifies base`trace, pending`changed
      ensures Valid() && k < |Order(p0)|
      ensures var r := WriteAll(b0, DrainPlan(bank[..], p0)[..k + 1]);
        && base.State() == r.bus && o == r.outcome
        && r.done == (if o.Pass? then k + 1 else k)
        && pending.changed == Remaining(p0, if o.Pass? then k + 1 else k)
    {
      var n := pending.GetChanged();
      DrainStep(bank[..], p0, k);
      WriteAllStep(b0, DrainPlan(bank[..], p0), k);
      o := base.Write(n as int, ToBus(bank[n]));
      if o.Pass? {
        var _ := pending.ClearChanged(n);
      }
    }

    /** _update_registers(nums...): one write per argument, in order, stopping at the first failure. */
    method UpdateRegisters(nums: seq<SizeT>) returns (o: Outcome)
      requires Valid()
      requires InBank(nums, RegisterMaxNum)
      modifies base`trace
      ensures var r := WriteAll(old(base.State()), SlotPlan(bank[..], nums));
        base.State() == r.bus && o == r.outcome
    {
      ghost var b0 := base.State();
      ghost var plan := SlotPlan(bank[..], nums);
      var i := 0;
      o := Pass;
      assert plan[..0] == [];
      while i < |nums|
        invariant 0 <= i <= |nums|
        invariant base.State() == WriteAll(b0, plan[..i]).bus
        invariant WriteAll(b0, plan[..i]).outcome.Pass?
        invariant o.Pass?
      {
        SlotPlanAt(bank[..], nums, i);
        WriteAllStep(b0, plan, i);
        o := base.Write(nums[i] as int, ToBus(bank[nums[i]]));
        if o.Fail? {
          WriteAllStops(b0, plan, i + 1);
          return;
        }
        i := i + 1;
      }
      assert plan[..i] == plan;
    }

    /** reset is unfinished in the driver: it issues nothing and changes nothing. */
    method Reset() returns (o: Outcome)
      ensures o.Pass?
    {
      o := Pass;
    }

    method ResetReport() returns (error: Reported)
      ensures error == Reported(NoError)
    {
      var o := Reset();
      error := Catch(o);
    }

    /** powerdown(enabled): PDALL of h02 in memory, then that byte to address 0x02. */
    method Powerdown(enabled: bool) returns (o: Outcome)
      requires Valid()
      modifies base`trace, bank
      ensures bank[..] == old(bank[..])[1 := PowerdownByte(old(bank[1]), enabled)]
      ensures BusWrite(old(base.State()), 0x02, ToBus(bank[1])) == Done(base.State(), o)
    {
      bank[1] := PowerdownByte(bank[1], enabled);
      o := base.Write(0x02, ToBus(bank[1]));
    }

    /** The intended error-code overload: as written its template arguments do not match noexcept_set_function. */
    method PowerdownReport(enabled: bool) returns (error: Reported)
      requires Valid()
      modifies base`trace, bank
      ensures bank[..] == old(bank[..])[1 := PowerdownByte(old(bank[1]), enabled)]
      ensures var d := BusWrite(old(base.State()), 0x02, ToBus(bank[1]));
        d.bus == base.State() && error == Catch(d.outcome)
    {
      var o := Powerdown(enabled);
      error := Catch(o);
    }

    /**
     * is_vco_valid: h00 in memory is overwritten by a read of address 0,
     * whether or not the read fails; the answer is VCOOK of the byte read.
     */
    method IsVcoValid() returns (valid: bool, o: Outcome)
      requires Valid()
      modifies base`trace, bank
      ensures var g := BusRead(old(base.State()), 0, ToBus(old(bank[0])));
        && base.State() == g.bus && o == g.outcome
        && bank[..] == old(bank[..])[0 := FromBus(g.value)]
        && valid == (o.Pass? && VcoOk(FromBus(g.value)))
    {
      var value;
      value, o := base.Read(0, ToBus(bank[0]));
      bank[0] := FromBus(value);
      valid := o.Pass? && GetVcoOk(bank[0]) == 1;
    }

    method IsVcoValidReport() returns (valid: bool, error: Reported)
      requires Valid()
      modifies base`trace, bank
      ensures var g := BusRead(old(base.State()), 0, ToBus(old(bank[0])));
        && base.State() == g.bus && error == Catch(g.outcome)
        && bank[..] == old(bank[..])[0 := FromBus(g.value)]
        && valid == (g.outcome.Pass? && VcoOk(FromBus(g.value)))
    {
      var o;
      valid, o := IsVcoValid();
      error := Catch(o);
    }
  }
}
