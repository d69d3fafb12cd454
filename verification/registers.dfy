/**
 * registers_update<register_max_num> (include/chappi_register.h): the list
 * of register numbers a driver has changed in memory but not yet sent to the
 * chip. New numbers go to the front; nothing is de-duplicated; clearing a
 * number removes every copy of it.
 */
module Registers {

  /** std::size_t. */
  const SizeMod: int := 0x1_0000_0000_0000_0000
  type SizeT = x: int | 0 <= x < SizeMod

  /**
   * is_valid: the number is rejected when it exceeds register_max_num - 1,
   * computed in size_t; with register_max_num == 0 that difference wraps to
   * the largest size_t and every number passes.
   */
  predicate Valid(maxNum: SizeT, n: SizeT) {
    !(n > (maxNum - 1) % SizeMod)
  }

  lemma ValidMeansBelowMax(maxNum: SizeT, n: SizeT)
    ensures maxNum >= 1 ==> (Valid(maxNum, n) <==> n < maxNum)
    ensures maxNum == 0 ==> Valid(maxNum, n)
  {
  }

  /** std::forward_list::remove(n): every copy of n goes, the rest keep their order. */
  function Without(s: seq<SizeT>, n: SizeT): (r: seq<SizeT>)
    ensures n !in r
    ensures forall x :: x in r <==> x in s && x != n
    ensures |r| <= |s| && (n in s ==> |r| < |s|)
  {
    if s == [] then []
    else if s[0] == n then Without(s[1..], n)
    else [s[0]] + Without(s[1..], n)
  }

  /** Removing a number keeps the count of every other number. */
  lemma {:induction false} WithoutCounts(s: seq<SizeT>, n: SizeT, x: SizeT)
    ensures multiset(Without(s, n))[x] == if x == n then 0 else multiset(s)[x]
  {
    if s != [] {
      WithoutCounts(s[1..], n, x);
      assert s == [s[0]] + s[1..];
    }
  }

  lemma {:induction false} WithoutConcat(s: seq<SizeT>, t: seq<SizeT>, n: SizeT)
    ensures Without(s + t, n) == Without(s, n) + Without(t, n)
  {
    if s != [] {
      assert (s + t)[0] == s[0];
      assert (s + t)[1..] == s[1..] + t;
      WithoutConcat(s[1..], t, n);
    } else {
      assert s + t == t;
    }
  }

  lemma {:induction false} WithoutAbsent(s: seq<SizeT>, n: SizeT)
    requires n !in s
    ensures Without(s, n) == s
  {
    if s != [] {
      WithoutAbsent(s[1..], n);
    }
  }

  function Reverse(s: seq<SizeT>): (r: seq<SizeT>)
    ensures |r| == |s|
    ensures forall i :: 0 <= i < |s| ==> r[i] == s[|s| - 1 - i]
  {
    if s == [] then [] else Reverse(s[1..]) + [s[0]]
  }

  /**
   * set_changed(args...): the arguments are pushed to the front one by one
   * until the first invalid one, which stops the call with false; the numbers
   * pushed before it stay. No arguments left: true.
   */
  function Mark(maxNum: SizeT, pending: seq<SizeT>, args: seq<SizeT>): (r: (seq<SizeT>, bool))
    decreases |args|
  {
    if args == [] then (pending, true)
    else if !Valid(maxNum, args[0]) then (pending, false)
    else Mark(maxNum, [args[0]] + pending, args[1..])
  }

  /** The number of leading arguments that are valid. */
  function ValidPrefix(maxNum: SizeT, args: seq<SizeT>): (k: nat)
    ensures k <= |args|
    ensures forall i :: 0 <= i < k ==> Valid(maxNum, args[i])
    ensures k < |args| ==> !Valid(maxNum, args[k])
  {
    if args == [] || !Valid(maxNum, args[0]) then 0 else 1 + ValidPrefix(maxNum, args[1..])
  }

  /**
   * set_changed pushes exactly the valid leading arguments, the last of them
   * ending up at the front, and succeeds exactly when every argument is valid.
   */
  lemma {:induction false} MarkPushesValidPrefix(maxNum: SizeT, pending: seq<SizeT>, args: seq<SizeT>)
    ensures var k := ValidPrefix(maxNum, args);
      Mark(maxNum, pending, args) == (Reverse(args[..k]) + pending, k == |args|)
    decreases |args|
  {
    if args != [] && Valid(maxNum, args[0]) {
      var k := ValidPrefix(maxNum, args);
      MarkPushesValidPrefix(maxNum, [args[0]] + pending, args[1..]);
      var rest := Reverse(args[1..][..k - 1]);
      assert args[1..][..k - 1] == args[..k][1..];
      assert args[..k][0] == args[0];
      assert Reverse(args[..k]) == rest + [args[0]];
      assert rest + ([args[0]] + pending) == (rest + [args[0]]) + pending;
    } else {
      assert Reverse(args[..0]) + pending == pending;
    }
  }

  /** Marking a number twice lists it twice: the count of each number grows by its pushes. */
  lemma MarkCounts(maxNum: SizeT, pending: seq<SizeT>, args: seq<SizeT>)
    ensures var k := ValidPrefix(maxNum, args);
      multiset(Mark(maxNum, pending, args).0) == multiset(pending) + multiset(args[..k])
  {
    var k := ValidPrefix(maxNum, args);
    MarkPushesValidPrefix(maxNum, pending, args);
    ReverseMultiset(args[..k]);
  }

  lemma {:induction false} ReverseMultiset(s: seq<SizeT>)
    ensures multiset(Reverse(s)) == multiset(s)
  {
    if s != [] {
      ReverseMultiset(s[1..]);
      assert s == [s[0]] + s[1..];
    }
  }

  class RegistersUpdate {
    const maxNum: SizeT
    var changed: seq<SizeT>

    /** Only numbers that passed is_valid are ever listed. */
    ghost predicate Inv()
      reads this
    {
      forall n :: n in changed ==> Valid(maxNum, n)
    }

    constructor (maxNum: SizeT)
      ensures this.maxNum == maxNum && changed == [] && Inv()
    {
      this.maxNum := maxNum;
      changed := [];
    }

    /** is_changed(n): a linear search, after the validity check. */
    method IsChanged(n: SizeT) returns (r: bool)
      ensures r <==> Valid(maxNum, n) && n in changed
    {
      if !Valid(maxNum, n) {
        return false;
      }
      var i := 0;
      while i < |changed|
        invariant 0 <= i <= |changed|
        invariant n !in changed[..i]
      {
        if changed[i] == n {
          return true;
        }
        i := i + 1;
      }
      assert changed[..i] == changed;
      return false;
    }

    /** is_changed(): anything pending at all. */
    method IsAnyChanged() returns (r: bool)
      ensures r <==> changed != []
      ensures r <==> exists n :: n in changed
    {
      r := changed != [];
      if r {
        assert changed[0] in changed;
      }
    }

    method SetChanged(args: seq<SizeT>) returns (ok: bool)
      requires Inv()
      modifies this`changed
      ensures Inv()
      ensures (changed, ok) == Mark(maxNum, old(changed), args)
    {
      var i := 0;
      ok := true;
      while i < |args|
        invariant 0 <= i <= |args|
        invariant Inv()
        invariant Mark(maxNum, changed, args[i..]) == Mark(maxNum, old(changed), args)
      {
        assert args[i..][1..] == args[i + 1..];
        if !Valid(maxNum, args[i]) {
          return false;
        }
        changed := [args[i]] + changed;
        i := i + 1;
      }
    }

    /** get_changed: the front of the list; the list must not be empty. */
    method GetChanged() returns (n: SizeT)
      requires Inv() && changed != []
      ensures n in changed && Valid(maxNum, n)
      ensures n == changed[0]
    {
      n := changed[0];
    }

    method ClearChanged(n: SizeT) returns (ok: bool)
      requires Inv()
      modifies this`changed
      ensures Inv()
      ensures ok <==> Valid(maxNum, n)
      ensures changed == if ok then Without(old(changed), n) else old(changed)
    {
      if !Valid(maxNum, n) {
        return false;
      }
      changed := Without(changed, n);
      return true;
    }
  }
}
