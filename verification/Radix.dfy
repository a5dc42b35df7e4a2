/** Positional notation with the most significant digit first, for any base. */
module Radix {
  function Pow(b: nat, e: nat): nat {
    if e == 0 then 1 else b * Pow(b, e - 1)
  }

  ghost predicate AreDigits(base: nat, ds: seq<nat>) {
    forall i :: 0 <= i < |ds| ==> ds[i] < base
  }

  function Value(base: nat, ds: seq<nat>): nat {
    if ds == [] then 0 else Value(base, ds[..|ds| - 1]) * base + ds[|ds| - 1]
  }

  /** The digits of `n` with no leading zero; zero has no digits. */
  function Digits(base: nat, n: nat): seq<nat>
    requires 2 <= base
  {
    if n == 0 then [] else
    DivShrinks(n, base);
    Digits(base, n / base) + [n % base]
  }

  function LeadingZeros(ds: seq<nat>): (k: nat)
    ensures k <= |ds|
    ensures forall i :: 0 <= i < k ==> ds[i] == 0
    ensures k < |ds| ==> ds[k] != 0
  {
    if ds == [] || ds[0] != 0 then 0 else 1 + LeadingZeros(ds[1..])
  }

  function Zeros(k: nat): (zs: seq<nat>)
    ensures |zs| == k
    ensures forall i :: 0 <= i < k ==> zs[i] == 0
  {
    seq(k, i => 0)
  }

  /** Re-expresses a digit string in another base, keeping its leading zeros one for one. */
  function Rebase(from: nat, to: nat, ds: seq<nat>): seq<nat>
    requires 2 <= to
  {
    Zeros(LeadingZeros(ds)) + Digits(to, Value(from, ds))
  }

  lemma DivShrinks(n: nat, base: nat)
    requires 2 <= base && 0 < n
    ensures 0 <= n / base < n
  {
  }

  lemma DivModUnique(q: nat, r: nat, base: nat)
    requires r < base
    ensures (q * base + r) / base == q
    ensures (q * base + r) % base == r
  {
    var n := q * base + r;
    var d := n / base - q;
    assert n == base * (n / base) + n % base;
    assert base * d == r - n % base;
    assert d >= 1 ==> base * d >= base;
    assert d <= -1 ==> base * d + base <= 0;
  }

  /** Every number is the value of its digits, which start with a non-zero one. */
  lemma {:induction false} DigitsOfNumber(base: nat, n: nat)
    requires 2 <= base
    ensures Value(base, Digits(base, n)) == n
    ensures AreDigits(base, Digits(base, n))
    ensures n > 0 ==> |Digits(base, n)| > 0 && Digits(base, n)[0] != 0
  {
    hide Value;
    if n == 0 {
      EmptyValue(base);
    } else {
      DivShrinks(n, base);
      DigitsOfNumber(base, n / base);
      var ds, d := Digits(base, n / base), n % base;
      ValueAppend(base, ds, d);
      DivModParts(n, base);
      assert Digits(base, n) == ds + [d];
    }
  }

  lemma EmptyValue(base: nat)
    ensures Value(base, []) == 0
  {
  }

  lemma DivModParts(n: nat, base: nat)
    requires 2 <= base
    ensures n / base * base + n % base == n && n % base < base
  {
  }

  lemma ValueAppend(base: nat, ds: seq<nat>, d: nat)
    ensures Value(base, ds + [d]) == Value(base, ds) * base + d
  {
    assert (ds + [d])[..|ds|] == ds;
  }

  /** The same value as a sum of digits times powers, from the first digit on. */
  function Positional(base: nat, ds: seq<nat>): nat {
    if ds == [] then 0 else ds[0] * Pow(base, |ds| - 1) + Positional(base, ds[1..])
  }

  lemma {:induction false} PositionalIsValue(base: nat, ds: seq<nat>)
    ensures Positional(base, ds) == Value(base, ds)
  {
    if ds != [] {
      PositionalIsValue(base, ds[1..]);
      ValuePrepend(base, ds[0], ds[1..]);
      assert ds == [ds[0]] + ds[1..];
    }
  }

  lemma {:induction false} ValuePrepend(base: nat, d: nat, ds: seq<nat>)
    ensures Value(base, [d] + ds) == d * Pow(base, |ds|) + Value(base, ds)
  {
    var all := [d] + ds;
    if ds == [] {
      assert all[..0] == [];
    } else {
      var front, last := ds[..|ds| - 1], ds[|ds| - 1];
      ValuePrepend(base, d, front);
      assert all[..|all| - 1] == [d] + front;
      var p, v := Pow(base, |front|), Value(base, front);
      assert (d * p + v) * base == d * p * base + v * base;
      MulAssociates(d, base, p);
      MulAssociates(d, p, base);
      MulSwap(base, p);
    }
  }

  /** A digit string with no leading zero is the digits of its value. */
  lemma {:induction false} NumberOfDigits(base: nat, ds: seq<nat>)
    requires 2 <= base && AreDigits(base, ds) && LeadingZeros(ds) == 0
    ensures Digits(base, Value(base, ds)) == ds
    ensures ds != [] ==> Value(base, ds) > 0
  {
    if ds != [] {
      var front, last := ds[..|ds| - 1], ds[|ds| - 1];
      NumberOfDigits(base, front);
      DivModUnique(Value(base, front), last, base);
      assert ds == front + [last];
    }
  }

  lemma {:induction false} LeadingZerosAddNothing(base: nat, k: nat, ds: seq<nat>)
    ensures Value(base, Zeros(k) + ds) == Value(base, ds)
  {
    var all := Zeros(k) + ds;
    if ds != [] {
      LeadingZerosAddNothing(base, k, ds[..|ds| - 1]);
      assert all[..|all| - 1] == Zeros(k) + ds[..|ds| - 1];
    } else if k > 0 {
      LeadingZerosAddNothing(base, k - 1, []);
      assert all[..|all| - 1] == Zeros(k - 1) + [];
    }
  }

  lemma LeadingZerosOf(k: nat, ds: seq<nat>)
    requires ds != [] ==> ds[0] != 0
    ensures LeadingZeros(Zeros(k) + ds) == k
  {
    var all := Zeros(k) + ds;
    assert forall i :: 0 <= i < k ==> all[i] == 0;
    assert ds != [] ==> all[k] == ds[0];
  }

  /** Splits a digit string into its leading zeros and the digits of its value. */
  lemma SplitLeadingZeros(base: nat, ds: seq<nat>)
    requires 2 <= base && AreDigits(base, ds)
    ensures ds == Zeros(LeadingZeros(ds)) + Digits(base, Value(base, ds))
  {
    var k := LeadingZeros(ds);
    var tail := ds[k..];
    assert ds == Zeros(k) + tail;
    LeadingZerosAddNothing(base, k, tail);
    NumberOfDigits(base, tail);
  }

  /** Changing the base and changing it back is the identity, leading zeros included. */
  lemma RebaseInverse(from: nat, to: nat, ds: seq<nat>)
    requires 2 <= from && 2 <= to && AreDigits(from, ds)
    ensures AreDigits(to, Rebase(from, to, ds))
    ensures LeadingZeros(Rebase(from, to, ds)) == LeadingZeros(ds)
    ensures Rebase(to, from, Rebase(from, to, ds)) == ds
  {
    var k, n := LeadingZeros(ds), Value(from, ds);
    DigitsOfNumber(to, n);
    LeadingZerosOf(k, Digits(to, n));
    LeadingZerosAddNothing(to, k, Digits(to, n));
    SplitLeadingZeros(from, ds);
  }

  // ----- bounds -----

  lemma {:induction false} ValueBelow(base: nat, ds: seq<nat>)
    requires 1 <= base && AreDigits(base, ds)
    ensures Value(base, ds) < Pow(base, |ds|)
  {
    if ds != [] {
      var front, last := ds[..|ds| - 1], ds[|ds| - 1];
      ValueBelow(base, front);
      var v, p := Value(base, front), Pow(base, |front|);
      MulMonotone(v + 1, p, base);
      MulSuccessor(v, base);
      MulSwap(p, base);
    }
  }

  lemma {:induction false} ValueAbove(base: nat, ds: seq<nat>)
    requires 1 <= base && AreDigits(base, ds) && ds != [] && ds[0] != 0
    ensures Pow(base, |ds| - 1) <= Value(base, ds)
  {
    var front, last := ds[..|ds| - 1], ds[|ds| - 1];
    if front != [] {
      ValueAbove(base, front);
      var v, p := Value(base, front), Pow(base, |front| - 1);
      MulMonotone(p, v, base);
      MulSwap(p, base);
    }
  }

  lemma MulSuccessor(x: nat, k: nat)
    ensures (x + 1) * k == x * k + k
  {
  }

  lemma MulMonotone(x: nat, y: nat, k: nat)
    requires x <= y
    ensures x * k <= y * k
  {
  }

  lemma {:induction false} PowPositive(b: nat, e: nat)
    requires 1 <= b
    ensures Pow(b, e) >= 1
  {
    if e > 0 {
      PowPositive(b, e - 1);
    }
  }

  lemma PowZero(b: nat)
    ensures Pow(b, 0) == 1
  {
  }

  lemma {:induction false} PowSum(b: nat, x: nat, y: nat)
    ensures Pow(b, x + y) == Pow(b, x) * Pow(b, y)
  {
    if x > 0 {
      PowSum(b, x - 1, y);
      MulAssociates(b, Pow(b, x - 1), Pow(b, y));
    }
  }

  lemma MulAssociates(x: nat, y: nat, z: nat)
    ensures x * (y * z) == (x * y) * z
  {
  }

  lemma {:induction false} PowOfPow(b: nat, x: nat, y: nat)
    ensures Pow(Pow(b, x), y) == Pow(b, x * y)
  {
    if y > 0 {
      PowOfPow(b, x, y - 1);
      PowSum(b, x, x * (y - 1));
      assert x * y == x + x * (y - 1);
    }
  }

  lemma {:induction false} PowMonotoneExponent(b: nat, x: nat, y: nat)
    requires 1 <= b && x <= y
    ensures Pow(b, x) <= Pow(b, y)
  {
    PowSum(b, x, y - x);
    PowPositive(b, y - x);
    PowPositive(b, x);
    var p, q := Pow(b, x), Pow(b, y - x);
    assert p * q >= p * 1;
  }

  lemma {:induction false} PowStrictExponent(b: nat, x: nat, y: nat)
    requires 2 <= b
    ensures x < y <==> Pow(b, x) < Pow(b, y)
  {
    if x < y {
      PowMonotoneExponent(b, x + 1, y);
      PowPositive(b, x);
    } else {
      PowMonotoneExponent(b, y, x);
    }
  }

  lemma {:induction false} PowMonotoneBase(a: nat, b: nat, e: nat)
    requires a <= b
    ensures Pow(a, e) <= Pow(b, e)
    ensures a < b && e > 0 ==> Pow(a, e) < Pow(b, e)
  {
    if e > 0 {
      PowMonotoneBase(a, b, e - 1);
      if a < b {
        PowPositive(b, e - 1);
      }
      MulBoth(a, b, Pow(a, e - 1), Pow(b, e - 1));
    }
  }

  lemma MulBoth(a: nat, b: nat, p: nat, q: nat)
    requires a <= b && p <= q
    ensures a * p <= b * q
    ensures a < b && q >= 1 ==> a * p < b * q
  {
    MulSwap(a, p);
    MulMonotone(p, q, a);
    MulSwap(a, q);
    MulMonotone(a, b, q);
    if a < b {
      MulMonotone(a + 1, b, q);
      MulSuccessor(a, q);
    }
  }

  lemma MulSwap(x: nat, y: nat)
    ensures x * y == y * x
  {
  }

  /** `x <= y` whenever some positive power of `x` is at most that power of `y`. */
  lemma RootMonotone(x: nat, y: nat, e: nat)
    requires e > 0 && Pow(x, e) <= Pow(y, e)
    ensures x <= y
  {
    if y < x {
      PowMonotoneBase(y, x, e);
    }
  }
}
