/** Linear feedback shift registers over an arbitrary group of exponent two.

    The register of the servo checksum is one instance.  Keeping the carrier abstract keeps
    bit-level reasoning out of the inductive arguments. */
module ShiftRegister {

  datatype Register<!T> = Register(zero: T, top: T, xor: (T, T) -> T, shift: T -> T)

  /** Every element is its own inverse, and `zero` is the unit. */
  ghost predicate Involutive<T(!new)>(g: Register<T>) {
    && (forall a :: g.xor(a, g.zero) == a)
    && (forall a :: g.xor(g.zero, a) == a)
    && (forall a, b :: g.xor(a, b) == g.zero <==> a == b)
  }

  ghost predicate Commutes<T(!new)>(g: Register<T>) {
    forall a, b, c, d :: g.xor(g.xor(a, b), g.xor(c, d)) == g.xor(g.xor(a, c), g.xor(b, d))
  }

  /** `shift` is an injective homomorphism. */
  ghost predicate Homomorphic<T(!new)>(g: Register<T>) {
    && (forall a, b :: g.shift(g.xor(a, b)) == g.xor(g.shift(a), g.shift(b)))
    && (forall a :: g.shift(a) == g.zero <==> a == g.zero)
  }

  ghost predicate Linear<T(!new)>(g: Register<T>) {
    Involutive(g) && Commutes(g) && Homomorphic(g)
  }

  function Shifts<T>(g: Register<T>, n: nat, a: T): T {
    if n == 0 then a else Shifts(g, n - 1, g.shift(a))
  }

  function Input<T>(g: Register<T>, bit: bool): T {
    if bit then g.top else g.zero
  }

  /** Feeds `bits` into the register, one per shift. */
  function Run<T>(g: Register<T>, a: T, bits: seq<bool>): T
    decreases bits
  {
    if |bits| == 0 then a else Run(g, g.shift(g.xor(a, Input(g, bits[0]))), bits[1..])
  }

  /** The number of set bits. */
  function Weight(bits: seq<bool>): nat
    decreases bits
  {
    if |bits| == 0 then 0 else (if bits[0] then 1 else 0) + Weight(bits[1..])
  }

  /** Every set bit of `bits` is at a position in [lo, hi). */
  predicate Within(bits: seq<bool>, lo: nat, hi: nat) {
    forall i :: 0 <= i < |bits| && bits[i] ==> lo <= i < hi
  }

  predicate Clear(bits: seq<bool>) {
    forall i :: 0 <= i < |bits| ==> !bits[i]
  }

  // ---------------------------------------------------------------- shifting

  lemma {:induction false} ShiftsLinear<T(!new)>(g: Register<T>, n: nat, a: T, b: T)
    requires Linear(g)
    ensures Shifts(g, n, g.xor(a, b)) == g.xor(Shifts(g, n, a), Shifts(g, n, b))
  {
    if n > 0 {
      assert g.shift(g.xor(a, b)) == g.xor(g.shift(a), g.shift(b));
      ShiftsLinear(g, n - 1, g.shift(a), g.shift(b));
    }
  }

  lemma {:induction false} ShiftsNonzero<T(!new)>(g: Register<T>, n: nat, a: T)
    requires Linear(g)
    ensures Shifts(g, n, a) == g.zero <==> a == g.zero
  {
    if n > 0 {
      ShiftsNonzero(g, n - 1, g.shift(a));
    }
  }

  lemma {:induction false} ShiftsAdd<T>(g: Register<T>, m: nat, n: nat, a: T)
    ensures Shifts(g, m + n, a) == Shifts(g, n, Shifts(g, m, a))
  {
    if m > 0 {
      ShiftsAdd(g, m - 1, n, g.shift(a));
    }
  }

  // ---------------------------------------------------------------- running

  lemma {:induction false} RunConcat<T>(g: Register<T>, a: T, x: seq<bool>, y: seq<bool>)
    ensures Run(g, a, x + y) == Run(g, Run(g, a, x), y)
  {
    if |x| == 0 {
      assert x + y == y;
    } else {
      assert (x + y)[1..] == x[1..] + y;
      RunConcat(g, g.shift(g.xor(a, Input(g, x[0]))), x[1..], y);
    }
  }

  lemma {:induction false} RunClear<T(!new)>(g: Register<T>, a: T, bits: seq<bool>)
    requires Linear(g) && Clear(bits)
    ensures Run(g, a, bits) == Shifts(g, |bits|, a)
  {
    if |bits| > 0 {
      assert g.xor(a, g.zero) == a;
      RunClear(g, g.shift(a), bits[1..]);
    }
  }

  /** A register started at zero ignores leading clear bits, and trailing clear bits cannot
      bring it back to zero. */
  lemma RunPadded<T(!new)>(g: Register<T>, before: seq<bool>, bits: seq<bool>, after: seq<bool>)
    requires Linear(g) && Clear(before) && Clear(after)
    ensures Run(g, g.zero, before + bits + after) == g.zero <==> Run(g, g.zero, bits) == g.zero
  {
    RunConcat(g, g.zero, before + bits, after);
    RunConcat(g, g.zero, before, bits);
    RunClear(g, g.zero, before);
    ShiftsNonzero(g, |before|, g.zero);
    var mid := Run(g, g.zero, bits);
    RunClear(g, mid, after);
    ShiftsNonzero(g, |after|, mid);
  }

  /** Two set bits cancel exactly when their distance is a period of the top bit. */
  lemma TwoBits<T(!new)>(g: Register<T>, bits: seq<bool>, i: nat, j: nat)
    requires Linear(g)
    requires i < j < |bits| && forall k :: 0 <= k < |bits| ==> (bits[k] <==> k == i || k == j)
    ensures Run(g, g.zero, bits) == g.zero <==> Shifts(g, j - i, g.top) == g.top
  {
    var gap := bits[i + 1..j];
    var core := [true] + gap + [true];
    assert bits == bits[..i] + core + bits[j + 1..];
    RunPadded(g, bits[..i], core, bits[j + 1..]);
    RunConcat(g, g.zero, [true] + gap, [true]);
    RunConcat(g, g.zero, [true], gap);
    RunSingle(g, g.zero, true);
    assert g.xor(g.zero, g.top) == g.top;
    RunClear(g, g.shift(g.top), gap);
    var before := Run(g, g.zero, [true] + gap);
    assert before == Shifts(g, j - i, g.top);
    RunSingle(g, before, true);
    assert g.shift(g.xor(before, g.top)) == g.zero <==> g.xor(before, g.top) == g.zero;
  }

  lemma RunSingle<T>(g: Register<T>, a: T, bit: bool)
    ensures Run(g, a, [bit]) == g.shift(g.xor(a, Input(g, bit)))
  {}

  // ---------------------------------------------------------------- periods

  lemma {:induction false} ShiftsPeriodic<T>(g: Register<T>, p: nat, q: nat, r: nat, a: T)
    requires Shifts(g, p, a) == a
    ensures Shifts(g, p * q + r, a) == Shifts(g, r, a)
  {
    if q > 0 {
      assert p * q + r == p + (p * (q - 1) + r);
      ShiftsAdd(g, p, p * (q - 1) + r, a);
      ShiftsPeriodic(g, p, q - 1, r, a);
    }
  }

  ghost predicate Prime(p: nat) {
    2 <= p && forall k {:trigger p % k} :: 2 <= k < p ==> p % k != 0
  }

  /** A value moved by one shift that returns after a prime number of shifts does not return
      earlier. */
  lemma {:induction false} NoShorterPeriod<T>(g: Register<T>, p: nat, k: nat, a: T)
    requires Prime(p) && Shifts(g, p, a) == a && g.shift(a) != a
    requires 1 <= k < p
    ensures Shifts(g, k, a) != a
  {
    if k == 1 {
      assert Shifts(g, 1, a) == Shifts(g, 0, g.shift(a));
    } else if Shifts(g, k, a) == a {
      assert p == k * (p / k) + p % k;
      ShiftsPeriodic(g, k, p / k, p % k, a);
      NoShorterPeriod(g, p, p % k, a);
    }
  }

  lemma PeriodIff<T>(g: Register<T>, p: nat, n: nat, a: T)
    requires Prime(p) && Shifts(g, p, a) == a && g.shift(a) != a
    ensures Shifts(g, n, a) == a <==> n % p == 0
  {
    assert n == p * (n / p) + n % p;
    ShiftsPeriodic(g, p, n / p, n % p, a);
    if n % p != 0 {
      NoShorterPeriod(g, p, n % p, a);
    }
  }

  // ---------------------------------------------------------------- parity

  /** A shift-invariant homomorphism to parity, odd on the top bit, turns the register into a
      parity counter of its input. */
  ghost predicate ParityOf<T(!new)>(g: Register<T>, odd: T -> bool) {
    && odd(g.top)
    && !odd(g.zero)
    && (forall a, b :: odd(g.xor(a, b)) <==> odd(a) != odd(b))
    && (forall a :: odd(g.shift(a)) <==> odd(a))
  }

  lemma {:induction false} RunParity<T(!new)>(g: Register<T>, odd: T -> bool, a: T, bits: seq<bool>)
    requires ParityOf(g, odd)
    ensures odd(Run(g, a, bits)) <==> odd(a) != (Weight(bits) % 2 == 1)
    decreases bits
  {
    if |bits| > 0 {
      var next := g.shift(g.xor(a, Input(g, bits[0])));
      assert odd(next) <==> odd(a) != bits[0];
      RunParity(g, odd, next, bits[1..]);
    }
  }

  // ---------------------------------------------------------------- weights

  lemma {:induction false} WeightZero(bits: seq<bool>)
    ensures Weight(bits) == 0 <==> Clear(bits)
    decreases bits
  {
    if |bits| > 0 {
      WeightZero(bits[1..]);
      if Clear(bits[1..]) && !bits[0] {
        assert forall i :: 0 < i < |bits| ==> bits[i] == bits[1..][i - 1];
      }
    }
  }

  lemma {:induction false} WeightOne(bits: seq<bool>) returns (i: nat)
    requires Weight(bits) == 1
    ensures i < |bits| && forall k :: 0 <= k < |bits| ==> (bits[k] <==> k == i)
    decreases bits
  {
    if bits[0] {
      i := 0;
      WeightZero(bits[1..]);
      assert forall k :: 0 < k < |bits| ==> bits[k] == bits[1..][k - 1];
    } else {
      i := WeightOne(bits[1..]);
      i := i + 1;
      assert forall k :: 0 < k < |bits| ==> bits[k] == bits[1..][k - 1];
    }
  }

  lemma {:induction false} WeightTwo(bits: seq<bool>) returns (i: nat, j: nat)
    requires Weight(bits) == 2
    ensures i < j < |bits| && forall k :: 0 <= k < |bits| ==> (bits[k] <==> k == i || k == j)
    decreases bits
  {
    if bits[0] {
      i := 0;
      j := WeightOne(bits[1..]);
    } else {
      i, j := WeightTwo(bits[1..]);
      i := i + 1;
    }
    j := j + 1;
    assert forall k :: 0 < k < |bits| ==> bits[k] == bits[1..][k - 1];
  }
}
