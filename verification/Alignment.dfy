/** Rounding up to a power of two, as both heaps do it. */
module Alignment {

  predicate PowerOfTwo(n: nat) {
    n == 1 || (n > 1 && n % 2 == 0 && PowerOfTwo(n / 2))
  }

  /** The smallest multiple of `align` that is not below `v`; for a power of two the
      source clears the low bits of `v + align - 1` instead. */
  function AlignUp(v: nat, align: nat): (r: nat)
    requires align > 0
    ensures r % align == 0 && v <= r < v + align
  {
    Rounded(v + align - 1, align);
    v + align - 1 - (v + align - 1) % align
  }

  lemma Rounded(x: nat, a: nat)
    requires a > 0
    ensures x - x % a >= 0 && (x - x % a) % a == 0
  {
    assert x == a * (x / a) + x % a;
    MultipleOf(a, x / a);
  }

  lemma MultipleOf(a: nat, q: nat)
    requires a > 0
    ensures (a * q) % a == 0
  {
    if q > 0 {
      MultipleOf(a, q - 1);
      assert a * q == a * (q - 1) + a;
      AddOne(a * (q - 1), a);
    }
  }

  lemma AddOne(x: nat, a: nat)
    requires a > 0 && x % a == 0
    ensures (x + a) % a == 0
  {
    var d := x / a + 1 - (x + a) / a;
    assert a * d == (x + a) % a by {
      assert x == a * (x / a);
      assert x + a == a * ((x + a) / a) + (x + a) % a;
      assert a * d == a * (x / a) + a - a * ((x + a) / a);
    }
    Small(a, d);
  }

  lemma Small(a: nat, d: int)
    requires 0 <= a * d < a
    ensures d == 0
  {
    assert d >= 1 ==> a * d >= a;
    assert d <= -1 ==> a * d + a <= 0;
  }

  lemma LargePowers(n: nat)
    requires PowerOfTwo(n) && n >= 8
    ensures n % 8 == 0
  {
    assert PowerOfTwo(n / 2) && PowerOfTwo(n / 2 / 2) && n / 2 / 2 >= 2;
  }

  lemma SmallPowers(n: nat, p: nat)
    requires PowerOfTwo(n) && n < 8 && p % 8 == 0
    ensures p % n == 0
  {
    if n == 1 {
      assert p % 1 == 0;
    } else if n == 2 {
      assert p % 2 == 0;
    } else {
      assert n / 2 == 1 || PowerOfTwo(n / 2 / 2);
      assert n == 4 && p % 4 == 0;
    }
  }

  lemma MultipleOfMultiple(p: nat, a: nat)
    requires a > 0 && a % 8 == 0 && p % a == 0
    ensures p % 8 == 0
  {
    assert p == a * (p / a) && a == 8 * (a / 8);
    assert p == 8 * ((a / 8) * (p / a));
    MultipleOf(8, (a / 8) * (p / a));
  }
}
