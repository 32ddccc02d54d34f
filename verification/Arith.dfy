/** Nonlinear arithmetic used by the other modules: products, quotients and remainders. */
module Arith {

  lemma MulLe(a: nat, b: nat, c: nat)
    requires a <= b
    ensures a * c <= b * c
  {}

  lemma MulSucc(a: nat, c: nat)
    ensures (a + 1) * c == a * c + c
  {}

  /** Multiples of g are ordered as their factors are, with a gap of at least g. */
  lemma MulGap(i: nat, j: nat, g: nat)
    ensures i < j ==> i * g + g <= j * g
    ensures j < i ==> j * g + g <= i * g
  {
    if i < j {
      MulLe(i + 1, j, g);
    } else if j < i {
      MulLe(j + 1, i, g);
    }
  }

  /** The quotient and remainder of a value written as k * g + r are k and r. */
  lemma DivModUnique(k: nat, g: nat, r: nat)
    requires r < g
    ensures (k * g + r) / g == k
    ensures (k * g + r) % g == r
  {
    var n := k * g + r;
    assert n == (n / g) * g + n % g;
    MulGap(n / g, k, g);
  }

  lemma ExactDiv(n: nat, g: nat)
    requires 0 < g && n % g == 0
    ensures g * (n / g) == n && (n / g) * g == n
  {}

  /** A multiple of g leaves no remainder. */
  lemma MultipleMod(k: nat, g: nat)
    requires 0 < g
    ensures (k * g) % g == 0 && (k * g) / g == k
  {
    DivModUnique(k, g, 0);
  }
}
