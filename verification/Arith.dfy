/** Machine-integer bounds and small arithmetic shared by the project. */
module Arith {
  const U64: nat := 0x1_0000_0000_0000_0000
  const I64: nat := 0x8000_0000_0000_0000

  /** Nanoseconds in a second. */
  const SECOND: nat := 1_000_000_000

  function Min(a: int, b: int): int {
    if a < b then a else b
  }

  function Max(a: int, b: int): int {
    if a < b then b else a
  }

  lemma MulMono(a: int, b: int, n: nat)
    requires a <= b
    ensures a * n <= b * n
  {
    assert b * n == a * n + (b - a) * n;
  }

  /** Quotient and remainder are determined. */
  lemma DivUnique(n: int, b: nat, q: int, r: int)
    requires b > 0 && n == b * q + r && 0 <= r < b
    ensures n / b == q
  {
    assert n == b * (n / b) + n % b;
    if n / b != q {
      MulMono(q + 1, Max(n / b, q + 1), b);
      MulMono(Min(n / b, q - 1), q - 1, b);
    }
  }

  lemma Regroup(a: nat, b: nat, q: nat, r: nat)
    ensures a * (b * q + r) == (a * b) * q + a * r
  {
  }

  lemma RestBelow(a: nat, b: nat, r: nat, s: nat)
    requires r < b && s < a
    ensures a * r + s < a * b
  {
    MulMono(r + 1, b, a);
    assert (r + 1) * a == a * r + a && b * a == a * b;
  }

  lemma Split(n: nat, a: nat)
    requires a > 0
    ensures n == a * (n / a) + n % a && 0 <= n % a < a && n / a >= 0
  {
  }

  lemma NestedDiv(n: nat, a: nat, b: nat, x: nat, s: nat, q: nat, r: nat)
    requires n == a * x + s && s < a && x == b * q + r && r < b
    ensures a * b > 0 && n / (a * b) == q
  {
    Regroup(a, b, q, r);
    RestBelow(a, b, r, s);
    DivUnique(n, a * b, q, a * r + s);
  }

  /** Dividing twice is dividing by the product. */
  lemma DivDiv(n: nat, a: nat, b: nat)
    requires a > 0 && b > 0
    ensures a * b > 0 && n / a / b == n / (a * b)
  {
    Split(n, a);
    Split(n / a, b);
    NestedDiv(n, a, b, n / a, n % a, n / a / b, n / a % b);
  }
}
