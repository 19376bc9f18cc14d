/** The optional value and the arithmetic used throughout the model. */
module Basics {
  datatype Option<+T> = None | Some(value: T)

  function Min(a: int, b: int): int {
    if a < b then a else b
  }

  function Max(a: int, b: int): int {
    if a > b then a else b
  }

  lemma DivisionIs(x: nat, b: nat, q: nat)
    requires b >= 1 && q * b <= x < q * b + b
    ensures x / b == q
  {
    var d := x / b;
    assert x == d * b + x % b;
    if d < q {
      Multiples(d + 1, q, b);
    } else if d > q {
      Multiples(q + 1, d, b);
    }
  }

  lemma Multiples(m: nat, n: nat, b: nat)
    requires m <= n
    ensures m * b <= n * b
  {
  }
}
