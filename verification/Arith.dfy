/** The few facts about products and quotients the accounting rests on. */
module Arith {
  function Min(a: int, b: int): int {
    if a < b then a else b
  }

  function Max(a: int, b: int): int {
    if a > b then a else b
  }

  lemma MulGrows(x: nat, a: nat, b: nat)
    requires a <= b
    ensures x * a <= x * b
  {
    assert x * b == x * a + x * (b - a);
  }

  /** `q` is the quotient of `a` by `y` when it brackets it. */
  lemma QuotientIs(a: int, y: int, q: int)
    requires y > 0 && y * q <= a < y * q + y
    ensures a / y == q
  {
    var r := a - y * q;
    assert a == y * (a / y) + a % y;
    assert y * (a / y - q) == r - a % y;
    if a / y > q {
      MulGrows(y, 1, a / y - q);
    } else if a / y < q {
      MulGrows(y, 1, q - a / y);
    }
  }

  lemma DivGrows(a: nat, b: nat, y: nat)
    requires a <= b && y > 0
    ensures 0 <= a / y <= b / y
  {
    var p, q := a / y, b / y;
    assert a == y * p + a % y && b == y * q + b % y;
    if p > q {
      MulGrows(y, q + 1, p);
    }
  }

  /** A share of a quantity grows with the elapsed part and never exceeds the whole. */
  lemma ShareGrows(x: nat, e1: nat, e2: nat, y: nat)
    requires e1 <= e2 <= y && y > 0
    ensures 0 <= x * e1 / y <= x * e2 / y <= x
  {
    MulGrows(x, e1, e2);
    MulGrows(x, e2, y);
    DivGrows(x * e1, x * e2, y);
    DivGrows(x * e2, x * y, y);
    QuotientIs(x * y, y, x);
  }
}
