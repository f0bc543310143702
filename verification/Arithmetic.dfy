/** Products and floors, kept apart so that only these lemmas reason about them. */
module Arithmetic {

  function Min(a: int, b: int): int { if a <= b then a else b }

  function Max(a: int, b: int): int { if a >= b then a else b }

  function Mul(a: nat, b: nat): (r: nat)
    ensures b == 0 ==> r == 0
  {
    a * b
  }

  function Div(n: nat, w: nat): nat
    requires w > 0
  {
    n / w
  }

  lemma QuotientIs(n: nat, w: nat, q: nat)
    requires w > 0 && Mul(w, q) <= n < Mul(w, q + 1)
    ensures n / w == q
  {
    var d := n / w;
    assert Mul(w, d) <= n < Mul(w, d + 1);
    LessIfScaledLess(w, q, d + 1);
    LessIfScaledLess(w, d, q + 1);
  }

  lemma LessIfScaledLess(w: nat, a: nat, b: nat)
    requires Mul(w, a) < Mul(w, b)
    ensures a < b
  {
    assert Mul(w, a) - Mul(w, b) == w * (a - b);
  }

  lemma DivMonotone(a: nat, b: nat, w: nat)
    requires w > 0 && a <= b
    ensures Div(a, w) <= Div(b, w)
  {
    var p, q := a / w, b / w;
    assert Mul(w, p) <= a && b < Mul(w, q + 1);
    LessIfScaledLess(w, p, q + 1);
  }

  /** A common factor cancels out of a floor. */
  lemma CancelFactor(n: nat, w: nat, c: nat)
    requires w > 0 && c > 0
    ensures Mul(w, c) > 0 && Div(Mul(n, c), Mul(w, c)) == Div(n, w)
  {
    var q, r := n / w, n % w;
    assert n == Mul(w, q) + r;
    assert Mul(w, c) > 0 by { ProductPositive(w, c); }
    assert Mul(Mul(w, c), q) == Mul(Mul(w, q), c);
    assert Mul(n, c) == Mul(Mul(w, q), c) + Mul(r, c);
    assert Mul(Mul(w, c), q + 1) == Mul(Mul(w, c), q) + Mul(w, c);
    assert Mul(w, c) == Mul(r, c) + Mul(w - r, c);
    ProductPositive(w - r, c);
    QuotientIs(Mul(n, c), Mul(w, c), q);
  }

  lemma FloorIsZeroIff(n: nat, w: nat)
    requires w > 0
    ensures Div(n, w) == 0 <==> n < w
  {
    var q := n / w;
    assert Mul(w, q) <= n < Mul(w, q + 1);
    assert q == 0 ==> Mul(w, q + 1) == w;
    assert q > 0 ==> Mul(w, q) >= w;
  }

  lemma ProductPositive(a: nat, b: nat)
    requires a > 0 && b > 0
    ensures Mul(a, b) > 0
  {}

  lemma DivMod(n: nat, w: nat)
    requires w > 0
    ensures n == Mul(w, Div(n, w)) + n % w && n % w < w
  {}

  lemma DivSum(a: nat, b: nat, w: nat)
    requires w > 0
    ensures Div(a, w) + Div(b, w) <= Div(a + b, w) <= Div(a, w) + Div(b, w) + 1
  {
    hide Mul;
    var q := Div(a, w) + Div(b, w);
    DivMod(a, w);
    DivMod(b, w);
    MulAdds(w, Div(a, w), Div(b, w));
    MulAdds(w, q, 1);
    MulAdds(w, q + 1, 1);
    if a % w + b % w < w {
      QuotientIs(a + b, w, q);
    } else {
      QuotientIs(a + b, w, q + 1);
    }
  }

  lemma MulAdds(a: nat, x: nat, y: nat)
    ensures Mul(a, x + y) == Mul(a, x) + Mul(a, y)
    ensures Mul(a, 0) == 0 && Mul(a, 1) == a
  {}
}
