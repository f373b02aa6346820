/** The few facts about products and quotients the difficulty and reward proofs use. */
module Arith {

  function Times(a: nat, b: nat): nat {
    a * b
  }

  /** A product by repeated addition: polynomials built from it stay linear until `ProductIs` is used. */
  function Product(a: nat, b: nat): nat {
    if b == 0 then 0 else Product(a, b - 1) + a
  }

  lemma {:induction false} ProductIs(a: nat, b: nat)
    ensures Product(a, b) == a * b
  {
    if b > 0 {
      ProductIs(a, b - 1);
    }
  }

  function Quotient(n: nat, d: nat): nat
    requires d > 0
  {
    n / d
  }

  lemma MulMono(a: nat, b: nat, c: nat)
    requires a <= b
    ensures a * c <= b * c
  {
    assert b * c == a * c + (b - a) * c;
  }

  lemma MulStrict(a: nat, b: nat, c: nat)
    requires a < b && c > 0
    ensures a * c < b * c
    ensures a * c + c <= b * c
  {
    MulMono(a + 1, b, c);
    assert (a + 1) * c == a * c + c;
  }

  lemma DivMod(n: nat, d: nat)
    requires d > 0
    ensures n == n / d * d + n % d && n % d < d
  {
  }

  lemma QuotientUnique(n: nat, d: nat, q: nat, r: nat)
    requires d > 0 && n == q * d + r && r < d
    ensures n / d == q && n % d == r
  {
    DivMod(n, d);
    if q < n / d {
      MulStrict(q, n / d, d);
      assert false;
    } else if n / d < q {
      MulStrict(n / d, q, d);
      assert false;
    }
  }

  lemma QuotientAtMost(n: nat, d: nat)
    requires d >= 1
    ensures n / d <= n
  {
    DivMod(n, d);
    MulMono(1, d, n / d);
  }

  /** `n / d` is the greatest `q` with `q * d <= n`. */
  lemma QuotientBelow(q: nat, n: nat, d: nat)
    requires d > 0
    ensures q <= n / d <==> q * d <= n
  {
    DivMod(n, d);
    if q <= n / d {
      MulMono(q, n / d, d);
    } else {
      MulStrict(n / d, q, d);
    }
  }

  lemma DivMono(a: nat, b: nat, d: nat)
    requires a <= b && d > 0
    ensures a / d <= b / d
  {
    DivMod(a, d);
    QuotientBelow(a / d, b, d);
  }

  /** Dividing twice is dividing by the product. */
  lemma DivDiv(n: nat, c: nat, d: nat)
    requires c > 0 && d > 0
    ensures c * d > 0
    ensures n / (c * d) == n / c / d
  {
    MulStrict(0, c, d);
    var q := n / c;
    DivMod(n, c);
    DivMod(q, d);
    assert n == (q / d * d + q % d) * c + n % c;
    assert n == q / d * (c * d) + (q % d * c + n % c);
    MulMono(q % d + 1, d, c);
    assert (q % d + 1) * c == q % d * c + c;
    assert d * c == c * d;
    QuotientUnique(n, c * d, q / d, q % d * c + n % c);
  }

  lemma MulDivExact(n: nat, d: nat)
    requires d > 0
    ensures n * d / d == n && n * d % d == 0
  {
    QuotientUnique(n * d, d, n, 0);
  }

  /** Cancelling a common factor. */
  lemma MulDivCancel(n: nat, c: nat, d: nat)
    requires c > 0 && d > 0
    ensures c * d > 0
    ensures n * c / (c * d) == n / d
  {
    DivDiv(n * c, c, d);
    MulDivExact(n, c);
  }
}
