/** Small facts on products and quotients of naturals. */
module Arithmetic {

  lemma MulOrder(a: nat, b: nat, c: nat)
    requires a <= b
    ensures a * c <= b * c
  {
  }

  lemma MulMonotone(a: nat, b: nat, c: nat, d: nat)
    requires a <= c && b <= d
    ensures a * b <= c * d
  {
    MulOrder(a, c, b);
    assert c * b <= c * d;
  }

  lemma OneMore(r: nat, p: nat)
    ensures (r + 1) * p == r * p + p
  {
  }

  lemma QuotientGap(p: nat, q: nat, c: nat)
    requires p < q
    ensures p * c + c <= q * c
  {
    assert (p + 1) * c <= q * c;
  }

  lemma QuotientIs(n: nat, e: nat, q: nat, r: nat)
    requires e > 0 && n == q * e + r && r < e
    ensures n / e == q && n % e == r
  {
    var p, s := n / e, n % e;
    assert n == p * e + s;
    if p < q { QuotientGap(p, q, e); }
    if p > q { QuotientGap(q, p, e); }
  }

  lemma QuotientAtLeast(a: nat, k: nat, c: nat)
    requires c > 0
    ensures a / c >= k <==> a >= k * c
  {
    assert a == a / c * c + a % c;
    if a / c < k { QuotientGap(a / c, k, c); }
    if a / c > k { QuotientGap(k, a / c, c); }
  }

  lemma QuotientOrder(a: nat, b: nat, c: nat)
    requires a <= b && c > 0
    ensures a / c <= b / c
  {
    QuotientAtLeast(b, a / c, c);
    QuotientAtLeast(a, a / c, c);
  }

  lemma Expand(q: nat, b: nat, r: nat, a: nat)
    ensures (q * b + r) * a == q * (a * b) + r * a
  {
    assert q * b * a == q * (a * b);
  }

  lemma Recompose(n: nat, e: nat)
    requires e > 0
    ensures n == n / e * e + n % e
  {
  }

  /** Dividing twice is dividing by the product. */
  lemma DivDiv(w: nat, a: nat, b: nat)
    requires a > 0 && b > 0
    ensures a * b > 0 && w / a / b == w / (a * b)
  {
    var p, t := w / a, w % a;
    var q, r := p / b, p % b;
    Recompose(w, a);
    Recompose(p, b);
    Expand(q, b, r, a);
    MulOrder(r + 1, b, a);
    OneMore(r, a);
    QuotientIs(w, a * b, q, r * a + t);
  }
}
