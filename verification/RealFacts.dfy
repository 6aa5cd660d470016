/**
 Products and quotients of reals behind names, so that proofs about the program's formulas
 can use the few facts below instead of nonlinear search.
 */
module RealFacts {

  function Times(a: real, b: real): real { a * b }

  function Over(a: real, b: real): real
    requires b != 0.0
  {
    a / b
  }

  function Min(a: real, b: real): real { if a <= b then a else b }
  function Max(a: real, b: real): real { if a >= b then a else b }

  lemma TimesMonotone(a: real, b: real, c: real, d: real)
    requires 0.0 <= a <= b && 0.0 <= c <= d
    ensures 0.0 <= Times(a, c) <= Times(b, d)
  {
    assert 0.0 <= a * c;
    assert 0.0 <= (b - a) * c;
    assert 0.0 <= b * (d - c);
  }

  lemma TimesOne(a: real)
    ensures Times(a, 1.0) == a && Times(1.0, a) == a && Times(0.0, a) == 0.0
  {
  }

  lemma TimesAssociates(a: real, b: real, c: real)
    ensures Times(Times(a, b), c) == Times(a, Times(b, c))
  {
  }

  lemma TimesSuccessor(n: nat, a: real)
    ensures Times((n + 1) as real, a) == Times(n as real, a) + a
  {
  }

  lemma TimesBelow(a: real, m: real)
    requires 0.0 <= a && 0.0 <= m <= 1.0
    ensures 0.0 <= Times(a, m) <= a
  {
    TimesMonotone(a, a, m, 1.0);
  }

  lemma TimesLeftMonotone(a: real, b: real, m: real)
    requires a <= b && 0.0 <= m
    ensures Times(a, m) <= Times(b, m)
  {
    assert 0.0 <= (b - a) * m;
  }

  /** A weighted mean is no less than both of its parts' lower bound. */
  lemma Blend(x: real, y: real, alpha: real, beta: real, lo: real)
    requires 0.0 <= alpha && 0.0 <= beta && alpha + beta == 1.0 && lo <= x && lo <= y
    ensures lo <= Times(alpha, x) + Times(beta, y)
  {
    var d, e := x - lo, y - lo;
    assert alpha * x + beta * y == (alpha + beta) * lo + alpha * d + beta * e;
    assert 0.0 <= alpha * d && 0.0 <= beta * e;
  }

  lemma BlendAbove(x: real, y: real, alpha: real, beta: real, hi: real)
    requires 0.0 <= alpha && 0.0 <= beta && alpha + beta == 1.0 && x <= hi && y <= hi
    ensures Times(alpha, x) + Times(beta, y) <= hi
  {
    Blend(-x, -y, alpha, beta, -hi);
    assert Times(alpha, -x) == -Times(alpha, x) && Times(beta, -y) == -Times(beta, y);
  }

  lemma SignOfProduct(x: real, a: real)
    requires Times(x, a) >= 0.0 && a > 0.0
    ensures x >= 0.0
  {
  }

  lemma OverTimes(a: real, b: real)
    requires b != 0.0
    ensures Times(Over(a, b), b) == a
  {
  }

  lemma TimesDifference(a: real, b: real, c: real)
    ensures Times(a - b, c) == Times(a, c) - Times(b, c)
  {
  }

  lemma OverMonotone(n: real, m: real, a: real, b: real)
    requires 0.0 <= n <= m && 0.0 < a <= b
    ensures 0.0 <= Over(n, b) <= Over(m, a)
  {
    hide Times, Over;
    var q, r := Over(n, b), Over(m, a);
    OverTimes(n, b);
    OverTimes(m, a);
    SignOfProduct(q, b);
    TimesMonotone(q, q, a, b);
    TimesDifference(r, q, a);
    SignOfProduct(r - q, a);
  }

  lemma FloorMonotone(a: real, b: real)
    requires a <= b
    ensures a.Floor <= b.Floor
  {
  }
}
