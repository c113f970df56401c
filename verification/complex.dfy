/** Exact complex arithmetic on reals, standing in for the firmware's
    floating-point `cmplx` where the model needs the noiseless case. */
module Cmplx {

  datatype Complex = Complex(re: real, im: real)

  const Zero := Complex(0.0, 0.0)

  function FromReal(x: real): Complex
  {
    Complex(x, 0.0)
  }

  /** `norm(c)`: the squared magnitude. */
  function Norm(c: Complex): real
  {
    c.re * c.re + c.im * c.im
  }

  function Mul(a: Complex, b: Complex): Complex
  {
    Complex(a.re * b.re - a.im * b.im, a.re * b.im + a.im * b.re)
  }

  /** `a / b`; it is the complex number that gives `a` back when
      multiplied by `b`, and its squared magnitude is the quotient of
      theirs. */
  function Div(a: Complex, b: Complex): (q: Complex)
    requires Norm(b) > 0.0
    ensures Mul(q, b) == a
    ensures Norm(q) * Norm(b) == Norm(a)
  {
    var n := Norm(b);
    var q := Complex((a.re * b.re + a.im * b.im) / n, (a.im * b.re - a.re * b.im) / n);
    DivProperties(a, b, q);
    q
  }

  lemma DivProperties(a: Complex, b: Complex, q: Complex)
    requires Norm(b) > 0.0
    requires q.re == (a.re * b.re + a.im * b.im) / Norm(b)
    requires q.im == (a.im * b.re - a.re * b.im) / Norm(b)
    ensures Mul(q, b) == a
    ensures Norm(q) * Norm(b) == Norm(a)
  {
    var n := Norm(b);
    var x := a.re * b.re + a.im * b.im;
    var y := a.im * b.re - a.re * b.im;
    assert q.re * n == x;
    assert q.im * n == y;
    assert (q.re * b.re - q.im * b.im) * n == x * b.re - y * b.im;
    assert x * b.re - y * b.im == a.re * n;
    assert (q.re * b.im + q.im * b.re) * n == x * b.im + y * b.re;
    assert x * b.im + y * b.re == a.im * n;
    assert x * x + y * y == Norm(a) * n;
    assert (q.re * q.re + q.im * q.im) * n * n == x * x + y * y;
  }

  function Neg(c: Complex): Complex
  {
    Complex(-c.re, -c.im)
  }

  /** A tone divided by itself is 1, and its negation divided by it is -1. */
  lemma DivBySelf(c: Complex)
    requires Norm(c) > 0.0
    ensures Div(c, c) == FromReal(1.0)
    ensures Div(Neg(c), c) == FromReal(-1.0)
  {
    var n := Norm(c);
    var q, r := Div(c, c), Div(Neg(c), c);
    assert q.re == n / n == 1.0;
    assert q.im == (c.im * c.re - c.re * c.im) / n == 0.0;
    assert r.re == ((-c.re) * c.re + (-c.im) * c.im) / n == -1.0;
    assert r.im == ((-c.im) * c.re - (-c.re) * c.im) / n == 0.0;
  }
}
