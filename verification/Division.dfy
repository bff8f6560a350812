/** The one fact about integer division that the counting results need. */
module Division {

  /** `q` is the quotient when `q * b` is the last multiple of `b` not above `a`. */
  lemma Quotient(a: int, b: int, q: int)
    requires b > 0 && q * b <= a < q * b + b
    ensures a / b == q
  {
    assert a == (a - q * b) + q * b;
    assert 0 <= a - q * b < b;
    DivShift(a - q * b, b, q);
  }

  lemma DivShift(r: int, b: int, q: int)
    requires 0 <= r < b
    ensures (r + q * b) / b == q
  {
    var a := r + q * b;
    var d := a / b;
    assert a == d * b + a % b;
    assert (d - q) * b == r - a % b;
    if d != q {
      Magnitude(d - q, b);
    }
  }

  lemma Magnitude(n: int, b: int)
    requires n != 0 && b > 0
    ensures n * b >= b || n * b <= -b
  {
    if n > 0 {
      assert (n - 1) * b >= 0;
    } else {
      assert (-n - 1) * b >= 0;
    }
  }
}
