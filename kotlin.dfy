/** Kotlin language facts the app relies on: nullable results and `Long` division. */
module Kotlin {

  /** A Kotlin nullable value (`Int?`): `None` stands for `null`. */
  datatype Option<T> = None | Some(value: T) {
    /** The value, or `default` for `null` (Kotlin's `?:`). */
    function GetOr(default: T): T {
      if Some? then value else default
    }
  }

  /** Absolute value. */
  function Abs(x: int): nat {
    if x < 0 then -x else x
  }

  /** `q` is `a / b` rounded toward zero: the remainder `a - q * b` is smaller than
      the divisor in magnitude and has the sign of the dividend (or is zero). */
  ghost predicate TruncatedQuotient(a: int, b: int, q: int) {
    && Abs(a - q * b) < Abs(b)
    && (a - q * b == 0 || (a - q * b < 0 <==> a < 0))
  }

  /** Kotlin's `Long` division, which truncates toward zero (Dafny's `/` is Euclidean).
      Division by zero throws in Kotlin, hence the precondition. */
  function Div(a: int, b: int): (q: int)
    requires b != 0
    ensures TruncatedQuotient(a, b, q)
    ensures a >= 0 && b > 0 ==> q == a / b
  {
    if a >= 0 then
      NonNegativeDividend(a, b);
      a / b
    else
      NegativeDividend(a, b);
      -((-a) / b)
  }

  /** For a non-negative dividend, Euclidean division already truncates toward zero. */
  lemma NonNegativeDividend(a: int, b: int)
    requires a >= 0 && b != 0
    ensures TruncatedQuotient(a, b, a / b)
  {
    var q, r := a / b, a % b;
    assert a == q * b + r;
    assert a - q * b == r;
  }

  /** For a negative dividend, truncation is the negated quotient of the magnitude. */
  lemma NegativeDividend(a: int, b: int)
    requires a < 0 && b != 0
    ensures TruncatedQuotient(a, b, -((-a) / b))
  {
    var q, r := (-a) / b, (-a) % b;
    assert -a == q * b + r;
    assert (-q) * b == -(q * b);
    assert a - (-q) * b == -r;
  }

  /** A negative dividend over a positive divisor gives a quotient of at most zero, and
      below zero exactly when the dividend's magnitude reaches the divisor. */
  lemma DivNegativeByPositive(a: int, b: int)
    requires a < 0 < b
    ensures Div(a, b) <= 0
    ensures Div(a, b) < 0 <==> -a >= b
  {
    var q := (-a) / b;
    assert Div(a, b) == -q;
    assert q >= 0;
    if -a >= b {
      assert q * b + (-a) % b == -a;
      assert q != 0;
    } else {
      assert q == 0;
    }
  }

  /** A nonzero multiple of `b` is at least `b` in magnitude. */
  lemma MultipleMagnitude(k: int, b: int)
    requires k != 0
    ensures Abs(k * b) >= Abs(b)
  {
    if b != 0 {
      var j := Abs(k) - 1;
      assert j * Abs(b) >= 0;
      if k > 0 {
        assert k * b == b + j * b;
        if b > 0 { assert j * b >= 0; } else { assert j * b <= 0; }
      } else {
        assert k * b == -b - j * b;
        if b > 0 { assert j * b >= 0; } else { assert j * b <= 0; }
      }
    }
  }

  /** The two properties of `TruncatedQuotient` leave one possible quotient. */
  lemma TruncatedQuotientUnique(a: int, b: int, q: int)
    requires b != 0
    requires TruncatedQuotient(a, b, q)
    ensures q == Div(a, b)
  {
    var d := Div(a, b);
    var r, s := a - q * b, a - d * b;
    DifferenceOfRemainders(a, b, q, d);
    assert Abs(r - s) < Abs(b);
    if q != d {
      MultipleMagnitude(d - q, b);
      assert false;
    }
  }

  /** Two remainders of the same dividend differ by a multiple of the divisor. */
  lemma DifferenceOfRemainders(a: int, b: int, q: int, d: int)
    ensures (a - q * b) - (a - d * b) == (d - q) * b
  {
    assert (d - q) * b == d * b - q * b;
  }

  /** Truncation differs from Dafny's division on a negative dividend. */
  lemma DivTruncatesTowardZero()
    ensures Div(-5, 2) == -2 && -5 / 2 == -3
    ensures Div(-500, 1000) == 0 && -500 / 1000 == -1
  {
  }
}
