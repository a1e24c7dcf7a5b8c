/** Numeric building blocks shared by the risk calculator, the evacuation simulator and the
    statistics: extended reals for the infinite travel time the calculator can produce, the
    square root the source takes from its maths library (here a parameter whose defining
    property is stated, never assumed), and integer powers used for the F-N boundary lines. */
module Numerics {

  /** A float that may be minus or plus infinity.  The calculator produces `inf` for the travel
      time of a configuration whose walking speed is not positive, and that value propagates
      into the safety margin and the fatality count. */
  datatype ExtReal = NegInf | Fin(r: real) | PosInf {

    /** `this > x` as IEEE comparison of an extended value with a finite one */
    predicate Gt(x: real) {
      match this
      case NegInf => false
      case Fin(v) => v > x
      case PosInf => true
    }

    /** `this >= x` as IEEE comparison of an extended value with a finite one */
    predicate Ge(x: real) {
      match this
      case NegInf => false
      case Fin(v) => v >= x
      case PosInf => true
    }
  }

  /** `a - b` for a finite `a`, following IEEE arithmetic on infinities. */
  function SubExt(a: real, b: ExtReal): ExtReal {
    match b
    case NegInf => PosInf
    case Fin(v) => Fin(a - v)
    case PosInf => NegInf
  }

  /** `sqrt` is a square root on the non-negative reals.  Every member that needs a square root
      receives one as a parameter and requires this of it. */
  ghost predicate IsSqrtFn(sqrt: real -> real) {
    forall x :: 0.0 <= x ==> 0.0 <= sqrt(x) && sqrt(x) * sqrt(x) == x
  }

  /** `u ** 2` */
  function Sq(u: real): real {
    u * u
  }

  lemma SqNonNegative(u: real)
    ensures 0.0 <= Sq(u)
  {
  }

  /** The square of a square root gives back its non-negative argument. */
  lemma SquareOfSqrt(sqrt: real -> real, z: real)
    requires IsSqrtFn(sqrt) && 0.0 <= z
    ensures 0.0 <= sqrt(z) && Sq(sqrt(z)) == z
  {
  }

  /** The square root of a square of a non-negative number is that number: the non-negative
      root is unique. */
  lemma SqrtOfSquare(sqrt: real -> real, r: real)
    requires IsSqrtFn(sqrt)
    requires 0.0 <= r
    ensures sqrt(Sq(r)) == r
  {
    var s := sqrt(Sq(r));
    assert 0.0 <= Sq(r);
    assert 0.0 <= s && s * s == r * r;
    if s > r {
      SquareGrows(r, s);
    } else if s < r {
      SquareGrows(s, r);
    }
  }

  lemma SquareGrows(a: real, b: real)
    requires 0.0 <= a < b
    ensures a * a < b * b
  {
    var aa, ab, bb := a * a, a * b, b * b;
    assert aa <= ab;
    assert ab < bb;
  }

  /** On the non-negative reals, squaring preserves and reflects strict order. */
  lemma SquareLessIffLess(a: real, b: real)
    requires 0.0 <= a && 0.0 <= b
    ensures a * a < b * b <==> a < b
  {
    if a < b {
      SquareGrows(a, b);
    } else if b < a {
      SquareGrows(b, a);
    }
  }

  /** x^k for a natural exponent */
  function NatPower(x: real, k: nat): real {
    if k == 0 then 1.0 else x * NatPower(x, k - 1)
  }

  /** x^k for an integer exponent and a positive base */
  function Power(x: real, k: int): real
    requires 0.0 < x
  {
    if k >= 0 then NatPower(x, k) else NatPower(1.0 / x, -k)
  }

  /** 10^k for an integer exponent: ten times 10^(k-1) above zero, a tenth of 10^(k+1) below. */
  function Pow10(k: int): real
    decreases if k < 0 then -k else k
  {
    if k == 0 then 1.0 else if k > 0 then 10.0 * Pow10(k - 1) else Pow10(k + 1) / 10.0
  }

  lemma {:induction false} NatPowerPositive(x: real, k: nat)
    requires 0.0 < x
    ensures 0.0 < NatPower(x, k)
  {
    if k > 0 {
      NatPowerPositive(x, k - 1);
      var p := NatPower(x, k - 1);
      assert 0.0 < x * p;
    }
  }

  /** One step of the exponent multiplies by ten, for every integer exponent. */
  lemma Pow10Step(k: int)
    ensures Pow10(k) == 10.0 * Pow10(k - 1)
  {
  }

  /** 10^i * 10^j = 10^(i+j) for all integer exponents. */
  lemma Pow10Add(i: int, j: int)
    ensures Pow10(i) * Pow10(j) == Pow10(i + j)
  {
    Pow10AddTo(i, j, i + j);
  }

  /** Pow10Add with the sum of the exponents named. */
  lemma Pow10AddTo(i: int, j: int, s: int)
    requires s == i + j
    ensures Pow10(i) * Pow10(j) == Pow10(s)
  {
    if j >= 0 {
      Pow10AddUp(i, j, s);
    } else {
      Pow10AddDown(i, j, s);
    }
  }

  lemma {:induction false} Pow10AddUp(i: int, j: int, s: int)
    requires 0 <= j && s == i + j
    ensures Pow10(i) * Pow10(j) == Pow10(s)
    decreases j
  {
    if j > 0 {
      Pow10AddUp(i, j - 1, s - 1);
      Pow10Step(j);
      Pow10Step(s);
      ScaleByTen(Pow10(i), Pow10(j), Pow10(j - 1), Pow10(s), Pow10(s - 1));
    } else {
      MulOne(Pow10(i), Pow10(j));
    }
  }

  lemma {:induction false} Pow10AddDown(i: int, j: int, s: int)
    requires j <= 0 && s == i + j
    ensures Pow10(i) * Pow10(j) == Pow10(s)
    decreases -j
  {
    if j < 0 {
      Pow10AddDown(i, j + 1, s + 1);
      Pow10Step(j + 1);
      Pow10Step(s + 1);
      UnscaleByTen(Pow10(i), Pow10(j + 1), Pow10(j + 1 - 1), Pow10(s + 1), Pow10(s + 1 - 1));
    } else {
      MulOne(Pow10(i), Pow10(j));
    }
  }

  lemma MulOne(a: real, b: real)
    requires b == 1.0
    ensures a * b == a
  {
  }

  lemma ScaleByTen(a: real, b: real, b0: real, c: real, c0: real)
    requires b == 10.0 * b0 && c == 10.0 * c0 && a * b0 == c0
    ensures a * b == c
  {
  }

  lemma UnscaleByTen(a: real, b: real, b0: real, c: real, c0: real)
    requires b == 10.0 * b0 && c == 10.0 * c0 && a * b == c
    ensures a * b0 == c0
  {
  }

  lemma {:induction false} Pow10Positive(k: int)
    ensures 0.0 < Pow10(k)
    decreases if k < 0 then -k else k
  {
    if k > 0 {
      Pow10Positive(k - 1);
    } else if k < 0 {
      Pow10Positive(k + 1);
    }
  }

  /** 10^x is strictly increasing on the integers, in both directions. */
  lemma Pow10Less(i: int, j: int)
    ensures Pow10(i) < Pow10(j) <==> i < j
  {
    if i < j {
      Pow10Grows(i, j);
    } else if i > j {
      Pow10Grows(j, i);
    }
  }

  lemma {:induction false} Pow10Grows(i: int, j: int)
    requires i < j
    ensures Pow10(i) < Pow10(j)
    decreases j - i
  {
    Pow10Step(j);
    Pow10Positive(j - 1);
    if i < j - 1 {
      Pow10Grows(i, j - 1);
    }
  }
}
