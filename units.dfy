/** Pixel <-> metre conversion (the `Environment` of Render_Class.py).
    Python floats are modelled as exact reals. */
module Units {

  datatype Result<T, E> = Success(value: T) | Failure(error: E)

  /** The two ways constructing an Environment raises ZeroDivisionError,
      in the order the constructor evaluates its divisions. */
  datatype EnvError = ZeroPixelLength | ZeroMetreLength

  function Abs(x: real): (r: real)
    ensures r >= 0.0 && (r == x || r == -x)
  {
    if x < 0.0 then -x else x
  }

  /** Python 3's `round` on a float: nearest integer, ties to the even neighbour. */
  function RoundHalfEven(x: real): int {
    var f := x.Floor;
    var d := x - f as real;
    if d < 0.5 then f
    else if d > 0.5 then f + 1
    else if f % 2 == 0 then f
    else f + 1
  }

  /** The rounded value is within 1/2 of `x`, strictly so away from a tie,
      and even at a tie. */
  lemma RoundBounds(x: real)
    ensures Abs(RoundHalfEven(x) as real - x) <= 0.5
    ensures x - x.Floor as real != 0.5 ==> Abs(RoundHalfEven(x) as real - x) < 0.5
    ensures x - x.Floor as real == 0.5 ==> RoundHalfEven(x) % 2 == 0
  {
  }

  /** No integer is strictly nearer to `x` than `RoundHalfEven(x)`, and away
      from a tie no other integer is as near. */
  lemma RoundIsNearest(x: real, n: int)
    ensures Abs(RoundHalfEven(x) as real - x) <= Abs(n as real - x)
    ensures n != RoundHalfEven(x) && x - x.Floor as real != 0.5 ==>
              Abs(RoundHalfEven(x) as real - x) < Abs(n as real - x)
  {
    var r := RoundHalfEven(x);
    RoundBounds(x);
    if n != r {
      assert n <= r - 1 || n >= r + 1;
    }
  }

  /** Rounding an integral value gives that integer back. */
  lemma RoundOfInteger(n: int)
    ensures RoundHalfEven(n as real) == n
  {
    var r := RoundHalfEven(n as real);
    RoundBounds(n as real);
    assert -1 < r - n < 1;
  }

  /** Unfolding `PxFromM` at a point whose scaled value is known; the proofs
      that multiply the converter's factors need this step stated apart. */
  lemma PxFromMAt(env: Environment, x: real, y: real)
    requires x * env.mToPx == y
    ensures env.PxFromM(x) == RoundHalfEven(y)
  {
  }

  /** A converter between screen pixels and physical metres: the two scale
      factors computed once by the constructor. */
  datatype Environment = Environment(pxToM: real, mToPx: real) {

    /** What construction guarantees: the factors are non-zero reciprocals. */
    predicate Valid() {
      pxToM * mToPx == 1.0
    }

    /** Pixels to metres: exact linear scaling, no rounding. */
    function MFromPx(dxPx: int): real {
      dxPx as real * pxToM
    }

    /** Metres to pixels: scale, then round to the nearest integer. */
    function PxFromM(dxM: real): int {
      RoundHalfEven(dxM * mToPx)
    }
  }

  /** The constructor `Environment(length_px, length_m)`: `length_px` pixels
      on screen stand for `length_m` metres. */
  function MakeEnvironment(lengthPx: int, lengthM: real): (r: Result<Environment, EnvError>)
    ensures r.Success? <==> lengthPx != 0 && lengthM != 0.0
    ensures lengthPx == 0 ==> r == Failure(ZeroPixelLength)
    ensures lengthPx != 0 && lengthM == 0.0 ==> r == Failure(ZeroMetreLength)
    ensures r.Success? ==> r.value.Valid()
    ensures r.Success? ==> r.value.pxToM * lengthPx as real == lengthM
    ensures r.Success? ==> r.value.mToPx * lengthM == lengthPx as real
  {
    if lengthPx == 0 then Failure(ZeroPixelLength)
    else if lengthM == 0.0 then Failure(ZeroMetreLength)
    else
      var env := Environment(lengthM / lengthPx as real, lengthPx as real / lengthM);
      Success(env)
  }

  /** `m_from_px` on a freshly built converter is `p * length_m / length_px`. */
  lemma MFromPxScale(lengthPx: int, lengthM: real, p: int)
    requires lengthPx != 0 && lengthM != 0.0
    ensures MakeEnvironment(lengthPx, lengthM).Success?
    ensures MakeEnvironment(lengthPx, lengthM).value.MFromPx(p) == p as real * lengthM / lengthPx as real
  {
    var env := MakeEnvironment(lengthPx, lengthM).value;
    assert env.pxToM == lengthM / lengthPx as real;
  }

  /** `px_from_m` is within half a pixel of the exact scaled value. */
  lemma PxFromMBound(env: Environment, x: real)
    ensures Abs(env.PxFromM(x) as real - x * env.mToPx) <= 0.5
  {
    var y := x * env.mToPx;
    PxFromMAt(env, x, y);
    RoundBounds(y);
  }

  /** `px_from_m` on a freshly built converter gives an integer nearest to
      the exact value `x * length_px / length_m`. */
  lemma PxFromMNearest(lengthPx: int, lengthM: real, x: real, n: int)
    requires lengthPx != 0 && lengthM != 0.0
    ensures MakeEnvironment(lengthPx, lengthM).Success?
    ensures var exact := x * lengthPx as real / lengthM;
            Abs(MakeEnvironment(lengthPx, lengthM).value.PxFromM(x) as real - exact) <= Abs(n as real - exact)
  {
    var env := MakeEnvironment(lengthPx, lengthM).value;
    var exact := x * lengthPx as real / lengthM;
    assert env.mToPx == lengthPx as real / lengthM;
    assert x * env.mToPx == exact;
    PxFromMAt(env, x, exact);
    RoundIsNearest(exact, n);
  }

  /** `m_from_px` is linear: it maps 0 to 0, sums to sums and multiples to
      multiples. */
  lemma MFromPxLinear(env: Environment, a: int, b: int, k: int)
    ensures env.MFromPx(0) == 0.0
    ensures env.MFromPx(a + b) == env.MFromPx(a) + env.MFromPx(b)
    ensures env.MFromPx(k * a) == k as real * env.MFromPx(a)
  {
    assert (k * a) as real == k as real * a as real;
  }

  /** Round trip pixels -> metres -> pixels: every integer pixel distance
      comes back unchanged, because the two factors are reciprocals. */
  lemma {:induction false} PixelRoundTrip(env: Environment, p: int)
    requires env.Valid()
    ensures env.PxFromM(env.MFromPx(p)) == p
  {
    calc {
      env.MFromPx(p) * env.mToPx;
      (p as real * env.pxToM) * env.mToPx;
      p as real * (env.pxToM * env.mToPx);
      p as real;
    }
    PxFromMAt(env, env.MFromPx(p), p as real);
    RoundOfInteger(p);
  }

  /** Round trip metres -> pixels -> metres: the result is within half a
      pixel's worth of metres of the start. */
  lemma {:induction false} MetreRoundTrip(env: Environment, x: real)
    requires env.Valid()
    ensures Abs(env.MFromPx(env.PxFromM(x)) - x) <= Abs(env.pxToM) / 2.0
  {
    var r := env.PxFromM(x);
    var e := r as real - x * env.mToPx;
    calc {
      env.MFromPx(r) - x;
      r as real * env.pxToM - x;
      r as real * env.pxToM - x * (env.mToPx * env.pxToM);
      (r as real - x * env.mToPx) * env.pxToM;
      e * env.pxToM;
    }
    PxFromMBound(env, x);
    HalfScaled(env.MFromPx(r) - x, e, env.pxToM);
  }

  lemma HalfScaled(d: real, e: real, p: real)
    requires d == e * p && Abs(e) <= 0.5
    ensures Abs(d) <= Abs(p) / 2.0
  {
    AbsMul(e, p);
    assert Abs(e) * Abs(p) <= 0.5 * Abs(p);
    assert Abs(d) == Abs(e * p);
  }

  lemma AbsMul(a: real, b: real)
    ensures Abs(a * b) == Abs(a) * Abs(b)
  {
    if a < 0.0 && b < 0.0 { assert a * b == (-a) * (-b); }
  }
}
