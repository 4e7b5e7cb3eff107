/** Escape-time evaluation of the quadratic recurrence z <- z*z + c.
 *
 *  Complex numbers are pairs of exact reals. `main.go` compares the modulus
 *  `|z| > 2`; here the equivalent squared test `re*re + im*im > 4` is used
 *  (see ModulusTest), so no square root is needed.
 */
module Escape {

  datatype Option<T> = None | Some(value: T)

  /** An 8-bit unsigned value, the type of a pixel intensity and of a colour channel. */
  type Byte = n: int | 0 <= n < 256

  /** The iteration bound of the renderer. */
  const MaxIter: nat := 1000

  datatype Complex = Complex(re: real, im: real)

  const Zero := Complex(0.0, 0.0)

  /** The fixed constant of the Julia recurrence, -0.7 + 0.27015i. */
  const JuliaC := Complex(-0.7, 0.27015)

  function Add(a: Complex, b: Complex): Complex {
    Complex(a.re + b.re, a.im + b.im)
  }

  function Mul(a: Complex, b: Complex): Complex {
    Complex(a.re * b.re - a.im * b.im, a.re * b.im + a.im * b.re)
  }

  /** One step of the recurrence. */
  function Step(z: Complex, c: Complex): Complex {
    Add(Mul(z, z), c)
  }

  /** The step written out in coordinates: re' = re^2 - im^2 + c.re, im' = 2 re im + c.im. */
  lemma StepExpanded(z: Complex, c: Complex)
    ensures Step(z, c).re == z.re * z.re - z.im * z.im + c.re
    ensures Step(z, c).im == 2.0 * z.re * z.im + c.im
  {
  }

  /** The squared modulus of z. */
  function Norm2(z: Complex): (n: real)
    ensures n >= 0.0
  {
    z.re * z.re + z.im * z.im
  }

  /** The escape test: the orbit has left the disc of radius 2. */
  predicate Escaped(z: Complex) {
    Norm2(z) > 4.0
  }

  /** Every point outside the square [-2, 2] x [-2, 2] has escaped, and an
   *  escaped point has a coordinate whose square exceeds 2. */
  lemma EscapedBounds(z: Complex)
    ensures (z.re > 2.0 || z.re < -2.0 || z.im > 2.0 || z.im < -2.0) ==> Escaped(z)
    ensures Escaped(z) ==> z.re * z.re > 2.0 || z.im * z.im > 2.0
  {
    assert Norm2(z) == z.re * z.re + z.im * z.im;
  }

  /** Comparing the modulus with 2 is the same as comparing the squared modulus with 4. */
  lemma ModulusTest(z: Complex, m: real)
    requires m >= 0.0 && m * m == Norm2(z)
    ensures m > 2.0 <==> Escaped(z)
  {
    if m > 2.0 {
      assert m * m > 2.0 * m;
    } else {
      assert m * m <= 2.0 * m;
    }
  }

  /** The n-th point of the orbit of z0 under z <- z*z + c. */
  function Orbit(z0: Complex, c: Complex, n: nat): Complex
  {
    if n == 0 then z0 else Step(Orbit(z0, c, n - 1), c)
  }

  /** The orbit has left the disc after step j (0-based), that is at point j + 1. */
  predicate EscapesAt(z0: Complex, c: Complex, j: nat) {
    Escaped(Orbit(z0, c, j + 1))
  }

  /** Step k (0-based) is the first of the first `maxIter` steps after which the orbit has escaped. */
  ghost predicate FirstEscape(z0: Complex, c: Complex, k: nat, maxIter: nat) {
    k < maxIter && EscapesAt(z0, c, k) &&
    forall j: nat :: j < k ==> !EscapesAt(z0, c, j)
  }

  /** No step among the first `maxIter` takes the orbit out of the disc. */
  ghost predicate NeverEscapes(z0: Complex, c: Complex, maxIter: nat) {
    forall j: nat :: j < maxIter ==> !EscapesAt(z0, c, j)
  }

  /** The escape loop from counter i on, with z the current point: the counter of
   *  the step after which z first escapes, or None when all steps below maxIter
   *  keep it inside. */
  function EscapeFrom(z: Complex, c: Complex, i: nat, maxIter: nat): (r: Option<nat>)
    decreases maxIter - i
    ensures r.Some? ==> i <= r.value < maxIter
  {
    if i >= maxIter then None
    else if Escaped(Step(z, c)) then Some(i)
    else EscapeFrom(Step(z, c), c, i + 1, maxIter)
  }

  /** The 0-based escape step of the orbit of z0, if it escapes within maxIter steps. */
  function EscapeIndex(z0: Complex, c: Complex, maxIter: nat): Option<nat> {
    EscapeFrom(z0, c, 0, maxIter)
  }

  /** Go's conversion of an int to uint8: keep the low eight bits. */
  function ToByte(n: int): (b: Byte)
    ensures 0 <= n < 256 ==> b == n
    ensures (b - n) % 256 == 0
  {
    n % 256
  }

  /** Multiplication by a natural number is monotone. */
  lemma MulMonotone(m: nat, x: int, y: int)
    ensures x <= y ==> m * x <= m * y
  {
  }

  /** x / m stays below 255 whenever x stays below 255 * m. */
  lemma DivBelow255(x: nat, m: nat)
    requires m > 0 && x < 255 * m
    ensures x / m <= 254
  {
  }

  /** Integer division by a positive number is monotone. */
  lemma DivMonotone(a: nat, b: nat, m: nat)
    requires m > 0 && a <= b
    ensures a / m <= b / m
  {
    MulMonotone(m, b / m + 1, a / m);
  }

  /** The intensity of an escape at step i: 255 * i / maxIter, converted to uint8.
   *  For every step the loop can reach, the conversion truncates nothing. */
  function Quantize(i: nat, maxIter: nat): (v: Byte)
    requires maxIter > 0
    ensures i < maxIter ==> v == 255 * i / maxIter && v <= 254
  {
    assert i < maxIter ==> 255 * i / maxIter <= 254 by {
      if i < maxIter { DivBelow255(255 * i, maxIter); }
    }
    ToByte(255 * i / maxIter)
  }

  /** A later escape never gets a smaller intensity. */
  lemma QuantizeMonotone(i: nat, j: nat, maxIter: nat)
    requires maxIter > 0 && i <= j < maxIter
    ensures Quantize(i, maxIter) <= Quantize(j, maxIter)
  {
    DivMonotone(255 * i, 255 * j, maxIter);
  }

  /** The intensity the evaluator returns for the orbit of z0: 0 when the orbit
   *  stays inside, the quantised escape step otherwise. */
  function EscapeTime(z0: Complex, c: Complex, maxIter: nat): (v: Byte)
    requires maxIter > 0
    ensures v <= 254
  {
    match EscapeIndex(z0, c, maxIter)
    case None => 0
    case Some(i) => Quantize(i, maxIter)
  }

  /** EscapeFrom, started on the orbit at counter i, finds the first escape at or after i. */
  lemma {:induction false} EscapeFromOrbit(z0: Complex, c: Complex, i: nat, maxIter: nat)
    requires i <= maxIter
    ensures var r := EscapeFrom(Orbit(z0, c, i), c, i, maxIter);
      (r.Some? ==> EscapesAt(z0, c, r.value) &&
                   forall j: nat :: i <= j < r.value ==> !EscapesAt(z0, c, j)) &&
      (r.None? ==> forall j: nat :: i <= j < maxIter ==> !EscapesAt(z0, c, j))
    decreases maxIter - i
  {
    if i < maxIter {
      assert Orbit(z0, c, i + 1) == Step(Orbit(z0, c, i), c);
      if !EscapesAt(z0, c, i) {
        EscapeFromOrbit(z0, c, i + 1, maxIter);
      }
    }
  }

  /** EscapeIndex agrees with the orbit-based reference: it is Some(k) exactly
   *  when k is the first escape step, and None exactly when there is none. */
  lemma EscapeIndexCorrect(z0: Complex, c: Complex, maxIter: nat)
    ensures forall k: nat :: EscapeIndex(z0, c, maxIter) == Some(k) <==> FirstEscape(z0, c, k, maxIter)
    ensures EscapeIndex(z0, c, maxIter).None? <==> NeverEscapes(z0, c, maxIter)
  {
    EscapeFromOrbit(z0, c, 0, maxIter);
    var r := EscapeIndex(z0, c, maxIter);
    forall k: nat | FirstEscape(z0, c, k, maxIter)
      ensures r == Some(k)
    {
    }
    if r.Some? {
      assert FirstEscape(z0, c, r.value, maxIter);
      assert !NeverEscapes(z0, c, maxIter) by {
        assert EscapesAt(z0, c, r.value);
      }
    }
  }

  /** What the intensity means: 255 * k / maxIter for the first escape step k,
   *  and 0 when the orbit stays inside for all maxIter steps. */
  lemma EscapeTimeMeaning(z0: Complex, c: Complex, maxIter: nat)
    requires maxIter > 0
    ensures forall k: nat :: FirstEscape(z0, c, k, maxIter) ==> EscapeTime(z0, c, maxIter) == 255 * k / maxIter
    ensures NeverEscapes(z0, c, maxIter) ==> EscapeTime(z0, c, maxIter) == 0
  {
    EscapeIndexCorrect(z0, c, maxIter);
  }

  /** An orbit that escapes on the very first step gets intensity 0, the same as
   *  an orbit that never escapes: the step count is 0-based. */
  lemma ImmediateEscapeLooksInside(z0: Complex, c: Complex, maxIter: nat)
    requires maxIter > 0 && Escaped(Step(z0, c))
    ensures EscapeIndex(z0, c, maxIter) == Some(0)
    ensures EscapeTime(z0, c, maxIter) == 0
  {
  }

  /** A nonzero intensity at the renderer's bound means the orbit escaped, and not
   *  before step 4 (255 * 3 / 1000 == 0). */
  lemma NonzeroMeansLateEscape(z0: Complex, c: Complex)
    requires EscapeTime(z0, c, MaxIter) > 0
    ensures exists k :: 4 <= k < MaxIter && FirstEscape(z0, c, k, MaxIter)
  {
    EscapeIndexCorrect(z0, c, MaxIter);
    var k := EscapeIndex(z0, c, MaxIter).value;
    assert FirstEscape(z0, c, k, MaxIter);
  }

  /** A fixed point of the step inside the disc never escapes. */
  lemma {:induction false} FixedPointStays(z: Complex, c: Complex, i: nat, maxIter: nat)
    requires Step(z, c) == z && !Escaped(z)
    ensures EscapeFrom(z, c, i, maxIter) == None
    decreases maxIter - i
  {
    if i < maxIter {
      FixedPointStays(z, c, i + 1, maxIter);
    }
  }

  /** The Mandelbrot orbit of c = 0 stays at 0, so its intensity is 0 for every bound. */
  lemma MandelbrotOrigin(c: Complex, maxIter: nat)
    requires maxIter > 0 && c.re == 0.0 && c.im == 0.0
    ensures EscapeIndex(Zero, c, maxIter) == None
    ensures EscapeTime(Zero, c, maxIter) == 0
  {
    assert Mul(Zero, Zero) == Zero;
    assert Step(Zero, c) == Zero;
    assert !Escaped(Zero);
    FixedPointStays(Zero, c, 0, maxIter);
    assert EscapeIndex(Zero, c, maxIter) == None;
  }

  /** The escape loop shared by `mandelbrot` and `julia`: starting from z, apply
   *  z <- z*z + c up to MaxIter times and return the quantised step of the first
   *  escape, or 0. */
  method EscapeLoop(z0: Complex, c: Complex) returns (v: Byte)
    ensures v == EscapeTime(z0, c, MaxIter)
    ensures v <= 254
  {
    var z := z0;
    var i := 0;
    while i < MaxIter
      invariant 0 <= i <= MaxIter
      invariant EscapeFrom(z, c, i, MaxIter) == EscapeIndex(z0, c, MaxIter)
    {
      z := Add(Mul(z, z), c);
      if Escaped(z) {
        return Quantize(i, MaxIter);
      }
      i := i + 1;
    }
    return 0;
  }

  /** The Mandelbrot evaluator: the orbit starts at 0 and the input is the constant. */
  method Mandelbrot(c: Complex) returns (v: Byte)
    ensures v == EscapeTime(Zero, c, MaxIter)
    ensures v <= 254
    ensures c == Zero ==> v == 0
  {
    if c == Zero {
      MandelbrotOrigin(c, MaxIter);
    }
    v := EscapeLoop(Zero, c);
  }

  /** The Julia evaluator: the orbit starts at the input and the constant is JuliaC. */
  method Julia(z: Complex) returns (v: Byte)
    ensures v == EscapeTime(z, JuliaC, MaxIter)
    ensures v <= 254
  {
    v := EscapeLoop(z, JuliaC);
  }
}
