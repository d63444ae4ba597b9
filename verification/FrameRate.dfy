/** The time-per-frame fraction jetcam-raw-test asks the driver for. */
module FrameRate {
  import opened MachineTypes
  import opened KernelInterface

  const SCALE := 1000
  const LARGEST_RATE := 4294967295.0

  /** To the nearest whole number, halves up: llround on the non-negative numbers. */
  function Round(x: real): int {
    (x + 0.5).Floor
  }

  function Gcd(a: nat, b: nat): (g: nat)
    ensures a > 0 || b > 0 ==> g > 0
    decreases b
  {
    if b == 0 then a else Gcd(b, a % b)
  }

  /** Numerator and denominator of one frame's time, for a requested number of frames a second. */
  function TimePerFrame(fps: real): (r: Result<(uint32, uint32), Complaint>)
    requires fps > 0.0
  {
    if fps * SCALE as real > LARGEST_RATE then Failure(RateTooLarge)
    else
      var denominator := Round(fps * SCALE as real);
      assert 0 <= denominator < TWO_TO_THE_32;
      var divisor := Gcd(SCALE, denominator);
      GcdDivides(SCALE, denominator);
      FactorShrinks(divisor, SCALE / divisor);
      FactorShrinks(divisor, denominator / divisor);
      Success((SCALE / divisor, denominator / divisor))
  }

  /** k divides both numbers, with these quotients. */
  predicate CommonDivisor(k: nat, a: nat, b: nat, p: nat, q: nat) {
    a == k * p && b == k * q
  }

  lemma FactorShrinks(d: nat, q: int)
    requires d > 0 && d * q >= 0
    ensures 0 <= q <= d * q
  {
    ProductGrows(d, q);
  }

  lemma ProductGrows(g: nat, k: int)
    requires g > 0
    ensures k >= 0 ==> g * k >= k
    ensures k >= 1 ==> g * k >= g
    ensures k <= -1 ==> g * k + g <= 0
  {
    if k >= 0 {
      assert g * k == (g - 1) * k + k;
    }
    if k >= 1 {
      assert g * k == g * (k - 1) + g;
    }
    if k <= -1 {
      assert g * k == g * (k + 1) - g;
    }
  }

  /** Both numbers are multiples of their greatest common divisor. */
  lemma {:induction false} GcdFactors(a: nat, b: nat) returns (p: nat, q: nat)
    requires a > 0 || b > 0
    ensures Gcd(a, b) > 0 && CommonDivisor(Gcd(a, b), a, b, p, q)
    decreases b
  {
    if b == 0 {
      p, q := 1, 0;
    } else {
      var p', q' := GcdFactors(b, a % b);
      assert a == a / b * b + a % b;
      p, q := FactorStep(a, b, a / b, Gcd(a, b), p', q');
    }
  }

  lemma Factor(m: nat, g: nat, p: nat, q: nat)
    ensures m * (g * p) + g * q == g * (m * p + q)
  {
  }

  lemma FactorStep(a: nat, b: nat, m: nat, g: nat, p': nat, q': nat) returns (p: nat, q: nat)
    requires a >= m * b && CommonDivisor(g, b, a - m * b, p', q')
    ensures CommonDivisor(g, a, b, p, q)
  {
    Factor(m, g, p', q');
    p, q := m * p' + q', p';
  }

  lemma GcdDivides(a: nat, b: nat)
    requires a > 0 || b > 0
    ensures var g := Gcd(a, b); g > 0 && a == g * (a / g) && b == g * (b / g)
  {
    var p, q := GcdFactors(a, b);
    DivideExactly(Gcd(a, b), p);
    DivideExactly(Gcd(a, b), q);
  }

  lemma DivideExactly(g: nat, s: nat)
    requires g > 0
    ensures g * s / g == s
  {
    var q, m := g * s / g, g * s % g;
    assert g * s == g * q + m;
    assert g * (s - q) == m;
    SmallMultiple(g, s - q);
  }

  lemma SmallMultiple(g: nat, k: int)
    requires 0 <= g * k < g
    ensures k == 0
  {
    ProductGrows(g, k);
  }

  lemma {:induction false} CommonDivisorsDivideGcd(k: nat, a: nat, b: nat, p: nat, q: nat) returns (m: nat)
    requires CommonDivisor(k, a, b, p, q) && k > 0
    ensures Gcd(a, b) == k * m
    decreases b
  {
    if b == 0 {
      m := p;
    } else {
      assert a % b == a - a / b * b;
      var d := a / b;
      assert a % b == k * p - d * (k * q);
      assert k * p - d * (k * q) == k * (p - d * q);
      assert k * (p - d * q) >= 0;
      assert p - d * q >= 0;
      m := CommonDivisorsDivideGcd(k, b, a % b, q, p - d * q);
    }
  }

  /** No number but 1 divides both. */
  ghost predicate Coprime(a: nat, b: nat) {
    forall k: nat, p: nat, q: nat :: CommonDivisor(k, a, b, p, q) ==> k == 1
  }

  lemma ReducedIsCoprime(g: nat, n: nat, d: nat)
    requires n > 0 && g > 0 && g == Gcd(g * n, g * d)
    ensures Coprime(n, d)
  {
    forall k: nat, p: nat, q: nat | CommonDivisor(k, n, d, p, q) ensures k == 1 {
      Regroup(g, k, p);
      Regroup(g, k, q);
      assert CommonDivisor(g * k, g * n, g * d, p, q);
      assert k > 0;
      ProductGrows(k, g);
      var m := CommonDivisorsDivideGcd(g * k, g * n, g * d, p, q);
      OnlyOne(g, k, m);
    }
  }

  lemma Regroup(g: nat, k: nat, p: nat)
    ensures g * (k * p) == (g * k) * p
  {
  }

  lemma OnlyOne(g: nat, k: nat, m: nat)
    requires g > 0 && g == (g * k) * m
    ensures k == 1
  {
    Regroup(g, k, m);
    assert g * (k * m - 1) == 0;
    SmallMultiple(g, k * m - 1);
    FactorOfOne(k, m);
  }

  lemma FactorOfOne(k: nat, m: nat)
    requires k * m == 1
    ensures k == 1
  {
    if k > 1 {
      SmallMultiple(k, m);
    }
  }

  /** The fraction that reaches the driver: in lowest terms, equal to the rounded rate, and within
      half a thousandth of the request; its denominator is 0 exactly for rates that round away. */
  lemma TimePerFrameIsTheRate(fps: real)
    requires 0.0 < fps && fps * 1000.0 <= 4294967295.0
    ensures TimePerFrame(fps).Success?
    ensures var (numerator, denominator) := TimePerFrame(fps).value; var rounded := (fps * 1000.0 + 0.5).Floor;
      && numerator > 0 && Coprime(numerator, denominator)
      && numerator * rounded == denominator * 1000
      && (denominator == 0 <==> fps < 0.0005)
      && -1.0 / 2000.0 <= denominator as real / numerator as real - fps <= 1.0 / 2000.0
  {
    var rounded := Round(fps * SCALE as real);
    var g := Gcd(SCALE, rounded);
    GcdDivides(SCALE, rounded);
    var numerator, denominator := SCALE / g, rounded / g;
    FactorShrinks(g, numerator);
    FactorShrinks(g, denominator);
    ReducedIsCoprime(g, numerator, denominator);
    assert TimePerFrame(fps) == Success((numerator, denominator));
    CrossProduct(g, numerator, denominator);
    assert numerator * rounded == denominator * SCALE;
    assert rounded == 0 <==> fps < 0.0005;
    RatioOf(numerator, rounded, denominator);
  }

  /** A rate is refused exactly when its thousandths do not fit 32 bits. */
  lemma TooLargeIff(fps: real)
    requires 0.0 < fps
    ensures TimePerFrame(fps).Failure? <==> fps * 1000.0 > 4294967295.0
    ensures TimePerFrame(fps).Failure? ==> TimePerFrame(fps).error == RateTooLarge
  {
  }

  lemma CrossProduct(g: nat, n: nat, d: nat)
    ensures n * (g * d) == d * (g * n)
  {
  }

  lemma RatioOf(numerator: nat, rounded: nat, denominator: nat)
    requires numerator > 0 && numerator * rounded == denominator * SCALE
    ensures denominator as real / numerator as real == rounded as real / 1000.0
  {
    var n, d, r := numerator as real, denominator as real, rounded as real;
    assert (numerator * rounded) as real == n * r;
    assert (denominator * SCALE) as real == d * 1000.0;
    assert d == r / 1000.0 * n;
    assert d / n == r / 1000.0;
  }
}
