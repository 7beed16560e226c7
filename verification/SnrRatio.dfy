/** The exact signal-to-noise ratio a synthetic case must declare. */
module SnrRatio {
  import opened Outcomes
  import Numbers
  import SyntheticIq

  datatype RatioError = ZeroDenominator

  /** The validator's fraction; a peak of 0 or -1 counts makes its denominator zero. */
  function ExpectedRatio(amplitude: int, peak: int): (r: Result<real, RatioError>)
  {
    if peak == 0 || peak == -1 then Err(ZeroDenominator)
    else Ok(DenominatorIsNonzero(peak); (3 * amplitude * amplitude) as real / (2 * peak * (peak + 1)) as real)
  }

  lemma DenominatorIsNonzero(peak: int)
    requires peak != 0 && peak != -1
    ensures 2 * peak * (peak + 1) != 0
  {
  }

  /** The squared noise of the raw values below `n`. */
  function SquaredNoise(peak: int, n: nat): (s: int)
  {
    if n == 0 then 0
    else
      var noise := SyntheticIq.Noise(n - 1, peak);
      SquaredNoise(peak, n - 1) + noise * noise
  }

  function Polynomial(p: int, n: int): (r: int)
  {
    n * (n - 1) * (2 * n - 1) - 6 * p * (n * (n - 1)) + 6 * n * (p * p)
  }

  lemma PolynomialStep(p: int, n: int)
    ensures Polynomial(p, n + 1) == Polynomial(p, n) + 6 * ((n - p) * (n - p))
  {
  }

  lemma {:induction false} SquaredNoiseIsPolynomial(peak: int, n: nat)
    requires peak >= 0 && n <= 2 * peak + 1
    ensures 6 * SquaredNoise(peak, n) == Polynomial(peak, n)
  {
    if n > 0 {
      SquaredNoiseIsPolynomial(peak, n - 1);
      PolynomialStep(peak, n - 1);
      SyntheticIq.SmallRemainder(n - 1, 2 * peak + 1);
    }
  }

  /** One raw value for each of the 2P+1 noise integers: their squares sum to P(P+1)(2P+1)/3. */
  lemma SumOfSquares(peak: int)
    requires peak >= 0
    ensures 3 * SquaredNoise(peak, 2 * peak + 1) == peak * (peak + 1) * (2 * peak + 1)
  {
    SquaredNoiseIsPolynomial(peak, 2 * peak + 1);
    PolynomialAtTheEnd(peak);
  }

  lemma PolynomialAtTheEnd(p: int)
    ensures Polynomial(p, 2 * p + 1) == 2 * (p * (p + 1) * (2 * p + 1))
  {
    var n, q := 2 * p + 1, p * p;
    Cubic(n, p, q);
    assert n * (n - 1) == n * (2 * p);
    Scaled(n, p, q);
    assert p * (p + 1) == q + p;
    assert n * (8 * q + 2 * p) - n * (12 * q) + n * (6 * q) == 2 * ((q + p) * n);
  }

  lemma Cubic(n: int, p: int, q: int)
    requires n == 2 * p + 1 && q == p * p
    ensures n * (n - 1) * (2 * n - 1) == n * (8 * q + 2 * p)
  {
    assert (n - 1) * (2 * n - 1) == 8 * q + 2 * p;
    assert n * (n - 1) * (2 * n - 1) == n * ((n - 1) * (2 * n - 1));
  }

  lemma Scaled(n: int, p: int, q: int)
    requires q == p * p
    ensures 6 * p * (n * (2 * p)) == n * (12 * q) && 6 * n * (p * p) == n * (6 * q)
  {
    assert 6 * p * (n * (2 * p)) == n * (12 * (p * p));
  }

  /** The mean two-component power of noise uniform on the integers the generator draws. */
  function MeanNoisePower(peak: int): (r: real)
    requires peak >= 0
  {
    2.0 * SquaredNoise(peak, 2 * peak + 1) as real / (2 * peak + 1) as real
  }

  /** The power of a source sample, which does not depend on the sample. */
  function SignalPower(c: SyntheticIq.Case, sourceIndex: nat, receiver: SyntheticIq.Receiver): (r: int)
  {
    var (i, q) := SyntheticIq.Signal(c, sourceIndex, receiver);
    i * i + q * q
  }

  /** The required ratio is the power of every signal sample over the mean noise power. */
  lemma RatioIsSignalOverNoise(c: SyntheticIq.Case, sourceIndex: nat, receiver: SyntheticIq.Receiver)
    requires c.noisePeak > 0
    ensures MeanNoisePower(c.noisePeak) > 0.0
    ensures ExpectedRatio(c.amplitude, c.noisePeak)
            == Ok(SignalPower(c, sourceIndex, receiver) as real / MeanNoisePower(c.noisePeak))
  {
    var a, p := c.amplitude, c.noisePeak;
    SyntheticIq.SignalPowerIsConstant(c, sourceIndex, receiver);
    SumOfSquares(p);
    NoisePower(p);
    QuotientByThird(a * a, p * (p + 1));
    DenominatorIsNonzero(p);
    Regrouped(a, p);
  }

  lemma Regrouped(a: int, p: int)
    ensures 3 * a * a == 3 * (a * a) && 2 * p * (p + 1) == 2 * (p * (p + 1))
  {
  }

  lemma NoisePower(p: int)
    requires p > 0
    ensures p * (p + 1) > 0 && MeanNoisePower(p) == 2.0 * (p * (p + 1)) as real / 3.0
  {
    SumOfSquares(p);
    var s, n := SquaredNoise(p, 2 * p + 1), 2 * p + 1;
    AverageOfThird(s, p * (p + 1), n);
  }

  lemma AverageOfThird(s: int, m: int, n: int)
    requires n > 0 && 3 * s == m * n
    ensures 2.0 * s as real / n as real == 2.0 * m as real / 3.0
  {
    Numbers.ProductAsReal(m, n);
    assert 3.0 * s as real == m as real * n as real;
    assert s as real == m as real / 3.0 * n as real;
  }

  lemma QuotientByThird(power: int, m: int)
    requires m > 0
    ensures power as real / (2.0 * m as real / 3.0) == (3 * power) as real / (2 * m) as real
  {
  }
}
