/** Little-endian 16-bit words, the component format of every CI16 stream. */
module Ci16 {
  import opened Documents

  predicate Fits(x: int)
  {
    -32768 <= x <= 32767
  }

  function Pack(x: int): (b: seq<byte>)
    requires Fits(x)
    ensures |b| == 2
  {
    [x % 256, x / 256 % 256]
  }

  function Unpack(low: byte, high: byte): (x: int)
    ensures Fits(x)
  {
    var word := low + 256 * high;
    if word < 32768 then word else word - 65536
  }

  function Clip(low: int, high: int, x: int): (r: int)
    requires low <= high
    ensures low <= r <= high
    ensures low <= x <= high ==> r == x
  {
    var raised := if x < low then low else x;
    if raised < high then raised else high
  }

  lemma PackedWordsReadBack(x: int)
    requires Fits(x)
    ensures Unpack(Pack(x)[0], Pack(x)[1]) == x
  {
  }

  lemma EveryPairOfBytesIsAWord(low: byte, high: byte)
    ensures Pack(Unpack(low, high)) == [low, high]
  {
  }

  /** Words written one after another. */
  function PackAll(words: seq<int>): (b: seq<byte>)
    requires forall i :: 0 <= i < |words| ==> Fits(words[i])
    ensures |b| == 2 * |words|
  {
    if words == [] then [] else PackAll(words[..|words| - 1]) + Pack(words[|words| - 1])
  }

  function UnpackAll(b: seq<byte>): (words: seq<int>)
    requires |b| % 2 == 0
    ensures |words| == |b| / 2 && forall i :: 0 <= i < |words| ==> Fits(words[i])
  {
    seq(|b| / 2, i requires 0 <= i < |b| / 2 => Unpack(b[2 * i], b[2 * i + 1]))
  }

  lemma {:induction false} StreamsReadBack(words: seq<int>)
    requires forall i :: 0 <= i < |words| ==> Fits(words[i])
    ensures UnpackAll(PackAll(words)) == words
  {
    if words != [] {
      var n := |words| - 1;
      StreamsReadBack(words[..n]);
      PackedWordsReadBack(words[n]);
      var b := PackAll(words);
      forall i | 0 <= i < |words| ensures Unpack(b[2 * i], b[2 * i + 1]) == words[i] {
        if i < n {
          assert UnpackAll(PackAll(words[..n]))[i] == words[..n][i];
        }
      }
    }
  }

  /** Each word is two bytes, the low one first, in two's complement. */
  lemma {:induction false} WordsAreLittleEndian(words: seq<int>, i: nat)
    requires i < |words| && forall j :: 0 <= j < |words| ==> Fits(words[j])
    ensures PackAll(words)[2 * i] as int + 256 * PackAll(words)[2 * i + 1] as int
         == words[i] + if words[i] < 0 then 65536 else 0
  {
    var n := |words| - 1;
    if i < n {
      WordsAreLittleEndian(words[..n], i);
    }
  }

  lemma {:induction false} EveryEvenStreamIsWords(b: seq<byte>)
    requires |b| % 2 == 0
    ensures PackAll(UnpackAll(b)) == b
  {
    if b != [] {
      var n := |b| - 2;
      EveryEvenStreamIsWords(b[..n]);
      EveryPairOfBytesIsAWord(b[n], b[n + 1]);
      var words := UnpackAll(b);
      assert words[..|words| - 1] == UnpackAll(b[..n]);
      assert b == b[..n] + [b[n], b[n + 1]];
    }
  }
}

/** The integer-exact synthetic generator: paired CI16 samples from a seed and a quadratic phase. */
module SyntheticIq {
  import opened Outcomes
  import opened Documents
  import Ci16

  const Q20: int := 0x10_0000

  datatype Receiver = Receiver(delay: int, phaseOffset: int, gain: int, dcI: int, dcQ: int)

  datatype Case = Case(
    seed: bv64, sampleCount: nat, noisePeak: int, clipMin: int, clipMax: int,
    phaseStart: int, phaseStep: int, phaseDelta: int, amplitude: int, receivers: seq<Receiver>)

  datatype Truth = Truth(byteCount: int, clipped: int, clippedByReceiver: seq<int>, finalState: bv64)

  datatype GenerateError = ZeroSeed

  /** What the fixture validator guarantees. */
  predicate Validated(c: Case)
  {
    && c.sampleCount > 0 && |c.receivers| == 2
    && -32768 <= c.clipMin < c.clipMax <= 32767
  }

  // ----- the pseudorandom generator

  function Right12(x: bv64): (r: bv64)
    ensures r == 0 ==> x == 0
  {
    x ^ (x >> 12)
  }

  function Left25(x: bv64): (r: bv64)
    ensures r == 0 ==> x == 0
  {
    x ^ (x << 25)
  }

  function Right27(x: bv64): (r: bv64)
    ensures r == 0 ==> x == 0
  {
    x ^ (x >> 27)
  }

  function Xorshift(state: bv64): (r: bv64)
    ensures r == 0 ==> state == 0
  {
    Right27(Left25(Right12(state)))
  }

  function Iterate(seed: bv64, n: nat): (state: bv64)
  {
    if n == 0 then seed else Xorshift(Iterate(seed, n - 1))
  }

  lemma {:induction false} StatesStayNonzero(seed: bv64, n: nat)
    requires seed != 0
    ensures Iterate(seed, n) != 0
  {
    if n > 0 {
      StatesStayNonzero(seed, n - 1);
    }
  }

  /** The starred output of a state. */
  function Star(state: bv64): (r: bv64)
  {
    state * 2685821657736338717
  }

  /** The raw output of draw number `k`, from zero. */
  function Draw(seed: bv64, k: nat): (raw: int)
    ensures 0 <= raw < 0x1_0000_0000_0000_0000
  {
    Star(Iterate(seed, k + 1)) as int
  }

  // ----- the generator run backwards

  function Undo27(r: bv64): (x: bv64)
  {
    r ^ (r >> 27) ^ (r >> 54)
  }

  function Undo25(r: bv64): (x: bv64)
  {
    r ^ (r << 25) ^ (r << 50)
  }

  function Undo12(r: bv64): (x: bv64)
  {
    r ^ (r >> 12) ^ (r >> 24) ^ (r >> 36) ^ (r >> 48) ^ (r >> 60)
  }

  function Unstar(r: bv64): (state: bv64)
  {
    r * 6415128727920758069
  }

  lemma ShiftsSpelledOut(x: bv64)
    ensures Right27(x) == x ^ (x >> 27)
    ensures Left25(x) == x ^ (x << 25)
    ensures Right12(x) == x ^ (x >> 12)
  {
  }

  lemma Spelled27IsUndone(x: bv64)
    ensures Undo27(x ^ (x >> 27)) == x
  {
    assert (x ^ (x >> 27)) ^ ((x ^ (x >> 27)) >> 27) ^ ((x ^ (x >> 27)) >> 54) == x;
  }

  lemma Spelled25IsUndone(x: bv64)
    ensures Undo25(x ^ (x << 25)) == x
  {
    assert (x ^ (x << 25)) ^ ((x ^ (x << 25)) << 25) ^ ((x ^ (x << 25)) << 50) == x;
  }

  lemma Spelled12IsUndone(x: bv64)
    ensures Undo12(x ^ (x >> 12)) == x
  {
    assert (x ^ (x >> 12)) ^ ((x ^ (x >> 12)) >> 12) ^ ((x ^ (x >> 12)) >> 24) ^ ((x ^ (x >> 12)) >> 36)
           ^ ((x ^ (x >> 12)) >> 48) ^ ((x ^ (x >> 12)) >> 60) == x;
  }

  /** Undoing the three shifts of a step, last first, gives back the state before it. */
  lemma StepsCanBeUndone(state: bv64)
    ensures Undo12(Undo25(Undo27(Xorshift(state)))) == state
  {
    hide Right12, Left25, Right27, Undo12, Undo25, Undo27;
    var a, b := Right12(state), Left25(Right12(state));
    ShiftsSpelledOut(state);
    ShiftsSpelledOut(a);
    ShiftsSpelledOut(b);
    Spelled27IsUndone(b);
    Spelled25IsUndone(a);
    Spelled12IsUndone(state);
  }

  lemma StarSpelledOut(state: bv64)
    ensures Star(state) == state * 2685821657736338717
  {
  }

  lemma SpelledStarIsUndone(state: bv64)
    ensures Unstar(state * 2685821657736338717) == state
  {
    assert (state * 2685821657736338717) * 6415128727920758069 == state;
  }

  /** Multiplying by the modular inverse of the generator's constant gives back the state from its output. */
  lemma OutputsCanBeUndone(state: bv64)
    ensures Unstar(Star(state)) == state
  {
    hide Star, Unstar;
    StarSpelledOut(state);
    SpelledStarIsUndone(state);
  }

  /** Each draw is the starred state after its step, and each state undoes to the one before, back to the seed. */
  lemma DrawsFollowTheSeed(seed: bv64, k: nat)
    ensures Iterate(seed, 0) == seed && Undo12(Undo25(Undo27(Iterate(seed, k + 1)))) == Iterate(seed, k)
    ensures Unstar(Draw(seed, k) as bv64) == Iterate(seed, k + 1)
  {
    hide Xorshift, Star, Unstar, Undo12, Undo25, Undo27;
    StepsCanBeUndone(Iterate(seed, k));
    OutputsCanBeUndone(Iterate(seed, k + 1));
    RawIsStarred(seed, k);
  }

  lemma RawIsStarred(seed: bv64, k: nat)
    ensures Draw(seed, k) as bv64 == Star(Iterate(seed, k + 1))
  {
    hide Star, Iterate;
    ThereAndBack(Star(Iterate(seed, k + 1)));
  }

  lemma ThereAndBack(x: bv64)
    ensures x as int as bv64 == x
  {
  }

  method NextDraw(state: bv64, ghost seed: bv64, ghost k: nat) returns (next: bv64, raw: int)
    requires state == Iterate(seed, k)
    ensures next == Iterate(seed, k + 1) && raw == Draw(seed, k)
  {
    next := Xorshift(state);
    raw := Star(next) as int;
  }

  /** Python's `%`, whose result takes the sign of the divisor. */
  function FloorMod(a: int, m: int): (r: int)
    requires m != 0
    ensures m > 0 ==> 0 <= r < m
    ensures m < 0 ==> m < r <= 0
  {
    if m > 0 then a % m else -(-a % -m)
  }

  /** Floored division: with the sign of the divisor, the remainder is determined. */
  lemma FloorModIsFloored(a: int, m: int) returns (q: int)
    requires m != 0
    ensures a == m * q + FloorMod(a, m)
  {
    if m > 0 {
      q := a / m;
    } else {
      q := -a / -m;
      assert -a == -m * q + -a % -m;
    }
  }

  function Noise(raw: int, peak: int): (r: int)
    ensures peak >= 0 ==> -peak <= r <= peak
  {
    FloorMod(raw, 2 * peak + 1) - peak
  }

  /** Every integer of the noise range is drawn for some raw value. */
  lemma EveryNoiseValueIsDrawn(peak: int, k: int) returns (raw: int)
    requires 0 <= peak && -peak <= k <= peak && 2 * peak + 1 <= 0x1_0000_0000_0000_0000
    ensures 0 <= raw < 0x1_0000_0000_0000_0000 && Noise(raw, peak) == k
  {
    raw := k + peak;
    SmallRemainder(raw, 2 * peak + 1);
  }

  lemma SmallRemainder(a: int, m: int)
    requires 0 <= a < m
    ensures a % m == a
  {
  }

  // ----- rounding

  /** Divide by 2^20, nearest, ties away from zero. */
  function RoundQ20(value: int, gain: int): (r: int)
  {
    var numerator := value * gain;
    if numerator >= 0 then (numerator + Q20 / 2) / Q20 else -((-numerator + Q20 / 2) / Q20)
  }

  lemma RoundingIsNearestTiesAway(value: int, gain: int)
    ensures var x, r := value * gain, RoundQ20(value, gain);
            && -Q20 <= 2 * (Q20 * r - x) <= Q20
            && (2 * (Q20 * r - x) == Q20 ==> x >= 0)
            && (2 * (Q20 * r - x) == -Q20 ==> x < 0)
            && RoundQ20(-value, gain) == -r
  {
    assert -value * gain == -(value * gain);
  }

  // ----- the oscillator

  function Mod64(x: int): (r: int)
    ensures 0 <= r < 0x1_0000_0000_0000_0000
  {
    x % 0x1_0000_0000_0000_0000
  }

  /** The closed form of the phase at source sample `n`. */
  function Phase(start: int, step: int, delta: int, n: nat): (r: int)
    ensures 0 <= r < 0x1_0000_0000_0000_0000
  {
    Mod64(start + n * step + n * (n - 1) / 2 * delta)
  }

  /** A phase and a frequency accumulator, stepped `n` times modulo 2^64. */
  function Accumulate(start: int, step: int, delta: int, n: nat): (r: (int, int))
  {
    if n == 0 then (Mod64(start), Mod64(step))
    else
      var (phase, frequency) := Accumulate(start, step, delta, n - 1);
      (Mod64(phase + frequency), Mod64(frequency + delta))
  }

  lemma Mod64Absorbs(a: int, b: int)
    ensures Mod64(Mod64(a) + b) == Mod64(a + b)
    ensures Mod64(a + Mod64(b)) == Mod64(a + b)
  {
  }

  lemma TriangleStep(n: nat)
    ensures (n + 1) * n / 2 == n * (n - 1) / 2 + n
  {
    assert (n + 1) * n == n * (n - 1) + 2 * n;
  }

  lemma {:induction false} FrequencyIsLinear(start: int, step: int, delta: int, n: nat)
    ensures Accumulate(start, step, delta, n).1 == Mod64(step + n * delta)
  {
    if n > 0 {
      FrequencyIsLinear(start, step, delta, n - 1);
      Mod64Absorbs(step + (n - 1) * delta, delta);
      assert step + (n - 1) * delta + delta == step + n * delta;
    }
  }

  /** The closed form is the accumulator pair, stepped, for every n and all signed parameters. */
  lemma {:induction false} ClosedFormIsStepped(start: int, step: int, delta: int, n: nat)
    ensures Phase(start, step, delta, n) == Accumulate(start, step, delta, n).0
  {
    if n > 0 {
      var m := n - 1;
      ClosedFormIsStepped(start, step, delta, m);
      FrequencyIsLinear(start, step, delta, m);
      var a, b := start + m * step + m * (m - 1) / 2 * delta, step + m * delta;
      Mod64Absorbs(a, Mod64(b));
      Mod64Absorbs(a, b);
      TriangleStep(m);
      PhaseSum(start, step, delta, m);
    }
  }

  lemma PhaseSum(start: int, step: int, delta: int, m: nat)
    ensures (start + m * step + m * (m - 1) / 2 * delta) + (step + m * delta)
            == start + (m + 1) * step + (m * (m - 1) / 2 + m) * delta
  {
    var t := m * (m - 1) / 2;
    assert (t + m) * delta == t * delta + m * delta;
    assert (m + 1) * step == m * step + step;
  }

  /** The four QPSK directions, by the two top bits of the phase. */
  function Unit(phase: int): (r: (int, int))
    requires 0 <= phase < 0x1_0000_0000_0000_0000
    ensures r.0 * r.0 + r.1 * r.1 == 1
  {
    match phase / 0x4000_0000_0000_0000
    case 0 => (1, 0)
    case 1 => (0, 1)
    case 2 => (-1, 0)
    case _ => (0, -1)
  }

  /** The first quarter points along I, and every further quarter turns the direction by ninety degrees. */
  lemma QuarterTurnsRotate(phase: int)
    requires 0 <= phase < 0x1_0000_0000_0000_0000
    ensures phase < 0x4000_0000_0000_0000 ==> Unit(phase) == (1, 0)
    ensures var (i, q) := Unit(phase); Unit(Mod64(phase + 0x4000_0000_0000_0000)) == (-q, i)
  {
    var quarter := phase / 0x4000_0000_0000_0000;
    assert 0 <= quarter < 4;
    var next := Mod64(phase + 0x4000_0000_0000_0000);
    assert next / 0x4000_0000_0000_0000 == if quarter == 3 then 0 else quarter + 1;
  }

  function Signal(c: Case, sourceIndex: int, receiver: Receiver): (r: (int, int))
  {
    if sourceIndex < 0 then (0, 0)
    else
      var unit := Unit(Mod64(c.phaseStart + sourceIndex * c.phaseStep
                             + sourceIndex * (sourceIndex - 1) / 2 * c.phaseDelta + receiver.phaseOffset));
      (c.amplitude * unit.0, c.amplitude * unit.1)
  }

  /**
   * A delayed receiver replays, from its delay on, the source that stepping the accumulators
   * produces, and is silent before.
   */
  lemma DelayIsShift(c: Case, receiver: Receiver, sample: nat)
    ensures Signal(c, sample - receiver.delay, receiver)
            == if sample < receiver.delay then (0, 0)
               else
                 var phase := Accumulate(c.phaseStart, c.phaseStep, c.phaseDelta, sample - receiver.delay).0;
                 var unit := Unit(Mod64(phase + receiver.phaseOffset));
                 (c.amplitude * unit.0, c.amplitude * unit.1)
  {
    if sample >= receiver.delay {
      var n := sample - receiver.delay;
      ClosedFormIsStepped(c.phaseStart, c.phaseStep, c.phaseDelta, n);
      Mod64Absorbs(c.phaseStart + n * c.phaseStep + n * (n - 1) / 2 * c.phaseDelta, receiver.phaseOffset);
    }
  }

  /** The signal of a sample that has begun carries exactly the squared amplitude. */
  lemma SignalPowerIsConstant(c: Case, sourceIndex: nat, receiver: Receiver)
    ensures var (i, q) := Signal(c, sourceIndex, receiver); i * i + q * q == c.amplitude * c.amplitude
  {
  }

  // ----- the stream

  /** Signal and the noise of one draw, scaled and rounded, with the offset added. */
  function Component(c: Case, receiver: Receiver, signal: int, raw: int, dc: int): (x: int)
  {
    RoundQ20(signal + Noise(raw, c.noisePeak), receiver.gain) + dc
  }

  /** Word `w` is component `w % 2` of receiver `w / 2 % 2` of sample `w / 4`, and uses draw number `w`. */
  function Unclipped(c: Case, w: nat): (x: int)
    requires |c.receivers| == 2
  {
    var receiver := c.receivers[w / 2 % 2];
    var signal := Signal(c, w / 4 - receiver.delay, receiver);
    if w % 2 == 0 then Component(c, receiver, signal.0, Draw(c.seed, w), receiver.dcI)
    else Component(c, receiver, signal.1, Draw(c.seed, w), receiver.dcQ)
  }

  function Word(c: Case, w: nat): (x: int)
    requires Validated(c)
    ensures Ci16.Fits(x)
  {
    Ci16.Clip(c.clipMin, c.clipMax, Unclipped(c, w))
  }

  function Words(c: Case, n: nat): (r: seq<int>)
    requires Validated(c)
    ensures |r| == n && forall w :: 0 <= w < n ==> r[w] == Word(c, w)
  {
    seq(n, w requires 0 <= w < n => Word(c, w))
  }

  /** Of the first `n` words, those of one receiver that left the envelope. */
  function Clips(c: Case, receiver: nat, n: nat): (r: nat)
    requires |c.receivers| == 2
  {
    if n == 0 then 0
    else
      Clips(c, receiver, n - 1)
      + if (n - 1) / 2 % 2 == receiver && !(c.clipMin <= Unclipped(c, n - 1) <= c.clipMax) then 1 else 0
  }

  // ----- what a word is, apart from the functions that compute it

  /** A source direction by the quarter its phase lies in, scaled to the amplitude. */
  ghost predicate PointsAt(phase: int, amplitude: int, i: int, q: int)
  {
    var quarter := 0x4000_0000_0000_0000;
    && (phase < quarter ==> i == amplitude && q == 0)
    && (quarter <= phase < 2 * quarter ==> i == 0 && q == amplitude)
    && (2 * quarter <= phase < 3 * quarter ==> i == -amplitude && q == 0)
    && (3 * quarter <= phase ==> i == 0 && q == -amplitude)
  }

  /** The signal is nothing before the delay, and then follows the stepped accumulators. */
  lemma SignalFollowsAccumulators(c: Case, receiver: Receiver, sample: nat)
    ensures var (i, q) := Signal(c, sample - receiver.delay, receiver);
            if sample < receiver.delay then i == q == 0
            else
              var phase := Accumulate(c.phaseStart, c.phaseStep, c.phaseDelta, sample - receiver.delay).0;
              PointsAt((phase + receiver.phaseOffset) % 0x1_0000_0000_0000_0000, c.amplitude, i, q)
  {
    DelayIsShift(c, receiver, sample);
    if sample >= receiver.delay {
      var phase := Accumulate(c.phaseStart, c.phaseStep, c.phaseDelta, sample - receiver.delay).0;
      ScaledDirections(Mod64(phase + receiver.phaseOffset), c.amplitude);
    }
  }

  lemma ScaledDirections(phase: int, amplitude: int)
    requires 0 <= phase < 0x1_0000_0000_0000_0000
    ensures PointsAt(phase, amplitude, amplitude * Unit(phase).0, amplitude * Unit(phase).1)
  {
  }

  /** A noise value is what is left of the raw draw, moved down by the peak. */
  lemma NoiseIsResidue(raw: int, peak: int) returns (turns: int)
    requires peak >= 0
    ensures raw == turns * (2 * peak + 1) + (Noise(raw, peak) + peak) && 0 <= Noise(raw, peak) + peak < 2 * peak + 1
  {
    turns := FloorModIsFloored(raw, 2 * peak + 1);
    assert turns * (2 * peak + 1) == (2 * peak + 1) * turns;
  }

  /** `x` is the nearest integer to gain / 2^20 times `value`, ties away from zero. */
  ghost predicate IsScaled(x: int, gain: int, value: int)
  {
    && -1_048_576 <= 2 * (1_048_576 * x - gain * value) <= 1_048_576
    && (2 * (1_048_576 * x - gain * value) == 1_048_576 ==> gain * value >= 0)
    && (2 * (1_048_576 * x - gain * value) == -1_048_576 ==> gain * value < 0)
  }

  /**
   * Component `k` of receiver `rx` at a sample is word 4 * sample + 2 * rx + k. Before clipping and apart
   * from the offset it is the scaled sum of signal and noise; the noise comes from the draw of that number.
   */
  lemma WordIsScaledSum(c: Case, sample: nat, rx: nat, k: nat)
    requires |c.receivers| == 2 && rx < 2 && k < 2
    ensures var w, receiver := 4 * sample + 2 * rx + k, c.receivers[rx];
            var (i, q) := Signal(c, sample - receiver.delay, receiver);
            var noise := Noise(Draw(c.seed, w), c.noisePeak);
            && (k == 0 ==> IsScaled(Unclipped(c, w) - receiver.dcI, receiver.gain, i + noise))
            && (k == 1 ==> IsScaled(Unclipped(c, w) - receiver.dcQ, receiver.gain, q + noise))
  {
    hide Draw, Noise, Signal, RoundQ20, IsScaled;
    var w, receiver := 4 * sample + 2 * rx + k, c.receivers[rx];
    WordIndex(sample, rx);
    var (i, q) := Signal(c, sample - receiver.delay, receiver);
    var noise := Noise(Draw(c.seed, w), c.noisePeak);
    RoundingIsScaled(i + noise, receiver.gain);
    RoundingIsScaled(q + noise, receiver.gain);
  }

  lemma RoundingIsScaled(value: int, gain: int)
    ensures IsScaled(RoundQ20(value, gain), gain, value)
  {
    hide RoundQ20;
    RoundingIsNearestTiesAway(value, gain);
    assert value * gain == gain * value;
  }

  /** A word is the value itself inside the envelope, and the nearer limit outside. */
  lemma WordsAreClipped(c: Case, w: nat, n: nat)
    requires Validated(c) && w < n
    ensures var x := Unclipped(c, w);
            && (x < c.clipMin ==> Words(c, n)[w] == c.clipMin)
            && (c.clipMin <= x <= c.clipMax ==> Words(c, n)[w] == x)
            && (x > c.clipMax ==> Words(c, n)[w] == c.clipMax)
  {
    hide Unclipped;
  }

  /** Words of a receiver outside the envelope. */
  function ClippedWords(c: Case, rx: nat, n: nat): (ws: set<nat>)
    requires |c.receivers| == 2
  {
    set w: nat | w < n && w / 2 % 2 == rx && (Unclipped(c, w) < c.clipMin || Unclipped(c, w) > c.clipMax)
  }

  lemma {:induction false} ClipsAreCounted(c: Case, rx: nat, n: nat)
    requires |c.receivers| == 2
    ensures Clips(c, rx, n) == |ClippedWords(c, rx, n)|
  {
    hide Unclipped;
    if n > 0 {
      ClipsAreCounted(c, rx, n - 1);
      var before, now := ClippedWords(c, rx, n - 1), ClippedWords(c, rx, n);
      assert n - 1 !in before;
      assert now == if n - 1 in now then before + {n - 1} else before;
    }
  }

  /** The two words of one receiver at one sample. */
  method GenerateComponents(c: Case, sample: nat, rx: nat, output0: seq<byte>, state0: bv64, clipped0: seq<int>)
    returns (output: seq<byte>, state: bv64, clipped: seq<int>)
    requires Validated(c) && rx < 2 && Generated(c, 4 * sample + 2 * rx, output0, state0, clipped0)
    ensures Generated(c, 4 * sample + 2 * (rx + 1), output, state, clipped)
  {
    hide Iterate, Draw, Unclipped, Signal, Clips;
    var receiver := c.receivers[rx];
    var signal := Signal(c, sample - receiver.delay, receiver);
    var rawI, rawQ;
    state, rawI := NextDraw(state0, c.seed, 4 * sample + 2 * rx);
    var valueI := Component(c, receiver, signal.0, rawI, receiver.dcI);
    state, rawQ := NextDraw(state, c.seed, 4 * sample + 2 * rx + 1);
    var valueQ := Component(c, receiver, signal.1, rawQ, receiver.dcQ);
    var boundedI := Ci16.Clip(c.clipMin, c.clipMax, valueI);
    var boundedQ := Ci16.Clip(c.clipMin, c.clipMax, valueQ);
    clipped := clipped0;
    if boundedI != valueI {
      clipped := clipped[rx := clipped[rx] + 1];
    }
    if boundedQ != valueQ {
      clipped := clipped[rx := clipped[rx] + 1];
    }
    output := output0 + (Ci16.Pack(boundedI) + Ci16.Pack(boundedQ));
    OneMoreSample(c, sample, rx, output0, state0, state, clipped0, valueI, valueQ);
  }

  /** Eight bytes a sample; every word, every clip count and the final state are as specified. */
  method GenerateCase(c: Case) returns (r: Result<(seq<byte>, Truth), GenerateError>)
    requires Validated(c)
    ensures r.Err? <==> c.seed == 0
    ensures r.Ok? ==>
      && |r.value.0| == 8 * c.sampleCount == r.value.1.byteCount
      && Ci16.UnpackAll(r.value.0) == Words(c, 4 * c.sampleCount)
      && r.value.1.clippedByReceiver == [Clips(c, 0, 4 * c.sampleCount), Clips(c, 1, 4 * c.sampleCount)]
      && r.value.1.clipped == Clips(c, 0, 4 * c.sampleCount) + Clips(c, 1, 4 * c.sampleCount)
      && r.value.1.finalState == Iterate(c.seed, 4 * c.sampleCount) != 0
  {
    hide Iterate, Draw, Unclipped, Clips, Generated;
    var state := c.seed;
    if state == 0 {
      return Err(ZeroSeed);
    }
    StartIsGenerated(c);
    var output := [];
    var clipped := [0, 0];
    for sample := 0 to c.sampleCount
      invariant Generated(c, 4 * sample, output, state, clipped)
    {
      for rx := 0 to 2
        invariant Generated(c, 4 * sample + 2 * rx, output, state, clipped)
      {
        output, state, clipped := GenerateComponents(c, sample, rx, output, state, clipped);
      }
    }
    GeneratedStream(c, 4 * c.sampleCount, output, state, clipped);
    r := Ok((output, Truth(|output|, clipped[0] + clipped[1], clipped, state)));
  }

  /** The generator's state after `w` words. */
  ghost predicate Generated(c: Case, w: nat, output: seq<byte>, state: bv64, clipped: seq<int>)
    requires Validated(c)
  {
    && output == Ci16.PackAll(Words(c, w))
    && state == Iterate(c.seed, w)
    && clipped == [Clips(c, 0, w), Clips(c, 1, w)]
  }

  lemma GeneratedStream(c: Case, w: nat, output: seq<byte>, state: bv64, clipped: seq<int>)
    requires Validated(c) && c.seed != 0 && Generated(c, w, output, state, clipped)
    ensures |output| == 2 * w && Ci16.UnpackAll(output) == Words(c, w)
    ensures clipped == [Clips(c, 0, w), Clips(c, 1, w)] && state == Iterate(c.seed, w) != 0
  {
    hide Iterate, Clips, Words, Ci16.UnpackAll, Ci16.PackAll;
    StatesStayNonzero(c.seed, w);
    Ci16.StreamsReadBack(Words(c, w));
  }

  lemma StartIsGenerated(c: Case)
    requires Validated(c)
    ensures Generated(c, 0, [], c.seed, [0, 0])
  {
  }

  lemma OneMoreWord(c: Case, w: nat)
    requires Validated(c)
    ensures Ci16.PackAll(Words(c, w + 1)) == Ci16.PackAll(Words(c, w)) + Ci16.Pack(Word(c, w))
  {
    assert Words(c, w + 1)[..w] == Words(c, w);
  }

  function Outside(c: Case, x: int): (n: int)
  {
    if c.clipMin <= x <= c.clipMax then 0 else 1
  }

  lemma UnclippedPair(c: Case, sample: nat, rx: nat)
    requires Validated(c) && rx < 2
    ensures var w := 4 * sample + 2 * rx;
            var receiver := c.receivers[rx];
            var signal := Signal(c, sample - receiver.delay, receiver);
            && Unclipped(c, w) == Component(c, receiver, signal.0, Draw(c.seed, w), receiver.dcI)
            && Unclipped(c, w + 1) == Component(c, receiver, signal.1, Draw(c.seed, w + 1), receiver.dcQ)
  {
    WordIndex(sample, rx);
  }

  lemma WordIndex(sample: nat, rx: nat)
    requires rx < 2
    ensures var w := 4 * sample + 2 * rx;
            && w / 4 == sample && w / 2 % 2 == rx && w % 2 == 0
            && (w + 1) / 4 == sample && (w + 1) / 2 % 2 == rx && (w + 1) % 2 == 1
  {
    var w := 4 * sample + 2 * rx;
    assert w / 2 == 2 * sample + rx && (w + 1) / 2 == 2 * sample + rx;
    assert w == 2 * (w / 2) && w + 1 == 2 * (w / 2) + 1;
  }

  lemma ClipsPair(c: Case, sample: nat, rx: nat)
    requires Validated(c) && rx < 2
    ensures var w := 4 * sample + 2 * rx;
            && Clips(c, rx, w + 2)
               == Clips(c, rx, w) + Outside(c, Unclipped(c, w)) + Outside(c, Unclipped(c, w + 1))
            && Clips(c, 1 - rx, w + 2) == Clips(c, 1 - rx, w)
  {
    hide Unclipped;
    var w := 4 * sample + 2 * rx;
    WordIndex(sample, rx);
    assert Clips(c, rx, w + 1) == Clips(c, rx, w) + Outside(c, Unclipped(c, w));
    assert Clips(c, 1 - rx, w + 1) == Clips(c, 1 - rx, w);
  }

  lemma OneMoreSample(
    c: Case, sample: nat, rx: nat, output: seq<byte>, state: bv64, next: bv64, clipped: seq<int>,
    valueI: int, valueQ: int)
    requires Validated(c) && rx < 2 && Generated(c, 4 * sample + 2 * rx, output, state, clipped)
    requires next == Iterate(c.seed, 4 * sample + 2 * rx + 2)
    requires var receiver := c.receivers[rx];
             var signal := Signal(c, sample - receiver.delay, receiver);
             var w := 4 * sample + 2 * rx;
             && valueI == Component(c, receiver, signal.0, Draw(c.seed, w), receiver.dcI)
             && valueQ == Component(c, receiver, signal.1, Draw(c.seed, w + 1), receiver.dcQ)
    ensures Generated(
              c, 4 * sample + 2 * rx + 2,
              output + (Ci16.Pack(Ci16.Clip(c.clipMin, c.clipMax, valueI))
                        + Ci16.Pack(Ci16.Clip(c.clipMin, c.clipMax, valueQ))),
              next, clipped[rx := clipped[rx] + Outside(c, valueI) + Outside(c, valueQ)])
  {
    hide Iterate, Draw, Unclipped, Component, Signal, Clips, Words, Ci16.PackAll, Ci16.Pack;
    var w := 4 * sample + 2 * rx;
    UnclippedPair(c, sample, rx);
    ClipsPair(c, sample, rx);
    OneMoreWord(c, w);
    OneMoreWord(c, w + 1);
  }
}
