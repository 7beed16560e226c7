/** Scan fixtures: paired CI16 interleaving, and signal injection over a recorded background. */
module ScanFixture {
  import opened Outcomes
  import opened Documents
  import Ci16
  import Numbers

  /** One complex sample of one receiver, as integer components. */
  type Sample = (int, int)

  datatype FixtureError =
    LengthMismatch | OutsideInt16 | NotPairedFrames | WouldClip | NothingToAverage | SignalBeyondBackground | SignalTooShort

  // ----- paired frames

  predicate Fits(s: Sample)
  {
    Ci16.Fits(s.0) && Ci16.Fits(s.1)
  }

  /** Frame by frame: the first receiver's components, then the second's. */
  function WordAt(first: seq<Sample>, second: seq<Sample>, i: nat): (x: int)
    requires |first| == |second| && i < 4 * |first|
  {
    var s := if i % 4 < 2 then first[i / 4] else second[i / 4];
    if i % 2 == 0 then s.0 else s.1
  }

  function Words(first: seq<Sample>, second: seq<Sample>): (w: seq<int>)
    requires |first| == |second|
    ensures |w| == 4 * |first|
  {
    seq(4 * |first|, i requires 0 <= i < 4 * |first| => WordAt(first, second, i))
  }

  lemma WordPositions(first: seq<Sample>, second: seq<Sample>, k: nat)
    requires |first| == |second| && k < |first|
    ensures var w := Words(first, second);
            (w[4 * k], w[4 * k + 1]) == first[k] && (w[4 * k + 2], w[4 * k + 3]) == second[k]
  {
    Quarter(k, 0);
    Quarter(k, 1);
    Quarter(k, 2);
    Quarter(k, 3);
  }

  lemma Quarter(k: nat, j: nat)
    requires j < 4
    ensures (4 * k + j) / 4 == k && (4 * k + j) % 4 == j && (4 * k + j) % 2 == j % 2
  {
    QuotientOf(4 * k + j, 4, k, j);
    QuotientOf(4 * k + j, 2, 2 * k + j / 2, j % 2);
  }

  lemma QuotientOf(n: nat, d: nat, q: nat, rest: nat)
    requires d in {2, 4} && rest < d && n == d * q + rest
    ensures n / d == q && n % d == rest
  {
    if d == 2 {
      assert n / 2 == q;
    } else {
      assert n / 4 == q;
    }
  }

  predicate AllFit(words: seq<int>)
  {
    forall i :: 0 <= i < |words| ==> Ci16.Fits(words[i])
  }

  function InterleavePair(first: seq<Sample>, second: seq<Sample>): (r: Result<seq<byte>, FixtureError>)
    ensures r.Ok? <==> |first| == |second| && forall k :: 0 <= k < |first| ==> Fits(first[k]) && Fits(second[k])
    ensures r.Err? ==> r.error == if |first| != |second| then LengthMismatch else OutsideInt16
  {
    if |first| != |second| then Err(LengthMismatch)
    else
      WordsFit(first, second);
      if !AllFit(Words(first, second)) then Err(OutsideInt16)
      else Ok(Ci16.PackAll(Words(first, second)))
  }

  lemma WordsFit(first: seq<Sample>, second: seq<Sample>)
    requires |first| == |second|
    ensures AllFit(Words(first, second)) <==> forall k :: 0 <= k < |first| ==> Fits(first[k]) && Fits(second[k])
  {
    var w := Words(first, second);
    if AllFit(w) {
      forall k | 0 <= k < |first| ensures Fits(first[k]) && Fits(second[k]) {
        WordPositions(first, second, k);
        FourFit(w, k);
      }
    }
    if forall k :: 0 <= k < |first| ==> Fits(first[k]) && Fits(second[k]) {
      forall i | 0 <= i < |w| ensures Ci16.Fits(w[i]) {
        assert Fits(first[i / 4]) && Fits(second[i / 4]);
      }
    }
  }

  lemma FourFit(w: seq<int>, k: nat)
    requires AllFit(w) && 4 * k + 3 < |w|
    ensures Ci16.Fits(w[4 * k]) && Ci16.Fits(w[4 * k + 1]) && Ci16.Fits(w[4 * k + 2]) && Ci16.Fits(w[4 * k + 3])
  {
  }

  function Receiver(words: seq<int>, offset: nat): (r: seq<Sample>)
    requires |words| % 4 == 0 && offset <= 2
    ensures |r| == |words| / 4
  {
    seq(|words| / 4, k requires 0 <= k < |words| / 4 => (words[4 * k + offset], words[4 * k + offset + 1]))
  }

  /** A payload of anything but whole frames is refused. */
  function UnpackPairedReceivers(payload: seq<byte>): (r: Result<(seq<Sample>, seq<Sample>), FixtureError>)
    ensures r.Ok? <==> |payload| % 8 == 0
    ensures r.Err? ==> r.error == NotPairedFrames
  {
    if |payload| % 8 != 0 then Err(NotPairedFrames)
    else
      var words := Ci16.UnpackAll(payload);
      Ok((Receiver(words, 0), Receiver(words, 2)))
  }

  /** Unpacking gives back the receivers that were interleaved. */
  lemma InterleavingReadsBack(first: seq<Sample>, second: seq<Sample>)
    requires InterleavePair(first, second).Ok?
    ensures UnpackPairedReceivers(InterleavePair(first, second).value) == Ok((first, second))
  {
    WordsFit(first, second);
    PackedWordsUnpack(Words(first, second));
    ReceiversOfWords(first, second);
  }

  /** A frame is the first receiver's two components and then the second's. */
  lemma FramesInOrder(first: seq<Sample>, second: seq<Sample>, k: nat)
    requires InterleavePair(first, second).Ok? && k < |first|
    ensures var payload := InterleavePair(first, second).value;
            && |payload| == 8 * |first|
            && Ci16.UnpackAll(payload)[4 * k..4 * k + 4] == [first[k].0, first[k].1, second[k].0, second[k].1]
  {
    hide Ci16.PackAll, Ci16.UnpackAll;
    WordsFit(first, second);
    Ci16.StreamsReadBack(Words(first, second));
    WordPositions(first, second, k);
  }

  lemma PackedWordsUnpack(words: seq<int>)
    requires AllFit(words) && |words| % 4 == 0
    ensures UnpackPairedReceivers(Ci16.PackAll(words)) == Ok((Receiver(words, 0), Receiver(words, 2)))
  {
    hide Receiver, Ci16.PackAll, Ci16.UnpackAll;
    Ci16.StreamsReadBack(words);
    TwiceFours(|words|);
  }

  lemma TwiceFours(n: nat)
    requires n % 4 == 0
    ensures 2 * n % 8 == 0
  {
    assert 2 * n == 8 * (n / 4);
  }

  lemma ReceiversOfWords(first: seq<Sample>, second: seq<Sample>)
    requires |first| == |second|
    ensures Receiver(Words(first, second), 0) == first && Receiver(Words(first, second), 2) == second
  {
    var words := Words(first, second);
    forall k | 0 <= k < |first|
      ensures Receiver(words, 0)[k] == first[k] && Receiver(words, 2)[k] == second[k]
    {
      WordPositions(first, second, k);
    }
  }

  /** Interleaving gives back the payload that was unpacked: neither side loses a byte. */
  lemma EveryPayloadReinterleaves(payload: seq<byte>)
    requires |payload| % 8 == 0
    ensures var (first, second) := UnpackPairedReceivers(payload).value;
            InterleavePair(first, second) == Ok(payload)
  {
    hide Words, Receiver, Ci16.PackAll, Ci16.UnpackAll;
    Ci16.EveryEvenStreamIsWords(payload);
    HalfFrames(|payload|);
    var words := Ci16.UnpackAll(payload);
    ReceiversReinterleave(words);
    WordsFit(Receiver(words, 0), Receiver(words, 2));
  }

  lemma HalfFrames(n: nat)
    requires n % 8 == 0
    ensures n % 2 == 0 && n / 2 % 4 == 0
  {
    var frames := n / 8;
    assert n == 2 * (4 * frames);
    assert n / 2 == 4 * frames;
  }

  lemma ReceiversReinterleave(words: seq<int>)
    requires |words| % 4 == 0
    ensures Words(Receiver(words, 0), Receiver(words, 2)) == words
  {
    forall i | 0 <= i < |words|
      ensures WordAt(Receiver(words, 0), Receiver(words, 2), i) == words[i]
    {
      ReinterleavedWord(words, i / 4, i % 4);
    }
  }

  lemma ReinterleavedWord(words: seq<int>, k: nat, j: nat)
    requires |words| % 4 == 0 && j < 4 && 4 * k + j < |words|
    ensures WordAt(Receiver(words, 0), Receiver(words, 2), 4 * k + j) == words[4 * k + j]
  {
    Quarter(k, j);
  }

  // ----- injection

  function RoundTiesAway(value: real): (r: int)
  {
    if value >= 0.0 then (value + 0.5).Floor else -((0.5 - value).Floor)
  }

  lemma RoundingIsNearest(value: real)
    ensures -0.5 <= RoundTiesAway(value) as real - value <= 0.5
    ensures RoundTiesAway(-value) == -RoundTiesAway(value)
    ensures RoundTiesAway(value) as real - value == 0.5 ==> value > 0.0
    ensures RoundTiesAway(value) as real - value == -0.5 ==> value < 0.0
  {
  }

  /** The converter's range; the fixture validator orders the limits inside int16. */
  datatype Converter = Converter(low: int, high: int)

  predicate Ordered(c: Converter)
  {
    -32768 <= c.low < c.high <= 32767
  }

  predicate Inside(c: Converter, x: int)
  {
    c.low <= x <= c.high
  }

  type Addition = (real, real)

  function Sum(base: Sample, addition: Addition): (r: Sample)
  {
    (RoundTiesAway(base.0 as real + addition.0), RoundTiesAway(base.1 as real + addition.1))
  }

  function SignalAt(signal: Option<seq<Addition>>, i: nat): (a: Addition)
    requires signal.Some? ==> i < |signal.value|
  {
    if signal.None? then (0.0, 0.0) else signal.value[i]
  }

  /** The components of the sums, before the converter. */
  function Sums(background: seq<Sample>, signal: Option<seq<Addition>>): (r: seq<Sample>)
    requires signal.Some? ==> |background| <= |signal.value|
    ensures |r| == |background|
    ensures forall i :: 0 <= i < |r| ==> r[i] == Sum(background[i], SignalAt(signal, i))
  {
    seq(|background|, i requires 0 <= i < |background| => Sum(background[i], SignalAt(signal, i)))
  }

  /** Components outside the converter's range. */
  function Outside(c: Converter, s: seq<Sample>): (n: nat)
  {
    if s == [] then 0
    else
      var x := s[|s| - 1];
      Outside(c, s[..|s| - 1]) + Numbers.Bit(!Inside(c, x.0)) + Numbers.Bit(!Inside(c, x.1))
  }

  /** Components pushed outside by the signal: outside now, inside in the background. */
  function PushedOutside(c: Converter, base: seq<Sample>, s: seq<Sample>): (n: nat)
    requires |base| == |s|
  {
    if s == [] then 0
    else
      var b, x := base[|s| - 1], s[|s| - 1];
      PushedOutside(c, base[..|s| - 1], s[..|s| - 1])
      + Numbers.Bit(!Inside(c, x.0) && Inside(c, b.0)) + Numbers.Bit(!Inside(c, x.1) && Inside(c, b.1))
  }

  lemma {:induction false} ClippingIsAccountedFor(c: Converter, base: seq<Sample>, s: seq<Sample>)
    requires |base| == |s|
    ensures PushedOutside(c, base, s) <= Outside(c, s) <= Outside(c, base) + PushedOutside(c, base, s)
    ensures base == s ==> PushedOutside(c, base, s) == 0
  {
    if s != [] {
      ClippingIsAccountedFor(c, base[..|s| - 1], s[..|s| - 1]);
    }
  }

  function Abs(x: int): (r: int)
    ensures -r <= x <= r && (r == x || r == -x)
  {
    if x < 0 then -x else x
  }

  datatype Truth = Truth(active: int, total: int, added: int, background: int, peak: int)

  function Convert(c: Converter, base: Sample, signal: Option<seq<Addition>>, value: Sample): (r: Sample)
    requires Ordered(c)
  {
    if signal.None? then base else (Ci16.Clip(c.low, c.high, value.0), Ci16.Clip(c.low, c.high, value.1))
  }

  function Converted(c: Converter, background: seq<Sample>, signal: Option<seq<Addition>>): (r: seq<Sample>)
    requires Ordered(c) && (signal.Some? ==> |background| <= |signal.value|)
    ensures |r| == |background|
    ensures forall i :: 0 <= i < |r| ==> r[i] == Convert(c, background[i], signal, Sums(background, signal)[i])
  {
    var sums := Sums(background, signal);
    seq(|background|, i requires 0 <= i < |background| => Convert(c, background[i], signal, sums[i]))
  }

  /** The greatest magnitude among the components, zero for none. */
  ghost predicate IsPeak(s: seq<Sample>, peak: int)
  {
    && 0 <= peak
    && (forall i :: 0 <= i < |s| ==> -peak <= s[i].0 <= peak && -peak <= s[i].1 <= peak)
    && (peak == 0 || exists i :: 0 <= i < |s| && HasMagnitude(s[i], peak))
  }

  predicate HasMagnitude(x: Sample, peak: int)
  {
    x.0 == peak || x.0 == -peak || x.1 == peak || x.1 == -peak
  }

  method CountOutside(c: Converter, s: seq<Sample>) returns (n: int)
    ensures n == Outside(c, s)
  {
    n := 0;
    for i := 0 to |s|
      invariant n == Outside(c, s[..i])
    {
      assert s[..i + 1][..i] == s[..i];
      n := n + Numbers.Bit(!Inside(c, s[i].0)) + Numbers.Bit(!Inside(c, s[i].1));
    }
    assert s[..|s|] == s;
  }

  // ----- the inputs that fail

  /** The positions of the nonzero samples of a signal. */
  function Active(signal: seq<Addition>): (r: seq<nat>)
    ensures forall i: nat :: i in r <==> i < |signal| && signal[i] != (0.0, 0.0)
  {
    if signal == [] then []
    else
      var n := |signal| - 1;
      Active(signal[..n]) + if signal[n] != (0.0, 0.0) then [n] else []
  }

  function ActiveOf(signal: Option<seq<Addition>>): (r: seq<nat>)
  {
    if signal.None? then [] else Active(signal.value)
  }

  /** The part of the background that the signal reaches. */
  function Reached(background: seq<Sample>, signal: Option<seq<Addition>>): (r: seq<Sample>)
    ensures r <= background && (signal.Some? ==> |r| <= |signal.value|)
  {
    if signal.Some? && |signal.value| < |background| then background[..|signal.value|] else background
  }

  /** Every nonzero sample of the signal has a background sample, and there is something to average. */
  predicate Averages(background: seq<Sample>, signal: Option<seq<Addition>>)
  {
    && (forall i :: i in ActiveOf(signal) ==> i < |background|)
    && (background != [] || ActiveOf(signal) != [])
  }

  /** The mean powers index the background by the signal's nonzero samples, or by all of its own. */
  method AverageFault(background: seq<Sample>, active: seq<nat>) returns (fault: Option<FixtureError>)
    ensures fault == Some(SignalBeyondBackground) <==> exists i :: i in active && i >= |background|
    ensures fault == Some(NothingToAverage) <==> background == [] && active == []
    ensures fault.Some? ==> fault.value == SignalBeyondBackground || fault.value == NothingToAverage
  {
    for i := 0 to |active|
      invariant forall j :: 0 <= j < i ==> active[j] < |background|
    {
      if active[i] >= |background| {
        assert active[i] in active;
        return Some(SignalBeyondBackground);
      }
    }
    if active == [] && background == [] {
      return Some(NothingToAverage);
    }
    fault := None;
  }

  /**
   * Signal over a recorded background. It fails when there is nothing to average, when a nonzero
   * signal sample lies past the background, when the reject policy meets a component outside the
   * range, when the signal ends early, and when the background does not fit its words; otherwise the
   * counts are as stated and bracket each other.
   */
  method RecordedBackgroundSamples(
    background: seq<Sample>, signal: Option<seq<Addition>>, c: Converter, reject: bool)
    returns (r: Result<(seq<Sample>, Truth), FixtureError>)
    requires Ordered(c)
    ensures r == Err(NothingToAverage) <==> background == [] && ActiveOf(signal) == []
    ensures r == Err(SignalBeyondBackground) <==> exists i :: i in ActiveOf(signal) && i >= |background|
    ensures r == Err(WouldClip) <==>
      && Averages(background, signal) && reject
      && Outside(c, Sums(Reached(background, signal), signal)) > 0
    ensures r == Err(SignalTooShort) <==>
      && Averages(background, signal) && signal.Some? && |signal.value| < |background|
      && !(reject && Outside(c, Sums(Reached(background, signal), signal)) > 0)
    ensures r.Ok? <==>
      && Averages(background, signal)
      && (signal.Some? ==> |background| <= |signal.value|)
      && (reject ==> Outside(c, Sums(background, signal)) == 0)
      && forall x :: x in background ==> Fits(x)
    ensures r.Ok? ==>
      && r.value.0 == Converted(c, background, signal)
      && r.value.1.active == |ActiveOf(signal)|
      && r.value.1.total == Outside(c, Sums(background, signal))
      && r.value.1.added == PushedOutside(c, background, Sums(background, signal))
      && r.value.1.background == Outside(c, background)
      && IsPeak(r.value.0, r.value.1.peak)
  {
    hide Sum, Convert, IsPeak, Outside, PushedOutside, Active, Fits;
    var active := ActiveOf(signal);
    var fault := AverageFault(background, active);
    if fault.Some? {
      return Err(fault.value);
    }
    var backgroundClipped := CountOutside(c, background);
    var mixed := Mix(background, signal, c, reject);
    if mixed.Err? {
      return Err(mixed.error);
    }
    if exists x :: x in background && !Fits(x) {
      return Err(OutsideInt16);
    }
    var (output, total, added, peak) := mixed.value;
    r := Ok((output, Truth(|active|, total, added, backgroundClipped, peak)));
  }

  /** The loop over the background: sum, count, bound. */
  method Mix(background: seq<Sample>, signal: Option<seq<Addition>>, c: Converter, reject: bool)
    returns (r: Result<(seq<Sample>, int, int, int), FixtureError>)
    requires Ordered(c)
    ensures r.Err? ==> r.error == WouldClip || r.error == SignalTooShort
    ensures r == Err(WouldClip) <==> reject && Outside(c, Sums(Reached(background, signal), signal)) > 0
    ensures r == Err(SignalTooShort) <==>
      && Reached(background, signal) != background
      && !(reject && Outside(c, Sums(Reached(background, signal), signal)) > 0)
    ensures r.Ok? ==>
      && Reached(background, signal) == background
      && r.value.0 == Converted(c, background, signal)
      && r.value.1 == Outside(c, Sums(background, signal))
      && r.value.2 == PushedOutside(c, background, Sums(background, signal))
      && IsPeak(r.value.0, r.value.3)
  {
    hide Sum, Convert, IsPeak, Outside, PushedOutside;
    NothingYet(c);
    var output, total, added, peak := [], 0, 0, 0;
    ghost var reached := Reached(background, signal);
    ghost var sums, converted := Sums(reached, signal), Converted(c, reached, signal);
    for i := 0 to |background|
      invariant i <= |reached|
      invariant output == converted[..i]
      invariant total == Outside(c, sums[..i]) && added == PushedOutside(c, reached[..i], sums[..i])
      invariant reject ==> total == 0
      invariant IsPeak(output, peak)
    {
      if signal.Some? && i >= |signal.value| {
        assert sums[..i] == sums;
        return Err(SignalTooShort);
      }
      var base := background[i];
      assert base == reached[i];
      var value := Sum(base, SignalAt(signal, i));
      CountsOneMore(c, reached, sums, i);
      total := total + Numbers.Bit(!Inside(c, value.0)) + Numbers.Bit(!Inside(c, value.1));
      added := added + Numbers.Bit(!Inside(c, value.0) && Inside(c, base.0))
               + Numbers.Bit(!Inside(c, value.1) && Inside(c, base.1));
      if total > 0 && reject {
        OutsideOnlyGrows(c, sums, i + 1);
        return Err(WouldClip);
      }
      var bounded := Convert(c, base, signal, value);
      output, peak := KeepPeak(output, peak, bounded);
    }
    assert sums[..|sums|] == sums && reached[..|reached|] == reached == background && output == converted;
    r := Ok((output, total, added, peak));
  }

  lemma NothingYet(c: Converter)
    ensures IsPeak([], 0) && Outside(c, []) == 0 && PushedOutside(c, [], []) == 0
  {
  }

  lemma CountsOneMore(c: Converter, base: seq<Sample>, s: seq<Sample>, i: nat)
    requires |base| == |s| && i < |s|
    ensures Outside(c, s[..i + 1]) == Outside(c, s[..i]) + Numbers.Bit(!Inside(c, s[i].0)) + Numbers.Bit(!Inside(c, s[i].1))
    ensures PushedOutside(c, base[..i + 1], s[..i + 1])
            == PushedOutside(c, base[..i], s[..i])
               + Numbers.Bit(!Inside(c, s[i].0) && Inside(c, base[i].0))
               + Numbers.Bit(!Inside(c, s[i].1) && Inside(c, base[i].1))
  {
    assert s[..i + 1][..i] == s[..i] && base[..i + 1][..i] == base[..i];
  }

  method KeepPeak(s: seq<Sample>, peak0: int, x: Sample) returns (output: seq<Sample>, peak: int)
    requires IsPeak(s, peak0)
    ensures output == s + [x] && IsPeak(output, peak)
  {
    output := s + [x];
    peak := Larger(peak0, Larger(Abs(x.0), Abs(x.1)));
    PeakGrows(s, peak0, x);
  }

  function Larger(a: int, b: int): (r: int)
  {
    if a >= b then a else b
  }

  lemma PeakGrows(s: seq<Sample>, peak: int, x: Sample)
    requires IsPeak(s, peak)
    ensures IsPeak(s + [x], Larger(peak, Larger(Abs(x.0), Abs(x.1))))
  {
    var all := s + [x];
    if peak != 0 && peak >= Abs(x.0) && peak >= Abs(x.1) {
      var i :| 0 <= i < |s| && HasMagnitude(s[i], peak);
      assert all[i] == s[i];
    } else {
      assert all[|s|] == x;
    }
  }

  lemma {:induction false} OutsideOnlyGrows(c: Converter, s: seq<Sample>, k: nat)
    requires k <= |s|
    ensures Outside(c, s[..k]) <= Outside(c, s)
    decreases |s| - k
  {
    if k == |s| {
      assert s[..k] == s;
    } else {
      OutsideOnlyGrows(c, s, k + 1);
      assert s[..k + 1][..k] == s[..k];
    }
  }

  /** What the converter's output means, with and without a signal. */
  lemma InjectionIsHonest(background: seq<Sample>, signal: Option<seq<Addition>>, c: Converter)
    requires Ordered(c) && (signal.Some? ==> |background| <= |signal.value|)
    ensures var sums := Sums(background, signal);
            var output := Converted(c, background, signal);
            && PushedOutside(c, background, sums) <= Outside(c, sums)
            && Outside(c, sums) <= Outside(c, background) + PushedOutside(c, background, sums)
            && (signal.None? ==>
                  output == background && Outside(c, sums) == Outside(c, background)
                  && PushedOutside(c, background, sums) == 0)
            && (signal.Some? ==> forall i :: 0 <= i < |output| ==> Inside(c, output[i].0) && Inside(c, output[i].1))
            && (Outside(c, sums) == 0 ==> output == sums)
  {
    hide Outside, PushedOutside, Sum;
    var sums := Sums(background, signal);
    ClippingIsAccountedFor(c, background, sums);
    if signal.None? {
      SilenceAddsNothing(background);
      assert sums == background && Converted(c, background, signal) == background;
    }
    if Outside(c, sums) == 0 {
      NothingOutside(c, sums);
    }
  }

  lemma SilenceAddsNothing(background: seq<Sample>)
    ensures Sums(background, None) == background
  {
    forall i | 0 <= i < |background| ensures Sums(background, None)[i] == background[i] {
      RoundingAnInteger(background[i].0);
      RoundingAnInteger(background[i].1);
    }
  }

  lemma RoundingAnInteger(n: int)
    ensures RoundTiesAway(n as real + 0.0) == n
  {
  }

  lemma {:induction false} NothingOutside(c: Converter, s: seq<Sample>)
    requires Outside(c, s) == 0
    ensures forall i :: 0 <= i < |s| ==> Inside(c, s[i].0) && Inside(c, s[i].1)
  {
    if s != [] {
      NothingOutside(c, s[..|s| - 1]);
    }
  }

  // ----- the samples and the counts, component by component

  /** `x` is the nearest integer to `v`, of two equally near the one further from zero. */
  predicate Rounded(v: real, x: int)
  {
    && -0.5 <= x as real - v <= 0.5
    && (x as real - v == 0.5 ==> v > 0.0) && (x as real - v == -0.5 ==> v < 0.0)
  }

  /** The first part of an addition goes to the first component, the second to the second. */
  lemma SumsByComponents(background: seq<Sample>, signal: seq<Addition>, i: nat)
    requires i < |background| <= |signal|
    ensures Rounded(background[i].0 as real + signal[i].0, Sums(background, Some(signal))[i].0)
    ensures Rounded(background[i].1 as real + signal[i].1, Sums(background, Some(signal))[i].1)
  {
    RoundingIsNearest(background[i].0 as real + signal[i].0);
    RoundingIsNearest(background[i].1 as real + signal[i].1);
  }

  /** Each component that leaves the converter is the nearest value of its range. */
  lemma OutputByComponents(background: seq<Sample>, signal: seq<Addition>, c: Converter, i: nat, x: int)
    requires Ordered(c) && i < |background| <= |signal| && c.low <= x <= c.high
    ensures var output, sum := Converted(c, background, Some(signal))[i], Sums(background, Some(signal))[i];
            && c.low <= output.0 <= c.high && c.low <= output.1 <= c.high
            && (sum.0 <= output.0 <= x || x <= output.0 <= sum.0)
            && (sum.1 <= output.1 <= x || x <= output.1 <= sum.1)
  {
  }

  predicate Out(c: Converter, x: Sample, first: bool)
  {
    var v := if first then x.0 else x.1;
    v < c.low || c.high < v
  }

  /** The positions of the samples whose first (or second) component lies outside the range. */
  function OutAt(c: Converter, s: seq<Sample>, first: bool): (r: set<int>)
  {
    set i | 0 <= i < |s| && Out(c, s[i], first)
  }

  lemma {:induction false} OutsideIsCounted(c: Converter, s: seq<Sample>)
    ensures Outside(c, s) == |OutAt(c, s, true)| + |OutAt(c, s, false)|
  {
    if s != [] {
      var n := |s| - 1;
      OutsideIsCounted(c, s[..n]);
      OutOneMore(c, s, n, true);
      OutOneMore(c, s, n, false);
    }
  }

  lemma OutOneMore(c: Converter, s: seq<Sample>, n: nat, first: bool)
    requires |s| == n + 1
    ensures |OutAt(c, s, first)| == |OutAt(c, s[..n], first)| + Numbers.Bit(Out(c, s[n], first))
  {
    hide Out;
    var added := if Out(c, s[n], first) then {n} else {};
    assert OutAt(c, s, first) == OutAt(c, s[..n], first) + added;
  }

  lemma {:induction false} PushedIsCounted(c: Converter, base: seq<Sample>, s: seq<Sample>)
    requires |base| == |s|
    ensures PushedOutside(c, base, s)
         == |OutAt(c, s, true) - OutAt(c, base, true)| + |OutAt(c, s, false) - OutAt(c, base, false)|
  {
    hide OutAt;
    if s == [] {
      NothingIsOut(c);
    } else {
      var n := |s| - 1;
      PushedIsCounted(c, base[..n], s[..n]);
      PushedOneMore(c, base, s, n, true);
      PushedOneMore(c, base, s, n, false);
    }
  }

  lemma NothingIsOut(c: Converter)
    ensures OutAt(c, [], true) == OutAt(c, [], false) == {}
  {
  }

  lemma PushedOneMore(c: Converter, base: seq<Sample>, s: seq<Sample>, n: nat, first: bool)
    requires |base| == |s| == n + 1
    ensures |OutAt(c, s, first) - OutAt(c, base, first)|
         == |OutAt(c, s[..n], first) - OutAt(c, base[..n], first)|
            + Numbers.Bit(Out(c, s[n], first) && !Out(c, base[n], first))
  {
    hide Out;
    var added := if Out(c, s[n], first) && !Out(c, base[n], first) then {n} else {};
    assert OutAt(c, s, first) - OutAt(c, base, first) == (OutAt(c, s[..n], first) - OutAt(c, base[..n], first)) + added;
  }

  /** The active count is the number of samples of the signal that are not zero. */
  lemma {:induction false} ActiveIsCounted(signal: seq<Addition>)
    ensures |Active(signal)| == |set i | 0 <= i < |signal| && signal[i] != (0.0, 0.0)|
  {
    if signal != [] {
      var n := |signal| - 1;
      ActiveIsCounted(signal[..n]);
      var added := if signal[n] != (0.0, 0.0) then {n} else {};
      assert (set i | 0 <= i < |signal| && signal[i] != (0.0, 0.0))
          == (set i | 0 <= i < n && signal[..n][i] != (0.0, 0.0)) + added;
    }
  }
}
