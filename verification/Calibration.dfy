/** Threshold fitting on frozen training scores: balanced accuracy over every real threshold. */
module Calibration {
  import opened Outcomes
  import Lists
  import Numbers
  import Text

  /** A recording's score and whether its target is present. */
  type Labelled = (real, bool)

  datatype CalibrationError =
    NoMembers | MethodNames | RepeatedMember | OneClass | MethodMembership | InconsistentSemantics

  predicate TruePositive(v: Labelled, t: real)
  {
    v.0 >= t && v.1
  }

  predicate TrueNegative(v: Labelled, t: real)
  {
    v.0 < t && !v.1
  }

  function TruePositives(values: seq<Labelled>, t: real): (n: nat)
  {
    if values == [] then 0
    else TruePositives(values[1..], t) + if TruePositive(values[0], t) then 1 else 0
  }

  function TrueNegatives(values: seq<Labelled>, t: real): (n: nat)
  {
    if values == [] then 0
    else TrueNegatives(values[1..], t) + if TrueNegative(values[0], t) then 1 else 0
  }

  function Positives(values: seq<Labelled>): (n: nat)
    ensures n <= |values|
  {
    if values == [] then 0 else Positives(values[1..]) + if values[0].1 then 1 else 0
  }

  function Negatives(values: seq<Labelled>): (n: nat)
  {
    |values| - Positives(values)
  }

  predicate BothClasses(values: seq<Labelled>)
  {
    Positives(values) > 0 && Negatives(values) > 0
  }

  /** Balanced accuracy without its common denominator. */
  function Numerator(values: seq<Labelled>, t: real): (n: int)
  {
    TruePositives(values, t) * Negatives(values) + TrueNegatives(values, t) * Positives(values)
  }

  function BalancedAccuracy(values: seq<Labelled>, t: real): (r: real)
    requires BothClasses(values)
  {
    (TruePositives(values, t) as real / Positives(values) as real
     + TrueNegatives(values, t) as real / Negatives(values) as real) / 2.0
  }

  lemma NumeratorOrdersAccuracy(values: seq<Labelled>, s: real, t: real)
    requires BothClasses(values) && Numerator(values, s) >= Numerator(values, t)
    ensures BalancedAccuracy(values, s) >= BalancedAccuracy(values, t)
  {
    AccuracyByNumerator(values, s);
    AccuracyByNumerator(values, t);
    Divided(Numerator(values, t) as real, Numerator(values, s) as real, Denominator(values));
  }

  function Denominator(values: seq<Labelled>): (d: real)
    requires BothClasses(values)
    ensures d > 0.0
  {
    FractionSum(0.0, 0.0, Positives(values) as real, Negatives(values) as real);
    Positives(values) as real * Negatives(values) as real
  }

  lemma NumeratorAsReal(a: int, b: int, p: int, n: int)
    ensures (a * n + b * p) as real == a as real * n as real + b as real * p as real
  {
    Numbers.ProductAsReal(a, n);
    Numbers.ProductAsReal(b, p);
  }

  lemma AccuracyByNumerator(values: seq<Labelled>, t: real)
    requires BothClasses(values)
    ensures BalancedAccuracy(values, t) == Numerator(values, t) as real / Denominator(values) / 2.0
  {
    hide TruePositives, TrueNegatives, Positives, Negatives;
    var p, n := Positives(values), Negatives(values);
    var a, b := TruePositives(values, t), TrueNegatives(values, t);
    FractionSum(a as real, b as real, p as real, n as real);
    NumeratorAsReal(a, b, p, n);
  }

  lemma FractionSum(a: real, b: real, p: real, n: real)
    requires p > 0.0 && n > 0.0
    ensures p * n > 0.0 && a / p + b / n == (a * n + b * p) / (p * n)
  {
    var x, y := a / p, b / n;
    assert x * p == a && y * n == b;
    assert a * n + b * p == (x + y) * (p * n) by {
      assert a * n == x * (p * n);
      assert b * p == y * (p * n);
    }
  }

  lemma Divided(a: real, b: real, d: real)
    requires a <= b && d > 0.0
    ensures a / d <= b / d
  {
  }

  // ----- candidates

  function Scores(values: seq<Labelled>): (r: set<real>)
  {
    set v | v in values :: v.0
  }

  function Greatest(values: seq<Labelled>): (m: real)
    requires values != []
    ensures exists v :: v in values && v.0 == m
    ensures forall v :: v in values ==> v.0 <= m
  {
    if |values| == 1 then values[0].0
    else
      var rest := Greatest(values[1..]);
      assert values == [values[0]] + values[1..];
      if values[0].0 >= rest then values[0].0 else rest
  }

  /** The scores, and the next value above the greatest when a finite one exists. */
  function Candidates(values: seq<Labelled>, above: Option<real>): (r: set<real>)
  {
    Scores(values) + if above.Some? then {above.value} else {}
  }

  /** The best candidate, and the largest of those that tie. */
  ghost predicate Chosen(values: seq<Labelled>, above: Option<real>, t: real)
  {
    && t in Candidates(values, above)
    && forall c :: c in Candidates(values, above) ==>
         Numerator(values, c) < Numerator(values, t) || (Numerator(values, c) == Numerator(values, t) && c <= t)
  }

  method BalancedAccuracyThreshold(values: seq<Labelled>, above: Option<real>)
    returns (r: Result<real, CalibrationError>)
    requires above.Some? ==> forall v :: v in values ==> v.0 < above.value
    ensures r.Err? <==> !BothClasses(values)
    ensures r.Ok? ==> Chosen(values, above, r.value)
    ensures r.Ok? ==> forall t: real :: BalancedAccuracy(values, t) <= BalancedAccuracy(values, r.value)
  {
    if Positives(values) == 0 || Negatives(values) == 0 {
      return Err(OneClass);
    }
    var candidates := Candidates(values, above);
    var best := values[0].0;
    assert values[0] in values;
    var left := candidates;
    while left != {}
      invariant left <= candidates && best in candidates
      invariant forall c :: c in candidates && c !in left ==>
        Numerator(values, c) < Numerator(values, best) || (Numerator(values, c) == Numerator(values, best) && c <= best)
      decreases |left|
    {
      var c := Lists.Pick(left);
      left := left - {c};
      if Numerator(values, c) > Numerator(values, best)
         || (Numerator(values, c) == Numerator(values, best) && c > best) {
        best := c;
      }
    }
    forall t: real ensures BalancedAccuracy(values, t) <= BalancedAccuracy(values, best) {
      ChosenBeatsEveryThreshold(values, above, best, t);
    }
    r := Ok(best);
  }

  // ----- optimality over every real threshold

  /** Thresholds between the same neighbouring scores classify alike. */
  lemma {:induction false} SameSideSameCounts(values: seq<Labelled>, s: real, t: real)
    requires forall v :: v in values ==> (v.0 >= s <==> v.0 >= t)
    ensures TruePositives(values, s) == TruePositives(values, t)
    ensures TrueNegatives(values, s) == TrueNegatives(values, t)
  {
    if values != [] {
      assert values[0] in values;
      SameSideSameCounts(values[1..], s, t);
    }
  }

  /** A threshold that no score lies below, and one that every score lies below. */
  lemma {:induction false} ExtremeThresholds(values: seq<Labelled>, low: real, high: real)
    requires forall v :: v in values ==> low <= v.0 < high
    ensures TruePositives(values, low) == Positives(values) && TrueNegatives(values, low) == 0
    ensures TruePositives(values, high) == 0 && TrueNegatives(values, high) == Negatives(values)
  {
    if values != [] {
      assert values[0] in values;
      ExtremeThresholds(values[1..], low, high);
    }
  }

  lemma {:induction false} LeastScoreFrom(values: seq<Labelled>, t: real) returns (c: Option<real>)
    ensures c.Some? ==> t <= c.value && c.value in Scores(values)
    ensures forall v :: v in values && v.0 >= t ==> c.Some? && c.value <= v.0
  {
    c := None;
    if values != [] {
      assert values == [values[0]] + values[1..];
      c := LeastScoreFrom(values[1..], t);
      if values[0].0 >= t && (c.None? || values[0].0 <= c.value) {
        c := Some(values[0].0);
        assert values[0] in values;
      }
    }
  }

  /** Every real threshold is matched by a candidate, also when nothing finite lies above the greatest score. */
  lemma EveryThresholdHasACandidate(values: seq<Labelled>, above: Option<real>, t: real) returns (c: real)
    requires BothClasses(values)
    requires above.Some? ==> forall v :: v in values ==> v.0 < above.value
    ensures c in Candidates(values, above) && Numerator(values, c) == Numerator(values, t)
  {
    var found := LeastScoreFrom(values, t);
    if found.Some? {
      c := found.value;
      SameSideSameCounts(values, c, t);
    } else if above.Some? {
      c := above.value;
      SameSideSameCounts(values, c, t);
    } else {
      assert values[0] in values;
      var least := LeastScoreFrom(values, LowerBound(values));
      c := least.value;
      ExtremeThresholds(values, c, t);
    }
  }

  function LowerBound(values: seq<Labelled>): (low: real)
    ensures forall v :: v in values ==> low <= v.0
  {
    if values == [] then 0.0
    else
      assert values == [values[0]] + values[1..];
      var rest := LowerBound(values[1..]);
      if values[0].0 <= rest then values[0].0 else rest
  }

  lemma ChosenBeatsEveryThreshold(values: seq<Labelled>, above: Option<real>, best: real, t: real)
    requires BothClasses(values) && Chosen(values, above, best)
    requires above.Some? ==> forall v :: v in values ==> v.0 < above.value
    ensures BalancedAccuracy(values, best) >= BalancedAccuracy(values, t)
  {
    var c := EveryThresholdHasACandidate(values, above, t);
    NumeratorOrdersAccuracy(values, best, t);
  }

  // ----- the order of the training values does not matter

  lemma {:induction false} CountsAreAdditive(a: seq<Labelled>, b: seq<Labelled>, t: real)
    ensures TruePositives(a + b, t) == TruePositives(a, t) + TruePositives(b, t)
    ensures TrueNegatives(a + b, t) == TrueNegatives(a, t) + TrueNegatives(b, t)
    ensures Positives(a + b) == Positives(a) + Positives(b)
  {
    if a == [] {
      assert a + b == b;
    } else {
      CountsAreAdditive(a[1..], b, t);
      assert (a + b)[1..] == a[1..] + b;
    }
  }

  /** What one value adds to the counts, wherever it stands. */
  lemma CountsWithout(b: seq<Labelled>, k: nat, t: real)
    requires k < |b|
    ensures var rest := b[..k] + b[k + 1..];
            && multiset(rest) == multiset(b) - multiset{b[k]}
            && TruePositives(b, t) == TruePositives(rest, t) + TruePositives([b[k]], t)
            && TrueNegatives(b, t) == TrueNegatives(rest, t) + TrueNegatives([b[k]], t)
            && Positives(b) == Positives(rest) + Positives([b[k]])
  {
    assert b == b[..k] + ([b[k]] + b[k + 1..]);
    CountsAreAdditive(b[..k], [b[k]] + b[k + 1..], t);
    CountsAreAdditive([b[k]], b[k + 1..], t);
    CountsAreAdditive(b[..k], b[k + 1..], t);
  }

  predicate SameCounts(a: seq<Labelled>, b: seq<Labelled>, t: real)
  {
    && TruePositives(a, t) == TruePositives(b, t) && TrueNegatives(a, t) == TrueNegatives(b, t)
    && Positives(a) == Positives(b)
  }

  lemma SameCountsWith(a: seq<Labelled>, b: seq<Labelled>, i: nat, k: nat, t: real)
    requires i < |a| && k < |b| && a[i] == b[k] && SameCounts(a[..i] + a[i + 1..], b[..k] + b[k + 1..], t)
    ensures SameCounts(a, b, t)
  {
    hide TruePositives, TrueNegatives, Positives;
    CountsWithout(a, i, t);
    CountsWithout(b, k, t);
  }

  lemma {:induction false} CountsIgnoreOrder(a: seq<Labelled>, b: seq<Labelled>, t: real)
    requires multiset(a) == multiset(b)
    ensures SameCounts(a, b, t) && |a| == |b|
  {
    hide TruePositives, TrueNegatives, Positives, SameCounts;
    assert |multiset(a)| == |multiset(b)|;
    if a == [] {
      assert SameCounts([], [], t) by { SameCountsNone(t); }
    } else {
      assert a[0] in multiset(b);
      var k :| 0 <= k < |b| && b[k] == a[0];
      CountsWithout(a, 0, t);
      CountsWithout(b, k, t);
      CountsIgnoreOrder(a[..0] + a[1..], b[..k] + b[k + 1..], t);
      SameCountsWith(a, b, 0, k, t);
    }
  }

  lemma SameCountsNone(t: real)
    ensures SameCounts([], [], t)
  {
  }

  /** One threshold is chosen, and any arrangement of the same training values chooses it. */
  lemma ThresholdIgnoresOrder(
    a: seq<Labelled>, b: seq<Labelled>, above: Option<real>, s: real, t: real)
    requires multiset(a) == multiset(b) && Chosen(a, above, s) && Chosen(b, above, t)
    ensures s == t
  {
    CountsIgnoreOrder(a, b, s);
    CountsIgnoreOrder(a, b, t);
    assert forall v :: v in a <==> v in multiset(a);
    assert forall v :: v in b <==> v in multiset(b);
    assert Scores(a) == Scores(b);
  }

  // ----- the training set

  datatype Score = Score(methodId: string, score: real, semantics: string)

  datatype Member = Member(featureSetId: string, recordingId: string, scores: seq<Score>, targetPresent: bool)

  function FeatureSetIds(members: seq<Member>): (ids: seq<string>)
  {
    seq(|members|, i requires 0 <= i < |members| => members[i].featureSetId)
  }

  function RecordingIds(members: seq<Member>): (ids: seq<string>)
  {
    seq(|members|, i requires 0 <= i < |members| => members[i].recordingId)
  }

  predicate UniqueMembers(members: seq<Member>)
  {
    Numbers.Distinct(FeatureSetIds(members)) && Numbers.Distinct(RecordingIds(members))
  }

  method ValidateMembership(members: seq<Member>) returns (r: Option<CalibrationError>)
    ensures r == if UniqueMembers(members) then None else Some(RepeatedMember)
  {
    var features, recordings := FeatureSetIds(members), RecordingIds(members);
    Numbers.DistinctBySize(features);
    Numbers.DistinctBySize(recordings);
    if |features| != |Numbers.Elements(features)| || |recordings| != |Numbers.Elements(recordings)| {
      return Some(RepeatedMember);
    }
    r := None;
  }

  /** The characters that `str.isspace` accepts. */
  predicate IsSpace(c: char)
  {
    var n := c as int;
    || 0x09 <= n <= 0x0D || 0x1C <= n <= 0x20 || n == 0x85 || n == 0xA0 || n == 0x1680
    || 0x2000 <= n <= 0x200A || n in {0x2028, 0x2029, 0x202F, 0x205F, 0x3000}
  }

  /** The blanks by their code points. */
  lemma BlanksByCode(c: char)
    ensures IsSpace(c) <==> c as int in {
      0x09, 0x0A, 0x0B, 0x0C, 0x0D, 0x1C, 0x1D, 0x1E, 0x1F, 0x20, 0x85, 0xA0, 0x1680,
      0x2000, 0x2001, 0x2002, 0x2003, 0x2004, 0x2005, 0x2006, 0x2007, 0x2008, 0x2009, 0x200A,
      0x2028, 0x2029, 0x202F, 0x205F, 0x3000}
  {
  }

  /** One side of a method identity: something, without a blank and without the sign. */
  predicate Token(t: string)
  {
    t != "" && forall c :: c in t ==> !IsSpace(c) && c != '@'
  }

  ghost predicate MethodIdentity(m: string)
  {
    exists id, version :: Token(id) && Token(version) && m == id + "@" + version
  }

  method IsExact(m: string) returns (ok: bool)
    ensures ok <==> MethodIdentity(m)
  {
    var parts := Text.Split(m, '@');
    ok := m != "" && multiset(m)['@'] == 1 && (forall c :: c in m ==> !IsSpace(c)) && (forall p :: p in parts ==> p != "");
    if ok {
      ExactIsIdentity(m);
    }
    if exists id, version :: Token(id) && Token(version) && m == id + "@" + version {
      var id, version :| Token(id) && Token(version) && m == id + "@" + version;
      IdentityIsExact(id, version);
    }
  }

  lemma SignsOfPair(id: string, version: string)
    ensures multiset(id + "@" + version)['@'] == multiset(id)['@'] + 1 + multiset(version)['@']
  {
    assert multiset(id + "@" + version) == multiset(id) + multiset{'@'} + multiset(version);
  }

  lemma PartsOfPair(id: string, version: string)
    requires '@' !in id && '@' !in version
    ensures Text.Split(id + "@" + version, '@') == [id, version]
  {
    Text.SplitAtFirst(id, '@', version);
    Text.SplitWhole(version, '@');
  }

  lemma ExactIsIdentity(m: string)
    requires multiset(m)['@'] == 1 && (forall c :: c in m ==> !IsSpace(c))
    requires forall p :: p in Text.Split(m, '@') ==> p != ""
    ensures MethodIdentity(m)
  {
    hide Text.Split, IsSpace;
    assert '@' in multiset(m);
    var id, version := AroundSign(m);
    PairIsIdentity(id, version);
  }

  lemma AroundSign(m: string) returns (id: string, version: string)
    requires '@' in m
    ensures m == id + "@" + version
  {
    var k :| 0 <= k < |m| && m[k] == '@';
    id, version := m[..k], m[k + 1..];
  }

  lemma PairIsIdentity(id: string, version: string)
    requires multiset(id + "@" + version)['@'] == 1 && (forall c :: c in id + "@" + version ==> !IsSpace(c))
    requires forall p :: p in Text.Split(id + "@" + version, '@') ==> p != ""
    ensures MethodIdentity(id + "@" + version)
  {
    hide Text.Split, IsSpace;
    SignsOfPair(id, version);
    assert '@' !in multiset(id) && '@' !in multiset(version);
    PartsOfPair(id, version);
    var parts := [id, version];
    assert parts[0] in parts && parts[1] in parts;
    assert Token(id) && Token(version);
  }

  lemma IdentityIsExact(id: string, version: string)
    requires Token(id) && Token(version)
    ensures var m := id + "@" + version;
            && multiset(m)['@'] == 1 && (forall c :: c in m ==> !IsSpace(c))
            && forall p :: p in Text.Split(m, '@') ==> p != ""
  {
    hide Text.Split;
    PartsOfPair(id, version);
    SignsOfPair(id, version);
    assert '@' !in multiset(id) && '@' !in multiset(version);
  }

  ghost predicate MethodList(methods: seq<string>)
  {
    methods != [] && Numbers.Distinct(methods) && forall m :: m in methods ==> MethodIdentity(m)
  }

  /** An empty list, a repeated method and a malformed identity are refused. */
  method CheckMethods(methods: seq<string>) returns (r: Option<CalibrationError>)
    ensures r.None? <==> MethodList(methods)
    ensures r.Some? ==> r.value == MethodNames
  {
    Numbers.DistinctBySize(methods);
    if methods == [] || |methods| != |Numbers.Elements(methods)| {
      return Some(MethodNames);
    }
    for i := 0 to |methods|
      invariant forall j :: 0 <= j < i ==> MethodIdentity(methods[j])
    {
      var exact := IsExact(methods[i]);
      if !exact {
        return Some(MethodNames);
      }
    }
    r := None;
  }

  function ScoresOf(scores: seq<Score>, methodId: string): (r: seq<real>)
  {
    if scores == [] then []
    else
      var x := scores[|scores| - 1];
      ScoresOf(scores[..|scores| - 1], methodId) + if x.methodId == methodId then [x.score] else []
  }

  function Observed(scores: seq<Score>): (r: set<string>)
  {
    set x | x in scores :: x.methodId
  }

  predicate IsMax(s: seq<real>, m: real)
  {
    m in s && forall x :: x in s ==> x <= m
  }

  method Max(s: seq<real>) returns (m: real)
    requires s != []
    ensures IsMax(s, m)
  {
    m := s[0];
    for i := 1 to |s|
      invariant m in s && forall j :: 0 <= j < i ==> s[j] <= m
    {
      if s[i] > m {
        m := s[i];
      }
    }
  }

  lemma {:induction false} ObservedHasScores(scores: seq<Score>, methodId: string)
    ensures methodId in Observed(scores) <==> ScoresOf(scores, methodId) != []
  {
    if scores != [] {
      var n := |scores| - 1;
      ObservedHasScores(scores[..n], methodId);
      assert scores == scores[..n] + [scores[n]];
    }
  }

  method GroupScores(scores: seq<Score>) returns (m: map<string, seq<real>>)
    ensures m.Keys == Observed(scores)
    ensures forall k :: k in m ==> m[k] == ScoresOf(scores, k) != []
  {
    m := map[];
    for i := 0 to |scores|
      invariant forall k :: if k in m then m[k] == ScoresOf(scores[..i], k) != [] else ScoresOf(scores[..i], k) == []
    {
      var x := scores[i];
      assert scores[..i + 1][..i] == scores[..i];
      m := m[x.methodId := (if x.methodId in m then m[x.methodId] else []) + [x.score]];
    }
    assert scores[..|scores|] == scores;
    forall k ensures k in m <==> k in Observed(scores) {
      ObservedHasScores(scores, k);
    }
  }

  /** Every recording contributes one value to a method: the greatest of its scores. */
  ghost predicate Maxima(members: seq<Member>, methodId: string, values: seq<Labelled>)
  {
    && |values| == |members|
    && forall i :: 0 <= i < |members| ==>
         values[i].1 == members[i].targetPresent && IsMax(ScoresOf(members[i].scores, methodId), values[i].0)
  }

  predicate ExactMethods(members: seq<Member>, methods: seq<string>)
  {
    forall i :: 0 <= i < |members| ==> Observed(members[i].scores) == set m | m in methods
  }

  method CollectMaxima(members: seq<Member>, methods: seq<string>)
    returns (r: Result<map<string, seq<Labelled>>, CalibrationError>)
    ensures r.Err? <==> !ExactMethods(members, methods)
    ensures r.Err? ==> r.error == MethodMembership
    ensures r.Ok? ==> forall m :: m in methods ==> m in r.value && Maxima(members, m, r.value[m])
  {
    hide Maxima, Observed;
    var expected := set m | m in methods;
    var maxima := map m | m in expected :: [];
    NoMaxima(expected, maxima);
    for i := 0 to |members|
      invariant forall j :: 0 <= j < i ==> Observed(members[j].scores) == expected
      invariant maxima.Keys == expected && forall m :: m in expected ==> Maxima(members[..i], m, maxima[m])
    {
      var scores := GroupScores(members[i].scores);
      if scores.Keys != expected {
        return Err(MethodMembership);
      }
      maxima := AddMaxima(expected, scores, members[i], maxima, members[..i]);
      assert members[..i + 1] == members[..i] + [members[i]];
    }
    assert members[..|members|] == members;
    r := Ok(maxima);
  }

  lemma NoMaxima(expected: set<string>, maxima: map<string, seq<Labelled>>)
    requires maxima.Keys == expected && forall m :: m in expected ==> maxima[m] == []
    ensures forall m :: m in expected ==> Maxima([], m, maxima[m])
  {
  }

  method AddMaxima(
    expected: set<string>, scores: map<string, seq<real>>, member: Member, maxima0: map<string, seq<Labelled>>,
    ghost members: seq<Member>)
    returns (maxima: map<string, seq<Labelled>>)
    requires scores.Keys == expected == maxima0.Keys
    requires forall m :: m in expected ==> scores[m] == ScoresOf(member.scores, m) != []
    requires forall m :: m in expected ==> Maxima(members, m, maxima0[m])
    ensures maxima.Keys == expected
    ensures forall m :: m in expected ==> Maxima(members + [member], m, maxima[m])
  {
    maxima := maxima0;
    var left := expected;
    while left != {}
      invariant left <= expected && maxima.Keys == expected
      invariant forall m :: m in left ==> maxima[m] == maxima0[m]
      invariant forall m :: m in expected && m !in left ==> Maxima(members + [member], m, maxima[m])
      decreases |left|
    {
      var m := Lists.Pick(left);
      left := left - {m};
      var greatest := Max(scores[m]);
      MaximaGrow(members, member, m, maxima0[m], greatest);
      maxima := maxima[m := maxima[m] + [(greatest, member.targetPresent)]];
    }
  }

  lemma MaximaGrow(members: seq<Member>, member: Member, m: string, values: seq<Labelled>, greatest: real)
    requires Maxima(members, m, values) && IsMax(ScoresOf(member.scores, m), greatest)
    ensures Maxima(members + [member], m, values + [(greatest, member.targetPresent)])
  {
  }

  predicate OneSemantics(members: seq<Member>, methodId: string)
  {
    forall a, b, x, y ::
      (a in members && b in members && x in a.scores && y in b.scores && x.methodId == methodId == y.methodId) ==>
      x.semantics == y.semantics
  }

  predicate BothLabels(members: seq<Member>)
  {
    (exists a :: a in members && a.targetPresent) && (exists b :: b in members && !b.targetPresent)
  }

  lemma {:induction false} LabelledBothWays(values: seq<Labelled>)
    ensures Positives(values) > 0 <==> exists v :: v in values && v.1
    ensures Negatives(values) > 0 <==> exists v :: v in values && !v.1
  {
    if values != [] {
      assert values == [values[0]] + values[1..];
      LabelledBothWays(values[1..]);
    }
  }

  lemma BothLabelsBothClasses(members: seq<Member>, m: string, values: seq<Labelled>)
    requires BothLabels(members) && Maxima(members, m, values)
    ensures BothClasses(values)
  {
    LabelledBothWays(values);
    var a :| a in members && a.targetPresent;
    var b :| b in members && !b.targetPresent;
    var i :| 0 <= i < |members| && members[i] == a;
    var j :| 0 <= j < |members| && members[j] == b;
    assert values[i] in values && values[j] in values;
  }

  /**
   * The rule exists exactly when there is a list of exact method identities, no feature set and no
   * recording appears twice, both classes are present, every recording scored exactly the expected
   * methods and each method kept one meaning of its score; then every method's threshold is the best
   * real one for the per-recording maxima. The faults are reported in this order.
   */
  method CalibrateTrainThresholds(members: seq<Member>, methods: seq<string>, nextAbove: real -> Option<real>)
    returns (r: Result<map<string, real>, CalibrationError>)
    requires forall x :: nextAbove(x).Some? ==> x < nextAbove(x).value
    ensures r.Ok? <==>
      && MethodList(methods) && UniqueMembers(members) && BothLabels(members) && ExactMethods(members, methods)
      && forall m :: m in methods ==> OneSemantics(members, m)
    ensures r == Err(NoMembers) <==> members == []
    ensures r == Err(MethodNames) <==> members != [] && !MethodList(methods)
    ensures r == Err(RepeatedMember) <==> members != [] && MethodList(methods) && !UniqueMembers(members)
    ensures r == Err(OneClass) <==>
      members != [] && MethodList(methods) && UniqueMembers(members) && !BothLabels(members)
    ensures r == Err(MethodMembership) <==>
      MethodList(methods) && UniqueMembers(members) && BothLabels(members) && !ExactMethods(members, methods)
    ensures r == Err(InconsistentSemantics) <==>
      && MethodList(methods) && UniqueMembers(members) && BothLabels(members) && ExactMethods(members, methods)
      && exists m :: m in methods && !OneSemantics(members, m)
    ensures r.Ok? ==> forall m :: m in r.value <==> m in methods
    ensures r.Ok? ==> forall m :: m in methods ==> Fitted(members, m, r.value[m], nextAbove)
  {
    hide MethodList, UniqueMembers, Fitted, Maxima, OneSemantics;
    if members == [] {
      return Err(NoMembers);
    }
    var names := CheckMethods(methods);
    if names.Some? {
      return Err(names.value);
    }
    var repeated := ValidateMembership(members);
    if repeated.Some? {
      return Err(repeated.value);
    }
    if !BothLabels(members) {
      return Err(OneClass);
    }
    var maxima := CollectMaxima(members, methods);
    if maxima.Err? {
      return Err(maxima.error);
    }
    if exists m :: m in methods && !OneSemantics(members, m) {
      return Err(InconsistentSemantics);
    }
    var thresholds := FitAll(members, methods, maxima.value, nextAbove);
    r := Ok(thresholds);
  }

  method FitAll(
    members: seq<Member>, methods: seq<string>, maxima: map<string, seq<Labelled>>, nextAbove: real -> Option<real>)
    returns (thresholds: map<string, real>)
    requires forall x :: nextAbove(x).Some? ==> x < nextAbove(x).value
    requires BothLabels(members) && forall m :: m in methods ==> m in maxima && Maxima(members, m, maxima[m])
    ensures forall m :: m in thresholds <==> m in methods
    ensures forall m :: m in methods ==> Fitted(members, m, thresholds[m], nextAbove)
  {
    hide Fitted, Maxima, BothLabels;
    thresholds := map[];
    for i := 0 to |methods|
      invariant forall m :: m in thresholds <==> m in methods[..i]
      invariant forall m :: m in thresholds ==> Fitted(members, m, thresholds[m], nextAbove)
    {
      assert methods[i] in methods;
      var t := Fit(members, methods[i], maxima[methods[i]], nextAbove);
      thresholds := thresholds[methods[i] := t];
    }
    assert methods[..|methods|] == methods;
  }

  method Fit(members: seq<Member>, m: string, values: seq<Labelled>, nextAbove: real -> Option<real>)
    returns (t: real)
    requires forall x :: nextAbove(x).Some? ==> x < nextAbove(x).value
    requires BothLabels(members) && Maxima(members, m, values)
    ensures Fitted(members, m, t, nextAbove)
  {
    BothLabelsBothClasses(members, m, values);
    var above := nextAbove(Greatest(values));
    var fitted := BalancedAccuracyThreshold(values, above);
    t := fitted.value;
    assert FittedOn(values, t, above);
  }

  ghost predicate FittedOn(values: seq<Labelled>, t: real, above: Option<real>)
  {
    && BothClasses(values) && Chosen(values, above, t)
    && forall s: real :: BalancedAccuracy(values, s) <= BalancedAccuracy(values, t)
  }

  ghost predicate Fitted(members: seq<Member>, m: string, t: real, nextAbove: real -> Option<real>)
  {
    exists values :: Maxima(members, m, values) && values != [] && FittedOn(values, t, nextAbove(Greatest(values)))
  }

  // ----- the rule on the fields of the members

  /** No identifier of two members agrees, no method is repeated or malformed, and members scored just the methods. */
  lemma TrainingSetByFields(members: seq<Member>, methods: seq<string>)
    ensures UniqueMembers(members) <==> forall i, j :: 0 <= i < j < |members| ==>
      members[i].featureSetId != members[j].featureSetId && members[i].recordingId != members[j].recordingId
    ensures MethodList(methods) <==>
      && |methods| > 0
      && (forall i, j :: 0 <= i < j < |methods| ==> methods[i] != methods[j])
      && forall i :: 0 <= i < |methods| ==> MethodIdentity(methods[i])
    ensures ExactMethods(members, methods) <==> forall i, m :: 0 <= i < |members| ==>
      (m in methods <==> Scored(members[i].scores, m))
  {
    hide MethodIdentity, Scored, Observed;
    var f, r := FeatureSetIds(members), RecordingIds(members);
    if UniqueMembers(members) {
      forall i, j | 0 <= i < j < |members|
        ensures members[i].featureSetId != members[j].featureSetId && members[i].recordingId != members[j].recordingId
      {
        assert f[i] != f[j] && r[i] != r[j];
      }
    }
    forall i | 0 <= i < |members|
      ensures Observed(members[i].scores) == (set m | m in methods)
              <==> forall m :: (m in methods <==> Scored(members[i].scores, m))
    {
      ObservedByPlace(members[i].scores, methods);
    }
  }

  predicate Scored(scores: seq<Score>, m: string)
  {
    exists k :: 0 <= k < |scores| && scores[k].methodId == m
  }

  lemma ObservedByPlace(scores: seq<Score>, methods: seq<string>)
    ensures Observed(scores) == (set m | m in methods) <==> forall m :: (m in methods <==> Scored(scores, m))
  {
    forall m ensures m in Observed(scores) <==> Scored(scores, m) {
      if k :| 0 <= k < |scores| && scores[k].methodId == m {
        assert scores[k] in scores;
      }
    }
    var expected := set m | m in methods;
    assert forall m :: m in expected <==> m in methods;
  }

  /** A present target at or above the threshold, an absent one below it. */
  predicate Called(v: Labelled, t: real, present: bool)
  {
    v.1 == present && (if present then t <= v.0 else v.0 < t)
  }

  /** The positions of the values of one class that a threshold calls correctly. */
  function Sided(values: seq<Labelled>, t: real, present: bool): (r: set<int>)
  {
    set i | 0 <= i < |values| && Called(values[i], t, present)
  }

  function OfClass(values: seq<Labelled>, present: bool): (r: set<int>)
  {
    set i | 0 <= i < |values| && values[i].1 == present
  }

  lemma {:induction false} CountsAreSizes(values: seq<Labelled>, t: real)
    ensures TruePositives(values, t) == |Sided(values, t, true)|
    ensures TrueNegatives(values, t) == |Sided(values, t, false)|
    ensures Positives(values) == |OfClass(values, true)| && Negatives(values) == |OfClass(values, false)|
  {
    if values != [] {
      var n := |values| - 1;
      var last := values[n];
      CountsAreSizes(values[..n], t);
      assert values == values[..n] + [last];
      CountsAreAdditive(values[..n], [last], t);
      SidedOneMore(values, n, t, true);
      SidedOneMore(values, n, t, false);
    }
  }

  lemma SidedOneMore(values: seq<Labelled>, n: nat, t: real, present: bool)
    requires |values| == n + 1
    ensures |Sided(values, t, present)| == |Sided(values[..n], t, present)| + Numbers.Bit(Called(values[n], t, present))
    ensures |OfClass(values, present)| == |OfClass(values[..n], present)| + Numbers.Bit(values[n].1 == present)
  {
    hide Called;
    var called := if Called(values[n], t, present) then {n} else {};
    assert Sided(values, t, present) == Sided(values[..n], t, present) + called;
    OfClassOneMore(values, n, present);
  }

  lemma OfClassOneMore(values: seq<Labelled>, n: nat, present: bool)
    requires |values| == n + 1
    ensures |OfClass(values, present)| == |OfClass(values[..n], present)| + Numbers.Bit(values[n].1 == present)
  {
    var added := if values[n].1 == present then {n} else {};
    assert OfClass(values, present) == OfClass(values[..n], present) + added;
  }

  /** Balanced accuracy is the mean of the two rates of correct calls. */
  lemma AccuracyIsMeanRate(values: seq<Labelled>, t: real)
    requires BothClasses(values)
    ensures |OfClass(values, true)| > 0 && |OfClass(values, false)| > 0
    ensures 2.0 * BalancedAccuracy(values, t)
         == |Sided(values, t, true)| as real / |OfClass(values, true)| as real
            + |Sided(values, t, false)| as real / |OfClass(values, false)| as real
  {
    hide TruePositives, TrueNegatives, Positives, Negatives, Sided, OfClass;
    CountsAreSizes(values, t);
  }

  /** Of the thresholds offered that are as accurate, the chosen one is the greatest. */
  lemma ChosenIsGreatestOfTheBest(values: seq<Labelled>, above: Option<real>, t: real, c: real)
    requires BothClasses(values) && Chosen(values, above, t)
    requires above == Some(c) || exists i :: 0 <= i < |values| && values[i].0 == c
    ensures BalancedAccuracy(values, c) <= BalancedAccuracy(values, t)
    ensures BalancedAccuracy(values, c) == BalancedAccuracy(values, t) ==> c <= t
  {
    hide TruePositives, TrueNegatives, Positives, Negatives, Numerator;
    if i :| 0 <= i < |values| && values[i].0 == c {
      assert values[i] in values;
    }
    assert c in Candidates(values, above);
    NumeratorOrdersAccuracy(values, t, c);
    if c > t {
      assert Numerator(values, c) < Numerator(values, t);
      FewerIsLess(values, c, t);
    }
  }

  lemma FewerIsLess(values: seq<Labelled>, s: real, t: real)
    requires BothClasses(values) && Numerator(values, s) < Numerator(values, t)
    ensures BalancedAccuracy(values, s) < BalancedAccuracy(values, t)
  {
    hide TruePositives, TrueNegatives, Positives, Negatives, Numerator, BalancedAccuracy;
    AccuracyByNumerator(values, s);
    AccuracyByNumerator(values, t);
    StrictlyDivided(Numerator(values, s) as real, Numerator(values, t) as real, Denominator(values));
  }

  lemma StrictlyDivided(a: real, b: real, d: real)
    requires a < b && d > 0.0
    ensures a / d < b / d
  {
    assert (b / d - a / d) * d == b - a;
  }

  function Labels(members: seq<Member>): (r: set<bool>)
  {
    set a | a in members :: a.targetPresent
  }

  /** The meanings that the members gave to the score of a method. */
  function Meanings(members: seq<Member>, m: string): (r: set<string>)
  {
    set a, x | a in members && x in a.scores && x.methodId == m :: x.semantics
  }

  /** Both classes are present when the labels are true and false. */
  lemma LabelsAreBoth(members: seq<Member>)
    ensures BothLabels(members) <==> Labels(members) == {false, true}
  {
    assert BothLabels(members) <==> true in Labels(members) && false in Labels(members);
  }

  lemma OneAtMost<T>(s: set<T>)
    ensures |s| <= 1 <==> forall x, y :: x in s && y in s ==> x == y
  {
    if s != {} {
      var one :| one in s;
      if |s| == 1 {
        forall x | x in s ensures x == one {
          Numbers.SubsetSize({x, one}, s);
        }
      }
      if forall x, y :: x in s && y in s ==> x == y {
        assert s == {one};
      }
    }
  }

  ghost predicate Means(members: seq<Member>, m: string, meaning: string)
  {
    exists a, x :: a in members && x in a.scores && x.methodId == m && x.semantics == meaning
  }

  lemma MeaningsByScores(members: seq<Member>, m: string)
    ensures forall meaning :: meaning in Meanings(members, m) <==> Means(members, m, meaning)
  {
  }

  lemma OneSemanticsByMeanings(members: seq<Member>, m: string)
    ensures OneSemantics(members, m) <==> forall s, t :: Means(members, m, s) && Means(members, m, t) ==> s == t
  {
    forall a, x | a in members && x in a.scores && x.methodId == m ensures Means(members, m, x.semantics) {
    }
  }

  /** A method that was scored has one meaning, or several. */
  lemma MeaningsAreOne(members: seq<Member>, m: string)
    ensures OneSemantics(members, m) <==> |Meanings(members, m)| <= 1
  {
    hide OneSemantics, Meanings, Means;
    OneAtMost(Meanings(members, m));
    MeaningsByScores(members, m);
    OneSemanticsByMeanings(members, m);
  }

  /** The value of a recording under a method: its label, and the greatest of its scores. */
  predicate IsValueOf(member: Member, m: string, v: Labelled)
  {
    && v.1 == member.targetPresent
    && (exists k :: 0 <= k < |member.scores| && member.scores[k].methodId == m && member.scores[k].score == v.0)
    && (forall k :: 0 <= k < |member.scores| && member.scores[k].methodId == m ==> member.scores[k].score <= v.0)
  }

  lemma {:induction false} ScoresOfMembers(scores: seq<Score>, m: string, x: real)
    ensures x in ScoresOf(scores, m) <==>
      exists k :: 0 <= k < |scores| && scores[k].methodId == m && scores[k].score == x
  {
    if scores != [] {
      var n := |scores| - 1;
      ScoresOfMembers(scores[..n], m, x);
      LastScore(scores, n, m, x);
    }
  }

  lemma LastScore(scores: seq<Score>, n: nat, m: string, x: real)
    requires |scores| == n + 1
    ensures (exists k :: 0 <= k < |scores| && scores[k].methodId == m && scores[k].score == x) <==>
      || (exists k :: 0 <= k < n && scores[..n][k].methodId == m && scores[..n][k].score == x)
      || (scores[n].methodId == m && scores[n].score == x)
  {
    assert forall k :: 0 <= k < n ==> scores[..n][k] == scores[k];
  }

  /** A fitted threshold is the best real one for the recordings' greatest scores under its method. */
  lemma FittedByFields(members: seq<Member>, m: string, t: real, nextAbove: real -> Option<real>)
    returns (values: seq<Labelled>)
    requires Fitted(members, m, t, nextAbove)
    ensures |values| == |members| && forall i :: 0 <= i < |members| ==> IsValueOf(members[i], m, values[i])
    ensures BothClasses(values) && forall s: real :: BalancedAccuracy(values, s) <= BalancedAccuracy(values, t)
    ensures values != [] && Chosen(values, nextAbove(Greatest(values)), t)
  {
    hide BothClasses, Chosen, BalancedAccuracy, ScoresOf;
    values :| Maxima(members, m, values) && values != [] && FittedOn(values, t, nextAbove(Greatest(values)));
    forall i | 0 <= i < |members| ensures IsValueOf(members[i], m, values[i]) {
      var scores := members[i].scores;
      ScoresOfMembers(scores, m, values[i].0);
      forall k | 0 <= k < |scores| && scores[k].methodId == m ensures scores[k].score <= values[i].0 {
        ScoresOfMembers(scores, m, scores[k].score);
      }
    }
  }
}
