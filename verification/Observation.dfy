/** The sorted sweep that measures a union of half-open nanosecond intervals. */
module Sweep {
  import opened Outcomes
  import Lists

  type Interval = (int, int)

  predicate Inside(a: int, b: int, t: int)
  {
    a <= t < b
  }

  /** The nanoseconds of `[a, b)`. */
  function Span(a: int, b: int): (r: set<int>)
  {
    set t | a <= t < b && Inside(a, b, t)
  }

  /** The nanoseconds some interval covers. */
  function Covered(s: seq<Interval>): (r: set<int>)
  {
    if s == [] then {} else Covered(s[..|s| - 1]) + Span(s[|s| - 1].0, s[|s| - 1].1)
  }

  predicate Covers(s: seq<Interval>, t: int)
  {
    exists p :: p in s && p.0 <= t < p.1
  }

  lemma {:induction false} CoveredPoints(s: seq<Interval>)
    ensures forall t :: t in Covered(s) <==> Covers(s, t)
  {
    if s != [] {
      var rest, p := s[..|s| - 1], s[|s| - 1];
      CoveredPoints(rest);
      assert s == rest + [p];
      forall t ensures t in Covered(s) <==> Covers(s, t) {
        assert Covers(s, t) <==> Covers(rest, t) || p.0 <= t < p.1;
      }
    }
  }

  ghost predicate Proper(s: seq<Interval>)
  {
    forall p :: p in s ==> p.0 < p.1
  }

  /** Python's order on pairs. */
  predicate Leq(p: Interval, q: Interval)
  {
    p.0 < q.0 || (p.0 == q.0 && p.1 <= q.1)
  }

  lemma {:induction false} SpanSize(a: int, b: int)
    requires a <= b
    ensures |Span(a, b)| == b - a
    decreases b - a
  {
    if a < b {
      SpanSize(a + 1, b);
      assert Span(a, b) == {a} + Span(a + 1, b);
    }
  }

  /** Coverage is a property of the set of intervals: order and repeats do not matter. */
  lemma CoverageIgnoresOrderAndRepeats(s: seq<Interval>, t: seq<Interval>)
    requires forall p :: p in s <==> p in t
    ensures Covered(s) == Covered(t)
  {
    CoveredPoints(s);
    CoveredPoints(t);
    assert forall x :: Covers(s, x) <==> Covers(t, x);
  }

  /** What one step of the sweep adds, given the merged block `[start, end)` it stands on. */
  lemma SweepStep(covered: set<int>, start: int, end: int, p: Interval)
    requires p.0 < p.1 && start <= p.0
    requires Span(start, end) <= covered && forall t :: t in covered ==> t < end
    ensures |covered + Span(p.0, p.1)|
            == |covered| + if p.0 > end then p.1 - p.0 else if p.1 > end then p.1 - end else 0
    ensures Span(p.0, if p.1 > end then p.1 else end) <= covered + Span(p.0, p.1)
  {
    var added := Span(if p.0 > end then p.0 else end, p.1);
    assert covered + Span(p.0, p.1) == covered + added by {
      forall t | t in Span(p.0, p.1) ensures t in covered + added {
        assert t >= end || t in Span(start, end);
      }
    }
    assert covered !! added;
    if p.1 > end {
      SpanSize(if p.0 > end then p.0 else end, p.1);
    }
    forall t | t in Span(p.0, if p.1 > end then p.1 else end) ensures t in covered + Span(p.0, p.1) {
      assert t in Span(p.0, p.1) || t in Span(start, end);
    }
  }

  /** What the sweep knows: its total, and the merged block `[start, end)` it stands on. */
  ghost predicate Swept(covered: set<int>, start: int, total: int, end: Option<int>)
  {
    && total == |covered|
    && (end.None? ==> covered == {})
    && (end.Some? ==> Span(start, end.value) <= covered && forall t :: t in covered ==> t < end.value)
  }

  lemma SweptFurther(covered: set<int>, start: int, total: int, end: Option<int>, p: Interval)
    requires Swept(covered, start, total, end) && p.0 < p.1 && (end.Some? ==> start <= p.0)
    ensures var next := covered + Span(p.0, p.1);
            && (end.None? || p.0 > end.value ==> Swept(next, p.0, total + (p.1 - p.0), Some(p.1)))
            && (end.Some? && p.0 <= end.value < p.1 ==> Swept(next, p.0, total + (p.1 - end.value), Some(p.1)))
            && (end.Some? && p.1 <= end.value ==> Swept(next, p.0, total, end))
  {
    if end.None? {
      SpanSize(p.0, p.1);
      assert covered + Span(p.0, p.1) == Span(p.0, p.1);
    } else {
      SweepStep(covered, start, end.value, p);
    }
  }

  /** The sweep returns exactly the number of distinct nanoseconds covered. */
  method UnionDuration(intervals: seq<Interval>) returns (total: int)
    requires Proper(intervals)
    ensures total == |Covered(intervals)|
  {
    var ordered := Lists.Sort(Leq, intervals);
    SortedIntervals(intervals);
    total := 0;
    var end := None;
    ghost var covered, last := {}, 0;
    for i := 0 to |ordered|
      invariant covered == Covered(ordered[..i])
      invariant end.Some? ==> i > 0 && last == ordered[i - 1].0
      invariant Swept(covered, last, total, end)
    {
      var p := ordered[i];
      SweptFurther(covered, last, total, end, p);
      CoveredOneMore(ordered, i);
      covered, last := covered + Span(p.0, p.1), p.0;
      if end.None? || p.0 > end.value {
        total := total + (p.1 - p.0);
        end := Some(p.1);
      } else if p.1 > end.value {
        total := total + (p.1 - end.value);
        end := Some(p.1);
      }
    }
    assert ordered[..|ordered|] == ordered;
  }

  lemma CoveredOneMore(s: seq<Interval>, i: nat)
    requires i < |s|
    ensures Covered(s[..i + 1]) == Covered(s[..i]) + Span(s[i].0, s[i].1)
  {
    assert s[..i + 1][..i] == s[..i];
  }

  lemma SortedIntervals(intervals: seq<Interval>)
    requires Proper(intervals)
    ensures Covered(Lists.Sort(Leq, intervals)) == Covered(intervals)
    ensures forall i :: 0 <= i < |Lists.Sort(Leq, intervals)| ==>
      && Lists.Sort(Leq, intervals)[i].0 < Lists.Sort(Leq, intervals)[i].1
      && (i > 0 ==> Lists.Sort(Leq, intervals)[i - 1].0 <= Lists.Sort(Leq, intervals)[i].0)
  {
    var ordered := Lists.Sort(Leq, intervals);
    assert Lists.TotalPreorder(Leq);
    Lists.SortIsOrderedPermutation(Leq, intervals);
    forall p ensures p in ordered <==> p in intervals {
      assert p in ordered <==> p in multiset(ordered);
      assert p in intervals <==> p in multiset(intervals);
    }
    CoverageIgnoresOrderAndRepeats(ordered, intervals);
    forall i | 0 <= i < |ordered|
      ensures ordered[i].0 < ordered[i].1 && (i > 0 ==> ordered[i - 1].0 <= ordered[i].0)
    {
      assert ordered[i] in ordered;
      assert i > 0 ==> Leq(ordered[i - 1], ordered[i]);
    }
  }
}

/** Duty cycles and candidate evidence of the recordings in one time range. */
module Observation {
  import opened Outcomes
  import opened Sweep
  import Lists
  import Numbers
  import Text

  /** A dimension and an identity in it. */
  type Key = (string, string)

  datatype Query = Query(start: int, stop: int)

  datatype Segment = Segment(started: int, finished: int, receivers: seq<string>)

  datatype Method = Method(score: real, controlScore: real, receiver: string, edge: string, name: string)

  /** The projected states; `Other` is any text the projection does not know. */
  datatype StarlinkState = Candidates | NotEvaluated | Unavailable | Other(text: string)

  datatype Suite = Suite(state: StarlinkState, detections: bool, methods: seq<Method>)

  datatype Row = Row(recordingId: string, radioId: string, segments: seq<Segment>, suite: Option<Suite>)

  datatype AggregateError = UnsupportedState | DeclaresDetections

  datatype Duty = Duty(key: Key, activeNs: int, intervalNs: int, dutyCycle: real)

  datatype Evidence = Evidence(key: Key, comparisons: int, positives: int, rate: real)

  datatype View = View(
    total: int, candidates: int, notEvaluated: int, unavailable: int,
    duty: seq<Duty>, evidence: seq<Evidence>, states: seq<(string, StarlinkState)>, truncated: bool)

  const MAX_RECORDING_STATES := 10_000

  // ----- what the view means

  predicate Names(row: Row, segment: Segment, key: Key)
  {
    key == ("radio", row.radioId) || (key.0 == "lnb" && key.1 in segment.receivers)
  }

  /** The radio or low-noise block `key` was recording at nanosecond `t`. */
  predicate Active(rows: seq<Row>, key: Key, t: int)
  {
    exists row, segment :: row in rows && segment in row.segments
      && Names(row, segment, key) && segment.started <= t < segment.finished
  }

  function ActiveNs(q: Query, rows: seq<Row>, key: Key): (r: set<int>)
  {
    set t | q.start <= t < q.stop && Active(rows, key, t)
  }

  predicate Supported(row: Row)
  {
    row.suite.Some? ==>
      (row.suite.value.state.Candidates? || row.suite.value.state.NotEvaluated?) && !row.suite.value.detections
  }

  /** A state the projection does not know is found before declared detections are. */
  predicate Refuses(row: Row, error: AggregateError)
  {
    && row.suite.Some?
    && (error == UnsupportedState
        <==> row.suite.value.state != Candidates && row.suite.value.state != NotEvaluated)
    && (error == DeclaresDetections ==> row.suite.value.detections)
  }

  /** The reported error is that of the first row that is refused. */
  ghost predicate FirstRefusal(rows: seq<Row>, error: AggregateError)
  {
    exists i :: 0 <= i < |rows| && Refuses(rows[i], error) && forall j :: 0 <= j < i ==> Supported(rows[j])
  }

  function State(row: Row): (s: StarlinkState)
  {
    if row.suite.None? then Unavailable else row.suite.value.state
  }

  function CountState(rows: seq<Row>, state: StarlinkState): (n: nat)
  {
    if rows == [] then 0
    else CountState(rows[..|rows| - 1], state) + if State(rows[|rows| - 1]) == state then 1 else 0
  }

  function States(rows: seq<Row>): (s: seq<(string, StarlinkState)>)
    ensures |s| == |rows|
    ensures forall i :: 0 <= i < |rows| ==> s[i] == (rows[i].recordingId, State(rows[i]))
  {
    seq(|rows|, i requires 0 <= i < |rows| => (rows[i].recordingId, State(rows[i])))
  }

  // ----- dictionaries of lists and counters

  datatype Event<V> = Event(key: Key, value: V)

  /** The values filed under a key, in order. */
  function Group<V>(events: seq<Event<V>>, key: Key): (r: seq<V>)
  {
    if events == [] then []
    else
      var e := events[|events| - 1];
      Group(events[..|events| - 1], key) + if e.key == key then [e.value] else []
  }

  lemma GroupOfOneMore<V>(events: seq<Event<V>>, e: Event<V>, key: Key)
    ensures Group(events + [e], key) == Group(events, key) + if e.key == key then [e.value] else []
  {
    assert (events + [e])[..|events|] == events;
  }

  lemma {:induction false} GroupMembers<V>(events: seq<Event<V>>, key: Key, v: V)
    ensures v in Group(events, key) <==> Event(key, v) in events
  {
    if events != [] {
      var rest, e := events[..|events| - 1], events[|events| - 1];
      GroupMembers(rest, key, v);
      assert events == rest + [e];
    }
  }

  ghost predicate Filed<V>(m: map<Key, seq<V>>, events: seq<Event<V>>)
  {
    && (forall k :: k in m ==> m[k] == Group(events, k) != [])
    && (forall k :: k !in m ==> Group(events, k) == [])
  }

  function File<V>(m: map<Key, seq<V>>, e: Event<V>): (r: map<Key, seq<V>>)
  {
    m[e.key := (if e.key in m then m[e.key] else []) + [e.value]]
  }

  lemma FilingKeepsFiled<V>(m: map<Key, seq<V>>, events: seq<Event<V>>, e: Event<V>)
    requires Filed(m, events)
    ensures Filed(File(m, e), events + [e])
  {
    forall k ensures Group(events + [e], k) == Group(events, k) + if e.key == k then [e.value] else [] {
      GroupOfOneMore(events, e, k);
    }
  }

  function CountTrue(s: seq<bool>): (n: nat)
    ensures n <= |s|
  {
    if s == [] then 0 else CountTrue(s[..|s| - 1]) + if s[|s| - 1] then 1 else 0
  }

  ghost predicate Counted(m: map<Key, (int, int)>, events: seq<Event<bool>>)
  {
    && (forall k :: k in m ==> m[k] == (|Group(events, k)|, CountTrue(Group(events, k))) && m[k].0 > 0)
    && (forall k :: k !in m ==> Group(events, k) == [])
  }

  function Count(m: map<Key, (int, int)>, key: Key, positive: bool): (r: map<Key, (int, int)>)
  {
    var old' := if key in m then m[key] else (0, 0);
    m[key := (old'.0 + 1, old'.1 + if positive then 1 else 0)]
  }

  lemma CountingKeepsCounted(m: map<Key, (int, int)>, events: seq<Event<bool>>, key: Key, positive: bool)
    requires Counted(m, events)
    ensures Counted(Count(m, key, positive), events + [Event(key, positive)])
  {
    hide CountTrue, Group;
    var group := Group(events, key);
    CountOneMore(group, positive);
    forall k ensures Group(events + [Event(key, positive)], k) == if key == k then group + [positive] else Group(events, k) {
      GroupOfOneMore(events, Event(key, positive), k);
    }
  }

  lemma CountOneMore(s: seq<bool>, b: bool)
    ensures CountTrue(s + [b]) == CountTrue(s) + if b then 1 else 0
  {
    assert (s + [b])[..|s|] == s;
  }

  // ----- the events of the rows

  function Clamp(q: Query, segment: Segment): (p: Interval)
  {
    (if segment.started > q.start then segment.started else q.start,
     if segment.finished < q.stop then segment.finished else q.stop)
  }

  function ReceiverEvents(receivers: seq<string>, p: Interval): (r: seq<Event<Interval>>)
    ensures |r| == |receivers|
    ensures forall i :: 0 <= i < |r| ==> r[i] == Event(("lnb", receivers[i]), p)
  {
    seq(|receivers|, i requires 0 <= i < |receivers| => Event(("lnb", receivers[i]), p))
  }

  function SegmentEvents(q: Query, row: Row, segment: Segment): (r: seq<Event<Interval>>)
  {
    var p := Clamp(q, segment);
    if p.1 <= p.0 then [] else [Event(("radio", row.radioId), p)] + ReceiverEvents(segment.receivers, p)
  }

  function SegmentsEvents(q: Query, row: Row, segments: seq<Segment>): (r: seq<Event<Interval>>)
  {
    if segments == [] then []
    else SegmentsEvents(q, row, segments[..|segments| - 1]) + SegmentEvents(q, row, segments[|segments| - 1])
  }

  function RowsEvents(q: Query, rows: seq<Row>): (r: seq<Event<Interval>>)
  {
    if rows == [] then []
    else
      var row := rows[|rows| - 1];
      RowsEvents(q, rows[..|rows| - 1]) + SegmentsEvents(q, row, row.segments)
  }

  lemma SegmentEventMeaning(q: Query, row: Row, segment: Segment, e: Event<Interval>)
    ensures e in SegmentEvents(q, row, segment)
            <==> e.value == Clamp(q, segment) && e.value.0 < e.value.1 && Names(row, segment, e.key)
  {
    var p := Clamp(q, segment);
    var r := ReceiverEvents(segment.receivers, p);
    if e.value == p && e.key.0 == "lnb" && e.key.1 in segment.receivers {
      var i :| 0 <= i < |segment.receivers| && segment.receivers[i] == e.key.1;
      assert r[i] == e;
    }
  }

  lemma {:induction false} SegmentsEventMeaning(q: Query, row: Row, segments: seq<Segment>, e: Event<Interval>)
    ensures e in SegmentsEvents(q, row, segments) <==> exists s :: s in segments && e in SegmentEvents(q, row, s)
  {
    hide SegmentEvents;
    if segments != [] {
      var n := |segments| - 1;
      SegmentsEventMeaning(q, row, segments[..n], e);
      forall s ensures s in segments <==> s in segments[..n] || s == segments[n] {
        assert segments == segments[..n] + [segments[n]];
      }
    }
  }

  lemma {:induction false} RowsEventMeaning(q: Query, rows: seq<Row>, e: Event<Interval>)
    ensures e in RowsEvents(q, rows) <==> exists row :: row in rows && e in SegmentsEvents(q, row, row.segments)
  {
    if rows != [] {
      var n := |rows| - 1;
      RowsEventMeaning(q, rows[..n], e);
      assert rows == rows[..n] + [rows[n]];
    }
  }

  /** Score strictly above control is a candidate, filed under receiver, edge and method. */
  function MethodEvents(methods: seq<Method>): (r: seq<Event<bool>>)
  {
    if methods == [] then []
    else
      var m := methods[|methods| - 1];
      MethodEvents(methods[..|methods| - 1])
      + [Event(("lnb", m.receiver), m.score > m.controlScore),
         Event(("edge", m.edge), m.score > m.controlScore),
         Event(("method", m.name), m.score > m.controlScore)]
  }

  function RowComparisons(row: Row): (r: seq<Event<bool>>)
  {
    if row.suite.Some? then MethodEvents(row.suite.value.methods) else []
  }

  function Comparisons(rows: seq<Row>): (r: seq<Event<bool>>)
  {
    if rows == [] then [] else Comparisons(rows[..|rows| - 1]) + RowComparisons(rows[|rows| - 1])
  }

  /** Clamped intervals filed under a key cover exactly its activity inside the query. */
  lemma GroupedIntervalsCoverActivity(q: Query, rows: seq<Row>, key: Key)
    ensures Covered(Group(RowsEvents(q, rows), key)) == ActiveNs(q, rows, key)
    ensures Proper(Group(RowsEvents(q, rows), key))
    ensures Group(RowsEvents(q, rows), key) == [] <==> ActiveNs(q, rows, key) == {}
  {
    var events := RowsEvents(q, rows);
    var group := Group(events, key);
    CoveredPoints(group);
    forall t ensures Covers(group, t) <==> t in ActiveNs(q, rows, key) {
      if Covers(group, t) {
        var p :| p in group && p.0 <= t < p.1;
        GroupMembers(events, key, p);
        EventIsActivity(q, rows, Event(key, p), t);
      }
      if t in ActiveNs(q, rows, key) {
        var p := ActivityIsEvent(q, rows, key, t);
        GroupMembers(events, key, p);
      }
    }
    forall p | p in group ensures p.0 < p.1 {
      GroupMembers(events, key, p);
      EventIsActivity(q, rows, Event(key, p), p.0);
    }
    if group != [] {
      assert group[0] in group && Covers(group, group[0].0);
    }
  }

  lemma EventIsActivity(q: Query, rows: seq<Row>, e: Event<Interval>, t: int)
    requires e in RowsEvents(q, rows)
    ensures e.value.0 < e.value.1
    ensures e.value.0 <= t < e.value.1 ==> t in ActiveNs(q, rows, e.key)
  {
    RowsEventMeaning(q, rows, e);
    var row :| row in rows && e in SegmentsEvents(q, row, row.segments);
    SegmentsEventMeaning(q, row, row.segments, e);
    var segment :| segment in row.segments && e in SegmentEvents(q, row, segment);
    SegmentEventMeaning(q, row, segment, e);
  }

  lemma ActivityIsEvent(q: Query, rows: seq<Row>, key: Key, t: int) returns (p: Interval)
    requires t in ActiveNs(q, rows, key)
    ensures Event(key, p) in RowsEvents(q, rows) && p.0 <= t < p.1
  {
    var row, segment :| row in rows && segment in row.segments
      && Names(row, segment, key) && segment.started <= t < segment.finished;
    p := Clamp(q, segment);
    SegmentEventMeaning(q, row, segment, Event(key, p));
    SegmentsEventMeaning(q, row, row.segments, Event(key, p));
    RowsEventMeaning(q, rows, Event(key, p));
  }

  lemma ActivityIsBounded(q: Query, rows: seq<Row>, key: Key)
    requires q.start < q.stop
    ensures |ActiveNs(q, rows, key)| <= q.stop - q.start
  {
    SpanSize(q.start, q.stop);
    Numbers.SubsetSize(ActiveNs(q, rows, key), Span(q.start, q.stop));
  }

  // ----- ascending keys, as `sorted` over the items of a dictionary gives them

  predicate KeyLess(a: Key, b: Key)
  {
    Text.Less(a.0, b.0) || (a.0 == b.0 && Text.Less(a.1, b.1))
  }

  predicate KeyLeq(a: Key, b: Key)
  {
    a == b || KeyLess(a, b)
  }

  lemma KeyOrder()
    ensures Lists.TotalPreorder(KeyLeq)
    ensures forall a :: !KeyLess(a, a)
  {
    Text.LessIsStrictTotalOrder();
  }

  ghost predicate Ascending(keys: seq<Key>)
  {
    forall i, j :: 0 <= i < j < |keys| ==> KeyLess(keys[i], keys[j])
  }

  method SortedKeys(keys: set<Key>) returns (r: seq<Key>)
    ensures forall k :: k in r <==> k in keys
    ensures Ascending(r)
  {
    KeyOrder();
    var left := keys;
    r := [];
    while left != {}
      invariant left <= keys
      invariant forall k :: k in r <==> k in keys - left
      invariant Ascending(r)
      decreases |left|
    {
      var k := Lists.Pick(left);
      left := left - {k};
      InsertNewKey(k, r);
      r := Lists.Insert(KeyLeq, k, r);
    }
  }

  lemma {:induction false} InsertNewKey(k: Key, s: seq<Key>)
    requires Ascending(s) && k !in s
    ensures Ascending(Lists.Insert(KeyLeq, k, s))
    ensures forall x :: x in Lists.Insert(KeyLeq, k, s) <==> x == k || x in s
  {
    KeyOrder();
    if s != [] {
      assert s == [s[0]] + s[1..];
      if KeyLeq(k, s[0]) {
        assert forall j :: 0 <= j < |s| ==> KeyLeq(s[0], s[j]);
        assert forall j :: 0 <= j < |s| ==> KeyLeq(k, s[j]) && s[j] in s;
      } else {
        InsertNewKey(k, s[1..]);
        var rest := Lists.Insert(KeyLeq, k, s[1..]);
        forall j | 0 <= j < |rest| ensures KeyLess(s[0], rest[j]) {
          assert rest[j] in rest;
        }
      }
    }
  }

  // ----- the aggregate

  function Ratio(part: int, whole: int): (r: real)
    requires 0 < whole
    ensures 0 <= part <= whole ==> 0.0 <= r <= 1.0
  {
    part as real / whole as real
  }

  ghost predicate DutyOf(q: Query, rows: seq<Row>, d: Duty)
  {
    && d.activeNs == |ActiveNs(q, rows, d.key)|
    && d.intervalNs == q.stop - q.start
    && 0 < d.activeNs <= d.intervalNs
    && d.dutyCycle == Ratio(d.activeNs, d.intervalNs)
    && 0.0 <= d.dutyCycle <= 1.0
  }

  ghost predicate EvidenceOf(rows: seq<Row>, e: Evidence)
  {
    var outcomes := Group(Comparisons(rows), e.key);
    && e.comparisons == |outcomes| && e.positives == CountTrue(outcomes)
    && 0 <= e.positives <= e.comparisons && 0 < e.comparisons
    && e.rate == Ratio(e.positives, e.comparisons)
    && 0.0 <= e.rate <= 1.0
  }

  /** One duty cycle for each active identity, in ascending order, and no other. */
  ghost predicate DutyList(q: Query, rows: seq<Row>, duty: seq<Duty>)
  {
    && (forall i, j :: 0 <= i < j < |duty| ==> KeyLess(duty[i].key, duty[j].key))
    && (forall d :: d in duty ==> DutyOf(q, rows, d))
    && (forall key :: ActiveNs(q, rows, key) != {} ==> exists d :: d in duty && d.key == key)
  }

  ghost predicate EvidenceList(rows: seq<Row>, evidence: seq<Evidence>)
  {
    && (forall i, j :: 0 <= i < j < |evidence| ==> KeyLess(evidence[i].key, evidence[j].key))
    && (forall e :: e in evidence ==> EvidenceOf(rows, e))
    && (forall key :: Group(Comparisons(rows), key) != [] ==> exists e :: e in evidence && e.key == key)
  }

  method DutyCycles(q: Query, ghost rows: seq<Row>, intervals: map<Key, seq<Interval>>) returns (duty: seq<Duty>)
    requires q.start < q.stop && Filed(intervals, RowsEvents(q, rows))
    ensures DutyList(q, rows, duty)
  {
    hide DutyOf, Group, RowsEvents;
    var keys := SortedKeys(intervals.Keys);
    duty := [];
    for i := 0 to |keys|
      invariant |duty| == i && forall j :: 0 <= j < i ==> duty[j].key == keys[j]
      invariant forall d :: d in duty ==> DutyOf(q, rows, d)
    {
      assert keys[i] in keys;
      var d := DutyCycle(q, rows, keys[i], intervals[keys[i]]);
      duty := duty + [d];
    }
    EveryActiveKeyIsListed(q, rows, intervals, keys, duty);
  }

  method DutyCycle(q: Query, ghost rows: seq<Row>, key: Key, ranges: seq<Interval>) returns (d: Duty)
    requires q.start < q.stop && ranges == Group(RowsEvents(q, rows), key) != []
    ensures d.key == key && DutyOf(q, rows, d)
  {
    hide Group, RowsEvents, ActiveNs, Proper, Covered;
    GroupedIntervalsCoverActivity(q, rows, key);
    ActivityIsBounded(q, rows, key);
    assert |ActiveNs(q, rows, key)| > 0;
    var activeNs := UnionDuration(ranges);
    d := Duty(key, activeNs, q.stop - q.start, Ratio(activeNs, q.stop - q.start));
  }

  lemma EveryActiveKeyIsListed(
    q: Query, rows: seq<Row>, intervals: map<Key, seq<Interval>>, keys: seq<Key>, duty: seq<Duty>)
    requires Filed(intervals, RowsEvents(q, rows)) && forall k :: k in keys <==> k in intervals.Keys
    requires |duty| == |keys| && forall j :: 0 <= j < |keys| ==> duty[j].key == keys[j]
    ensures forall key :: ActiveNs(q, rows, key) != {} ==> exists d :: d in duty && d.key == key
  {
    forall key | ActiveNs(q, rows, key) != {} ensures exists d :: d in duty && d.key == key {
      GroupedIntervalsCoverActivity(q, rows, key);
      assert key in keys;
      var j :| 0 <= j < |keys| && keys[j] == key;
      assert duty[j] in duty;
    }
  }

  method EvidenceRates(ghost rows: seq<Row>, counts: map<Key, (int, int)>) returns (evidence: seq<Evidence>)
    requires Counted(counts, Comparisons(rows))
    ensures EvidenceList(rows, evidence)
  {
    var keys := SortedKeys(counts.Keys);
    evidence := [];
    for i := 0 to |keys|
      invariant |evidence| == i && forall j :: 0 <= j < i ==> evidence[j].key == keys[j]
      invariant forall e :: e in evidence ==> EvidenceOf(rows, e)
    {
      assert keys[i] in keys;
      var (comparisons, positives) := counts[keys[i]];
      evidence := evidence + [Evidence(keys[i], comparisons, positives, Ratio(positives, comparisons))];
    }
    forall key | Group(Comparisons(rows), key) != [] ensures exists e :: e in evidence && e.key == key {
      assert key in keys;
      var j :| 0 <= j < |keys| && keys[j] == key;
      assert evidence[j] in evidence;
    }
  }

  method FileSegments(q: Query, row: Row, m: map<Key, seq<Interval>>, ghost events: seq<Event<Interval>>)
    returns (intervals: map<Key, seq<Interval>>)
    requires Filed(m, events)
    ensures Filed(intervals, events + SegmentsEvents(q, row, row.segments))
  {
    hide Filed, SegmentEvents;
    intervals := m;
    assert events + SegmentsEvents(q, row, []) == events;
    for i := 0 to |row.segments|
      invariant Filed(intervals, events + SegmentsEvents(q, row, row.segments[..i]))
    {
      assert row.segments[..i + 1][..i] == row.segments[..i];
      ghost var before := SegmentsEvents(q, row, row.segments[..i]);
      intervals := FileSegment(q, row, row.segments[i], intervals, events + before);
      assert events + (before + SegmentEvents(q, row, row.segments[i]))
          == (events + before) + SegmentEvents(q, row, row.segments[i]);
    }
    assert row.segments[..|row.segments|] == row.segments;
  }

  method FileSegment(
    q: Query, row: Row, segment: Segment, m: map<Key, seq<Interval>>, ghost events: seq<Event<Interval>>)
    returns (intervals: map<Key, seq<Interval>>)
    requires Filed(m, events)
    ensures Filed(intervals, events + SegmentEvents(q, row, segment))
  {
    var p := Clamp(q, segment);
    if p.1 <= p.0 {
      assert events + [] == events;
      return m;
    }
    ghost var filed := events + [Event(("radio", row.radioId), p)];
    FilingKeepsFiled(m, events, Event(("radio", row.radioId), p));
    intervals := File(m, Event(("radio", row.radioId), p));
    for j := 0 to |segment.receivers|
      invariant filed == events + ([Event(("radio", row.radioId), p)] + ReceiverEvents(segment.receivers, p)[..j])
      invariant Filed(intervals, filed)
    {
      ghost var e := Event(("lnb", segment.receivers[j]), p);
      FilingKeepsFiled(intervals, filed, e);
      intervals := File(intervals, Event(("lnb", segment.receivers[j]), p));
      filed := filed + [e];
    }
    assert ReceiverEvents(segment.receivers, p)[..|segment.receivers|] == ReceiverEvents(segment.receivers, p);
  }

  method CountMethods(methods: seq<Method>, m: map<Key, (int, int)>, ghost events: seq<Event<bool>>)
    returns (counts: map<Key, (int, int)>)
    requires Counted(m, events)
    ensures Counted(counts, events + MethodEvents(methods))
  {
    hide Counted, Count;
    counts := m;
    ghost var counted := events;
    for i := 0 to |methods|
      invariant counted == events + MethodEvents(methods[..i])
      invariant Counted(counts, counted)
    {
      assert methods[..i + 1][..i] == methods[..i];
      var positive := methods[i].score > methods[i].controlScore;
      var keys := [("lnb", methods[i].receiver), ("edge", methods[i].edge), ("method", methods[i].name)];
      for j := 0 to 3
        invariant counted == events + MethodEvents(methods[..i]) + seq(j, k requires 0 <= k < 3 => Event(keys[k], positive))
        invariant Counted(counts, counted)
      {
        CountingKeepsCounted(counts, counted, keys[j], positive);
        counts, counted := Count(counts, keys[j], positive), counted + [Event(keys[j], positive)];
      }
    }
    assert methods[..|methods|] == methods;
  }

  ghost predicate Summarizes(q: Query, rows: seq<Row>, v: View)
  {
    && v.total == |rows|
    && v.candidates == CountState(rows, Candidates)
    && v.notEvaluated == CountState(rows, NotEvaluated)
    && v.unavailable == CountState(rows, Unavailable)
    && v.candidates + v.notEvaluated + v.unavailable == v.total
    && DutyList(q, rows, v.duty)
    && EvidenceList(rows, v.evidence)
    && v.states == Lists.Take(States(rows), MAX_RECORDING_STATES)
    && (v.truncated <==> |v.states| < |rows|)
  }

  /** What the specification functions gain from the row at `i`. */
  lemma OneMoreRow(q: Query, rows: seq<Row>, i: nat)
    requires i < |rows|
    ensures RowsEvents(q, rows[..i + 1]) == RowsEvents(q, rows[..i]) + SegmentsEvents(q, rows[i], rows[i].segments)
    ensures Comparisons(rows[..i + 1]) == Comparisons(rows[..i]) + RowComparisons(rows[i])
  {
    assert rows[..i + 1][..i] == rows[..i];
  }

  /** The three state counters and the bounded list of states. */
  ghost predicate Tallied(
    rows: seq<Row>, candidates: int, notEvaluated: int, unavailable: int, states: seq<(string, StarlinkState)>)
  {
    && candidates == CountState(rows, Candidates)
    && notEvaluated == CountState(rows, NotEvaluated)
    && unavailable == CountState(rows, Unavailable)
    && candidates + notEvaluated + unavailable == |rows|
    && states == Lists.Take(States(rows), MAX_RECORDING_STATES)
  }

  lemma TalliedOneMore(
    rows: seq<Row>, row: Row, candidates: int, notEvaluated: int, unavailable: int,
    states: seq<(string, StarlinkState)>)
    requires Tallied(rows, candidates, notEvaluated, unavailable, states) && Supported(row)
    ensures Tallied(
              rows + [row], candidates + Numbers.Bit(State(row) == Candidates),
              notEvaluated + Numbers.Bit(State(row) == NotEvaluated), unavailable + Numbers.Bit(State(row) == Unavailable),
              if |states| < MAX_RECORDING_STATES then states + [(row.recordingId, State(row))] else states)
  {
    assert (rows + [row])[..|rows|] == rows;
    assert States(rows + [row]) == States(rows) + [(row.recordingId, State(row))];
  }

  method TallyStates(rows: seq<Row>)
    returns (candidates: int, notEvaluated: int, unavailable: int, states: seq<(string, StarlinkState)>)
    requires forall row :: row in rows ==> Supported(row)
    ensures Tallied(rows, candidates, notEvaluated, unavailable, states)
  {
    candidates, notEvaluated, unavailable, states := 0, 0, 0, [];
    ghost var seen := [];
    for i := 0 to |rows|
      invariant seen == rows[..i]
      invariant Tallied(seen, candidates, notEvaluated, unavailable, states)
    {
      TalliedOneMore(seen, rows[i], candidates, notEvaluated, unavailable, states);
      seen := seen + [rows[i]];
      match State(rows[i]) {
        case Candidates => candidates := candidates + 1;
        case NotEvaluated => notEvaluated := notEvaluated + 1;
        case _ => unavailable := unavailable + 1;
      }
      if |states| < MAX_RECORDING_STATES {
        states := states + [(rows[i].recordingId, State(rows[i]))];
      }
    }
    assert rows[..|rows|] == rows;
  }

  lemma NothingFiled(q: Query)
    ensures RowsEvents(q, []) == [] && Comparisons([]) == []
    ensures Filed<Interval>(map[], []) && Counted(map[], [])
  {
  }

  method FileRow(
    q: Query, row: Row, intervals0: map<Key, seq<Interval>>, counts0: map<Key, (int, int)>,
    ghost events: seq<Event<Interval>>, ghost comparisons: seq<Event<bool>>)
    returns (r: Result<(map<Key, seq<Interval>>, map<Key, (int, int)>), AggregateError>)
    requires Filed(intervals0, events) && Counted(counts0, comparisons)
    ensures r.Ok? <==> Supported(row)
    ensures r.Err? ==> Refuses(row, r.error)
    ensures r.Ok? ==> Filed(r.value.0, events + SegmentsEvents(q, row, row.segments))
    ensures r.Ok? ==> Counted(r.value.1, comparisons + RowComparisons(row))
  {
    hide Filed, Counted, SegmentsEvents, MethodEvents;
    var intervals := FileSegments(q, row, intervals0, events);
    if row.suite.None? {
      assert comparisons + [] == comparisons;
      return Ok((intervals, counts0));
    }
    if !row.suite.value.state.Candidates? && !row.suite.value.state.NotEvaluated? {
      return Err(UnsupportedState);
    }
    if row.suite.value.detections {
      return Err(DeclaresDetections);
    }
    var counts := CountMethods(row.suite.value.methods, counts0, comparisons);
    r := Ok((intervals, counts));
  }

  method FileRows(q: Query, rows: seq<Row>)
    returns (r: Result<(map<Key, seq<Interval>>, map<Key, (int, int)>), AggregateError>)
    ensures r.Ok? <==> forall row :: row in rows ==> Supported(row)
    ensures r.Err? ==> FirstRefusal(rows, r.error)
    ensures r.Ok? ==> Filed(r.value.0, RowsEvents(q, rows)) && Counted(r.value.1, Comparisons(rows))
  {
    hide Filed, Counted, SegmentsEvents, RowComparisons, RowsEvents, Comparisons, Supported, Refuses;
    var intervals, counts := map[], map[];
    NothingFiled(q);
    for i := 0 to |rows|
      invariant forall j :: 0 <= j < i ==> Supported(rows[j])
      invariant Filed(intervals, RowsEvents(q, rows[..i]))
      invariant Counted(counts, Comparisons(rows[..i]))
    {
      OneMoreRow(q, rows, i);
      var filed := FileRow(q, rows[i], intervals, counts, RowsEvents(q, rows[..i]), Comparisons(rows[..i]));
      if filed.Err? {
        return Err(filed.error);
      }
      intervals, counts := filed.value.0, filed.value.1;
    }
    assert rows[..|rows|] == rows;
    r := Ok((intervals, counts));
  }

  // ----- the figures on the columns of the rows

  predicate ComparedUnder(m: Method, key: Key)
  {
    key == ("lnb", m.receiver) || key == ("edge", m.edge) || key == ("method", m.name)
  }

  /** Compared under `key`, or compared and scored above its control. */
  predicate Counts(m: Method, key: Key, above: bool)
  {
    ComparedUnder(m, key) && (above ==> m.score > m.controlScore)
  }

  function ComparedAt(methods: seq<Method>, key: Key, above: bool): (r: set<int>)
  {
    set j | 0 <= j < |methods| && Counts(methods[j], key, above)
  }

  function Methods(row: Row): (r: seq<Method>)
  {
    if row.suite.Some? then row.suite.value.methods else []
  }

  /** The comparisons of all rows under a key, by row and position. */
  function ComparisonsAt(rows: seq<Row>, key: Key, above: bool): (r: set<(int, int)>)
  {
    set i, j | 0 <= i < |rows| && 0 <= j < |Methods(rows[i])| && Counts(Methods(rows[i])[j], key, above) :: (i, j)
  }

  lemma {:induction false} GroupOfConcatenation<V>(a: seq<Event<V>>, b: seq<Event<V>>, key: Key)
    ensures Group(a + b, key) == Group(a, key) + Group(b, key)
  {
    if b == [] {
      assert a + b == a;
    } else {
      var n := |b| - 1;
      GroupOfConcatenation(a, b[..n], key);
      assert a + b == (a + b[..n]) + [b[n]];
      GroupOfOneMore(a + b[..n], b[n], key);
    }
  }

  lemma {:induction false} TruesOfConcatenation(a: seq<bool>, b: seq<bool>)
    ensures CountTrue(a + b) == CountTrue(a) + CountTrue(b)
  {
    if b == [] {
      assert a + b == a;
    } else {
      var n := |b| - 1;
      TruesOfConcatenation(a, b[..n]);
      assert a + b == (a + b[..n]) + [b[n]];
      CountOneMore(a + b[..n], b[n]);
    }
  }

  /** One method is compared at most once under a key. */
  lemma GroupOfMethod(m: Method, key: Key)
    ensures Group(MethodEvents([m]), key) == if ComparedUnder(m, key) then [m.score > m.controlScore] else []
  {
    var positive := m.score > m.controlScore;
    var a, b, c := Event(("lnb", m.receiver), positive), Event(("edge", m.edge), positive),
                   Event(("method", m.name), positive);
    assert MethodEvents([m]) == (([] + [a]) + [b]) + [c];
    GroupOfOneMore([], a, key);
    GroupOfOneMore([] + [a], b, key);
    GroupOfOneMore(([] + [a]) + [b], c, key);
  }

  lemma {:induction false} MethodsAreCompared(methods: seq<Method>, key: Key)
    ensures |Group(MethodEvents(methods), key)| == |ComparedAt(methods, key, false)|
    ensures CountTrue(Group(MethodEvents(methods), key)) == |ComparedAt(methods, key, true)|
  {
    hide Group, ComparedUnder, ComparedAt, MethodEvents;
    if methods == [] {
      NothingCompared(key);
    } else {
      var n := |methods| - 1;
      var rest, m := methods[..n], methods[n];
      MethodsAreCompared(rest, key);
      GroupOfMethod(m, key);
      EventsOneMore(rest, m);
      GroupOfConcatenation(MethodEvents(rest), MethodEvents([m]), key);
      TruesOfConcatenation(Group(MethodEvents(rest), key), Group(MethodEvents([m]), key));
      ComparedOneMore(rest, m, key, false);
      ComparedOneMore(rest, m, key, true);
      TruesOfOne(m.score > m.controlScore);
      assert methods == rest + [m];
    }
  }

  lemma EventsOneMore(rest: seq<Method>, m: Method)
    ensures MethodEvents(rest + [m]) == MethodEvents(rest) + MethodEvents([m])
  {
    assert (rest + [m])[..|rest|] == rest;
  }

  lemma TruesOfOne(b: bool)
    ensures CountTrue([]) == 0 && CountTrue([b]) == Numbers.Bit(b)
  {
    assert [b] == [] + [b];
    CountOneMore([], b);
  }

  lemma ComparedOneMore(rest: seq<Method>, m: Method, key: Key, above: bool)
    ensures |ComparedAt(rest + [m], key, above)| == |ComparedAt(rest, key, above)| + Numbers.Bit(Counts(m, key, above))
  {
    hide Counts;
    var more := if Counts(m, key, above) then {|rest|} else {};
    assert ComparedAt(rest + [m], key, above) == ComparedAt(rest, key, above) + more;
  }

  function PairedWith<T>(i: int, js: set<T>): (r: set<(int, T)>)
  {
    set j | j in js :: (i, j)
  }

  lemma {:induction false} PairedSize<T>(i: int, js: set<T>)
    ensures |PairedWith(i, js)| == |js|
  {
    if js != {} {
      var x :| x in js;
      PairedSize(i, js - {x});
      assert PairedWith(i, js) == PairedWith(i, js - {x}) + {(i, x)};
    }
  }

  lemma ComparisonsOneMore(rows: seq<Row>, row: Row, key: Key, above: bool)
    ensures |ComparisonsAt(rows + [row], key, above)|
            == |ComparisonsAt(rows, key, above)| + |ComparedAt(Methods(row), key, above)|
  {
    hide ComparisonsAt, ComparedAt, Counts, Methods;
    var js := ComparedAt(Methods(row), key, above);
    var added := PairedWith(|rows|, js);
    PairedSize(|rows|, js);
    forall p: (int, int)
      ensures p in ComparisonsAt(rows + [row], key, above) <==> p in ComparisonsAt(rows, key, above) + added
      ensures !(p in ComparisonsAt(rows, key, above) && p in added)
    {
      ComparisonMember(rows, key, above, p);
      ComparisonMember(rows + [row], key, above, p);
      ComparedMember(Methods(row), key, above, p.1);
      assert p in added <==> p.0 == |rows| && p.1 in js;
    }
    assert ComparisonsAt(rows, key, above) !! added;
    assert ComparisonsAt(rows + [row], key, above) == ComparisonsAt(rows, key, above) + added;
  }

  lemma ComparisonMember(rows: seq<Row>, key: Key, above: bool, p: (int, int))
    ensures p in ComparisonsAt(rows, key, above) <==>
      0 <= p.0 < |rows| && 0 <= p.1 < |Methods(rows[p.0])| && Counts(Methods(rows[p.0])[p.1], key, above)
  {
    hide Counts, Methods;
    assert p == (p.0, p.1);
  }

  lemma ComparedMember(methods: seq<Method>, key: Key, above: bool, j: int)
    ensures j in ComparedAt(methods, key, above) <==> 0 <= j < |methods| && Counts(methods[j], key, above)
  {
  }

  lemma {:induction false} ComparisonsAreCounted(rows: seq<Row>, key: Key)
    ensures |Group(Comparisons(rows), key)| == |ComparisonsAt(rows, key, false)|
    ensures CountTrue(Group(Comparisons(rows), key)) == |ComparisonsAt(rows, key, true)|
  {
    hide Group, Counts, ComparedUnder, ComparedAt, ComparisonsAt, MethodEvents, CountTrue;
    if rows == [] {
      MethodsAreCompared([], key);
      NothingCompared(key);
    } else {
      var n := |rows| - 1;
      var rest, row := rows[..n], rows[n];
      ComparisonsAreCounted(rest, key);
      NothingCompared(key);
      assert RowComparisons(row) == MethodEvents(Methods(row));
      MethodsAreCompared(Methods(row), key);
      GroupOfConcatenation(Comparisons(rest), MethodEvents(Methods(row)), key);
      TruesOfConcatenation(Group(Comparisons(rest), key), Group(MethodEvents(Methods(row)), key));
      ComparisonsOneMore(rest, row, key, false);
      ComparisonsOneMore(rest, row, key, true);
      assert rows == rest + [row];
    }
  }

  lemma NothingCompared(key: Key)
    ensures MethodEvents([]) == Comparisons([]) == [] && Group<bool>([], key) == [] && CountTrue([]) == 0
    ensures ComparedAt([], key, false) == ComparedAt([], key, true) == {}
    ensures ComparisonsAt([], key, false) == ComparisonsAt([], key, true) == {}
  {
  }

  /** Every evidence row counts the comparisons made under its identity and those won, and gives their ratio. */
  lemma EvidenceByFields(rows: seq<Row>, v: View, q: Query)
    requires Summarizes(q, rows, v)
    ensures forall k :: 0 <= k < |v.evidence| ==>
      && v.evidence[k].comparisons == |ComparisonsAt(rows, v.evidence[k].key, false)| > 0
      && v.evidence[k].positives == |ComparisonsAt(rows, v.evidence[k].key, true)|
      && v.evidence[k].rate * v.evidence[k].comparisons as real == v.evidence[k].positives as real
    ensures forall i, j, key :: (i, j) in ComparisonsAt(rows, key, false) ==> exists e :: e in v.evidence && e.key == key
    ensures forall k, l :: 0 <= k < l < |v.evidence| ==>
      Text.Less(v.evidence[k].key.0, v.evidence[l].key.0)
      || (v.evidence[k].key.0 == v.evidence[l].key.0 && Text.Less(v.evidence[k].key.1, v.evidence[l].key.1))
  {
    hide Group, ComparisonsAt, CountTrue;
    forall k | 0 <= k < |v.evidence|
      ensures && v.evidence[k].comparisons == |ComparisonsAt(rows, v.evidence[k].key, false)| > 0
              && v.evidence[k].positives == |ComparisonsAt(rows, v.evidence[k].key, true)|
              && v.evidence[k].rate * v.evidence[k].comparisons as real == v.evidence[k].positives as real
    {
      assert v.evidence[k] in v.evidence;
      ComparisonsAreCounted(rows, v.evidence[k].key);
      RatioUndone(v.evidence[k].positives, v.evidence[k].comparisons);
    }
    forall i, j, key | (i, j) in ComparisonsAt(rows, key, false) ensures exists e :: e in v.evidence && e.key == key {
      ComparisonsAreCounted(rows, key);
    }
  }

  lemma RatioUndone(part: int, whole: int)
    requires 0 < whole
    ensures Ratio(part, whole) * whole as real == part as real
  {
  }

  /** Every duty cycle is the share of nanoseconds in which some segment of its radio or receiver ran. */
  lemma DutyByFields(rows: seq<Row>, v: View, q: Query)
    requires Summarizes(q, rows, v)
    ensures forall k :: 0 <= k < |v.duty| ==>
      && v.duty[k].activeNs == |ActiveNs(q, rows, v.duty[k].key)| > 0
      && v.duty[k].dutyCycle * (q.stop - q.start) as real == v.duty[k].activeNs as real
      && v.duty[k].intervalNs == q.stop - q.start
    ensures forall t, key :: t in ActiveNs(q, rows, key) <==>
      && q.start <= t < q.stop
      && exists i, j :: 0 <= i < |rows| && 0 <= j < |rows[i].segments| && RunsAt(rows[i], rows[i].segments[j], key, t)
    ensures forall t, key :: t in ActiveNs(q, rows, key) ==> exists d :: d in v.duty && d.key == key
    ensures forall k, l :: 0 <= k < l < |v.duty| ==>
      Text.Less(v.duty[k].key.0, v.duty[l].key.0)
      || (v.duty[k].key.0 == v.duty[l].key.0 && Text.Less(v.duty[k].key.1, v.duty[l].key.1))
  {
    forall k | 0 <= k < |v.duty|
      ensures && v.duty[k].activeNs == |ActiveNs(q, rows, v.duty[k].key)| > 0
              && v.duty[k].dutyCycle * (q.stop - q.start) as real == v.duty[k].activeNs as real
              && v.duty[k].intervalNs == q.stop - q.start
    {
      assert v.duty[k] in v.duty;
      RatioUndone(v.duty[k].activeNs, q.stop - q.start);
    }
    forall t, key ensures t in ActiveNs(q, rows, key) <==>
      && q.start <= t < q.stop
      && exists i, j :: 0 <= i < |rows| && 0 <= j < |rows[i].segments| && RunsAt(rows[i], rows[i].segments[j], key, t)
    {
      ActiveBySegments(q, rows, key, t);
    }
  }

  predicate RunsAt(row: Row, segment: Segment, key: Key, t: int)
  {
    && segment.started <= t < segment.finished
    && (key == ("radio", row.radioId) || exists r :: r in segment.receivers && key == ("lnb", r))
  }

  lemma ActiveBySegments(q: Query, rows: seq<Row>, key: Key, t: int)
    ensures Active(rows, key, t) <==>
      exists i, j :: 0 <= i < |rows| && 0 <= j < |rows[i].segments| && RunsAt(rows[i], rows[i].segments[j], key, t)
  {
    if Active(rows, key, t) {
      var row, segment :| row in rows && segment in row.segments
        && Names(row, segment, key) && segment.started <= t < segment.finished;
      var i :| 0 <= i < |rows| && rows[i] == row;
      var j :| 0 <= j < |row.segments| && row.segments[j] == segment;
      assert key.0 == "lnb" ==> key == ("lnb", key.1);
      assert RunsAt(rows[i], rows[i].segments[j], key, t);
    }
    forall i, j | 0 <= i < |rows| && 0 <= j < |rows[i].segments| && RunsAt(rows[i], rows[i].segments[j], key, t)
      ensures Active(rows, key, t)
    {
      assert rows[i] in rows && rows[i].segments[j] in rows[i].segments;
      assert Names(rows[i], rows[i].segments[j], key);
    }
  }

  function RowsIn(rows: seq<Row>, state: StarlinkState): (r: set<int>)
  {
    set i | 0 <= i < |rows| && IsIn(rows[i], state)
  }

  predicate IsIn(row: Row, state: StarlinkState)
  {
    if state == Unavailable then row.suite.None? else row.suite.Some? && row.suite.value.state == state
  }

  lemma {:induction false} StatesAreCounted(rows: seq<Row>, state: StarlinkState)
    requires forall row :: row in rows ==> Supported(row)
    ensures CountState(rows, state) == |RowsIn(rows, state)|
  {
    if rows != [] {
      var n := |rows| - 1;
      StatesAreCounted(rows[..n], state);
      assert rows[n] in rows;
      RowsInOneMore(rows, n, state);
    }
  }

  lemma RowsInOneMore(rows: seq<Row>, n: nat, state: StarlinkState)
    requires n + 1 == |rows| && Supported(rows[n])
    ensures |RowsIn(rows, state)| == |RowsIn(rows[..n], state)| + Numbers.Bit(State(rows[n]) == state)
  {
    assert State(rows[n]) == state <==> IsIn(rows[n], state);
    RowsInLast(rows, n, state);
  }

  lemma RowsInLast(rows: seq<Row>, n: nat, state: StarlinkState)
    requires n + 1 == |rows|
    ensures |RowsIn(rows, state)| == |RowsIn(rows[..n], state)| + Numbers.Bit(IsIn(rows[n], state))
  {
    hide IsIn;
    var added := if IsIn(rows[n], state) then {n} else {};
    assert RowsIn(rows, state) == RowsIn(rows[..n], state) + added;
  }

  /** Each recording is counted under its own state, and the first ten thousand are listed in order. */
  lemma StatesByFields(rows: seq<Row>, v: View, q: Query)
    requires Summarizes(q, rows, v) && forall row :: row in rows ==> Supported(row)
    ensures v.candidates == |RowsIn(rows, Candidates)|
    ensures v.notEvaluated == |RowsIn(rows, NotEvaluated)|
    ensures v.unavailable == |RowsIn(rows, Unavailable)|
    ensures v.total == |rows| && |v.states| == (if |rows| < 10_000 then |rows| else 10_000)
    ensures v.truncated <==> |rows| > 10_000
    ensures forall i :: 0 <= i < |v.states| ==>
      && v.states[i].0 == rows[i].recordingId
      && i in RowsIn(rows, v.states[i].1)
  {
    StatesAreCounted(rows, Candidates);
    StatesAreCounted(rows, NotEvaluated);
    StatesAreCounted(rows, Unavailable);
    forall i | 0 <= i < |v.states| ensures i in RowsIn(rows, v.states[i].1) {
      assert rows[i] in rows;
    }
  }

  /** The view exists exactly when every row is supported, and then every figure in it is exact. */
  method Aggregate(q: Query, rows: seq<Row>) returns (r: Result<View, AggregateError>)
    requires q.start < q.stop
    ensures r.Ok? <==> forall row :: row in rows ==> Supported(row)
    ensures r.Err? ==> FirstRefusal(rows, r.error)
    ensures r.Ok? ==> Summarizes(q, rows, r.value)
  {
    var filed := FileRows(q, rows);
    if filed.Err? {
      return Err(filed.error);
    }
    var candidates, notEvaluated, unavailable, states := TallyStates(rows);
    var duty := DutyCycles(q, rows, filed.value.0);
    var evidence := EvidenceRates(rows, filed.value.1);
    r := Ok(View(|rows|, candidates, notEvaluated, unavailable, duty, evidence, states,
                 |rows| > MAX_RECORDING_STATES));
  }
}
