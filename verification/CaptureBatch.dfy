/** Two-radio capture batches: immutable intent, and a snapshot reduced from terminal outcomes. */
module CaptureBatch {
  import opened Outcomes
  import Text

  datatype Attempt = Attempt(attemptId: string, radioId: string, planId: string)

  /** `terms` stands for the mode, the skew bound and the requested starts. */
  datatype Definition = Definition(batchId: string, attempts: seq<Attempt>, terms: string)

  /** `facts` stands for the terminal state and its times. */
  datatype Outcome = Outcome(
    batchId: string, attemptId: string, radioId: string, planId: string, recording: Option<string>, facts: string)

  datatype Snapshot = Snapshot(definition: Definition, outcomes: seq<Outcome>, revision: int)

  predicate ValidDefinition(d: Definition)
  {
    && |d.attempts| == 2
    && Text.Less(d.attempts[0].attemptId, d.attempts[1].attemptId)
    && d.attempts[0].attemptId != d.attempts[1].attemptId
    && d.attempts[0].radioId != d.attempts[1].radioId
    && d.attempts[0].planId != d.attempts[1].planId
  }

  /** The position of an attempt in the definition, or 2 when it is not expected. */
  function Index(d: Definition, attemptId: string): (i: nat)
    requires |d.attempts| == 2
  {
    if attemptId == d.attempts[0].attemptId then 0 else if attemptId == d.attempts[1].attemptId then 1 else 2
  }

  predicate Fits(d: Definition, o: Outcome)
    requires |d.attempts| == 2
  {
    && Index(d, o.attemptId) < 2
    && o.batchId == d.batchId
    && o.radioId == d.attempts[Index(d, o.attemptId)].radioId
    && o.planId == d.attempts[Index(d, o.attemptId)].planId
  }

  predicate Valid(s: Snapshot)
  {
    && ValidDefinition(s.definition)
    && s.revision == |s.outcomes|
    && (forall o :: o in s.outcomes ==> Fits(s.definition, o))
    && (forall i, j :: 0 <= i < j < |s.outcomes| ==>
          && Index(s.definition, s.outcomes[i].attemptId) < Index(s.definition, s.outcomes[j].attemptId)
          && (s.outcomes[i].recording.Some? ==> s.outcomes[i].recording != s.outcomes[j].recording))
  }

  /** Two expected attempts, each with one outcome at most: revisions never pass 2. */
  lemma RevisionsStopAtTwo(s: Snapshot)
    requires Valid(s)
    ensures 0 <= s.revision <= 2
    ensures s.revision == 2 ==>
      s.outcomes[0].attemptId == s.definition.attempts[0].attemptId
      && s.outcomes[1].attemptId == s.definition.attempts[1].attemptId
  {
    forall i | 0 <= i < |s.outcomes| ensures Fits(s.definition, s.outcomes[i]) {
      assert s.outcomes[i] in s.outcomes;
    }
    if |s.outcomes| > 2 {
      IndicesClimb(s, 0, 1);
      IndicesClimb(s, 1, 2);
    } else if |s.outcomes| == 2 {
      IndicesClimb(s, 0, 1);
    }
  }

  lemma IndicesClimb(s: Snapshot, i: nat, j: nat)
    requires Valid(s) && i < |s.outcomes| && j < |s.outcomes|
    ensures i < j ==> Index(s.definition, s.outcomes[i].attemptId) < Index(s.definition, s.outcomes[j].attemptId)
  {
  }

  datatype RecordError = DifferentOutcome | NotExpected | InvalidSnapshot

  /** `sorted` by expected position, given outcomes already in that order. */
  function Place(d: Definition, outcomes: seq<Outcome>, o: Outcome): (r: seq<Outcome>)
    requires |d.attempts| == 2
  {
    if outcomes == [] then [o]
    else if Index(d, o.attemptId) < Index(d, outcomes[0].attemptId) then [o] + outcomes
    else [outcomes[0]] + Place(d, outcomes[1..], o)
  }

  function Find(outcomes: seq<Outcome>, attemptId: string): (r: Option<Outcome>)
    ensures r.Some? ==> r.value in outcomes && r.value.attemptId == attemptId
    ensures r.None? ==> forall o :: o in outcomes ==> o.attemptId != attemptId
  {
    if outcomes == [] then None
    else if outcomes[0].attemptId == attemptId then Some(outcomes[0])
    else Find(outcomes[1..], attemptId)
  }

  /** Adds one terminal outcome; repeating the same outcome changes nothing. */
  function Record(s: Snapshot, o: Outcome): (r: Result<Snapshot, RecordError>)
    requires Valid(s)
  {
    var current := Find(s.outcomes, o.attemptId);
    if current.Some? then
      if current.value == o then Ok(s) else Err(DifferentOutcome)
    else if Index(s.definition, o.attemptId) == 2 then Err(NotExpected)
    else
      var s' := Snapshot(s.definition, Place(s.definition, s.outcomes, o), s.revision + 1);
      if Valid(s') then Ok(s') else Err(InvalidSnapshot)
  }

  /** The later snapshot keeps the intent and every outcome, and differs only by having more of them. */
  ghost predicate Grows(a: Snapshot, b: Snapshot)
  {
    && Valid(a) && Valid(b) && a.definition == b.definition && a.revision <= b.revision
    && (forall o :: o in a.outcomes ==> o in b.outcomes)
    && (a.revision == b.revision ==> a == b)
  }

  lemma {:induction false} PlaceAddsOne(d: Definition, outcomes: seq<Outcome>, o: Outcome)
    requires |d.attempts| == 2
    ensures |Place(d, outcomes, o)| == |outcomes| + 1
    ensures forall x :: x in Place(d, outcomes, o) <==> x in outcomes || x == o
  {
    if outcomes != [] {
      PlaceAddsOne(d, outcomes[1..], o);
      assert outcomes == [outcomes[0]] + outcomes[1..];
    }
  }

  /** Recording either changes nothing or adds exactly the outcome, one revision up. */
  lemma RecordGrows(s: Snapshot, o: Outcome)
    requires Valid(s) && Record(s, o).Ok?
    ensures var s' := Record(s, o).value;
            && Grows(s, s') && o in s'.outcomes
            && (s' == s || s'.revision == s.revision + 1)
            && forall x :: x in s'.outcomes ==> x in s.outcomes || x == o
  {
    PlaceAddsOne(s.definition, s.outcomes, o);
  }

  lemma GrowsIsTransitive(a: Snapshot, b: Snapshot, c: Snapshot)
    requires Grows(a, b) && Grows(b, c)
    ensures Grows(a, c)
  {
  }

  /** Two outcomes of different attempts can be recorded in either order, with the same result. */
  lemma RecordingOrderIsIrrelevant(s: Snapshot, o: Outcome, p: Outcome)
    requires Valid(s) && o.attemptId != p.attemptId
    requires Record(s, o).Ok? && Record(Record(s, o).value, p).Ok?
    ensures Record(s, p).Ok? && Record(Record(s, p).value, o).Ok?
    ensures Record(Record(s, p).value, o) == Record(Record(s, o).value, p)
  {
    hide Place;
    RevisionsStopAtTwo(s);
    var s1 := Record(s, o).value;
    RecordGrows(s, o);
    var s2 := Record(s1, p).value;
    RecordGrows(s1, p);
    RevisionsStopAtTwo(s2);
    if s == s1 {
      assert Record(s, p) == Ok(s2) && o in s2.outcomes;
      KnownOutcomeIsIdle(s2, o);
    } else if s1 == s2 {
      assert p in s1.outcomes && p in s.outcomes;
      KnownOutcomeIsIdle(s, p);
    } else {
      FreshPairCommutes(s.definition, o, p);
    }
  }

  lemma FreshPairCommutes(d: Definition, o: Outcome, p: Outcome)
    requires Valid(Snapshot(d, [], 0)) && o.attemptId != p.attemptId
    requires Record(Snapshot(d, [], 0), o).Ok? && Record(Record(Snapshot(d, [], 0), o).value, p).Ok?
    ensures var s := Snapshot(d, [], 0);
            && Record(s, p).Ok? && Record(Record(s, p).value, o) == Record(Record(s, o).value, p)
  {
    var s := Snapshot(d, [], 0);
    assert Record(s, o) == Ok(Snapshot(d, [o], 1));
    var s2 := Record(Snapshot(d, [o], 1), p).value;
    assert [o][1..] == [] && [p][1..] == [];
    assert s2.outcomes == if Index(d, p.attemptId) < Index(d, o.attemptId) then [p, o] else [o, p];
    assert p in s2.outcomes && Fits(d, p);
    assert Record(s, p) == Ok(Snapshot(d, [p], 1));
    assert Place(d, [p], o) == if Index(d, o.attemptId) < Index(d, p.attemptId) then [o, p] else [p, o];
  }

  lemma KnownOutcomeIsIdle(s: Snapshot, o: Outcome)
    requires Valid(s) && o in s.outcomes
    ensures Record(s, o) == Ok(s)
  {
    var found := Find(s.outcomes, o.attemptId).value;
    var i :| 0 <= i < |s.outcomes| && s.outcomes[i] == o;
    var j :| 0 <= j < |s.outcomes| && s.outcomes[j] == found;
    IndicesClimb(s, i, j);
    IndicesClimb(s, j, i);
  }

  // ----- validity and recording on the fields

  predicate Agrees(d: Definition, a: Attempt, o: Outcome)
  {
    o.batchId == d.batchId && o.attemptId == a.attemptId && o.radioId == a.radioId && o.planId == a.planId
  }

  /** A snapshot is valid with no outcome, with one of either attempt, or with one of each in their order. */
  lemma ValidByFields(s: Snapshot)
    ensures Valid(s) <==>
      && |s.definition.attempts| == 2
      && Text.Less(s.definition.attempts[0].attemptId, s.definition.attempts[1].attemptId)
      && s.definition.attempts[0].radioId != s.definition.attempts[1].radioId
      && s.definition.attempts[0].planId != s.definition.attempts[1].planId
      && s.revision == |s.outcomes| <= 2
      && (|s.outcomes| == 1 ==>
            || Agrees(s.definition, s.definition.attempts[0], s.outcomes[0])
            || Agrees(s.definition, s.definition.attempts[1], s.outcomes[0]))
      && (|s.outcomes| == 2 ==>
            && Agrees(s.definition, s.definition.attempts[0], s.outcomes[0])
            && Agrees(s.definition, s.definition.attempts[1], s.outcomes[1])
            && (s.outcomes[0].recording.None? || s.outcomes[0].recording != s.outcomes[1].recording))
  {
    if |s.definition.attempts| == 2 {
      Text.LessIsIrreflexive(s.definition.attempts[0].attemptId);
    }
    if Valid(s) {
      RevisionsStopAtTwo(s);
      forall i | 0 <= i < |s.outcomes| ensures Fits(s.definition, s.outcomes[i]) {
        assert s.outcomes[i] in s.outcomes;
      }
    }
  }

  /** The attempt is unknown, its facts are not those expected, or another outcome names the same recording. */
  ghost predicate Unfit(s: Snapshot, o: Outcome)
    requires Valid(s)
  {
    || !(exists a :: a in s.definition.attempts && Agrees(s.definition, a, o))
    || (exists p :: p in s.outcomes && o.recording.Some? && p.recording == o.recording)
  }

  /** Why an outcome is refused, and what one that is accepted leaves. */
  lemma RecordByFields(s: Snapshot, o: Outcome)
    requires Valid(s)
    ensures Record(s, o) == Ok(s) <==> o in s.outcomes
    ensures Record(s, o) == Err(DifferentOutcome)
            <==> o !in s.outcomes && exists p :: p in s.outcomes && p.attemptId == o.attemptId
    ensures (forall p :: p in s.outcomes ==> p.attemptId != o.attemptId) ==>
      && (Record(s, o).Err? <==> Unfit(s, o))
      && (Record(s, o) == Err(NotExpected) <==> forall a :: a in s.definition.attempts ==> a.attemptId != o.attemptId)
    ensures Record(s, o).Ok? && Record(s, o).value != s ==>
      var next := Record(s, o).value;
      && next.definition == s.definition && next.revision == s.revision + 1
      && next.outcomes == if s.outcomes == [] then [o]
                          else if o.attemptId == s.definition.attempts[0].attemptId then [o] + s.outcomes
                          else s.outcomes + [o]
  {
    var d := s.definition;
    RevisionsStopAtTwo(s);
    ValidByFields(s);
    var found := Find(s.outcomes, o.attemptId);
    if o in s.outcomes {
      KnownOutcomeIsIdle(s, o);
    } else if found.None? && Index(d, o.attemptId) < 2 {
      FreshOutcome(s, o);
    }
  }

  lemma UnfitByPlace(s: Snapshot, o: Outcome)
    requires Valid(s) && |s.outcomes| <= 1
    ensures Unfit(s, o) <==>
      || !(Agrees(s.definition, s.definition.attempts[0], o) || Agrees(s.definition, s.definition.attempts[1], o))
      || (|s.outcomes| == 1 && o.recording.Some? && s.outcomes[0].recording == o.recording)
  {
    hide Agrees;
    var d := s.definition;
    assert d.attempts[0] in d.attempts && d.attempts[1] in d.attempts;
    assert forall p :: p in s.outcomes ==> |s.outcomes| == 1 && p == s.outcomes[0];
  }

  /** An outcome of an attempt that has none yet finds one outcome at most, that of the other attempt. */
  lemma FreshPlace(s: Snapshot, o: Outcome)
    requires Valid(s) && Index(s.definition, o.attemptId) < 2
    requires forall p :: p in s.outcomes ==> p.attemptId != o.attemptId
    ensures |s.outcomes| <= 1
    ensures Place(s.definition, s.outcomes, o)
         == (if s.outcomes == [] then [o]
             else if o.attemptId == s.definition.attempts[0].attemptId then [o] + s.outcomes
             else s.outcomes + [o])
  {
    hide Fits;
    RevisionsStopAtTwo(s);
    ValidByFields(s);
    if s.outcomes != [] {
      assert s.outcomes[0] in s.outcomes && s.outcomes[|s.outcomes| - 1] in s.outcomes;
      assert s.outcomes[1..] == [];
    }
  }

  lemma FreshOutcome(s: Snapshot, o: Outcome)
    requires Valid(s) && Index(s.definition, o.attemptId) < 2
    requires forall p :: p in s.outcomes ==> p.attemptId != o.attemptId
    ensures var d := s.definition;
            && Place(d, s.outcomes, o) == (if s.outcomes == [] then [o]
                                           else if o.attemptId == d.attempts[0].attemptId then [o] + s.outcomes
                                           else s.outcomes + [o])
            && (Valid(Snapshot(d, Place(d, s.outcomes, o), s.revision + 1)) <==> !Unfit(s, o))
  {
    hide Valid, Unfit, Place;
    assert ValidDefinition(s.definition) && s.revision == |s.outcomes| by { ValidIsCounted(s); }
    FreshPlace(s, o);
    UnfitByPlace(s, o);
    ValidByFields(s);
    ValidByFields(Snapshot(s.definition, Place(s.definition, s.outcomes, o), s.revision + 1));
    if s.outcomes != [] {
      assert s.outcomes[0] in s.outcomes;
    }
  }

  lemma ValidIsCounted(s: Snapshot)
    requires Valid(s)
    ensures ValidDefinition(s.definition) && s.revision == |s.outcomes|
  {
  }
}
