/** Safety of the dashboard projections over every run of capture and analysis writers. */
module ProjectionRuns {
  import opened Outcomes
  import opened Facts
  import opened ProjectionWriters

  // ----- what every reachable database satisfies

  ghost predicate Recordings(t: Tables)
  {
    && (forall i, j :: 0 <= i < j < |t.recordings| ==> t.recordings[i].sequence < t.recordings[j].sequence)
    && (forall r :: r in t.recordings ==> r.sequence <= t.last && r.analysisState in [PENDING, COMPLETE])
  }

  predicate SameSlot(a: ModelRow, b: ModelRow)
  {
    a.alias == b.alias && (a.alias.Some? || a.modelId == b.modelId)
  }

  /** A model's base row precedes each of its release rows, with the same content. */
  ghost predicate BasedOn(rows: seq<ModelRow>, j: int)
    requires 0 <= j < |rows|
  {
    rows[j].alias.Some? ==> HasBase(rows[..j], rows[j].modelId, rows[j].content)
  }

  ghost predicate Models(t: Tables)
  {
    && (forall i, j :: 0 <= i < j < |t.models| ==>
          t.models[i].sequence < t.models[j].sequence && !SameSlot(t.models[i], t.models[j]))
    && (forall r :: r in t.models ==> r.sequence <= t.last)
    && (forall j :: 0 <= j < |t.models| ==> BasedOn(t.models, j))
  }

  ghost predicate Consistent(t: Tables)
  {
    && Facts.Inv(Activities(t), "activity")
    && Facts.Inv(Features(t), "feature")
    && Recordings(t)
    && Models(t)
  }

  /** Rows are only appended and identities only added. */
  ghost predicate Extends(t: Tables, u: Tables)
  {
    && t.last <= u.last
    && t.recordings <= u.recordings && t.activities <= u.activities
    && t.features <= u.features && t.models <= u.models
    && (forall k :: k in t.details ==> k in u.details && u.details[k] == t.details[k])
    && (forall k :: k in t.captureIds ==> k in u.captureIds && u.captureIds[k] == t.captureIds[k])
    && (forall k :: k in t.analysisIds ==> k in u.analysisIds && u.analysisIds[k] == t.analysisIds[k])
  }

  /** The latest version of a recording says its analysis is complete. */
  predicate IsComplete(t: Tables, id: string)
  {
    var r := LatestRecording(t.recordings, id);
    r.Some? && r.value.analysisState == COMPLETE
  }

  ghost predicate Progress(t: Tables, u: Tables)
  {
    Extends(t, u) && forall id :: IsComplete(t, id) ==> IsComplete(u, id)
  }

  // ----- single statements

  lemma LatestAfterInsert(t: Tables, id: string, values: RecordingValues, state: string, other: string)
    ensures LatestRecording(InsertRecording(t, id, values, state).recordings, other)
            == if other == id then Some(RecordingRow(t.last + 1, id, values, state))
               else LatestRecording(t.recordings, other)
  {
    var rows := InsertRecording(t, id, values, state).recordings;
    assert rows[..|rows| - 1] == t.recordings;
  }

  lemma InsertKeepsConsistency(t: Tables, id: string, values: RecordingValues, state: string)
    requires Consistent(t) && state in [PENDING, COMPLETE]
    requires IsComplete(t, id) ==> state == COMPLETE
    ensures Consistent(InsertRecording(t, id, values, state)) && Progress(t, InsertRecording(t, id, values, state))
  {
    forall other ensures IsComplete(t, other) ==> IsComplete(InsertRecording(t, id, values, state), other) {
      LatestAfterInsert(t, id, values, state, other);
    }
  }

  lemma UpsertKeepsConsistency(t: Tables, id: string, values: RecordingValues)
    requires Consistent(t)
    ensures Consistent(UpsertRecording(t, id, values).0) && Progress(t, UpsertRecording(t, id, values).0)
    ensures UpsertRecording(t, id, values).0.captureIds == t.captureIds
  {
    var row := LatestRecording(t.recordings, id);
    InsertKeepsConsistency(t, id, values, if row.Some? then row.value.analysisState else PENDING);
  }

  lemma CompleteKeepsConsistency(t: Tables, id: string, u: Tables, sequence: int)
    requires Consistent(t) && CompleteRecording(t, id) == Ok((u, sequence))
    ensures Consistent(u) && Progress(t, u) && IsComplete(u, id)
    ensures u.features == t.features && u.analysisIds == t.analysisIds
  {
    hide Consistent, Progress, LatestRecording;
    var row := LatestRecording(t.recordings, id).value;
    NothingMoved(t);
    InsertKeepsConsistency(t, id, row.values, COMPLETE);
    LatestAfterInsert(t, id, row.values, COMPLETE, id);
  }

  lemma NothingMoved(t: Tables)
    ensures Progress(t, t)
  {
  }

  lemma ProgressIsTransitive(t: Tables, u: Tables, v: Tables)
    requires Progress(t, u) && Progress(u, v)
    ensures Progress(t, v)
  {
  }

  // ----- whole transactions

  lemma RecordingKeepsConsistency(t: Tables, c: Command)
    requires Consistent(t) && Validated(c) && c.ProjectRecording? && Transact(t, c).Ok?
    ensures Consistent(Transact(t, c).value.0) && Progress(t, Transact(t, c).value.0)
  {
    var (u, sequence) := UpsertRecording(t, c.recordingId, c.values);
    UpsertKeepsConsistency(t, c.recordingId, c.values);
    var v := u.(captureIds := Bind(t.captureIds, u.captureIds, c.identity, sequence));
    BindingKeepsConsistency(u, c.identity, sequence);
    ActivitiesStayAgreeable(t.captureIds, c.identity, c.activities, sequence);
    ProgressIsTransitive(t, u, v);
    RecordedActivities(v, c.activities);
    var facts := AddFacts(Activities(v), Activities(v), c.activities).value.0;
    var x := v.(last := facts.last, activities := facts.rows, captureIds := facts.ids);
    ProgressIsTransitive(t, v, x);
    PublishingDetailKeepsConsistency(x, c.recordingId, c.detail);
    ProgressIsTransitive(t, x, PublishDetail(x, c.recordingId, c.detail).value.0);
  }

  lemma PublishingDetailKeepsConsistency(t: Tables, id: string, detail: Option<string>)
    requires Consistent(t) && PublishDetail(t, id, detail).Ok?
    ensures Consistent(PublishDetail(t, id, detail).value.0) && Progress(t, PublishDetail(t, id, detail).value.0)
  {
  }

  lemma BindingKeepsConsistency(t: Tables, identity: Identity, sequence: int)
    requires Consistent(t)
    ensures var u := t.(captureIds := Bind(t.captureIds, t.captureIds, identity, sequence));
            Consistent(u) && Progress(t, u)
  {
    var u := t.(captureIds := Bind(t.captureIds, t.captureIds, identity, sequence));
    assert Features(u) == Features(t);
    assert Facts.Inv(Activities(u), "activity");
  }

  lemma ActivitiesStayAgreeable(
    ids: IdentityTable, identity: Identity, activities: seq<Fact<ActivityValues>>, sequence: int)
    requires AllCheck(ids, [identity] + Identities(activities)) && Proper(activities, "activity")
    requires identity.kind == "recording"
    ensures forall f :: f in activities ==> Check(Bind(ids, ids, identity, sequence), f.identity).Ok?
  {
    hide Identities;
    var all := [identity] + Identities(activities);
    forall f | f in activities ensures Check(Bind(ids, ids, identity, sequence), f.identity).Ok? {
      var i :| 0 <= i < |activities| && activities[i] == f;
      assert all[i + 1] == f.identity && f.identity in all;
    }
  }

  lemma RecordedActivities(t: Tables, activities: seq<Fact<ActivityValues>>)
    requires Consistent(t) && Proper(activities, "activity")
    requires forall f :: f in activities ==> Check(t.captureIds, f.identity).Ok?
    requires AddFacts(Activities(t), Activities(t), activities).Ok?
    ensures var facts := AddFacts(Activities(t), Activities(t), activities).value.0;
            var u := t.(last := facts.last, activities := facts.rows, captureIds := facts.ids);
            Consistent(u) && Progress(t, u)
  {
    AddingFacts(Activities(t), activities, "activity");
    ActivitiesKeepConsistency(t, AddFacts(Activities(t), Activities(t), activities).value.0);
  }

  lemma ActivitiesKeepConsistency(t: Tables, facts: FactTable<ActivityValues>)
    requires Consistent(t) && Facts.Inv(facts, "activity") && Facts.Grows(Activities(t), facts)
    ensures var u := t.(last := facts.last, activities := facts.rows, captureIds := facts.ids);
            Consistent(u) && Progress(t, u)
  {
  }

  lemma FeaturesKeepConsistency(t: Tables, facts: FactTable<FeatureValues>)
    requires Consistent(t) && Facts.Inv(facts, "feature") && Facts.Grows(Features(t), facts)
    ensures var u := t.(last := facts.last, features := facts.rows, analysisIds := facts.ids);
            Consistent(u) && Progress(t, u)
  {
  }

  /** After a feature projection its rows are held, under its identities, and its recording is complete. */
  lemma FeaturesAreHeld(t: Tables, c: Command)
    requires Consistent(t) && Validated(c) && c.ProjectFeatures? && Transact(t, c).Ok?
    ensures var (u, receipt) := Transact(t, c).value;
            && Consistent(u) && Progress(t, u)
            && |receipt| == |c.features| + 1
            && Holds(Features(u), c.features, receipt[..|c.features|])
            && IsComplete(u, c.recordingId)
  {
    var ids := Identities(c.features);
    forall f | f in c.features ensures Check(t.analysisIds, f.identity).Ok? {
      var i :| 0 <= i < |c.features| && c.features[i] == f;
      assert ids[i] == f.identity && f.identity in ids;
    }
    AddingFacts(Features(t), c.features, "feature");
    var (facts, sequences) := AddFacts(Features(t), Features(t), c.features).value;
    FeaturesKeepConsistency(t, facts);
    var u := t.(last := facts.last, features := facts.rows, analysisIds := facts.ids);
    var (v, sequence) := CompleteRecording(u, c.recordingId).value;
    CompleteKeepsConsistency(u, c.recordingId, v, sequence);
    ProgressIsTransitive(t, u, v);
    HeldFactsStayHeld(facts, Features(v), c.features, sequences);
    assert (sequences + [sequence])[..|c.features|] == sequences;
  }

  /**
   * The last entry of a committed feature command's receipt, first or replayed, is the sequence of the
   * recording's newest version, which is complete and says otherwise what the version before it said. It is
   * a new row exactly when the recording was not complete yet.
   */
  lemma FeatureReceiptNamesCompleteVersion(t: Tables, c: Command)
    requires Consistent(t) && Validated(c) && c.ProjectFeatures? && Transact(t, c).Ok?
    ensures var (u, receipt) := Transact(t, c).value;
            var before, now := LatestRecording(t.recordings, c.recordingId), LatestRecording(u.recordings, c.recordingId);
            && |receipt| == |c.features| + 1 && before.Some? && now.Some?
            && now.value.sequence == receipt[|c.features|]
            && now.value.analysisState == "complete" && now.value.values == before.value.values
            && (before.value.analysisState == "complete" ==> u.recordings == t.recordings)
            && (before.value.analysisState != "complete" ==>
                  u.recordings == t.recordings + [now.value] && now.value.sequence > before.value.sequence)
  {
    hide Consistent, Progress, Validated, LatestRecording, Facts.Inv, AddFacts;
    FeaturesAreHeld(t, c);
    var (facts, sequences) := AddFacts(Features(t), Features(t), c.features).value;
    var u := t.(last := facts.last, features := facts.rows, analysisIds := facts.ids);
    var row := LatestRecording(t.recordings, c.recordingId).value;
    LatestAfterInsert(u, c.recordingId, row.values, COMPLETE, c.recordingId);
    FactsOnlyDraw(t, c);
    SequencesAreIssued(t, row);
  }

  lemma FactsOnlyDraw(t: Tables, c: Command)
    requires Consistent(t) && Validated(c) && c.ProjectFeatures? && Transact(t, c).Ok?
    ensures t.last <= AddFacts(Features(t), Features(t), c.features).value.0.last
    ensures |AddFacts(Features(t), Features(t), c.features).value.1| == |c.features|
  {
    var ids := Identities(c.features);
    forall f | f in c.features ensures Check(t.analysisIds, f.identity).Ok? {
      var i :| 0 <= i < |c.features| && c.features[i] == f;
      assert ids[i] == f.identity && f.identity in ids;
    }
    AddingFacts(Features(t), c.features, "feature");
  }

  lemma SequencesAreIssued(t: Tables, row: RecordingRow)
    requires Consistent(t) && row in t.recordings
    ensures row.sequence <= t.last
  {
  }

  lemma ModelRowKeepsConsistency(
    t: Tables, modelId: string, alias: Option<string>, content: ModelContent, identity: Identity,
    required: Option<Identity>)
    requires Consistent(t) && (alias.Some? <==> required.Some?)
    requires ProjectModelRow(t, modelId, alias, content, identity, required).Ok?
    ensures var u := ProjectModelRow(t, modelId, alias, content, identity, required).value.0;
            Consistent(u) && Progress(t, u)
  {
    var last, models, sequence := WrittenModelRow(t, modelId, alias, content, identity, required);
    if models != t.models {
      NewModelRowKeepsModels(t, t.(last := last, models := models), modelId, alias, content);
    }
    ModelTablesKeepConsistency(t, last, models, identity, sequence);
  }

  /** A write either reuses a row or appends one whose slot is free and whose base is there. */
  lemma WrittenModelRow(
    t: Tables, modelId: string, alias: Option<string>, content: ModelContent, identity: Identity,
    required: Option<Identity>) returns (last: int, models: seq<ModelRow>, sequence: int)
    requires alias.Some? <==> required.Some?
    requires ProjectModelRow(t, modelId, alias, content, identity, required).Ok?
    ensures ProjectModelRow(t, modelId, alias, content, identity, required).value.0
            == t.(last := last, models := models,
                  analysisIds := Bind(t.analysisIds, t.analysisIds, identity, sequence))
    ensures (last == t.last && models == t.models)
         || (&& last == t.last + 1 && models == t.models + [ModelRow(last, modelId, alias, content)]
             && FirstWithAlias(MatchingModels(t.models, modelId, alias), alias).None?
             && (alias.Some? ==> HasBase(MatchingModels(t.models, modelId, alias), modelId, content)))
  {
    var u := ProjectModelRow(t, modelId, alias, content, identity, required).value;
    last, models, sequence := u.0.last, u.0.models, u.1;
  }

  /** Nothing but the model rows and the analysis identities is written. */
  lemma ModelTablesKeepConsistency(t: Tables, last: int, models: seq<ModelRow>, identity: Identity, sequence: int)
    requires Consistent(t) && t.last <= last && t.models <= models
    requires Models(t.(last := last, models := models))
    ensures var u := t.(last := last, models := models,
                        analysisIds := Bind(t.analysisIds, t.analysisIds, identity, sequence));
            Consistent(u) && Progress(t, u)
  {
    var u := t.(last := last, models := models,
                analysisIds := Bind(t.analysisIds, t.analysisIds, identity, sequence));
    assert Facts.Inv(Activities(u), "activity");
    assert Facts.Inv(Features(u), "feature");
    assert Models(u) by { assert forall j :: 0 <= j < |models| ==> BasedOn(u.models, j); }
  }

  lemma NewModelRowKeepsModels(
    t: Tables, u: Tables, modelId: string, alias: Option<string>, content: ModelContent)
    requires Models(t) && FirstWithAlias(MatchingModels(t.models, modelId, alias), alias).None?
    requires alias.Some? ==> HasBase(MatchingModels(t.models, modelId, alias), modelId, content)
    requires u.last == t.last + 1 && u.models == t.models + [ModelRow(t.last + 1, modelId, alias, content)]
    ensures Models(u)
  {
    var rows, row := MatchingModels(t.models, modelId, alias), ModelRow(t.last + 1, modelId, alias, content);
    forall r | r in t.models ensures !SameSlot(r, row) {
      if r in rows {
        assert r.alias != alias;
      }
    }
    forall j | 0 <= j < |u.models| ensures BasedOn(u.models, j) {
      assert u.models[..j] == t.models[..j];
      if j < |t.models| {
        assert BasedOn(t.models, j);
      } else if alias.Some? {
        assert t.models[..j] == t.models;
        var base :| base in rows && base.modelId == modelId && base.alias.None? && base.content == content;
        assert base in t.models;
      }
    }
    forall i, j | 0 <= i < j < |u.models|
      ensures u.models[i].sequence < u.models[j].sequence && !SameSlot(u.models[i], u.models[j])
    {
      assert u.models[i] == t.models[i] && t.models[i] in t.models;
    }
  }

  /** Every transaction, committed or rolled back, keeps the database consistent and only moves it forward. */
  lemma TransactionsAreSafe(t: Tables, c: Command)
    requires Consistent(t) && Validated(c)
    ensures Consistent(After(t, c)) && Progress(t, After(t, c))
  {
    if Transact(t, c).Ok? {
      match c
      case ProjectRecording(_, _, _, _, _, _) => RecordingKeepsConsistency(t, c);
      case ProjectFeatures(_, _, _) => FeaturesAreHeld(t, c);
      case ProjectModel(id, content, identity) => ModelRowKeepsConsistency(t, id, None, content, identity, None);
      case ProjectRelease(id, content, modelIdentity, alias, identity) =>
        ModelRowKeepsConsistency(t, id, Some(alias), content, identity, Some(modelIdentity));
    }
  }

  // ----- every run

  /** Writers commit one after another; the catalog belongs to others and may change between them. */
  datatype Event = Write(command: Command) | Publish(catalog: map<string, string>)

  function Step(t: Tables, e: Event): (u: Tables)
  {
    match e
    case Write(c) => After(t, c)
    case Publish(catalog) => t.(catalog := catalog)
  }

  function Run(t: Tables, events: seq<Event>): (u: Tables)
  {
    if events == [] then t else Step(Run(t, events[..|events| - 1]), events[|events| - 1])
  }

  ghost predicate AllValidated(events: seq<Event>)
  {
    forall e :: e in events && e.Write? ==> Validated(e.command)
  }

  const EMPTY := Tables(0, map[], [], [], [], [], map[], map[], map[])

  /** Rows are never lost or rewritten, identities never change, and `complete` is forever. */
  lemma {:induction false} RunsOnlyMoveForward(t: Tables, events: seq<Event>)
    requires Consistent(t) && AllValidated(events)
    ensures Consistent(Run(t, events)) && Progress(t, Run(t, events))
  {
    hide Consistent, Progress, Validated;
    NothingMoved(t);
    if events != [] {
      var n := |events| - 1;
      assert forall e :: e in events[..n] ==> e in events;
      RunsOnlyMoveForward(t, events[..n]);
      var u := Run(t, events[..n]);
      match events[n] {
        case Write(c) =>
          assert events[n] in events;
          TransactionsAreSafe(u, c);
          ProgressIsTransitive(t, u, After(u, c));
        case Publish(catalog) =>
          PublishingIsSafe(u, catalog);
          ProgressIsTransitive(t, u, u.(catalog := catalog));
      }
    }
  }

  lemma PublishingIsSafe(t: Tables, catalog: map<string, string>)
    requires Consistent(t)
    ensures Consistent(t.(catalog := catalog)) && Progress(t, t.(catalog := catalog))
  {
  }

  lemma EveryReachableDatabaseIsConsistent(events: seq<Event>)
    requires AllValidated(events)
    ensures Consistent(Run(EMPTY, events))
  {
    RunsOnlyMoveForward(EMPTY, events);
  }

  /**
   * Replaying a feature command at any later time adds no feature row; while the catalog still holds
   * the recording's reference it succeeds, with the same feature sequences, and changes nothing.
   */
  lemma FeatureReplayIsIdle(t: Tables, c: Command, later: seq<Event>)
    requires Consistent(t) && Validated(c) && c.ProjectFeatures? && AllValidated(later)
    requires Transact(t, c).Ok?
    ensures After(Run(After(t, c), later), c) == Run(After(t, c), later)
    ensures CheckCatalog(Run(After(t, c), later), c.recordingId, c.ref).Ok? ==>
              SameFeatureSequences(Receipt(Run(After(t, c), later), c), Receipt(t, c), |c.features|)
  {
    FeaturesAreHeld(t, c);
    var (first, receipt) := Transact(t, c).value;
    RunsOnlyMoveForward(first, later);
    ReplayAfterProgress(first, Run(first, later), c, receipt[..|c.features|]);
  }

  predicate SameFeatureSequences(
    replayed: Result<seq<int>, ProjectionError>, first: Result<seq<int>, ProjectionError>, features: nat)
  {
    && first.Ok? && replayed.Ok?
    && |first.value| == features + 1 == |replayed.value|
    && replayed.value[..features] == first.value[..features]
  }

  lemma ReplayAfterProgress(first: Tables, u: Tables, c: Command, sequences: seq<int>)
    requires c.ProjectFeatures? && Consistent(u) && Progress(first, u)
    requires Holds(Features(first), c.features, sequences) && IsComplete(first, c.recordingId)
    ensures After(u, c) == u
    ensures CheckCatalog(u, c.recordingId, c.ref).Ok? ==>
      && Receipt(u, c).Ok? && |Receipt(u, c).value| == |c.features| + 1
      && Receipt(u, c).value[..|c.features|] == sequences
  {
    HeldFactsStayHeld(Features(first), Features(u), c.features, sequences);
    ReplayedFactsAddNothing(Features(u), c.features, sequences, "feature");
    ReplayOfHeldFeatures(u, c, sequences);
  }

  lemma ReplayOfHeldFeatures(u: Tables, c: Command, sequences: seq<int>)
    requires c.ProjectFeatures? && IsComplete(u, c.recordingId) && |sequences| == |c.features|
    requires AddFacts(Features(u), Features(u), c.features) == Ok((Features(u), sequences))
    requires forall f :: f in c.features ==> Check(u.analysisIds, f.identity) == Ok(true)
    ensures After(u, c) == u
    ensures CheckCatalog(u, c.recordingId, c.ref).Ok? ==>
      Receipt(u, c).Ok? && Receipt(u, c).value[..|c.features|] == sequences
  {
    var ids := Identities(c.features);
    forall i | i in ids ensures Check(u.analysisIds, i).Ok? {
      var k :| 0 <= k < |ids| && ids[k] == i;
      assert c.features[k] in c.features;
    }
    var row := LatestRecording(u.recordings, c.recordingId).value;
    assert (sequences + [row.sequence])[..|c.features|] == sequences;
  }

  // ----- recordings, replayed

  /** The recording's latest version is the command's, under its identity, with its activities and its detail. */
  ghost predicate HoldsRecording(t: Tables, c: Command, receipt: seq<int>)
    requires c.ProjectRecording?
  {
    && |receipt| == |c.activities| + 2
    && Check(t.captureIds, c.identity) == Ok(true)
    && Holds(Activities(t), c.activities, receipt[1..|c.activities| + 1])
    && c.detail.Some? && c.recordingId in t.details
    && t.details[c.recordingId] == DetailRow(receipt[|c.activities| + 1], c.detail.value)
    && LatestRecording(t.recordings, c.recordingId).Some?
    && LatestRecording(t.recordings, c.recordingId).value.sequence == receipt[0]
    && LatestRecording(t.recordings, c.recordingId).value.values == c.values
  }

  lemma RecordingIsHeld(t: Tables, c: Command)
    requires Consistent(t) && Validated(c) && c.ProjectRecording? && Transact(t, c).Ok?
    ensures HoldsRecording(Transact(t, c).value.0, c, Transact(t, c).value.1)
  {
    hide Consistent, Progress, Extends, LatestRecording, Holds, PublishDetail;
    var (u, sequence) := UpsertRecording(t, c.recordingId, c.values);
    UpsertedIsLatest(t, c.recordingId, c.values);
    UpsertKeepsConsistency(t, c.recordingId, c.values);
    var v := u.(captureIds := Bind(t.captureIds, u.captureIds, c.identity, sequence));
    BindingKeepsConsistency(u, c.identity, sequence);
    ActivitiesStayAgreeable(t.captureIds, c.identity, c.activities, sequence);
    ActivitiesAreHeld(v, c.activities);
    var (facts, sequences) := AddFacts(Activities(v), Activities(v), c.activities).value;
    assert c.identity in [c.identity] + Identities(c.activities);
    assert Check(t.captureIds, c.identity).Ok?;
    BoundIdentityStays(t.captureIds, c.identity, sequence, facts.ids);
    PublishedRecordingIsHeld(
      v.(last := facts.last, activities := facts.rows, captureIds := facts.ids), c, sequence, sequences);
  }

  lemma PublishedRecordingIsHeld(t: Tables, c: Command, sequence: int, sequences: seq<int>)
    requires c.ProjectRecording? && PublishDetail(t, c.recordingId, c.detail).Ok?
    requires Check(t.captureIds, c.identity) == Ok(true)
    requires |sequences| == |c.activities| && Holds(Activities(t), c.activities, sequences)
    requires LatestRecording(t.recordings, c.recordingId).Some?
    requires LatestRecording(t.recordings, c.recordingId).value.sequence == sequence
    requires LatestRecording(t.recordings, c.recordingId).value.values == c.values
    ensures var (u, detail) := PublishDetail(t, c.recordingId, c.detail).value;
            HoldsRecording(u, c, [sequence] + sequences + [detail])
  {
    hide LatestRecording, Holds;
    var (u, detail) := PublishDetail(t, c.recordingId, c.detail).value;
    HeldFactsStayHeld(Activities(t), Activities(u), c.activities, sequences);
    assert ([sequence] + sequences + [detail])[1..|c.activities| + 1] == sequences;
  }

  lemma UpsertedIsLatest(t: Tables, id: string, values: RecordingValues)
    ensures var (u, sequence) := UpsertRecording(t, id, values);
            var latest := LatestRecording(u.recordings, id);
            latest.Some? && latest.value.sequence == sequence && latest.value.values == values
  {
    var latest := LatestRecording(t.recordings, id);
    LatestAfterInsert(t, id, values, if latest.Some? then latest.value.analysisState else PENDING, id);
  }

  lemma ActivitiesAreHeld(t: Tables, activities: seq<Fact<ActivityValues>>)
    requires Consistent(t) && Proper(activities, "activity")
    requires forall f :: f in activities ==> Check(t.captureIds, f.identity).Ok?
    requires AddFacts(Activities(t), Activities(t), activities).Ok?
    ensures var (facts, sequences) := AddFacts(Activities(t), Activities(t), activities).value;
            && Holds(facts, activities, sequences) && |sequences| == |activities|
            && forall k :: k in t.captureIds ==> k in facts.ids && facts.ids[k] == t.captureIds[k]
  {
    hide Recordings, Models;
    AddingFacts(Activities(t), activities, "activity");
  }

  lemma BoundIdentityStays(ids: IdentityTable, identity: Identity, sequence: int, later: IdentityTable)
    requires Check(ids, identity).Ok?
    requires var bound := Bind(ids, ids, identity, sequence);
             forall k :: k in bound ==> k in later && later[k] == bound[k]
    ensures Check(later, identity) == Ok(true)
  {
    var bound := Bind(ids, ids, identity, sequence);
    assert IdKey(identity) in bound;
  }

  /**
   * Replaying a recording command later, under the same reference, writes nothing if and only if its
   * values are still the latest ones; otherwise it appends them again.
   */
  lemma RecordingReplayIsIdleIffCurrent(t: Tables, c: Command, later: seq<Event>)
    requires Consistent(t) && Validated(c) && c.ProjectRecording? && AllValidated(later)
    requires Transact(t, c).Ok?
    requires CheckCatalog(Run(After(t, c), later), c.recordingId, c.ref).Ok?
    ensures LatestRecording(Run(After(t, c), later).recordings, c.recordingId).Some?
    ensures Receipt(Run(After(t, c), later), c).Ok?
    ensures After(Run(After(t, c), later), c) == Run(After(t, c), later)
            <==> LatestRecording(Run(After(t, c), later).recordings, c.recordingId).value.values == c.values
  {
    hide Consistent, Progress, HoldsRecording, Validated;
    RecordingKeepsConsistency(t, c);
    RecordingIsHeld(t, c);
    var (first, receipt) := Transact(t, c).value;
    RunsOnlyMoveForward(first, later);
    ReplayOfHeldRecording(first, Run(first, later), c, receipt);
  }

  /** A recording without activities whose identity was stored before: a new version exactly for new values. */
  lemma VersionOnly(t: Tables, c: Command)
    requires c.ProjectRecording? && c.activities == [] && LatestRecording(t.recordings, c.recordingId).Some?
    requires c.recordingId in t.catalog && t.catalog[c.recordingId] == c.ref
    requires Check(t.captureIds, c.identity) == Ok(true)
    requires c.detail.Some? && c.recordingId in t.details && t.details[c.recordingId].view == c.detail.value
    ensures Transact(t, c).Ok? && After(t, c) == UpsertRecording(t, c.recordingId, c.values).0
  {
    assert [c.identity] + Identities(c.activities) == [c.identity];
  }

  function Sighted(available: bool): (c: Command)
  {
    ProjectRecording("rec_a", RecordingValues("radio_a", 0, 1, 1, available), "ref",
                     Identity("recording", "rec_a", "digest", "document"), [], Some("view"))
  }

  const CATALOGUED := EMPTY.(catalog := map["rec_a" := "ref"])

  lemma FirstSighting()
    ensures Transact(CATALOGUED, Sighted(true)) == Ok((Sighting(), [1, 2]))
  {
    var c, t := Sighted(true), CATALOGUED;
    assert [c.identity] + Identities(c.activities) == [c.identity];
    assert [1] + [] + [2] == [1, 2];
    assert t.recordings + [RecordingRow(1, "rec_a", c.values, PENDING)] == [RecordingRow(1, "rec_a", c.values, PENDING)];
  }

  /** The tables after the first command. */
  function Sighting(): (t: Tables)
  {
    var c := Sighted(true);
    CATALOGUED.(last := 2, recordings := [RecordingRow(1, "rec_a", c.values, PENDING)],
                details := map["rec_a" := DetailRow(2, "view")],
                captureIds := map[IdKey(c.identity) := StoredIdentity("digest", "document", 1)])
  }

  /**
   * Such a replay that writes: a recording is projected with its object at hand, then without it, and
   * then as at first; the third command succeeds and appends the first version again.
   */
  lemma RecordingReplayCanWrite()
    ensures var c, other, later := Sighted(true), Sighted(false), [Event.Write(Sighted(false))];
            var u := Run(After(CATALOGUED, c), later);
            && Consistent(CATALOGUED) && Validated(c) && AllValidated(later)
            && Transact(CATALOGUED, c).Ok? && Transact(After(CATALOGUED, c), other).Ok? && Transact(u, c).Ok?
            && After(u, c).recordings == u.recordings + [RecordingRow(u.last + 1, "rec_a", c.values, PENDING)]
  {
    hide Consistent, Validated, Transact, LatestRecording;
    var c, other := Sighted(true), Sighted(false);
    var later := [Event.Write(other)];
    SightingsAreValid();
    FirstSighting();
    var t := Sighting();
    OtherVersion(t, true, [], PENDING);
    var u := After(t, other);
    assert later[..0] == [] && Run(t, later) == u;
    OtherVersion(u, false, t.recordings, PENDING);
  }

  lemma SightingsAreValid()
    ensures Consistent(CATALOGUED) && Validated(Sighted(true)) && Validated(Sighted(false))
  {
  }

  /** Where the newest version says one thing, projecting the other appends it. */
  lemma OtherVersion(t: Tables, available: bool, before: seq<RecordingRow>, state: string)
    requires |t.recordings| == |before| + 1
    requires t.recordings
             == before + [RecordingRow(t.recordings[|before|].sequence, "rec_a", Sighted(available).values, state)]
    requires t.catalog == map["rec_a" := "ref"]
    requires t.captureIds == Sighting().captureIds && t.details == Sighting().details
    ensures var c := Sighted(!available);
            && Transact(t, c).Ok?
            && After(t, c) == t.(last := t.last + 1,
                                 recordings := t.recordings + [RecordingRow(t.last + 1, "rec_a", c.values, state)])
  {
    hide Transact;
    VersionOnly(t, Sighted(!available));
  }

  lemma ReplayOfHeldRecording(first: Tables, u: Tables, c: Command, receipt: seq<int>)
    requires c.ProjectRecording? && Consistent(u) && Progress(first, u) && HoldsRecording(first, c, receipt)
    requires CheckCatalog(u, c.recordingId, c.ref).Ok?
    ensures LatestRecording(u.recordings, c.recordingId).Some? && Receipt(u, c).Ok?
    ensures After(u, c) == u <==> LatestRecording(u.recordings, c.recordingId).value.values == c.values
  {
    hide LatestRecording, AddFacts, Holds, Recordings, Models;
    HeldFactsStayHeld(Activities(first), Activities(u), c.activities, receipt[1..|c.activities| + 1]);
    ReplayedFactsAddNothing(Activities(u), c.activities, receipt[1..|c.activities| + 1], "activity");
    LatestStays(first.recordings, u.recordings, c.recordingId);
    HeldIdentitiesCheck(u.captureIds, c.identity, c.activities);
    var (v, sequence) := UpsertRecording(u, c.recordingId, c.values);
    UpsertKeepsConsistency(u, c.recordingId, c.values);
    HeldFactsStayHeld(Activities(u), Activities(v), c.activities, receipt[1..|c.activities| + 1]);
    ReplayedFactsAddNothing(Activities(v), c.activities, receipt[1..|c.activities| + 1], "activity");
    assert Bind(u.captureIds, v.captureIds, c.identity, sequence) == u.captureIds;
    assert Transact(u, c).value.0 == v;
  }

  lemma {:induction false} LatestStays(rows: seq<RecordingRow>, later: seq<RecordingRow>, id: string)
    requires rows <= later && LatestRecording(rows, id).Some?
    ensures LatestRecording(later, id).Some?
  {
    var row := LatestRecording(rows, id).value;
    var i :| 0 <= i < |rows| && rows[i] == row;
    assert later[i] == row;
  }

  lemma HeldIdentitiesCheck(ids: IdentityTable, identity: Identity, activities: seq<Fact<ActivityValues>>)
    requires Check(ids, identity) == Ok(true) && forall f :: f in activities ==> Check(ids, f.identity) == Ok(true)
    ensures AllCheck(ids, [identity] + Identities(activities))
  {
    var all := [identity] + Identities(activities);
    forall i | i in all ensures Check(ids, i).Ok? {
      var k :| 0 <= k < |all| && all[k] == i;
      assert k > 0 ==> activities[k - 1] in activities;
    }
  }

  // ----- models, replayed

  /** The model's row, and the identities that vouch for it and for its base. */
  ghost predicate HoldsModel(
    t: Tables, modelId: string, alias: Option<string>, content: ModelContent, identity: Identity,
    required: Option<Identity>, sequence: int)
  {
    && ModelRow(sequence, modelId, alias, content) in t.models
    && Check(t.analysisIds, identity) == Ok(true)
    && (required.Some? ==>
          && Check(t.analysisIds, required.value) == Ok(true)
          && HasBase(MatchingModels(t.models, modelId, alias), modelId, content))
  }

  lemma ModelIsHeld(
    t: Tables, modelId: string, alias: Option<string>, content: ModelContent, identity: Identity,
    required: Option<Identity>)
    requires ProjectModelRow(t, modelId, alias, content, identity, required).Ok?
    ensures var (u, sequence) := ProjectModelRow(t, modelId, alias, content, identity, required).value;
            HoldsModel(u, modelId, alias, content, identity, required, sequence)
  {
    hide MatchingModels, FirstWithAlias, HasBase;
    var (u, sequence) := ProjectModelRow(t, modelId, alias, content, identity, required).value;
    var rows := MatchingModels(t.models, modelId, alias);
    if FirstWithAlias(rows, alias).None? {
      assert u.models[|t.models|] == ModelRow(sequence, modelId, alias, content);
    }
    if required.Some? {
      BaseStays(t.models, u.models, modelId, alias, content);
    }
  }

  lemma BaseStays(rows: seq<ModelRow>, later: seq<ModelRow>, modelId: string, alias: Option<string>, content: ModelContent)
    requires rows <= later && HasBase(MatchingModels(rows, modelId, alias), modelId, content)
    ensures HasBase(MatchingModels(later, modelId, alias), modelId, content)
  {
    var base :| base in MatchingModels(rows, modelId, alias)
      && base.modelId == modelId && base.alias.None? && base.content == content;
    var i :| 0 <= i < |rows| && rows[i] == base;
    assert later[i] == base;
  }

  /** A held model's row is the one its slot finds, so the same write changes nothing. */
  lemma HeldModelIsFound(
    t: Tables, modelId: string, alias: Option<string>, content: ModelContent, identity: Identity,
    required: Option<Identity>, sequence: int)
    requires Models(t) && HoldsModel(t, modelId, alias, content, identity, required, sequence)
    ensures ProjectModelRow(t, modelId, alias, content, identity, required) == Ok((t, sequence))
  {
    hide MatchingModels, FirstWithAlias, HasBase, Models;
    SlotFindsItsRow(t, ModelRow(sequence, modelId, alias, content));
  }

  /** A slot has one row, so looking the slot up finds it. */
  lemma SlotFindsItsRow(t: Tables, row: ModelRow)
    requires Models(t) && row in t.models
    ensures FirstWithAlias(MatchingModels(t.models, row.modelId, row.alias), row.alias) == Some(row)
  {
    var rows := MatchingModels(t.models, row.modelId, row.alias);
    assert row in rows;
    var found := FirstWithAlias(rows, row.alias).value;
    assert SameSlot(row, found) && SameSlot(found, row);
    var i :| 0 <= i < |t.models| && t.models[i] == row;
    var j :| 0 <= j < |t.models| && t.models[j] == found;
    assert i == j;
  }

  lemma HeldModelStays(
    t: Tables, u: Tables, modelId: string, alias: Option<string>, content: ModelContent, identity: Identity,
    required: Option<Identity>, sequence: int)
    requires Extends(t, u) && HoldsModel(t, modelId, alias, content, identity, required, sequence)
    ensures HoldsModel(u, modelId, alias, content, identity, required, sequence)
  {
    var i :| 0 <= i < |t.models| && t.models[i] == ModelRow(sequence, modelId, alias, content);
    assert u.models[i] == t.models[i];
    if required.Some? {
      BaseStays(t.models, u.models, modelId, alias, content);
    }
  }

  /** Replaying a model or release command at any later time succeeds with the same sequence and changes nothing. */
  lemma ModelReplayIsIdle(t: Tables, c: Command, later: seq<Event>)
    requires Consistent(t) && Validated(c) && (c.ProjectModel? || c.ProjectRelease?) && AllValidated(later)
    requires Transact(t, c).Ok?
    ensures After(Run(After(t, c), later), c) == Run(After(t, c), later)
    ensures Receipt(Run(After(t, c), later), c) == Receipt(t, c)
  {
    hide ProjectModelRow, Validated, Facts.Inv, Recordings;
    TransactionsAreSafe(t, c);
    var first := After(t, c);
    RunsOnlyMoveForward(first, later);
    var u := Run(first, later);
    var sequence := Receipt(t, c).value[0];
    match c {
      case ProjectModel(id, content, identity) =>
        ModelIsHeld(t, id, None, content, identity, None);
        HeldModelStays(first, u, id, None, content, identity, None, sequence);
        HeldModelIsFound(u, id, None, content, identity, None, sequence);
      case ProjectRelease(id, content, modelIdentity, alias, identity) =>
        ModelIsHeld(t, id, Some(alias), content, identity, Some(modelIdentity));
        HeldModelStays(first, u, id, Some(alias), content, identity, Some(modelIdentity), sequence);
        HeldModelIsFound(u, id, Some(alias), content, identity, Some(modelIdentity), sequence);
    }
  }

  /** A release alias names one model, in one row, for ever. */
  lemma AliasNamesOneModelForever(events: seq<Event>, later: seq<Event>, i: nat, j: nat)
    requires AllValidated(events) && AllValidated(later)
    requires i < |Run(EMPTY, events).models| && Run(EMPTY, events).models[i].alias.Some?
    requires j < |Run(Run(EMPTY, events), later).models|
    requires Run(Run(EMPTY, events), later).models[j].alias == Run(EMPTY, events).models[i].alias
    ensures j == i && Run(Run(EMPTY, events), later).models[j] == Run(EMPTY, events).models[i]
  {
    var t := Run(EMPTY, events);
    var u := Run(t, later);
    RunsOnlyMoveForward(EMPTY, events);
    RunsOnlyMoveForward(t, later);
    assert u.models[i] == t.models[i];
    assert SameSlot(u.models[i], u.models[j]) && SameSlot(u.models[j], u.models[i]);
  }

  /** Behind every release row stands an earlier base row of the same model with the same content. */
  lemma ReleasesHaveEarlierBases(events: seq<Event>, j: nat) returns (i: nat)
    requires AllValidated(events)
    requires j < |Run(EMPTY, events).models| && Run(EMPTY, events).models[j].alias.Some?
    ensures i < j
    ensures var rows := Run(EMPTY, events).models;
            && rows[i].alias.None? && rows[i].modelId == rows[j].modelId && rows[i].content == rows[j].content
            && rows[i].sequence < rows[j].sequence
  {
    hide Models, Recordings, Run;
    EveryReachableDatabaseIsConsistent(events);
    i := BaseBehind(Run(EMPTY, events), j);
  }

  lemma ModelsAreBased(t: Tables, j: nat)
    requires Models(t) && j < |t.models|
    ensures BasedOn(t.models, j) && forall i :: 0 <= i < j ==> t.models[i].sequence < t.models[j].sequence
  {
    hide BasedOn;
  }

  lemma BaseBehind(t: Tables, j: nat) returns (i: nat)
    requires Models(t) && j < |t.models| && t.models[j].alias.Some?
    ensures i < j && t.models[i].sequence < t.models[j].sequence
    ensures t.models[i].alias.None? && t.models[i].modelId == t.models[j].modelId
    ensures t.models[i].content == t.models[j].content
  {
    hide Models;
    var rows := t.models;
    ModelsAreBased(t, j);
    var base :| base in rows[..j] && base.modelId == rows[j].modelId && base.alias.None? && base.content == rows[j].content;
    i :| 0 <= i < j && rows[..j][i] == base;
  }
}
