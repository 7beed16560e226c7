/** The transactional writers of the dashboard projections and what every run of them keeps. */
module ProjectionWriters {
  import opened Outcomes
  import opened Facts

  datatype ActivityValues = ActivityValues(recordingId: string, radioId: string, kind: string, started: int)

  datatype FeatureValues = FeatureValues(recordingId: string, methodId: string, score: real, semantics: string)

  datatype RecordingValues = RecordingValues(
    radioId: string, started: int, finished: int, segmentCount: int, objectAvailable: bool)

  datatype RecordingRow = RecordingRow(
    sequence: int, recordingId: string, values: RecordingValues, analysisState: string)

  datatype ModelContent = ModelContent(parameterCount: int, warnings: seq<string>)

  datatype ModelRow = ModelRow(sequence: int, modelId: string, alias: Option<string>, content: ModelContent)

  datatype DetailRow = DetailRow(sequence: int, view: string)

  /** `last` is the shared projection sequence; `catalog` maps published recordings to their exact references. */
  datatype Tables = Tables(
    last: int,
    catalog: map<string, string>,
    recordings: seq<RecordingRow>,
    activities: seq<FactRow<ActivityValues>>,
    features: seq<FactRow<FeatureValues>>,
    models: seq<ModelRow>,
    details: map<string, DetailRow>,
    captureIds: IdentityTable,
    analysisIds: IdentityTable)

  const PENDING := "pending"
  const COMPLETE := "complete"

  /** `detail` is the immutable part of a recording's detail view, or nothing for a view that is malformed. */
  datatype Command =
    | ProjectRecording(
        recordingId: string, values: RecordingValues, ref: string, identity: Identity,
        activities: seq<Fact<ActivityValues>>, detail: Option<string>)
    | ProjectFeatures(recordingId: string, ref: string, features: seq<Fact<FeatureValues>>)
    | ProjectModel(modelId: string, content: ModelContent, identity: Identity)
    | ProjectRelease(
        modelId: string, content: ModelContent, modelIdentity: Identity, alias: string, identity: Identity)

  /** What the command constructors and validators guarantee before a transaction starts. */
  ghost predicate Validated(c: Command)
  {
    match c
    case ProjectRecording(id, _, _, identity, activities, _) =>
      identity.kind == "recording" && identity.logicalId == id && Proper(activities, "activity")
    case ProjectFeatures(_, _, features) => Proper(features, "feature")
    case ProjectModel(id, _, identity) => identity.kind == "model" && identity.logicalId == id
    case ProjectRelease(id, _, modelIdentity, alias, identity) =>
      && modelIdentity.kind == "model" && modelIdentity.logicalId == id
      && identity.kind == "release" && identity.logicalId == alias
  }

  // ----- the statements

  function LatestRecording(rows: seq<RecordingRow>, id: string): (r: Option<RecordingRow>)
    ensures r.Some? ==> r.value in rows && r.value.recordingId == id
    ensures r.None? ==> forall row :: row in rows ==> row.recordingId != id
  {
    if rows == [] then None
    else if rows[|rows| - 1].recordingId == id then Some(rows[|rows| - 1])
    else LatestRecording(rows[..|rows| - 1], id)
  }

  function InsertRecording(t: Tables, id: string, values: RecordingValues, state: string): (u: Tables)
  {
    t.(last := t.last + 1, recordings := t.recordings + [RecordingRow(t.last + 1, id, values, state)])
  }

  function CheckCatalog(t: Tables, id: string, ref: string): (r: Result<(), ProjectionError>)
  {
    if id !in t.catalog then Err(InvalidInput)
    else if t.catalog[id] != ref then Err(Conflict)
    else Ok(())
  }

  function Identities<V>(facts: seq<Fact<V>>): (r: seq<Identity>)
    ensures |r| == |facts|
    ensures forall i :: 0 <= i < |facts| ==> r[i] == facts[i].identity
  {
    if facts == [] then [] else [facts[0].identity] + Identities(facts[1..])
  }

  function Activities(t: Tables): (f: FactTable<ActivityValues>)
  {
    FactTable(t.last, t.activities, t.captureIds)
  }

  function Features(t: Tables): (f: FactTable<FeatureValues>)
  {
    FactTable(t.last, t.features, t.analysisIds)
  }

  // ----- the transactions

  /** A changed recording gets a new version that carries the analysis state over. */
  function UpsertRecording(t: Tables, id: string, values: RecordingValues): (r: (Tables, int))
  {
    match LatestRecording(t.recordings, id)
    case Some(row) =>
      if row.values == values then (t, row.sequence)
      else (InsertRecording(t, id, values, row.analysisState), t.last + 1)
    case None => (InsertRecording(t, id, values, PENDING), t.last + 1)
  }

  /** Features complete their recording, which must have been projected. */
  function CompleteRecording(t: Tables, id: string): (r: Result<(Tables, int), ProjectionError>)
  {
    match LatestRecording(t.recordings, id)
    case None => Err(InvalidInput)
    case Some(row) =>
      if row.analysisState == COMPLETE then Ok((t, row.sequence))
      else Ok((InsertRecording(t, id, row.values, COMPLETE), t.last + 1))
  }

  function MatchingModels(rows: seq<ModelRow>, modelId: string, alias: Option<string>): (r: seq<ModelRow>)
    ensures forall row :: row in r <==> row in rows && (row.modelId == modelId || (alias.Some? && row.alias == alias))
  {
    if rows == [] then []
    else
      assert rows == [rows[0]] + rows[1..];
      (if rows[0].modelId == modelId || (alias.Some? && rows[0].alias == alias) then [rows[0]] else [])
      + MatchingModels(rows[1..], modelId, alias)
  }

  function FirstWithAlias(rows: seq<ModelRow>, alias: Option<string>): (r: Option<ModelRow>)
    ensures r.Some? ==> r.value in rows && r.value.alias == alias
    ensures r.None? ==> forall row :: row in rows ==> row.alias != alias
  {
    if rows == [] then None else if rows[0].alias == alias then Some(rows[0]) else FirstWithAlias(rows[1..], alias)
  }

  predicate HasBase(rows: seq<ModelRow>, modelId: string, content: ModelContent)
  {
    exists row :: row in rows && row.modelId == modelId && row.alias.None? && row.content == content
  }

  function ProjectModelRow(
    t: Tables, modelId: string, alias: Option<string>, content: ModelContent, identity: Identity,
    required: Option<Identity>) : (r: Result<(Tables, int), ProjectionError>)
  {
    if Check(t.analysisIds, identity).Err? then Err(Conflict)
    else if required.Some? && Check(t.analysisIds, required.value).Err? then Err(Conflict)
    else if required.Some? && Check(t.analysisIds, required.value) == Ok(false) then Err(InvalidInput)
    else
      var rows := MatchingModels(t.models, modelId, alias);
      if required.Some? && !HasBase(rows, modelId, content) then Err(InvalidInput)
      else
        match FirstWithAlias(rows, alias)
        case Some(row) =>
          if row.modelId != modelId || row.content != content then Err(Conflict)
          else Ok((t.(analysisIds := Bind(t.analysisIds, t.analysisIds, identity, row.sequence)), row.sequence))
        case None =>
          var sequence := t.last + 1;
          Ok((t.(last := sequence, models := t.models + [ModelRow(sequence, modelId, alias, content)],
                 analysisIds := Bind(t.analysisIds, t.analysisIds, identity, sequence)), sequence))
  }

  /** A recording's detail is published once; its immutable part may only be repeated. */
  function PublishDetail(t: Tables, id: string, detail: Option<string>): (r: Result<(Tables, int), ProjectionError>)
  {
    if detail.None? then Err(InvalidInput)
    else if id in t.details then
      if t.details[id].view == detail.value then Ok((t, t.details[id].sequence)) else Err(Conflict)
    else
      Ok((t.(last := t.last + 1, details := t.details[id := DetailRow(t.last + 1, detail.value)]), t.last + 1))
  }

  /** The tables a successful command commits, and its receipt; an error rolls everything back. */
  function Transact(t: Tables, c: Command): (r: Result<(Tables, seq<int>), ProjectionError>)
  {
    match c
    case ProjectRecording(id, values, ref, identity, activities, detail) =>
      if !AllCheck(t.captureIds, [identity] + Identities(activities)) then Err(Conflict)
      else if CheckCatalog(t, id, ref).Err? then Err(CheckCatalog(t, id, ref).error)
      else
        var (u, sequence) := UpsertRecording(t, id, values);
        var v := u.(captureIds := Bind(t.captureIds, u.captureIds, identity, sequence));
        (match AddFacts(Activities(v), Activities(v), activities)
         case Err(e) => Err(e)
         case Ok((facts, sequences)) =>
           match PublishDetail(v.(last := facts.last, activities := facts.rows, captureIds := facts.ids), id, detail)
           case Err(e) => Err(e)
           case Ok((x, detailSequence)) => Ok((x, [sequence] + sequences + [detailSequence])))
    case ProjectFeatures(id, ref, features) =>
      if !AllCheck(t.analysisIds, Identities(features)) then Err(Conflict)
      else if CheckCatalog(t, id, ref).Err? then Err(CheckCatalog(t, id, ref).error)
      else (
        match AddFacts(Features(t), Features(t), features)
        case Err(e) => Err(e)
        case Ok((facts, sequences)) =>
          var u := t.(last := facts.last, features := facts.rows, analysisIds := facts.ids);
          match CompleteRecording(u, id)
          case Err(e) => Err(e)
          case Ok((v, sequence)) => Ok((v, sequences + [sequence])))
    case ProjectModel(id, content, identity) =>
      (match ProjectModelRow(t, id, None, content, identity, None)
       case Err(e) => Err(e)
       case Ok((u, sequence)) => Ok((u, [sequence])))
    case ProjectRelease(id, content, modelIdentity, alias, identity) =>
      (match ProjectModelRow(t, id, Some(alias), content, identity, Some(modelIdentity))
       case Err(e) => Err(e)
       case Ok((u, sequence)) => Ok((u, [sequence])))
  }

  function After(t: Tables, c: Command): (u: Tables)
  {
    if Transact(t, c).Ok? then Transact(t, c).value.0 else t
  }

  function Receipt(t: Tables, c: Command): (r: Result<seq<int>, ProjectionError>)
  {
    if Transact(t, c).Ok? then Ok(Transact(t, c).value.1) else Err(Transact(t, c).error)
  }

  /** The database; each method is one transaction under the advisory locks of its identities. */
  class Dashboard {
    var tables: Tables

    static method CheckAll(ids: IdentityTable, identities: seq<Identity>) returns (ok: bool)
      ensures ok == AllCheck(ids, identities)
    {
      for i := 0 to |identities|
        invariant AllCheck(ids, identities[..i])
      {
        if Check(ids, identities[i]).Err? {
          assert identities[i] in identities;
          return false;
        }
        assert identities[..i + 1] == identities[..i] + [identities[i]];
      }
      assert identities[..|identities|] == identities;
      ok := true;
    }

    static method WriteVersion(before: Tables, id: string, values: RecordingValues) returns (t: Tables, sequence: int)
      ensures (t, sequence) == UpsertRecording(before, id, values)
    {
      t := before;
      var latest := LatestRecording(t.recordings, id);
      if latest.Some? && latest.value.values == values {
        sequence := latest.value.sequence;
      } else {
        sequence := t.last + 1;
        t := InsertRecording(t, id, values, if latest.None? then PENDING else latest.value.analysisState);
      }
    }

    method ProjectRecording(
      id: string, values: RecordingValues, ref: string, identity: Identity,
      activities: seq<Fact<ActivityValues>>, detail: Option<string>)
      returns (r: Result<seq<int>, ProjectionError>)
      modifies this
      ensures var c := Command.ProjectRecording(id, values, ref, identity, activities, detail);
              tables == After(old(tables), c) && r == Receipt(old(tables), c)
    {
      hide AllCheck, CheckCatalog, UpsertRecording, AddFacts, PublishDetail, Identities;
      var identities := [identity] + Identities(activities);
      var consistent := CheckAll(tables.captureIds, identities);
      if !consistent {
        return Err(Conflict);
      }
      var inCatalog := CheckCatalog(tables, id, ref);
      if inCatalog.Err? {
        return Err(inCatalog.error);
      }
      var t, sequence := WriteVersion(tables, id, values);
      if IdKey(identity) !in tables.captureIds {
        t := t.(captureIds := t.captureIds[IdKey(identity) := StoredIdentity(identity.digest, identity.document, sequence)]);
      }
      var added := ProjectFacts(Activities(t), activities);
      if added.Err? {
        return Err(added.error);
      }
      var (facts, sequences) := added.value;
      var published := PublishDetail(
        t.(last := facts.last, activities := facts.rows, captureIds := facts.ids), id, detail);
      if published.Err? {
        return Err(published.error);
      }
      tables := published.value.0;
      r := Ok([sequence] + sequences + [published.value.1]);
    }

    method ProjectFeatures(id: string, ref: string, features: seq<Fact<FeatureValues>>)
      returns (r: Result<seq<int>, ProjectionError>)
      modifies this
      ensures var c := Command.ProjectFeatures(id, ref, features);
              tables == After(old(tables), c) && r == Receipt(old(tables), c)
    {
      var identities := Identities(features);
      var consistent := CheckAll(tables.analysisIds, identities);
      if !consistent {
        return Err(Conflict);
      }
      var inCatalog := CheckCatalog(tables, id, ref);
      if inCatalog.Err? {
        return Err(inCatalog.error);
      }
      var added := ProjectFacts(Features(tables), features);
      if added.Err? {
        return Err(added.error);
      }
      var (facts, sequences) := added.value;
      var completed := CompleteRecording(
        tables.(last := facts.last, features := facts.rows, analysisIds := facts.ids), id);
      if completed.Err? {
        return Err(completed.error);
      }
      tables := completed.value.0;
      r := Ok(sequences + [completed.value.1]);
    }

    method ProjectModel(modelId: string, content: ModelContent, identity: Identity)
      returns (r: Result<seq<int>, ProjectionError>)
      modifies this
      ensures var c := Command.ProjectModel(modelId, content, identity);
              tables == After(old(tables), c) && r == Receipt(old(tables), c)
    {
      var row := WriteModelRow(modelId, None, content, identity, None);
      r := if row.Err? then Err(row.error) else Ok([row.value]);
    }

    method ProjectRelease(
      modelId: string, content: ModelContent, modelIdentity: Identity, alias: string, identity: Identity)
      returns (r: Result<seq<int>, ProjectionError>)
      modifies this
      ensures var c := Command.ProjectRelease(modelId, content, modelIdentity, alias, identity);
              tables == After(old(tables), c) && r == Receipt(old(tables), c)
    {
      var row := WriteModelRow(modelId, Some(alias), content, identity, Some(modelIdentity));
      r := if row.Err? then Err(row.error) else Ok([row.value]);
    }

    method WriteModelRow(
      modelId: string, alias: Option<string>, content: ModelContent, identity: Identity, required: Option<Identity>)
      returns (r: Result<int, ProjectionError>)
      modifies this
      ensures match ProjectModelRow(old(tables), modelId, alias, content, identity, required)
              case Err(e) => tables == old(tables) && r == Err(e)
              case Ok((u, sequence)) => tables == u && r == Ok(sequence)
    {
      var known := Check(tables.analysisIds, identity);
      if known.Err? {
        return Err(Conflict);
      }
      if required.Some? {
        var base := Check(tables.analysisIds, required.value);
        if base.Err? {
          return Err(Conflict);
        }
        if base == Ok(false) {
          return Err(InvalidInput);
        }
      }
      var rows := MatchingModels(tables.models, modelId, alias);
      if required.Some? && !HasBase(rows, modelId, content) {
        return Err(InvalidInput);
      }
      var found := FindAlias(rows, alias);
      if found.Some? {
        var row := found.value;
        if row.modelId != modelId || row.content != content {
          return Err(Conflict);
        }
        tables := tables.(analysisIds := Bind(tables.analysisIds, tables.analysisIds, identity, row.sequence));
        return Ok(row.sequence);
      }
      var sequence := tables.last + 1;
      tables := tables.(last := sequence, models := tables.models + [ModelRow(sequence, modelId, alias, content)],
                        analysisIds := Bind(tables.analysisIds, tables.analysisIds, identity, sequence));
      r := Ok(sequence);
    }

    static method FindAlias(rows: seq<ModelRow>, alias: Option<string>) returns (found: Option<ModelRow>)
      ensures found == FirstWithAlias(rows, alias)
    {
      assert rows[0..] == rows;
      for i := 0 to |rows|
        invariant FirstWithAlias(rows, alias) == FirstWithAlias(rows[i..], alias)
      {
        assert rows[i..][0] == rows[i] && rows[i..][1..] == rows[i + 1..];
        if rows[i].alias == alias {
          return Some(rows[i]);
        }
      }
      found := None;
    }
  }
}
