/** The projection transactions as the statements they are made of: single reads, then writes decided by the answers. */
module Statements {
  import opened Outcomes
  import opened Facts
  import opened ProjectionWriters

  // ----- table contents, apart from sequence values

  type IdentityContents = map<(string, string), (string, string)>

  datatype Version = Version(id: string, values: RecordingValues, state: string)

  datatype Named<V> = Named(id: string, values: V)

  datatype ModelVersion = ModelVersion(modelId: string, alias: Option<string>, content: ModelContent)

  datatype Contents = Contents(
    catalog: map<string, string>,
    recordings: seq<Version>,
    activities: seq<Named<ActivityValues>>,
    features: seq<Named<FeatureValues>>,
    models: seq<ModelVersion>,
    details: map<string, string>,
    captureIds: IdentityContents,
    analysisIds: IdentityContents)

  function VersionOf(row: RecordingRow): (v: Version)
  {
    Version(row.recordingId, row.values, row.analysisState)
  }

  function Versions(rows: seq<RecordingRow>): (r: seq<Version>)
    ensures |r| == |rows| && forall i :: 0 <= i < |rows| ==> r[i] == VersionOf(rows[i])
  {
    seq(|rows|, i requires 0 <= i < |rows| => VersionOf(rows[i]))
  }

  function NamedRows<V>(rows: seq<FactRow<V>>): (r: seq<Named<V>>)
    ensures |r| == |rows| && forall i :: 0 <= i < |rows| ==> r[i] == Named(rows[i].id, rows[i].values)
  {
    seq(|rows|, i requires 0 <= i < |rows| => Named(rows[i].id, rows[i].values))
  }

  function ModelVersions(rows: seq<ModelRow>): (r: seq<ModelVersion>)
    ensures |r| == |rows|
    ensures forall i :: 0 <= i < |rows| ==> r[i] == ModelVersion(rows[i].modelId, rows[i].alias, rows[i].content)
  {
    seq(|rows|, i requires 0 <= i < |rows| => ModelVersion(rows[i].modelId, rows[i].alias, rows[i].content))
  }

  function IdentityContentsOf(ids: IdentityTable): (r: IdentityContents)
  {
    map k | k in ids :: (ids[k].digest, ids[k].document)
  }

  function Views(details: map<string, DetailRow>): (r: map<string, string>)
  {
    map k | k in details :: details[k].view
  }

  function ContentsOf(t: Tables): (k: Contents)
  {
    Contents(t.catalog, Versions(t.recordings), NamedRows(t.activities), NamedRows(t.features),
             ModelVersions(t.models), Views(t.details), IdentityContentsOf(t.captureIds),
             IdentityContentsOf(t.analysisIds))
  }

  // ----- reads

  datatype Query =
    | CaptureIdentity(key: (string, string))
    | AnalysisIdentity(key: (string, string))
    | CatalogEntry(id: string)
    | NewestVersion(id: string)
    | NewestActivity(id: string)
    | NewestFeature(id: string)
    | ModelRows(modelId: string, alias: Option<string>, content: ModelContent)
    | PublishedDetail(id: string)

  /** `based` says that a base row with the content is among the model rows, `slot` is the first row of the alias. */
  datatype Answer =
    | IdentityRow(identity: Option<(string, string)>)
    | CatalogRow(ref: Option<string>)
    | VersionRow(version: Option<Version>)
    | ActivityRow(activity: Option<Named<ActivityValues>>)
    | FeatureRow(feature: Option<Named<FeatureValues>>)
    | MatchingRows(based: bool, slot: Option<ModelVersion>)
    | DetailView(view: Option<string>)

  function Last<T>(rows: seq<T>, p: T -> bool): (r: Option<T>)
  {
    if rows == [] then None
    else if p(rows[|rows| - 1]) then Some(rows[|rows| - 1])
    else Last(rows[..|rows| - 1], p)
  }

  function First<T>(rows: seq<T>, p: T -> bool): (r: Option<T>)
  {
    if rows == [] then None
    else
      var r := First(rows[..|rows| - 1], p);
      if r.Some? then r else if p(rows[|rows| - 1]) then Some(rows[|rows| - 1]) else None
  }

  function HasVersionId(id: string): (p: Version -> bool)
  {
    (v: Version) => v.id == id
  }

  function HasId<V>(id: string): (p: Named<V> -> bool)
  {
    (r: Named<V>) => r.id == id
  }

  /** The model statement returns the row, and the row has the asked alias. */
  function InSlot(modelId: string, alias: Option<string>): (p: ModelVersion -> bool)
  {
    (m: ModelVersion) => m.alias == alias && (alias.Some? || m.modelId == modelId)
  }

  predicate Based(models: seq<ModelVersion>, modelId: string, content: ModelContent)
  {
    ModelVersion(modelId, None, content) in models
  }

  function Lookup<K, V>(m: map<K, V>, k: K): (r: Option<V>)
  {
    if k in m then Some(m[k]) else None
  }

  /** What a statement returns when the rows of an entity are in the order of their sequence values. */
  function AnswerTo(k: Contents, q: Query): (a: Answer)
  {
    match q
    case CaptureIdentity(key) => IdentityRow(Lookup(k.captureIds, key))
    case AnalysisIdentity(key) => IdentityRow(Lookup(k.analysisIds, key))
    case CatalogEntry(id) => CatalogRow(Lookup(k.catalog, id))
    case NewestVersion(id) => VersionRow(Last(k.recordings, HasVersionId(id)))
    case NewestActivity(id) => ActivityRow(Last(k.activities, HasId(id)))
    case NewestFeature(id) => FeatureRow(Last(k.features, HasId(id)))
    case ModelRows(modelId, alias, content) =>
      MatchingRows(Based(k.models, modelId, content), First(k.models, InSlot(modelId, alias)))
    case PublishedDetail(id) => DetailView(Lookup(k.details, id))
  }

  function IdentityKeys<V(==)>(facts: seq<Fact<V>>): (r: set<(string, string)>)
  {
    set f | f in facts :: IdKey(f.identity)
  }

  function FactIds<V(==)>(facts: seq<Fact<V>>): (r: set<string>)
  {
    set f | f in facts :: f.id
  }

  /** Every read a command may perform. */
  function Needs(c: Command): (r: set<Query>)
  {
    match c
    case ProjectRecording(id, _, _, identity, activities, _) =>
      {CaptureIdentity(IdKey(identity)), CatalogEntry(id), NewestVersion(id), PublishedDetail(id)}
      + (set k | k in IdentityKeys(activities) :: CaptureIdentity(k))
      + (set i | i in FactIds(activities) :: NewestActivity(i))
    case ProjectFeatures(id, _, features) =>
      {CatalogEntry(id), NewestVersion(id)}
      + (set k | k in IdentityKeys(features) :: AnalysisIdentity(k))
      + (set i | i in FactIds(features) :: NewestFeature(i))
    case ProjectModel(id, content, identity) =>
      {AnalysisIdentity(IdKey(identity)), ModelRows(id, None, content)}
    case ProjectRelease(id, content, modelIdentity, alias, identity) =>
      {AnalysisIdentity(IdKey(identity)), AnalysisIdentity(IdKey(modelIdentity)), ModelRows(id, Some(alias), content)}
  }

  type Answers = map<Query, Answer>

  function AnswersTo(k: Contents, c: Command): (a: Answers)
  {
    map q | q in Needs(c) :: AnswerTo(k, q)
  }

  // ----- writes

  datatype Writes = Writes(
    recordings: seq<Version>,
    activities: seq<Named<ActivityValues>>,
    features: seq<Named<FeatureValues>>,
    models: seq<ModelVersion>,
    details: map<string, string>,
    captureIds: IdentityContents,
    analysisIds: IdentityContents)

  function Applied(k: Contents, w: Writes): (k': Contents)
  {
    Contents(k.catalog, k.recordings + w.recordings, k.activities + w.activities, k.features + w.features,
             k.models + w.models, k.details + w.details, k.captureIds + w.captureIds, k.analysisIds + w.analysisIds)
  }

  /** The stored identity a statement returned; nothing for an answer of another kind. */
  function Stored(a: Answers, q: Query): (r: Option<(string, string)>)
  {
    if q in a && a[q].IdentityRow? then a[q].identity else None
  }

  function CheckStored(stored: Option<(string, string)>, i: Identity): (r: Result<bool, ProjectionError>)
  {
    if stored.None? then Ok(false)
    else if stored.value == (i.digest, i.document) then Ok(true)
    else Err(Conflict)
  }

  predicate CaptureChecks(a: Answers, identities: seq<Identity>)
  {
    forall i :: i in identities ==> CheckStored(Stored(a, CaptureIdentity(IdKey(i))), i).Ok?
  }

  predicate AnalysisChecks(a: Answers, identities: seq<Identity>)
  {
    forall i :: i in identities ==> CheckStored(Stored(a, AnalysisIdentity(IdKey(i))), i).Ok?
  }

  function NewIdentity(stored: Option<(string, string)>, i: Identity): (r: IdentityContents)
  {
    if stored.Some? then map[] else map[IdKey(i) := (i.digest, i.document)]
  }

  /** The rows and identities that facts add, given the newest rows and the stored identities. */
  function FactWrites<V(==)>(
    newest: string -> Option<Named<V>>, stored: ((string, string)) -> Option<(string, string)>, facts: seq<Fact<V>>)
    : (r: Result<(seq<Named<V>>, IdentityContents), ProjectionError>)
  {
    if facts == [] then Ok(([], map[]))
    else
      var n := |facts| - 1;
      match FactWrites(newest, stored, facts[..n])
      case Err(e) => Err(e)
      case Ok((rows, ids)) =>
        var f := facts[n];
        var row := newest(f.id);
        if row.Some? && row.value.values != f.values then Err(Conflict)
        else
          var added := if row.Some? then rows else rows + [Named(f.id, f.values)];
          Ok((added, ids + NewIdentity(stored(IdKey(f.identity)), f.identity)))
  }

  function CatalogError(a: Answers, id: string, ref: string): (e: Option<ProjectionError>)
  {
    var q := CatalogEntry(id);
    if q !in a || !a[q].CatalogRow? || a[q].ref.None? then Some(InvalidInput)
    else if a[q].ref.value != ref then Some(Conflict)
    else None
  }

  function VersionSeen(a: Answers, id: string): (v: Option<Version>)
  {
    var q := NewestVersion(id);
    if q in a && a[q].VersionRow? then a[q].version else None
  }

  function ActivitySeen(a: Answers): (newest: string -> Option<Named<ActivityValues>>)
  {
    id => var q := NewestActivity(id); if q in a && a[q].ActivityRow? then a[q].activity else None
  }

  function FeatureSeen(a: Answers): (newest: string -> Option<Named<FeatureValues>>)
  {
    id => var q := NewestFeature(id); if q in a && a[q].FeatureRow? then a[q].feature else None
  }

  function StoredCapture(a: Answers): (stored: ((string, string)) -> Option<(string, string)>)
  {
    k => Stored(a, CaptureIdentity(k))
  }

  function StoredAnalysis(a: Answers): (stored: ((string, string)) -> Option<(string, string)>)
  {
    k => Stored(a, AnalysisIdentity(k))
  }

  function VersionWrites(seen: Option<Version>, id: string, values: RecordingValues): (r: seq<Version>)
  {
    if seen.None? then [Version(id, values, PENDING)]
    else if seen.value.values == values then []
    else [Version(id, values, seen.value.state)]
  }

  function DetailWrites(a: Answers, id: string, detail: Option<string>): (r: Result<map<string, string>, ProjectionError>)
  {
    var q := PublishedDetail(id);
    var seen := if q in a && a[q].DetailView? then a[q].view else None;
    if detail.None? then Err(InvalidInput)
    else if seen.None? then Ok(map[id := detail.value])
    else if seen == detail then Ok(map[])
    else Err(Conflict)
  }

  function RecordingWrites(a: Answers, c: Command): (r: Result<Writes, ProjectionError>)
    requires c.ProjectRecording?
  {
    if !CaptureChecks(a, [c.identity] + Identities(c.activities)) then Err(Conflict)
    else if CatalogError(a, c.recordingId, c.ref).Some? then Err(CatalogError(a, c.recordingId, c.ref).value)
    else
      match FactWrites(ActivitySeen(a), StoredCapture(a), c.activities)
      case Err(e) => Err(e)
      case Ok((rows, ids)) =>
        match DetailWrites(a, c.recordingId, c.detail)
        case Err(e) => Err(e)
        case Ok(details) =>
          Ok(Writes(VersionWrites(VersionSeen(a, c.recordingId), c.recordingId, c.values), rows, [], [], details,
                    NewIdentity(Stored(a, CaptureIdentity(IdKey(c.identity))), c.identity) + ids, map[]))
  }

  function FeaturesWrites(a: Answers, c: Command): (r: Result<Writes, ProjectionError>)
    requires c.ProjectFeatures?
  {
    if !AnalysisChecks(a, Identities(c.features)) then Err(Conflict)
    else if CatalogError(a, c.recordingId, c.ref).Some? then Err(CatalogError(a, c.recordingId, c.ref).value)
    else
      match FactWrites(FeatureSeen(a), StoredAnalysis(a), c.features)
      case Err(e) => Err(e)
      case Ok((rows, ids)) =>
        match VersionSeen(a, c.recordingId)
        case None => Err(InvalidInput)
        case Some(v) =>
          Ok(Writes(if v.state == COMPLETE then [] else [Version(c.recordingId, v.values, COMPLETE)],
                    [], rows, [], map[], map[], ids))
  }

  function ModelWrites(
    a: Answers, modelId: string, alias: Option<string>, content: ModelContent, identity: Identity,
    required: Option<Identity>): (r: Result<Writes, ProjectionError>)
  {
    var stored := Stored(a, AnalysisIdentity(IdKey(identity)));
    var q := ModelRows(modelId, alias, content);
    var rows := if q in a && a[q].MatchingRows? then a[q] else MatchingRows(false, None);
    if CheckStored(stored, identity).Err? then Err(Conflict)
    else if required.Some? && CheckStored(Stored(a, AnalysisIdentity(IdKey(required.value))), required.value).Err?
    then Err(Conflict)
    else if required.Some? && Stored(a, AnalysisIdentity(IdKey(required.value))).None? then Err(InvalidInput)
    else if required.Some? && !rows.based then Err(InvalidInput)
    else if rows.slot.Some? && (rows.slot.value.modelId != modelId || rows.slot.value.content != content)
    then Err(Conflict)
    else Ok(Writes([], [], [], if rows.slot.Some? then [] else [ModelVersion(modelId, alias, content)],
                   map[], map[], NewIdentity(stored, identity)))
  }

  /** What a command inserts once all its answers are in. */
  function WritesOf(a: Answers, c: Command): (r: Result<Writes, ProjectionError>)
  {
    match c
    case ProjectRecording(_, _, _, _, _, _) => RecordingWrites(a, c)
    case ProjectFeatures(_, _, _) => FeaturesWrites(a, c)
    case ProjectModel(id, content, identity) => ModelWrites(a, id, None, content, identity, None)
    case ProjectRelease(id, content, modelIdentity, alias, identity) =>
      ModelWrites(a, id, Some(alias), content, identity, Some(modelIdentity))
  }

  // ----- a transaction is its reads and its writes

  lemma {:induction false} NewestVersionIsLatest(rows: seq<RecordingRow>, id: string)
    ensures var r := LatestRecording(rows, id);
            Last(Versions(rows), HasVersionId(id)) == if r.Some? then Some(VersionOf(r.value)) else None
  {
    if rows != [] {
      var n := |rows| - 1;
      NewestVersionIsLatest(rows[..n], id);
      assert Versions(rows)[..n] == Versions(rows[..n]);
    }
  }

  lemma {:induction false} NewestFactIsLatest<V>(rows: seq<FactRow<V>>, id: string)
    ensures var r := Facts.Latest(rows, id);
            Last(NamedRows(rows), HasId(id)) == if r.Some? then Some(Named(r.value.id, r.value.values)) else None
  {
    if rows != [] {
      var n := |rows| - 1;
      NewestFactIsLatest(rows[..n], id);
      assert NamedRows(rows)[..n] == NamedRows(rows[..n]);
    }
  }

  function SlotOf(rows: seq<ModelRow>, modelId: string, alias: Option<string>): (r: Option<ModelRow>)
  {
    FirstWithAlias(MatchingModels(rows, modelId, alias), alias)
  }

  lemma {:induction false} SlotOneMore(rows: seq<ModelRow>, x: ModelRow, modelId: string, alias: Option<string>)
    ensures SlotOf(rows + [x], modelId, alias)
            == if SlotOf(rows, modelId, alias).Some? then SlotOf(rows, modelId, alias)
               else if x.alias == alias && (alias.Some? || x.modelId == modelId) then Some(x) else None
  {
    if rows == [] {
      assert rows + [x] == [x] && [x][1..] == [];
    } else {
      assert (rows + [x])[1..] == rows[1..] + [x];
      SlotOneMore(rows[1..], x, modelId, alias);
      SlotFromFront(rows, modelId, alias);
      SlotFromFront(rows + [x], modelId, alias);
    }
  }

  lemma SlotFromFront(rows: seq<ModelRow>, modelId: string, alias: Option<string>)
    requires rows != []
    ensures SlotOf(rows, modelId, alias)
            == if rows[0].alias == alias && (alias.Some? || rows[0].modelId == modelId) then Some(rows[0])
               else SlotOf(rows[1..], modelId, alias)
  {
    var rest := MatchingModels(rows[1..], modelId, alias);
    assert ([rows[0]] + rest)[1..] == rest && [] + rest == rest;
  }

  lemma NoSlot(modelId: string, alias: Option<string>)
    ensures SlotOf([], modelId, alias).None?
  {
  }

  lemma {:induction false} SlotIsFirst(rows: seq<ModelRow>, modelId: string, alias: Option<string>)
    ensures var r := SlotOf(rows, modelId, alias);
            First(ModelVersions(rows), InSlot(modelId, alias))
            == if r.Some? then Some(ModelVersion(r.value.modelId, r.value.alias, r.value.content)) else None
  {
    hide SlotOf;
    if rows == [] {
      NoSlot(modelId, alias);
    } else {
      var n := |rows| - 1;
      SlotIsFirst(rows[..n], modelId, alias);
      assert ModelVersions(rows)[..n] == ModelVersions(rows[..n]);
      assert rows == rows[..n] + [rows[n]];
      SlotOneMore(rows[..n], rows[n], modelId, alias);
    }
  }

  lemma BaseIsBased(rows: seq<ModelRow>, modelId: string, alias: Option<string>, content: ModelContent)
    ensures HasBase(MatchingModels(rows, modelId, alias), modelId, content)
            <==> Based(ModelVersions(rows), modelId, content)
  {
    var base := ModelVersion(modelId, None, content);
    if Based(ModelVersions(rows), modelId, content) {
      var i :| 0 <= i < |rows| && ModelVersions(rows)[i] == base;
      assert rows[i] in rows && rows[i] in MatchingModels(rows, modelId, alias);
    }
    if HasBase(MatchingModels(rows, modelId, alias), modelId, content) {
      var row :| row in MatchingModels(rows, modelId, alias)
        && row.modelId == modelId && row.alias.None? && row.content == content;
      var i :| 0 <= i < |rows| && rows[i] == row;
      assert ModelVersions(rows)[i] == base;
    }
  }

  /** The answers agree with the fact table: the newest row of each fact, and whether its identity is stored. */
  ghost predicate Tells<V>(
    newest: string -> Option<Named<V>>, stored: ((string, string)) -> Option<(string, string)>,
    before: FactTable<V>, facts: seq<Fact<V>>)
  {
    forall f :: f in facts ==>
      && newest(f.id) == Last(NamedRows(before.rows), HasId(f.id))
      && (stored(IdKey(f.identity)).Some? <==> IdKey(f.identity) in before.ids)
  }

  /** Inserting facts leaves what their writes say, or fails with the writes' error. */
  ghost predicate LeavesWrites<V(!new)>(
    before: FactTable<V>, r: Result<(FactTable<V>, seq<int>), ProjectionError>,
    w: Result<(seq<Named<V>>, IdentityContents), ProjectionError>)
  {
    match w
    case Err(e) => r == Err(e)
    case Ok((rows, ids)) =>
      && r.Ok? && NamedRows(r.value.0.rows) == NamedRows(before.rows) + rows
      && IdentityContentsOf(r.value.0.ids) == IdentityContentsOf(before.ids) + ids
  }

  lemma {:induction false} AddFactsWrites<V(!new)>(
    newest: string -> Option<Named<V>>, stored: ((string, string)) -> Option<(string, string)>,
    before: FactTable<V>, facts: seq<Fact<V>>)
    requires Tells(newest, stored, before, facts)
    ensures LeavesWrites(before, AddFacts(before, before, facts), FactWrites(newest, stored, facts))
  {
    hide AddFact, NamedRows, IdentityContentsOf, NewIdentity, Last;
    if facts == [] {
      NoFactsWriteNothing(before);
    } else {
      var n := |facts| - 1;
      assert facts[n] in facts && forall f :: f in facts[..n] ==> f in facts;
      AddFactsWrites(newest, stored, before, facts[..n]);
      if FactWrites(newest, stored, facts[..n]).Ok? {
        var (rows, ids) := FactWrites(newest, stored, facts[..n]).value;
        var u := AddFacts(before, before, facts[..n]).value.0;
        AddFactWrites(newest(facts[n].id), stored(IdKey(facts[n].identity)), before, u, rows, ids, facts[n]);
      }
    }
  }

  lemma NoFactsWriteNothing<V>(before: FactTable<V>)
    ensures NamedRows(before.rows) + [] == NamedRows(before.rows)
    ensures IdentityContentsOf(before.ids) + map[] == IdentityContentsOf(before.ids)
  {
  }

  lemma AddFactRefuses<V>(row: Option<Named<V>>, before: FactTable<V>, u: FactTable<V>, f: Fact<V>)
    requires row == Last(NamedRows(before.rows), HasId(f.id))
    ensures AddFact(before, u, f).Err? <==> row.Some? && row.value.values != f.values
    ensures AddFact(before, u, f).Err? ==> AddFact(before, u, f) == Err(Conflict)
  {
    hide Bind, Last;
    NewestFactIsLatest(before.rows, f.id);
  }

  lemma AddFactRows<V>(row: Option<Named<V>>, before: FactTable<V>, u: FactTable<V>, rows: seq<Named<V>>, f: Fact<V>)
    requires row == Last(NamedRows(before.rows), HasId(f.id)) && AddFact(before, u, f).Ok?
    requires NamedRows(u.rows) == NamedRows(before.rows) + rows
    ensures NamedRows(AddFact(before, u, f).value.0.rows)
         == NamedRows(before.rows) + (if row.Some? then rows else rows + [Named(f.id, f.values)])
  {
    hide Bind, Last;
    NewestFactIsLatest(before.rows, f.id);
    var t := AddFact(before, u, f).value.0;
    if row.None? {
      assert NamedRows(t.rows) == NamedRows(u.rows) + [Named(f.id, f.values)];
    }
  }

  lemma AddFactIdentities<V>(
    stored: Option<(string, string)>, before: FactTable<V>, u: FactTable<V>, ids: IdentityContents, f: Fact<V>)
    requires (stored.Some? <==> IdKey(f.identity) in before.ids) && AddFact(before, u, f).Ok?
    requires IdentityContentsOf(u.ids) == IdentityContentsOf(before.ids) + ids
    ensures IdentityContentsOf(AddFact(before, u, f).value.0.ids)
         == IdentityContentsOf(before.ids) + (ids + NewIdentity(stored, f.identity))
  {
    hide Bind, Last, IdentityContentsOf;
    var (t, sequence) := AddFact(before, u, f).value;
    BindingAddsIdentity(before.ids, u.ids, f.identity, sequence, stored);
    assert IdentityContentsOf(before.ids) + (ids + NewIdentity(stored, f.identity))
        == (IdentityContentsOf(before.ids) + ids) + NewIdentity(stored, f.identity);
  }

  lemma AddFactWrites<V>(
    row: Option<Named<V>>, stored: Option<(string, string)>, before: FactTable<V>, u: FactTable<V>,
    rows: seq<Named<V>>, ids: IdentityContents, f: Fact<V>)
    requires row == Last(NamedRows(before.rows), HasId(f.id)) && (stored.Some? <==> IdKey(f.identity) in before.ids)
    requires NamedRows(u.rows) == NamedRows(before.rows) + rows
    requires IdentityContentsOf(u.ids) == IdentityContentsOf(before.ids) + ids
    ensures AddFact(before, u, f).Err? <==> row.Some? && row.value.values != f.values
    ensures AddFact(before, u, f).Err? ==> AddFact(before, u, f) == Err(Conflict)
    ensures AddFact(before, u, f).Ok? ==>
      var t := AddFact(before, u, f).value.0;
      && NamedRows(t.rows) == NamedRows(before.rows) + (if row.Some? then rows else rows + [Named(f.id, f.values)])
      && IdentityContentsOf(t.ids) == IdentityContentsOf(before.ids) + (ids + NewIdentity(stored, f.identity))
  {
    hide AddFact, NamedRows, IdentityContentsOf, NewIdentity, Last;
    AddFactRefuses(row, before, u, f);
    if AddFact(before, u, f).Ok? {
      AddFactRows(row, before, u, rows, f);
      AddFactIdentities(stored, before, u, ids, f);
    }
  }

  lemma BindingAddsIdentity(
    before: IdentityTable, ids: IdentityTable, i: Identity, sequence: int, stored: Option<(string, string)>)
    requires stored.Some? <==> IdKey(i) in before
    ensures IdentityContentsOf(Bind(before, ids, i, sequence)) == IdentityContentsOf(ids) + NewIdentity(stored, i)
  {
  }

  lemma AnswersAreThere(k: Contents, c: Command, q: Query)
    requires q in Needs(c)
    ensures q in AnswersTo(k, c) && AnswersTo(k, c)[q] == AnswerTo(k, q)
  {
  }

  /** A stored identity passes the check exactly when the table's does. */
  lemma CheckIsCheck(ids: IdentityTable, i: Identity, stored: Option<(string, string)>)
    requires stored == Lookup(IdentityContentsOf(ids), IdKey(i))
    ensures CheckStored(stored, i) == Check(ids, i)
    ensures stored.Some? <==> IdKey(i) in ids
  {
  }

  lemma IdentityIsNeeded<V>(facts: seq<Fact<V>>, f: Fact<V>)
    requires f in facts
    ensures IdKey(f.identity) in IdentityKeys(facts) && f.id in FactIds(facts)
  {
  }

  lemma IdentitiesAreFacts<V>(facts: seq<Fact<V>>, i: Identity)
    ensures i in Identities(facts) <==> exists f :: f in facts && f.identity == i
  {
    if i in Identities(facts) {
      var k :| 0 <= k < |facts| && Identities(facts)[k] == i;
      assert facts[k] in facts;
    }
    if exists f :: f in facts && f.identity == i {
      var f :| f in facts && f.identity == i;
      var k :| 0 <= k < |facts| && facts[k] == f;
      assert Identities(facts)[k] == i;
    }
  }

  lemma IdentityAnswers(k: Contents, c: Command, key: (string, string))
    ensures CaptureIdentity(key) in Needs(c) ==>
      Stored(AnswersTo(k, c), CaptureIdentity(key)) == Lookup(k.captureIds, key)
    ensures AnalysisIdentity(key) in Needs(c) ==>
      Stored(AnswersTo(k, c), AnalysisIdentity(key)) == Lookup(k.analysisIds, key)
  {
  }

  lemma RowAnswers(k: Contents, c: Command, id: string)
    ensures NewestVersion(id) in Needs(c) ==>
      VersionSeen(AnswersTo(k, c), id) == Last(k.recordings, HasVersionId(id))
    ensures NewestActivity(id) in Needs(c) ==>
      ActivitySeen(AnswersTo(k, c))(id) == Last(k.activities, HasId(id))
    ensures NewestFeature(id) in Needs(c) ==>
      FeatureSeen(AnswersTo(k, c))(id) == Last(k.features, HasId(id))
  {
    hide Needs, AnswersTo, Last;
    if NewestVersion(id) in Needs(c) {
      AnswersAreThere(k, c, NewestVersion(id));
    }
    if NewestActivity(id) in Needs(c) {
      AnswersAreThere(k, c, NewestActivity(id));
    }
    if NewestFeature(id) in Needs(c) {
      AnswersAreThere(k, c, NewestFeature(id));
    }
  }

  lemma RecordingNeeds(c: Command)
    requires c.ProjectRecording?
    ensures forall i :: i in [c.identity] + Identities(c.activities) ==> CaptureIdentity(IdKey(i)) in Needs(c)
    ensures forall f :: f in c.activities ==> NewestActivity(f.id) in Needs(c)
    ensures NewestVersion(c.recordingId) in Needs(c)
  {
    forall i | i in [c.identity] + Identities(c.activities)
      ensures CaptureIdentity(IdKey(i)) in Needs(c)
    {
      if i != c.identity {
        assert i in Identities(c.activities);
        IdentitiesAreFacts(c.activities, i);
        var f :| f in c.activities && f.identity == i;
        IdentityIsNeeded(c.activities, f);
      }
    }
    forall f | f in c.activities ensures NewestActivity(f.id) in Needs(c) {
      IdentityIsNeeded(c.activities, f);
    }
  }

  lemma FeatureNeeds(c: Command)
    requires c.ProjectFeatures?
    ensures forall i :: i in Identities(c.features) ==> AnalysisIdentity(IdKey(i)) in Needs(c)
    ensures forall f :: f in c.features ==>
      NewestFeature(f.id) in Needs(c) && AnalysisIdentity(IdKey(f.identity)) in Needs(c)
    ensures NewestVersion(c.recordingId) in Needs(c)
  {
    forall i | i in Identities(c.features) ensures AnalysisIdentity(IdKey(i)) in Needs(c) {
      IdentitiesAreFacts(c.features, i);
      var f :| f in c.features && f.identity == i;
      IdentityIsNeeded(c.features, f);
    }
    forall f | f in c.features
      ensures NewestFeature(f.id) in Needs(c) && AnalysisIdentity(IdKey(f.identity)) in Needs(c)
    {
      IdentityIsNeeded(c.features, f);
    }
  }

  lemma RecordingAnswers(t: Tables, c: Command)
    requires c.ProjectRecording?
    ensures var a := AnswersTo(ContentsOf(t), c);
            && (forall i :: i in [c.identity] + Identities(c.activities) ==>
                  Stored(a, CaptureIdentity(IdKey(i))) == Lookup(IdentityContentsOf(t.captureIds), IdKey(i)))
            && VersionSeen(a, c.recordingId) == Last(Versions(t.recordings), HasVersionId(c.recordingId))
            && (forall f :: f in c.activities ==>
                  ActivitySeen(a)(f.id) == Last(NamedRows(t.activities), HasId(f.id)))
  {
    hide Needs, AnswersTo, ActivitySeen, Stored, VersionSeen, Identities, IdKey, HasId, Last;
    var k := ContentsOf(t);
    RecordingNeeds(c);
    forall i | i in [c.identity] + Identities(c.activities)
      ensures Stored(AnswersTo(k, c), CaptureIdentity(IdKey(i))) == Lookup(IdentityContentsOf(t.captureIds), IdKey(i))
    {
      IdentityAnswers(k, c, IdKey(i));
    }
    forall f | f in c.activities
      ensures ActivitySeen(AnswersTo(k, c))(f.id) == Last(NamedRows(t.activities), HasId(f.id))
    {
      RowAnswers(k, c, f.id);
    }
    RowAnswers(k, c, c.recordingId);
  }

  lemma CatalogErrorIsCheck(t: Tables, c: Command)
    requires c.ProjectRecording? || c.ProjectFeatures?
    ensures var e := CatalogError(AnswersTo(ContentsOf(t), c), c.recordingId, c.ref);
            var r := CheckCatalog(t, c.recordingId, c.ref);
            (e.None? <==> r.Ok?) && (e.Some? ==> r == Err(e.value))
  {
    AnswersAreThere(ContentsOf(t), c, CatalogEntry(c.recordingId));
  }

  lemma DetailWritesIsPublish(t: Tables, u: Tables, c: Command)
    requires c.ProjectRecording? && u.details == t.details
    ensures var w := DetailWrites(AnswersTo(ContentsOf(t), c), c.recordingId, c.detail);
            var r := PublishDetail(u, c.recordingId, c.detail);
            && (w.Ok? <==> r.Ok?) && (w.Err? ==> r == Err(w.error))
            && (w.Ok? ==>
                  && Views(r.value.0.details) == Views(t.details) + w.value
                  && r.value.0 == u.(last := r.value.0.last, details := r.value.0.details))
  {
    hide Needs, AnswersTo, Views;
    DetailAnswers(t, c);
    if DetailWrites(AnswersTo(ContentsOf(t), c), c.recordingId, c.detail).Ok? {
      PublishedViews(t.details, u.last + 1, c.recordingId, c.detail.value);
      assert Views(t.details) + map[] == Views(t.details);
    }
  }

  lemma DetailAnswers(t: Tables, c: Command)
    requires c.ProjectRecording?
    ensures var a := AnswersTo(ContentsOf(t), c);
            && PublishedDetail(c.recordingId) in a
            && a[PublishedDetail(c.recordingId)]
               == DetailView(if c.recordingId in t.details then Some(t.details[c.recordingId].view) else None)
  {
    AnswersAreThere(ContentsOf(t), c, PublishedDetail(c.recordingId));
  }

  lemma PublishedViews(details: map<string, DetailRow>, sequence: int, id: string, view: string)
    ensures id !in details ==> Views(details[id := DetailRow(sequence, view)]) == Views(details) + map[id := view]
  {
  }

  lemma VersionWritesIsUpsert(t: Tables, id: string, values: RecordingValues)
    ensures var u := UpsertRecording(t, id, values).0;
            && Versions(u.recordings)
               == Versions(t.recordings) + VersionWrites(Last(Versions(t.recordings), HasVersionId(id)), id, values)
            && u == t.(last := u.last, recordings := u.recordings)
  {
    NewestVersionIsLatest(t.recordings, id);
  }

  /** A committed recording transaction wrote what its answers decide, and it fails exactly when they refuse. */
  lemma RecordingIsItsWrites(t: Tables, c: Command)
    requires c.ProjectRecording? && Validated(c)
    ensures IsItsWrites(t, c)
  {
    var a := AnswersTo(ContentsOf(t), c);
    RecordingAnswers(t, c);
    RecordingChecks(t, c, a);
    CatalogErrorIsCheck(t, c);
    hide AnswersTo, CatalogError, CheckCatalog, ContentsOf, AllCheck, CaptureChecks;
    if AllCheck(t.captureIds, [c.identity] + Identities(c.activities)) && CheckCatalog(t, c.recordingId, c.ref).Ok? {
      RecordingFactsAreWrites(t, c, a);
    }
  }

  /** The tables once the recording's version and identity are written. */
  function Versioned(t: Tables, c: Command): (v: Tables)
    requires c.ProjectRecording?
  {
    var (u, sequence) := UpsertRecording(t, c.recordingId, c.values);
    u.(captureIds := Bind(t.captureIds, u.captureIds, c.identity, sequence))
  }

  lemma VersionedContents(t: Tables, c: Command, a: Answers)
    requires c.ProjectRecording? && Validated(c) && a == AnswersTo(ContentsOf(t), c)
    ensures var v := Versioned(t, c);
            && Versions(v.recordings)
               == Versions(t.recordings) + VersionWrites(VersionSeen(a, c.recordingId), c.recordingId, c.values)
            && IdentityContentsOf(v.captureIds)
               == IdentityContentsOf(t.captureIds) + NewIdentity(Stored(a, CaptureIdentity(IdKey(c.identity))), c.identity)
            && v == t.(last := v.last, recordings := v.recordings, captureIds := v.captureIds)
  {
    hide AnswersTo, ContentsOf, VersionWrites, UpsertRecording, NewIdentity, Bind, Versions, IdentityContentsOf,
         VersionSeen, Stored, Validated, Last;
    var (u, sequence) := UpsertRecording(t, c.recordingId, c.values);
    RecordingAnswers(t, c);
    VersionWritesIsUpsert(t, c.recordingId, c.values);
    var stored := Stored(a, CaptureIdentity(IdKey(c.identity)));
    assert c.identity in [c.identity] + Identities(c.activities);
    CheckIsCheck(t.captureIds, c.identity, stored);
    BindingAddsIdentity(t.captureIds, u.captureIds, c.identity, sequence, stored);
  }

  lemma ActivitiesLeaveWrites(t: Tables, c: Command, a: Answers)
    requires c.ProjectRecording? && Validated(c) && a == AnswersTo(ContentsOf(t), c)
    ensures var before := Activities(Versioned(t, c));
            LeavesWrites(before, AddFacts(before, before, c.activities),
                         FactWrites(ActivitySeen(a), StoredCapture(a), c.activities))
  {
    hide AnswersTo, ContentsOf, UpsertRecording, Bind, AddFacts, FactWrites, LeavesWrites, Tells, Validated, ActivitySeen,
         StoredCapture;
    var (u, sequence) := UpsertRecording(t, c.recordingId, c.values);
    VersionWritesIsUpsert(t, c.recordingId, c.values);
    ActivitiesTell(t, c, a, sequence);
    AddFactsWrites(ActivitySeen(a), StoredCapture(a), Activities(Versioned(t, c)), c.activities);
  }

  lemma RecordingFactsAreWrites(t: Tables, c: Command, a: Answers)
    requires c.ProjectRecording? && Validated(c) && a == AnswersTo(ContentsOf(t), c)
    requires CaptureChecks(a, [c.identity] + Identities(c.activities))
    requires AllCheck(t.captureIds, [c.identity] + Identities(c.activities))
    requires CatalogError(a, c.recordingId, c.ref).None? && CheckCatalog(t, c.recordingId, c.ref).Ok?
    ensures IsItsWrites(t, c)
  {
    hide AnswersTo, CatalogError, CheckCatalog, AllCheck, CaptureChecks, VersionWrites, DetailWrites, PublishDetail,
         AddFacts, FactWrites, UpsertRecording, ActivitySeen, StoredCapture, NewIdentity, Bind, VersionSeen, Stored,
         ContentsOf, Applied, Versions, NamedRows, Views, IdentityContentsOf, Validated, Identities;
    VersionedContents(t, c, a);
    ActivitiesLeaveWrites(t, c, a);
    var v := Versioned(t, c);
    if AddFacts(Activities(v), Activities(v), c.activities).Ok? {
      var facts := AddFacts(Activities(v), Activities(v), c.activities).value.0;
      var (rows, ids) := FactWrites(ActivitySeen(a), StoredCapture(a), c.activities).value;
      var x := v.(last := facts.last, activities := facts.rows, captureIds := facts.ids);
      DetailWritesIsPublish(t, x, c);
      MapsAssociate(IdentityContentsOf(t.captureIds),
                    NewIdentity(Stored(a, CaptureIdentity(IdKey(c.identity))), c.identity), ids);
      if PublishDetail(x, c.recordingId, c.detail).Ok? {
        RecordingContents(t, PublishDetail(x, c.recordingId, c.detail).value.0, RecordingWrites(a, c).value);
      }
    }
  }

  lemma RecordingContents(t: Tables, x: Tables, w: Writes)
    requires x == t.(last := x.last, recordings := x.recordings, activities := x.activities, details := x.details,
                     captureIds := x.captureIds)
    requires Versions(x.recordings) == Versions(t.recordings) + w.recordings
    requires NamedRows(x.activities) == NamedRows(t.activities) + w.activities
    requires Views(x.details) == Views(t.details) + w.details
    requires IdentityContentsOf(x.captureIds) == IdentityContentsOf(t.captureIds) + w.captureIds
    requires w.features == [] && w.models == [] && w.analysisIds == map[]
    ensures ContentsOf(x) == Applied(ContentsOf(t), w)
  {
    hide Versions, NamedRows, Views, IdentityContentsOf, ModelVersions;
    AddNothing(ContentsOf(t));
  }

  lemma MapsAssociate(a: IdentityContents, b: IdentityContents, c: IdentityContents)
    ensures a + b + c == a + (b + c)
  {
  }

  lemma AddNothing(k: Contents)
    ensures k.recordings + [] == k.recordings && k.activities + [] == k.activities && k.features + [] == k.features
    ensures k.models + [] == k.models && k.details + map[] == k.details
    ensures k.captureIds + map[] == k.captureIds && k.analysisIds + map[] == k.analysisIds
  {
  }

  lemma ActivitiesTell(t: Tables, c: Command, a: Answers, sequence: int)
    requires c.ProjectRecording? && Validated(c) && a == AnswersTo(ContentsOf(t), c)
    ensures Tells(ActivitySeen(a), StoredCapture(a),
                  FactTable(UpsertRecording(t, c.recordingId, c.values).0.last, t.activities,
                            Bind(t.captureIds, t.captureIds, c.identity, sequence)), c.activities)
  {
    hide AnswersTo, UpsertRecording;
    RecordingAnswers(t, c);
    forall f | f in c.activities
      ensures StoredCapture(a)(IdKey(f.identity)).Some?
              <==> IdKey(f.identity) in Bind(t.captureIds, t.captureIds, c.identity, sequence)
    {
      IdentitiesAreFacts(c.activities, f.identity);
      assert f.identity in [c.identity] + Identities(c.activities);
    }
  }

  lemma RecordingChecks(t: Tables, c: Command, a: Answers)
    requires c.ProjectRecording?
    requires forall i :: i in [c.identity] + Identities(c.activities) ==>
      Stored(a, CaptureIdentity(IdKey(i))) == Lookup(IdentityContentsOf(t.captureIds), IdKey(i))
    ensures CaptureChecks(a, [c.identity] + Identities(c.activities))
            <==> AllCheck(t.captureIds, [c.identity] + Identities(c.activities))
  {
    forall i | i in [c.identity] + Identities(c.activities)
      ensures CheckStored(Stored(a, CaptureIdentity(IdKey(i))), i) == Check(t.captureIds, i)
    {
      CheckIsCheck(t.captureIds, i, Stored(a, CaptureIdentity(IdKey(i))));
    }
  }

  /** The transaction commits exactly the writes its answers decide, and fails exactly when they do. */
  ghost predicate IsItsWrites(t: Tables, c: Command)
  {
    var w := WritesOf(AnswersTo(ContentsOf(t), c), c);
    && (w.Err? ==> Transact(t, c) == Err(w.error))
    && (w.Ok? ==> Transact(t, c).Ok? && ContentsOf(Transact(t, c).value.0) == Applied(ContentsOf(t), w.value))
  }

  lemma FeatureAnswers(t: Tables, c: Command)
    requires c.ProjectFeatures?
    ensures var a := AnswersTo(ContentsOf(t), c);
            && (forall i :: i in Identities(c.features) ==>
                  Stored(a, AnalysisIdentity(IdKey(i))) == Lookup(IdentityContentsOf(t.analysisIds), IdKey(i)))
            && VersionSeen(a, c.recordingId) == Last(Versions(t.recordings), HasVersionId(c.recordingId))
            && Tells(FeatureSeen(a), StoredAnalysis(a), Features(t), c.features)
  {
    hide Needs, AnswersTo, FeatureSeen, Stored, VersionSeen, Identities, IdKey, HasId, Last;
    var k := ContentsOf(t);
    FeatureNeeds(c);
    forall i | i in Identities(c.features)
      ensures Stored(AnswersTo(k, c), AnalysisIdentity(IdKey(i))) == Lookup(IdentityContentsOf(t.analysisIds), IdKey(i))
    {
      IdentityAnswers(k, c, IdKey(i));
    }
    forall f | f in c.features
      ensures FeatureSeen(AnswersTo(k, c))(f.id) == Last(NamedRows(t.features), HasId(f.id))
      ensures StoredAnalysis(AnswersTo(k, c))(IdKey(f.identity)).Some? <==> IdKey(f.identity) in t.analysisIds
    {
      RowAnswers(k, c, f.id);
      IdentityAnswers(k, c, IdKey(f.identity));
    }
    RowAnswers(k, c, c.recordingId);
  }

  lemma FeatureChecks(t: Tables, c: Command, a: Answers)
    requires c.ProjectFeatures?
    requires forall i :: i in Identities(c.features) ==>
      Stored(a, AnalysisIdentity(IdKey(i))) == Lookup(IdentityContentsOf(t.analysisIds), IdKey(i))
    ensures AnalysisChecks(a, Identities(c.features)) <==> AllCheck(t.analysisIds, Identities(c.features))
  {
    forall i | i in Identities(c.features)
      ensures CheckStored(Stored(a, AnalysisIdentity(IdKey(i))), i) == Check(t.analysisIds, i)
    {
      CheckIsCheck(t.analysisIds, i, Stored(a, AnalysisIdentity(IdKey(i))));
    }
  }

  lemma FeaturesAreTheirWrites(t: Tables, c: Command)
    requires c.ProjectFeatures? && Validated(c)
    ensures IsItsWrites(t, c)
  {
    hide AnswersTo, CatalogError, CheckCatalog, AllCheck, AnalysisChecks, AddFacts, FactWrites, FeatureSeen,
         StoredAnalysis, LatestRecording, Last;
    var a := AnswersTo(ContentsOf(t), c);
    FeatureAnswers(t, c);
    FeatureChecks(t, c, a);
    CatalogErrorIsCheck(t, c);
    AddFactsWrites(FeatureSeen(a), StoredAnalysis(a), Features(t), c.features);
    NewestVersionIsLatest(t.recordings, c.recordingId);
    AddNothing(ContentsOf(t));
  }

  lemma ModelIsItsWrites(
    t: Tables, a: Answers, modelId: string, alias: Option<string>, content: ModelContent, identity: Identity,
    required: Option<Identity>)
    requires Stored(a, AnalysisIdentity(IdKey(identity))) == Lookup(IdentityContentsOf(t.analysisIds), IdKey(identity))
    requires required.Some? ==> Stored(a, AnalysisIdentity(IdKey(required.value)))
                                == Lookup(IdentityContentsOf(t.analysisIds), IdKey(required.value))
    requires ModelRows(modelId, alias, content) in a
    requires a[ModelRows(modelId, alias, content)] == AnswerTo(ContentsOf(t), ModelRows(modelId, alias, content))
    ensures var w := ModelWrites(a, modelId, alias, content, identity, required);
            var r := ProjectModelRow(t, modelId, alias, content, identity, required);
            && (w.Err? ==> r == Err(w.error))
            && (w.Ok? ==> r.Ok? && ContentsOf(r.value.0) == Applied(ContentsOf(t), w.value))
  {
    hide MatchingModels, FirstWithAlias, HasBase, Based, First, InSlot, ContentsOf, NewIdentity, Applied;
    var stored := Stored(a, AnalysisIdentity(IdKey(identity)));
    CheckIsCheck(t.analysisIds, identity, stored);
    if required.Some? {
      CheckIsCheck(t.analysisIds, required.value, Stored(a, AnalysisIdentity(IdKey(required.value))));
      BaseIsBased(t.models, modelId, alias, content);
    }
    SlotIsFirst(t.models, modelId, alias);
    RowsAnswer(t, modelId, alias, content);
    if ProjectModelRow(t, modelId, alias, content, identity, required).Ok? {
      ModelRowContents(t, modelId, alias, content, identity, stored,
                       FirstWithAlias(MatchingModels(t.models, modelId, alias), alias));
    }
  }

  lemma RowsAnswer(t: Tables, modelId: string, alias: Option<string>, content: ModelContent)
    ensures AnswerTo(ContentsOf(t), ModelRows(modelId, alias, content))
         == MatchingRows(Based(ModelVersions(t.models), modelId, content),
                         First(ModelVersions(t.models), InSlot(modelId, alias)))
  {
  }

  /** What reusing the row of a slot, or appending one, does to the contents. */
  lemma ModelRowContents(
    t: Tables, modelId: string, alias: Option<string>, content: ModelContent, identity: Identity,
    stored: Option<(string, string)>, slot: Option<ModelRow>)
    requires stored.Some? <==> IdKey(identity) in t.analysisIds
    ensures var sequence := if slot.Some? then slot.value.sequence else t.last + 1;
            var u := if slot.Some? then t
                     else t.(last := sequence, models := t.models + [ModelRow(sequence, modelId, alias, content)]);
            ContentsOf(u.(analysisIds := Bind(t.analysisIds, t.analysisIds, identity, sequence)))
            == Applied(ContentsOf(t),
                       Writes([], [], [], if slot.Some? then [] else [ModelVersion(modelId, alias, content)],
                              map[], map[], NewIdentity(stored, identity)))
  {
    AddNothing(ContentsOf(t));
    var sequence := if slot.Some? then slot.value.sequence else t.last + 1;
    BindingAddsIdentity(t.analysisIds, t.analysisIds, identity, sequence, stored);
    assert ModelVersions(t.models + [ModelRow(t.last + 1, modelId, alias, content)])
        == ModelVersions(t.models) + [ModelVersion(modelId, alias, content)];
  }

  /**
   * Reading first and writing afterwards: a transaction commits exactly what its answers decide, and
   * is refused exactly when they refuse it.
   */
  lemma TransactionIsItsWrites(t: Tables, c: Command)
    requires Validated(c)
    ensures IsItsWrites(t, c)
  {
    hide ContentsOf, ModelWrites, ProjectModelRow, RecordingWrites, FeaturesWrites;
    match c {
      case ProjectRecording(_, _, _, _, _, _) => RecordingIsItsWrites(t, c);
      case ProjectFeatures(_, _, _) => FeaturesAreTheirWrites(t, c);
      case ProjectModel(id, content, identity) => ModelAnswers(t, c, id, None, content, identity, None);
      case ProjectRelease(id, content, modelIdentity, alias, identity) =>
        ModelAnswers(t, c, id, Some(alias), content, identity, Some(modelIdentity));
    }
  }

  lemma ModelAnswers(
    t: Tables, c: Command, modelId: string, alias: Option<string>, content: ModelContent, identity: Identity,
    required: Option<Identity>)
    requires {AnalysisIdentity(IdKey(identity)), ModelRows(modelId, alias, content)} <= Needs(c)
    requires required.Some? ==> AnalysisIdentity(IdKey(required.value)) in Needs(c)
    ensures var w := ModelWrites(AnswersTo(ContentsOf(t), c), modelId, alias, content, identity, required);
            var r := ProjectModelRow(t, modelId, alias, content, identity, required);
            && (w.Err? ==> r == Err(w.error))
            && (w.Ok? ==> r.Ok? && ContentsOf(r.value.0) == Applied(ContentsOf(t), w.value))
  {
    hide ModelWrites, ProjectModelRow, Needs;
    ModelIsItsWrites(t, AnswersTo(ContentsOf(t), c), modelId, alias, content, identity, required);
  }
}
