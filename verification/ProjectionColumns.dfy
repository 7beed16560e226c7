/** The projection transactions on the columns of the tables: what each of them writes, names and refuses. */
module ProjectionColumns {
  import opened Outcomes
  import opened Facts
  import opened ProjectionWriters
  import opened ProjectionRuns

  // ----- what is stored

  /** The version of a recording with the largest sequence. */
  ghost predicate IsNewest(rows: seq<RecordingRow>, id: string, row: RecordingRow)
  {
    && row in rows && row.recordingId == id
    && forall other :: other in rows && other.recordingId == id ==> other.sequence <= row.sequence
  }

  ghost predicate IsUnknown(rows: seq<RecordingRow>, id: string)
  {
    forall row :: row in rows ==> row.recordingId != id
  }

  lemma {:induction false} LatestIsLast(rows: seq<RecordingRow>, id: string)
    ensures LatestRecording(rows, id).Some? ==> exists k ::
      && 0 <= k < |rows| && rows[k] == LatestRecording(rows, id).value
      && forall j :: k < j < |rows| ==> rows[j].recordingId != id
  {
    var n := |rows| - 1;
    if rows != [] && rows[n].recordingId != id {
      LatestIsLast(rows[..n], id);
      if LatestRecording(rows[..n], id).Some? {
        var k :| 0 <= k < n && rows[..n][k] == LatestRecording(rows[..n], id).value
          && forall j :: k < j < n ==> rows[..n][j].recordingId != id;
        assert forall j :: k < j < |rows| ==> j == n || rows[j] == rows[..n][j];
        assert rows[k] == LatestRecording(rows, id).value;
      }
    }
  }

  lemma LastIsNewest(t: Tables, id: string, k: nat, row: RecordingRow)
    requires Recordings(t) && k < |t.recordings| && t.recordings[k].recordingId == id
    requires forall j :: k < j < |t.recordings| ==> t.recordings[j].recordingId != id
    ensures IsNewest(t.recordings, id, row) <==> row == t.recordings[k]
  {
    var rows := t.recordings;
    forall other | other in rows && other.recordingId == id
      ensures other == rows[k] || other.sequence < rows[k].sequence
    {
      var j :| 0 <= j < |rows| && rows[j] == other;
    }
  }

  /** The last row of a recording is its newest version. */
  lemma LatestIsNewest(t: Tables, id: string, row: RecordingRow)
    requires Recordings(t)
    ensures LatestRecording(t.recordings, id) == Some(row) <==> IsNewest(t.recordings, id, row)
    ensures LatestRecording(t.recordings, id).None? <==> IsUnknown(t.recordings, id)
  {
    hide Recordings, LatestRecording;
    var rows, latest := t.recordings, LatestRecording(t.recordings, id);
    if latest.Some? {
      LatestIsLast(rows, id);
      var k :| 0 <= k < |rows| && rows[k] == latest.value && forall j :: k < j < |rows| ==> rows[j].recordingId != id;
      LastIsNewest(t, id, k, row);
    }
  }

  /** The tables with one recording version more. */
  function WithVersion(t: Tables, row: RecordingRow): (u: Tables)
  {
    t.(last := row.sequence, recordings := t.recordings + [row])
  }

  /** A first version is pending; a changed one keeps the analysis state; an unchanged one is not written again. */
  lemma VersionsByColumns(t: Tables, id: string, values: RecordingValues)
    requires Recordings(t)
    ensures var (u, sequence) := UpsertRecording(t, id, values);
            && (IsUnknown(t.recordings, id) ==>
                  sequence == t.last + 1 && u == WithVersion(t, RecordingRow(sequence, id, values, "pending")))
            && (forall row :: IsNewest(t.recordings, id, row) && row.values == values ==> u == t && sequence == row.sequence)
            && (forall row :: IsNewest(t.recordings, id, row) && row.values != values ==>
                  sequence == t.last + 1 && u == WithVersion(t, RecordingRow(sequence, id, values, row.analysisState)))
  {
    hide IsNewest, Recordings, LatestRecording;
    forall row ensures LatestRecording(t.recordings, id) == Some(row) <==> IsNewest(t.recordings, id, row) {
      LatestIsNewest(t, id, row);
    }
    LatestIsNewest(t, id, RecordingRow(0, id, values, ""));
  }

  lemma CompletionByColumns(t: Tables, id: string)
    requires Recordings(t)
    ensures var r := CompleteRecording(t, id);
            && (IsUnknown(t.recordings, id) ==> r == Err(InvalidInput))
            && (forall row :: IsNewest(t.recordings, id, row) ==>
                  r == if row.analysisState == "complete" then Ok((t, row.sequence))
                       else Ok((WithVersion(t, RecordingRow(t.last + 1, id, row.values, "complete")), t.last + 1)))
  {
    hide IsNewest, Recordings, LatestRecording;
    forall row ensures LatestRecording(t.recordings, id) == Some(row) <==> IsNewest(t.recordings, id, row) {
      LatestIsNewest(t, id, row);
    }
    LatestIsNewest(t, id, RecordingRow(0, id, RecordingValues("", 0, 0, 0, false), ""));
  }

  // ----- facts

  /** The identity is stored with another digest or another document. */
  predicate Disagrees(ids: IdentityTable, i: Identity)
  {
    && (i.kind, i.logicalId) in ids
    && (ids[(i.kind, i.logicalId)].digest != i.digest || ids[(i.kind, i.logicalId)].document != i.document)
  }

  lemma ChecksByColumns(ids: IdentityTable, i: Identity)
    ensures Check(ids, i) == if Disagrees(ids, i) then Err(Conflict) else Ok((i.kind, i.logicalId) in ids)
  {
  }

  ghost predicate SomeDisagree<V>(ids: IdentityTable, facts: seq<Fact<V>>)
  {
    exists k :: 0 <= k < |facts| && Disagrees(ids, facts[k].identity)
  }

  lemma AllChecksByColumns<V>(ids: IdentityTable, facts: seq<Fact<V>>)
    ensures AllCheck(ids, Identities(facts)) <==> !SomeDisagree(ids, facts)
    ensures !SomeDisagree(ids, facts) ==> forall f :: f in facts ==> Check(ids, f.identity).Ok?
  {
    hide Check, Disagrees;
    var all := Identities(facts);
    forall i ensures Check(ids, i).Ok? <==> !Disagrees(ids, i) {
      ChecksByColumns(ids, i);
    }
    forall k | 0 <= k < |facts| ensures all[k] in all && all[k] == facts[k].identity {
    }
  }

  /** A fact is stored under its identifier with other values. */
  ghost predicate Differs<V(!new)>(rows: seq<FactRow<V>>, f: Fact<V>)
  {
    exists row :: row in rows && row.id == f.id && row.values != f.values
  }

  ghost predicate SomeDiffer<V(!new)>(rows: seq<FactRow<V>>, facts: seq<Fact<V>>)
  {
    exists k :: 0 <= k < |facts| && Differs(rows, facts[k])
  }

  lemma OneFactByColumns<V(!new)>(before: FactTable<V>, t: FactTable<V>, f: Fact<V>, kind: string)
    requires Facts.Inv(before, kind)
    ensures AddFact(before, t, f) == Err(Conflict) <==> Differs(before.rows, f)
    ensures AddFact(before, t, f).Err? <==> Differs(before.rows, f)
  {
    var latest := Latest(before.rows, f.id);
    forall row | row in before.rows && row.id == f.id ensures latest == Some(row) {
      LatestIsTheOnlyRow(before, row, kind);
    }
  }

  lemma {:induction false} FactsRefusedByColumns<V(!new)>(
    before: FactTable<V>, t: FactTable<V>, facts: seq<Fact<V>>, kind: string)
    requires Facts.Inv(before, kind)
    ensures AddFacts(before, t, facts).Err? <==> SomeDiffer(before.rows, facts)
    ensures AddFacts(before, t, facts).Err? ==> AddFacts(before, t, facts) == Err(Conflict)
  {
    hide Facts.Inv, AddFact, Differs;
    if facts != [] {
      var n := |facts| - 1;
      FactsRefusedByColumns(before, t, facts[..n], kind);
      if AddFacts(before, t, facts[..n]).Ok? {
        OneFactByColumns(before, AddFacts(before, t, facts[..n]).value.0, facts[n], kind);
      }
      assert forall k :: 0 <= k < n ==> facts[..n][k] == facts[k];
    }
  }

  /** New rows come behind the old ones under the next values of the sequence, none of which is left out. */
  ghost predicate NumberedOn<V>(t: FactTable<V>, u: FactTable<V>)
  {
    && t.rows <= u.rows && u.last - t.last == |u.rows| - |t.rows|
    && forall i :: |t.rows| <= i < |u.rows| ==> u.rows[i].sequence == t.last + 1 + (i - |t.rows|)
  }

  lemma {:induction false} NewFactsAreNumberedOn<V>(before: FactTable<V>, t: FactTable<V>, facts: seq<Fact<V>>)
    requires AddFacts(before, t, facts).Ok?
    ensures NumberedOn(t, AddFacts(before, t, facts).value.0)
  {
    if facts != [] {
      var n := |facts| - 1;
      NewFactsAreNumberedOn(before, t, facts[..n]);
      OneMoreIsNumberedOn(before, t, AddFacts(before, t, facts[..n]).value.0, facts[n]);
    }
  }

  lemma OneMoreIsNumberedOn<V>(before: FactTable<V>, t: FactTable<V>, u: FactTable<V>, f: Fact<V>)
    requires NumberedOn(t, u) && AddFact(before, u, f).Ok?
    ensures NumberedOn(t, AddFact(before, u, f).value.0)
  {
  }

  /** Each identity that was not stored is stored with the sequence of its fact; the others stay as they are. */
  ghost predicate IdentitiesNameTheirRows<V>(
    before: IdentityTable, after: IdentityTable, facts: seq<Fact<V>>, sequences: seq<int>)
    requires |sequences| == |facts|
  {
    && (forall k :: k in before ==> k in after && after[k] == before[k])
    && (forall i :: 0 <= i < |facts| ==>
          var key := (facts[i].identity.kind, facts[i].identity.logicalId);
          key in after
          && (key !in before ==>
                after[key] == StoredIdentity(facts[i].identity.digest, facts[i].identity.document, sequences[i])))
    && (forall k :: k in after ==>
          k in before || exists i :: 0 <= i < |facts| && k == (facts[i].identity.kind, facts[i].identity.logicalId))
  }

  lemma {:induction false} NewIdentitiesNameTheirRows<V>(before: FactTable<V>, facts: seq<Fact<V>>, kind: string)
    requires Proper(facts, kind) && AddFacts(before, before, facts).Ok?
    ensures var (u, sequences) := AddFacts(before, before, facts).value;
            |sequences| == |facts| && IdentitiesNameTheirRows(before.ids, u.ids, facts, sequences)
  {
    hide IdentitiesNameTheirRows, AddFact;
    if facts == [] {
      NothingNamed<V>(before.ids);
    } else {
      var n := |facts| - 1;
      var rest, f := facts[..n], facts[n];
      assert facts == rest + [f];
      PrefixIsProper(rest, f, kind);
      NewIdentitiesNameTheirRows(before, rest, kind);
      var (u, sequences) := AddFacts(before, before, rest).value;
      NewFactIsUnnamed(rest, f, kind);
      OneMoreIsNamed(before, u, rest, sequences, f);
    }
  }

  lemma NothingNamed<V>(ids: IdentityTable)
    ensures IdentitiesNameTheirRows<V>(ids, ids, [], [])
  {
  }

  lemma OneMoreIsNamed<V>(before: FactTable<V>, u: FactTable<V>, rest: seq<Fact<V>>, sequences: seq<int>, f: Fact<V>)
    requires |sequences| == |rest| && IdentitiesNameTheirRows(before.ids, u.ids, rest, sequences)
    requires !NamedKey(rest, IdKey(f.identity)) && AddFact(before, u, f).Ok?
    ensures var (v, sequence) := AddFact(before, u, f).value;
            IdentitiesNameTheirRows(before.ids, v.ids, rest + [f], sequences + [sequence])
  {
    var (v, sequence) := AddFact(before, u, f).value;
    var all, named := rest + [f], sequences + [sequence];
    assert all[|rest|] == f && named[|rest|] == sequence;
    forall i | 0 <= i < |rest| ensures all[i] == rest[i] && named[i] == sequences[i] && rest[i] in rest {
    }
  }

  // ----- the catalog and the details

  lemma CatalogByColumns(t: Tables, id: string, ref: string)
    ensures CheckCatalog(t, id, ref).Ok? <==> id in t.catalog && t.catalog[id] == ref
    ensures CheckCatalog(t, id, ref) == Err(InvalidInput) <==> id !in t.catalog
    ensures CheckCatalog(t, id, ref) == Err(Conflict) <==> id in t.catalog && t.catalog[id] != ref
  {
  }

  /** A detail is stored once with the next sequence, and its sequence is named again when it is repeated. */
  lemma DetailsByColumns(t: Tables, id: string, detail: Option<string>)
    ensures var r := PublishDetail(t, id, detail);
            && (r == Err(InvalidInput) <==> detail == None)
            && (r == Err(Conflict) <==> detail != None && id in t.details && detail != Some(t.details[id].view))
            && (r.Ok? && id in t.details ==> r.value == (t, t.details[id].sequence))
            && (r.Ok? && id !in t.details ==>
                  && r.value.0.details == t.details[id := DetailRow(t.last + 1, detail.value)]
                  && r.value.0 == t.(last := t.last + 1, details := r.value.0.details) && r.value.1 == t.last + 1)
  {
  }

  // ----- models

  /** The base row of a model, or the release row of an alias. */
  predicate InSlotOf(row: ModelRow, modelId: string, alias: Option<string>)
  {
    row.alias == alias && (alias.None? ==> row.modelId == modelId)
  }

  /** The slot is taken by another model or with other content. */
  ghost predicate Clashes(rows: seq<ModelRow>, modelId: string, alias: Option<string>, content: ModelContent)
  {
    exists row :: row in rows && InSlotOf(row, modelId, alias) && (row.modelId != modelId || row.content != content)
  }

  ghost predicate HasBaseRow(rows: seq<ModelRow>, modelId: string, content: ModelContent)
  {
    exists row :: row in rows && row.modelId == modelId && row.alias == None && row.content == content
  }

  lemma SlotsByColumns(t: Tables, modelId: string, alias: Option<string>)
    requires Models(t)
    ensures var found := FirstWithAlias(MatchingModels(t.models, modelId, alias), alias);
            && (found.None? <==> forall row :: row in t.models ==> !InSlotOf(row, modelId, alias))
            && (forall row :: found == Some(row) <==> row in t.models && InSlotOf(row, modelId, alias))
  {
    hide Models;
    var rows := MatchingModels(t.models, modelId, alias);
    forall row | row in t.models && InSlotOf(row, modelId, alias)
      ensures FirstWithAlias(rows, alias) == Some(row)
    {
      SlotFindsItsRow(t, row);
      SameRowsMatch(t.models, row.modelId, modelId, alias);
    }
  }

  /** An alias matches the same first row whichever model is asked for with it. */
  lemma {:induction false} SameRowsMatch(rows: seq<ModelRow>, a: string, b: string, alias: Option<string>)
    requires alias.Some? || a == b
    ensures FirstWithAlias(MatchingModels(rows, a, alias), alias) == FirstWithAlias(MatchingModels(rows, b, alias), alias)
  {
    if rows != [] && a != b {
      SameRowsMatch(rows[1..], a, b, alias);
      FirstOfMatching(rows, a, alias);
      FirstOfMatching(rows, b, alias);
    }
  }

  lemma FirstOfMatching(rows: seq<ModelRow>, modelId: string, alias: Option<string>)
    requires rows != [] && alias.Some?
    ensures FirstWithAlias(MatchingModels(rows, modelId, alias), alias)
         == if rows[0].alias == alias then Some(rows[0])
            else FirstWithAlias(MatchingModels(rows[1..], modelId, alias), alias)
  {
    var rest := MatchingModels(rows[1..], modelId, alias);
    assert ([rows[0]] + rest)[1..] == rest;
    assert [] + rest == rest;
  }

  lemma BasesByColumns(rows: seq<ModelRow>, modelId: string, alias: Option<string>, content: ModelContent)
    ensures HasBase(MatchingModels(rows, modelId, alias), modelId, content) <==> HasBaseRow(rows, modelId, content)
  {
  }

  /** The new identity is stored with the row's sequence, unless it is stored already. */
  predicate Vouched(before: IdentityTable, after: IdentityTable, i: Identity, sequence: int)
  {
    after == if (i.kind, i.logicalId) in before then before
             else before[(i.kind, i.logicalId) := StoredIdentity(i.digest, i.document, sequence)]
  }

  /** A free slot gets one row with the next sequence; a taken one is named again. */
  lemma ModelsByColumns(
    t: Tables, modelId: string, alias: Option<string>, content: ModelContent, identity: Identity,
    required: Option<Identity>)
    requires Models(t) && ProjectModelRow(t, modelId, alias, content, identity, required).Ok?
    ensures var (u, sequence) := ProjectModelRow(t, modelId, alias, content, identity, required).value;
            && Vouched(t.analysisIds, u.analysisIds, identity, sequence)
            && u == t.(last := u.last, models := u.models, analysisIds := u.analysisIds)
            && (forall row :: row in t.models && InSlotOf(row, modelId, alias) ==>
                  u.models == t.models && u.last == t.last && sequence == row.sequence)
            && ((forall row :: row in t.models ==> !InSlotOf(row, modelId, alias)) ==>
                  && u.models == t.models + [ModelRow(sequence, modelId, alias, content)]
                  && u.last == sequence == t.last + 1)
  {
    hide Models, MatchingModels, FirstWithAlias, HasBase, InSlotOf;
    SlotsByColumns(t, modelId, alias);
  }

  lemma ModelsRefusedByColumns(
    t: Tables, modelId: string, alias: Option<string>, content: ModelContent, identity: Identity,
    required: Option<Identity>)
    requires Models(t)
    ensures var r := ProjectModelRow(t, modelId, alias, content, identity, required);
            var known := required.Some? ==>
              (required.value.kind, required.value.logicalId) in t.analysisIds && HasBaseRow(t.models, modelId, content);
            var disagree := Disagrees(t.analysisIds, identity)
              || (required.Some? && Disagrees(t.analysisIds, required.value));
            && (r == Err(Conflict) <==> disagree || (known && Clashes(t.models, modelId, alias, content)))
            && (r == Err(InvalidInput) <==> !disagree && !known)
  {
    hide Models, MatchingModels, FirstWithAlias, HasBase, InSlotOf, Check, Disagrees, HasBaseRow;
    ChecksByColumns(t.analysisIds, identity);
    if required.Some? {
      ChecksByColumns(t.analysisIds, required.value);
    }
    SlotsByColumns(t, modelId, alias);
    BasesByColumns(t.models, modelId, alias, content);
  }

  // ----- commands

  /** Which feature commands are refused, and as what. */
  lemma FeaturesRefusedByColumns(t: Tables, c: Command)
    requires Consistent(t) && c.ProjectFeatures?
    ensures var r := Receipt(t, c);
            var disagree := SomeDisagree(t.analysisIds, c.features);
            var listed := c.recordingId in t.catalog;
            var differ := SomeDiffer(t.features, c.features);
            && (r == Err(Conflict) <==> disagree || (listed && (t.catalog[c.recordingId] != c.ref || differ)))
            && (r == Err(InvalidInput) <==>
                  && !disagree
                  && (!listed || (t.catalog[c.recordingId] == c.ref && !differ && IsUnknown(t.recordings, c.recordingId))))
  {
    hide Consistent, SomeDisagree, SomeDiffer, IsUnknown, LatestRecording, AllCheck, AddFacts, Identities;
    assert Recordings(t) && Facts.Inv(Features(t), "feature") by { ConsistentParts(t); }
    AllChecksByColumns(t.analysisIds, c.features);
    CatalogByColumns(t, c.recordingId, c.ref);
    FactsRefusedByColumns(Features(t), Features(t), c.features, "feature");
    LatestIsNewest(t, c.recordingId, RecordingRow(0, "", RecordingValues("", 0, 0, 0, false), ""));
  }

  lemma ConsistentParts(t: Tables)
    requires Consistent(t)
    ensures Recordings(t) && Models(t)
    ensures Facts.Inv(Features(t), "feature") && Facts.Inv(Activities(t), "activity")
  {
  }

  /** Which recording commands are refused, and as what. */
  lemma RecordingsRefusedByColumns(t: Tables, c: Command)
    requires Consistent(t) && c.ProjectRecording?
    ensures var r := Receipt(t, c);
            var disagree := Disagrees(t.captureIds, c.identity) || SomeDisagree(t.captureIds, c.activities);
            var listed := c.recordingId in t.catalog;
            var differ := SomeDiffer(t.activities, c.activities);
            var rewritten := c.detail.Some? && c.recordingId in t.details && t.details[c.recordingId].view != c.detail.value;
            && (r == Err(Conflict) <==> disagree || (listed && (t.catalog[c.recordingId] != c.ref || differ || rewritten)))
            && (r == Err(InvalidInput) <==>
                  !disagree && (!listed || (t.catalog[c.recordingId] == c.ref && !differ && c.detail.None?)))
  {
    hide Consistent, SomeDisagree, SomeDiffer, LatestRecording, AllCheck, AddFacts, Identities, Disagrees, Bind,
         UpsertRecording, PublishDetail;
    AllCheckBoth(t.captureIds, c.identity, c.activities);
    AllChecksByColumns(t.captureIds, c.activities);
    ChecksByColumns(t.captureIds, c.identity);
    CatalogByColumns(t, c.recordingId, c.ref);
    if CheckCatalog(t, c.recordingId, c.ref).Ok? {
      var (u, sequence) := UpsertRecording(t, c.recordingId, c.values);
      var v := u.(captureIds := Bind(t.captureIds, u.captureIds, c.identity, sequence));
      assert v.activities == t.activities && v.details == t.details by { UpsertTouchesRecordings(t, c.recordingId, c.values); }
      assert Facts.Inv(Activities(v), "activity") by { UpsertedActivities(t, c.recordingId, c.values, c.identity); }
      FactsRefusedByColumns(Activities(v), Activities(v), c.activities, "activity");
      if AddFacts(Activities(v), Activities(v), c.activities).Ok? {
        var facts := AddFacts(Activities(v), Activities(v), c.activities).value.0;
        DetailsByColumns(v.(last := facts.last, activities := facts.rows, captureIds := facts.ids), c.recordingId, c.detail);
      }
    }
  }

  lemma AllCheckBoth<V>(ids: IdentityTable, identity: Identity, facts: seq<Fact<V>>)
    ensures AllCheck(ids, [identity] + Identities(facts)) <==> Check(ids, identity).Ok? && AllCheck(ids, Identities(facts))
  {
    hide Check;
    var all := [identity] + Identities(facts);
    assert all[0] in all;
    assert forall i :: i in Identities(facts) ==> i in all;
  }

  lemma UpsertTouchesRecordings(t: Tables, id: string, values: RecordingValues)
    ensures var u := UpsertRecording(t, id, values).0;
            && t.last <= u.last && u == t.(last := u.last, recordings := u.recordings)
  {
  }

  lemma UpsertedActivities(t: Tables, id: string, values: RecordingValues, identity: Identity)
    requires Consistent(t)
    ensures var (u, sequence) := UpsertRecording(t, id, values);
            Facts.Inv(Activities(u.(captureIds := Bind(t.captureIds, u.captureIds, identity, sequence))), "activity")
  {
    UpsertTouchesRecordings(t, id, values);
  }

  /** A committed recording command writes at most one version, names it first, and touches no analysis table. */
  lemma RecordedVersionByColumns(t: Tables, c: Command)
    requires Consistent(t) && c.ProjectRecording? && Transact(t, c).Ok?
    ensures var (u, receipt) := Transact(t, c).value;
            && |receipt| > 0
            && (IsUnknown(t.recordings, c.recordingId) ==>
                  u.recordings == t.recordings + [RecordingRow(t.last + 1, c.recordingId, c.values, "pending")]
                  && receipt[0] == t.last + 1)
            && (forall row :: IsNewest(t.recordings, c.recordingId, row) ==>
                  if row.values == c.values then u.recordings == t.recordings && receipt[0] == row.sequence
                  else && u.recordings == t.recordings + [RecordingRow(t.last + 1, c.recordingId, c.values, row.analysisState)]
                       && receipt[0] == t.last + 1)
            && u.features == t.features && u.models == t.models && u.analysisIds == t.analysisIds && u.catalog == t.catalog
  {
    hide Consistent, IsUnknown, IsNewest, Recordings, UpsertRecording, AddFacts, AllCheck, Identities, CheckCatalog;
    assert Recordings(t) by { ConsistentParts(t); }
    VersionsByColumns(t, c.recordingId, c.values);
    UpsertTouchesRecordings(t, c.recordingId, c.values);
  }

  /** Which model and release commands are refused, and as what; a committed one names its row. */
  lemma ModelCommandsByColumns(t: Tables, c: Command)
    requires Consistent(t) && (c.ProjectModel? || c.ProjectRelease?)
    ensures var r := Receipt(t, c);
            var alias := if c.ProjectModel? then None else Some(c.alias);
            var disagree := Disagrees(t.analysisIds, c.identity)
              || (c.ProjectRelease? && Disagrees(t.analysisIds, c.modelIdentity));
            var known := c.ProjectRelease? ==>
              && (c.modelIdentity.kind, c.modelIdentity.logicalId) in t.analysisIds
              && HasBaseRow(t.models, c.modelId, c.content);
            && (r == Err(Conflict) <==> disagree || (known && Clashes(t.models, c.modelId, alias, c.content)))
            && (r == Err(InvalidInput) <==> !disagree && !known)
            && (r.Ok? ==> |r.value| == 1 && ModelRow(r.value[0], c.modelId, alias, c.content) in After(t, c).models)
  {
    hide Consistent, Models, ProjectModelRow, Disagrees, HasBaseRow, Clashes;
    ConsistentParts(t);
    var alias := if c.ProjectModel? then None else Some(c.alias);
    var required := if c.ProjectModel? then None else Some(c.modelIdentity);
    ModelsRefusedByColumns(t, c.modelId, alias, c.content, c.identity, required);
    if ProjectModelRow(t, c.modelId, alias, c.content, c.identity, required).Ok? {
      ModelIsHeld(t, c.modelId, alias, c.content, c.identity, required);
    }
  }
}
