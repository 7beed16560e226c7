/** Interleaved projection transactions: locks, committed reads, drawn sequence values, commits. */
module ConcurrentWriters {
  import opened Outcomes
  import opened Facts
  import opened ProjectionWriters
  import opened ProjectionRuns
  import opened Statements
  import Locks

  // ----- the committed database

  datatype Numbered<T> = Numbered(sequence: int, item: T)

  /** Rows in the order in which they were committed, each with the sequence value drawn when it was inserted. */
  datatype Database = Database(
    last: int,
    catalog: map<string, string>,
    recordings: seq<Numbered<Version>>,
    activities: seq<Numbered<Named<ActivityValues>>>,
    features: seq<Numbered<Named<FeatureValues>>>,
    models: seq<Numbered<ModelVersion>>,
    details: map<string, string>,
    captureIds: IdentityContents,
    analysisIds: IdentityContents)

  const EMPTY_DATABASE := Database(0, map[], [], [], [], [], map[], map[], map[])

  function Items<T>(rows: seq<Numbered<T>>): (r: seq<T>)
    ensures |r| == |rows| && forall i :: 0 <= i < |rows| ==> r[i] == rows[i].item
  {
    seq(|rows|, i requires 0 <= i < |rows| => rows[i].item)
  }

  function ContentsNow(db: Database): (k: Contents)
  {
    Contents(db.catalog, Items(db.recordings), Items(db.activities), Items(db.features), Items(db.models),
             db.details, db.captureIds, db.analysisIds)
  }

  /** `ORDER BY projection_sequence DESC LIMIT 1` among the rows of one entity. */
  function NewestRow<T>(rows: seq<Numbered<T>>, p: T -> bool): (r: Option<Numbered<T>>)
  {
    if rows == [] then None
    else
      var r, x := NewestRow(rows[..|rows| - 1], p), rows[|rows| - 1];
      if p(x.item) && (r.None? || r.value.sequence <= x.sequence) then Some(x) else r
  }

  /** The first row of a slot in `ORDER BY projection_sequence`. */
  function OldestRow<T>(rows: seq<Numbered<T>>, p: T -> bool): (r: Option<Numbered<T>>)
  {
    if rows == [] then None
    else
      var r, x := OldestRow(rows[..|rows| - 1], p), rows[|rows| - 1];
      if p(x.item) && (r.None? || x.sequence < r.value.sequence) then Some(x) else r
  }

  function ItemOf<T>(r: Option<Numbered<T>>): (x: Option<T>)
  {
    if r.None? then None else Some(r.value.item)
  }

  /** What one statement returns: it sees what is committed when it runs. */
  function AnswerNow(db: Database, q: Query): (a: Answer)
  {
    match q
    case CaptureIdentity(key) => IdentityRow(Lookup(db.captureIds, key))
    case AnalysisIdentity(key) => IdentityRow(Lookup(db.analysisIds, key))
    case CatalogEntry(id) => CatalogRow(Lookup(db.catalog, id))
    case NewestVersion(id) => VersionRow(ItemOf(NewestRow(db.recordings, HasVersionId(id))))
    case NewestActivity(id) => ActivityRow(ItemOf(NewestRow(db.activities, HasId(id))))
    case NewestFeature(id) => FeatureRow(ItemOf(NewestRow(db.features, HasId(id))))
    case ModelRows(modelId, alias, content) =>
      MatchingRows(Based(Items(db.models), modelId, content), ItemOf(OldestRow(db.models, InSlot(modelId, alias))))
    case PublishedDetail(id) => DetailView(Lookup(db.details, id))
  }

  // ----- which locks guard what

  function Ids<V>(facts: seq<Fact<V>>): (ids: seq<string>)
    ensures |ids| == |facts| && forall i :: 0 <= i < |facts| ==> ids[i] == facts[i].id
  {
    seq(|facts|, i requires 0 <= i < |facts| => facts[i].id)
  }

  function RequestOf(c: Command): (r: Locks.Request)
  {
    match c
    case ProjectRecording(id, _, _, _, activities, _) => Locks.Request.ProjectRecording(id, Ids(activities))
    case ProjectFeatures(id, _, features) => Locks.Request.ProjectFeatures(id, Ids(features))
    case ProjectModel(id, _, _) => Locks.Request.ProjectModel(id)
    case ProjectRelease(id, _, _, alias, _) => Locks.Request.ProjectRelease(id, alias)
  }

  function LockKeys(c: Command): (keys: seq<string>)
  {
    Locks.Keys(RequestOf(c))
  }

  function IdentityLock(key: (string, string)): (k: string)
  {
    key.0 + ":" + key.1
  }

  function VersionGuard(keys: seq<string>): (p: Version -> bool)
  {
    (v: Version) => "recording:" + v.id in keys
  }

  function ActivityGuard(keys: seq<string>): (p: Named<ActivityValues> -> bool)
  {
    (a: Named<ActivityValues>) => "activity:" + a.id in keys
  }

  function FeatureGuard(keys: seq<string>): (p: Named<FeatureValues> -> bool)
  {
    (f: Named<FeatureValues>) => "feature:" + f.id in keys
  }

  /** A model row concerns whoever holds its model or its alias. */
  function ModelGuard(keys: seq<string>): (p: ModelVersion -> bool)
  {
    (m: ModelVersion) => "model:" + m.modelId in keys || (m.alias.Some? && "release:" + m.alias.value in keys)
  }

  /** Whoever inserts a model row holds both. */
  predicate ModelLocked(keys: seq<string>, m: ModelVersion)
  {
    "model:" + m.modelId in keys && (m.alias.Some? ==> "release:" + m.alias.value in keys)
  }

  /** The keys cover everything the query looks at, except the catalog, which belongs to others. */
  predicate QueryLocked(keys: seq<string>, q: Query)
  {
    match q
    case CaptureIdentity(key) => IdentityLock(key) in keys
    case AnalysisIdentity(key) => IdentityLock(key) in keys
    case CatalogEntry(_) => true
    case NewestVersion(id) => "recording:" + id in keys
    case NewestActivity(id) => "activity:" + id in keys
    case NewestFeature(id) => "feature:" + id in keys
    case ModelRows(modelId, alias, _) =>
      "model:" + modelId in keys && (alias.Some? ==> "release:" + alias.value in keys)
    case PublishedDetail(id) => "recording:" + id in keys
  }

  ghost predicate WritesLocked(keys: seq<string>, w: Writes)
  {
    && (forall v :: v in w.recordings ==> "recording:" + v.id in keys)
    && (forall a :: a in w.activities ==> "activity:" + a.id in keys)
    && (forall f :: f in w.features ==> "feature:" + f.id in keys)
    && (forall m :: m in w.models ==> ModelLocked(keys, m))
    && (forall id :: id in w.details ==> "recording:" + id in keys)
    && (forall k :: k in w.captureIds ==> IdentityLock(k) in keys)
    && (forall k :: k in w.analysisIds ==> IdentityLock(k) in keys)
  }

  // ----- sessions and steps

  /** A transaction: its answers so far, and the sequence values its inserts have drawn. */
  datatype Session = Session(command: Command, answers: Answers, drawn: seq<int>)

  /** `log` lists the committed commands in commit order, each after the catalog its transaction saw. */
  datatype State = State(locks: Locks.State, sessions: seq<Session>, db: Database, log: seq<Event>)

  datatype Step =
    | Arrive(command: Command)
    | Lock(w: nat)
    | Ask(w: nat, query: Query)
    | Draw(w: nat, skipped: nat)
    | Commit(w: nat)
    | Rollback(w: nat)
    | PublishCatalog(catalog: map<string, string>)

  predicate Aligned(s: State)
  {
    |s.sessions| == |s.locks.writers|
  }

  predicate Open(s: State, w: nat)
  {
    Aligned(s) && w < |s.sessions| && s.locks.writers[w].Waiting?
  }

  /** The locking pass is over; only the detail lock may be left to take. */
  predicate Working(s: State, w: nat)
  {
    Open(s, w) && s.locks.writers[w].held >= |Locks.SortedDistinct(LockKeys(s.sessions[w].command))|
  }

  function RowCount(w: Writes): (n: nat)
  {
    |w.recordings| + |w.activities| + |w.features| + |w.models|
  }

  predicate Enabled(hash: Locks.Hash, s: State, step: Step)
  {
    match step
    case Arrive(_) => Aligned(s)
    case Lock(w) => Open(s, w) && Locks.CanAcquire(hash, s.locks, w)
    case Ask(w, q) => Working(s, w) && q in Needs(s.sessions[w].command) && q !in s.sessions[w].answers
    case Draw(w, _) => Working(s, w)
    case Commit(w) =>
      && Working(s, w) && Locks.CanCommit(s.locks, w)
      && s.sessions[w].answers.Keys == Needs(s.sessions[w].command)
      && var writes := WritesOf(s.sessions[w].answers, s.sessions[w].command);
         writes.Ok? && RowCount(writes.value) <= |s.sessions[w].drawn|
    case Rollback(w) => Open(s, w)
    case PublishCatalog(_) => true
  }

  function Number<T>(items: seq<T>, numbers: seq<int>): (rows: seq<Numbered<T>>)
    requires |items| <= |numbers|
    ensures |rows| == |items| && forall i :: 0 <= i < |items| ==> rows[i] == Numbered(numbers[i], items[i])
  {
    seq(|items|, i requires 0 <= i < |items| => Numbered(numbers[i], items[i]))
  }

  /** Committing makes the inserted rows visible, with the values drawn for them in insertion order. */
  function Store(db: Database, w: Writes, numbers: seq<int>): (db': Database)
    requires RowCount(w) <= |numbers|
  {
    db.(recordings := db.recordings + Number(w.recordings, numbers[|w.features|..]),
        activities := db.activities + Number(w.activities, numbers[|w.recordings|..]),
        features := db.features + Number(w.features, numbers),
        models := db.models + Number(w.models, numbers),
        details := db.details + w.details,
        captureIds := db.captureIds + w.captureIds,
        analysisIds := db.analysisIds + w.analysisIds)
  }

  function SeenCatalog(a: Answers, c: Command): (catalog: map<string, string>)
  {
    if c.ProjectModel? || c.ProjectRelease? then map[]
    else
      var q := CatalogEntry(c.recordingId);
      if q in a && a[q].CatalogRow? && a[q].ref.Some? then map[c.recordingId := a[q].ref.value] else map[]
  }

  function Next(hash: Locks.Hash, s: State, step: Step): (s': State)
    requires Enabled(hash, s, step)
  {
    match step
    case Arrive(c) =>
      s.(locks := Locks.Next(hash, s.locks, Locks.Arrive(RequestOf(c))), sessions := s.sessions + [Session(c, map[], [])])
    case Lock(w) => s.(locks := Locks.Next(hash, s.locks, Locks.Acquire(w)))
    case Ask(w, q) =>
      var x := s.sessions[w];
      s.(sessions := s.sessions[w := x.(answers := x.answers[q := AnswerNow(s.db, q)])])
    case Draw(w, skipped) =>
      var x, n := s.sessions[w], s.db.last + 1 + skipped;
      s.(sessions := s.sessions[w := x.(drawn := x.drawn + [n])], db := s.db.(last := n))
    case Commit(w) =>
      var x := s.sessions[w];
      State(Locks.Next(hash, s.locks, Locks.End(w)), s.sessions,
            Store(s.db, WritesOf(x.answers, x.command).value, x.drawn),
            s.log + [Event.Publish(SeenCatalog(x.answers, x.command)), Event.Write(x.command)])
    case Rollback(w) => s.(locks := Locks.Next(hash, s.locks, Locks.End(w)))
    case PublishCatalog(catalog) => s.(db := s.db.(catalog := catalog))
  }

  const START := State(Locks.State([], map[]), [], EMPTY_DATABASE, [])

  ghost predicate Follows(hash: Locks.Hash, s: State, s': State)
  {
    exists step :: Enabled(hash, s, step) && (step.Arrive? ==> Validated(step.command)) && s' == Next(hash, s, step)
  }

  ghost predicate Reachable(hash: Locks.Hash, run: seq<State>)
  {
    && run != [] && run[0] == START
    && forall i :: 0 < i < |run| ==> Follows(hash, run[i - 1], run[i])
  }

  // ----- sequence order follows commit order, entity by entity

  ghost predicate AscendingFor<T(!new)>(rows: seq<Numbered<T>>, p: T -> bool)
  {
    forall i, j :: 0 <= i < j < |rows| && p(rows[i].item) && p(rows[j].item) ==> rows[i].sequence < rows[j].sequence
  }

  ghost predicate Ordered(db: Database)
  {
    && (forall id :: AscendingFor(db.recordings, HasVersionId(id)))
    && (forall id :: AscendingFor(db.activities, HasId(id)))
    && (forall id :: AscendingFor(db.features, HasId(id)))
    && (forall id :: AscendingFor(db.models, OfModel(id)))
    && (forall alias :: AscendingFor(db.models, OfAlias(alias)))
  }

  function OfModel(id: string): (p: ModelVersion -> bool)
  {
    (m: ModelVersion) => m.modelId == id
  }

  function OfAlias(alias: string): (p: ModelVersion -> bool)
  {
    (m: ModelVersion) => m.alias == Some(alias)
  }

  ghost predicate Below<T(!new)>(rows: seq<Numbered<T>>, p: T -> bool, n: int)
  {
    forall r :: r in rows && p(r.item) ==> r.sequence < n
  }

  function All<T>(): (p: T -> bool)
  {
    x => true
  }

  /** Every committed row that the keys guard was numbered before `n`. */
  ghost predicate Above(db: Database, keys: seq<string>, n: int)
  {
    && n <= db.last
    && Below(db.recordings, VersionGuard(keys), n)
    && Below(db.activities, ActivityGuard(keys), n)
    && Below(db.features, FeatureGuard(keys), n)
    && Below(db.models, ModelGuard(keys), n)
  }

  ghost predicate Bounded(db: Database)
  {
    && Below(db.recordings, All(), db.last + 1) && Below(db.activities, All(), db.last + 1)
    && Below(db.features, All(), db.last + 1) && Below(db.models, All(), db.last + 1)
  }

  ghost predicate Climbing(numbers: seq<int>)
  {
    forall i, j :: 0 <= i < j < |numbers| ==> numbers[i] < numbers[j]
  }

  lemma {:induction false} NewestIsLast<T(!new)>(rows: seq<Numbered<T>>, p: T -> bool)
    requires AscendingFor(rows, p)
    ensures ItemOf(NewestRow(rows, p)) == Last(Items(rows), p)
    ensures NewestRow(rows, p).Some? ==> NewestRow(rows, p).value in rows && p(NewestRow(rows, p).value.item)
  {
    if rows != [] {
      var n := |rows| - 1;
      NewestIsLast(rows[..n], p);
      assert Items(rows)[..n] == Items(rows[..n]);
      var r := NewestRow(rows[..n], p);
      if r.Some? && p(rows[n].item) {
        var i :| 0 <= i < n && rows[i] == r.value;
      }
    }
  }

  lemma {:induction false} OldestIsFirst<T(!new)>(rows: seq<Numbered<T>>, p: T -> bool)
    requires AscendingFor(rows, p)
    ensures ItemOf(OldestRow(rows, p)) == First(Items(rows), p)
    ensures OldestRow(rows, p).Some? ==> OldestRow(rows, p).value in rows && p(OldestRow(rows, p).value.item)
  {
    if rows != [] {
      var n := |rows| - 1;
      OldestIsFirst(rows[..n], p);
      assert Items(rows)[..n] == Items(rows[..n]);
      var r := OldestRow(rows[..n], p);
      if r.Some? && p(rows[n].item) {
        var i :| 0 <= i < n && rows[i] == r.value;
      }
    }
  }

  /** So a statement ordered by sequence returns what the order of commits says. */
  lemma AnswersFollowCommits(db: Database, q: Query)
    requires Ordered(db)
    ensures AnswerNow(db, q) == AnswerTo(ContentsNow(db), q)
  {
    match q {
      case NewestVersion(id) => NewestIsLast(db.recordings, HasVersionId(id));
      case NewestActivity(id) => NewestIsLast(db.activities, HasId(id));
      case NewestFeature(id) => NewestIsLast(db.features, HasId(id));
      case ModelRows(modelId, alias, _) =>
        SlotIsAscending(db.models, modelId, alias);
        OldestIsFirst(db.models, InSlot(modelId, alias));
      case _ =>
    }
  }

  lemma SlotIsAscending(rows: seq<Numbered<ModelVersion>>, modelId: string, alias: Option<string>)
    requires AscendingFor(rows, OfModel(modelId))
    requires alias.Some? ==> AscendingFor(rows, OfAlias(alias.value))
    ensures AscendingFor(rows, InSlot(modelId, alias))
  {
    forall i, j | 0 <= i < j < |rows| && InSlot(modelId, alias)(rows[i].item) && InSlot(modelId, alias)(rows[j].item)
      ensures rows[i].sequence < rows[j].sequence
    {
      if alias.Some? {
        assert OfAlias(alias.value)(rows[i].item) && OfAlias(alias.value)(rows[j].item);
      } else {
        assert OfModel(modelId)(rows[i].item) && OfModel(modelId)(rows[j].item);
      }
    }
  }

  // ----- the keys of a command guard all it reads and writes

  lemma FactKeys<V>(kind: string, facts: seq<Fact<V>>, f: Fact<V>)
    requires f in facts
    ensures kind + f.id in Locks.Prefixed(kind, Ids(facts))
  {
    var i :| 0 <= i < |facts| && facts[i] == f;
    assert Locks.Prefixed(kind, Ids(facts))[i] == kind + f.id;
  }

  lemma ActivityKeys(c: Command, f: Fact<ActivityValues>)
    requires Validated(c) && c.ProjectRecording? && f in c.activities
    ensures "activity:" + f.id in LockKeys(c) && IdentityLock(IdKey(f.identity)) in LockKeys(c)
  {
    FactKeys("activity:", c.activities, f);
    assert "activity" + ":" == "activity:";
  }

  lemma FeatureKeys(c: Command, f: Fact<FeatureValues>)
    requires Validated(c) && c.ProjectFeatures? && f in c.features
    ensures "feature:" + f.id in LockKeys(c) && IdentityLock(IdKey(f.identity)) in LockKeys(c)
  {
    FactKeys("feature:", c.features, f);
    assert "feature" + ":" == "feature:";
  }

  lemma OwnKeys(c: Command)
    requires Validated(c)
    ensures c.ProjectRecording? ==>
      "recording:" + c.recordingId in LockKeys(c) && IdentityLock(IdKey(c.identity)) in LockKeys(c)
    ensures c.ProjectFeatures? ==> "recording:" + c.recordingId in LockKeys(c)
    ensures c.ProjectModel? ==>
      "model:" + c.modelId in LockKeys(c) && IdentityLock(IdKey(c.identity)) in LockKeys(c)
    ensures c.ProjectRelease? ==>
      && "model:" + c.modelId in LockKeys(c) && "release:" + c.alias in LockKeys(c)
      && IdentityLock(IdKey(c.identity)) in LockKeys(c) && IdentityLock(IdKey(c.modelIdentity)) in LockKeys(c)
  {
    assert "recording" + ":" == "recording:" && "model" + ":" == "model:" && "release" + ":" == "release:";
  }

  lemma NeedsAreLocked(c: Command, q: Query)
    requires Validated(c) && q in Needs(c)
    ensures QueryLocked(LockKeys(c), q)
  {
    hide LockKeys, IdentityLock;
    OwnKeys(c);
    match c {
      case ProjectRecording(_, _, _, _, activities, _) =>
        if q.CaptureIdentity? && q.key in IdentityKeys(activities) {
          var f :| f in activities && IdKey(f.identity) == q.key;
          ActivityKeys(c, f);
        } else if q.NewestActivity? {
          var f :| f in activities && f.id == q.id;
          ActivityKeys(c, f);
        }
      case ProjectFeatures(_, _, features) =>
        if q.AnalysisIdentity? {
          var f :| f in features && IdKey(f.identity) == q.key;
          FeatureKeys(c, f);
        } else if q.NewestFeature? {
          var f :| f in features && f.id == q.id;
          FeatureKeys(c, f);
        }
      case _ =>
    }
  }

  ghost predicate FromFacts<V>(facts: seq<Fact<V>>, rows: seq<Named<V>>, ids: IdentityContents)
  {
    && (forall r :: r in rows ==> exists f :: f in facts && f.id == r.id)
    && (forall k :: k in ids ==> exists f :: f in facts && IdKey(f.identity) == k)
  }

  lemma {:induction false} FactWritesAreFacts<V>(
    newest: string -> Option<Named<V>>, stored: ((string, string)) -> Option<(string, string)>, facts: seq<Fact<V>>)
    requires FactWrites(newest, stored, facts).Ok?
    ensures FromFacts(facts, FactWrites(newest, stored, facts).value.0, FactWrites(newest, stored, facts).value.1)
  {
    if facts != [] {
      var n := |facts| - 1;
      FactWritesAreFacts(newest, stored, facts[..n]);
      assert facts[n] in facts && forall f :: f in facts[..n] ==> f in facts;
    }
  }

  lemma RecordingWritesAreLocked(a: Answers, c: Command)
    requires Validated(c) && c.ProjectRecording? && WritesOf(a, c).Ok?
    ensures WritesLocked(LockKeys(c), WritesOf(a, c).value)
  {
    hide LockKeys, IdentityLock, FactWrites, Validated;
    OwnKeys(c);
    var w := WritesOf(a, c).value;
    FactWritesAreFacts(ActivitySeen(a), StoredCapture(a), c.activities);
    forall r | r in w.activities ensures "activity:" + r.id in LockKeys(c) {
      var f :| f in c.activities && f.id == r.id;
      ActivityKeys(c, f);
    }
    forall k | k in w.captureIds ensures IdentityLock(k) in LockKeys(c) {
      if k != IdKey(c.identity) {
        var f :| f in c.activities && IdKey(f.identity) == k;
        ActivityKeys(c, f);
      }
    }
  }

  lemma FeatureWritesAreLocked(a: Answers, c: Command)
    requires Validated(c) && c.ProjectFeatures? && WritesOf(a, c).Ok?
    ensures WritesLocked(LockKeys(c), WritesOf(a, c).value)
  {
    hide LockKeys, IdentityLock, FactWrites, Validated;
    OwnKeys(c);
    var w := WritesOf(a, c).value;
    FactWritesAreFacts(FeatureSeen(a), StoredAnalysis(a), c.features);
    forall r | r in w.features ensures "feature:" + r.id in LockKeys(c) {
      var f :| f in c.features && f.id == r.id;
      FeatureKeys(c, f);
    }
    forall k | k in w.analysisIds ensures IdentityLock(k) in LockKeys(c) {
      var f :| f in c.features && IdKey(f.identity) == k;
      FeatureKeys(c, f);
    }
  }

  lemma WritesAreLocked(a: Answers, c: Command)
    requires Validated(c) && WritesOf(a, c).Ok?
    ensures WritesLocked(LockKeys(c), WritesOf(a, c).value)
  {
    hide LockKeys, IdentityLock, Validated, RecordingWrites, FeaturesWrites;
    match c {
      case ProjectRecording(_, _, _, _, _, _) => RecordingWritesAreLocked(a, c);
      case ProjectFeatures(_, _, _) => FeatureWritesAreLocked(a, c);
      case _ => OwnKeys(c);
    }
  }

  // ----- what commits leave alone

  predicate Apart(a: seq<string>, b: seq<string>)
  {
    forall k :: k in a ==> k !in b
  }

  lemma {:induction false} NewestUntouched<T>(rows: seq<Numbered<T>>, added: seq<Numbered<T>>, p: T -> bool)
    requires forall r :: r in added ==> !p(r.item)
    ensures NewestRow(rows + added, p) == NewestRow(rows, p)
    ensures OldestRow(rows + added, p) == OldestRow(rows, p)
  {
    if added == [] {
      assert rows + added == rows;
    } else {
      var n := |added| - 1;
      NewestUntouched(rows, added[..n], p);
      assert (rows + added)[..|rows + added| - 1] == rows + added[..n];
      assert added[n] in added;
    }
  }

  lemma NumberedItems<T>(items: seq<T>, numbers: seq<int>)
    requires |items| <= |numbers|
    ensures forall r :: r in Number(items, numbers) ==> r.item in items && r.sequence in numbers
    ensures Items(Number(items, numbers)) == items
  {
  }

  lemma ItemsConcatenate<T>(a: seq<Numbered<T>>, b: seq<Numbered<T>>)
    ensures Items(a + b) == Items(a) + Items(b)
  {
  }

  /** A commit under other keys does not change a guarded answer. */
  lemma CommitKeepsAnswer(db: Database, w: Writes, numbers: seq<int>, other: seq<string>, keys: seq<string>, q: Query)
    requires RowCount(w) <= |numbers| && WritesLocked(other, w) && QueryLocked(keys, q) && Apart(keys, other)
    ensures AnswerNow(Store(db, w, numbers), q) == AnswerNow(db, q)
  {
    match q {
      case NewestVersion(id) =>
        NumberedItems(w.recordings, numbers[|w.features|..]);
        NewestUntouched(db.recordings, Number(w.recordings, numbers[|w.features|..]), HasVersionId(id));
      case NewestActivity(id) =>
        NumberedItems(w.activities, numbers[|w.recordings|..]);
        NewestUntouched(db.activities, Number(w.activities, numbers[|w.recordings|..]), HasId(id));
      case NewestFeature(id) =>
        NumberedItems(w.features, numbers);
        NewestUntouched(db.features, Number(w.features, numbers), HasId(id));
      case ModelRows(modelId, alias, content) =>
        CommitKeepsModels(db, w, numbers, other, keys, q);
      case _ =>
    }
  }

  lemma CommitKeepsModels(db: Database, w: Writes, numbers: seq<int>, other: seq<string>, keys: seq<string>, q: Query)
    requires RowCount(w) <= |numbers| && WritesLocked(other, w) && QueryLocked(keys, q) && Apart(keys, other)
    requires q.ModelRows?
    ensures AnswerNow(Store(db, w, numbers), q) == AnswerNow(db, q)
  {
    var added := Number(w.models, numbers);
    NumberedItems(w.models, numbers);
    forall r | r in added ensures !InSlot(q.modelId, q.alias)(r.item) && r.item.modelId != q.modelId {
      assert ModelLocked(other, r.item);
    }
    NewestUntouched(db.models, added, InSlot(q.modelId, q.alias));
    ItemsConcatenate(db.models, added);
    assert ModelVersion(q.modelId, None, q.content) !in Items(added);
  }

  lemma BelowMore<T(!new)>(rows: seq<Numbered<T>>, added: seq<Numbered<T>>, p: T -> bool, n: int)
    requires Below(rows, p, n) && forall r :: r in added ==> !p(r.item)
    ensures Below(rows + added, p, n)
  {
  }

  /** Nor does it add a row that an open session guards. */
  lemma CommitKeepsAbove(db: Database, w: Writes, numbers: seq<int>, other: seq<string>, keys: seq<string>, n: int)
    requires RowCount(w) <= |numbers| && WritesLocked(other, w) && Apart(keys, other) && Above(db, keys, n)
    ensures Above(Store(db, w, numbers), keys, n)
  {
    NumberedItems(w.recordings, numbers[|w.features|..]);
    NumberedItems(w.activities, numbers[|w.recordings|..]);
    NumberedItems(w.features, numbers);
    NumberedItems(w.models, numbers);
    BelowMore(db.recordings, Number(w.recordings, numbers[|w.features|..]), VersionGuard(keys), n);
    BelowMore(db.activities, Number(w.activities, numbers[|w.recordings|..]), ActivityGuard(keys), n);
    BelowMore(db.features, Number(w.features, numbers), FeatureGuard(keys), n);
    forall r | r in Number(w.models, numbers) ensures !ModelGuard(keys)(r.item) {
      assert ModelLocked(other, r.item);
    }
    BelowMore(db.models, Number(w.models, numbers), ModelGuard(keys), n);
  }

  lemma AscendingMore<T(!new)>(
    rows: seq<Numbered<T>>, items: seq<T>, numbers: seq<int>, p: T -> bool, guard: T -> bool)
    requires |items| <= |numbers| && Climbing(numbers) && AscendingFor(rows, p)
    requires forall n :: n in numbers ==> Below(rows, guard, n)
    requires (exists x :: x in items && p(x)) ==> forall r :: r in rows && p(r.item) ==> guard(r.item)
    ensures AscendingFor(rows + Number(items, numbers), p)
  {
    var all := rows + Number(items, numbers);
    forall i, j | 0 <= i < j < |all| && p(all[i].item) && p(all[j].item) ensures all[i].sequence < all[j].sequence {
      if j >= |rows| {
        assert items[j - |rows|] in items && numbers[j - |rows|] in numbers;
        if i < |rows| {
          assert all[i] in rows;
        }
      }
    }
  }

  lemma ClimbingTail(numbers: seq<int>, k: nat)
    requires Climbing(numbers) && k <= |numbers|
    ensures Climbing(numbers[k..]) && forall n :: n in numbers[k..] ==> n in numbers
  {
  }

  /** Commits keep sequence order in step with commit order, entity by entity. */
  lemma CommitKeepsOrder(db: Database, w: Writes, numbers: seq<int>, keys: seq<string>)
    requires Ordered(db) && RowCount(w) <= |numbers| && WritesLocked(keys, w) && Climbing(numbers)
    requires forall n :: n in numbers ==> Above(db, keys, n)
    ensures Ordered(Store(db, w, numbers))
  {
    ClimbingTail(numbers, |w.features|);
    ClimbingTail(numbers, |w.recordings|);
    var db' := Store(db, w, numbers);
    forall id ensures AscendingFor(db'.recordings, HasVersionId(id)) {
      AscendingMore(db.recordings, w.recordings, numbers[|w.features|..], HasVersionId(id), VersionGuard(keys));
    }
    forall id ensures AscendingFor(db'.activities, HasId(id)) {
      AscendingMore(db.activities, w.activities, numbers[|w.recordings|..], HasId(id), ActivityGuard(keys));
    }
    forall id ensures AscendingFor(db'.features, HasId(id)) {
      AscendingMore(db.features, w.features, numbers, HasId(id), FeatureGuard(keys));
    }
    forall id ensures AscendingFor(db'.models, OfModel(id)) {
      AscendingMore(db.models, w.models, numbers, OfModel(id), ModelGuard(keys));
    }
    forall alias ensures AscendingFor(db'.models, OfAlias(alias)) {
      AscendingMore(db.models, w.models, numbers, OfAlias(alias), ModelGuard(keys));
    }
  }

  lemma CommitKeepsBounds(db: Database, w: Writes, numbers: seq<int>, keys: seq<string>)
    requires Bounded(db) && RowCount(w) <= |numbers| && forall n :: n in numbers ==> Above(db, keys, n)
    ensures Bounded(Store(db, w, numbers))
  {
    assert forall n :: n in numbers[|w.features|..] || n in numbers[|w.recordings|..] ==> n in numbers;
    StoredBelow(db.recordings, w.recordings, numbers[|w.features|..], db.last);
    StoredBelow(db.activities, w.activities, numbers[|w.recordings|..], db.last);
    StoredBelow(db.features, w.features, numbers, db.last);
    StoredBelow(db.models, w.models, numbers, db.last);
  }

  lemma StoredBelow<T(!new)>(rows: seq<Numbered<T>>, items: seq<T>, numbers: seq<int>, last: int)
    requires |items| <= |numbers| && Below(rows, All(), last + 1) && forall n :: n in numbers ==> n <= last
    ensures Below(rows + Number(items, numbers), All(), last + 1)
  {
    NumberedItems(items, numbers);
  }

  // ----- what every reachable state satisfies

  /** Answers outside the catalog are still what the database holds; drawn values lie above all guarded rows. */
  ghost predicate Steady(db: Database, x: Session)
  {
    && (forall q :: q in x.answers && !q.CatalogEntry? ==> x.answers[q] == AnswerNow(db, q))
    && (forall q :: q in x.answers && q.CatalogEntry? ==> x.answers[q].CatalogRow?)
    && Climbing(x.drawn)
    && (forall n :: n in x.drawn ==> Above(db, LockKeys(x.command), n))
  }

  ghost predicate SessionOk(s: State, w: nat)
    requires Open(s, w)
  {
    var x := s.sessions[w];
    && x.answers.Keys <= Needs(x.command)
    && ((x.answers == map[] && x.drawn == []) || Working(s, w))
    && Steady(s.db, x)
  }

  /** The committed contents are those of the serial run of the log. */
  ghost predicate Serial(db: Database, log: seq<Event>)
  {
    && AllValidated(log) && Committed(log)
    && ContentsNow(db) == ContentsOf(Run(EMPTY, log)).(catalog := db.catalog)
  }

  /** Every command of the log succeeds at its place. */
  ghost predicate Committed(log: seq<Event>)
  {
    forall p :: 0 <= p < |log| && log[p].Write? ==> Transact(Run(EMPTY, log[..p]), log[p].command).Ok?
  }

  ghost predicate Planned(s: State)
  {
    && Aligned(s)
    && forall w :: 0 <= w < |s.sessions| ==>
         Validated(s.sessions[w].command) && s.locks.writers[w].plan == Locks.Plan(RequestOf(s.sessions[w].command))
  }

  ghost predicate SessionsOk(s: State)
  {
    forall w: nat :: Open(s, w) ==> SessionOk(s, w)
  }

  ghost predicate Inv(hash: Locks.Hash, s: State)
  {
    && Planned(s) && Locks.Inv(hash, s.locks) && SessionsOk(s)
    && Ordered(s.db) && Bounded(s.db) && Serial(s.db, s.log)
  }

  /** A working session owns the locks of all its keys. */
  lemma WorkingOwns(hash: Locks.Hash, s: State, w: nat, key: string)
    requires Planned(s) && Locks.Inv(hash, s.locks) && Working(s, w) && key in LockKeys(s.sessions[w].command)
    ensures hash(key) in s.locks.owner && s.locks.owner[hash(key)] == w
  {
    var keys := LockKeys(s.sessions[w].command);
    var plan := s.locks.writers[w].plan;
    Locks.SortedDistinctIsStrict(keys);
    var i :| 0 <= i < |Locks.SortedDistinct(keys)| && Locks.SortedDistinct(keys)[i] == key;
    assert plan[i] == key;
  }

  /** So two sessions at work have no key in common, whatever the hash. */
  lemma WorkersAreApart(hash: Locks.Hash, s: State, u: nat, w: nat)
    requires Planned(s) && Locks.Inv(hash, s.locks) && Working(s, u) && Working(s, w) && u != w
    ensures Apart(LockKeys(s.sessions[u].command), LockKeys(s.sessions[w].command))
  {
    forall k | k in LockKeys(s.sessions[u].command) && k in LockKeys(s.sessions[w].command) ensures false {
      WorkingOwns(hash, s, u, k);
      WorkingOwns(hash, s, w, k);
    }
  }

  // ----- steps that commit nothing

  lemma LocksStay(hash: Locks.Hash, s: State, step: Locks.Step)
    requires Locks.Inv(hash, s.locks) && Locks.Enabled(hash, s.locks, step)
    ensures Locks.Inv(hash, Locks.Next(hash, s.locks, step))
  {
    Locks.StepKeepsInv(hash, s.locks, step);
  }

  lemma SessionStays(s: State, s': State, u: nat)
    requires Aligned(s) && Open(s, u) && Open(s', u) && SessionOk(s, u)
    requires s'.sessions[u] == s.sessions[u] && (Working(s, u) ==> Working(s', u)) && Steady(s'.db, s.sessions[u])
    ensures SessionOk(s', u)
  {
  }

  lemma LockingKeepsInv(hash: Locks.Hash, s: State, step: Step)
    requires Inv(hash, s) && Enabled(hash, s, step) && (step.Arrive? || step.Lock? || step.Rollback?)
    requires step.Arrive? ==> Validated(step.command)
    ensures Inv(hash, Next(hash, s, step))
  {
    hide Steady, Ordered, Bounded, Serial, Locks.Inv, Needs, Validated, Locks.Plan, LockKeys;
    var s' := Next(hash, s, step);
    match step {
      case Arrive(c) =>
        LocksStay(hash, s, Locks.Arrive(RequestOf(c)));
        NewSessionIsSteady(s.db, c);
      case Lock(w) => LocksStay(hash, s, Locks.Acquire(w));
      case Rollback(w) => LocksStay(hash, s, Locks.End(w));
    }
    forall u: nat | Open(s', u) ensures SessionOk(s', u) {
      if u < |s.sessions| {
        assert Open(s, u);
        SessionStays(s, s', u);
      }
    }
  }

  lemma NewSessionIsSteady(db: Database, c: Command)
    ensures Steady(db, Session(c, map[], []))
  {
  }

  lemma AskingKeepsInv(hash: Locks.Hash, s: State, w: nat, q: Query)
    requires Inv(hash, s) && Enabled(hash, s, Ask(w, q))
    ensures Inv(hash, Next(hash, s, Ask(w, q)))
  {
    hide Ordered, Bounded, Serial, Locks.Inv, Needs, Validated, Locks.Plan, LockKeys, AnswerNow, Above, Climbing;
    var s' := Next(hash, s, Ask(w, q));
    CatalogAnswer(s.db, q);
    assert SessionOk(s, w);
    forall u: nat | Open(s', u) ensures SessionOk(s', u) {
      assert Open(s, u);
      if u != w {
        SessionStays(s, s', u);
      }
    }
  }

  lemma CatalogAnswer(db: Database, q: Query)
    ensures q.CatalogEntry? ==> AnswerNow(db, q) == CatalogRow(Lookup(db.catalog, q.id))
  {
  }

  lemma RaisingLast(db: Database, n: int, keys: seq<string>)
    requires Bounded(db) && db.last < n
    ensures Bounded(db.(last := n)) && Above(db.(last := n), keys, n)
  {
  }

  lemma SteadyThroughRaise(db: Database, n: int, x: Session)
    requires Steady(db, x) && db.last < n
    ensures Steady(db.(last := n), x)
    ensures forall d :: d in x.drawn ==> d < n
  {
    forall q | q in x.answers && !q.CatalogEntry? ensures AnswerNow(db.(last := n), q) == AnswerNow(db, q) {
    }
    forall d | d in x.drawn ensures Above(db.(last := n), LockKeys(x.command), d) {
      assert Above(db, LockKeys(x.command), d);
    }
  }

  lemma DrawingKeepsInv(hash: Locks.Hash, s: State, w: nat, skipped: nat)
    requires Inv(hash, s) && Enabled(hash, s, Draw(w, skipped))
    ensures Inv(hash, Next(hash, s, Draw(w, skipped)))
  {
    hide Bounded, Locks.Inv, Needs, Validated, Locks.Plan, LockKeys, AnswerNow, Above, Run, ContentsOf;
    var n := s.db.last + 1 + skipped;
    var s' := Next(hash, s, Draw(w, skipped));
    assert SessionOk(s, w);
    RaisingLast(s.db, n, LockKeys(s.sessions[w].command));
    forall u: nat | Open(s', u) ensures SessionOk(s', u) {
      assert Open(s, u) && SessionOk(s, u);
      SteadyThroughRaise(s.db, n, s.sessions[u]);
      if u == w {
        SteadyWithOneMore(s'.db, s.sessions[w], n);
      } else {
        SessionStays(s, s', u);
      }
    }
  }

  lemma SteadyWithOneMore(db: Database, x: Session, n: int)
    requires Steady(db, x) && Above(db, LockKeys(x.command), n) && forall d :: d in x.drawn ==> d < n
    ensures Steady(db, x.(drawn := x.drawn + [n]))
  {
    hide Above, AnswerNow, LockKeys;
    assert forall i :: 0 <= i < |x.drawn| ==> x.drawn[i] in x.drawn;
  }

  lemma CatalogChangeKeepsInv(hash: Locks.Hash, s: State, catalog: map<string, string>)
    requires Inv(hash, s)
    ensures Inv(hash, s.(db := s.db.(catalog := catalog)))
  {
    hide Bounded, Locks.Inv, Needs, Validated, Locks.Plan, LockKeys, Run, ContentsOf, Ordered, Above, Climbing;
    var s' := s.(db := s.db.(catalog := catalog));
    SameRows(s.db, s'.db);
    forall u: nat | Open(s', u) ensures SessionOk(s', u) {
      assert Open(s, u) && SessionOk(s, u);
    }
  }

  lemma SameRows(db: Database, db': Database)
    requires db' == db.(catalog := db'.catalog)
    ensures Ordered(db) ==> Ordered(db')
    ensures Bounded(db) ==> Bounded(db')
    ensures forall keys, n :: Above(db, keys, n) ==> Above(db', keys, n)
    ensures forall q: Query :: !q.CatalogEntry? ==> AnswerNow(db', q) == AnswerNow(db, q)
  {
  }

  // ----- commits

  lemma {:induction false} RunTwoMore(t: Tables, log: seq<Event>, e: Event, f: Event)
    ensures Run(t, log + [e, f]) == ProjectionRuns.Step(ProjectionRuns.Step(Run(t, log), e), f)
  {
    var all := log + [e, f];
    assert all[..|all| - 1] == log + [e] && (log + [e])[..|log|] == log;
    assert Run(t, log + [e]) == ProjectionRuns.Step(Run(t, log), e);
  }

  lemma {:induction false} RunOneMore(t: Tables, log: seq<Event>, e: Event)
    ensures Run(t, log + [e]) == ProjectionRuns.Step(Run(t, log), e)
  {
    assert (log + [e])[..|log|] == log;
  }

  /** At commit, the answers collected one by one are the answers the committed contents give at once. */
  lemma AnswersAreCurrent(s: State, w: nat)
    requires Open(s, w) && SessionOk(s, w) && Ordered(s.db) && s.sessions[w].answers.Keys == Needs(s.sessions[w].command)
    ensures var x := s.sessions[w];
            x.answers == AnswersTo(ContentsNow(s.db).(catalog := SeenCatalog(x.answers, x.command)), x.command)
  {
    hide AnswerTo, AnswerNow, Ordered, Needs, ContentsNow, SeenCatalog;
    var x := s.sessions[w];
    var k := ContentsNow(s.db).(catalog := SeenCatalog(x.answers, x.command));
    forall q | q in Needs(x.command) ensures x.answers[q] == AnswerTo(k, q) {
      if q.CatalogEntry? {
        CatalogAsSeen(s.db, x, q);
      } else {
        AnswersFollowCommits(s.db, q);
        CatalogIsApart(ContentsNow(s.db), k.catalog, q);
      }
    }
  }

  lemma CatalogIsApart(k: Contents, catalog: map<string, string>, q: Query)
    requires !q.CatalogEntry?
    ensures AnswerTo(k.(catalog := catalog), q) == AnswerTo(k, q)
  {
  }

  lemma CatalogAsSeen(db: Database, x: Session, q: Query)
    requires Steady(db, x) && q in x.answers && q.CatalogEntry? && q in Needs(x.command)
    ensures x.answers[q] == AnswerTo(ContentsNow(db).(catalog := SeenCatalog(x.answers, x.command)), q)
  {
    CatalogNeed(x.command, q);
  }

  lemma CatalogNeed(c: Command, q: Query)
    requires q in Needs(c) && q.CatalogEntry?
    ensures (c.ProjectRecording? || c.ProjectFeatures?) && q.id == c.recordingId
  {
  }

  lemma StoredContents(db: Database, w: Writes, numbers: seq<int>)
    requires RowCount(w) <= |numbers|
    ensures ContentsNow(Store(db, w, numbers)) == Applied(ContentsNow(db), w)
  {
    ItemsConcatenate(db.recordings, Number(w.recordings, numbers[|w.features|..]));
    ItemsConcatenate(db.activities, Number(w.activities, numbers[|w.recordings|..]));
    ItemsConcatenate(db.features, Number(w.features, numbers));
    ItemsConcatenate(db.models, Number(w.models, numbers));
    NumberedItems(w.recordings, numbers[|w.features|..]);
    NumberedItems(w.activities, numbers[|w.recordings|..]);
    NumberedItems(w.features, numbers);
    NumberedItems(w.models, numbers);
  }

  /** A commit is the whole transaction run at once on the serial tables, at the commit's place in the log. */
  lemma CommitIsSerial(s: State, w: nat)
    requires Open(s, w) && SessionOk(s, w) && Ordered(s.db) && Serial(s.db, s.log)
    requires s.sessions[w].answers.Keys == Needs(s.sessions[w].command) && Validated(s.sessions[w].command)
    requires WritesOf(s.sessions[w].answers, s.sessions[w].command).Ok?
    requires RowCount(WritesOf(s.sessions[w].answers, s.sessions[w].command).value) <= |s.sessions[w].drawn|
    ensures var x := s.sessions[w];
            && Transact(Run(EMPTY, s.log).(catalog := SeenCatalog(x.answers, x.command)), x.command).Ok?
            && Serial(Store(s.db, WritesOf(x.answers, x.command).value, x.drawn),
                      s.log + [Event.Publish(SeenCatalog(x.answers, x.command)), Event.Write(x.command)])
  {
    hide Transact, WritesOf, Needs, SeenCatalog, Ordered, Steady, Validated, Run, Store, ContentsNow, AnswersTo;
    var x := s.sessions[w];
    var catalog := SeenCatalog(x.answers, x.command);
    var t := Run(EMPTY, s.log).(catalog := catalog);
    AnswersAreCurrent(s, w);
    SerialCatalog(s.db, s.log, catalog);
    TransactionIsItsWrites(t, x.command);
    StoredContents(s.db, WritesOf(x.answers, x.command).value, x.drawn);
    RunTwoMore(EMPTY, s.log, Event.Publish(catalog), Event.Write(x.command));
    StoredCatalog(s.db, WritesOf(x.answers, x.command).value, x.drawn);
    LogValidated(s.log, catalog, x.command);
    LogCommitted(s.log, catalog, x.command);
  }

  lemma CommittedMore(log: seq<Event>, e: Event)
    requires Committed(log) && (e.Write? ==> Transact(Run(EMPTY, log), e.command).Ok?)
    ensures Committed(log + [e])
  {
    hide Transact, Run;
    var all, n := log + [e], |log|;
    forall p | 0 <= p < |all| && all[p].Write? ensures Transact(Run(EMPTY, all[..p]), all[p].command).Ok? {
      if p < n {
        assert all[..p] == log[..p] && all[p] == log[p];
      } else {
        assert all[..p] == log && all[p] == e;
      }
    }
  }

  lemma LogCommitted(log: seq<Event>, catalog: map<string, string>, c: Command)
    requires Committed(log) && Transact(Run(EMPTY, log).(catalog := catalog), c).Ok?
    ensures Committed(log + [Event.Publish(catalog), Event.Write(c)])
  {
    hide Transact, Run, Committed;
    RunOneMore(EMPTY, log, Event.Publish(catalog));
    CommittedMore(log, Event.Publish(catalog));
    CommittedMore(log + [Event.Publish(catalog)], Event.Write(c));
    assert log + [Event.Publish(catalog), Event.Write(c)] == (log + [Event.Publish(catalog)]) + [Event.Write(c)];
  }

  lemma SerialCatalog(db: Database, log: seq<Event>, catalog: map<string, string>)
    requires Serial(db, log)
    ensures ContentsNow(db).(catalog := catalog) == ContentsOf(Run(EMPTY, log).(catalog := catalog))
  {
    hide Run;
  }

  lemma StoredCatalog(db: Database, w: Writes, numbers: seq<int>)
    requires RowCount(w) <= |numbers|
    ensures ContentsNow(Store(db, w, numbers)).catalog == Store(db, w, numbers).catalog == db.catalog
    ensures ContentsNow(db).catalog == db.catalog
  {
  }

  lemma LogValidated(log: seq<Event>, catalog: map<string, string>, c: Command)
    requires AllValidated(log) && Validated(c)
    ensures AllValidated(log + [Event.Publish(catalog), Event.Write(c)])
  {
  }

  /** A commit under other locks leaves a transaction's answers and drawn values as they were. */
  lemma SteadyThroughCommit(db: Database, w: Writes, numbers: seq<int>, theirs: seq<string>, y: Session)
    requires RowCount(w) <= |numbers| && WritesLocked(theirs, w) && Apart(LockKeys(y.command), theirs)
    requires Steady(db, y) && Validated(y.command) && y.answers.Keys <= Needs(y.command)
    ensures Steady(Store(db, w, numbers), y)
  {
    hide Needs, Store, AnswerNow, Above, LockKeys, Validated, WritesLocked, RowCount, Apart, QueryLocked;
    var mine := LockKeys(y.command);
    forall q | q in y.answers && !q.CatalogEntry? ensures y.answers[q] == AnswerNow(Store(db, w, numbers), q) {
      NeedsAreLocked(y.command, q);
      CommitKeepsAnswer(db, w, numbers, theirs, mine, q);
    }
    forall n | n in y.drawn ensures Above(Store(db, w, numbers), mine, n) {
      CommitKeepsAbove(db, w, numbers, theirs, mine, n);
    }
  }

  lemma OthersStaySteady(hash: Locks.Hash, s: State, w: nat, u: nat)
    requires Inv(hash, s) && Enabled(hash, s, Commit(w)) && Open(s, u) && u != w
    ensures Steady(Next(hash, s, Commit(w)).db, s.sessions[u])
  {
    hide Needs, WritesOf, Store, AnswerNow, Above, Ordered, Bounded, Serial, LockKeys, Validated, Locks.Inv, WritesLocked;
    var x, y := s.sessions[w], s.sessions[u];
    assert SessionOk(s, u);
    if y.answers != map[] || y.drawn != [] {
      WorkersAreApart(hash, s, u, w);
      WritesAreLocked(x.answers, x.command);
      SteadyThroughCommit(s.db, WritesOf(x.answers, x.command).value, x.drawn, LockKeys(x.command), y);
    }
  }

  lemma CommittingKeepsInv(hash: Locks.Hash, s: State, w: nat)
    requires Inv(hash, s) && Enabled(hash, s, Commit(w))
    ensures Inv(hash, Next(hash, s, Commit(w)))
  {
    hide Needs, WritesOf, Store, Ordered, Bounded, Serial, LockKeys, Validated, Locks.Inv, Locks.Plan, SeenCatalog, Above;
    var x := s.sessions[w];
    var s' := Next(hash, s, Commit(w));
    assert SessionOk(s, w);
    LocksStay(hash, s, Locks.End(w));
    CommitIsSerial(s, w);
    WritesAreLocked(x.answers, x.command);
    CommitKeepsOrder(s.db, WritesOf(x.answers, x.command).value, x.drawn, LockKeys(x.command));
    CommitKeepsBounds(s.db, WritesOf(x.answers, x.command).value, x.drawn, LockKeys(x.command));
    forall u: nat | Open(s', u) ensures SessionOk(s', u) {
      assert u != w && Open(s, u);
      OthersStaySteady(hash, s, w, u);
      SessionStays(s, s', u);
    }
  }

  lemma StepKeepsInv(hash: Locks.Hash, s: State, step: Step)
    requires Inv(hash, s) && Enabled(hash, s, step) && (step.Arrive? ==> Validated(step.command))
    ensures Inv(hash, Next(hash, s, step))
  {
    hide Inv, Next;
    match step {
      case Ask(w, q) => AskingKeepsInv(hash, s, w, q);
      case Draw(w, skipped) => DrawingKeepsInv(hash, s, w, skipped);
      case Commit(w) => CommittingKeepsInv(hash, s, w);
      case PublishCatalog(catalog) => CatalogStepKeepsInv(hash, s, catalog);
      case _ => LockingKeepsInv(hash, s, step);
    }
  }

  lemma CatalogStepKeepsInv(hash: Locks.Hash, s: State, catalog: map<string, string>)
    requires Inv(hash, s)
    ensures Inv(hash, Next(hash, s, PublishCatalog(catalog)))
  {
    hide Inv;
    CatalogChangeKeepsInv(hash, s, catalog);
  }

  lemma StartIsOk(hash: Locks.Hash)
    ensures Inv(hash, START)
  {
    assert ContentsOf(Run(EMPTY, [])) == ContentsNow(EMPTY_DATABASE);
  }

  lemma {:induction false} ReachableStatesKeepInv(hash: Locks.Hash, run: seq<State>)
    requires Reachable(hash, run)
    ensures Inv(hash, run[|run| - 1])
  {
    hide Inv, Enabled, Next, Validated;
    var n := |run| - 1;
    if n == 0 {
      StartIsOk(hash);
    } else {
      var before := run[..n];
      assert forall i :: 0 < i < |before| ==> Follows(hash, before[i - 1], before[i]);
      ReachableStatesKeepInv(hash, before);
      assert before[n - 1] == run[n - 1] && Follows(hash, run[n - 1], run[n]);
      var step :| Enabled(hash, run[n - 1], step) && (step.Arrive? ==> Validated(step.command))
        && run[n] == Next(hash, run[n - 1], step);
      StepKeepsInv(hash, run[n - 1], step);
    }
  }

  // ----- every interleaving

  /**
   * Whatever the interleaving and whatever the hash, the committed tables are those of the commands
   * run one at a time in commit order, each seeing the catalog its transaction saw, and sequence order
   * agrees with commit order for every entity.
   */
  lemma EveryInterleavingIsSerial(hash: Locks.Hash, run: seq<State>)
    requires Reachable(hash, run)
    ensures Serial(run[|run| - 1].db, run[|run| - 1].log) && Ordered(run[|run| - 1].db)
  {
    hide Serial, Ordered;
    ReachableStatesKeepInv(hash, run);
  }

  ghost predicate RowsGrow(db: Database, db': Database)
  {
    && db.last <= db'.last
    && db.recordings <= db'.recordings && db.activities <= db'.activities
    && db.features <= db'.features && db.models <= db'.models
  }

  lemma StepsGrow(hash: Locks.Hash, s: State, step: Step)
    requires Enabled(hash, s, step)
    ensures RowsGrow(s.db, Next(hash, s, step).db) && s.log <= Next(hash, s, step).log
  {
    hide WritesOf, Locks.Next, AnswerNow;
  }

  lemma {:induction false} LaterStates(hash: Locks.Hash, run: seq<State>, i: nat, j: nat)
    requires Reachable(hash, run) && i <= j < |run|
    ensures RowsGrow(run[i].db, run[j].db) && run[i].log <= run[j].log
  {
    hide Enabled, Validated, Next;
    if i < j {
      LaterStates(hash, run, i, j - 1);
      assert Follows(hash, run[j - 1], run[j]);
      var step :| Enabled(hash, run[j - 1], step) && (step.Arrive? ==> Validated(step.command))
        && run[j] == Next(hash, run[j - 1], step);
      StepsGrow(hash, run[j - 1], step);
    }
  }

  lemma PrefixIsReachable(hash: Locks.Hash, run: seq<State>, i: nat)
    requires Reachable(hash, run) && i < |run|
    ensures Reachable(hash, run[..i + 1]) && run[..i + 1][i] == run[i]
  {
    var before := run[..i + 1];
    forall k | 0 < k < |before| ensures Follows(hash, before[k - 1], before[k]) {
      assert Follows(hash, run[k - 1], run[k]);
    }
  }

  lemma {:induction false} RunInTwoParts(t: Tables, a: seq<Event>, b: seq<Event>)
    ensures Run(t, a + b) == Run(Run(t, a), b)
  {
    hide ProjectionRuns.Step;
    if b == [] {
      assert a + b == a;
    } else {
      var n := |b| - 1;
      RunInTwoParts(t, a, b[..n]);
      assert a + b == (a + b[..n]) + [b[n]];
      RunOneMore(t, a + b[..n], b[n]);
    }
  }

  lemma PartsValidated(a: seq<Event>, b: seq<Event>)
    requires AllValidated(a + b)
    ensures AllValidated(a) && AllValidated(b)
  {
    hide Validated;
    assert forall e :: e in a || e in b ==> e in a + b;
  }

  /** The serial tables behind a state, and how they moved on by a later one. */
  lemma SerialTablesMoveForward(hash: Locks.Hash, run: seq<State>, i: nat, j: nat)
    requires Reachable(hash, run) && i <= j < |run|
    ensures var t, u := Run(EMPTY, run[i].log), Run(EMPTY, run[j].log);
            && Serial(run[i].db, run[i].log) && Serial(run[j].db, run[j].log)
            && Ordered(run[i].db) && Ordered(run[j].db)
            && Consistent(t) && Consistent(u) && Progress(t, u)
  {
    hide Ordered, Consistent, Progress, Run, Reachable;
    PrefixIsReachable(hash, run, i);
    PrefixIsReachable(hash, run, j);
    EveryInterleavingIsSerial(hash, run[..i + 1]);
    EveryInterleavingIsSerial(hash, run[..j + 1]);
    LaterStates(hash, run, i, j);
    var rest := run[j].log[|run[i].log|..];
    assert run[j].log == run[i].log + rest;
    PartsValidated(run[i].log, rest);
    RunInTwoParts(EMPTY, run[i].log, rest);
    EveryReachableDatabaseIsConsistent(run[i].log);
    RunsOnlyMoveForward(Run(EMPTY, run[i].log), rest);
  }

  predicate CompleteNow(db: Database, id: string)
  {
    var newest := NewestRow(db.recordings, HasVersionId(id));
    newest.Some? && newest.value.item.state == COMPLETE
  }

  lemma CompleteIsComplete(db: Database, log: seq<Event>, id: string)
    requires Serial(db, log) && Ordered(db)
    ensures CompleteNow(db, id) <==> IsComplete(Run(EMPTY, log), id)
  {
    hide Run;
    NewestIsLast(db.recordings, HasVersionId(id));
    NewestVersionIsLatest(Run(EMPTY, log).recordings, id);
  }

  /** In every interleaving, a recording whose newest row is complete stays so. */
  lemma CompleteNeverReverts(hash: Locks.Hash, run: seq<State>, i: nat, j: nat, id: string)
    requires Reachable(hash, run) && i <= j < |run| && CompleteNow(run[i].db, id)
    ensures CompleteNow(run[j].db, id)
  {
    hide Run, Reachable, Serial, Ordered, Consistent, CompleteNow, IsComplete;
    SerialTablesMoveForward(hash, run, i, j);
    CompleteIsComplete(run[i].db, run[i].log, id);
    CompleteIsComplete(run[j].db, run[j].log, id);
  }

  /** In every interleaving, rows are only appended, and identities and details once stored never change. */
  lemma StoredFactsNeverChange(hash: Locks.Hash, run: seq<State>, i: nat, j: nat)
    requires Reachable(hash, run) && i <= j < |run|
    ensures RowsGrow(run[i].db, run[j].db)
    ensures forall k :: k in run[i].db.captureIds ==>
      k in run[j].db.captureIds && run[j].db.captureIds[k] == run[i].db.captureIds[k]
    ensures forall k :: k in run[i].db.analysisIds ==>
      k in run[j].db.analysisIds && run[j].db.analysisIds[k] == run[i].db.analysisIds[k]
    ensures forall k :: k in run[i].db.details ==>
      k in run[j].db.details && run[j].db.details[k] == run[i].db.details[k]
  {
    hide Run, Reachable, Ordered, Consistent;
    LaterStates(hash, run, i, j);
    SerialTablesMoveForward(hash, run, i, j);
    var t, u := Run(EMPTY, run[i].log), Run(EMPTY, run[j].log);
    assert run[i].db.captureIds == ContentsNow(run[i].db).captureIds == IdentityContentsOf(t.captureIds);
    assert run[j].db.captureIds == ContentsNow(run[j].db).captureIds == IdentityContentsOf(u.captureIds);
    assert run[i].db.analysisIds == ContentsNow(run[i].db).analysisIds == IdentityContentsOf(t.analysisIds);
    assert run[j].db.analysisIds == ContentsNow(run[j].db).analysisIds == IdentityContentsOf(u.analysisIds);
    assert run[i].db.details == ContentsNow(run[i].db).details == Views(t.details);
    assert run[j].db.details == ContentsNow(run[j].db).details == Views(u.details);
  }

  lemma SerialModels(db: Database, log: seq<Event>)
    requires Serial(db, log)
    ensures var rows := Run(EMPTY, log).models;
            && Models(Run(EMPTY, log)) && |rows| == |db.models|
            && forall i :: 0 <= i < |rows| ==>
                 db.models[i].item == ModelVersion(rows[i].modelId, rows[i].alias, rows[i].content)
  {
    hide Run, Models;
    EveryReachableDatabaseIsConsistent(log);
    var rows := Run(EMPTY, log).models;
    assert ContentsNow(db).models == Items(db.models) == ModelVersions(rows);
    forall i | 0 <= i < |rows|
      ensures db.models[i].item == ModelVersion(rows[i].modelId, rows[i].alias, rows[i].content)
    {
      assert Items(db.models)[i] == ModelVersions(rows)[i];
    }
  }

  /** In every interleaving, an alias has one row, and what it names stays there for ever. */
  lemma AliasNamesOneModelForever(hash: Locks.Hash, run: seq<State>, i: nat, j: nat, a: nat, b: nat)
    requires Reachable(hash, run) && i <= j < |run|
    requires a < |run[i].db.models| && run[i].db.models[a].item.alias.Some?
    requires b < |run[j].db.models| && run[j].db.models[b].item.alias == run[i].db.models[a].item.alias
    ensures b == a && run[j].db.models[b] == run[i].db.models[a]
  {
    hide Run, Reachable, Ordered, Consistent, Progress;
    LaterStates(hash, run, i, j);
    SerialTablesMoveForward(hash, run, i, j);
    SerialModels(run[j].db, run[j].log);
    var rows := Run(EMPTY, run[j].log).models;
    assert run[j].db.models[a] == run[i].db.models[a];
    assert SameSlot(rows[a], rows[b]) && SameSlot(rows[b], rows[a]);
  }

  /** In every interleaving, a release row follows a base row of its model with its content, in commits and in sequence. */
  lemma ReleasesFollowTheirBases(hash: Locks.Hash, run: seq<State>, b: nat) returns (a: nat)
    requires Reachable(hash, run)
    requires b < |run[|run| - 1].db.models| && run[|run| - 1].db.models[b].item.alias.Some?
    ensures a < b
    ensures var rows := run[|run| - 1].db.models;
            && rows[a].item.alias.None? && rows[a].item.modelId == rows[b].item.modelId
            && rows[a].item.content == rows[b].item.content && rows[a].sequence < rows[b].sequence
  {
    hide Run, Serial, Models;
    var s := run[|run| - 1];
    EveryInterleavingIsSerial(hash, run);
    SerialModels(s.db, s.log);
    a := BaseBehind(Run(EMPTY, s.log), b);
    var id := s.db.models[b].item.modelId;
    assert AscendingFor(s.db.models, OfModel(id));
    assert OfModel(id)(s.db.models[a].item) && OfModel(id)(s.db.models[b].item);
  }

  /** A version committed later carries the larger sequence value, however early another session drew. */
  lemma LaterVersionsAreNewer(hash: Locks.Hash, run: seq<State>, i: nat, j: nat, a: nat, b: nat)
    requires Reachable(hash, run) && i <= j < |run|
    requires a < |run[i].db.recordings| <= b < |run[j].db.recordings|
    requires run[j].db.recordings[b].item.id == run[i].db.recordings[a].item.id
    ensures run[i].db.recordings[a].sequence < run[j].db.recordings[b].sequence
  {
    hide Run, Reachable, Serial;
    LaterStates(hash, run, i, j);
    PrefixIsReachable(hash, run, j);
    EveryInterleavingIsSerial(hash, run[..j + 1]);
    var id := run[i].db.recordings[a].item.id;
    assert run[j].db.recordings[a] == run[i].db.recordings[a];
    assert AscendingFor(run[j].db.recordings, HasVersionId(id));
    assert HasVersionId(id)(run[j].db.recordings[a].item) && HasVersionId(id)(run[j].db.recordings[b].item);
  }

  // ----- replays

  lemma SameContentsSameRows(db: Database, w: Writes, numbers: seq<int>)
    requires RowCount(w) <= |numbers| && ContentsNow(Store(db, w, numbers)) == ContentsNow(db)
    ensures Store(db, w, numbers) == db
  {
    var db' := Store(db, w, numbers);
    assert |Items(db'.recordings)| == |Items(db.recordings)| && |Items(db'.activities)| == |Items(db.activities)|;
    assert |Items(db'.features)| == |Items(db.features)| && |Items(db'.models)| == |Items(db.models)|;
    assert db'.details == ContentsNow(db').details && db'.captureIds == ContentsNow(db').captureIds;
    assert db'.analysisIds == ContentsNow(db').analysisIds;
  }

  /** A feature, model or release command that has committed once commits nothing more, in any interleaving. */
  lemma ReplaysCommitNothing(hash: Locks.Hash, run: seq<State>, w: nat)
    requires Reachable(hash, run)
    requires Enabled(hash, run[|run| - 1], Commit(w))
    requires var s := run[|run| - 1];
             !s.sessions[w].command.ProjectRecording? && Event.Write(s.sessions[w].command) in s.log
    ensures Next(hash, run[|run| - 1], Commit(w)).db == run[|run| - 1].db
  {
    hide Run, Store, WritesOf, ContentsNow, ContentsOf, SeenCatalog, Needs, Transact, Validated;
    var s := run[|run| - 1];
    var x := s.sessions[w];
    ReachableStatesKeepInv(hash, run);
    CommitIsSerial(s, w);
    var writes := WritesOf(x.answers, x.command).value;
    var catalog := SeenCatalog(x.answers, x.command);
    SerialReplayIsIdle(s.log, catalog, x.command);
    SerialCatalog(s.db, s.log, catalog);
    StoredContents(s.db, writes, x.drawn);
    StoredCatalog(s.db, writes, x.drawn);
    SerialContents(s.db, writes, x.drawn, s.log, catalog, x.command);
    SameContentsSameRows(s.db, writes, x.drawn);
  }

  lemma SerialContents(
    db: Database, w: Writes, numbers: seq<int>, log: seq<Event>, catalog: map<string, string>, c: Command)
    requires RowCount(w) <= |numbers| && Serial(db, log)
    requires Serial(Store(db, w, numbers), log + [Event.Publish(catalog), Event.Write(c)])
    requires Run(EMPTY, log + [Event.Publish(catalog), Event.Write(c)]) == Run(EMPTY, log).(catalog := catalog)
    ensures ContentsNow(Store(db, w, numbers)) == ContentsNow(db)
  {
    hide Run;
  }

  lemma ValidatedAfter(log: seq<Event>, p: nat, catalog: map<string, string>)
    requires AllValidated(log) && p < |log|
    ensures AllValidated(log[..p]) && AllValidated(log[p + 1..] + [Event.Publish(catalog)])
  {
    hide Validated;
    var later := log[p + 1..] + [Event.Publish(catalog)];
    forall c | Event.Write(c) in later ensures Validated(c) {
      assert Event.Write(c) in log[p + 1..];
    }
  }

  lemma RunAround(pre: seq<Event>, c: Command, rest: seq<Event>)
    ensures Run(EMPTY, pre + ([Event.Write(c)] + rest)) == Run(After(Run(EMPTY, pre), c), rest)
  {
    hide After;
    var t := Run(EMPTY, pre);
    RunInTwoParts(EMPTY, pre, [Event.Write(c)] + rest);
    RunInTwoParts(t, [Event.Write(c)], rest);
    assert [Event.Write(c)][..0] == [];
  }

  lemma ReplayIsIdle(t: Tables, c: Command, later: seq<Event>)
    requires Consistent(t) && Validated(c) && !c.ProjectRecording? && AllValidated(later) && Transact(t, c).Ok?
    ensures After(Run(After(t, c), later), c) == Run(After(t, c), later)
  {
    hide Transact, Validated, Consistent, AllValidated, Run;
    if c.ProjectFeatures? {
      FeatureReplayIsIdle(t, c, later);
    } else {
      ModelReplayIsIdle(t, c, later);
    }
  }

  lemma SerialReplayIsIdle(log: seq<Event>, catalog: map<string, string>, c: Command)
    requires AllValidated(log) && Committed(log) && Validated(c) && !c.ProjectRecording? && Event.Write(c) in log
    ensures Run(EMPTY, log + [Event.Publish(catalog), Event.Write(c)]) == Run(EMPTY, log).(catalog := catalog)
  {
    hide Transact, Validated, Consistent, Run;
    var p :| 0 <= p < |log| && log[p] == Event.Write(c);
    var t, publish := Run(EMPTY, log[..p]), Event.Publish(catalog);
    var later := log[p + 1..] + [publish];
    assert log + [publish] == log[..p] + ([Event.Write(c)] + later);
    ValidatedAfter(log, p, catalog);
    RunAround(log[..p], c, later);
    RunTwoMore(EMPTY, log, publish, Event.Write(c));
    EveryReachableDatabaseIsConsistent(log[..p]);
    ReplayIsIdle(t, c, later);
    RunOneMore(EMPTY, log, publish);
  }

  // ----- progress

  /** As long as a transaction is open, some transaction can take its next lock or holds all of its locks. */
  lemma SomeSessionCanProceed(hash: Locks.Hash, run: seq<State>, some: nat) returns (w: nat)
    requires Locks.Injective(hash) && Reachable(hash, run) && Open(run[|run| - 1], some)
    ensures Enabled(hash, run[|run| - 1], Lock(w)) || (Working(run[|run| - 1], w) && Locks.CanCommit(run[|run| - 1].locks, w))
  {
    hide Ordered, Bounded, Serial, SessionsOk, Locks.Inv;
    var s := run[|run| - 1];
    ReachableStatesKeepInv(hash, run);
    w := Locks.SomeWriterIsFree(hash, s.locks, some);
    assert Locks.Plan(RequestOf(s.sessions[w].command)) == s.locks.writers[w].plan;
  }
}
