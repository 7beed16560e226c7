/** Listings read beside the interleaved writers: which late commits an anchor is safe from. */
module AnchoredReads {
  import opened Documents
  import opened ProjectionWriters
  import opened ConcurrentWriters
  import opened Statements
  import P = Projections
  import L = Pagination
  import Locks

  /** What the listings display of a row. */
  datatype Display = Display(version: Version -> string, feature: FeatureValues -> string)

  function VersionRows(show: Display, rows: seq<Numbered<Version>>): (r: seq<P.Row>)
    ensures |r| == |rows|
    ensures forall i :: 0 <= i < |r| ==> r[i].sequence == rows[i].sequence && r[i].id == rows[i].item.id
  {
    seq(|rows|, i requires 0 <= i < |rows| =>
      var v := rows[i].item;
      P.Row(rows[i].sequence, v.id, v.values.started, v.values.radioId, "", [], show.version(v)))
  }

  function ActivityRows(rows: seq<Numbered<Named<ActivityValues>>>): (r: seq<P.Row>)
    ensures |r| == |rows|
    ensures forall i :: 0 <= i < |r| ==> r[i].sequence == rows[i].sequence && r[i].id == rows[i].item.id
  {
    seq(|rows|, i requires 0 <= i < |rows| =>
      var a := rows[i].item;
      P.Row(rows[i].sequence, a.id, a.values.started, a.values.recordingId, "", [], a.values.kind))
  }

  function FeatureRows(show: Display, rows: seq<Numbered<Named<FeatureValues>>>): (r: seq<P.Row>)
    ensures |r| == |rows|
    ensures forall i :: 0 <= i < |r| ==> r[i].sequence == rows[i].sequence && r[i].id == rows[i].item.id
  {
    seq(|rows|, i requires 0 <= i < |rows| =>
      var f := rows[i].item;
      P.Row(rows[i].sequence, f.id, 0, f.values.recordingId, f.values.methodId, [], show.feature(f.values)))
  }

  /** The committed database as a recording or feature listing reads it, with the counter of the shared sequence. */
  function Read(show: Display, q: P.Query, db: Database): (r: P.Db)
  {
    P.Db(if q.Features? then FeatureRows(show, db.features) else VersionRows(show, db.recordings),
         ActivityRows(db.activities),
         if db.last <= 0 then P.NEVER_DRAWN else P.Counter(db.last, true),
         set r | r in db.recordings :: r.item.id)
  }

  // ----- what is numbered above an anchor

  ghost predicate NumbersAbove(numbers: seq<int>, n: int)
  {
    forall x :: x in numbers ==> n < x
  }

  /** No open transaction holds a drawn value at or below the anchor. */
  ghost predicate Quiet(s: State, anchor: int)
  {
    forall w: nat :: Open(s, w) ==> NumbersAbove(s.sessions[w].drawn, anchor)
  }

  ghost predicate TailAbove<T(!new)>(rows: seq<Numbered<T>>, k: nat, n: int)
  {
    k <= |rows| && forall i :: k <= i < |rows| ==> n < rows[i].sequence
  }

  /** The rows of `db` beyond those of `base` lie above the anchor. */
  ghost predicate GainedAbove(base: Database, db: Database, anchor: int)
  {
    && TailAbove(db.recordings, |base.recordings|, anchor)
    && TailAbove(db.activities, |base.activities|, anchor)
    && TailAbove(db.features, |base.features|, anchor)
  }

  lemma NumberedTail<T(!new)>(rows: seq<Numbered<T>>, items: seq<T>, numbers: seq<int>, k: nat, n: int)
    requires |items| <= |numbers| && NumbersAbove(numbers, n) && TailAbove(rows, k, n)
    ensures TailAbove(rows + Number(items, numbers), k, n)
  {
    forall i | k <= i < |rows| + |items| ensures n < (rows + Number(items, numbers))[i].sequence {
      if i >= |rows| {
        assert numbers[i - |rows|] in numbers;
      }
    }
  }

  lemma StoredAbove(base: Database, db: Database, w: Writes, numbers: seq<int>, anchor: int)
    requires RowCount(w) <= |numbers| && NumbersAbove(numbers, anchor) && GainedAbove(base, db, anchor)
    ensures GainedAbove(base, Store(db, w, numbers), anchor)
  {
    hide TailAbove, Number;
    assert forall x :: x in numbers[|w.features|..] ==> x in numbers;
    assert forall x :: x in numbers[|w.recordings|..] ==> x in numbers;
    NumberedTail(db.recordings, w.recordings, numbers[|w.features|..], |base.recordings|, anchor);
    NumberedTail(db.activities, w.activities, numbers[|w.recordings|..], |base.activities|, anchor);
    NumberedTail(db.features, w.features, numbers, |base.features|, anchor);
  }

  lemma StepStaysQuiet(hash: Locks.Hash, base: Database, s: State, step: Step, anchor: int)
    requires Enabled(hash, s, step) && Aligned(s) && anchor <= s.db.last
    requires Quiet(s, anchor) && GainedAbove(base, s.db, anchor)
    ensures var s' := Next(hash, s, step);
            Aligned(s') && Quiet(s', anchor) && GainedAbove(base, s'.db, anchor) && anchor <= s'.db.last
  {
    hide WritesOf, AnswerNow, GainedAbove, Store;
    match step {
      case Commit(w) =>
        var x := s.sessions[w];
        assert Open(s, w);
        StoredAbove(base, s.db, WritesOf(x.answers, x.command).value, x.drawn, anchor);
        CommitStaysQuiet(hash, s, w, anchor);
      case Draw(w, skipped) =>
        DrawStaysQuiet(hash, s, w, skipped, anchor);
        SameRowsAbove(base, s.db, Next(hash, s, step).db, anchor);
      case PublishCatalog(catalog) =>
        SameRowsAbove(base, s.db, Next(hash, s, step).db, anchor);
        OthersStayQuiet(s, Next(hash, s, step), anchor);
      case Ask(w, q) => OthersStayQuiet(s, Next(hash, s, step), anchor);
      case _ => OthersStayQuiet(s, Next(hash, s, step), anchor);
    }
  }

  lemma SameRowsAbove(base: Database, db: Database, db': Database, anchor: int)
    requires db' == db.(last := db'.last, catalog := db'.catalog)
    ensures GainedAbove(base, db', anchor) == GainedAbove(base, db, anchor)
  {
  }

  lemma OthersStayQuiet(s: State, s': State, anchor: int)
    requires Quiet(s, anchor)
    requires forall w: nat :: Open(s', w) ==>
      (Open(s, w) && s'.sessions[w].drawn == s.sessions[w].drawn) || s'.sessions[w].drawn == []
    ensures Quiet(s', anchor)
  {
  }

  lemma CommitStaysQuiet(hash: Locks.Hash, s: State, w: nat, anchor: int)
    requires Enabled(hash, s, Commit(w)) && Quiet(s, anchor)
    ensures Aligned(Next(hash, s, Commit(w))) && Quiet(Next(hash, s, Commit(w)), anchor)
    ensures Next(hash, s, Commit(w)).db.last == s.db.last
  {
    hide WritesOf;
    OthersStayQuiet(s, Next(hash, s, Commit(w)), anchor);
  }

  lemma DrawStaysQuiet(hash: Locks.Hash, s: State, w: nat, skipped: nat, anchor: int)
    requires Enabled(hash, s, Draw(w, skipped)) && Quiet(s, anchor) && anchor <= s.db.last
    ensures Quiet(Next(hash, s, Draw(w, skipped)), anchor)
  {
    var s' := Next(hash, s, Draw(w, skipped));
    forall u: nat | Open(s', u) ensures NumbersAbove(s'.sessions[u].drawn, anchor) {
      assert Open(s, u) && NumbersAbove(s.sessions[u].drawn, anchor);
    }
  }

  /** From a quiet state on, whatever commits is numbered above the anchor. */
  lemma {:induction false} LaterRowsAreAbove(hash: Locks.Hash, run: seq<State>, i: nat, j: nat, anchor: int)
    requires Reachable(hash, run) && i <= j < |run| && anchor <= run[i].db.last && Quiet(run[i], anchor)
    ensures Aligned(run[j]) && Quiet(run[j], anchor) && anchor <= run[j].db.last
    ensures GainedAbove(run[i].db, run[j].db, anchor)
  {
    hide Enabled, Validated, Next, Quiet, Inv;
    if i == j {
      PrefixIsReachable(hash, run, i);
      ReachableStatesKeepInv(hash, run[..i + 1]);
      InvAligns(hash, run[i]);
    } else {
      LaterRowsAreAbove(hash, run, i, j - 1, anchor);
      assert Follows(hash, run[j - 1], run[j]);
      var step :| Enabled(hash, run[j - 1], step) && (step.Arrive? ==> Validated(step.command))
        && run[j] == Next(hash, run[j - 1], step);
      StepStaysQuiet(hash, run[i].db, run[j - 1], step, anchor);
    }
  }

  lemma InvAligns(hash: Locks.Hash, s: State)
    requires Inv(hash, s)
    ensures Aligned(s) && Ordered(s.db) && Bounded(s.db)
  {
  }

  // ----- the listings

  lemma PrefixesGain<T(!new)>(rows: seq<Numbered<T>>, rows': seq<Numbered<T>>, n: int, r: seq<P.Row>, r': seq<P.Row>)
    requires rows <= rows' && TailAbove(rows', |rows|, n) && |r| == |rows| && |r'| == |rows'|
    requires r == r'[..|r|] && forall i :: 0 <= i < |r'| ==> r'[i].sequence == rows'[i].sequence
    ensures P.GainsAbove(r, r', n)
  {
  }

  lemma ReadsGain(show: Display, q: P.Query, db: Database, db': Database, anchor: int)
    requires RowsGrow(db, db') && GainedAbove(db, db', anchor)
    ensures P.Later(Read(show, q, db), Read(show, q, db'), anchor)
  {
    hide P.GainsAbove, TailAbove;
    var r, r' := Read(show, q, db), Read(show, q, db');
    assert ActivityRows(db.activities) == ActivityRows(db'.activities)[..|db.activities|];
    PrefixesGain(db.activities, db'.activities, anchor, r.activities, r'.activities);
    if q.Features? {
      assert FeatureRows(show, db.features) == FeatureRows(show, db'.features)[..|db.features|];
      PrefixesGain(db.features, db'.features, anchor, r.rows, r'.rows);
    } else {
      assert VersionRows(show, db.recordings) == VersionRows(show, db'.recordings)[..|db.recordings|];
      PrefixesGain(db.recordings, db'.recordings, anchor, r.rows, r'.rows);
    }
    assert forall x :: x in db.recordings ==> x in db'.recordings;
  }

  lemma QuietReadsGain(
    hash: Locks.Hash, run: seq<State>, show: Display, q: P.Query, anchor: int, i: nat, j: nat)
    requires Reachable(hash, run) && i <= j < |run| && anchor <= run[i].db.last && Quiet(run[i], anchor)
    ensures P.Later(Read(show, q, run[i].db), Read(show, q, run[j].db), anchor)
  {
    hide Quiet, Reachable, GainedAbove, P.Later, RowsGrow, Read;
    LaterRowsAreAbove(hash, run, i, j, anchor);
    LaterStates(hash, run, i, j);
    ReadsGain(show, q, run[i].db, run[j].db, anchor);
  }

  /**
   * An anchor at which no open transaction holds an earlier value is safe: no later commit, in any
   * interleaving, changes what a recording or feature listing shows at it.
   */
  lemma QuietAnchorsHold(
    hash: Locks.Hash, run: seq<State>, show: Display, q: P.Query, anchor: int, i: nat, j: nat)
    requires Reachable(hash, run) && i <= j < |run| && anchor <= run[i].db.last && Quiet(run[i], anchor)
    requires q.Recordings? || q.Features?
    ensures P.Later(Read(show, q, run[i].db), Read(show, q, run[j].db), anchor)
    ensures P.Listing(Read(show, q, run[j].db), q, anchor) == P.Listing(Read(show, q, run[i].db), q, anchor)
  {
    hide Quiet, Reachable, P.Later, Read;
    QuietReadsGain(hash, run, show, q, anchor, i, j);
    L.AnchoredListingsStay(Read(show, q, run[i].db), Read(show, q, run[j].db), q, anchor);
  }

  // ----- traversals beside the writers

  lemma AscendingIsDistinct<T(!new)>(rows: seq<Numbered<T>>, r: seq<P.Row>, p: string -> T -> bool)
    requires |r| == |rows| && forall i :: 0 <= i < |r| ==> r[i].sequence == rows[i].sequence
    requires forall i :: 0 <= i < |r| ==> p(r[i].id)(rows[i].item)
    requires forall id :: AscendingFor(rows, p(id))
    ensures P.DistinctVersions(r)
  {
    forall i, j | 0 <= i < j < |r| && r[i].id == r[j].id ensures r[i].sequence != r[j].sequence {
      assert AscendingFor(rows, p(r[i].id));
    }
  }

  lemma BoundedIsIssued<T(!new)>(rows: seq<Numbered<T>>, r: seq<P.Row>, last: int)
    requires |r| == |rows| && forall i :: 0 <= i < |r| ==> r[i].sequence == rows[i].sequence
    requires Below(rows, All(), last + 1) && TailAbove(rows, 0, 0)
    ensures P.Issued(r, if last <= 0 then P.NEVER_DRAWN else P.Counter(last, true))
  {
    forall x | x in r ensures 0 < x.sequence <= last {
      var i :| 0 <= i < |r| && r[i] == x;
      assert rows[i] in rows;
    }
  }

  lemma RowsAreIssued(hash: Locks.Hash, run: seq<State>, i: nat)
    requires Reachable(hash, run) && i < |run|
    ensures Ordered(run[i].db) && Bounded(run[i].db) && GainedAbove(EMPTY_DATABASE, run[i].db, 0)
  {
    hide Inv;
    LaterRowsAreAbove(hash, run, 0, i, 0);
    PrefixIsReachable(hash, run, i);
    ReachableStatesKeepInv(hash, run[..i + 1]);
    InvAligns(hash, run[i]);
  }

  lemma ReadsAreWellFormed(hash: Locks.Hash, run: seq<State>, show: Display, q: P.Query, i: nat)
    requires Reachable(hash, run) && i < |run|
    ensures P.WellFormed(Read(show, q, run[i].db))
  {
    hide Reachable, AscendingFor, TailAbove, Below;
    RowsAreIssued(hash, run, i);
    var db := run[i].db;
    var r := Read(show, q, db);
    AscendingIsDistinct(db.activities, r.activities, id => HasId<ActivityValues>(id));
    BoundedIsIssued(db.activities, r.activities, db.last);
    if q.Features? {
      AscendingIsDistinct(db.features, r.rows, id => HasId<FeatureValues>(id));
      BoundedIsIssued(db.features, r.rows, db.last);
    } else {
      AscendingIsDistinct(db.recordings, r.rows, HasVersionId);
      BoundedIsIssued(db.recordings, r.rows, db.last);
    }
  }

  /** The statements of a traversal see states of the run, in its order. */
  ghost predicate Samples(run: seq<State>, at: nat -> nat)
  {
    && (forall i: nat :: at(i) < |run|)
    && (forall i: nat, j: nat :: i <= j ==> at(i) <= at(j))
  }

  function History(run: seq<State>, show: Display, q: P.Query, at: nat -> nat): (history: nat -> P.Db)
    requires forall i: nat :: at(i) < |run|
  {
    (i: nat) => Read(show, q, run[at(i)].db)
  }

  /**
   * A traversal opened while no transaction holds a drawn value, and after the first value was drawn,
   * adds up to what its opening state showed, however the writers interleave with its statements.
   */
  lemma QuietTraversalIsSnapshot(
    hash: Locks.Hash, run: seq<State>, at: nat -> nat, text: JsonText, show: Display, q: P.Query, size: nat,
    pages: seq<L.Page>)
    requires Reachable(hash, run) && Samples(run, at) && (q.Recordings? || q.Features?)
    requires run[at(1)].db.last > 0 && Quiet(run[at(1)], run[at(1)].db.last)
    requires Faithful(text) && size >= 1 && L.Known(Read(show, q, run[at(0)].db), q)
    requires L.Traversal(L.Pages(text, History(run, show, q, at), q, size), pages) && L.Complete(pages)
    ensures L.Items(pages) == L.OpenedItems(Read(show, q, run[at(1)].db), q)
    ensures |pages| == L.PageCount(|L.Items(pages)|, L.PageSize(q, size))
  {
    hide Reachable, Quiet, L.Traversal, L.Complete, L.Items, L.OpenedItems, L.Pages, L.PageCount, L.PageSize;
    QuietHistoriesAreSteady(hash, run, at, show, q);
    var history := History(run, show, q, at);
    assert L.OpeningState(history) == Read(show, q, run[at(1)].db);
    L.SteadyTraversalIsSnapshot(text, history, q, size, pages);
  }

  lemma SampledReadsGain(hash: Locks.Hash, run: seq<State>, at: nat -> nat, show: Display, q: P.Query)
    requires Reachable(hash, run) && Samples(run, at)
    requires Quiet(run[at(1)], run[at(1)].db.last)
    ensures forall i: nat :: i >= 1 ==>
      P.Later(Read(show, q, run[at(1)].db), Read(show, q, run[at(i)].db), run[at(1)].db.last)
  {
    hide Reachable, Quiet, P.Later, Read;
    forall i: nat | i >= 1
      ensures P.Later(Read(show, q, run[at(1)].db), Read(show, q, run[at(i)].db), run[at(1)].db.last)
    {
      assert at(1) <= at(i);
      QuietReadsGain(hash, run, show, q, run[at(1)].db.last, at(1), at(i));
    }
  }

  lemma SampledRecordingsGrow(hash: Locks.Hash, run: seq<State>, at: nat -> nat, show: Display, q: P.Query)
    requires Reachable(hash, run) && Samples(run, at)
    ensures forall i: nat :: Read(show, q, run[at(0)].db).recordings <= Read(show, q, run[at(i)].db).recordings
  {
    hide Reachable, Read, RowsGrow;
    forall i: nat ensures Read(show, q, run[at(0)].db).recordings <= Read(show, q, run[at(i)].db).recordings {
      LaterStates(hash, run, at(0), at(i));
      RecordingsGrow(run[at(0)].db, run[at(i)].db, show, q);
    }
  }

  lemma QuietHistoriesAreSteady(hash: Locks.Hash, run: seq<State>, at: nat -> nat, show: Display, q: P.Query)
    requires Reachable(hash, run) && Samples(run, at) && (q.Recordings? || q.Features?)
    requires run[at(1)].db.last > 0 && Quiet(run[at(1)], run[at(1)].db.last)
    ensures L.Steady(History(run, show, q, at), q)
  {
    hide Reachable, Quiet, P.Later, P.WellFormed, Read, L.Anchor;
    ReadsAreWellFormed(hash, run, show, q, at(1));
    AnchorIsLast(show, q, run[at(1)].db);
    SampledReadsGain(hash, run, at, show, q);
    SampledRecordingsGrow(hash, run, at, show, q);
  }

  lemma AnchorIsLast(show: Display, q: P.Query, db: Database)
    requires (q.Recordings? || q.Features?) && db.last > 0
    ensures L.Anchor(q, Read(show, q, db)) == db.last
  {
  }

  lemma RecordingsGrow(db: Database, db': Database, show: Display, q: P.Query)
    requires RowsGrow(db, db')
    ensures Read(show, q, db).recordings <= Read(show, q, db').recordings
  {
    assert forall r :: r in db.recordings ==> r in db'.recordings;
  }

  // ----- what an anchored listing shows, on the columns the writers stored

  predicate ShowsVersion(r: P.Row, x: Numbered<Version>, show: Display)
  {
    && r.sequence == x.sequence && r.id == x.item.id && r.start == x.item.values.started
    && r.scope == x.item.values.radioId && r.view == show.version(x.item)
  }

  predicate ShowsFeature(r: P.Row, x: Numbered<Named<FeatureValues>>, show: Display)
  {
    && r.sequence == x.sequence && r.id == x.item.id && r.scope == x.item.values.recordingId
    && r.methodId == x.item.values.methodId && r.view == show.feature(x.item.values)
  }

  ghost predicate NewestVersionAt(rows: seq<Numbered<Version>>, anchor: int, x: Numbered<Version>)
  {
    && x in rows && x.sequence <= anchor
    && forall y :: y in rows && y.item.id == x.item.id && y.sequence <= anchor ==> y.sequence <= x.sequence
  }

  ghost predicate NewestFeatureAt(
    rows: seq<Numbered<Named<FeatureValues>>>, anchor: int, recording: string, x: Numbered<Named<FeatureValues>>)
  {
    && x in rows && x.sequence <= anchor && x.item.values.recordingId == recording
    && forall y :: y in rows && y.item.id == x.item.id && y.sequence <= anchor && y.item.values.recordingId == recording ==>
         y.sequence <= x.sequence
  }

  ghost predicate NewestActivityAt(
    rows: seq<Numbered<Named<ActivityValues>>>, anchor: int, x: Numbered<Named<ActivityValues>>)
  {
    && x in rows && x.sequence <= anchor
    && forall y :: y in rows && y.item.id == x.item.id && y.sequence <= anchor ==> y.sequence <= x.sequence
  }

  /** The newest version at the anchor, begun in the range on an asked radio. */
  ghost predicate AskedVersion(q: P.Query, db: Database, anchor: int, x: Numbered<Version>)
    requires q.Recordings?
  {
    && NewestVersionAt(db.recordings, anchor, x) && q.start <= x.item.values.started < q.stop
    && (q.radios == [] || x.item.values.radioId in q.radios)
  }

  /** The newest row for the recording at the anchor, by an asked method. */
  ghost predicate AskedFeature(q: P.Query, db: Database, anchor: int, x: Numbered<Named<FeatureValues>>)
    requires q.Features?
  {
    && NewestFeatureAt(db.features, anchor, q.recording, x)
    && (q.selector == "*" || x.item.values.methodId == q.selector)
  }

  ghost predicate Among(s: seq<P.Row>, x: Numbered<Version>, show: Display)
  {
    exists k :: 0 <= k < |s| && ShowsVersion(s[k], x, show)
  }

  ghost predicate AmongFeatures(s: seq<P.Row>, x: Numbered<Named<FeatureValues>>, show: Display)
  {
    exists k :: 0 <= k < |s| && ShowsFeature(s[k], x, show)
  }

  /** A listed recording is its newest committed version at the anchor, if that began in the range on an asked radio. */
  lemma RecordingListingByColumns(show: Display, q: P.Query, db: Database, anchor: int, r: P.Row)
    requires q.Recordings? && P.WellFormed(Read(show, q, db))
    ensures r in P.Snapshot(Read(show, q, db).rows, q, anchor) ==>
      exists x :: ShowsVersion(r, x, show) && AskedVersion(q, db, anchor, x)
    ensures forall x :: AskedVersion(q, db, anchor, x) ==>
      Among(P.Snapshot(Read(show, q, db).rows, q, anchor), x, show)
  {
    hide P.Snapshot, P.WellFormed, AskedVersion, P.Latest, P.Matches;
    var rows, s := Read(show, q, db).rows, P.Snapshot(Read(show, q, db).rows, q, anchor);
    P.SnapshotMembers(rows, q, anchor);
    if r in s {
      var i :| 0 <= i < |rows| && rows[i] == r;
      VersionIsListedIffAsked(show, q, db, anchor, i);
      assert ShowsVersion(r, db.recordings[i], show);
    }
    forall x | AskedVersion(q, db, anchor, x) ensures Among(s, x, show) {
      AskedVersionIsStored(q, db, anchor, x);
      var i :| 0 <= i < |db.recordings| && db.recordings[i] == x;
      VersionIsListedIffAsked(show, q, db, anchor, i);
      var k :| 0 <= k < |s| && s[k] == rows[i];
      assert ShowsVersion(s[k], x, show);
    }
  }

  lemma AskedVersionIsStored(q: P.Query, db: Database, anchor: int, x: Numbered<Version>)
    requires q.Recordings? && AskedVersion(q, db, anchor, x)
    ensures x in db.recordings
  {
  }

  lemma VersionIsListedIffAsked(show: Display, q: P.Query, db: Database, anchor: int, i: nat)
    requires q.Recordings? && P.WellFormed(Read(show, q, db)) && i < |db.recordings|
    ensures VersionRows(show, db.recordings)[i] in P.Snapshot(Read(show, q, db).rows, q, anchor)
            <==> AskedVersion(q, db, anchor, db.recordings[i])
  {
    hide P.Snapshot, P.WellFormed, NewestVersionAt;
    P.SnapshotByColumns(Read(show, q, db), q, anchor);
    NewestRowIsVersion(show, db, anchor, i);
    assert VersionRows(show, db.recordings)[i] in VersionRows(show, db.recordings);
  }

  lemma NewestRowIsVersion(show: Display, db: Database, anchor: int, i: nat)
    requires i < |db.recordings|
    ensures var rows, x := VersionRows(show, db.recordings), db.recordings[i];
            NewestVersionAt(db.recordings, anchor, x) <==>
              && rows[i].sequence <= anchor
              && forall r :: r in rows && r.id == rows[i].id && r.sequence <= anchor ==> r.sequence <= rows[i].sequence
  {
    var rows, x := VersionRows(show, db.recordings), db.recordings[i];
    forall j | 0 <= j < |rows| ensures rows[j] in rows && db.recordings[j] in db.recordings {
    }
  }

  /** A listed feature is its newest committed row for the recording at the anchor, if its method is asked for. */
  lemma FeatureListingByColumns(show: Display, q: P.Query, db: Database, anchor: int, r: P.Row)
    requires q.Features? && P.WellFormed(Read(show, q, db))
    ensures r in P.Snapshot(Read(show, q, db).rows, q, anchor) ==>
      exists x :: ShowsFeature(r, x, show) && AskedFeature(q, db, anchor, x)
    ensures forall x :: AskedFeature(q, db, anchor, x) ==>
      AmongFeatures(P.Snapshot(Read(show, q, db).rows, q, anchor), x, show)
  {
    hide P.Snapshot, P.WellFormed, AskedFeature, P.Latest, P.Matches;
    var rows, s := Read(show, q, db).rows, P.Snapshot(Read(show, q, db).rows, q, anchor);
    P.SnapshotMembers(rows, q, anchor);
    if r in s {
      var i :| 0 <= i < |rows| && rows[i] == r;
      FeatureIsListedIffAsked(show, q, db, anchor, i);
      assert ShowsFeature(r, db.features[i], show);
    }
    forall x | AskedFeature(q, db, anchor, x) ensures AmongFeatures(s, x, show) {
      AskedFeatureIsStored(q, db, anchor, x);
      var i :| 0 <= i < |db.features| && db.features[i] == x;
      FeatureIsListedIffAsked(show, q, db, anchor, i);
      var k :| 0 <= k < |s| && s[k] == rows[i];
      assert ShowsFeature(s[k], x, show);
    }
  }

  lemma AskedFeatureIsStored(q: P.Query, db: Database, anchor: int, x: Numbered<Named<FeatureValues>>)
    requires q.Features? && AskedFeature(q, db, anchor, x)
    ensures x in db.features
  {
  }

  lemma FeatureIsListedIffAsked(show: Display, q: P.Query, db: Database, anchor: int, i: nat)
    requires q.Features? && P.WellFormed(Read(show, q, db)) && i < |db.features|
    ensures FeatureRows(show, db.features)[i] in P.Snapshot(Read(show, q, db).rows, q, anchor)
            <==> AskedFeature(q, db, anchor, db.features[i])
  {
    hide P.Snapshot, P.WellFormed, NewestFeatureAt;
    P.SnapshotByColumns(Read(show, q, db), q, anchor);
    NewestRowIsFeature(show, db, anchor, q.recording, i);
    assert FeatureRows(show, db.features)[i] in FeatureRows(show, db.features);
  }

  lemma NewestRowIsFeature(show: Display, db: Database, anchor: int, recording: string, i: nat)
    requires i < |db.features|
    ensures var rows, x := FeatureRows(show, db.features), db.features[i];
            NewestFeatureAt(db.features, anchor, recording, x) <==>
              && rows[i].scope == recording && rows[i].sequence <= anchor
              && forall r :: r in rows && r.id == rows[i].id && r.scope == recording && r.sequence <= anchor ==>
                   r.sequence <= rows[i].sequence
  {
    var rows, x := FeatureRows(show, db.features), db.features[i];
    forall j | 0 <= j < |rows| ensures rows[j] in rows && db.features[j] in db.features {
    }
  }

  /** A feature listing finds its recording when some version of it is committed. */
  lemma RecordingIsFoundIffStored(show: Display, q: P.Query, db: Database, id: string)
    ensures id in Read(show, q, db).recordings <==>
      exists i :: 0 <= i < |db.recordings| && db.recordings[i].item.id == id
  {
    forall i | 0 <= i < |db.recordings| ensures db.recordings[i] in db.recordings {
    }
  }

  /** A listed recording comes with the kinds of its activities, each as its newest row at the anchor has it. */
  lemma ActivityKindsByColumns(show: Display, q: P.Query, db: Database, anchor: int, recording: string, kind: string)
    ensures kind in P.Kinds(Read(show, q, db).activities, anchor, recording) <==>
      exists x :: NewestActivityAt(db.activities, anchor, x)
        && x.item.values.recordingId == recording && x.item.values.kind == kind
  {
    var rows := ActivityRows(db.activities);
    P.KindsByColumns(rows, anchor, recording, kind);
    forall i | 0 <= i < |rows|
      ensures NewestActivityAt(db.activities, anchor, db.activities[i]) <==>
        && rows[i].sequence <= anchor
        && forall r :: r in rows && r.id == rows[i].id && r.sequence <= anchor ==> r.sequence <= rows[i].sequence
    {
      NewestRowIsActivity(db, anchor, i);
    }
    forall i | 0 <= i < |rows| ensures rows[i] in rows && db.activities[i] in db.activities {
    }
  }

  lemma NewestRowIsActivity(db: Database, anchor: int, i: nat)
    requires i < |db.activities|
    ensures var rows, x := ActivityRows(db.activities), db.activities[i];
            NewestActivityAt(db.activities, anchor, x) <==>
              && rows[i].sequence <= anchor
              && forall r :: r in rows && r.id == rows[i].id && r.sequence <= anchor ==> r.sequence <= rows[i].sequence
  {
    var rows, x := ActivityRows(db.activities), db.activities[i];
    forall j | 0 <= j < |rows| ensures rows[j] in rows && db.activities[j] in db.activities {
    }
  }
}
