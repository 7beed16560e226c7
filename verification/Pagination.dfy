/** Anchored keyset pagination: page reads interleaved with appends add up to one snapshot. */
module Pagination {
  import opened Outcomes
  import opened Documents
  import opened Lists
  import opened Cursor
  import opened Projections
  import Text

  datatype Page = Page(items: seq<Item>, next: Option<string>)

  datatype PageError = BadCursor | EmptySelector | RecordingNotFound | IncompleteAttempts

  // ----- one page read

  function Kind(q: Query): (k: string)
  {
    match q
    case Batches(_, _) => "capture_batches"
    case MasterCaptures(_, _, _) => "master_captures"
    case Recordings(_, _, _) => "recordings"
    case Tracks(_, _, _) => "tracks"
    case Features(_, _) => "features"
  }

  /** Each listing signs its cursors with a kind of its own. */
  lemma KindsByName(q: Query)
    ensures q.Recordings? <==> Kind(q) == "recordings"
    ensures q.Tracks? <==> Kind(q) == "tracks"
    ensures q.Batches? <==> Kind(q) == "capture_batches"
    ensures q.MasterCaptures? <==> Kind(q) == "master_captures"
    ensures q.Features? <==> Kind(q) == "features"
  {
  }

  function Fingerprint(q: Query): (t: string)
  {
    match q
    case Features(recording, selector) => recording + ":" + selector
    case Batches(start, stop) => Text.Decimal(start) + ":" + Text.Decimal(stop)
    case MasterCaptures(start, stop, limit) =>
      Text.Decimal(start) + ":" + Text.Decimal(stop) + ":" + Text.Decimal(limit)
    case Recordings(start, stop, radios) => Text.Decimal(start) + ":" + Text.Decimal(stop) + ":" + Text.Join(radios, ',')
    case Tracks(start, stop, radios) => Text.Decimal(start) + ":" + Text.Decimal(stop) + ":" + Text.Join(radios, ',')
  }

  /** Radio identifiers are tokens: not empty, and without the comma. */
  predicate Tokens(q: Query)
  {
    q.Recordings? || q.Tracks? ==> forall r :: r in q.radios ==> r != "" && ',' !in r
  }

  /** The recording of one feature query runs on into the other's selector. */
  ghost predicate RunsOn(q: Query, q': Query)
    requires q.Features? && q'.Features?
  {
    exists x :: q'.recording == q.recording + ":" + x && q.selector == x + ":" + q'.selector
  }

  lemma SameJoinSameParts(a: seq<string>, b: seq<string>)
    requires forall r :: r in a ==> r != "" && ',' !in r
    requires forall r :: r in b ==> r != "" && ',' !in r
    requires Text.Join(a, ',') == Text.Join(b, ',')
    ensures a == b
  {
    JoinIsEmpty(a);
    JoinIsEmpty(b);
    if a != [] && b != [] {
      Text.SplitInvertsJoin(a, ',');
      Text.SplitInvertsJoin(b, ',');
    }
  }

  lemma JoinIsEmpty(a: seq<string>)
    requires forall r :: r in a ==> r != ""
    ensures Text.Join(a, ',') == "" <==> a == []
  {
    if a != [] {
      assert a[0] in a;
    }
  }

  lemma WindowTextsTellApart(start: int, stop: int, rest: string, start': int, stop': int, rest': string)
    requires Text.Decimal(start) + ":" + Text.Decimal(stop) + ":" + rest
          == Text.Decimal(start') + ":" + Text.Decimal(stop') + ":" + rest'
    ensures start == start' && stop == stop' && rest == rest'
  {
    hide Text.Decimal;
    var a, b, a', b' := Text.Decimal(start), Text.Decimal(stop), Text.Decimal(start'), Text.Decimal(stop');
    Text.DecimalHoldsNone(start, ':');
    Text.DecimalHoldsNone(stop, ':');
    Text.DecimalHoldsNone(start', ':');
    Text.DecimalHoldsNone(stop', ':');
    assert a + ":" + b + ":" + rest == a + ":" + (b + ":" + rest);
    assert a' + ":" + b' + ":" + rest' == a' + ":" + (b' + ":" + rest');
    Text.FirstCut(a, b + ":" + rest, a', b' + ":" + rest', ':');
    Text.FirstCut(b, rest, b', rest', ':');
    Text.DecimalTellsApart(start, start');
    Text.DecimalTellsApart(stop, stop');
  }

  lemma PairTextsTellApart(start: int, stop: int, start': int, stop': int)
    requires Text.Decimal(start) + ":" + Text.Decimal(stop) == Text.Decimal(start') + ":" + Text.Decimal(stop')
    ensures start == start' && stop == stop'
  {
    hide Text.Decimal;
    Text.DecimalHoldsNone(start, ':');
    Text.DecimalHoldsNone(start', ':');
    Text.FirstCut(Text.Decimal(start), Text.Decimal(stop), Text.Decimal(start'), Text.Decimal(stop'), ':');
    Text.DecimalTellsApart(start, start');
    Text.DecimalTellsApart(stop, stop');
  }

  lemma ColonTextsShare(a: string, b: string, a': string, b': string)
    requires a + ":" + b == a' + ":" + b' && |a| < |a'|
    ensures a' == a + ":" + a'[|a| + 1..] && b == a'[|a| + 1..] + ":" + b'
  {
    var t := a + ":" + b;
    assert a' == t[..|a'|] && a == t[..|a|] && t[|a|] == ':';
    assert a' == a + ":" + a'[|a| + 1..];
    assert b == t[|a| + 1..];
  }

  /**
   * Two queries of one kind share a fingerprint exactly when they are the same query, or two feature
   * queries of which one's recording runs on into the other's selector.
   */
  lemma FingerprintsTellApart(q: Query, q': Query)
    requires Kind(q) == Kind(q') && Tokens(q) && Tokens(q')
    ensures Fingerprint(q) == Fingerprint(q') <==>
      q == q' || (q.Features? && q'.Features? && (RunsOn(q, q') || RunsOn(q', q)))
  {
    hide Text.Decimal, Text.Join;
    match (q, q') {
      case (Features(r, s), Features(r', s')) => FeatureFingerprints(r, s, r', s');
      case (Batches(a, b), Batches(a', b')) =>
        if Fingerprint(q) == Fingerprint(q') { PairTextsTellApart(a, b, a', b'); }
      case (MasterCaptures(a, b, n), MasterCaptures(a', b', n')) =>
        if Fingerprint(q) == Fingerprint(q') {
          WindowTextsTellApart(a, b, Text.Decimal(n), a', b', Text.Decimal(n'));
          Text.DecimalTellsApart(n, n');
        }
      case (Recordings(a, b, radios), Recordings(a', b', radios')) =>
        if Fingerprint(q) == Fingerprint(q') {
          WindowTextsTellApart(a, b, Text.Join(radios, ','), a', b', Text.Join(radios', ','));
          SameJoinSameParts(radios, radios');
        }
      case (Tracks(a, b, radios), Tracks(a', b', radios')) =>
        if Fingerprint(q) == Fingerprint(q') {
          WindowTextsTellApart(a, b, Text.Join(radios, ','), a', b', Text.Join(radios', ','));
          SameJoinSameParts(radios, radios');
        }
      case _ =>
    }
  }

  lemma FeatureFingerprints(r: string, s: string, r': string, s': string)
    ensures var q, q' := Features(r, s), Features(r', s');
            r + ":" + s == r' + ":" + s' <==> q == q' || RunsOn(q, q') || RunsOn(q', q)
  {
    var q, q' := Features(r, s), Features(r', s');
    if r + ":" + s == r' + ":" + s' {
      if |r| < |r'| {
        ColonTextsShare(r, s, r', s');
        assert RunsOn(q, q');
      } else if |r'| < |r| {
        ColonTextsShare(r', s', r, s);
        assert RunsOn(q', q);
      } else {
        assert r == (r + ":" + s)[..|r|] == r' && s == (r + ":" + s)[|r| + 1..] == s';
      }
    }
    if RunsOn(q, q') {
      var x :| r' == r + ":" + x && s == x + ":" + s';
      assert r + ":" + (x + ":" + s') == (r + ":" + x) + ":" + s';
    }
    if RunsOn(q', q) {
      var x :| r == r' + ":" + x && s' == x + ":" + s;
      assert r' + ":" + (x + ":" + s) == (r' + ":" + x) + ":" + s;
    }
  }

  /** Such a pair: a cursor of one feature listing is accepted by another. */
  lemma FeatureCursorsCanCross(text: JsonText, p: Position)
    requires Faithful(text) && p.after.Single?
    ensures var q, q' := Features("rec_a", "b:c"), Features("rec_a:b", "c");
            ReadPosition(text, q', Some(Minter(text, q)(p))) == Ok(Some(p))
  {
    hide Issue, Accept, Faithful;
    var q, q' := Features("rec_a", "b:c"), Features("rec_a:b", "c");
    assert "rec_a" + ":" + "b:c" == "rec_a:b" + ":" + "c";
    IssuedCursorsAreBound(text, Kind(q), Fingerprint(q), p, Kind(q'), Fingerprint(q'), !q'.Features?);
  }

  /** Batch listings anchor at the newest committed batch row, the others at the `last_value` of the shared sequence. */
  function Anchor(q: Query, db: Db): (a: int)
  {
    if q.Batches? || q.MasterCaptures? then
      if db.rows == [] then -1 else MaxSequence(db.rows)
    else db.counter.last
  }

  function MaxSequence(rows: seq<Row>): (m: int)
    requires rows != []
    ensures forall r :: r in rows ==> r.sequence <= m
    ensures exists r :: r in rows && r.sequence == m
  {
    if |rows| == 1 then rows[0].sequence
    else
      var m := MaxSequence(rows[1..]);
      assert forall r :: r in rows <==> r == rows[0] || r in rows[1..];
      if rows[0].sequence <= m then m else rows[0].sequence
  }

  /** The master capture page halves its recording budget, two recordings to a batch. */
  function PageSize(q: Query, size: nat): (n: nat)
  {
    if !q.MasterCaptures? then size
    else if q.maximumRecordings / 2 < 1 then 1 else q.maximumRecordings / 2
  }

  /** A page of master captures takes half as many batches as recordings were asked for, and one at least. */
  lemma PageSizeByBudget(q: Query, size: nat)
    ensures !q.MasterCaptures? ==> PageSize(q, size) == size
    ensures q.MasterCaptures? && q.maximumRecordings >= 2 ==>
      2 * PageSize(q, size) <= q.maximumRecordings < 2 * PageSize(q, size) + 2
    ensures q.MasterCaptures? && q.maximumRecordings < 2 ==> PageSize(q, size) == 1
  {
  }

  /** An anchor covers every row committed when it is read, and no more than that where batches are listed. */
  lemma AnchorCoversCommitted(q: Query, db: Db)
    requires WellFormed(db)
    ensures forall r :: r in db.rows ==> r.sequence <= Anchor(q, db)
    ensures q.Batches? || q.MasterCaptures? ==>
      if db.rows == [] then Anchor(q, db) == -1 else exists r :: r in db.rows && r.sequence == Anchor(q, db)
    ensures !(q.Batches? || q.MasterCaptures?) ==> Anchor(q, db) == db.counter.last
  {
    if db.rows != [] {
      var m := MaxSequence(db.rows);
      var r :| r in db.rows && r.sequence == m;
    }
  }

  /** The position after a page's last row; master captures rebuild the start from the attempts. */
  function Resume(q: Query, r: Row): (k: After)
    requires |r.attempts| == 2 || !q.MasterCaptures?
  {
    if q.MasterCaptures? then Pair(Earliest(r), r.id) else Key(q, r)
  }

  /** How a listing turns a position into cursor text. */
  function Minter(text: JsonText, q: Query): (mint: Position -> string)
  {
    p => Issue(text, Kind(q), Fingerprint(q), p)
  }

  function ReadPosition(text: JsonText, q: Query, cursor: Option<string>): (r: Result<Option<Position>, PageError>)
  {
    if cursor.None? then Ok(None)
    else
      match Accept(text, cursor.value, Kind(q), Fingerprint(q), !q.Features?)
      case Err(_) => Err(BadCursor)
      case Ok(p) => Ok(Some(p))
  }

  /** The database as each statement of one page read sees it, in the order of the statements. */
  datatype Reads = Reads(lookup: Db, anchor: Db, rows: Db)

  function ReadPage(text: JsonText, at: Reads, q: Query, size: nat, cursor: Option<string>): (r: Result<Page, PageError>)
    requires size >= 1
  {
    if q.Features? && q.selector == "" then Err(EmptySelector)
    else
      match ReadPosition(text, q, cursor)
      case Err(e) => Err(e)
      case Ok(position) => Serve(Minter(text, q), at, q, PageSize(q, size), position)
  }

  function Serve(mint: Position -> string, at: Reads, q: Query, n: nat, position: Option<Position>)
    : (r: Result<Page, PageError>)
    requires n >= 1
  {
    if q.Features? && q.recording !in at.lookup.recordings then Err(RecordingNotFound)
    else
      var anchor := if position.None? then Anchor(q, at.anchor) else position.value.anchor;
      var after := if position.None? then None else Some(position.value.after);
      PageFrom(mint, q, at.rows.activities, n, anchor, Select(at.rows.rows, q, anchor, after, n + 1))
  }

  /** The page made of at most `n` of the rows read, with a cursor when one row more was there. */
  function PageFrom(mint: Position -> string, q: Query, activities: seq<Row>, n: nat, anchor: int, rows: seq<Row>)
    : (r: Result<Page, PageError>)
    requires n >= 1
  {
    var selected := Take(rows, n);
    if (q.Batches? || q.MasterCaptures?) && exists r :: r in selected && |r.attempts| != 2
    then Err(IncompleteAttempts)
    else if |rows| > n then
      var last := selected[|selected| - 1];
      assert last in selected;
      Ok(Page(ItemsOf(q, activities, anchor, selected), Some(mint(Position(anchor, Resume(q, last))))))
    else Ok(Page(ItemsOf(q, activities, anchor, selected), None))
  }

  /** A cursor that this listing did not issue for this query. */
  predicate IsForeign(text: JsonText, q: Query, cursor: Option<string>)
  {
    cursor.Some? && Accept(text, cursor.value, Kind(q), Fingerprint(q), !q.Features?).Err?
  }

  /** Why a page cannot be read, in the order of the checks. */
  lemma PageFailsByCause(text: JsonText, at: Reads, q: Query, size: nat, cursor: Option<string>)
    requires size >= 1
    ensures var r := ReadPage(text, at, q, size, cursor);
            && (r == Err(EmptySelector) <==> q.Features? && q.selector == "")
            && (r == Err(BadCursor) <==> !(q.Features? && q.selector == "") && IsForeign(text, q, cursor))
            && (r == Err(RecordingNotFound) <==>
                  q.Features? && q.selector != "" && !IsForeign(text, q, cursor) && q.recording !in at.lookup.recordings)
            && (r == Err(IncompleteAttempts) ==>
                  (q.Batches? || q.MasterCaptures?) && exists row: Row :: row in at.rows.rows && |row.attempts| != 2)
  {
    hide Accept, Kind, Fingerprint, Minter, Anchor, PageSize, Select, ItemsOf, Resume;
    var position := ReadPosition(text, q, cursor);
    if position.Ok? {
      var anchor := if position.value.None? then Anchor(q, at.anchor) else position.value.value.anchor;
      var after := if position.value.None? then None else Some(position.value.value.after);
      SelectedRowsAreStored(at.rows.rows, q, anchor, after, PageSize(q, size) + 1);
    }
  }

  // ----- the attempts of a page

  datatype AttemptRow = AttemptRow(sequence: int, start: int)

  function OfSequence(sequence: int): (p: AttemptRow -> bool)
  {
    (a: AttemptRow) => a.sequence == sequence
  }

  lemma OneMoreAttempt(rows: seq<AttemptRow>, row: AttemptRow, k: int)
    ensures Filter(rows + [row], OfSequence(k)) == Filter(rows, OfSequence(k)) + (if k == row.sequence then [row] else [])
  {
    FilterAppend(rows, [row], OfSequence(k));
    assert Filter([row], OfSequence(k)) == (if k == row.sequence then [row] else []) + Filter([], OfSequence(k));
  }

  /** One pass groups the attempt rows by batch version, keeping their order within each group. */
  method GroupAttempts(rows: seq<AttemptRow>) returns (grouped: map<int, seq<AttemptRow>>)
    ensures grouped.Keys == set r | r in rows :: r.sequence
    ensures forall k :: k in grouped ==> grouped[k] == Filter(rows, OfSequence(k))
  {
    grouped := map[];
    for i := 0 to |rows|
      invariant grouped.Keys == set r | r in rows[..i] :: r.sequence
      invariant forall k :: k in grouped ==> grouped[k] == Filter(rows[..i], OfSequence(k))
    {
      var row := rows[i];
      assert rows[..i + 1] == rows[..i] + [row];
      forall k ensures Filter(rows[..i + 1], OfSequence(k))
                       == Filter(rows[..i], OfSequence(k)) + (if k == row.sequence then [row] else [])
      {
        OneMoreAttempt(rows[..i], row, k);
      }
      if row.sequence !in grouped {
        FilterNone(rows[..i], OfSequence(row.sequence));
      }
      grouped := grouped[row.sequence := (if row.sequence in grouped then grouped[row.sequence] else []) + [row]];
    }
    assert rows[..|rows|] == rows;
  }

  // ----- appended rows stay invisible

  /** Rows gained above the anchor change nothing that the anchored statement can see. */
  lemma LaterRowsAreInvisible(rows: seq<Row>, rows': seq<Row>, q: Query, anchor: int)
    requires GainsAbove(rows, rows', anchor)
    ensures Filter(rows', Wanted(rows', q, anchor)) == Filter(rows, Wanted(rows, q, anchor))
  {
    var added := rows'[|rows|..];
    assert rows' == rows + added;
    AddedLieAbove(rows, rows', anchor);
    var p, p' := Wanted(rows, q, anchor), Wanted(rows', q, anchor);
    forall r ensures Latest(rows', q, anchor, r) == Latest(rows, q, anchor, r) {
      forall s | Visible(q, anchor, s) ensures s in rows' <==> s in rows {
        assert s in rows' <==> s in rows || s in added;
      }
    }
    FilterAppend(rows, added, p');
    FilterNone(added, p');
    FilterAgree(rows, p, p');
  }

  lemma AddedLieAbove(rows: seq<Row>, rows': seq<Row>, anchor: int)
    requires GainsAbove(rows, rows', anchor)
    ensures forall r :: r in rows'[|rows|..] ==> anchor < r.sequence
  {
    var added := rows'[|rows|..];
    forall r | r in added ensures anchor < r.sequence {
      var i :| 0 <= i < |added| && added[i] == r;
      assert rows'[|rows| + i] == r;
    }
  }

  lemma LaterActivitiesAreInvisible(activities: seq<Row>, activities': seq<Row>, anchor: int, recording: string)
    requires GainsAbove(activities, activities', anchor)
    ensures Kinds(activities', anchor, recording) == Kinds(activities, anchor, recording)
  {
    var added := activities'[|activities|..];
    AddedLieAbove(activities, activities', anchor);
    assert activities' == activities + added;
    forall r: Row | r.sequence <= anchor ensures r in activities' <==> r in activities {
      assert r in activities' <==> r in activities || r in added;
    }
    forall r ensures r in activities' && NewestBelow(activities', anchor, r)
                <==> r in activities && NewestBelow(activities, anchor, r)
    {
    }
  }

  lemma LaterItemsAreTheSame(db: Db, db': Db, q: Query, anchor: int, rows: seq<Row>)
    requires GainsAbove(db.activities, db'.activities, anchor)
    ensures ItemsOf(q, db'.activities, anchor, rows) == ItemsOf(q, db.activities, anchor, rows)
  {
    hide Kinds, GainsAbove;
    forall i | 0 <= i < |rows|
      ensures ItemOf(q, db'.activities, anchor, rows[i]) == ItemOf(q, db.activities, anchor, rows[i])
    {
      LaterActivitiesAreInvisible(db.activities, db'.activities, anchor, rows[i].id);
    }
  }

  lemma AnchoredListingsStay(db: Db, db': Db, q: Query, anchor: int)
    requires Later(db, db', anchor)
    ensures Listing(db', q, anchor) == Listing(db, q, anchor)
  {
    hide Wanted, ItemsOf;
    LaterRowsAreInvisible(db.rows, db'.rows, q, anchor);
    LaterItemsAreTheSame(db, db', q, anchor, Snapshot(db.rows, q, anchor));
  }

  // ----- one page is one slice

  /** The keyset condition cuts the snapshot exactly behind the row it names. */
  lemma KeysetCutsSnapshot(db: Db, q: Query, anchor: int, after: Option<After>, k: nat)
    requires WellFormed(db)
    requires k <= |Snapshot(db.rows, q, anchor)|
    requires after == if k == 0 then None else Some(Key(q, Snapshot(db.rows, q, anchor)[k - 1]))
    ensures Sort(RowOrder(q), Filter(Filter(db.rows, Wanted(db.rows, q, anchor)), Beyond(q, after)))
            == Snapshot(db.rows, q, anchor)[k..]
  {
    var c := Filter(db.rows, Wanted(db.rows, q, anchor));
    var s := Snapshot(db.rows, q, anchor);
    RowOrderIsTotal(q);
    WantedRowsAreComparable(db, q, anchor);
    SortOfFilter(RowOrder(q), c, Beyond(q, after));
    forall i | 0 <= i < |s| ensures Beyond(q, after)(s[i]) <==> k <= i {
      KeysetTellsPosition(db, q, anchor, after, k, i);
    }
    FilterIsSuffix(s, Beyond(q, after), k);
  }

  lemma KeysetTellsPosition(db: Db, q: Query, anchor: int, after: Option<After>, k: nat, i: nat)
    requires WellFormed(db)
    requires k <= |Snapshot(db.rows, q, anchor)| && i < |Snapshot(db.rows, q, anchor)|
    requires after == if k == 0 then None else Some(Key(q, Snapshot(db.rows, q, anchor)[k - 1]))
    ensures Beyond(q, after)(Snapshot(db.rows, q, anchor)[i]) <==> k <= i
  {
    hide Snapshot, Precedes;
    PrecedesIsStrictTotalOrder();
    if k > 0 {
      if i < k - 1 {
        SnapshotIsOrdered(db, q, anchor, i, k - 1);
      } else if k - 1 < i {
        SnapshotIsOrdered(db, q, anchor, k - 1, i);
      }
    }
  }

  /** The selector is there and the recording was known when it was looked up. */
  ghost predicate Known(lookup: Db, q: Query)
  {
    q.Features? ==> q.selector != "" && q.recording in lookup.recordings
  }

  /** Batch rows come from the publication routine. */
  ghost predicate FromRoutine(db: Db, q: Query)
  {
    q.Batches? || q.MasterCaptures? ==> forall r :: r in db.rows ==> Published(r)
  }

  function Slice<T>(s: seq<T>, k: nat, n: nat): (r: seq<T>)
    requires k <= |s|
  {
    Take(s[k..], n)
  }

  /** The page that starts at position `k` of the listing `s`, with the cursor that names the next one. */
  function PageAt(mint: Position -> string, db: Db, q: Query, anchor: int, n: nat, k: nat): (p: Page)
    requires n >= 1 && k <= |Snapshot(db.rows, q, anchor)|
  {
    var s := Snapshot(db.rows, q, anchor);
    Page(Slice(Listing(db, q, anchor), k, n), if k + n < |s| then Some(mint(PositionAt(s, q, anchor, k + n))) else None)
  }

  function PositionAt(s: seq<Row>, q: Query, anchor: int, k: nat): (p: Position)
    requires 1 <= k <= |s|
  {
    Position(anchor, Key(q, s[k - 1]))
  }

  lemma SelectIsSlice(db: Db, db': Db, q: Query, anchor: int, after: Option<After>, k: nat, limit: nat)
    requires WellFormed(db) && Later(db, db', anchor)
    requires k <= |Snapshot(db.rows, q, anchor)|
    requires after == if k == 0 then None else Some(Key(q, Snapshot(db.rows, q, anchor)[k - 1]))
    ensures Select(db'.rows, q, anchor, after, limit) == Slice(Snapshot(db.rows, q, anchor), k, limit)
  {
    LaterRowsAreInvisible(db.rows, db'.rows, q, anchor);
    KeysetCutsSnapshot(db, q, anchor, after, k);
  }

  /** Every row of the listing has both attempts and resumes at its own key. */
  ghost predicate Servable(q: Query, s: seq<Row>)
  {
    q.Batches? || q.MasterCaptures? ==> forall r :: r in s ==> |r.attempts| == 2 && Resume(q, r) == Key(q, r)
  }

  lemma RoutineListingsAreServable(db: Db, q: Query, anchor: int)
    requires FromRoutine(db, q)
    ensures Servable(q, Snapshot(db.rows, q, anchor))
  {
    SnapshotMembers(db.rows, q, anchor);
  }

  lemma PageFromSlice(mint: Position -> string, db: Db, activities: seq<Row>, q: Query, anchor: int, n: nat, k: nat)
    requires Servable(q, Snapshot(db.rows, q, anchor)) && n >= 1 && k <= |Snapshot(db.rows, q, anchor)|
    requires GainsAbove(db.activities, activities, anchor)
    ensures PageFrom(mint, q, activities, n, anchor, Slice(Snapshot(db.rows, q, anchor), k, n + 1))
         == Ok(PageAt(mint, db, q, anchor, n, k))
  {
    hide Snapshot, ItemsOf, ItemOf, GainsAbove;
    var s := Snapshot(db.rows, q, anchor);
    assert Take(Slice(s, k, n + 1), n) == Slice(s, k, n);
    assert forall r :: r in Slice(s, k, n) ==> r in s;
    LaterItemsAreTheSame(db, db.(activities := activities), q, anchor, Slice(s, k, n));
    ItemsOfSlice(q, db.activities, anchor, s, k, n);
    if k + n < |s| {
      var last := Slice(s, k, n)[n - 1];
      assert last == s[k + n - 1] && last in s;
    }
  }

  lemma ItemsOfSlice(q: Query, activities: seq<Row>, anchor: int, s: seq<Row>, k: nat, n: nat)
    requires k <= |s|
    ensures ItemsOf(q, activities, anchor, Slice(s, k, n)) == Slice(ItemsOf(q, activities, anchor, s), k, n)
  {
    hide ItemOf;
  }

  lemma ServedPageIsSlice(mint: Position -> string, db: Db, at: Reads, q: Query, n: nat, k: nat)
    requires WellFormed(db) && Later(db, at.rows, Anchor(q, db)) && FromRoutine(db, q) && Known(at.lookup, q) && n >= 1
    requires k <= |Snapshot(db.rows, q, Anchor(q, db))| && (k == 0 ==> at.anchor == db)
    ensures var s := Snapshot(db.rows, q, Anchor(q, db));
            Serve(mint, at, q, n, if k == 0 then None else Some(PositionAt(s, q, Anchor(q, db), k)))
            == Ok(PageAt(mint, db, q, Anchor(q, db), n, k))
  {
    hide Snapshot, Select, PageFrom, PageAt, WellFormed, Anchor, Servable;
    var anchor := Anchor(q, db);
    var s := Snapshot(db.rows, q, anchor);
    var after := if k == 0 then None else Some(Key(q, s[k - 1]));
    SelectIsSlice(db, at.rows, q, anchor, after, k, n + 1);
    RoutineListingsAreServable(db, q, anchor);
    PageFromSlice(mint, db, at.rows.activities, q, anchor, n, k);
  }

  lemma MintedCursorsReadBack(text: JsonText, q: Query, p: Position)
    requires Faithful(text) && p.after.Pair? == !q.Features?
    ensures ReadPosition(text, q, Some(Minter(text, q)(p))) == Ok(Some(p))
  {
    IssuedCursorsAreBound(text, Kind(q), Fingerprint(q), p, Kind(q), Fingerprint(q), !q.Features?);
  }

  /** The rows of the listing that a first page read of `db` opens. */
  function Opened(db: Db, q: Query): (s: seq<Row>)
  {
    Snapshot(db.rows, q, Anchor(q, db))
  }

  /**
   * One page read, whatever was appended above the anchor between its statements and since the listing
   * was opened, is the next slice of the listing that `db`, the state its first anchor statement saw, opened.
   */
  lemma PageIsSlice(text: JsonText, db: Db, at: Reads, q: Query, size: nat, k: nat)
    requires Faithful(text) && size >= 1
    requires WellFormed(db) && Later(db, at.rows, Anchor(q, db)) && FromRoutine(db, q) && Known(at.lookup, q)
    requires k <= |Opened(db, q)| && (k == 0 ==> at.anchor == db)
    ensures var cursor := if k == 0 then None
                          else Some(Minter(text, q)(PositionAt(Opened(db, q), q, Anchor(q, db), k)));
            ReadPage(text, at, q, size, cursor)
            == Ok(PageAt(Minter(text, q), db, q, Anchor(q, db), PageSize(q, size), k))
  {
    ServedPageIsSlice(Minter(text, q), db, at, q, PageSize(q, size), k);
    if k > 0 {
      MintedCursorsReadBack(text, q, PositionAt(Opened(db, q), q, Anchor(q, db), k));
    }
  }

  // ----- whole traversals

  /** Reads page number `i` with a cursor; each page may meet another state of the database. */
  type Reader = (nat, Option<string>) -> Result<Page, PageError>

  ghost predicate Traversal(read: Reader, pages: seq<Page>)
  {
    forall i :: 0 <= i < |pages| ==> ReadAt(read, pages, i)
  }

  ghost predicate ReadAt(read: Reader, pages: seq<Page>, i: nat)
    requires i < |pages|
  {
    && (i > 0 ==> pages[i - 1].next.Some?)
    && read(i, if i == 0 then None else pages[i - 1].next) == Ok(pages[i])
  }

  ghost predicate Complete(pages: seq<Page>)
  {
    pages != [] && pages[|pages| - 1].next.None?
  }

  function Items(pages: seq<Page>): (r: seq<Item>)
  {
    if pages == [] then [] else Items(pages[..|pages| - 1]) + pages[|pages| - 1].items
  }

  function SlicePage(s: seq<Item>, n: nat, cursorAt: nat -> Option<string>, k: nat): (p: Page)
    requires k <= |s|
  {
    Page(Slice(s, k, n), if k + n < |s| then cursorAt(k + n) else None)
  }

  /** The reader hands out the slices of one listing, each by the cursor of its offset. */
  ghost predicate Slices(read: Reader, s: seq<Item>, n: nat, cursorAt: nat -> Option<string>)
  {
    && n >= 1
    && cursorAt(0) == None
    && (forall k: nat :: 0 < k <= |s| ==> cursorAt(k).Some?)
    && (forall m: nat, k: nat :: k <= |s| && (m == 0 <==> k == 0) ==>
          read(m, cursorAt(k)) == Ok(SlicePage(s, n, cursorAt, k)))
  }

  /** The position where page `i` starts. */
  function Offset(i: nat, n: nat): (k: nat)
  {
    if i == 0 then 0 else Offset(i - 1, n) + n
  }

  lemma {:induction false} TraversalReadsSlices(
    read: Reader, s: seq<Item>, n: nat, cursorAt: nat -> Option<string>, pages: seq<Page>, i: nat)
    requires Slices(read, s, n, cursorAt) && Traversal(read, pages) && i < |pages|
    ensures i == 0 || Offset(i, n) < |s|
    ensures pages[i] == SlicePage(s, n, cursorAt, Offset(i, n))
  {
    assert ReadAt(read, pages, i);
    if i == 0 {
      assert read(0, cursorAt(0)) == Ok(SlicePage(s, n, cursorAt, 0));
    } else {
      TraversalReadsSlices(read, s, n, cursorAt, pages, i - 1);
      var k := Offset(i, n);
      assert k < |s| && pages[i - 1].next == cursorAt(k);
      assert read(i, cursorAt(k)) == Ok(SlicePage(s, n, cursorAt, k));
    }
  }

  ghost predicate HoldsSlice(s: seq<Item>, n: nat, pages: seq<Page>, i: nat)
    requires i < |pages|
  {
    Offset(i, n) <= |s| && pages[i].items == Slice(s, Offset(i, n), n)
  }

  lemma {:induction false} SlicesAddUp(s: seq<Item>, n: nat, pages: seq<Page>)
    requires pages != []
    requires forall i :: 0 <= i < |pages| ==> HoldsSlice(s, n, pages, i)
    ensures Items(pages) == Take(s, Offset(|pages|, n))
  {
    var m := |pages| - 1;
    var k := Offset(m, n);
    assert HoldsSlice(s, n, pages, m);
    if m == 0 {
      assert pages[..0] == [] && s[0..] == s;
    } else {
      forall i | 0 <= i < m ensures HoldsSlice(s, n, pages[..m], i) {
        assert HoldsSlice(s, n, pages, i);
      }
      SlicesAddUp(s, n, pages[..m]);
      assert Items(pages) == s[..k] + Take(s[k..], n);
    }
  }

  lemma PageHoldsSlice(
    read: Reader, s: seq<Item>, n: nat, cursorAt: nat -> Option<string>, pages: seq<Page>, i: nat)
    requires Slices(read, s, n, cursorAt) && Traversal(read, pages) && i < |pages|
    ensures HoldsSlice(s, n, pages, i)
    ensures pages[i] == SlicePage(s, n, cursorAt, Offset(i, n)) && (i == 0 || Offset(i, n) < |s|)
  {
    hide Slices, Traversal;
    TraversalReadsSlices(read, s, n, cursorAt, pages, i);
  }

  lemma CompleteTraversalReadsAll(
    read: Reader, s: seq<Item>, n: nat, cursorAt: nat -> Option<string>, pages: seq<Page>)
    requires Slices(read, s, n, cursorAt) && Traversal(read, pages) && Complete(pages)
    ensures Items(pages) == s
    ensures var full := Offset(|pages| - 1, n); |s| <= full + n && (|pages| == 1 || full < |s|)
  {
    hide Slices, Traversal, HoldsSlice, Items, Complete;
    LastSliceEnds(read, s, n, cursorAt, pages);
    forall i | 0 <= i < |pages| ensures HoldsSlice(s, n, pages, i) {
      PageHoldsSlice(read, s, n, cursorAt, pages, i);
    }
    SlicesAddUp(s, n, pages);
    assert Offset(|pages|, n) == Offset(|pages| - 1, n) + n;
  }

  lemma LastSliceEnds(
    read: Reader, s: seq<Item>, n: nat, cursorAt: nat -> Option<string>, pages: seq<Page>)
    requires Slices(read, s, n, cursorAt) && Traversal(read, pages) && Complete(pages)
    ensures pages != []
    ensures var full := Offset(|pages| - 1, n); |s| <= full + n && (|pages| == 1 || full < |s|)
  {
    PageHoldsSlice(read, s, n, cursorAt, pages, |pages| - 1);
  }

  lemma PageCountFromOffset(items: nat, n: nat, full: nat)
    requires n >= 1 && items <= Offset(full, n) + n && (full == 0 || Offset(full, n) < items)
    ensures full + 1 == PageCount(items, n)
  {
    OffsetIsProduct(full, n);
    PageCountFromBounds(items, n, full);
  }

  function PageCount(items: nat, n: nat): (c: nat)
    requires n >= 1
  {
    if items == 0 then 1 else (items + n - 1) / n
  }

  lemma {:induction false} OffsetIsProduct(i: nat, n: nat)
    ensures Offset(i, n) == i * n
  {
    if i > 0 {
      OffsetIsProduct(i - 1, n);
      assert i * n == (i - 1) * n + n;
    }
  }

  lemma PageCountFromBounds(items: nat, n: nat, full: nat)
    requires n >= 1 && items <= full * n + n && (full == 0 || full * n < items)
    ensures full + 1 == PageCount(items, n)
  {
    if items > 0 {
      assert (full + 1) * n == full * n + n;
      QuotientIsUnique(items + n - 1, n, full + 1);
    }
  }

  lemma QuotientIsUnique(x: nat, n: nat, c: nat)
    requires n >= 1 && c * n <= x < c * n + n
    ensures x / n == c
  {
    var d := x / n;
    assert x == n * d + x % n;
    if d < c {
      MultiplesAreApart(n, d, c);
    } else if c < d {
      MultiplesAreApart(n, c, d);
    }
  }

  lemma {:induction false} MultiplesAreApart(n: nat, a: nat, b: nat)
    requires a < b
    ensures a * n + n <= b * n
  {
    assert b * n == (b - 1) * n + n;
    if a < b - 1 {
      MultiplesAreApart(n, a, b - 1);
    }
  }

  lemma {:induction false} TraversalCompletes(
    read: Reader, s: seq<Item>, n: nat, cursorAt: nat -> Option<string>, pages: seq<Page>) returns (all: seq<Page>)
    requires Slices(read, s, n, cursorAt) && Traversal(read, pages)
    ensures pages <= all && Traversal(read, all) && Complete(all)
    decreases if pages == [] then |s| + n + 1 else if Offset(|pages|, n) <= |s| + n then |s| + n - Offset(|pages|, n) else 0
  {
    if Complete(pages) {
      all := pages;
    } else {
      var m := |pages|;
      var k := Offset(m, n);
      if m > 0 {
        TraversalReadsSlices(read, s, n, cursorAt, pages, m - 1);
      }
      var more := pages + [SlicePage(s, n, cursorAt, k)];
      assert read(m, cursorAt(k)) == Ok(SlicePage(s, n, cursorAt, k));
      forall i | 0 <= i < |more| ensures ReadAt(read, more, i) {
        if i < m {
          assert ReadAt(read, pages, i);
        }
      }
      all := TraversalCompletes(read, s, n, cursorAt, more);
    }
  }

  // ----- the refinement

  /** Page `i` is read by three statements: the lookup, the anchor and the rows. */
  function ReadsOf(history: nat -> Db, i: nat): (at: Reads)
  {
    Reads(history(3 * i), history(3 * i + 1), history(3 * i + 2))
  }

  function Pages(text: JsonText, history: nat -> Db, q: Query, size: nat): (read: Reader)
    requires size >= 1
  {
    (i: nat, cursor: Option<string>) => ReadPage(text, ReadsOf(history, i), q, size, cursor)
  }

  /** The state that opens the listing is the one the first page's anchor statement sees. */
  function OpeningState(history: nat -> Db): (db: Db)
  {
    history(1)
  }

  ghost predicate Answerable(history: nat -> Db, q: Query)
  {
    Known(history(0), q) && FromRoutine(OpeningState(history), q)
  }

  /** `history(i)` is the database when statement `i` runs; what comes after the anchor lies above it. */
  ghost predicate Steady(history: nat -> Db, q: Query)
  {
    && WellFormed(OpeningState(history))
    && (forall i: nat :: i >= 1 ==> Later(OpeningState(history), history(i), Anchor(q, OpeningState(history))))
    && forall i: nat :: history(0).recordings <= history(i).recordings
  }

  ghost function Cursors(text: JsonText, db: Db, q: Query): (cursorAt: nat -> Option<string>)
  {
    (k: nat) => if 1 <= k <= |Opened(db, q)|
                then Some(Minter(text, q)(PositionAt(Opened(db, q), q, Anchor(q, db), k))) else None
  }

  /** What a traversal opened in `db` is to show. */
  function OpenedItems(db: Db, q: Query): (items: seq<Item>)
    ensures |items| == |Opened(db, q)|
  {
    Listing(db, q, Anchor(q, db))
  }

  lemma PageReadsAreSlices(text: JsonText, history: nat -> Db, q: Query, size: nat)
    requires Faithful(text) && Steady(history, q) && Answerable(history, q) && size >= 1
    ensures var db := OpeningState(history);
            Slices(Pages(text, history, q, size), OpenedItems(db, q), PageSize(q, size), Cursors(text, db, q))
  {
    hide Opened, OpenedItems, Steady, Answerable, PageSize;
    var db := OpeningState(history);
    var s, cursorAt := OpenedItems(db, q), Cursors(text, db, q);
    assert PageSize(q, size) >= 1 by { PageSizeIsPositive(q, size); }
    forall m: nat, k: nat | k <= |s| && (m == 0 <==> k == 0)
      ensures Pages(text, history, q, size)(m, cursorAt(k)) == Ok(SlicePage(s, PageSize(q, size), cursorAt, k))
    {
      PageReadIsSlice(text, history, q, size, m, k);
    }
  }

  lemma PageSizeIsPositive(q: Query, size: nat)
    requires size >= 1
    ensures PageSize(q, size) >= 1
  {
  }

  lemma PageReadIsSlice(text: JsonText, history: nat -> Db, q: Query, size: nat, m: nat, k: nat)
    requires Faithful(text) && Steady(history, q) && Answerable(history, q) && size >= 1
    requires k <= |Opened(OpeningState(history), q)| && (m == 0 <==> k == 0)
    ensures var db := OpeningState(history);
            ReadPage(text, ReadsOf(history, m), q, size, Cursors(text, db, q)(k))
            == Ok(SlicePage(OpenedItems(db, q), PageSize(q, size), Cursors(text, db, q), k))
  {
    hide Opened, ReadPage, Later, FromRoutine, WellFormed, PageAt, SlicePage, OpenedItems, Anchor;
    var db, at := OpeningState(history), ReadsOf(history, m);
    PageIsSlice(text, db, at, q, size, k);
    SlicePageIsPageAt(text, db, q, PageSize(q, size), k);
  }

  lemma SlicePageIsPageAt(text: JsonText, db: Db, q: Query, n: nat, k: nat)
    requires n >= 1 && k <= |Opened(db, q)|
    ensures SlicePage(OpenedItems(db, q), n, Cursors(text, db, q), k)
            == PageAt(Minter(text, q), db, q, Anchor(q, db), n, k)
  {
    hide Anchor, Minter, Slice, PositionAt, Listing, Snapshot;
    assert |OpenedItems(db, q)| == |Opened(db, q)|;
  }

  /** Following cursors to the end lists exactly what the opening showed, in max(1, ceil(n / size)) pages. */
  lemma SteadyTraversalIsSnapshot(text: JsonText, history: nat -> Db, q: Query, size: nat, pages: seq<Page>)
    requires Faithful(text) && Steady(history, q) && Answerable(history, q) && size >= 1
    requires Traversal(Pages(text, history, q, size), pages) && Complete(pages)
    ensures Items(pages) == OpenedItems(OpeningState(history), q)
    ensures |pages| == PageCount(|Items(pages)|, PageSize(q, size))
  {
    hide Slices, Traversal, Steady, Answerable, Items, Complete, PageCount, Pages, Cursors, OpenedItems;
    var db := OpeningState(history);
    PageReadsAreSlices(text, history, q, size);
    SlicedTraversalIsWhole(Pages(text, history, q, size), OpenedItems(db, q), PageSize(q, size), Cursors(text, db, q), pages);
  }

  lemma SlicedTraversalIsWhole(
    read: Reader, s: seq<Item>, n: nat, cursorAt: nat -> Option<string>, pages: seq<Page>)
    requires n >= 1 && Slices(read, s, n, cursorAt) && Traversal(read, pages) && Complete(pages)
    ensures Items(pages) == s && |pages| == PageCount(|s|, n)
  {
    hide Slices, Traversal, Items, PageCount;
    CompleteTraversalReadsAll(read, s, n, cursorAt, pages);
    PageCountFromOffset(|s|, n, |pages| - 1);
  }

  /** No traversal can get stuck or run forever: every one extends to a complete one. */
  lemma EveryTraversalCompletes(text: JsonText, history: nat -> Db, q: Query, size: nat, pages: seq<Page>)
    returns (all: seq<Page>)
    requires Faithful(text) && Steady(history, q) && Answerable(history, q) && size >= 1
    requires Traversal(Pages(text, history, q, size), pages)
    ensures pages <= all && Traversal(Pages(text, history, q, size), all) && Complete(all)
  {
    var db := OpeningState(history);
    PageReadsAreSlices(text, history, q, size);
    all := TraversalCompletes(
      Pages(text, history, q, size), OpenedItems(db, q), PageSize(q, size), Cursors(text, db, q), pages);
  }

  // ----- appends one after another

  /** `history(i)` is the database when statement `i` of the traversal runs; only appends happen in between. */
  ghost predicate Timeline(history: nat -> Db)
  {
    forall i: nat :: WellFormed(history(i)) && Extends(history(i), history(i + 1))
  }

  /** The anchor was read from a sequence that had been drawn from; batches anchor at rows instead. */
  predicate Settled(q: Query, db: Db)
  {
    q.Batches? || q.MasterCaptures? || db.counter.called
  }

  lemma {:induction false} TimelineExtends(history: nat -> Db, i: nat, j: nat)
    requires Timeline(history) && i <= j
    ensures Extends(history(i), history(j))
  {
    hide Extends, WellFormed;
    if i == j {
      ExtendsItself(history(i));
    } else {
      TimelineExtends(history, i, j - 1);
      assert Extends(history(j - 1), history(j - 1 + 1));
      ExtendsIsTransitive(history(i), history(j - 1), history(j));
    }
  }

  lemma ExtendsItself(db: Db)
    ensures Extends(db, db)
  {
  }

  lemma SettledAnchorsHold(q: Query, db: Db, db': Db)
    requires WellFormed(db) && Extends(db, db') && Settled(q, db)
    ensures Later(db, db', Anchor(q, db))
  {
    assert Anchor(q, db) <= Draw(db.counter, 0) - 1;
  }

  lemma SettledTimelinesAreSteady(history: nat -> Db, q: Query)
    requires Timeline(history) && Settled(q, OpeningState(history))
    ensures Steady(history, q)
  {
    hide Extends, Later, Anchor, Settled;
    var db := OpeningState(history);
    forall i: nat | i >= 1 ensures Later(db, history(i), Anchor(q, db)) {
      TimelineExtends(history, 1, i);
      SettledAnchorsHold(q, db, history(i));
    }
    forall i: nat ensures history(0).recordings <= history(i).recordings {
      TimelineExtends(history, 0, i);
      assert history(0).recordings <= history(i).recordings by { ExtendingKeepsRecordings(history(0), history(i)); }
    }
  }

  lemma ExtendingKeepsRecordings(db: Db, db': Db)
    requires Extends(db, db')
    ensures db.recordings <= db'.recordings
  {
  }

  /** With a settled anchor, the pages add up to the opening listing, whatever is appended between any two statements. */
  lemma CompleteTraversalIsSnapshot(text: JsonText, history: nat -> Db, q: Query, size: nat, pages: seq<Page>)
    requires Faithful(text) && Timeline(history) && Answerable(history, q) && size >= 1
    requires Settled(q, OpeningState(history))
    requires Traversal(Pages(text, history, q, size), pages) && Complete(pages)
    ensures Items(pages) == OpenedItems(OpeningState(history), q)
    ensures |pages| == PageCount(|Items(pages)|, PageSize(q, size))
  {
    SettledTimelinesAreSteady(history, q);
    SteadyTraversalIsSnapshot(text, history, q, size, pages);
  }

  /**
   * What that listing is, on the columns and without the anchor: of every entity the newest version committed
   * when the traversal opened, if it is asked for, in the order of the statement; a recording with the kinds
   * of the activities whose newest version committed by then is its own.
   */
  lemma CompleteTraversalListsNewest(text: JsonText, history: nat -> Db, q: Query, size: nat, pages: seq<Page>)
    requires Faithful(text) && Timeline(history) && Answerable(history, q) && size >= 1
    requires Settled(q, OpeningState(history))
    requires Traversal(Pages(text, history, q, size), pages) && Complete(pages)
    ensures var all, rows := Items(pages), history(1).rows;
            && (forall i, j :: 0 <= i < j < |all| ==>
                  if q.Features? then Text.Less(all[i].row.id, all[j].row.id)
                  else || all[j].row.start < all[i].row.start
                       || (all[j].row.start == all[i].row.start && Text.Less(all[j].row.id, all[i].row.id)))
            && (forall r :: (exists i :: 0 <= i < |all| && all[i].row == r) <==> r in rows && NewestAsked(q, rows, r))
            && (q.Recordings? ==> forall i, kind :: 0 <= i < |all| ==>
                  (kind in all[i].kinds <==> NewestKind(history(1).activities, all[i].row.id, kind)))
  {
    hide Traversal, Complete, Items, Pages, PageCount, PageSize, Snapshot, Timeline, Answerable, Anchor, Kinds, NewestAsked,
         NewestKind, WellFormed, Opened;
    CompleteTraversalIsSnapshot(text, history, q, size, pages);
    TimelineOpensWell(history);
    OpenedByColumns(history(1), q);
  }

  /** Asked for, and no version of the entity has a larger sequence; features are compared within the recording. */
  ghost predicate NewestAsked(q: Query, rows: seq<Row>, r: Row)
  {
    if q.Features? then
      && r.scope == q.recording && (q.selector == "*" || r.methodId == q.selector)
      && forall x :: x in rows && x.id == r.id && x.scope == q.recording ==> x.sequence <= r.sequence
    else
      && q.start <= r.start && r.start < q.stop
      && (q.Recordings? || q.Tracks? ==> q.radios == [] || r.scope in q.radios)
      && forall x :: x in rows && x.id == r.id ==> x.sequence <= r.sequence
  }

  ghost predicate NewestKind(activities: seq<Row>, recording: string, kind: string)
  {
    exists a :: a in activities && a.scope == recording && a.view == kind
      && forall x :: x in activities && x.id == a.id ==> x.sequence <= a.sequence
  }

  lemma TimelineOpensWell(history: nat -> Db)
    requires Timeline(history)
    ensures WellFormed(history(1))
  {
    hide WellFormed, Extends;
  }

  lemma OpenedByColumns(db: Db, q: Query)
    requires WellFormed(db)
    ensures var all := OpenedItems(db, q);
            && (forall i, j :: 0 <= i < j < |all| ==>
                  if q.Features? then Text.Less(all[i].row.id, all[j].row.id)
                  else || all[j].row.start < all[i].row.start
                       || (all[j].row.start == all[i].row.start && Text.Less(all[j].row.id, all[i].row.id)))
            && (forall r :: (exists i :: 0 <= i < |all| && all[i].row == r) <==> r in db.rows && NewestAsked(q, db.rows, r))
            && (q.Recordings? ==> forall i, kind :: 0 <= i < |all| ==>
                  (kind in all[i].kinds <==> NewestKind(db.activities, all[i].row.id, kind)))
  {
    hide Snapshot, Anchor, Kinds;
    var anchor := Anchor(q, db);
    var s, all := Snapshot(db.rows, q, anchor), OpenedItems(db, q);
    assert |all| == |s| && forall i :: 0 <= i < |s| ==> all[i].row == s[i];
    SnapshotByColumns(db, q, anchor);
    AnchorCoversCommitted(q, db);
    MembersByPlace(s, all);
    NewestBelowIsNewest(db, q, anchor, s);
    if q.Recordings? {
      forall i, kind | 0 <= i < |all| ensures kind in all[i].kinds <==> NewestKind(db.activities, all[i].row.id, kind) {
        KindsByColumns(db.activities, anchor, s[i].id, kind);
        ActivitiesAreCovered(db, q);
      }
    }
  }

  lemma MembersByPlace(s: seq<Row>, all: seq<Item>)
    requires |all| == |s| && forall i :: 0 <= i < |s| ==> all[i].row == s[i]
    ensures forall r :: (exists i :: 0 <= i < |all| && all[i].row == r) <==> r in s
  {
  }

  lemma NewestBelowIsNewest(db: Db, q: Query, anchor: int, s: seq<Row>)
    requires WellFormed(db) && s == Snapshot(db.rows, q, anchor) && forall r :: r in db.rows ==> r.sequence <= anchor
    ensures forall r :: r in s <==> r in db.rows && NewestAsked(q, db.rows, r)
  {
    hide Snapshot, WellFormed;
    SnapshotByColumns(db, q, anchor);
  }

  lemma ActivitiesAreCovered(db: Db, q: Query)
    requires WellFormed(db) && q.Recordings?
    ensures forall a :: a in db.activities ==> a.sequence <= Anchor(q, db)
  {
  }

  /** Later appends leave every listing of the kind, at the anchor read now, as it is. */
  ghost predicate AnchorHolds(kind: Query, db: Db)
  {
    forall q, db' :: Kind(q) == Kind(kind) && Extends(db, db') ==>
      Snapshot(db'.rows, q, Anchor(q, db)) == Snapshot(db.rows, q, Anchor(q, db))
  }

  /**
   * An anchor holds exactly when it is settled. A sequence never drawn from reads 1, and then gives 1 to
   * the first insert.
   */
  lemma AnchorHoldsIffSettled(kind: Query, db: Db)
    requires WellFormed(db)
    ensures AnchorHolds(kind, db) <==> Settled(kind, db)
  {
    hide Snapshot, Extends, WellFormed, Anchor;
    if Settled(kind, db) {
      forall q, db' | Kind(q) == Kind(kind) && Extends(db, db')
        ensures Snapshot(db'.rows, q, Anchor(q, db)) == Snapshot(db.rows, q, Anchor(q, db))
      {
        SettledAnchorsHold(q, db, db');
        SnapshotStays(db, db', q, Anchor(q, db));
      }
    } else {
      var row := Row(0, "rec_a", 0, "radio_a", "", [], "");
      FirstInsertShows(kind, db, row);
      var q := QueryFor(kind, row.(sequence := 1));
      assert Kind(q) == Kind(kind) && Extends(db, Append(db, 0, row));
    }
  }

  lemma SnapshotStays(db: Db, db': Db, q: Query, anchor: int)
    requires Later(db, db', anchor)
    ensures Snapshot(db'.rows, q, anchor) == Snapshot(db.rows, q, anchor)
  {
    LaterRowsAreInvisible(db.rows, db'.rows, q, anchor);
  }

  lemma FirstInsertShows(kind: Query, db: Db, row: Row)
    requires WellFormed(db) && !Settled(kind, db)
    ensures var db', q := Append(db, 0, row), QueryFor(kind, row.(sequence := 1));
            && Extends(db, db') && Anchor(q, db) == 1
            && Snapshot(db'.rows, q, 1) != Snapshot(db.rows, q, 1)
  {
    hide Snapshot;
    AppendExtends(db, 0, row);
    var first := row.(sequence := 1);
    SomeMember(db.rows);
    assert Append(db, 0, row).rows == [] + [first];
    NewestLateRowShows([], first, kind, 1);
  }

  lemma SomeMember<T>(s: seq<T>)
    ensures s != [] ==> exists x :: x in s
  {
    if s != [] {
      assert s[0] in s;
    }
  }

  /** Such a traversal: the anchor statement sees no row, the row statement shows the first recording. */
  lemma FirstRecordingSlipsIn(text: JsonText, row: Row, start: int, stop: int)
    requires start <= row.start < stop
    ensures var empty := Db([], [], NEVER_DRAWN, {});
            var q, after := Recordings(start, stop, []), Append(empty, 0, row);
            && WellFormed(empty) && Extends(empty, after) && OpenedItems(empty, q) == []
            && ReadPage(text, Reads(empty, empty, after), q, 50, None)
               == Ok(Page([Item(row.(sequence := 1), {})], None))
  {
    hide Issue, Accept;
    var empty := Db([], [], NEVER_DRAWN, {});
    var q, first := Recordings(start, stop, []), row.(sequence := 1);
    AppendExtends(empty, 0, row);
    assert Append(empty, 0, row).rows == [first];
    assert Kinds([], 1, first.id) == {};
    OneRow(q, first);
    assert ItemsOf(q, [], 1, [first]) == [Item(first, {})];
  }

  lemma OneRow(q: Query, r: Row)
    requires q.Recordings? && Matches(q, r) && r.sequence == 1
    ensures Select([r], q, 1, None, 51) == [r] && Snapshot([], q, 1) == []
  {
    assert [r][1..] == [];
    assert Filter([r], Wanted([r], q, 1)) == [r];
    assert Filter([r], Beyond(q, None)) == [r];
    assert Sort(RowOrder(q), [r]) == Insert(RowOrder(q), r, Sort(RowOrder(q), [])) == [r];
  }

  // ----- rows that commit late

  /**
   * A transaction may draw its sequence value before the anchor is read and commit after it. Such a
   * row leaves every listing of a kind at that anchor unchanged exactly when a newer version of the
   * same entity was already visible at the anchor.
   */
  lemma LateCommitIsHarmlessIffSuperseded(rows: seq<Row>, late: Row, kind: Query, anchor: int)
    requires late.sequence <= anchor && late !in rows
    ensures (forall q :: Kind(q) == Kind(kind) ==> Snapshot(rows + [late], q, anchor) == Snapshot(rows, q, anchor))
            <==> Superseded(rows, late, kind, anchor)
  {
    hide Snapshot;
    var rows' := rows + [late];
    if Superseded(rows, late, kind, anchor) {
      forall q | Kind(q) == Kind(kind) ensures Snapshot(rows', q, anchor) == Snapshot(rows, q, anchor) {
        SupersededRowIsMissing(rows, late, q, anchor);
      }
    } else {
      var q := QueryFor(kind, late);
      NewestLateRowShows(rows, late, kind, anchor);
      assert Kind(q) == Kind(kind);
    }
  }

  /** A query of the same kind that asks for the row. */
  function QueryFor(kind: Query, r: Row): (q: Query)
    ensures Kind(q) == Kind(kind) && Matches(q, r)
  {
    match kind
    case Batches(_, _) => Batches(r.start, r.start + 1)
    case MasterCaptures(_, _, limit) => MasterCaptures(r.start, r.start + 1, limit)
    case Recordings(_, _, _) => Recordings(r.start, r.start + 1, [])
    case Tracks(_, _, _) => Tracks(r.start, r.start + 1, [])
    case Features(_, _) => Features(r.scope, "*")
  }

  /** Features belong to a recording; the versions of one are compared within it. */
  ghost predicate Superseded(rows: seq<Row>, late: Row, kind: Query, anchor: int)
  {
    exists r :: r in rows && r.id == late.id && late.sequence < r.sequence <= anchor
      && (kind.Features? ==> r.scope == late.scope)
  }

  lemma NewestLateRowShows(rows: seq<Row>, late: Row, kind: Query, anchor: int)
    requires late.sequence <= anchor && late !in rows && !Superseded(rows, late, kind, anchor)
    ensures var q := QueryFor(kind, late); Snapshot(rows + [late], q, anchor) != Snapshot(rows, q, anchor)
  {
    hide Snapshot;
    var q, rows' := QueryFor(kind, late), rows + [late];
    SnapshotMembers(rows, q, anchor);
    SnapshotMembers(rows', q, anchor);
    assert late in rows' && Latest(rows', q, anchor, late);
    assert late in Snapshot(rows', q, anchor) && late !in Snapshot(rows, q, anchor);
  }

  lemma SupersededRowIsInvisible(rows: seq<Row>, late: Row, q: Query, anchor: int)
    requires Superseded(rows, late, q, anchor)
    ensures !Latest(rows + [late], q, anchor, late)
    ensures forall r :: r in rows ==> Latest(rows + [late], q, anchor, r) == Latest(rows, q, anchor, r)
  {
    var rows' := rows + [late];
    var newer :| newer in rows && newer.id == late.id && late.sequence < newer.sequence <= anchor
      && (q.Features? ==> newer.scope == late.scope);
    assert newer in rows';
    assert Visible(q, anchor, late) ==> Visible(q, anchor, newer);
  }

  lemma SupersededRowIsMissing(rows: seq<Row>, late: Row, q: Query, anchor: int)
    requires Superseded(rows, late, q, anchor)
    ensures Snapshot(rows + [late], q, anchor) == Snapshot(rows, q, anchor)
  {
    hide Latest;
    SupersededRowIsInvisible(rows, late, q, anchor);
    var p, p' := Wanted(rows, q, anchor), Wanted(rows + [late], q, anchor);
    FilterAppend(rows, [late], p');
    FilterNone([late], p');
    FilterAgree(rows, p, p');
    assert Filter(rows + [late], p') == Filter(rows, p);
  }

  /** A batch whose first version commits late is missing from the listing that anchored past it. */
  lemma LateFirstVersionIsMissed()
    ensures var seen := Row(2, "cbatch_a", 10, "", "", [10, 10], "");
            var late := Row(1, "cbatch_b", 20, "", "", [20, 20], "");
            && Anchor(Batches(0, 100), Db([seen], [], Counter(2, true), {})) == 2
            && Snapshot([seen, late], Batches(20, 21), 2) != Snapshot([seen], Batches(20, 21), 2)
  {
    var seen := Row(2, "cbatch_a", 10, "", "", [10, 10], "");
    var late := Row(1, "cbatch_b", 20, "", "", [20, 20], "");
    assert [seen] + [late] == [seen, late];
    assert seen.id[7] != late.id[7];
    NewestLateRowShows([seen], late, Batches(0, 100), 2);
  }
}
