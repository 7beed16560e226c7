/** The append-only projection tables and the statements that read one page of them. */
module Projections {
  import opened Outcomes
  import opened Lists
  import opened Cursor
  import Numbers
  import Text

  /**
   * One version of a projected entity. `scope` is the radio (or, for features, the recording) and
   * `methodId` the method identifier; `attempts` holds the requested starts of a batch's attempts.
   */
  datatype Row = Row(
    sequence: int, id: string, start: int, scope: string, methodId: string, attempts: seq<int>, view: string)

  /** `last_value` and `is_called` of a PostgreSQL sequence: one never drawn from already shows its first value. */
  datatype Counter = Counter(last: int, called: bool)

  const NEVER_DRAWN := Counter(1, false)

  /**
   * The listed table, the activity rows beside it (`scope` is the recording and `view` the kind), the
   * shared sequence and the recordings known to exist.
   */
  datatype Db = Db(rows: seq<Row>, activities: seq<Row>, counter: Counter, recordings: set<string>)

  datatype Query =
    | Batches(start: int, stop: int)
    | MasterCaptures(start: int, stop: int, maximumRecordings: nat)
    | Recordings(start: int, stop: int, radios: seq<string>)
    | Tracks(start: int, stop: int, radios: seq<string>)
    | Features(recording: string, selector: string)

  // ----- the tables over time

  /** No two versions of an entity share a sequence value. */
  ghost predicate DistinctVersions(rows: seq<Row>)
  {
    forall i, j :: 0 <= i < j < |rows| && rows[i].id == rows[j].id ==> rows[i].sequence != rows[j].sequence
  }

  ghost predicate Issued(rows: seq<Row>, counter: Counter)
  {
    forall r :: r in rows ==> counter.called && r.sequence <= counter.last
  }

  ghost predicate WellFormed(db: Db)
  {
    && 1 <= db.counter.last && (!db.counter.called ==> db.counter == NEVER_DRAWN)
    && DistinctVersions(db.rows) && Issued(db.rows, db.counter)
    && DistinctVersions(db.activities) && Issued(db.activities, db.counter)
  }

  /** The rows gained follow those there were, and lie above `n`. */
  ghost predicate GainsAbove(rows: seq<Row>, rows': seq<Row>, n: int)
  {
    rows <= rows' && forall i :: |rows| <= i < |rows'| ==> n < rows'[i].sequence
  }

  /** `db'` is a later state whose further rows all lie above the anchor. */
  ghost predicate Later(db: Db, db': Db, anchor: int)
  {
    && GainsAbove(db.rows, db'.rows, anchor) && GainsAbove(db.activities, db'.activities, anchor)
    && db.recordings <= db'.recordings
  }

  /** What the next insert draws, if `skipped` values are lost before it. */
  function Draw(c: Counter, skipped: nat): (n: int)
  {
    (if c.called then c.last + 1 else c.last) + skipped
  }

  /** `db'` is `db` after any number of later appends. */
  ghost predicate Extends(db: Db, db': Db)
  {
    && Later(db, db', Draw(db.counter, 0) - 1)
    && db.counter.last <= db'.counter.last && (db.counter.called ==> db'.counter.called)
  }

  /** One insert draws the next free sequence value; aborted transactions and other tables may have skipped some. */
  function Append(db: Db, skipped: nat, row: Row): (db': Db)
  {
    var sequence := Draw(db.counter, skipped);
    db.(rows := db.rows + [row.(sequence := sequence)], counter := Counter(sequence, true))
  }

  function AppendActivity(db: Db, skipped: nat, row: Row): (db': Db)
  {
    var sequence := Draw(db.counter, skipped);
    db.(activities := db.activities + [row.(sequence := sequence)], counter := Counter(sequence, true))
  }

  /** The batch publication routine stores the earlier of the two requested starts. */
  function PublishBatch(db: Db, skipped: nat, id: string, first: int, second: int, view: string): (db': Db)
  {
    Append(db, skipped, Row(0, id, if first <= second then first else second, "", "", [first, second], view))
  }

  ghost predicate Published(r: Row)
  {
    |r.attempts| == 2 && r.start == Earliest(r)
  }

  lemma AppendExtends(db: Db, skipped: nat, row: Row)
    requires WellFormed(db)
    ensures WellFormed(Append(db, skipped, row)) && Extends(db, Append(db, skipped, row))
    ensures WellFormed(AppendActivity(db, skipped, row)) && Extends(db, AppendActivity(db, skipped, row))
  {
  }

  lemma PublishedRowsStayPublished(db: Db, skipped: nat, id: string, first: int, second: int, view: string)
    requires WellFormed(db) && forall r :: r in db.rows ==> Published(r)
    ensures var db' := PublishBatch(db, skipped, id, first, second, view);
            WellFormed(db') && Extends(db, db') && forall r :: r in db'.rows ==> Published(r)
  {
  }

  lemma GainsAddUp(a: seq<Row>, b: seq<Row>, c: seq<Row>, n: int)
    requires GainsAbove(a, b, n) && GainsAbove(b, c, n)
    ensures GainsAbove(a, c, n)
  {
    forall i | |a| <= i < |c| ensures n < c[i].sequence {
      if i < |b| {
        assert c[i] == b[i];
      }
    }
  }

  lemma ExtendsIsTransitive(a: Db, b: Db, c: Db)
    requires Extends(a, b) && Extends(b, c)
    ensures Extends(a, c)
  {
    var n := Draw(a.counter, 0) - 1;
    assert n <= Draw(b.counter, 0) - 1;
    GainsAddUp(a.rows, b.rows, c.rows, n);
    GainsAddUp(a.activities, b.activities, c.activities, n);
  }

  // ----- ordering

  function Earliest(r: Row): (t: int)
    requires |r.attempts| == 2
  {
    if r.attempts[0] <= r.attempts[1] then r.attempts[0] else r.attempts[1]
  }

  function Key(q: Query, r: Row): (k: After)
  {
    if q.Features? then Single(r.id) else Pair(r.start, r.id)
  }

  /** Listings by time run backwards over (start, id); the feature listing runs forwards over id. */
  predicate Precedes(a: After, b: After)
  {
    match (a, b)
    case (Pair(s, i), Pair(t, j)) => t < s || (t == s && Text.Less(j, i))
    case (Single(i), Single(j)) => Text.Less(i, j)
    case (Single(_), Pair(_, _)) => true
    case (Pair(_, _), Single(_)) => false
  }

  lemma PrecedesIsStrictTotalOrder()
    ensures forall a :: !Precedes(a, a)
    ensures forall a, b :: a == b || Precedes(a, b) || Precedes(b, a)
    ensures forall a, b, c :: Precedes(a, b) && Precedes(b, c) ==> Precedes(a, c)
  {
    Text.LessIsStrictTotalOrder();
  }

  function RowOrder(q: Query): (leq: (Row, Row) -> bool)
  {
    (a, b) => !Precedes(Key(q, b), Key(q, a))
  }

  lemma RowOrderIsTotal(q: Query)
    ensures TotalPreorder(RowOrder(q))
  {
    PrecedesIsStrictTotalOrder();
    var leq := RowOrder(q);
    forall a, b, c | leq(a, b) && leq(b, c) ensures leq(a, c) {
      var x, y, z := Key(q, a), Key(q, b), Key(q, c);
      assert x == y || Precedes(x, y);
      assert y == z || Precedes(y, z);
    }
  }

  // ----- the read statements

  /** The row takes part in the statement's `DISTINCT ON` subquery. */
  predicate Visible(q: Query, anchor: int, r: Row)
  {
    r.sequence <= anchor && (q.Features? ==> r.scope == q.recording)
  }

  predicate Latest(rows: seq<Row>, q: Query, anchor: int, r: Row)
  {
    Visible(q, anchor, r) && !exists s :: s in rows && Visible(q, anchor, s) && s.id == r.id && r.sequence < s.sequence
  }

  /** The outer `WHERE`, apart from the keyset condition. */
  predicate Matches(q: Query, r: Row)
  {
    match q
    case Features(_, selector) => selector == "*" || r.methodId == selector
    case Batches(start, stop) => start <= r.start < stop
    case MasterCaptures(start, stop, _) => start <= r.start < stop
    case Recordings(start, stop, radios) => start <= r.start < stop && (radios == [] || r.scope in radios)
    case Tracks(start, stop, radios) => start <= r.start < stop && (radios == [] || r.scope in radios)
  }

  function Wanted(rows: seq<Row>, q: Query, anchor: int): (p: Row -> bool)
  {
    r => Latest(rows, q, anchor, r) && Matches(q, r)
  }

  function Beyond(q: Query, after: Option<After>): (p: Row -> bool)
  {
    r => after.None? || Precedes(after.value, Key(q, r))
  }

  /** The whole listing as of an anchor. */
  function Snapshot(rows: seq<Row>, q: Query, anchor: int): (s: seq<Row>)
  {
    Sort(RowOrder(q), Filter(rows, Wanted(rows, q, anchor)))
  }

  /** One bounded statement: the first `limit` wanted rows past the keyset position. */
  function Select(rows: seq<Row>, q: Query, anchor: int, after: Option<After>, limit: nat): (s: seq<Row>)
  {
    Take(Sort(RowOrder(q), Filter(Filter(rows, Wanted(rows, q, anchor)), Beyond(q, after))), limit)
  }

  lemma SelectedRowsAreStored(rows: seq<Row>, q: Query, anchor: int, after: Option<After>, limit: nat)
    ensures forall r :: r in Select(rows, q, anchor, after, limit) ==> r in rows
  {
    hide Wanted, Beyond, Sort, RowOrder;
    var wanted := Filter(rows, Wanted(rows, q, anchor));
    var all := Filter(wanted, Beyond(q, after));
    RowOrderIsTotal(q);
    SortIsOrderedPermutation(RowOrder(q), all);
    FilterMembers(rows, Wanted(rows, q, anchor));
    FilterMembers(wanted, Beyond(q, after));
    forall r | r in Select(rows, q, anchor, after, limit) ensures r in rows {
      assert r in multiset(Sort(RowOrder(q), all));
      assert r in multiset(all);
    }
  }

  // ----- what the statement adds to a row

  /** A listed row; a recording comes with the kinds of its activities. */
  datatype Item = Item(row: Row, kinds: set<string>)

  predicate NewestBelow(rows: seq<Row>, anchor: int, r: Row)
  {
    r.sequence <= anchor && !exists s :: s in rows && s.sequence <= anchor && s.id == r.id && r.sequence < s.sequence
  }

  /** The kinds of a recording's activities as of the anchor; the statement returns them sorted and without repeats. */
  function Kinds(activities: seq<Row>, anchor: int, recording: string): (kinds: set<string>)
  {
    set a | a in activities && NewestBelow(activities, anchor, a) && a.scope == recording :: a.view
  }

  function ItemOf(q: Query, activities: seq<Row>, anchor: int, r: Row): (x: Item)
  {
    Item(r, if q.Recordings? then Kinds(activities, anchor, r.id) else {})
  }

  function ItemsOf(q: Query, activities: seq<Row>, anchor: int, rows: seq<Row>): (items: seq<Item>)
    ensures |items| == |rows| && forall i :: 0 <= i < |rows| ==> items[i] == ItemOf(q, activities, anchor, rows[i])
  {
    seq(|rows|, i requires 0 <= i < |rows| => ItemOf(q, activities, anchor, rows[i]))
  }

  /** Everything a listing shows as of an anchor. */
  function Listing(db: Db, q: Query, anchor: int): (items: seq<Item>)
  {
    ItemsOf(q, db.activities, anchor, Snapshot(db.rows, q, anchor))
  }

  // ----- what the snapshot contains

  /** Exactly the latest-as-of-anchor rows that match the query, each entity once, in listing order. */
  lemma SnapshotIsExact(db: Db, q: Query, anchor: int)
    requires WellFormed(db)
    ensures var s := Snapshot(db.rows, q, anchor);
            && (forall r :: r in s <==> r in db.rows && Latest(db.rows, q, anchor, r) && Matches(q, r))
            && (forall i, j :: 0 <= i < j < |s| ==> Precedes(Key(q, s[i]), Key(q, s[j])) && s[i].id != s[j].id)
  {
    var s := Snapshot(db.rows, q, anchor);
    SnapshotMembers(db.rows, q, anchor);
    SnapshotHasNoRepeats(db, q, anchor);
    forall i, j | 0 <= i < j < |s| ensures Precedes(Key(q, s[i]), Key(q, s[j])) && s[i].id != s[j].id {
      SnapshotIsOrdered(db, q, anchor, i, j);
    }
  }

  /**
   * The same on the columns. A listing by time runs from the latest start to the earliest, equal starts from
   * the greatest identifier down; the feature listing runs up the identifiers. It shows, of each entity, the
   * version with the largest sequence at or below the anchor, if that one is asked for.
   */
  lemma SnapshotByColumns(db: Db, q: Query, anchor: int)
    requires WellFormed(db)
    ensures var s := Snapshot(db.rows, q, anchor);
            forall i, j :: 0 <= i < j < |s| ==>
              if q.Features? then Text.Less(s[i].id, s[j].id)
              else s[j].start < s[i].start || (s[j].start == s[i].start && Text.Less(s[j].id, s[i].id))
    ensures var s := Snapshot(db.rows, q, anchor);
            && (q.Features? ==> forall r :: r in s <==>
                  && r in db.rows && r.scope == q.recording && r.sequence <= anchor
                  && (forall x :: x in db.rows && x.id == r.id && x.scope == q.recording && x.sequence <= anchor ==>
                        x.sequence <= r.sequence)
                  && (q.selector == "*" || r.methodId == q.selector))
            && (!q.Features? ==> forall r :: r in s <==>
                  && r in db.rows && r.sequence <= anchor
                  && (forall x :: x in db.rows && x.id == r.id && x.sequence <= anchor ==> x.sequence <= r.sequence)
                  && q.start <= r.start && r.start < q.stop
                  && (q.Recordings? || q.Tracks? ==> q.radios == [] || r.scope in q.radios))
  {
    hide Snapshot;
    SnapshotIsExact(db, q, anchor);
  }

  /** A recording shows the kinds of the activities whose newest version at or below the anchor is its own. */
  lemma KindsByColumns(activities: seq<Row>, anchor: int, recording: string, kind: string)
    ensures kind in Kinds(activities, anchor, recording) <==>
      exists a :: a in activities && a.scope == recording && a.view == kind && a.sequence <= anchor
        && forall x :: x in activities && x.id == a.id && x.sequence <= anchor ==> x.sequence <= a.sequence
  {
  }

  lemma SnapshotMembers(rows: seq<Row>, q: Query, anchor: int)
    ensures forall r :: r in Snapshot(rows, q, anchor) <==> r in rows && Latest(rows, q, anchor, r) && Matches(q, r)
  {
    var c := Filter(rows, Wanted(rows, q, anchor));
    var s := Snapshot(rows, q, anchor);
    RowOrderIsTotal(q);
    SortIsOrderedPermutation(RowOrder(q), c);
    FilterMembers(rows, Wanted(rows, q, anchor));
    forall r ensures r in s <==> r in c {
      assert r in s <==> r in multiset(s);
      assert r in c <==> r in multiset(c);
    }
  }

  lemma SnapshotIsOrdered(db: Db, q: Query, anchor: int, i: nat, j: nat)
    requires WellFormed(db)
    requires i < j < |Snapshot(db.rows, q, anchor)|
    ensures var s := Snapshot(db.rows, q, anchor);
            Precedes(Key(q, s[i]), Key(q, s[j])) && s[i].id != s[j].id
  {
    var s := Snapshot(db.rows, q, anchor);
    RowOrderIsTotal(q);
    SortIsOrderedPermutation(RowOrder(q), Filter(db.rows, Wanted(db.rows, q, anchor)));
    SnapshotMembers(db.rows, q, anchor);
    SnapshotHasNoRepeats(db, q, anchor);
    assert s[i] in s && s[j] in s && s[i] != s[j];
    if s[i].id == s[j].id {
      LatestIsUnique(db, q, anchor, s[i], s[j]);
    }
    assert RowOrder(q)(s[i], s[j]);
    PrecedesIsStrictTotalOrder();
  }

  lemma LatestIsUnique(db: Db, q: Query, anchor: int, x: Row, y: Row)
    requires WellFormed(db) && x in db.rows && y in db.rows
    requires Latest(db.rows, q, anchor, x) && Latest(db.rows, q, anchor, y) && x.id == y.id
    ensures x == y
  {
    var i :| 0 <= i < |db.rows| && db.rows[i] == x;
    var j :| 0 <= j < |db.rows| && db.rows[j] == y;
    assert x.sequence == y.sequence;
  }

  lemma WantedRowsAreComparable(db: Db, q: Query, anchor: int)
    requires WellFormed(db)
    ensures var c := Filter(db.rows, Wanted(db.rows, q, anchor));
            forall x, y | x in c && y in c && RowOrder(q)(x, y) && RowOrder(q)(y, x) :: x == y
  {
    var c := Filter(db.rows, Wanted(db.rows, q, anchor));
    FilterMembers(db.rows, Wanted(db.rows, q, anchor));
    PrecedesIsStrictTotalOrder();
    forall x, y | x in c && y in c && RowOrder(q)(x, y) && RowOrder(q)(y, x) ensures x == y {
      assert Key(q, x) == Key(q, y);
      LatestIsUnique(db, q, anchor, x, y);
    }
  }

  lemma SnapshotHasNoRepeats(db: Db, q: Query, anchor: int)
    requires WellFormed(db)
    ensures var s := Snapshot(db.rows, q, anchor); forall i, j :: 0 <= i < j < |s| ==> s[i] != s[j]
  {
    var p := Wanted(db.rows, q, anchor);
    var c := Filter(db.rows, p);
    var s := Snapshot(db.rows, q, anchor);
    RowOrderIsTotal(q);
    SortIsOrderedPermutation(RowOrder(q), c);
    forall i, j | 0 <= i < j < |s| ensures s[i] != s[j] {
      if s[i] == s[j] {
        Numbers.RepeatCountsTwice(s, i, j);
        FilterCounts(db.rows, p, s[i]);
        DistinctCountOnce(db.rows, s[i]);
      }
    }
  }

  lemma {:induction false} DistinctCountOnce(rows: seq<Row>, r: Row)
    requires DistinctVersions(rows)
    ensures multiset(rows)[r] <= 1
  {
    if rows != [] {
      assert rows == [rows[0]] + rows[1..];
      DistinctCountOnce(rows[1..], r);
      assert rows[0] !in rows[1..];
    }
  }
}
