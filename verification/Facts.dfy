/** Append-only fact tables: one immutable row per logical identifier, bound to an authoritative identity. */
module Facts {
  import opened Outcomes

  datatype Identity = Identity(kind: string, logicalId: string, digest: string, document: string)

  datatype StoredIdentity = StoredIdentity(digest: string, document: string, firstSequence: int)

  type IdentityTable = map<(string, string), StoredIdentity>

  datatype ProjectionError = Conflict | InvalidInput

  function IdKey(i: Identity): (k: (string, string))
  {
    (i.kind, i.logicalId)
  }

  predicate Agrees(stored: StoredIdentity, i: Identity)
  {
    stored.digest == i.digest && stored.document == i.document
  }

  /** Absent or identical; anything else is a conflict. */
  function Check(ids: IdentityTable, i: Identity): (r: Result<bool, ProjectionError>)
  {
    if IdKey(i) !in ids then Ok(false)
    else if Agrees(ids[IdKey(i)], i) then Ok(true)
    else Err(Conflict)
  }

  predicate AllCheck(ids: IdentityTable, identities: seq<Identity>)
  {
    forall i :: i in identities ==> Check(ids, i).Ok?
  }

  function Bind(before: IdentityTable, ids: IdentityTable, i: Identity, sequence: int): (r: IdentityTable)
  {
    if IdKey(i) in before then ids else ids[IdKey(i) := StoredIdentity(i.digest, i.document, sequence)]
  }

  /** A fact to project, and a projected row. */
  datatype Fact<V> = Fact(id: string, values: V, identity: Identity)

  datatype FactRow<V> = FactRow(sequence: int, id: string, values: V)

  /** One fact table with its identities and the last value of the shared sequence. */
  datatype FactTable<V> = FactTable(last: int, rows: seq<FactRow<V>>, ids: IdentityTable)

  /** The newest row of an identifier. */
  function Latest<V>(rows: seq<FactRow<V>>, id: string): (r: Option<FactRow<V>>)
    ensures r.Some? ==> r.value in rows && r.value.id == id
    ensures r.None? ==> forall row :: row in rows ==> row.id != id
  {
    if rows == [] then None
    else if rows[|rows| - 1].id == id then Some(rows[|rows| - 1])
    else Latest(rows[..|rows| - 1], id)
  }

  /** Reuses the identifier's row when it carries the same values, appends one when there is none. */
  function AddFact<V(==)>(before: FactTable<V>, t: FactTable<V>, f: Fact<V>)
    : (r: Result<(FactTable<V>, int), ProjectionError>)
  {
    match Latest(before.rows, f.id)
    case Some(row) =>
      if row.values != f.values then Err(Conflict)
      else Ok((t.(ids := Bind(before.ids, t.ids, f.identity, row.sequence)), row.sequence))
    case None =>
      var sequence := t.last + 1;
      Ok((FactTable(sequence, t.rows + [FactRow(sequence, f.id, f.values)],
                    Bind(before.ids, t.ids, f.identity, sequence)), sequence))
  }

  function AddFacts<V(==)>(before: FactTable<V>, t: FactTable<V>, facts: seq<Fact<V>>)
    : (r: Result<(FactTable<V>, seq<int>), ProjectionError>)
  {
    if facts == [] then Ok((t, []))
    else
      var n := |facts| - 1;
      match AddFacts(before, t, facts[..n])
      case Err(e) => Err(e)
      case Ok((u, sequences)) =>
        match AddFact(before, u, facts[n])
        case Err(e) => Err(e)
        case Ok((v, sequence)) => Ok((v, sequences + [sequence]))
  }

  /** The writer's loop over the facts of one command. */
  method ProjectFacts<V(==)>(before: FactTable<V>, facts: seq<Fact<V>>)
    returns (r: Result<(FactTable<V>, seq<int>), ProjectionError>)
    ensures r == AddFacts(before, before, facts)
  {
    var t, sequences := before, [];
    for i := 0 to |facts|
      invariant AddFacts(before, before, facts[..i]) == Ok((t, sequences))
    {
      assert facts[..i + 1][..i] == facts[..i] && facts[..i + 1][i] == facts[i];
      var existing := Latest(before.rows, facts[i].id);
      var sequence;
      if existing.Some? {
        if existing.value.values != facts[i].values {
          assert AddFacts(before, before, facts[..i + 1]) == Err(Conflict);
          FailureIsFinal(before, before, facts, i + 1);
          return Err(Conflict);
        }
        sequence := existing.value.sequence;
      } else {
        sequence := t.last + 1;
        t := t.(last := sequence, rows := t.rows + [FactRow(sequence, facts[i].id, facts[i].values)]);
      }
      if IdKey(facts[i].identity) !in before.ids {
        t := t.(ids := Bind(before.ids, t.ids, facts[i].identity, sequence));
      }
      sequences := sequences + [sequence];
    }
    assert facts[..|facts|] == facts;
    r := Ok((t, sequences));
  }

  lemma {:induction false} FailureIsFinal<V>(before: FactTable<V>, t: FactTable<V>, facts: seq<Fact<V>>, k: nat)
    requires k <= |facts| && AddFacts(before, t, facts[..k]) == Err(Conflict)
    ensures AddFacts(before, t, facts) == Err(Conflict)
    decreases |facts| - k
  {
    if k == |facts| {
      assert facts[..k] == facts;
    } else {
      assert facts[..k + 1][..k] == facts[..k];
      FailureIsFinal(before, t, facts, k + 1);
    }
  }

  // ----- what the tables keep

  /** One row per identifier, sequences ascending, and every fact identity already bound. */
  ghost predicate Inv<V>(t: FactTable<V>, kind: string)
  {
    && (forall i, j :: 0 <= i < j < |t.rows| ==> t.rows[i].id != t.rows[j].id && t.rows[i].sequence < t.rows[j].sequence)
    && (forall r :: r in t.rows ==> r.sequence <= t.last && (kind, r.id) in t.ids)
  }

  /** `u` is `t` with rows appended and identities added. */
  ghost predicate Grows<V>(t: FactTable<V>, u: FactTable<V>)
  {
    && t.rows <= u.rows && t.last <= u.last
    && (forall k :: k in t.ids ==> k in u.ids && u.ids[k] == t.ids[k])
  }

  ghost predicate Proper<V>(facts: seq<Fact<V>>, kind: string)
  {
    && (forall i, j :: 0 <= i < j < |facts| ==> facts[i].id != facts[j].id)
    && (forall f :: f in facts ==> f.identity.kind == kind && f.identity.logicalId == f.id)
  }

  /** The facts of a command end up as rows of the table, one sequence each, under their own identities. */
  ghost predicate Holds<V>(t: FactTable<V>, facts: seq<Fact<V>>, sequences: seq<int>)
  {
    && |sequences| == |facts|
    && forall i :: 0 <= i < |facts| ==>
         && FactRow(sequences[i], facts[i].id, facts[i].values) in t.rows
         && IdKey(facts[i].identity) in t.ids && Agrees(t.ids[IdKey(facts[i].identity)], facts[i].identity)
  }

  /** Nothing appears in the table that the command did not name. */
  ghost predicate Confined<V>(before: FactTable<V>, t: FactTable<V>, facts: seq<Fact<V>>)
  {
    && (forall r :: r in t.rows ==> r in before.rows || Named(facts, r.id))
    && (forall k :: k in t.ids ==> k in before.ids || NamedKey(facts, k))
  }

  ghost predicate Named<V>(facts: seq<Fact<V>>, id: string)
  {
    exists f :: f in facts && f.id == id
  }

  ghost predicate NamedKey<V>(facts: seq<Fact<V>>, k: (string, string))
  {
    exists f :: f in facts && IdKey(f.identity) == k
  }

  ghost predicate Added<V>(before: FactTable<V>, t: FactTable<V>, facts: seq<Fact<V>>, sequences: seq<int>, kind: string)
  {
    Inv(t, kind) && Grows(before, t) && Holds(t, facts, sequences) && Confined(before, t, facts)
  }

  lemma {:induction false} AddingFacts<V>(before: FactTable<V>, facts: seq<Fact<V>>, kind: string)
    requires Inv(before, kind) && Proper(facts, kind) && AddFacts(before, before, facts).Ok?
    requires forall f :: f in facts ==> Check(before.ids, f.identity).Ok?
    ensures Added(before, AddFacts(before, before, facts).value.0, facts, AddFacts(before, before, facts).value.1, kind)
  {
    if facts != [] {
      var n := |facts| - 1;
      var rest, f := facts[..n], facts[n];
      assert facts == rest + [f];
      PrefixIsProper(rest, f, kind);
      AddingFacts(before, rest, kind);
      var (u, sequences) := AddFacts(before, before, rest).value;
      AddingOneFact(before, u, rest, sequences, f, kind);
    }
  }

  lemma PrefixIsProper<V>(rest: seq<Fact<V>>, f: Fact<V>, kind: string)
    requires Proper(rest + [f], kind)
    ensures Proper(rest, kind)
    ensures forall g :: g in rest ==> g in rest + [f]
  {
    var all := rest + [f];
    assert forall i :: 0 <= i < |rest| ==> all[i] == rest[i];
  }

  lemma AddingOneFact<V>(
    before: FactTable<V>, u: FactTable<V>, rest: seq<Fact<V>>, sequences: seq<int>, f: Fact<V>, kind: string)
    requires Inv(before, kind) && Added(before, u, rest, sequences, kind)
    requires Proper(rest + [f], kind) && Check(before.ids, f.identity).Ok? && AddFact(before, u, f).Ok?
    ensures var (t, sequence) := AddFact(before, u, f).value;
            Added(before, t, rest + [f], sequences + [sequence], kind)
  {
    hide Inv, AddFact, Named, NamedKey;
    var (t, sequence) := AddFact(before, u, f).value;
    assert (rest + [f])[|rest|] == f && f in rest + [f];
    NewFactIsUnnamed(rest, f, kind);
    AddedKeys(before, u, rest, f);
    AddedRow(before, u, rest, f, kind);
    HeldFactsStayHeld(u, t, rest, sequences);
    AddedIsNamed(before, u, rest, f);
  }

  lemma AddedIsNamed<V>(before: FactTable<V>, u: FactTable<V>, rest: seq<Fact<V>>, f: Fact<V>)
    requires Confined(before, u, rest) && AddFact(before, u, f).Ok?
    ensures Confined(before, AddFact(before, u, f).value.0, rest + [f])
  {
    var t, all := AddFact(before, u, f).value.0, rest + [f];
    assert all[|rest|] == f && f in all;
    forall r | r in t.rows && r !in before.rows ensures Named(all, r.id) {
      if r in u.rows {
        assert Named(rest, r.id);
      }
    }
    forall k | k in t.ids && k !in before.ids ensures NamedKey(all, k) {
      if k in u.ids {
        assert NamedKey(rest, k);
      }
    }
  }

  lemma NewFactIsUnnamed<V>(rest: seq<Fact<V>>, f: Fact<V>, kind: string)
    requires Proper(rest + [f], kind)
    ensures !Named(rest, f.id) && !NamedKey(rest, IdKey(f.identity))
  {
    var all := rest + [f];
    assert all[|rest|] == f && f in all;
    forall g | g in rest ensures g.id != f.id && IdKey(g.identity) != IdKey(f.identity) {
      var i :| 0 <= i < |rest| && rest[i] == g;
      assert all[i] == g && g in all;
    }
  }

  lemma AddedKeys<V>(before: FactTable<V>, u: FactTable<V>, rest: seq<Fact<V>>, f: Fact<V>)
    requires Grows(before, u) && Confined(before, u, rest) && !NamedKey(rest, IdKey(f.identity))
    requires Check(before.ids, f.identity).Ok? && AddFact(before, u, f).Ok?
    ensures var t := AddFact(before, u, f).value.0;
            && Grows(u, t) && Grows(before, t)
            && IdKey(f.identity) in t.ids && Agrees(t.ids[IdKey(f.identity)], f.identity)
  {
  }

  lemma AddedRow<V>(before: FactTable<V>, u: FactTable<V>, rest: seq<Fact<V>>, f: Fact<V>, kind: string)
    requires Inv(before, kind) && Inv(u, kind) && Grows(before, u) && Confined(before, u, rest) && !Named(rest, f.id)
    requires f.identity.kind == kind && f.identity.logicalId == f.id
    requires AddFact(before, u, f).Ok? && Grows(u, AddFact(before, u, f).value.0)
    requires IdKey(f.identity) in AddFact(before, u, f).value.0.ids
    ensures var (t, sequence) := AddFact(before, u, f).value;
            Inv(t, kind) && FactRow(sequence, f.id, f.values) in t.rows
  {
    var (t, sequence) := AddFact(before, u, f).value;
    if Latest(before.rows, f.id).None? {
      forall r | r in u.rows ensures r.id != f.id {
        assert r in before.rows || Named(rest, r.id);
      }
      NewRowKeepsInv(u, FactRow(sequence, f.id, f.values), t.ids, kind);
    } else {
      MoreIdentitiesKeepInv(u, t.ids, kind);
      RowsStay(before.rows, u.rows, FactRow(sequence, f.id, f.values));
    }
  }

  lemma NewRowKeepsInv<V>(u: FactTable<V>, row: FactRow<V>, ids: IdentityTable, kind: string)
    requires Inv(u, kind) && u.last < row.sequence && forall r :: r in u.rows ==> r.id != row.id
    requires (kind, row.id) in ids && forall k :: k in u.ids ==> k in ids
    ensures Inv(FactTable(row.sequence, u.rows + [row], ids), kind) && row in u.rows + [row]
  {
    var rows := u.rows + [row];
    assert rows[|u.rows|] == row;
    forall i, j | 0 <= i < j < |rows| ensures rows[i].id != rows[j].id && rows[i].sequence < rows[j].sequence {
      assert rows[i] == u.rows[i] && u.rows[i] in u.rows;
    }
  }

  lemma MoreIdentitiesKeepInv<V>(u: FactTable<V>, ids: IdentityTable, kind: string)
    requires Inv(u, kind) && forall k :: k in u.ids ==> k in ids
    ensures Inv(u.(ids := ids), kind)
  {
  }

  lemma RowsStay<V>(rows: seq<FactRow<V>>, later: seq<FactRow<V>>, row: FactRow<V>)
    requires rows <= later && row in rows
    ensures row in later
  {
    var i :| 0 <= i < |rows| && rows[i] == row;
    assert later[i] == row;
  }

  /** Replaying facts that the table holds reuses the same rows and changes nothing. */
  lemma {:induction false} ReplayedFactsAddNothing<V>(
    t: FactTable<V>, facts: seq<Fact<V>>, sequences: seq<int>, kind: string)
    requires Inv(t, kind) && Holds(t, facts, sequences)
    ensures AddFacts(t, t, facts) == Ok((t, sequences))
    ensures forall f :: f in facts ==> Check(t.ids, f.identity) == Ok(true)
  {
    hide Inv, AddFact;
    if facts != [] {
      var n := |facts| - 1;
      assert forall i :: 0 <= i < n ==> facts[..n][i] == facts[i] && sequences[..n][i] == sequences[i];
      ReplayedFactsAddNothing(t, facts[..n], sequences[..n], kind);
      HeldFactIsReused(t, facts[n], sequences[n], kind);
      assert sequences == sequences[..n] + [sequences[n]];
    }
  }

  lemma HeldFactIsReused<V>(t: FactTable<V>, f: Fact<V>, sequence: int, kind: string)
    requires Inv(t, kind) && FactRow(sequence, f.id, f.values) in t.rows && Check(t.ids, f.identity) == Ok(true)
    ensures AddFact(t, t, f) == Ok((t, sequence))
  {
    LatestIsTheOnlyRow(t, FactRow(sequence, f.id, f.values), kind);
  }

  lemma LatestIsTheOnlyRow<V>(t: FactTable<V>, row: FactRow<V>, kind: string)
    requires Inv(t, kind) && row in t.rows
    ensures Latest(t.rows, row.id) == Some(row)
  {
    var found := Latest(t.rows, row.id).value;
    var i :| 0 <= i < |t.rows| && t.rows[i] == row;
    var j :| 0 <= j < |t.rows| && t.rows[j] == found;
    assert i == j;
  }

  lemma HeldFactsStayHeld<V>(t: FactTable<V>, u: FactTable<V>, facts: seq<Fact<V>>, sequences: seq<int>)
    requires Holds(t, facts, sequences) && Grows(t, u)
    ensures Holds(u, facts, sequences)
  {
    forall i | 0 <= i < |facts| ensures FactRow(sequences[i], facts[i].id, facts[i].values) in u.rows {
      RowsStay(t.rows, u.rows, FactRow(sequences[i], facts[i].id, facts[i].values));
    }
  }
}
