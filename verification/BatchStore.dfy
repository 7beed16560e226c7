/** The durable capture-batch store, and the retry loop that records outcomes through it. */
module BatchStore {
  import opened Outcomes
  import opened Documents
  import opened CaptureBatch

  /** The contract codecs and the definition digest. */
  datatype Env = Env(
    writeDefinition: Definition -> seq<byte>,
    readDefinition: seq<byte> -> Option<Definition>,
    writeSnapshot: Snapshot -> seq<byte>,
    readSnapshot: seq<byte> -> Option<Snapshot>,
    digest: Definition -> string)

  ghost predicate Sound(env: Env)
  {
    && (forall d :: ValidDefinition(d) ==> env.readDefinition(env.writeDefinition(d)) == Some(d))
    && (forall s :: Valid(s) ==> env.readSnapshot(env.writeSnapshot(s)) == Some(s))
  }

  datatype Row = Row(digest: string, definition: seq<byte>, snapshot: seq<byte>, revision: int)

  type Table = map<string, Row>

  datatype StoreError = IdentityConflict | NotFound | RevisionConflict

  /** `Create` and `CompareAndSwap` receive snapshots whose construction was already validated. */
  datatype Call =
    | Create(initial: Snapshot)
    | Get(batchId: string)
    | CompareAndSwap(batchId: string, expected: int, replacement: Snapshot)

  ghost predicate Constructed(call: Call)
  {
    match call
    case Create(initial) => Valid(initial)
    case Get(_) => true
    case CompareAndSwap(_, _, replacement) => Valid(replacement)
  }

  datatype Effect = Effect(table: Table, result: Result<Option<Snapshot>, StoreError>)

  function DecodeRow(env: Env, batchId: string, row: Row): (r: Result<Snapshot, StoreError>)
  {
    match (env.readDefinition(row.definition), env.readSnapshot(row.snapshot))
    case (Some(d), Some(s)) =>
      if s.definition.batchId != batchId || s.definition != d || s.revision != row.revision || env.digest(d) != row.digest
      then Err(IdentityConflict) else Ok(s)
    case _ => Err(IdentityConflict)
  }

  function RowOf(env: Env, s: Snapshot): (row: Row)
  {
    Row(env.digest(s.definition), env.writeDefinition(s.definition), env.writeSnapshot(s), s.revision)
  }

  function Apply(env: Env, table: Table, call: Call): (e: Effect)
  {
    match call
    case Create(initial) =>
      var id := initial.definition.batchId;
      if id !in table then Effect(table[id := RowOf(env, initial)], Ok(Some(initial)))
      else (
        match DecodeRow(env, id, table[id])
        case Err(e) => Effect(table, Err(e))
        case Ok(current) =>
          Effect(table, if current.definition == initial.definition then Ok(Some(current)) else Err(IdentityConflict)))
    case Get(id) =>
      if id !in table then Effect(table, Ok(None))
      else (
        match DecodeRow(env, id, table[id])
        case Err(e) => Effect(table, Err(e))
        case Ok(current) => Effect(table, Ok(Some(current))))
    case CompareAndSwap(id, expected, replacement) =>
      if replacement.definition.batchId != id || replacement.revision != expected + 1
      then Effect(table, Err(IdentityConflict))
      else if id !in table then Effect(table, Err(NotFound))
      else
        match DecodeRow(env, id, table[id])
        case Err(e) => Effect(table, Err(e))
        case Ok(current) =>
          if current.revision != expected then Effect(table, Err(RevisionConflict))
          else if current.definition != replacement.definition then Effect(table, Err(IdentityConflict))
          else
            // The guarded update names the revision once more.
            if table[id].revision != expected then Effect(table, Err(RevisionConflict))
            else Effect(
              table[id := table[id].(snapshot := env.writeSnapshot(replacement), revision := replacement.revision)],
              Ok(Some(replacement)))
  }

  class SqliteCaptureBatchStateStore {
    var table: Table
    const env: Env

    constructor (env: Env)
      ensures this.env == env && table == map[]
    {
      this.env := env;
      table := map[];
    }

    method Create(initial: Snapshot) returns (r: Result<Option<Snapshot>, StoreError>)
      modifies this
      ensures Effect(table, r) == Apply(env, old(table), Call.Create(initial))
    {
      var id := initial.definition.batchId;
      if id !in table {
        table := table[id := RowOf(env, initial)];
        return Ok(Some(initial));
      }
      var current := DecodeRow(env, id, table[id]);
      if current.Err? {
        return Err(current.error);
      }
      if current.value.definition != initial.definition {
        return Err(IdentityConflict);
      }
      r := Ok(Some(current.value));
    }

    method Get(id: string) returns (r: Result<Option<Snapshot>, StoreError>)
      ensures r == Apply(env, table, Call.Get(id)).result
    {
      if id !in table {
        return Ok(None);
      }
      var current := DecodeRow(env, id, table[id]);
      r := if current.Err? then Err(current.error) else Ok(Some(current.value));
    }

    method CompareAndSwap(id: string, expected: int, replacement: Snapshot)
      returns (r: Result<Option<Snapshot>, StoreError>)
      modifies this
      ensures Effect(table, r) == Apply(env, old(table), Call.CompareAndSwap(id, expected, replacement))
    {
      if replacement.definition.batchId != id || replacement.revision != expected + 1 {
        return Err(IdentityConflict);
      }
      if id !in table {
        return Err(NotFound);
      }
      var row := table[id];
      var current := DecodeRow(env, id, row);
      if current.Err? {
        return Err(current.error);
      }
      if current.value.revision != expected {
        return Err(RevisionConflict);
      }
      if current.value.definition != replacement.definition {
        return Err(IdentityConflict);
      }
      if row.revision != expected {
        return Err(RevisionConflict);
      }
      table := table[id := row.(snapshot := env.writeSnapshot(replacement), revision := replacement.revision)];
      r := Ok(Some(replacement));
    }
  }

  // ----- the store against its in-memory meaning

  /** What the in-memory store does: one validated snapshot per batch. */
  type Memory = map<string, Snapshot>

  function ApplyInMemory(memory: Memory, call: Call): (e: (Memory, Result<Option<Snapshot>, StoreError>))
  {
    match call
    case Create(initial) =>
      var id := initial.definition.batchId;
      if id !in memory then (memory[id := initial], Ok(Some(initial)))
      else if memory[id].definition != initial.definition then (memory, Err(IdentityConflict))
      else (memory, Ok(Some(memory[id])))
    case Get(id) => (memory, Ok(if id in memory then Some(memory[id]) else None))
    case CompareAndSwap(id, expected, replacement) =>
      if id !in memory then (memory, Err(NotFound))
      else if memory[id].revision != expected then (memory, Err(RevisionConflict))
      else if replacement.definition.batchId != id || replacement.revision != expected + 1
      then (memory, Err(IdentityConflict))
      else if replacement.definition != memory[id].definition then (memory, Err(IdentityConflict))
      else (memory[id := replacement], Ok(Some(replacement)))
  }

  ghost predicate Stores(env: Env, table: Table, memory: Memory)
  {
    && table.Keys == memory.Keys
    && forall id :: id in memory ==>
         Valid(memory[id]) && memory[id].definition.batchId == id && table[id] == RowOf(env, memory[id])
  }

  /** Both stores accept the same calls, return the same snapshots and stay in step; only which error is named may differ. */
  lemma DurableStoreRefinesMemory(env: Env, table: Table, memory: Memory, call: Call)
    requires Sound(env) && Constructed(call) && Stores(env, table, memory)
    ensures var e := Apply(env, table, call);
            var m := ApplyInMemory(memory, call);
            && Stores(env, e.table, m.0)
            && (e.result.Ok? <==> m.1.Ok?)
            && (e.result.Ok? ==> e.result == m.1)
  {
    hide DecodeRow;
    match call
    case Create(initial) => CreateRefines(env, table, memory, initial);
    case Get(id) =>
      if id in memory {
        StoredRowDecodes(env, table, memory, id);
      }
    case CompareAndSwap(id, expected, replacement) => SwapRefines(env, table, memory, id, expected, replacement);
  }

  /** A row reads back when both payloads decode and agree with each other and with every column beside them. */
  lemma RowReadsByColumns(env: Env, batchId: string, row: Row)
    ensures var d, s := env.readDefinition(row.definition), env.readSnapshot(row.snapshot);
            && (DecodeRow(env, batchId, row).Ok? <==>
                  && d.Some? && s.Some? && s.value.definition == d.value && d.value.batchId == batchId
                  && s.value.revision == row.revision && env.digest(d.value) == row.digest)
            && (DecodeRow(env, batchId, row).Ok? ==> Some(DecodeRow(env, batchId, row).value) == s)
            && (DecodeRow(env, batchId, row).Err? ==> DecodeRow(env, batchId, row) == Err(IdentityConflict))
  {
  }

  // ----- which failure a call meets, on what is stored

  predicate MeetsNothing(memory: Memory, call: Call)
  {
    call.CompareAndSwap? && call.batchId !in memory
  }

  predicate MeetsAnotherRevision(memory: Memory, call: Call)
  {
    call.CompareAndSwap? && call.batchId in memory && memory[call.batchId].revision != call.expected
  }

  /** The replacement is not the next revision of the batch it is offered for. */
  predicate IsMisnamed(call: Call)
  {
    && call.CompareAndSwap?
    && (call.replacement.definition.batchId != call.batchId || call.replacement.revision != call.expected + 1)
  }

  predicate MeetsAnotherDefinition(memory: Memory, call: Call)
  {
    match call
    case Create(initial) =>
      initial.definition.batchId in memory && memory[initial.definition.batchId].definition != initial.definition
    case Get(_) => false
    case CompareAndSwap(id, _, replacement) => id in memory && memory[id].definition != replacement.definition
  }

  /** What a call that does not fail returns. */
  predicate Returns(memory: Memory, call: Call, returned: Option<Snapshot>)
  {
    match call
    case Create(initial) =>
      returned == Some(if initial.definition.batchId in memory then memory[initial.definition.batchId] else initial)
    case Get(id) => if id in memory then returned == Some(memory[id]) else returned == None
    case CompareAndSwap(_, _, replacement) => returned == Some(replacement)
  }

  /** The stores name the same failure, except that the durable one looks at the replacement before the batch. */
  lemma FailuresByCause(env: Env, table: Table, memory: Memory, call: Call)
    requires Sound(env) && Constructed(call) && Stores(env, table, memory)
    ensures var durable, inMemory := Apply(env, table, call).result, ApplyInMemory(memory, call).1;
            && (inMemory.Err? <==>
                  || MeetsNothing(memory, call) || MeetsAnotherRevision(memory, call)
                  || IsMisnamed(call) || MeetsAnotherDefinition(memory, call))
            && (inMemory == Err(NotFound) <==> MeetsNothing(memory, call))
            && (inMemory == Err(RevisionConflict) <==> MeetsAnotherRevision(memory, call))
            && (durable == Err(NotFound) <==> MeetsNothing(memory, call) && !IsMisnamed(call))
            && (durable == Err(RevisionConflict) <==> MeetsAnotherRevision(memory, call) && !IsMisnamed(call))
            && (durable != inMemory <==>
                  IsMisnamed(call) && (MeetsNothing(memory, call) || MeetsAnotherRevision(memory, call)))
            && (inMemory.Ok? ==> Returns(memory, call, inMemory.value))
  {
    hide DecodeRow, Valid;
    DurableStoreRefinesMemory(env, table, memory, call);
    var id :=
      match call
      case Create(initial) => initial.definition.batchId
      case Get(id) => id
      case CompareAndSwap(id, _, _) => id;
    if id in memory {
      StoredRowDecodes(env, table, memory, id);
    }
  }

  lemma StoringKeepsStep(env: Env, table: Table, memory: Memory, s: Snapshot)
    requires Stores(env, table, memory) && Valid(s)
    ensures Stores(env, table[s.definition.batchId := RowOf(env, s)], memory[s.definition.batchId := s])
  {
  }

  lemma CreateRefines(env: Env, table: Table, memory: Memory, initial: Snapshot)
    requires Sound(env) && Valid(initial) && Stores(env, table, memory)
    ensures var e := Apply(env, table, Create(initial));
            var m := ApplyInMemory(memory, Create(initial));
            Stores(env, e.table, m.0) && e.result == m.1
  {
    hide DecodeRow, RowOf, Valid;
    StoringKeepsStep(env, table, memory, initial);
    var id := initial.definition.batchId;
    assert id in memory <==> id in table;
    if id in memory {
      StoredRowDecodes(env, table, memory, id);
    }
  }

  lemma SwapRefines(env: Env, table: Table, memory: Memory, id: string, expected: int, replacement: Snapshot)
    requires Sound(env) && Valid(replacement) && Stores(env, table, memory)
    ensures var e := Apply(env, table, CompareAndSwap(id, expected, replacement));
            var m := ApplyInMemory(memory, CompareAndSwap(id, expected, replacement));
            && Stores(env, e.table, m.0)
            && (e.result.Ok? <==> m.1.Ok?) && (e.result.Ok? ==> e.result == m.1)
  {
    hide DecodeRow, RowOf, Valid;
    StoringKeepsStep(env, table, memory, replacement);
    assert id in memory <==> id in table;
    if id in memory {
      StoredRowDecodes(env, table, memory, id);
      SwappedRow(env, memory[id], replacement);
    }
  }

  lemma SwappedRow(env: Env, s: Snapshot, replacement: Snapshot)
    ensures s.definition == replacement.definition ==>
      RowOf(env, s).(snapshot := env.writeSnapshot(replacement), revision := replacement.revision)
      == RowOf(env, replacement)
  {
  }

  lemma StoredRowDecodes(env: Env, table: Table, memory: Memory, id: string)
    requires Sound(env) && Stores(env, table, memory) && id in memory
    ensures DecodeRow(env, id, table[id]) == Ok(memory[id])
    ensures table[id].revision == memory[id].revision && table[id] == RowOf(env, memory[id])
  {
    var s := memory[id];
    assert Valid(s) && table[id] == RowOf(env, s);
    assert env.readDefinition(env.writeDefinition(s.definition)) == Some(s.definition);
    assert env.readSnapshot(env.writeSnapshot(s)) == Some(s);
  }

  // ----- every interleaving of clients

  function TableAfter(env: Env, run: seq<Call>): (t: Table)
  {
    if run == [] then map[] else Apply(env, TableAfter(env, run[..|run| - 1]), run[|run| - 1]).table
  }

  function MemoryAfter(run: seq<Call>): (m: Memory)
  {
    if run == [] then map[] else ApplyInMemory(MemoryAfter(run[..|run| - 1]), run[|run| - 1]).0
  }

  ghost predicate AllConstructed(run: seq<Call>)
  {
    forall call :: call in run ==> Constructed(call)
  }

  /** Every stored row always passes the reader's integrity check and yields the snapshot last committed. */
  lemma {:induction false} StoredRowsAlwaysReadBack(env: Env, run: seq<Call>)
    requires Sound(env) && AllConstructed(run)
    ensures Stores(env, TableAfter(env, run), MemoryAfter(run))
    ensures forall id :: id in TableAfter(env, run) ==>
      DecodeRow(env, id, TableAfter(env, run)[id]) == Ok(MemoryAfter(run)[id])
  {
    if run != [] {
      var n := |run| - 1;
      assert forall call :: call in run[..n] ==> call in run;
      StoredRowsAlwaysReadBack(env, run[..n]);
      DurableStoreRefinesMemory(env, TableAfter(env, run[..n]), MemoryAfter(run[..n]), run[n]);
    }
    forall id | id in TableAfter(env, run)
      ensures DecodeRow(env, id, TableAfter(env, run)[id]) == Ok(MemoryAfter(run)[id])
    {
      StoredRowDecodes(env, TableAfter(env, run), MemoryAfter(run), id);
    }
  }

  /** The committed snapshots of one batch, oldest first. */
  function History(run: seq<Call>, id: string): (h: seq<Snapshot>)
  {
    if run == [] then []
    else History(run[..|run| - 1], id) + Change(MemoryAfter(run[..|run| - 1]), MemoryAfter(run), id)
  }

  function Change(before: Memory, after: Memory, id: string): (c: seq<Snapshot>)
  {
    if id in after && (id !in before || before[id] != after[id]) then [after[id]] else []
  }

  ghost predicate Chain(h: seq<Snapshot>, memory: Memory, id: string)
  {
    && (h == [] <==> id !in memory)
    && (h != [] ==> memory[id] == h[|h| - 1])
    && (forall i :: 0 <= i < |h| ==>
          Valid(h[i]) && h[i].definition == h[0].definition && h[i].revision == h[0].revision + i <= 2)
  }

  /** One chain: the intent never changes, revisions climb by one from where the batch was created, and stop at 2. */
  lemma {:induction false} RevisionsFormOneChain(run: seq<Call>, id: string)
    requires AllConstructed(run)
    ensures Chain(History(run, id), MemoryAfter(run), id)
  {
    if run != [] {
      var n := |run| - 1;
      assert forall call :: call in run[..n] ==> call in run;
      RevisionsFormOneChain(run[..n], id);
      CallExtendsChain(History(run[..n], id), MemoryAfter(run[..n]), id, run[n]);
    }
  }

  lemma CallExtendsChain(h: seq<Snapshot>, memory: Memory, id: string, call: Call)
    requires Constructed(call) && Chain(h, memory, id)
    ensures Chain(h + Change(memory, ApplyInMemory(memory, call).0, id), ApplyInMemory(memory, call).0, id)
  {
    hide ApplyInMemory, Valid;
    CallAdvances(memory, call, id);
    var after := ApplyInMemory(memory, call).0;
    if Change(memory, after, id) != [] {
      RevisionsStopAtTwo(after[id]);
    }
  }

  /** What a call does to one batch: creates it validly, leaves it, or moves it one revision up. */
  lemma CallAdvances(memory: Memory, call: Call, id: string)
    requires Constructed(call) && (id in memory ==> Valid(memory[id]))
    ensures var after := ApplyInMemory(memory, call).0;
            && (id in memory ==> id in after)
            && (id in after ==> Valid(after[id]))
            && (id in memory ==>
                  && after[id].definition == memory[id].definition
                  && (after[id] == memory[id] || after[id].revision == memory[id].revision + 1))
  {
  }

  /**
   * In every run a batch's chain starts with the snapshot of the call that created it. `Create` accepts
   * any valid snapshot, so the chain starts at revision 0 exactly when that call carried no outcome.
   */
  lemma {:induction false} ChainStartsWhereCreated(env: Env, run: seq<Call>, id: string) returns (c: nat)
    requires Sound(env) && AllConstructed(run) && id in MemoryAfter(run)
    ensures History(run, id) != [] && c < |run| && run[c] == Create(History(run, id)[0])
    ensures History(run, id)[0].definition.batchId == id && id !in MemoryAfter(run[..c])
    ensures ResultAt(env, run, c) == Ok(Some(History(run, id)[0]))
    ensures History(run, id)[0].revision == 0 <==> run[c].initial.outcomes == []
  {
    hide ApplyInMemory, Valid, Apply, ResultAt;
    var n := |run| - 1;
    ConstructedPrefix(run, n);
    RevisionsFormOneChain(run, id);
    if id in MemoryAfter(run[..n]) {
      c := ChainStartsWhereCreated(env, run[..n], id);
      RevisionsFormOneChain(run[..n], id);
      assert run[..n][..c] == run[..c];
      SameResult(env, run, n, c);
    } else {
      c := n;
      OnlyCreateAdds(MemoryAfter(run[..n]), run[n], id);
      NothingBeforeCreate(run, n, id);
      CreatedResult(env, run, n);
    }
    StartIsEmptyAtZero(History(run, id)[0]);
  }

  lemma StartIsEmptyAtZero(s: Snapshot)
    requires Valid(s)
    ensures s.revision == 0 <==> s.outcomes == []
  {
  }

  lemma SameResult(env: Env, run: seq<Call>, n: nat, c: nat)
    requires c < n <= |run|
    ensures ResultAt(env, run[..n], c) == ResultAt(env, run, c)
  {
    assert run[..n][..c] == run[..c];
  }

  /** A batch that a call adds was added by its creation. */
  lemma OnlyCreateAdds(memory: Memory, call: Call, id: string)
    requires id !in memory && id in ApplyInMemory(memory, call).0
    ensures call.Create? && call.initial.definition.batchId == id
    ensures ApplyInMemory(memory, call) == (memory[id := call.initial], Ok(Some(call.initial)))
  {
  }

  lemma NothingBeforeCreate(run: seq<Call>, n: nat, id: string)
    requires run != [] && n == |run| - 1 && AllConstructed(run[..n])
    requires id !in MemoryAfter(run[..n]) && id in MemoryAfter(run)
    ensures History(run, id) == [MemoryAfter(run)[id]]
  {
    hide ApplyInMemory, Valid;
    RevisionsFormOneChain(run[..n], id);
  }

  lemma CreatedResult(env: Env, run: seq<Call>, n: nat)
    requires Sound(env) && AllConstructed(run) && n < |run| && run[n].Create?
    requires run[n].initial.definition.batchId !in MemoryAfter(run[..n])
    ensures ResultAt(env, run, n) == Ok(Some(run[n].initial))
  {
    hide Apply, Valid;
    StoredBefore(env, run, n);
    DurableStoreRefinesMemory(env, TableAfter(env, run[..n]), MemoryAfter(run[..n]), run[n]);
  }

  /** Where every creation is a registration, which carries no outcome, every chain starts at revision 0. */
  lemma RegisteredChainsStartAtZero(env: Env, run: seq<Call>, id: string)
    requires Sound(env) && AllConstructed(run) && id in MemoryAfter(run)
    requires forall k :: 0 <= k < |run| && run[k].Create? ==> run[k].initial.outcomes == []
    ensures History(run, id) != [] && History(run, id)[0].revision == 0
  {
    var c := ChainStartsWhereCreated(env, run, id);
  }

  /** A creation that starts elsewhere: the snapshot already holds one outcome. */
  lemma ChainCanStartAtOne(env: Env, d: Definition, o: Outcome)
    requires Sound(env) && ValidDefinition(d) && Fits(d, o)
    ensures var initial := Snapshot(d, [o], 1);
            && Constructed(Create(initial)) && Apply(env, map[], Create(initial)).result == Ok(Some(initial))
            && History([Create(initial)], d.batchId) == [initial]
  {
    var initial := Snapshot(d, [o], 1);
    var run := [Create(initial)];
    assert run[..0] == [];
    assert MemoryAfter(run) == map[d.batchId := initial];
  }

  // ----- recording through the store

  /** The batch moved on, or is untouched. */
  ghost predicate Advances(a: Snapshot, b: Snapshot)
  {
    && Valid(a) && Valid(b) && a.definition == b.definition && a.revision <= b.revision
    && (a.revision == b.revision ==> a == b)
  }

  /** Whatever calls are made, every batch only ever advances. */
  lemma {:induction false} BatchesOnlyAdvance(run: seq<Call>, k: nat, id: string)
    requires AllConstructed(run) && k <= |run| && id in MemoryAfter(run[..k])
    ensures id in MemoryAfter(run) && Advances(MemoryAfter(run[..k])[id], MemoryAfter(run)[id])
  {
    hide ApplyInMemory, Valid, Constructed;
    if k == |run| {
      assert run[..k] == run;
      RevisionsFormOneChain(run, id);
    } else {
      var n := |run| - 1;
      assert run[..n][..k] == run[..k];
      assert forall call :: call in run[..n] ==> call in run;
      BatchesOnlyAdvance(run[..n], k, id);
      CallAdvances(MemoryAfter(run[..n]), run[n], id);
    }
  }

  /** A swap of a recorded outcome keeps every outcome there was, however stale the reader's snapshot. */
  lemma RecordedSwapsLoseNothing(memory: Memory, seen: Snapshot, o: Outcome)
    requires seen.definition.batchId in memory && Advances(seen, memory[seen.definition.batchId])
    requires CaptureBatch.Record(seen, o).Ok?
    requires var swap := CompareAndSwap(seen.definition.batchId, seen.revision, CaptureBatch.Record(seen, o).value);
             ApplyInMemory(memory, swap).1.Ok?
    ensures Grows(memory[seen.definition.batchId], CaptureBatch.Record(seen, o).value)
    ensures o in CaptureBatch.Record(seen, o).value.outcomes
  {
    RecordGrows(seen, o);
  }

  /** Every swap that succeeds proposes what some client recorded on a snapshot it had read before. */
  ghost predicate SwapsAreRecorded(run: seq<Call>)
  {
    forall j :: 0 <= j < |run| && SwapSucceeds(run, j) ==> exists g: nat, o: Outcome :: IsRecorded(run, g, j, o)
  }

  predicate SwapSucceeds(run: seq<Call>, j: nat)
    requires j < |run|
    ensures SwapSucceeds(run, j) ==> run[j].CompareAndSwap?
  {
    run[j].CompareAndSwap? && ApplyInMemory(MemoryAfter(run[..j]), run[j]).1.Ok?
  }

  ghost predicate IsRecorded(run: seq<Call>, g: nat, j: nat, o: Outcome)
    requires j < |run| && run[j].CompareAndSwap?
  {
    && g <= j && run[j].batchId in MemoryAfter(run[..g])
    && var seen := MemoryAfter(run[..g])[run[j].batchId];
       Valid(seen) && seen.revision == run[j].expected && CaptureBatch.Record(seen, o) == Ok(run[j].replacement)
  }

  /** In such a run no outcome is ever lost, and none is ever changed, whoever wrote it. */
  lemma {:induction false} OutcomesAreNeverLost(run: seq<Call>, k: nat, id: string)
    requires AllConstructed(run) && SwapsAreRecorded(run) && k <= |run| && id in MemoryAfter(run[..k])
    ensures id in MemoryAfter(run) && Grows(MemoryAfter(run[..k])[id], MemoryAfter(run)[id])
  {
    hide ApplyInMemory, Valid, Constructed, Grows, CaptureBatch.Record, SwapsAreRecorded;
    if k == |run| {
      assert run[..k] == run;
      RevisionsFormOneChain(run, id);
      GrowsFromItself(MemoryAfter(run)[id]);
    } else {
      var n := |run| - 1;
      assert run[..n][..k] == run[..k];
      assert forall call :: call in run[..n] ==> call in run;
      RecordedPrefix(run, n);
      OutcomesAreNeverLost(run[..n], k, id);
      RecordedStepGrows(run, id);
      GrowsIsTransitive(MemoryAfter(run[..k])[id], MemoryAfter(run[..n])[id], MemoryAfter(run)[id]);
    }
  }

  lemma GrowsFromItself(s: Snapshot)
    requires Valid(s)
    ensures Grows(s, s)
  {
  }

  lemma RecordedPrefix(run: seq<Call>, n: nat)
    requires SwapsAreRecorded(run) && n <= |run|
    ensures SwapsAreRecorded(run[..n])
  {
    hide ApplyInMemory, Valid, CaptureBatch.Record;
    forall j | 0 <= j < n && SwapSucceeds(run[..n], j)
      ensures exists g: nat, o: Outcome :: IsRecorded(run[..n], g, j, o)
    {
      assert run[..n][..j] == run[..j];
      assert SwapSucceeds(run, j);
      var g: nat, o: Outcome :| IsRecorded(run, g, j, o);
      assert run[..n][..g] == run[..g];
      assert IsRecorded(run[..n], g, j, o);
    }
  }

  /** Only a successful swap of its own moves a stored batch, and it moves it to the replacement. */
  lemma CallLeaves(memory: Memory, call: Call, id: string)
    requires id in memory
    ensures var e := ApplyInMemory(memory, call);
            && id in e.0
            && e.0[id] == if call.CompareAndSwap? && e.1.Ok? && call.batchId == id then call.replacement else memory[id]
  {
  }

  lemma StoredIsValid(run: seq<Call>, id: string)
    requires AllConstructed(run) && id in MemoryAfter(run)
    ensures Valid(MemoryAfter(run)[id])
  {
    hide Valid, Constructed, ApplyInMemory;
    RevisionsFormOneChain(run, id);
  }

  lemma LastCallLeaves(run: seq<Call>, id: string)
    requires run != [] && id in MemoryAfter(run[..|run| - 1])
    ensures id in MemoryAfter(run)
    ensures MemoryAfter(run)[id] == (if SwapSucceeds(run, |run| - 1) && run[|run| - 1].batchId == id
                                     then run[|run| - 1].replacement else MemoryAfter(run[..|run| - 1])[id])
  {
    hide ApplyInMemory;
    CallLeaves(MemoryAfter(run[..|run| - 1]), run[|run| - 1], id);
  }

  lemma RecordedStepGrows(run: seq<Call>, id: string)
    requires AllConstructed(run) && SwapsAreRecorded(run) && run != [] && id in MemoryAfter(run[..|run| - 1])
    ensures id in MemoryAfter(run) && Grows(MemoryAfter(run[..|run| - 1])[id], MemoryAfter(run)[id])
  {
    hide Valid, Constructed, CaptureBatch.Record, Grows, MemoryAfter, SwapSucceeds, IsRecorded;
    var n := |run| - 1;
    ConstructedPrefix(run, n);
    LastCallLeaves(run, id);
    StoredIsValid(run[..n], id);
    GrowsFromItself(MemoryAfter(run[..n])[id]);
    if SwapSucceeds(run, n) && run[n].batchId == id {
      var g: nat, o: Outcome :| IsRecorded(run, g, n, o);
      RecordedSwapGrows(run, g, o);
    }
  }

  lemma ConstructedPrefix(run: seq<Call>, n: nat)
    requires AllConstructed(run) && n <= |run|
    ensures AllConstructed(run[..n])
  {
    assert forall call :: call in run[..n] ==> call in run;
  }

  lemma RecordedSwapGrows(run: seq<Call>, g: nat, o: Outcome)
    requires AllConstructed(run) && run != [] && SwapSucceeds(run, |run| - 1) && IsRecorded(run, g, |run| - 1, o)
    requires run[|run| - 1].batchId in MemoryAfter(run[..|run| - 1])
    ensures Grows(MemoryAfter(run[..|run| - 1])[run[|run| - 1].batchId], run[|run| - 1].replacement)
  {
    hide Valid, Constructed, CaptureBatch.Record, Grows, MemoryAfter;
    var n := |run| - 1;
    AdvancesBetween(run, g, n, run[n].batchId);
    StoredUnderItsId(run[..g], run[n].batchId);
    RecordedSwapsLoseNothing(MemoryAfter(run[..n]), MemoryAfter(run[..g])[run[n].batchId], o);
  }

  lemma {:induction false} StoredUnderItsId(run: seq<Call>, id: string)
    requires id in MemoryAfter(run)
    ensures MemoryAfter(run)[id].definition.batchId == id
  {
    if run != [] {
      var before := MemoryAfter(run[..|run| - 1]);
      if id in before {
        StoredUnderItsId(run[..|run| - 1], id);
      }
    }
  }

  // ----- who wins

  /** A call that fails, or only reads, changes nothing; no call touches another batch. */
  lemma LosingCallsChangeNothing(env: Env, table: Table, call: Call)
    ensures var e := Apply(env, table, call);
            var id := if call.Create? then call.initial.definition.batchId else call.batchId;
            && (e.result.Err? || call.Get? ==> e.table == table)
            && e.table.Keys <= table.Keys + {id}
            && forall other :: other in table && other != id ==> other in e.table && e.table[other] == table[other]
  {
  }

  function ResultAt(env: Env, run: seq<Call>, k: nat): (r: Result<Option<Snapshot>, StoreError>)
    requires k < |run|
  {
    Apply(env, TableAfter(env, run[..k]), run[k]).result
  }

  /** A successful swap met exactly the expected revision and left its replacement. */
  lemma SwapMoves(env: Env, run: seq<Call>, k: nat)
    requires Sound(env) && AllConstructed(run) && k < |run| && run[k].CompareAndSwap? && ResultAt(env, run, k).Ok?
    ensures var id := run[k].batchId;
            && id in MemoryAfter(run[..k]) && MemoryAfter(run[..k])[id].revision == run[k].expected
            && id in MemoryAfter(run[..k + 1]) && MemoryAfter(run[..k + 1])[id].revision == run[k].expected + 1
  {
    hide Apply, Valid, Constructed;
    StoredBefore(env, run, k);
    DurableStoreRefinesMemory(env, TableAfter(env, run[..k]), MemoryAfter(run[..k]), run[k]);
  }

  lemma StoredBefore(env: Env, run: seq<Call>, k: nat)
    requires Sound(env) && AllConstructed(run) && k < |run|
    ensures Stores(env, TableAfter(env, run[..k]), MemoryAfter(run[..k])) && Constructed(run[k])
    ensures MemoryAfter(run[..k + 1]) == ApplyInMemory(MemoryAfter(run[..k]), run[k]).0
  {
    hide Apply, ApplyInMemory, Valid, Constructed, Stores;
    assert forall call :: call in run[..k] ==> call in run;
    StoredRowsAlwaysReadBack(env, run[..k]);
    assert run[..k + 1][..k] == run[..k] && run[..k + 1][k] == run[k];
  }

  /** However clients interleave, a revision is won once: two successful swaps from it are the same step. */
  lemma EachRevisionIsWonOnce(env: Env, run: seq<Call>, i: nat, j: nat)
    requires Sound(env) && AllConstructed(run) && i < |run| && j < |run|
    requires run[i].CompareAndSwap? && ResultAt(env, run, i).Ok?
    requires run[j].CompareAndSwap? && ResultAt(env, run, j).Ok?
    requires run[i].batchId == run[j].batchId && run[i].expected == run[j].expected
    ensures i == j
  {
    hide Apply, Valid, Constructed, MemoryAfter;
    if i != j {
      var a, b := if i < j then i else j, if i < j then j else i;
      SwapMoves(env, run, a);
      SwapMoves(env, run, b);
      AdvancesBetween(run, a + 1, b, run[i].batchId);
    }
  }

  lemma AdvancesBetween(run: seq<Call>, i: nat, j: nat, id: string)
    requires AllConstructed(run) && i <= j <= |run| && id in MemoryAfter(run[..i])
    ensures id in MemoryAfter(run[..j]) && Advances(MemoryAfter(run[..i])[id], MemoryAfter(run[..j])[id])
  {
    assert forall call :: call in run[..j] ==> call in run;
    assert run[..j][..i] == run[..i];
    BatchesOnlyAdvance(run[..j], i, id);
  }

  // ----- the coordinator's loop

  datatype RecordResult = Recorded(snapshot: Snapshot) | Conflict | Missing | Failed(error: StoreError) | RetriesExhausted

  /** What the store answers in one try: to the read, and to the swap when there is one. */
  datatype Look = Look(read: Result<Option<Snapshot>, StoreError>, swap: Result<Option<Snapshot>, StoreError>)

  /** A snapshot that was read was validated when it was constructed. */
  predicate Readable(read: Result<Option<Snapshot>, StoreError>)
  {
    read.Ok? && read.value.Some? ==> Valid(read.value.value)
  }

  /** What one try proposes, if it comes to a proposal. */
  function Proposal(read: Result<Option<Snapshot>, StoreError>, o: Outcome): (r: Option<Snapshot>)
    requires Readable(read)
  {
    if read.Err? || read.value.None? then None
    else
      var recorded := CaptureBatch.Record(read.value.value, o);
      if recorded.Ok? && recorded.value != read.value.value then Some(recorded.value) else None
  }

  /** The meaning of the bounded read-reduce-swap loop; `looks` holds one entry per permitted try. */
  function Retry(looks: seq<Look>, o: Outcome): (r: RecordResult)
    requires forall i :: 0 <= i < |looks| ==> Readable(looks[i].read)
  {
    if looks == [] then RetriesExhausted
    else
      assert Readable(looks[0].read);
      match looks[0].read
      case Err(e) => Failed(e)
      case Ok(None) => Missing
      case Ok(Some(state)) =>
        match CaptureBatch.Record(state, o)
        case Err(_) => Conflict
        case Ok(replacement) =>
          if replacement == state then Recorded(state)
          else
            match looks[0].swap
            case Ok(stored) => if stored == Some(replacement) then Recorded(replacement) else Conflict
            case Err(e) => if e == RevisionConflict then Retry(looks[1..], o) else Failed(e)
  }

  /** What the first try's answers decide; only a lost swap leads to a second. */
  lemma FirstLookDecides(looks: seq<Look>, o: Outcome)
    requires looks != [] && forall i :: 0 <= i < |looks| ==> Readable(looks[i].read)
    ensures looks[0].read.Err? ==> Retry(looks, o) == Failed(looks[0].read.error)
    ensures looks[0].read == Ok(None) ==> Retry(looks, o) == Missing
    ensures looks[0].read.Ok? && looks[0].read.value.Some? && Valid(looks[0].read.value.value) ==>
      var seen := looks[0].read.value.value;
      && (o in seen.outcomes ==> Retry(looks, o) == Recorded(seen))
      && (Refuses(seen, o) ==> Retry(looks, o) == Conflict)
      && (o !in seen.outcomes && !Refuses(seen, o) ==>
            && (looks[0].swap == Err(RevisionConflict) ==> Retry(looks, o) == Retry(looks[1..], o))
            && (looks[0].swap.Err? && looks[0].swap.error != RevisionConflict ==>
                  Retry(looks, o) == Failed(looks[0].swap.error))
            && (looks[0].swap.Ok? ==>
                  Retry(looks, o) == if looks[0].swap.value.Some?
                                        && CaptureBatch.Record(seen, o) == Ok(looks[0].swap.value.value)
                                     then Recorded(looks[0].swap.value.value) else Conflict))
  {
    hide Valid, CaptureBatch.Record;
    assert Readable(looks[0].read);
    if looks[0].read.Ok? && looks[0].read.value.Some? {
      RecordByFields(looks[0].read.value.value, o);
    }
  }

  /** Another outcome holds the attempt, or the outcome is not one the batch can take. */
  ghost predicate Refuses(seen: Snapshot, o: Outcome)
    requires Valid(seen)
  {
    && o !in seen.outcomes
    && ((exists p :: p in seen.outcomes && p.attemptId == o.attemptId) || Unfit(seen, o))
  }

  method RecordWithRetries(looks: seq<Look>, o: Outcome) returns (r: RecordResult)
    requires forall i :: 0 <= i < |looks| ==> Readable(looks[i].read)
    ensures r == Retry(looks, o)
    ensures r.Recorded? ==> o in r.snapshot.outcomes
  {
    hide CaptureBatch.Record, Valid, Grows;
    assert looks[0..] == looks;
    for i := 0 to |looks|
      invariant Retry(looks, o) == Retry(looks[i..], o)
    {
      assert Readable(looks[i].read);
      assert looks[i..][0] == looks[i] && looks[i..][1..] == looks[i + 1..];
      var read := looks[i].read;
      if read.Err? {
        return Failed(read.error);
      }
      if read.value.None? {
        return Missing;
      }
      var state := read.value.value;
      var replacement := CaptureBatch.Record(state, o);
      if replacement.Err? {
        return Conflict;
      }
      RecordGrows(state, o);
      if replacement.value == state {
        return Recorded(state);
      }
      var stored := looks[i].swap;
      if stored.Ok? {
        return if stored.value == Some(replacement.value) then Recorded(replacement.value) else Conflict;
      }
      if stored.error != RevisionConflict {
        return Failed(stored.error);
      }
    }
    assert looks[|looks|..] == [];
    r := RetriesExhausted;
  }

  // ----- the loop against the store, other clients in between

  /** Where in a run of the store's calls one try reads and swaps. */
  datatype Try = Try(get: nat, swap: nat)

  ghost predicate TryAt(env: Env, run: seq<Call>, t: Try, o: Outcome)
  {
    && t.get < t.swap < |run| && run[t.get] == Get(o.batchId)
    && (var read := ResultAt(env, run, t.get);
        Readable(read) && Proposal(read, o).Some? ==>
        run[t.swap] == CompareAndSwap(o.batchId, read.value.value.revision, Proposal(read, o).value))
  }

  /** One try after the other; the calls around theirs are those of other clients. */
  ghost predicate Tries(env: Env, run: seq<Call>, tries: seq<Try>, o: Outcome)
  {
    && (forall i :: 0 <= i < |tries| ==> TryAt(env, run, tries[i], o))
    && (forall i :: 0 < i < |tries| ==> tries[i - 1].swap < tries[i].get)
  }

  function LookAt(env: Env, run: seq<Call>, t: Try): (l: Look)
    requires t.get < |run| && t.swap < |run|
  {
    Look(ResultAt(env, run, t.get), ResultAt(env, run, t.swap))
  }

  function Looks(env: Env, run: seq<Call>, tries: seq<Try>): (looks: seq<Look>)
    requires forall i :: 0 <= i < |tries| ==> tries[i].get < |run| && tries[i].swap < |run|
    ensures |looks| == |tries| && forall i :: 0 <= i < |tries| ==> looks[i] == LookAt(env, run, tries[i])
  {
    seq(|tries|, i requires 0 <= i < |tries| => LookAt(env, run, tries[i]))
  }

  lemma ReadIsMemory(env: Env, run: seq<Call>, k: nat, id: string)
    requires Sound(env) && AllConstructed(run) && k < |run| && run[k] == Get(id)
    ensures ResultAt(env, run, k) == Ok(if id in MemoryAfter(run[..k]) then Some(MemoryAfter(run[..k])[id]) else None)
    ensures Readable(ResultAt(env, run, k))
  {
    hide Apply, Valid, Constructed;
    StoredBefore(env, run, k);
    DurableStoreRefinesMemory(env, TableAfter(env, run[..k]), MemoryAfter(run[..k]), run[k]);
  }

  /** A proposed swap meets the batch as it was read or further on, and loses exactly in the second case. */
  lemma SwapLosesIffMoved(env: Env, run: seq<Call>, t: Try, o: Outcome)
    requires Sound(env) && AllConstructed(run) && TryAt(env, run, t, o)
    requires Readable(ResultAt(env, run, t.get)) && Proposal(ResultAt(env, run, t.get), o).Some?
    ensures o.batchId in MemoryAfter(run[..t.get]) && o.batchId in MemoryAfter(run[..t.swap])
    ensures var seen, met := MemoryAfter(run[..t.get])[o.batchId], MemoryAfter(run[..t.swap])[o.batchId];
            var proposal := Proposal(ResultAt(env, run, t.get), o).value;
            && ResultAt(env, run, t.get) == Ok(Some(seen)) && CaptureBatch.Record(seen, o) == Ok(proposal)
            && proposal.revision == seen.revision + 1 && Advances(seen, met)
            && ResultAt(env, run, t.swap) == (if met == seen then Ok(Some(proposal)) else Err(RevisionConflict))
            && (met != seen ==> seen.revision < met.revision)
  {
    hide Apply, Valid, Constructed, CaptureBatch.Record, Grows, MemoryAfter, Stores;
    var id := o.batchId;
    ReadIsMemory(env, run, t.get, id);
    StoredUnderItsId(run[..t.get], id);
    var seen := MemoryAfter(run[..t.get])[id];
    RecordGrows(seen, o);
    assert Grows(seen, CaptureBatch.Record(seen, o).value);
    AdvancesBetween(run, t.get, t.swap, id);
    StoredBefore(env, run, t.swap);
    GrownKeepsIntent(seen, CaptureBatch.Record(seen, o).value);
    SwapOf(env, TableAfter(env, run[..t.swap]), MemoryAfter(run[..t.swap]), id, seen.revision,
           CaptureBatch.Record(seen, o).value);
  }

  lemma GrownKeepsIntent(a: Snapshot, b: Snapshot)
    requires Grows(a, b)
    ensures a.definition == b.definition && Valid(a) && Valid(b)
  {
  }

  lemma SwapOf(env: Env, table: Table, memory: Memory, id: string, expected: int, replacement: Snapshot)
    requires Sound(env) && Stores(env, table, memory) && id in memory && Valid(replacement)
    requires replacement.definition == memory[id].definition && replacement.definition.batchId == id
    requires replacement.revision == expected + 1
    ensures Apply(env, table, CompareAndSwap(id, expected, replacement)).result
         == (if memory[id].revision == expected then Ok(Some(replacement)) else Err(RevisionConflict))
  {
    hide DecodeRow, Valid;
    StoredRowDecodes(env, table, memory, id);
  }

  /** Every lost try met a later revision, and there are only two to meet. */
  lemma {:induction false} LostTriesClimb(env: Env, run: seq<Call>, tries: seq<Try>, o: Outcome)
    requires Sound(env) && AllConstructed(run) && Tries(env, run, tries, o) && tries != []
    requires forall i :: 0 <= i < |tries| ==> Readable(LookAt(env, run, tries[i]).read)
    requires Retry(Looks(env, run, tries), o) == RetriesExhausted
    ensures o.batchId in MemoryAfter(run[..tries[0].get])
    ensures |tries| + MemoryAfter(run[..tries[0].get])[o.batchId].revision <= 2
  {
    hide Apply, Valid, Constructed, CaptureBatch.Record, MemoryAfter, ResultAt;
    var t := tries[0];
    var looks := Looks(env, run, tries);
    assert TryAt(env, run, t, o) && looks[0] == LookAt(env, run, t);
    assert Proposal(looks[0].read, o).Some?;
    SwapLosesIffMoved(env, run, t, o);
    var seen, met := MemoryAfter(run[..t.get])[o.batchId], MemoryAfter(run[..t.swap])[o.batchId];
    RecordGrows(seen, o);
    RevisionsStopAtTwo(CaptureBatch.Record(seen, o).value);
    if |tries| > 1 {
      var rest := tries[1..];
      assert tries[0].swap < tries[1].get && TryAt(env, run, tries[1], o);
      assert looks[1..] == Looks(env, run, rest);
      LostTriesClimb(env, run, rest, o);
      AdvancesBetween(run, t.swap, tries[1].get, o.batchId);
    }
  }

  lemma TriesAreReadable(env: Env, run: seq<Call>, tries: seq<Try>, o: Outcome)
    requires Sound(env) && AllConstructed(run) && Tries(env, run, tries, o)
    ensures forall i :: 0 <= i < |tries| ==>
      && tries[i].get < |run| && tries[i].swap < |run| && Readable(LookAt(env, run, tries[i]).read)
  {
    hide Apply, Valid, Constructed;
    forall i | 0 <= i < |tries|
      ensures tries[i].get < |run| && tries[i].swap < |run| && Readable(LookAt(env, run, tries[i]).read)
    {
      assert TryAt(env, run, tries[i], o);
      ReadIsMemory(env, run, tries[i].get, o.batchId);
    }
  }

  /** Whatever the other clients do meanwhile, a third try is never lost. */
  lemma ThreeTriesSuffice(env: Env, run: seq<Call>, tries: seq<Try>, o: Outcome)
    requires Sound(env) && AllConstructed(run) && Tries(env, run, tries, o)
    ensures forall i :: 0 <= i < |tries| ==>
      && tries[i].get < |run| && tries[i].swap < |run| && Readable(LookAt(env, run, tries[i]).read)
    ensures Retry(Looks(env, run, tries), o) == RetriesExhausted ==> |tries| <= 2
  {
    hide Retry, Looks, TryAt;
    TriesAreReadable(env, run, tries, o);
    if tries != [] && Retry(Looks(env, run, tries), o) == RetriesExhausted {
      LostTriesClimb(env, run, tries, o);
      RevisionIsNat(run, tries[0].get, o.batchId);
    }
  }

  lemma RevisionIsNat(run: seq<Call>, k: nat, id: string)
    requires AllConstructed(run) && k <= |run| && id in MemoryAfter(run[..k])
    ensures MemoryAfter(run[..k])[id].revision >= 0
  {
    assert forall call :: call in run[..k] ==> call in run;
    RevisionsFormOneChain(run[..k], id);
  }

  /** The batch moved between the read and the swap of this try. */
  ghost predicate Lost(run: seq<Call>, t: Try, o: Outcome)
    requires t.get < |run| && t.swap < |run|
  {
    && o.batchId in MemoryAfter(run[..t.get]) && o.batchId in MemoryAfter(run[..t.swap])
    && MemoryAfter(run[..t.swap])[o.batchId] != MemoryAfter(run[..t.get])[o.batchId]
  }

  /** What the loop answers when this try decides, as the batch stood at its read. */
  ghost predicate Decides(run: seq<Call>, t: Try, o: Outcome, r: RecordResult)
    requires AllConstructed(run) && t.get < |run| && t.swap < |run|
  {
    var memory := MemoryAfter(run[..t.get]);
    if o.batchId !in memory then r == Missing
    else if !Valid(memory[o.batchId]) then false
    else if o in memory[o.batchId].outcomes then r == Recorded(memory[o.batchId])
    else if Refuses(memory[o.batchId], o) then r == Conflict
    else
      && !Lost(run, t, o) && r.Recorded? && o in r.snapshot.outcomes
      && Ok(r.snapshot) == CaptureBatch.Record(memory[o.batchId], o)
  }

  lemma OneTryDecides(env: Env, run: seq<Call>, t: Try, o: Outcome, looks: seq<Look>)
    requires Sound(env) && AllConstructed(run) && TryAt(env, run, t, o)
    requires looks != [] && looks[0] == LookAt(env, run, t)
    requires forall i :: 0 <= i < |looks| ==> Readable(looks[i].read)
    ensures !Decides(run, t, o, Retry(looks, o)) ==> Lost(run, t, o) && Retry(looks, o) == Retry(looks[1..], o)
  {
    hide Apply, Valid, Constructed, CaptureBatch.Record, MemoryAfter, ResultAt, Refuses;
    ReadIsMemory(env, run, t.get, o.batchId);
    FirstLookDecides(looks, o);
    assert Readable(looks[0].read);
    if looks[0].read.value.Some? {
      var seen := looks[0].read.value.value;
      RefusedIffNotRecorded(seen, o);
      if Proposal(looks[0].read, o).Some? {
        SwapLosesIffMoved(env, run, t, o);
        RecordHolds(seen, o);
      }
    }
  }

  lemma RecordHolds(seen: Snapshot, o: Outcome)
    requires Valid(seen) && CaptureBatch.Record(seen, o).Ok?
    ensures o in CaptureBatch.Record(seen, o).value.outcomes
  {
    RecordGrows(seen, o);
  }

  lemma RefusedIffNotRecorded(seen: Snapshot, o: Outcome)
    requires Valid(seen)
    ensures Refuses(seen, o) <==> CaptureBatch.Record(seen, o).Err?
    ensures o in seen.outcomes <==> CaptureBatch.Record(seen, o) == Ok(seen)
  {
    hide Valid, CaptureBatch.Record;
    RecordByFields(seen, o);
  }

  /**
   * Unless all tries are lost, one decides: the batch is missing, holds the outcome, refuses it, or
   * takes it; every try before was lost to another client. The store itself never fails the loop.
   */
  lemma {:induction false} OneTryDecidesTheLoop(env: Env, run: seq<Call>, tries: seq<Try>, o: Outcome) returns (i: nat)
    requires Sound(env) && AllConstructed(run) && Tries(env, run, tries, o) && |tries| > 0
    requires forall i :: 0 <= i < |tries| ==>
      && tries[i].get < |run| && tries[i].swap < |run| && Readable(LookAt(env, run, tries[i]).read)
    ensures i <= |tries| && forall j :: 0 <= j < i ==> Lost(run, tries[j], o)
    ensures var r := Retry(Looks(env, run, tries), o);
            if i == |tries| then r == RetriesExhausted else Decides(run, tries[i], o, r)
  {
    hide Retry, LookAt, Lost, Decides, Sound, Apply, Valid, Constructed, Readable;
    var looks := Looks(env, run, tries);
    assert TryAt(env, run, tries[0], o);
    OneTryDecides(env, run, tries[0], o, looks);
    if Decides(run, tries[0], o, Retry(looks, o)) {
      i := 0;
    } else if |tries| == 1 {
      i := 1;
      assert Retry(looks[1..], o) == RetriesExhausted by { NoTriesLeft(looks[1..], o); }
    } else {
      var rest := tries[1..];
      assert Tries(env, run, rest, o) by { LaterTries(env, run, tries, o); }
      assert looks[1..] == Looks(env, run, rest);
      var k := OneTryDecidesTheLoop(env, run, rest, o);
      i := k + 1;
      forall j | 0 <= j < i ensures Lost(run, tries[j], o) {
        assert j > 0 ==> tries[j] == rest[j - 1];
      }
    }
  }

  lemma NoTriesLeft(looks: seq<Look>, o: Outcome)
    requires looks == []
    ensures Retry(looks, o) == RetriesExhausted
  {
  }

  lemma LaterTries(env: Env, run: seq<Call>, tries: seq<Try>, o: Outcome)
    requires Tries(env, run, tries, o) && |tries| > 0
    ensures Tries(env, run, tries[1..], o)
  {
    hide TryAt;
  }

  /** What the loop reports as recorded is in the store, and stays there while all clients swap what they recorded. */
  lemma {:induction false} RecordedStaysRecorded(env: Env, run: seq<Call>, tries: seq<Try>, o: Outcome)
    requires Sound(env) && AllConstructed(run) && SwapsAreRecorded(run) && Tries(env, run, tries, o)
    requires forall i :: 0 <= i < |tries| ==> Readable(LookAt(env, run, tries[i]).read)
    requires Retry(Looks(env, run, tries), o).Recorded?
    ensures o.batchId in MemoryAfter(run) && o in MemoryAfter(run)[o.batchId].outcomes
    ensures o.batchId in TableAfter(env, run)
    ensures DecodeRow(env, o.batchId, TableAfter(env, run)[o.batchId]) == Ok(MemoryAfter(run)[o.batchId])
  {
    hide Apply, Valid, Constructed, CaptureBatch.Record, MemoryAfter, ResultAt, DecodeRow, TableAfter, SwapsAreRecorded,
         Grows;
    StoredRowsAlwaysReadBack(env, run);
    SameBatches(env, run);
    var t := tries[0];
    var looks := Looks(env, run, tries);
    assert TryAt(env, run, t, o) && looks[0] == LookAt(env, run, t);
    ReadIsMemory(env, run, t.get, o.batchId);
    if Proposal(looks[0].read, o).None? {
      var state := looks[0].read.value.value;
      RecordGrows(state, o);
      HeldStaysHeld(run, t.get, o);
    } else if looks[0].swap.Ok? {
      SwapLosesIffMoved(env, run, t, o);
      RecordGrows(MemoryAfter(run[..t.get])[o.batchId], o);
      SwapLeaves(env, run, t.swap);
      HeldStaysHeld(run, t.swap + 1, o);
    } else {
      var rest := tries[1..];
      assert looks[1..] == Looks(env, run, rest);
      RecordedStaysRecorded(env, run, rest, o);
    }
  }

  lemma SameBatches(env: Env, run: seq<Call>)
    requires Stores(env, TableAfter(env, run), MemoryAfter(run))
    ensures TableAfter(env, run).Keys == MemoryAfter(run).Keys
  {
  }

  lemma HeldStaysHeld(run: seq<Call>, k: nat, o: Outcome)
    requires AllConstructed(run) && SwapsAreRecorded(run) && k <= |run|
    requires o.batchId in MemoryAfter(run[..k]) && o in MemoryAfter(run[..k])[o.batchId].outcomes
    ensures o.batchId in MemoryAfter(run) && o in MemoryAfter(run)[o.batchId].outcomes
  {
    hide MemoryAfter, SwapsAreRecorded;
    OutcomesAreNeverLost(run, k, o.batchId);
  }

  lemma SwapLeaves(env: Env, run: seq<Call>, k: nat)
    requires Sound(env) && AllConstructed(run) && k < |run| && run[k].CompareAndSwap? && ResultAt(env, run, k).Ok?
    ensures var id := run[k].batchId; id in MemoryAfter(run[..k + 1]) && MemoryAfter(run[..k + 1])[id] == run[k].replacement
  {
    hide Apply, Valid, Constructed;
    StoredBefore(env, run, k);
    DurableStoreRefinesMemory(env, TableAfter(env, run[..k]), MemoryAfter(run[..k]), run[k]);
  }

  // ----- two tries are not enough

  lemma RunStep(run: seq<Call>, k: nat, memory: Memory)
    requires k < |run| && MemoryAfter(run[..k]) == memory
    ensures MemoryAfter(run[..k + 1]) == ApplyInMemory(memory, run[k]).0
  {
    assert run[..k + 1][..k] == run[..k] && run[..k + 1][k] == run[k];
  }

  /** The batch is created; another client records `b` after the first read, and then `a` after the second. */
  function LosingRun(s0: Snapshot, s1: Snapshot, s2: Snapshot, mine: Snapshot): (run: seq<Call>)
  {
    var id := s0.definition.batchId;
    [Create(s0), Get(id), CompareAndSwap(id, 0, s1), CompareAndSwap(id, 0, mine),
     Get(id), CompareAndSwap(id, 1, s2), CompareAndSwap(id, 1, s2)]
  }

  lemma LosingRunMemory(s0: Snapshot, s1: Snapshot, s2: Snapshot, mine: Snapshot)
    requires s0.definition == s1.definition == s2.definition == mine.definition
    requires s0.revision == 0 && s1.revision == mine.revision == 1 && s2.revision == 2
    ensures var id, run := s0.definition.batchId, LosingRun(s0, s1, s2, mine);
            && MemoryAfter(run[..1]) == map[id := s0] && MemoryAfter(run[..3]) == map[id := s1]
            && MemoryAfter(run[..4]) == map[id := s1] && MemoryAfter(run[..6]) == map[id := s2]
  {
    hide MemoryAfter;
    var id, run := s0.definition.batchId, LosingRun(s0, s1, s2, mine);
    assert MemoryAfter(run[..0]) == map[] by { NothingStored(run); }
    RunStep(run, 0, map[]);
    RunStep(run, 1, map[id := s0]);
    RunStep(run, 2, map[id := s0]);
    RunStep(run, 3, map[id := s1]);
    RunStep(run, 4, map[id := s1]);
    RunStep(run, 5, map[id := s1]);
  }

  lemma NothingStored(run: seq<Call>)
    ensures MemoryAfter(run[..0]) == map[]
  {
  }

  /** Two tries can be lost: another client records both outcomes, one between each read and its swap. */
  lemma TwoTriesCanBeExhausted(env: Env, d: Definition, a: Outcome, b: Outcome)
    requires Sound(env) && ValidDefinition(d) && Fits(d, a) && Fits(d, b) && a.recording == b.recording == None
    requires a.attemptId == d.attempts[0].attemptId && b.attemptId == d.attempts[1].attemptId
    ensures var run := LosingRun(Snapshot(d, [], 0), Snapshot(d, [b], 1), Snapshot(d, [a, b], 2), Snapshot(d, [a], 1));
            var tries := [Try(1, 3), Try(4, 6)];
            && AllConstructed(run) && Tries(env, run, tries, a)
            && (forall i :: 0 <= i < 2 ==> Readable(LookAt(env, run, tries[i]).read))
            && Retry(Looks(env, run, tries), a) == RetriesExhausted
  {
    var s0, s1, s2, mine := Snapshot(d, [], 0), Snapshot(d, [b], 1), Snapshot(d, [a, b], 2), Snapshot(d, [a], 1);
    var run := LosingRun(s0, s1, s2, mine);
    BothOutcomes(d, a, b);
    LosingRunMemory(s0, s1, s2, mine);
    LosingTries(env, run, s0, s1, s2, mine, a);
  }

  lemma BothOutcomes(d: Definition, a: Outcome, b: Outcome)
    requires ValidDefinition(d) && Fits(d, a) && Fits(d, b) && a.recording == b.recording == None
    requires a.attemptId == d.attempts[0].attemptId && b.attemptId == d.attempts[1].attemptId
    ensures var s0, s1, s2, mine := Snapshot(d, [], 0), Snapshot(d, [b], 1), Snapshot(d, [a, b], 2), Snapshot(d, [a], 1);
            && Valid(s0) && Valid(s1) && Valid(s2) && Valid(mine)
            && CaptureBatch.Record(s0, a) == Ok(mine) && CaptureBatch.Record(s1, a) == Ok(s2)
  {
    assert Place(d, [], a) == [a] && Place(d, [b], a) == [a, b];
  }

  lemma LosingTries(
    env: Env, run: seq<Call>, s0: Snapshot, s1: Snapshot, s2: Snapshot, mine: Snapshot, a: Outcome)
    requires Sound(env) && Valid(s0) && Valid(s1) && Valid(s2) && Valid(mine) && run == LosingRun(s0, s1, s2, mine)
    requires s0.definition.batchId == a.batchId && s0.revision == 0 && s1.revision == 1 && s2.revision == 2
    requires CaptureBatch.Record(s0, a) == Ok(mine) && CaptureBatch.Record(s1, a) == Ok(s2) && mine.revision == 1
    requires MemoryAfter(run[..1]) == map[a.batchId := s0] && MemoryAfter(run[..3]) == map[a.batchId := s1]
    requires MemoryAfter(run[..4]) == map[a.batchId := s1] && MemoryAfter(run[..6]) == map[a.batchId := s2]
    ensures var tries := [Try(1, 3), Try(4, 6)];
            && AllConstructed(run) && Tries(env, run, tries, a)
            && (forall i :: 0 <= i < 2 ==> Readable(LookAt(env, run, tries[i]).read))
            && Retry(Looks(env, run, tries), a) == RetriesExhausted
  {
    hide MemoryAfter, Apply, Valid, CaptureBatch.Record, TableAfter;
    var tries := [Try(1, 3), Try(4, 6)];
    ReadIsMemory(env, run, 1, a.batchId);
    ReadIsMemory(env, run, 4, a.batchId);
    SwapLosesIffMoved(env, run, tries[0], a);
    SwapLosesIffMoved(env, run, tries[1], a);
    var looks := Looks(env, run, tries);
    assert looks[1..][0] == looks[1] && looks[1..][1..] == [];
    assert Retry(looks[1..], a) == RetriesExhausted;
  }
}
