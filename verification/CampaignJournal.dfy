/** The durable campaign journal: one row per campaign, changed only by compare-and-swap. */
module CampaignJournal {
  import opened Outcomes
  import opened Documents
  import opened CampaignCodec

  /** The update time of the row is left out. */
  datatype Row = Row(definitionDigest: string, payload: seq<byte>, revision: int)

  type Table = map<string, Row>

  datatype JournalError = NotInitialized | InvalidReplacement | Changed | FailedIntegrity | StateTooLarge

  datatype Call =
    | Initialize(definition: Definition)
    | Load(definition: Definition)
    | CompareAndSwap(definition: Definition, expected: int, replacement: JournalState)

  /** The table after one call, what the caller gets, and the state the call committed, if any. */
  datatype Effect = Effect(table: Table, result: Result<JournalState, JournalError>, committed: Option<JournalState>)

  function DecodeRow(env: Env, d: Definition, row: Row): (r: Result<JournalState, JournalError>)
  {
    if row.definitionDigest != d.digest then Err(FailedIntegrity)
    else
      match Decode(env, d, row.payload)
      case Err(_) => Err(FailedIntegrity)
      case Ok(s) => if s.revision == row.revision then Ok(s) else Err(FailedIntegrity)
  }

  function Initial(d: Definition): (s: JournalState)
  {
    JournalState(d.digest, [], 0)
  }

  function Apply(env: Env, table: Table, call: Call): (e: Effect)
  {
    match call
    case Initialize(d) =>
      if d.campaignId in table then Effect(table, DecodeRow(env, d, table[d.campaignId]), None)
      else (
        match Encode(env, Initial(d))
        case Err(_) => Effect(table, Err(StateTooLarge), None)
        case Ok(payload) =>
          Effect(table[d.campaignId := Row(d.digest, payload, 0)], Ok(Initial(d)), Some(Initial(d))))
    case Load(d) =>
      Effect(table, if d.campaignId in table then DecodeRow(env, d, table[d.campaignId]) else Err(NotInitialized), None)
    case CompareAndSwap(d, expected, replacement) =>
      if replacement.definitionDigest != d.digest || replacement.revision != expected + 1
      then Effect(table, Err(InvalidReplacement), None)
      else
        match Encode(env, replacement)
        case Err(_) => Effect(table, Err(StateTooLarge), None)
        case Ok(payload) =>
          if d.campaignId in table
             && table[d.campaignId].definitionDigest == d.digest && table[d.campaignId].revision == expected
          then Effect(
            table[d.campaignId := table[d.campaignId].(payload := payload, revision := replacement.revision)],
            Ok(replacement), Some(replacement))
          else Effect(table, Err(Changed), None)
  }

  /** The adapter: each method is one immediate transaction on the table. */
  class SqliteCampaignJournal {
    var table: Table
    const env: Env

    constructor (env: Env)
      ensures this.env == env && table == map[]
    {
      this.env := env;
      table := map[];
    }

    method Initialize(d: Definition) returns (r: Result<JournalState, JournalError>)
      modifies this
      ensures Effect(table, r, Apply(env, old(table), Call.Initialize(d)).committed)
              == Apply(env, old(table), Call.Initialize(d))
    {
      if d.campaignId !in table {
        var payload := Encode(env, Initial(d));
        if payload.Err? {
          return Err(StateTooLarge);
        }
        table := table[d.campaignId := Row(d.digest, payload.value, 0)];
        return Ok(Initial(d));
      }
      r := DecodeRow(env, d, table[d.campaignId]);
    }

    method Load(d: Definition) returns (r: Result<JournalState, JournalError>)
      ensures r == Apply(env, table, Call.Load(d)).result
    {
      if d.campaignId !in table {
        return Err(NotInitialized);
      }
      r := DecodeRow(env, d, table[d.campaignId]);
    }

    method CompareAndSwap(d: Definition, expected: int, replacement: JournalState)
      returns (r: Result<JournalState, JournalError>)
      modifies this
      ensures Effect(table, r, Apply(env, old(table), Call.CompareAndSwap(d, expected, replacement)).committed)
              == Apply(env, old(table), Call.CompareAndSwap(d, expected, replacement))
    {
      if replacement.definitionDigest != d.digest || replacement.revision != expected + 1 {
        return Err(InvalidReplacement);
      }
      var payload := Encode(env, replacement);
      if payload.Err? {
        return Err(StateTooLarge);
      }
      if d.campaignId !in table {
        return Err(Changed);
      }
      var row := table[d.campaignId];
      if row.definitionDigest != d.digest || row.revision != expected {
        return Err(Changed);
      }
      table := table[d.campaignId := row.(payload := payload.value, revision := replacement.revision)];
      r := Ok(replacement);
    }
  }

  // ----- what a call meets, on the columns of its row

  /** A row reads back under its own definition, when its payload decodes and carries the row's revision. */
  lemma RowReadsByColumns(env: Env, d: Definition, row: Row)
    ensures DecodeRow(env, d, row).Ok? <==>
      && row.definitionDigest == d.digest && Decode(env, d, row.payload).Ok?
      && Decode(env, d, row.payload).value.revision == row.revision
    ensures DecodeRow(env, d, row).Ok? ==> Ok(DecodeRow(env, d, row).value) == Decode(env, d, row.payload)
    ensures DecodeRow(env, d, row).Err? ==> DecodeRow(env, d, row) == Err(FailedIntegrity)
  {
  }

  ghost predicate Encodes(env: Env, s: JournalState, payload: seq<byte>)
  {
    Encode(env, s) == Ok(payload)
  }

  /** Why a call fails, and the one row that it writes when it commits. */
  lemma CallsByColumns(env: Env, table: Table, call: Call)
    ensures var e := Apply(env, table, call);
            var d := call.definition;
            var state := if call.CompareAndSwap? then call.replacement else JournalState(d.digest, [], 0);
            var invalid := call.CompareAndSwap? && (state.definitionDigest != d.digest || state.revision != call.expected + 1);
            var writes := call.CompareAndSwap? || (call.Initialize? && d.campaignId !in table);
            var changed := call.CompareAndSwap? && (d.campaignId in table ==>
              table[d.campaignId].definitionDigest != d.digest || table[d.campaignId].revision != call.expected);
            && (e.result == Err(InvalidReplacement) <==> invalid)
            && (e.result == Err(StateTooLarge) <==> writes && !invalid && Encode(env, state).Err?)
            && (e.result == Err(Changed) <==> !invalid && Encode(env, state).Ok? && changed)
            && (e.result == Err(NotInitialized) <==> call.Load? && d.campaignId !in table)
            && (e.result == Err(FailedIntegrity) <==>
                  !call.CompareAndSwap? && d.campaignId in table && DecodeRow(env, d, table[d.campaignId]).Err?)
            && (writes && !invalid && !changed ==> forall payload :: Encodes(env, state, payload) ==>
                  e == Effect(table[d.campaignId := Row(d.digest, payload, state.revision)], Ok(state), Some(state)))
            && (e.committed == None ==> e.table == table)
  {
    hide Encode, DecodeRow;
    if !call.CompareAndSwap? && call.definition.campaignId in table {
      RowReadsByColumns(env, call.definition, table[call.definition.campaignId]);
    }
  }

  // ----- every interleaving of clients

  datatype Event = Event(client: nat, call: Call)

  datatype Commit = Commit(client: nat, definition: Definition, state: JournalState)

  function TableAfter(env: Env, run: seq<Event>): (t: Table)
  {
    if run == [] then map[] else Apply(env, TableAfter(env, run[..|run| - 1]), run[|run| - 1].call).table
  }

  function EffectOf(env: Env, run: seq<Event>, k: nat): (e: Effect)
    requires k < |run|
  {
    Apply(env, TableAfter(env, run[..k]), run[k].call)
  }

  /** The committed states of one campaign, oldest first, with the client that committed each. */
  function History(env: Env, run: seq<Event>, campaign: string): (h: seq<Commit>)
  {
    if run == [] then []
    else
      var n := |run| - 1;
      var e := EffectOf(env, run, n);
      History(env, run[..n], campaign) +
      if e.committed.Some? && run[n].call.definition.campaignId == campaign
      then [Commit(run[n].client, run[n].call.definition, e.committed.value)] else []
  }

  ghost predicate Chain(env: Env, h: seq<Commit>, table: Table, campaign: string)
  {
    && (h == [] <==> campaign !in table)
    && (forall i :: 0 <= i < |h| ==>
          && h[i].state.revision == i
          && h[i].definition.campaignId == campaign
          && h[i].definition.digest == h[i].state.definitionDigest == h[0].definition.digest)
    && (h != [] ==>
          && h[0].state == Initial(h[0].definition)
          && Encode(env, h[|h| - 1].state).Ok?
          && table[campaign] == Row(h[0].definition.digest, Encode(env, h[|h| - 1].state).value, |h| - 1))
  }

  /** The committed states form one chain of revisions 0, 1, 2, ... under one digest, and the row holds the last. */
  lemma {:induction false} RevisionsFormOneChain(env: Env, run: seq<Event>, campaign: string)
    ensures Chain(env, History(env, run, campaign), TableAfter(env, run), campaign)
  {
    if run != [] {
      var n := |run| - 1;
      RevisionsFormOneChain(env, run[..n], campaign);
      ApplyExtendsChain(env, History(env, run[..n], campaign), TableAfter(env, run[..n]), campaign, run[n]);
    }
  }

  lemma ApplyExtendsChain(env: Env, h: seq<Commit>, table: Table, campaign: string, event: Event)
    requires Chain(env, h, table, campaign)
    ensures var e := Apply(env, table, event.call);
            Chain(env, h + (if e.committed.Some? && event.call.definition.campaignId == campaign
                            then [Commit(event.client, event.call.definition, e.committed.value)] else []),
                  e.table, campaign)
  {
    hide DecodeRow, Encode;
  }

  /** A call that fails, or only reads, leaves the table as it was; only commits touch a row, and only their own. */
  lemma OnlyCommitsChangeRows(env: Env, table: Table, call: Call)
    ensures var e := Apply(env, table, call);
            && (e.committed.None? ==> e.table == table)
            && (e.committed.Some? ==> e.result == Ok(e.committed.value))
            && (call.CompareAndSwap? ==> (e.result.Ok? <==> e.committed.Some?))
            && (forall c :: c != call.definition.campaignId ==> (c in e.table <==> c in table))
            && (forall c :: c != call.definition.campaignId && c in table ==> e.table[c] == table[c])
  {
  }

  lemma {:induction false} HistoryOnlyGrows(env: Env, run: seq<Event>, k: nat, campaign: string)
    requires k <= |run|
    ensures History(env, run[..k], campaign) <= History(env, run, campaign)
    decreases |run| - k
  {
    if k == |run| {
      assert run[..k] == run;
    } else {
      HistoryOnlyGrows(env, run, k + 1, campaign);
      assert run[..k + 1][..k] == run[..k];
    }
  }

  /** A successful swap appends exactly its own replacement to the history. */
  lemma SwapIsLogged(env: Env, run: seq<Event>, k: nat)
    requires k < |run| && run[k].call.CompareAndSwap? && EffectOf(env, run, k).result.Ok?
    ensures var call := run[k].call;
            var before := History(env, run[..k], call.definition.campaignId);
            && |before| == call.expected + 1
            && History(env, run[..k + 1], call.definition.campaignId)
               == before + [Commit(run[k].client, call.definition, call.replacement)]
  {
    var campaign := run[k].call.definition.campaignId;
    assert run[..k + 1][..k] == run[..k] && run[..k + 1][k] == run[k];
    RevisionsFormOneChain(env, run[..k], campaign);
  }

  /** Later successful swaps start from strictly higher revisions. */
  lemma SuccessfulSwapsClimb(env: Env, run: seq<Event>, i: nat, j: nat)
    requires i < j < |run|
    requires run[i].call.CompareAndSwap? && EffectOf(env, run, i).result.Ok?
    requires run[j].call.CompareAndSwap? && EffectOf(env, run, j).result.Ok?
    requires run[i].call.definition.campaignId == run[j].call.definition.campaignId
    ensures run[i].call.expected < run[j].call.expected
  {
    var campaign := run[i].call.definition.campaignId;
    assert run[..j][..i + 1] == run[..i + 1];
    HistoryOnlyGrows(env, run[..j], i + 1, campaign);
    SwapIsLogged(env, run, i);
    SwapIsLogged(env, run, j);
  }

  /** However clients interleave, a revision is won once: two successful swaps from it are the same swap. */
  lemma EachRevisionIsWonOnce(env: Env, run: seq<Event>, i: nat, j: nat)
    requires i < |run| && j < |run|
    requires run[i].call.CompareAndSwap? && EffectOf(env, run, i).result.Ok?
    requires run[j].call.CompareAndSwap? && EffectOf(env, run, j).result.Ok?
    requires run[i].call.definition.campaignId == run[j].call.definition.campaignId
    requires run[i].call.expected == run[j].call.expected
    ensures i == j
  {
    if i < j {
      SuccessfulSwapsClimb(env, run, i, j);
    } else if j < i {
      SuccessfulSwapsClimb(env, run, j, i);
    }
  }

  /** And every committed revision after the first was won by some successful swap. */
  lemma {:induction false} EachRevisionHasAWinner(env: Env, run: seq<Event>, campaign: string, revision: nat)
    returns (k: nat)
    requires 0 < revision < |History(env, run, campaign)|
    ensures k < |run| && run[k].call.CompareAndSwap? && EffectOf(env, run, k).result.Ok?
    ensures run[k].call.definition.campaignId == campaign && run[k].call.expected == revision - 1
    ensures History(env, run, campaign)[revision]
            == Commit(run[k].client, run[k].call.definition, run[k].call.replacement)
  {
    var n := |run| - 1;
    var before := History(env, run[..n], campaign);
    RevisionsFormOneChain(env, run[..n], campaign);
    if revision < |before| {
      k := EachRevisionHasAWinner(env, run[..n], campaign, revision);
      assert run[..n][..k] == run[..k];
    } else {
      k := n;
    }
  }

  // ----- integrity of what was written

  /** The row last written for a campaign passes the reader's check exactly when its records belong to its definition. */
  lemma WrittenRowReadsBackIffRecordsBelong(env: Env, run: seq<Event>, campaign: string)
    requires Sound(env) && History(env, run, campaign) != []
    ensures var h := History(env, run, campaign);
            var last := h[|h| - 1];
            && campaign in TableAfter(env, run)
            && DecodeRow(env, last.definition, TableAfter(env, run)[campaign])
               == if AllBelong(env, last.definition, last.state.records)
                  then Ok(last.state.(records := RebuiltRecords(env, last.definition, last.state.records)))
                  else Err(FailedIntegrity)
  {
    hide AllBelong, RebuiltRecords, History, TableAfter, Encode;
    RevisionsFormOneChain(env, run, campaign);
    var h := History(env, run, campaign);
    var last := h[|h| - 1];
    StateReadsBackIffBelongs(env, last.definition, last.state, Encode(env, last.state).value);
  }

  // ----- what the calls answer

  /** What a reader of a campaign is told, given the states committed so far: the last one, if it is whole. */
  ghost predicate AnswersLast(env: Env, d: Definition, last: JournalState, r: Result<JournalState, JournalError>)
  {
    var whole := d.digest == last.definitionDigest && forall x :: x in last.records ==> Belongs(env, d, x);
    && (!whole ==> r == Err(FailedIntegrity))
    && (whole ==>
          && r.Ok? && r.value.revision == last.revision && r.value.definitionDigest == last.definitionDigest
          && |r.value.records| == |last.records|
          && forall i :: 0 <= i < |last.records| ==>
               var u := last.records[i].unit;
               env.build(d, u.success, u.slot, u.retry, u.start).Some?
               && r.value.records[i]
                  == last.records[i].(unit := env.build(d, u.success, u.slot, u.retry, u.start).value))
  }

  /**
   * In every run, opening or loading a campaign answers the state committed last with its units rebuilt,
   * or fails exactly when it is not whole under the caller's definition, and commits nothing. A campaign
   * without history cannot be loaded; opening it commits revision 0 without records, unless that is too large.
   */
  lemma ReadersSeeTheLastState(env: Env, run: seq<Event>, k: nat)
    requires Sound(env) && k < |run| && !run[k].call.CompareAndSwap?
    ensures var d, e := run[k].call.definition, EffectOf(env, run, k);
            var h := History(env, run[..k], d.campaignId);
            && (h != [] ==> AnswersLast(env, d, h[|h| - 1].state, e.result) && e.committed.None?)
            && (h == [] && run[k].call.Load? ==> e.result == Err(NotInitialized) && e.committed.None?)
            && (h == [] && run[k].call.Initialize? ==>
                  var first := JournalState(d.digest, [], 0);
                  if |env.text.dumps(StateJson(env, first))| <= 16777216
                  then e.result == Ok(first) && e.committed == Some(first)
                  else e.result == Err(StateTooLarge) && e.committed.None?)
  {
    hide History, TableAfter, DecodeRow, Sound, StateJson;
    var d := run[k].call.definition;
    var h := History(env, run[..k], d.campaignId);
    RevisionsFormOneChain(env, run[..k], d.campaignId);
    if h != [] {
      StoredRowAnswers(env, TableAfter(env, run[..k]), d, h[|h| - 1].state);
    }
  }

  lemma StoredRowAnswers(env: Env, table: Table, d: Definition, last: JournalState)
    requires Sound(env) && last.revision >= 0 && Encode(env, last).Ok? && d.campaignId in table
    requires table[d.campaignId] == Row(last.definitionDigest, Encode(env, last).value, last.revision)
    ensures AnswersLast(env, d, last, DecodeRow(env, d, table[d.campaignId]))
  {
    hide Encode, Decode, Belongs, Sound;
    StateReadsBackIffBelongs(env, d, last, Encode(env, last).value);
    if d.digest == last.definitionDigest && AllBelong(env, d, last.records) {
      RebuiltOneByOne(env, d, last.records);
    }
  }

  lemma RebuiltOneByOne(env: Env, d: Definition, records: seq<Record>)
    requires AllBelong(env, d, records)
    ensures var out := RebuiltRecords(env, d, records);
            |out| == |records| && forall i :: 0 <= i < |records| ==>
              var u := records[i].unit;
              env.build(d, u.success, u.slot, u.retry, u.start).Some?
              && out[i] == records[i].(unit := env.build(d, u.success, u.slot, u.retry, u.start).value)
  {
    forall i | 0 <= i < |records| ensures Belongs(env, d, records[i]) {
      assert records[i] in records;
    }
  }

  /**
   * In every run a swap succeeds if and only if its replacement is one revision on under the caller's
   * definition, fits the size limit, and the campaign's history under that definition ends at the expected
   * revision; the failures are told apart in this order.
   */
  lemma SwapSucceedsIff(env: Env, run: seq<Event>, k: nat)
    requires k < |run| && run[k].call.CompareAndSwap?
    ensures var call, e := run[k].call, EffectOf(env, run, k);
            var d, next := call.definition, call.replacement;
            var h := History(env, run[..k], d.campaignId);
            var valid := next.definitionDigest == d.digest && next.revision == call.expected + 1;
            var fits := |env.text.dumps(StateJson(env, next))| <= 16777216;
            var expected := |h| == call.expected + 1 && h != [] && h[0].definition.digest == d.digest;
            && (valid && fits && expected ==> e.result == Ok(next) && e.committed == Some(next))
            && (!(valid && fits && expected) ==> e.committed.None?)
            && (!valid ==> e.result == Err(InvalidReplacement))
            && (valid && !fits ==> e.result == Err(StateTooLarge))
            && (valid && fits && !expected ==> e.result == Err(Changed))
  {
    hide History, TableAfter, DecodeRow, StateJson;
    RevisionsFormOneChain(env, run[..k], run[k].call.definition.campaignId);
  }

  /** The swap itself never looks: a record of a unit that the definition cannot build is stored and then refused. */
  lemma ForeignRecordIsStoredAndRefused(env: Env, d: Definition, foreign: Record)
    requires Sound(env) && Built(env, d, foreign.unit) == None
    requires Encode(env, Initial(d)).Ok? && Encode(env, JournalState(d.digest, [foreign], 1)).Ok?
    ensures var s := JournalState(d.digest, [foreign], 1);
            var run := [Event(0, Initialize(d)), Event(0, CompareAndSwap(d, 0, s)), Event(0, Load(d))];
            EffectOf(env, run, 1).result == Ok(s) && EffectOf(env, run, 2).result == Err(FailedIntegrity)
  {
    var s := JournalState(d.digest, [foreign], 1);
    var run := [Event(0, Initialize(d)), Event(0, CompareAndSwap(d, 0, s)), Event(0, Load(d))];
    assert run[..0] == [] && run[..1] == [run[0]] && run[..2] == [run[0], run[1]] && [run[0], run[1]][..1] == [run[0]];
    assert TableAfter(env, run[..1]) == map[d.campaignId := Row(d.digest, Encode(env, Initial(d)).value, 0)];
    StateReadsBackIffBelongs(env, d, s, Encode(env, s).value);
    assert foreign in s.records;
  }
}
