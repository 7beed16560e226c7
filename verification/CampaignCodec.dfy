/** The strict canonical encoding of a campaign's journal state. */
module CampaignCodec {
  import opened Outcomes
  import opened Documents

  const MAX_STATE_BYTES := 16 * 1024 * 1024

  datatype Definition = Definition(campaignId: string, digest: string)

  datatype Batch = Batch(id: string, content: string)

  datatype Unit = Unit(success: int, slot: int, retry: int, start: int, batch: Batch, digest: string)

  datatype Snapshot = Snapshot(definition: Batch, content: string)

  datatype Receipt = Receipt(batchId: string, content: string)

  datatype Phase = Planned | Captured | TerminalFailed | AnalysisFailed | Complete

  datatype Record = Record(
    unit: Unit, phase: Phase, captureInvocations: int, analysisInvocations: int,
    snapshot: Option<Snapshot>, receipt: Option<Receipt>)

  datatype JournalState = JournalState(definitionDigest: string, records: seq<Record>, revision: int)

  /** The parts the journal relies on: JSON text, unit construction and the two nested document codecs. */
  datatype Env = Env(
    text: JsonText,
    build: (Definition, int, int, int, int) -> Option<Unit>,
    writeSnapshot: Snapshot -> Json,
    readSnapshot: Json -> Option<Snapshot>,
    writeReceipt: Receipt -> Json,
    readReceipt: Json -> Option<Receipt>)

  ghost predicate Sound(env: Env)
  {
    && Faithful(env.text)
    && (forall d, a, b, c, t :: env.build(d, a, b, c, t).Some? ==>
          var u := env.build(d, a, b, c, t).value;
          u.success == a && u.slot == b && u.retry == c && u.start == t)
    && (forall s :: env.writeSnapshot(s) != Null && env.readSnapshot(env.writeSnapshot(s)) == Some(s))
    && (forall r :: env.writeReceipt(r) != Null && env.readReceipt(env.writeReceipt(r)) == Some(r))
  }

  datatype CodecError = TooLarge | Malformed

  // ----- encoding

  function PhaseName(p: Phase): (t: string)
  {
    match p
    case Planned => "planned"
    case Captured => "captured"
    case TerminalFailed => "terminal_failed"
    case AnalysisFailed => "analysis_failed"
    case Complete => "complete"
  }

  function ReadPhase(j: Json): (p: Option<Phase>)
  {
    if j == Str("planned") then Some(Planned)
    else if j == Str("captured") then Some(Captured)
    else if j == Str("terminal_failed") then Some(TerminalFailed)
    else if j == Str("analysis_failed") then Some(AnalysisFailed)
    else if j == Str("complete") then Some(Complete)
    else None
  }

  const RECORD_FIELDS := {
    "success_index", "slot_index", "retry_index", "requested_start_utc_ns", "unit_digest", "phase",
    "capture_invocations", "analysis_invocations", "snapshot", "analysis_receipt"}

  const STATE_FIELDS := {"definition_digest", "revision", "records"}

  function RecordJson(env: Env, r: Record): (j: Json)
  {
    Obj(map[
      "success_index" := Int(r.unit.success),
      "slot_index" := Int(r.unit.slot),
      "retry_index" := Int(r.unit.retry),
      "requested_start_utc_ns" := Int(r.unit.start),
      "unit_digest" := Str(r.unit.digest),
      "phase" := Str(PhaseName(r.phase)),
      "capture_invocations" := Int(r.captureInvocations),
      "analysis_invocations" := Int(r.analysisInvocations),
      "snapshot" := SnapshotJson(env, r),
      "analysis_receipt" := ReceiptJson(env, r)])
  }

  function SnapshotJson(env: Env, r: Record): (j: Json)
  {
    if r.snapshot.None? then Null else env.writeSnapshot(r.snapshot.value)
  }

  function ReceiptJson(env: Env, r: Record): (j: Json)
  {
    if r.receipt.None? then Null else env.writeReceipt(r.receipt.value)
  }

  function RecordsJson(env: Env, records: seq<Record>): (items: seq<Json>)
    ensures |items| == |records|
    ensures forall i :: 0 <= i < |records| ==> items[i] == RecordJson(env, records[i])
  {
    if records == [] then [] else [RecordJson(env, records[0])] + RecordsJson(env, records[1..])
  }

  function StateJson(env: Env, s: JournalState): (j: Json)
  {
    Obj(map[
      "definition_digest" := Str(s.definitionDigest),
      "revision" := Int(s.revision),
      "records" := Arr(RecordsJson(env, s.records))])
  }

  function Encode(env: Env, s: JournalState): (r: Result<seq<byte>, CodecError>)
  {
    var payload := env.text.dumps(StateJson(env, s));
    if |payload| > MAX_STATE_BYTES then Err(TooLarge) else Ok(payload)
  }

  // ----- decoding

  function ReadSnapshot(env: Env, j: Json, unit: Unit): (r: Result<Option<Snapshot>, CodecError>)
  {
    if j == Null then Ok(None)
    else
      match env.readSnapshot(j)
      case None => Err(Malformed)
      case Some(s) => if s.definition == unit.batch then Ok(Some(s)) else Err(Malformed)
  }

  function ReadReceipt(env: Env, j: Json, unit: Unit): (r: Result<Option<Receipt>, CodecError>)
  {
    if j == Null then Ok(None)
    else
      match env.readReceipt(j)
      case None => Err(Malformed)
      case Some(s) => if s.batchId == unit.batch.id then Ok(Some(s)) else Err(Malformed)
  }

  function ReadRecord(env: Env, d: Definition, j: Json): (r: Result<Record, CodecError>)
  {
    if !j.Obj? || j.fields.Keys != RECORD_FIELDS then Err(Malformed)
    else
      var f := j.fields;
      if !(f["success_index"].Int? && f["slot_index"].Int? && f["retry_index"].Int?
           && f["requested_start_utc_ns"].Int?
           && f["capture_invocations"].Int? && f["analysis_invocations"].Int?) then Err(Malformed)
      else
        match env.build(d, f["success_index"].n, f["slot_index"].n, f["retry_index"].n, f["requested_start_utc_ns"].n)
        case None => Err(Malformed)
        case Some(unit) =>
          if Str(unit.digest) != f["unit_digest"] then Err(Malformed)
          else
            match (ReadSnapshot(env, f["snapshot"], unit), ReadReceipt(env, f["analysis_receipt"], unit),
                   ReadPhase(f["phase"]))
            case (Ok(snapshot), Ok(receipt), Some(phase)) =>
              Ok(Record(unit, phase, f["capture_invocations"].n, f["analysis_invocations"].n, snapshot, receipt))
            case _ => Err(Malformed)
  }

  function ReadRecords(env: Env, d: Definition, items: seq<Json>): (r: Result<seq<Record>, CodecError>)
    ensures r.Ok? ==> |r.value| == |items| && forall i :: 0 <= i < |items| ==> ReadRecord(env, d, items[i]) == Ok(r.value[i])
    ensures r.Err? ==> r == Err(Malformed) && exists i :: 0 <= i < |items| && ReadRecord(env, d, items[i]).Err?
  {
    if items == [] then Ok([])
    else
      match ReadRecord(env, d, items[0])
      case Err(e) => Err(Malformed)
      case Ok(first) =>
        match ReadRecords(env, d, items[1..])
        case Err(e) => Err(Malformed)
        case Ok(rest) => Ok([first] + rest)
  }

  function Decode(env: Env, d: Definition, payload: seq<byte>): (r: Result<JournalState, CodecError>)
  {
    if |payload| > MAX_STATE_BYTES then Err(Malformed)
    else
      match env.text.loads(payload)
      case None => Err(Malformed)
      case Some(j) =>
        if !j.Obj? || j.fields.Keys != STATE_FIELDS then Err(Malformed)
        else
          var f := j.fields;
          if f["definition_digest"] != Str(d.digest) then Err(Malformed)
          else if !f["revision"].Int? || f["revision"].n < 0 || !f["records"].Arr? then Err(Malformed)
          else
            match ReadRecords(env, d, f["records"].items)
            case Err(e) => Err(Malformed)
            case Ok(records) =>
              var s := JournalState(d.digest, records, f["revision"].n);
              if Encode(env, s) == Ok(payload) then Ok(s) else Err(Malformed)
  }

  /** Whatever is wrong with a payload, it is malformed. */
  lemma UnreadableIsMalformed(env: Env, d: Definition, payload: seq<byte>)
    ensures Decode(env, d, payload).Err? ==> Decode(env, d, payload) == Err(Malformed)
  {
    hide ReadRecords;
  }

  function Behind(records: seq<Record>, rest: Result<seq<Record>, CodecError>): (r: Result<seq<Record>, CodecError>)
  {
    if rest.Err? then Err(Malformed) else Ok(records + rest.value)
  }

  lemma BehindBehind(records: seq<Record>, item: Record, rest: Result<seq<Record>, CodecError>)
    ensures Behind(records, Behind([item], rest)) == Behind(records + [item], rest)
  {
    if rest.Ok? {
      assert records + ([item] + rest.value) == records + [item] + rest.value;
    }
  }

  lemma ReadRecordsUnrolls(env: Env, d: Definition, items: seq<Json>, i: nat)
    requires i < |items|
    ensures var item := ReadRecord(env, d, items[i]);
            ReadRecords(env, d, items[i..]) ==
            if item.Err? then Err(Malformed) else Behind([item.value], ReadRecords(env, d, items[i + 1..]))
  {
    var tail := items[i..];
    assert tail[0] == items[i] && tail[1..] == items[i + 1..];
  }

  /** The decoder's loop over the record documents. */
  method DecodeRecords(env: Env, d: Definition, items: seq<Json>) returns (r: Result<seq<Record>, CodecError>)
    ensures r == ReadRecords(env, d, items)
  {
    var records: seq<Record> := [];
    ghost var all := ReadRecords(env, d, items);
    assert items[0..] == items && Behind([], all) == all by {
      if all.Ok? {
        assert [] + all.value == all.value;
      }
    }
    for i := 0 to |items|
      invariant all == Behind(records, ReadRecords(env, d, items[i..]))
    {
      ReadRecordsUnrolls(env, d, items, i);
      var item := ReadRecord(env, d, items[i]);
      if item.Err? {
        return Err(Malformed);
      }
      BehindBehind(records, item.value, ReadRecords(env, d, items[i + 1..]));
      records := records + [item.value];
    }
    assert items[|items|..] == [] && records + [] == records;
    r := Ok(records);
  }

  // ----- which states read back

  function Built(env: Env, d: Definition, u: Unit): (b: Option<Unit>)
  {
    env.build(d, u.success, u.slot, u.retry, u.start)
  }

  /** The record is about the unit that the definition prescribes for its indices. */
  predicate Belongs(env: Env, d: Definition, r: Record)
  {
    var b := Built(env, d, r.unit);
    && b.Some?
    && b.value.digest == r.unit.digest
    && (r.snapshot.Some? ==> r.snapshot.value.definition == b.value.batch)
    && (r.receipt.Some? ==> r.receipt.value.batchId == b.value.batch.id)
  }

  predicate AllBelong(env: Env, d: Definition, records: seq<Record>)
  {
    forall r :: r in records ==> Belongs(env, d, r)
  }

  predicate StateBelongs(env: Env, d: Definition, s: JournalState)
  {
    s.definitionDigest == d.digest && s.revision >= 0 && AllBelong(env, d, s.records)
  }

  function RebuiltRecords(env: Env, d: Definition, records: seq<Record>): (out: seq<Record>)
    requires AllBelong(env, d, records)
    ensures |out| == |records|
    ensures forall i :: 0 <= i < |records| ==>
      Belongs(env, d, records[i]) && out[i] == records[i].(unit := Built(env, d, records[i].unit).value)
  {
    if records == [] then []
    else
      assert Belongs(env, d, records[0]);
      [records[0].(unit := Built(env, d, records[0].unit).value)] + RebuiltRecords(env, d, records[1..])
  }

  lemma RecordReadsBackIffBelongs(env: Env, d: Definition, r: Record)
    requires Sound(env)
    ensures ReadRecord(env, d, RecordJson(env, r))
            == if Belongs(env, d, r) then Ok(r.(unit := Built(env, d, r.unit).value)) else Err(Malformed)
  {
    hide RecordJson, ReadPhase, Sound, ReadSnapshot, ReadReceipt, SnapshotJson, ReceiptJson;
    RecordJsonFields(env, r);
    PartsReadBack(env, r);
    var b := Built(env, d, r.unit);
    assert b.Some? ==> SnapshotReadsBack(env, r, b.value) && ReceiptReadsBack(env, r, b.value);
  }

  lemma RecordJsonFields(env: Env, r: Record)
    ensures var j := RecordJson(env, r);
            && j.Obj? && j.fields.Keys == RECORD_FIELDS
            && j.fields["success_index"] == Int(r.unit.success) && j.fields["slot_index"] == Int(r.unit.slot)
            && j.fields["retry_index"] == Int(r.unit.retry) && j.fields["requested_start_utc_ns"] == Int(r.unit.start)
            && j.fields["capture_invocations"] == Int(r.captureInvocations)
            && j.fields["analysis_invocations"] == Int(r.analysisInvocations)
            && j.fields["unit_digest"] == Str(r.unit.digest)
            && j.fields["phase"] == Str(PhaseName(r.phase))
            && j.fields["snapshot"] == SnapshotJson(env, r) && j.fields["analysis_receipt"] == ReceiptJson(env, r)
  {
  }

  /** Where a stored payload holds which part of the state, and how large it may be. */
  lemma StatePayloadByFields(env: Env, s: JournalState)
    requires Faithful(env.text)
    ensures Encode(env, s).Ok? <==> |env.text.dumps(StateJson(env, s))| <= 16_777_216
    ensures Encode(env, s).Err? ==> Encode(env, s) == Err(TooLarge)
    ensures Encode(env, s).Ok? ==>
      var j := env.text.loads(Encode(env, s).value);
      && j.Some? && j.value.Obj? && j.value.fields.Keys == {"definition_digest", "records", "revision"}
      && j.value.fields["definition_digest"] == Str(s.definitionDigest)
      && j.value.fields["revision"] == Int(s.revision)
      && j.value.fields["records"].Arr? && |j.value.fields["records"].items| == |s.records|
  {
    assert env.text.loads(env.text.dumps(StateJson(env, s))) == Some(StateJson(env, s));
    assert StateJson(env, s).fields.Keys == STATE_FIELDS;
  }

  lemma PhasesByName(p: Phase)
    ensures PhaseName(p) in {"planned", "captured", "terminal_failed", "analysis_failed", "complete"}
    ensures PhaseName(p) == "planned" <==> p.Planned?
    ensures PhaseName(p) == "captured" <==> p.Captured?
    ensures PhaseName(p) == "terminal_failed" <==> p.TerminalFailed?
    ensures PhaseName(p) == "analysis_failed" <==> p.AnalysisFailed?
    ensures PhaseName(p) == "complete" <==> p.Complete?
  {
  }

  predicate SnapshotReadsBack(env: Env, r: Record, u: Unit)
  {
    ReadSnapshot(env, SnapshotJson(env, r), u)
    == if r.snapshot.Some? && r.snapshot.value.definition != u.batch then Err(Malformed) else Ok(r.snapshot)
  }

  predicate ReceiptReadsBack(env: Env, r: Record, u: Unit)
  {
    ReadReceipt(env, ReceiptJson(env, r), u)
    == if r.receipt.Some? && r.receipt.value.batchId != u.batch.id then Err(Malformed) else Ok(r.receipt)
  }

  /** A phase reads back; a snapshot or receipt does exactly when it is about the unit. */
  lemma PartsReadBack(env: Env, r: Record)
    requires Sound(env)
    ensures ReadPhase(Str(PhaseName(r.phase))) == Some(r.phase)
    ensures forall u: Unit :: SnapshotReadsBack(env, r, u) && ReceiptReadsBack(env, r, u)
  {
  }

  /**
   * A written state passes the reader's check exactly when every record belongs to the definition,
   * and then it reads back with its units rebuilt.
   */
  lemma StateReadsBackIffBelongs(env: Env, d: Definition, s: JournalState, payload: seq<byte>)
    requires Sound(env) && Encode(env, s) == Ok(payload)
    ensures Decode(env, d, payload)
            == if StateBelongs(env, d, s) then Ok(s.(records := RebuiltRecords(env, d, s.records))) else Err(Malformed)
  {
    var j := StateJson(env, s);
    assert env.text.loads(env.text.dumps(j)) == Some(j);
    assert j.fields.Keys == STATE_FIELDS;
    assert j.fields["definition_digest"] == Str(s.definitionDigest) && j.fields["revision"] == Int(s.revision);
    assert j.fields["records"] == Arr(RecordsJson(env, s.records));
    RecordsReadBackIffBelong(env, d, s.records);
    if AllBelong(env, d, s.records) {
      RebuildingKeepsText(env, d, s);
    }
  }

  lemma RecordsReadBackIffBelong(env: Env, d: Definition, records: seq<Record>)
    requires Sound(env)
    ensures ReadRecords(env, d, RecordsJson(env, records))
            == if AllBelong(env, d, records) then Ok(RebuiltRecords(env, d, records)) else Err(Malformed)
  {
    hide ReadRecord, RecordJson, Sound, Built;
    var items := RecordsJson(env, records);
    forall i | 0 <= i < |records| ensures ReadRecord(env, d, items[i]) ==
      if Belongs(env, d, records[i]) then Ok(records[i].(unit := Built(env, d, records[i].unit).value)) else Err(Malformed)
    {
      RecordReadsBackIffBelongs(env, d, records[i]);
    }
    if AllBelong(env, d, records) {
      assert forall i :: 0 <= i < |items| ==> Belongs(env, d, records[i]) && ReadRecord(env, d, items[i]).Ok?;
      assert ReadRecords(env, d, items).value == RebuiltRecords(env, d, records);
    } else {
      var r :| r in records && !Belongs(env, d, r);
      var i :| 0 <= i < |records| && records[i] == r;
      assert ReadRecord(env, d, items[i]).Err?;
    }
  }

  lemma RebuildingKeepsText(env: Env, d: Definition, s: JournalState)
    requires Sound(env) && AllBelong(env, d, s.records)
    ensures StateJson(env, s.(records := RebuiltRecords(env, d, s.records))) == StateJson(env, s)
  {
    var rebuilt := RebuiltRecords(env, d, s.records);
    forall i | 0 <= i < |s.records| ensures RecordJson(env, rebuilt[i]) == RecordJson(env, s.records[i]) {
      assert Belongs(env, d, s.records[i]);
    }
    assert RecordsJson(env, rebuilt) == RecordsJson(env, s.records);
  }

  /** Only canonical payloads are accepted: what decodes encodes back to the same bytes, under the reader's definition. */
  lemma AcceptedPayloadsAreCanonical(env: Env, d: Definition, payload: seq<byte>)
    requires Sound(env) && Decode(env, d, payload).Ok?
    ensures var s := Decode(env, d, payload).value;
            && Encode(env, s) == Ok(payload)
            && StateBelongs(env, d, s)
            && forall r :: r in s.records ==> Built(env, d, r.unit) == Some(r.unit)
  {
    var s := Decode(env, d, payload).value;
    StateReadsBackIffBelongs(env, d, s, payload);
    forall r | r in s.records ensures Built(env, d, r.unit) == Some(r.unit) {
      var i :| 0 <= i < |s.records| && s.records[i] == r;
      assert Belongs(env, d, s.records[i]);
    }
  }
}
