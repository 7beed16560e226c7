/** URL-safe base64 without padding (section 5 of RFC 4648), as cursors carry it. */
module Base64Url {
  import opened Outcomes
  import opened Documents

  function Digit(v: int): (c: char)
    requires 0 <= v < 64
  {
    if v < 26 then 'A' + v as char
    else if v < 52 then 'a' + (v - 26) as char
    else if v < 62 then '0' + (v - 52) as char
    else if v == 62 then '-' else '_'
  }

  /** The decoder maps '-' and '_' onto '+' and '/', so it reads either spelling. */
  function Value(c: char): (v: Option<int>)
    ensures v.Some? ==> 0 <= v.value < 64
  {
    if 'A' <= c <= 'Z' then Some(c as int - 'A' as int)
    else if 'a' <= c <= 'z' then Some(c as int - 'a' as int + 26)
    else if '0' <= c <= '9' then Some(c as int - '0' as int + 52)
    else if c == '-' || c == '+' then Some(62)
    else if c == '_' || c == '/' then Some(63)
    else None
  }

  lemma DigitsReadBack(v: int)
    requires 0 <= v < 64
    ensures Value(Digit(v)) == Some(v) && Digit(v) != '='
  {
  }

  function Encode(data: seq<byte>): (text: string)
    ensures |text| % 4 == 0
  {
    if |data| == 0 then ""
    else if |data| == 1 then OneByteGroup(data[0])
    else if |data| == 2 then TwoByteGroup(data[0], data[1])
    else FullGroup(data[0], data[1], data[2]) + Encode(data[3..])
  }

  function OneByteGroup(x: byte): (g: string)
    ensures |g| == 4
  {
    [Digit(x / 4), Digit(x % 4 * 16), '=', '=']
  }

  function TwoByteGroup(x: byte, y: byte): (g: string)
    ensures |g| == 4
  {
    [Digit(x / 4), Digit(x % 4 * 16 + y / 16), Digit(y % 16 * 4), '=']
  }

  function FullGroup(x: byte, y: byte, z: byte): (g: string)
    ensures |g| == 4
  {
    [Digit(x / 4), Digit(x % 4 * 16 + y / 16), Digit(y % 16 * 4 + z / 64), Digit(z % 64)]
  }

  /** The bytes of one four-character group; padding is legal only where `last` allows it. */
  function DecodeGroup(g: string, last: bool): (r: Option<seq<byte>>)
    requires |g| == 4
  {
    match (Value(g[0]), Value(g[1]), Value(g[2]), Value(g[3])) {
      case (Some(a), Some(b), Some(c), Some(d)) => Some([a * 4 + b / 16, b % 16 * 16 + c / 4, c % 4 * 64 + d])
      case (Some(a), Some(b), Some(c), None) =>
        if last && g[3] == '=' then Some([a * 4 + b / 16, b % 16 * 16 + c / 4]) else None
      case (Some(a), Some(b), None, None) =>
        if last && g[2] == '=' && g[3] == '=' then Some([a * 4 + b / 16]) else None
      case _ => None
    }
  }

  function Decode(text: string): (r: Option<seq<byte>>)
  {
    if |text| == 0 then Some([])
    else if |text| < 4 then None
    else
      match DecodeGroup(text[..4], |text| == 4) {
        case None => None
        case Some(head) =>
          match Decode(text[4..]) {
            case None => None
            case Some(rest) => Some(head + rest)
          }
      }
  }

  lemma OneByteReadsBack(x: byte)
    ensures Decode(Encode([x])) == Some([x])
  {
    DigitsReadBack(x / 4);
    DigitsReadBack(x % 4 * 16);
    var t := Encode([x]);
    assert t[..4] == t && t[4..] == "" && [x] + [] == [x];
    assert DecodeGroup(t, true) == Some([x]);
  }

  lemma TwoBytesReadBack(x: byte, y: byte)
    ensures Decode(Encode([x, y])) == Some([x, y])
  {
    var a, b, c := x / 4, x % 4 * 16 + y / 16, y % 16 * 4;
    DigitsReadBack(a);
    DigitsReadBack(b);
    DigitsReadBack(c);
    SextetsRecombine(x, y, 0);
    var t := Encode([x, y]);
    assert t[..4] == t && t[4..] == "" && [x, y] + [] == [x, y];
    assert DecodeGroup(t, true) == Some([a * 4 + b / 16, b % 16 * 16 + c / 4]);
  }

  lemma {:induction false} DecodeInvertsEncode(data: seq<byte>)
    ensures Decode(Encode(data)) == Some(data)
  {
    if |data| == 1 {
      OneByteReadsBack(data[0]);
      assert data == [data[0]];
    } else if |data| == 2 {
      TwoBytesReadBack(data[0], data[1]);
      assert data == [data[0], data[1]];
    } else if |data| >= 3 {
      var x, y, z, rest := data[0], data[1], data[2], Encode(data[3..]);
      DecodeInvertsEncode(data[3..]);
      FullGroupReadsBack(x, y, z, rest == "");
      DecodeStep(FullGroup(x, y, z), rest, [x, y, z], data[3..]);
      assert data == [x, y, z] + data[3..];
    }
  }

  lemma SextetsRecombine(x: byte, y: byte, z: byte)
    ensures var a, b, c, d := x / 4, x % 4 * 16 + y / 16, y % 16 * 4 + z / 64, z % 64;
            a * 4 + b / 16 == x && b % 16 * 16 + c / 4 == y && c % 4 * 64 + d == z
  {
    assert (x % 4 * 16 + y / 16) / 16 == x % 4 && (x % 4 * 16 + y / 16) % 16 == y / 16;
    assert (y % 16 * 4 + z / 64) / 4 == y % 16 && (y % 16 * 4 + z / 64) % 4 == z / 64;
  }

  lemma DecodeStep(g: string, rest: string, head: seq<byte>, tail: seq<byte>)
    requires |g| == 4 && DecodeGroup(g, rest == "") == Some(head) && Decode(rest) == Some(tail)
    ensures Decode(g + rest) == Some(head + tail)
  {
    assert (g + rest)[..4] == g && (g + rest)[4..] == rest;
  }

  lemma FullGroupReadsBack(x: byte, y: byte, z: byte, last: bool)
    ensures DecodeGroup(FullGroup(x, y, z), last) == Some([x, y, z])
  {
    var a, b, c, d := x / 4, x % 4 * 16 + y / 16, y % 16 * 4 + z / 64, z % 64;
    SextetsRecombine(x, y, z);
    DigitsReadBack(a);
    DigitsReadBack(b);
    DigitsReadBack(c);
    DigitsReadBack(d);
    assert DecodeGroup(FullGroup(x, y, z), last) == Some([a * 4 + b / 16, b % 16 * 16 + c / 4, c % 4 * 64 + d]);
  }

  // ----- the alphabet and the radix

  /** Letters, small letters, figures and two signs; the decoder also reads the two of the other alphabet. */
  lemma DigitsAreTheAlphabet(v: int, c: char)
    requires 0 <= v < 64
    ensures Digit(0) == 'A' && Digit(26) == 'a' && Digit(52) == '0' && Digit(62) == '-' && Digit(63) == '_'
    ensures v + 1 < 62 && v !in {25, 51} ==> Digit(v + 1) as int == Digit(v) as int + 1
    ensures Value(c) == Some(v) <==> c == Digit(v) || (v == 62 && c == '+') || (v == 63 && c == '/')
  {
  }

  /** The number that a group of four digits spells. */
  function Spelt(g: string): (n: Option<int>)
    requires |g| == 4
  {
    match (Value(g[0]), Value(g[1]), Value(g[2]), Value(g[3]))
    case (Some(a), Some(b), Some(c), Some(d)) => Some(((a * 64 + b) * 64 + c) * 64 + d)
    case _ => None
  }

  function Number(x: int, y: int, z: int): (n: int)
  {
    (x * 256 + y) * 256 + z
  }

  /** Three bytes and the four digits that stand for them spell the same number. */
  lemma {:induction false} GroupsSpellTheirBytes(data: seq<byte>, k: nat)
    requires 3 * k + 3 <= |data|
    ensures |Encode(data)| >= 4 * k + 4
    ensures Spelt(Encode(data)[4 * k..4 * k + 4]) == Some(Number(data[3 * k], data[3 * k + 1], data[3 * k + 2]))
  {
    hide Spelt, Number, FullGroup;
    var head, rest := FullGroup(data[0], data[1], data[2]), Encode(data[3..]);
    if k == 0 {
      FullGroupSpells(data[0], data[1], data[2]);
      assert (head + rest)[..4] == head;
    } else {
      GroupsSpellTheirBytes(data[3..], k - 1);
      assert (head + rest)[4 * k..4 * k + 4] == rest[4 * (k - 1)..4 * (k - 1) + 4];
    }
  }

  lemma FullGroupSpells(x: byte, y: byte, z: byte)
    ensures Spelt(FullGroup(x, y, z)) == Some(Number(x, y, z))
  {
    var a, b, c, d := x / 4, x % 4 * 16 + y / 16, y % 16 * 4 + z / 64, z % 64;
    DigitsReadBack(a);
    DigitsReadBack(b);
    DigitsReadBack(c);
    DigitsReadBack(d);
  }

  /** One or two bytes at the end are spelt with zeros behind them, and a sign for each byte that is missing. */
  lemma ShortGroupsAreFilled(x: byte, y: byte)
    ensures Encode([x])[2..] == "==" && Spelt(Encode([x])[..2] + "AA") == Some(Number(x, 0, 0))
    ensures Encode([x, y])[3..] == "=" && Spelt(Encode([x, y])[..3] + "A") == Some(Number(x, y, 0))
  {
    DigitsReadBack(x / 4);
    DigitsReadBack(x % 4 * 16);
    DigitsReadBack(x % 4 * 16 + y / 16);
    DigitsReadBack(y % 16 * 4);
  }

  /** Behind whole groups of three bytes encoding starts afresh. */
  lemma {:induction false} WholeGroupsEncodeApart(lead: seq<byte>, tail: seq<byte>, n: nat)
    requires |lead| == 3 * n
    ensures Encode(lead + tail) == Encode(lead) + Encode(tail)
  {
    hide FullGroup;
    if n == 0 {
      assert lead + tail == tail;
    } else {
      WholeGroupsEncodeApart(lead[3..], tail, n - 1);
      assert (lead + tail)[3..] == lead[3..] + tail;
    }
  }

  /** Digits and, behind them, `p` padding signs. */
  predicate WellSpelt(text: string, p: nat)
  {
    && p <= |text|
    && (forall i :: 0 <= i < |text| - p ==> Value(text[i]).Some?)
    && (forall i :: |text| - p <= i < |text| ==> text[i] == '=')
  }

  lemma GroupsDecodeIff(g: string)
    requires |g| == 4
    ensures DecodeGroup(g, false).Some? <==> WellSpelt(g, 0)
    ensures DecodeGroup(g, true).Some? <==> WellSpelt(g, 0) || WellSpelt(g, 1) || WellSpelt(g, 2)
  {
    assert Value('=').None?;
  }

  lemma WellSpeltBehind(g: string, rest: string, p: nat)
    requires |g| == 4 && |rest| >= 4 && p <= 2
    ensures WellSpelt(g + rest, p) <==> WellSpelt(g, 0) && WellSpelt(rest, p)
  {
    hide Value;
    var t := g + rest;
    assert forall i :: 0 <= i < |rest| ==> t[i + 4] == rest[i];
    if WellSpelt(t, p) {
      forall i | 0 <= i < 4 ensures Value(g[i]).Some? {
        assert t[i] == g[i];
      }
      forall i | 0 <= i < |rest| ensures if i < |rest| - p then Value(rest[i]).Some? else rest[i] == '=' {
        assert t[i + 4] == rest[i];
      }
    }
  }

  /** A text decodes when it is groups of four digits, the last with two padding signs at most. */
  lemma {:induction false} DecodesIffWellSpelt(text: string)
    ensures Decode(text).Some?
            <==> |text| % 4 == 0 && (WellSpelt(text, 0) || WellSpelt(text, 1) || WellSpelt(text, 2))
  {
    hide DecodeGroup, WellSpelt;
    if |text| == 0 {
      assert WellSpelt(text, 0) by { NothingIsWellSpelt(); }
    } else if |text| >= 4 {
      var g, rest := text[..4], text[4..];
      assert text == g + rest;
      GroupsDecodeIff(g);
      DecodesIffWellSpelt(rest);
      if rest == "" {
        assert text == g;
      } else if |rest| >= 4 {
        WellSpeltBehind(g, rest, 0);
        WellSpeltBehind(g, rest, 1);
        WellSpeltBehind(g, rest, 2);
      }
    }
  }

  lemma NothingIsWellSpelt()
    ensures WellSpelt("", 0)
  {
  }

  function Strip(text: string): (r: string)
  {
    if text != "" && text[|text| - 1] == '=' then Strip(text[..|text| - 1]) else text
  }

  function Padding(n: nat): (t: string)
  {
    seq(n, _ => '=')
  }

  function Pad(text: string): (r: string)
  {
    text + Padding((4 - |text| % 4) % 4)
  }

  lemma {:induction false} EncodingEnds(data: seq<byte>)
    ensures data != [] ==>
      var t := Encode(data);
      && |t| >= 4
      && t[|t| - 3] != '='
      && (t[|t| - 2] == '=' ==> t[|t| - 1] == '=')
  {
    if |data| > 3 {
      EncodingEnds(data[3..]);
    } else if |data| == 3 {
      DigitsReadBack(data[2] % 64);
      DigitsReadBack(data[1] % 16 * 4 + data[2] / 64);
      DigitsReadBack(data[0] % 4 * 16 + data[1] / 16);
    } else if |data| == 2 {
      DigitsReadBack(data[1] % 16 * 4);
      DigitsReadBack(data[0] % 4 * 16 + data[1] / 16);
    } else if |data| == 1 {
      DigitsReadBack(data[0] % 4 * 16);
    }
  }

  lemma {:induction false} StripDropsPadding(body: string, n: nat)
    requires body != "" && body[|body| - 1] != '='
    ensures Strip(body + Padding(n)) == body
  {
    var t := body + Padding(n);
    if n == 0 {
      assert t == body;
    } else {
      assert t[..|t| - 1] == body + Padding(n - 1);
      StripDropsPadding(body, n - 1);
    }
  }

  /** Dropping the padding loses nothing: the length alone restores it. */
  lemma PaddingIsRecoverable(data: seq<byte>)
    ensures Pad(Strip(Encode(data))) == Encode(data)
  {
    hide Encode, Strip, Pad, Padding;
    NothingToPad();
    var t := Encode(data);
    if data != [] {
      EncodingEnds(data);
      var n := if t[|t| - 2] == '=' then 2 else if t[|t| - 1] == '=' then 1 else 0;
      var body := t[..|t| - n];
      PadLength(|t|, n);
      StripDropsPadding(body, n);
      PaddedBody(t, n);
      PadRestores(body, n);
    }
  }

  lemma NothingToPad()
    ensures Pad(Strip(Encode([]))) == Encode([])
  {
  }

  lemma PadRestores(body: string, n: nat)
    requires (4 - |body| % 4) % 4 == n
    ensures Pad(body) == body + Padding(n)
  {
  }

  lemma PaddedBody(t: string, n: nat)
    requires n <= |t| && forall i :: |t| - n <= i < |t| ==> t[i] == '='
    ensures t == t[..|t| - n] + Padding(n)
  {
  }

  lemma PadLength(m: nat, n: nat)
    requires m % 4 == 0 && n <= 2 && n <= m
    ensures (4 - (m - n) % 4) % 4 == n
  {
    assert m == 4 * (m / 4);
    assert (m - n) % 4 == (4 - n) % 4;
  }

  lemma StrippedTextReadsBack(data: seq<byte>)
    ensures Decode(Pad(Strip(Encode(data)))) == Some(data)
  {
    PaddingIsRecoverable(data);
    DecodeInvertsEncode(data);
  }
}

/** The opaque page cursor: a JSON document bound to one kind of listing and one query. */
module Cursor {
  import opened Outcomes
  import opened Documents
  import opened Base64Url

  const VERSION := 1
  const FIELDS := {"v", "kind", "query", "anchor", "after"}

  /** Listings by time carry `[start, id]`; the feature listing carries the identifier alone. */
  datatype After = Pair(start: int, id: string) | Single(id: string)

  datatype Position = Position(anchor: int, after: After)

  datatype CursorError = InvalidCursor

  function AfterJson(after: After): (j: Json)
  {
    match after
    case Pair(start, id) => Arr([Int(start), Str(id)])
    case Single(id) => Str(id)
  }

  function ReadAfter(j: Json, pair: bool): (r: Option<After>)
  {
    if pair then
      if j.Arr? && |j.items| == 2 && j.items[0].Int? && j.items[1].Str?
      then Some(Pair(j.items[0].n, j.items[1].s)) else None
    else if j.Str? then Some(Single(j.s)) else None
  }

  function Document(kind: string, query: string, p: Position): (j: Json)
  {
    Obj(map[
      "v" := Int(VERSION), "kind" := Str(kind), "query" := Str(query),
      "anchor" := Int(p.anchor), "after" := AfterJson(p.after)])
  }

  function Issue(text: JsonText, kind: string, query: string, p: Position): (cursor: string)
  {
    Strip(Encode(text.dumps(Document(kind, query, p))))
  }

  function ReadDocument(j: Json, kind: string, query: string, pair: bool): (r: Result<Position, CursorError>)
  {
    if !j.Obj? || j.fields.Keys != FIELDS then Err(InvalidCursor)
    else
      var f := j.fields;
      // Python's `!=` identifies true with 1.
      if f["v"] != Int(VERSION) && f["v"] != Bool(true) then Err(InvalidCursor)
      else if f["kind"] != Str(kind) || f["query"] != Str(query) then Err(InvalidCursor)
      else if !f["anchor"].Int? then Err(InvalidCursor)
      else
        match ReadAfter(f["after"], pair)
        case None => Err(InvalidCursor)
        case Some(after) => Ok(Position(f["anchor"].n, after))
  }

  function Accept(text: JsonText, cursor: string, kind: string, query: string, pair: bool)
    : (r: Result<Position, CursorError>)
  {
    match Decode(Pad(cursor))
    case None => Err(InvalidCursor)
    case Some(data) =>
      match text.loads(data)
      case None => Err(InvalidCursor)
      case Some(j) => ReadDocument(j, kind, query, pair)
  }

  lemma DocumentsAreBound(kind: string, query: string, p: Position, kind': string, query': string, pair: bool)
    ensures ReadDocument(Document(kind, query, p), kind', query', pair)
            == if kind' == kind && query' == query && pair == p.after.Pair? then Ok(p) else Err(InvalidCursor)
  {
    var f := Document(kind, query, p).fields;
    assert f.Keys == FIELDS;
    assert f["kind"] == Str(kind) && f["query"] == Str(query) && f["v"] == Int(VERSION);
    assert f["anchor"] == Int(p.anchor) && f["after"] == AfterJson(p.after);
    assert ReadAfter(AfterJson(p.after), pair) == if pair == p.after.Pair? then Some(p.after) else None;
  }

  /** A document is accepted exactly when it has the five fields, for this listing, and a key of its shape. */
  lemma AcceptedByFields(j: Json, kind: string, query: string, pair: bool, p: Position)
    ensures ReadDocument(j, kind, query, pair) == Ok(p) <==>
      && j.Obj? && j.fields.Keys == {"after", "anchor", "kind", "query", "v"}
      && (j.fields["v"] == Int(1) || j.fields["v"] == Bool(true))
      && j.fields["kind"] == Str(kind) && j.fields["query"] == Str(query) && j.fields["anchor"] == Int(p.anchor)
      && (pair ==> p.after.Pair? && j.fields["after"] == Arr([Int(p.after.start), Str(p.after.id)]))
      && (!pair ==> p.after.Single? && j.fields["after"] == Str(p.after.id))
  {
    assert FIELDS == {"after", "anchor", "kind", "query", "v"};
  }

  /** An issued cursor is accepted exactly for its own kind, query and shape, and then yields what was issued. */
  lemma IssuedCursorsAreBound(text: JsonText, kind: string, query: string, p: Position,
                              kind': string, query': string, pair: bool)
    requires Faithful(text)
    ensures Accept(text, Issue(text, kind, query, p), kind', query', pair)
            == if kind' == kind && query' == query && pair == p.after.Pair? then Ok(p) else Err(InvalidCursor)
  {
    hide Document, ReadDocument, Strip, Encode, Decode, Pad;
    var doc := Document(kind, query, p);
    StrippedTextReadsBack(text.dumps(doc));
    assert text.loads(text.dumps(doc)) == Some(doc);
    DocumentsAreBound(kind, query, p, kind', query', pair);
  }
}
