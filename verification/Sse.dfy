/**
 The incremental `text/event-stream` parser of the SSE client.

 Text is a sequence of bytes. The functions say what one push computes; the
 class `SseParser` does it on fields updated in place, one line at a time.
 */
module Sse {
  import opened Base

  const NUL: byte := 0
  const LF: byte := 10
  const CR: byte := 13
  const SPACE: byte := 32
  const PLUS: byte := 43
  const COLON: byte := 58
  const BOM: Bytes := [0xEF, 0xBB, 0xBF]
  const EVENT: Bytes := [101, 118, 101, 110, 116]
  const DATA: Bytes := [100, 97, 116, 97]
  const ID: Bytes := [105, 100]
  const RETRY: Bytes := [114, 101, 116, 114, 121]
  const MESSAGE: Bytes := [109, 101, 115, 115, 97, 103, 101]
  const U64_MAX := 0xFFFF_FFFF_FFFF_FFFF

  /** A dispatched event. */
  datatype Event = Event(id: Option<Bytes>, event: Bytes, data: Bytes)

  datatype Output = Dispatched(event: Event) | Retry(millis: nat)

  datatype Parser = Parser(
    buffer: Bytes,
    event: Bytes,
    data: seq<Bytes>,
    id: Option<Bytes>,
    retry: Option<nat>,
    lastId: Option<Bytes>)

  // ---------- Text ----------

  predicate Continues(b: byte) {
    0x80 <= b <= 0xBF
  }

  /** The length of the well-formed UTF-8 sequence that starts `s`, or 0
      (section 4 of RFC 3629). */
  function FirstLength(s: Bytes): (n: nat)
    ensures n <= |s| && n <= 4
  {
    if s == [] then 0
    else if s[0] < 0x80 then 1
    else if |s| >= 2 && 0xC2 <= s[0] <= 0xDF && Continues(s[1]) then 2
    else if |s| >= 3 && Continues(s[1]) && Continues(s[2])
         && ((s[0] == 0xE0 && s[1] >= 0xA0) || 0xE1 <= s[0] <= 0xEC || (s[0] == 0xED && s[1] <= 0x9F) || 0xEE <= s[0] <= 0xEF)
    then 3
    else if |s| >= 4 && Continues(s[1]) && Continues(s[2]) && Continues(s[3])
         && ((s[0] == 0xF0 && s[1] >= 0x90) || 0xF1 <= s[0] <= 0xF3 || (s[0] == 0xF4 && s[1] <= 0x8F))
    then 4
    else 0
  }

  predicate IsUtf8(s: Bytes) {
    s == [] || (FirstLength(s) > 0 && IsUtf8(s[FirstLength(s)..]))
  }

  /** The first position of `b` in `s`, or the length of `s`. */
  function Find(s: Bytes, b: byte): (i: nat)
    ensures i <= |s| && b !in s[..i] && (i < |s| ==> s[i] == b)
  {
    if s == [] || s[0] == b then 0 else 1 + Find(s[1..], b)
  }

  function StripSpace(s: Bytes): Bytes {
    if s != [] && s[0] == SPACE then s[1..] else s
  }

  /** Field name and value of a line; text that is not UTF-8 counts as empty. */
  function SplitField(line: Bytes): (Bytes, Bytes) {
    var text := if IsUtf8(line) then line else [];
    var colon := Find(text, COLON);
    if colon < |text| then (text[..colon], StripSpace(text[colon + 1..])) else (text, [])
  }

  predicate IsDigit(b: byte) {
    48 <= b <= 57
  }

  function Decimal(s: Bytes): nat
    requires forall b :: b in s ==> IsDigit(b)
  {
    if s == [] then 0
    else
      assert IsDigit(s[|s| - 1]);
      10 * Decimal(s[..|s| - 1]) + (s[|s| - 1] as int - 48)
  }

  /** Rust's parse of a `u64`: one optional plus sign, then digits, no overflow. */
  function ParseU64(s: Bytes): Option<nat> {
    var digits := if s != [] && s[0] == PLUS then s[1..] else s;
    if digits != [] && (forall b :: b in digits ==> IsDigit(b)) && Decimal(digits) <= U64_MAX
    then Some(Decimal(digits))
    else None
  }

  function Join(lines: seq<Bytes>): Bytes {
    if lines == [] then []
    else if |lines| == 1 then lines[0]
    else lines[0] + [LF] + Join(lines[1..])
  }

  // ---------- Lines ----------

  predicate IsEnd(b: byte) {
    b == LF || b == CR
  }

  predicate NoEnd(s: Bytes) {
    LF !in s && CR !in s
  }

  /** The end of the first line of `s`, its line ending included. */
  function LineEnd(s: Bytes): (end: Option<nat>)
    ensures end.Some? ==> 0 < end.value <= |s|
    ensures end.None? <==> NoEnd(s)
  {
    if s == [] then None
    else if s[0] == CR && |s| > 1 && s[1] == LF then Some(2)
    else if IsEnd(s[0]) then Some(1)
    else
      assert s == [s[0]] + s[1..];
      match LineEnd(s[1..])
      case None => None
      case Some(end) => Some(end + 1)
  }

  function TrimEnding(line: Bytes): Bytes {
    var n := |line|;
    if n >= 2 && line[n - 2] == CR && line[n - 1] == LF then line[..n - 2]
    else if n >= 1 && IsEnd(line[n - 1]) then line[..n - 1]
    else line
  }

  // ---------- The parser ----------

  function Dispatch(p: Parser): (Parser, Option<Output>) {
    if p.data == [] then (p.(event := [], id := None), None)
    else
      (p.(event := [], data := [], id := None, lastId := if p.id.Some? then p.id else p.lastId),
       Some(Dispatched(Event(p.id, if p.event == [] then MESSAGE else p.event, Join(p.data)))))
  }

  function PushField(p: Parser, field: Bytes, value: Bytes): (Parser, Option<Output>) {
    if field == EVENT then (p.(event := value), None)
    else if field == DATA then (p.(data := p.data + [value]), None)
    else if field == ID && NUL !in value then (p.(id := Some(value)), None)
    else if field == RETRY && ParseU64(value).Some? then
      (p.(retry := ParseU64(value)), Some(Retry(ParseU64(value).value)))
    else (p, None)
  }

  function PushLine(p: Parser, line: Bytes): (Parser, Option<Output>) {
    if line == [] then Dispatch(p)
    else if line[0] == COLON then (p, None)
    else var (field, value) := SplitField(line); PushField(p, field, value)
  }

  function Maybe(item: Option<Output>): seq<Output> {
    if item.Some? then [item.value] else []
  }

  lemma PushLineKeepsBuffer(p: Parser, line: Bytes)
    ensures PushLine(p, line).0.buffer == p.buffer
  {
  }

  /** Takes every complete line out of the buffer. */
  function Drain(p: Parser): (Parser, seq<Output>)
    decreases |p.buffer|
  {
    match LineEnd(p.buffer)
    case None => (p, [])
    case Some(end) =>
      var (q, item) := PushLine(p.(buffer := p.buffer[end..]), TrimEnding(p.buffer[..end]));
      PushLineKeepsBuffer(p.(buffer := p.buffer[end..]), TrimEnding(p.buffer[..end]));
      var (r, items) := Drain(q);
      (r, Maybe(item) + items)
  }

  lemma DrainLine(p: Parser, end: nat)
    requires LineEnd(p.buffer) == Some(end)
    ensures var (q, item) := PushLine(p.(buffer := p.buffer[end..]), TrimEnding(p.buffer[..end]));
            q.buffer == p.buffer[end..] && Drain(p) == (Drain(q).0, Maybe(item) + Drain(q).1)
  {
    hide PushLine, TrimEnding, LineEnd;
    PushLineKeepsBuffer(p.(buffer := p.buffer[end..]), TrimEnding(p.buffer[..end]));
  }

  lemma DrainNothing(p: Parser)
    requires LineEnd(p.buffer) == None
    ensures Drain(p) == (p, [])
  {
  }

  function StripBom(s: Bytes): Bytes {
    if BOM <= s then s[3..] else s
  }

  function Push(p: Parser, chunk: Bytes): (Parser, seq<Output>) {
    Drain(p.(buffer := StripBom(p.buffer + chunk)))
  }

  function PushAll(p: Parser, chunks: seq<Bytes>): (Parser, seq<Output>)
    decreases |chunks|
  {
    if chunks == [] then (p, [])
    else
      var (q, first) := Push(p, chunks[0]);
      var (r, rest) := PushAll(q, chunks[1..]);
      (r, first + rest)
  }

  function Concat(chunks: seq<Bytes>): Bytes {
    if chunks == [] then [] else chunks[0] + Concat(chunks[1..])
  }

  /** The parser as the source has it: fields updated in place. */
  class SseParser {
    var buffer: Bytes
    var event: Bytes
    var data: seq<Bytes>
    var id: Option<Bytes>
    var retry: Option<nat>
    var lastId: Option<Bytes>

    ghost function Value(): Parser
      reads this
    {
      Parser(buffer, event, data, id, retry, lastId)
    }

    constructor (lastId: Option<Bytes>)
      ensures Value() == Parser([], [], [], None, None, lastId)
    {
      buffer, event, data, id, retry := [], [], [], None, None;
      this.lastId := lastId;
    }

    method DispatchEvent() returns (item: Option<Output>)
      modifies this
      ensures (Value(), item) == Dispatch(old(Value()))
    {
      if data == [] {
        event := [];
        id := None;
        return None;
      }
      var name := MESSAGE;
      if event != [] {
        name := event;
        event := [];
      }
      var text := Join(data);
      data := [];
      var taken := id;
      id := None;
      if taken.Some? {
        lastId := taken;
      }
      item := Some(Dispatched(Event(taken, name, text)));
    }

    method TakeLine(line: Bytes) returns (item: Option<Output>)
      modifies this
      ensures (Value(), item) == PushLine(old(Value()), line)
    {
      hide SplitField, ParseU64, Dispatch;
      if line == [] {
        item := DispatchEvent();
        return;
      }
      if line[0] == COLON {
        return None;
      }
      var (field, value) := SplitField(line);
      if field == EVENT {
        event := value;
      } else if field == DATA {
        data := data + [value];
      } else if field == ID && NUL !in value {
        id := Some(value);
      } else if field == RETRY {
        var millis := ParseU64(value);
        if millis.Some? {
          retry := millis;
          return Some(Retry(millis.value));
        }
      }
      item := None;
    }

    method Feed(chunk: Bytes) returns (output: seq<Output>)
      modifies this
      ensures (Value(), output) == Push(old(Value()), chunk)
    {
      hide PushLine, TrimEnding, LineEnd, Drain;
      buffer := buffer + chunk;
      if BOM <= buffer {
        buffer := buffer[3..];
      }
      output := [];
      ghost var start := Value();
      assert Push(old(Value()), chunk) == Drain(start);
      var end := LineEnd(buffer);
      while end.Some?
        invariant end == LineEnd(buffer)
        invariant Drain(start).0 == Drain(Value()).0
        invariant Drain(start).1 == output + Drain(Value()).1
        decreases |buffer|
      {
        DrainLine(Value(), end.value);
        var line := buffer[..end.value];
        buffer := buffer[end.value..];
        var item := TakeLine(TrimEnding(line));
        if item.Some? {
          output := output + [item.value];
        }
        end := LineEnd(buffer);
      }
      DrainNothing(Value());
      assert Drain(start).1 == output + [] == output;
    }
  }
}
