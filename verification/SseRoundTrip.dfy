/** Encoded events come back, however the encoding is cut into chunks. */
module SseRoundTrip {
  import opened Base
  import opened Sse
  import opened SseLaws
  import opened SseLines
  import opened SseText
  import opened SseChunks

  // ---------- The encoder, a specification ----------

  function SplitLines(s: Bytes): seq<Bytes>
    decreases |s|
  {
    var i := Find(s, LF);
    if i == |s| then [s] else [s[..i]] + SplitLines(s[i + 1..])
  }

  function FieldText(name: Bytes, value: Bytes): Bytes {
    name + [COLON, SPACE] + value + [LF]
  }

  function DataText(lines: seq<Bytes>): Bytes {
    if lines == [] then [] else FieldText(DATA, lines[0]) + DataText(lines[1..])
  }

  function IdText(id: Option<Bytes>): Bytes {
    if id.Some? then FieldText(ID, id.value) else []
  }

  function Encode(e: Event): Bytes {
    FieldText(EVENT, e.event) + IdText(e.id) + DataText(SplitLines(e.data)) + [LF]
  }

  function EncodeAll(events: seq<Event>): Bytes {
    if events == [] then [] else Encode(events[0]) + EncodeAll(events[1..])
  }

  predicate Encodable(e: Event) {
    && e.event != [] && NoEnd(e.event) && IsUtf8(e.event)
    && CR !in e.data && IsUtf8(e.data)
    && (e.id.Some? ==> NoEnd(e.id.value) && NUL !in e.id.value && IsUtf8(e.id.value))
  }

  /** The id of the last event that carried one. */
  function LastId(start: Option<Bytes>, events: seq<Event>): Option<Bytes>
    decreases |events|
  {
    if events == [] then start
    else LastId(if events[0].id.Some? then events[0].id else start, events[1..])
  }

  function Outputs(events: seq<Event>): seq<Output> {
    if events == [] then [] else [Dispatched(events[0])] + Outputs(events[1..])
  }

  // ---------- Lines of text ----------

  /** UTF-8 text cut at a line feed is UTF-8 on both sides. */
  lemma {:induction false} CutUtf8(a: Bytes, b: Bytes)
    requires IsUtf8(a + [LF] + b)
    ensures IsUtf8(a) && IsUtf8(b)
    decreases |a|
  {
    var s := a + [LF] + b;
    if a == [] {
      assert s[1..] == b;
    } else {
      var n := FirstLength(s);
      FirstLengthLocal(a, b);
      assert s[n..] == a[n..] + [LF] + b;
      CutUtf8(a[n..], b);
    }
  }

  /** A multi-byte sequence does not reach across a line feed. */
  lemma FirstLengthLocal(a: Bytes, b: Bytes)
    requires a != [] && FirstLength(a + [LF] + b) > 0
    ensures FirstLength(a + [LF] + b) == FirstLength(a)
  {
    var s := a + [LF] + b;
    assert s[|a|] == LF && !Continues(LF);
    assert forall i :: 0 <= i < |a| ==> s[i] == a[i];
  }

  lemma {:induction false} SplitLinesText(s: Bytes)
    requires IsUtf8(s) && CR !in s
    ensures forall line :: line in SplitLines(s) ==> NoEnd(line) && IsUtf8(line)
    ensures Join(SplitLines(s)) == s && SplitLines(s) != []
    decreases |s|
  {
    hide IsUtf8;
    var i := Find(s, LF);
    if i < |s| {
      assert s == s[..i] + [LF] + s[i + 1..];
      CutUtf8(s[..i], s[i + 1..]);
      SplitLinesText(s[i + 1..]);
      assert SplitLines(s)[1..] == SplitLines(s[i + 1..]);
    }
  }

  // ---------- Parsing what was encoded ----------

  lemma FieldRun(p: Parser, name: Bytes, value: Bytes, rest: Bytes)
    requires IsName(name) && NoEnd(value) && IsUtf8(value)
    ensures var (q, item) := PushField(p.(buffer := rest), name, value);
            Drain(p.(buffer := FieldText(name, value) + rest)) == (Drain(q).0, Maybe(item) + Drain(q).1)
  {
    hide Drain, IsUtf8, PushLine;
    OneLine(p, name + [COLON, SPACE] + value, rest);
    FieldLine(p.(buffer := rest), name, value);
  }

  lemma DataLineRun(p: Parser, value: Bytes, rest: Bytes)
    requires NoEnd(value) && IsUtf8(value)
    ensures Drain(p.(buffer := FieldText(DATA, value) + rest)) == Drain(p.(data := p.data + [value], buffer := rest))
  {
    hide Drain, IsUtf8, FieldText;
    FieldRun(p, DATA, value, rest);
    var q := p.(data := p.data + [value], buffer := rest);
    assert [] + Drain(q).1 == Drain(q).1;
  }

  lemma {:induction false} DataRun(p: Parser, lines: seq<Bytes>, rest: Bytes)
    requires forall line :: line in lines ==> NoEnd(line) && IsUtf8(line)
    ensures Drain(p.(buffer := DataText(lines) + rest)) == Drain(p.(data := p.data + lines, buffer := rest))
    decreases |lines|
  {
    hide Drain, IsUtf8, FieldText;
    if lines == [] {
      assert [] + rest == rest && p.data + [] == p.data;
    } else {
      var more := DataText(lines[1..]) + rest;
      assert DataText(lines) + rest == FieldText(DATA, lines[0]) + more;
      DataLineRun(p, lines[0], more);
      DataRun(p.(data := p.data + [lines[0]]), lines[1..], rest);
      assert p.data + [lines[0]] + lines[1..] == p.data + lines;
    }
  }

  lemma IdRun(p: Parser, id: Option<Bytes>, rest: Bytes)
    requires id.Some? ==> NoEnd(id.value) && NUL !in id.value && IsUtf8(id.value)
    ensures Drain(p.(buffer := IdText(id) + rest))
         == Drain(p.(id := if id.Some? then id else p.id, buffer := rest))
  {
    hide Drain, IsUtf8;
    if id.Some? {
      FieldRun(p, ID, id.value, rest);
      var q := p.(id := id, buffer := rest);
      assert [] + Drain(q).1 == Drain(q).1;
    } else {
      assert [] + rest == rest;
    }
  }

  lemma EventRun(p: Parser, e: Event, rest: Bytes)
    requires Encodable(e) && p.data == [] && p.id == None
    ensures var q := p.(event := [], lastId := if e.id.Some? then e.id else p.lastId, buffer := rest);
            Drain(p.(buffer := Encode(e) + rest)) == (Drain(q).0, [Dispatched(e)] + Drain(q).1)
  {
    hide Drain, IsUtf8, Join, FieldText, IdText, DataText, SplitLines;
    var lines := SplitLines(e.data);
    var dataRest := DataText(lines) + ([LF] + rest);
    var idRest := IdText(e.id) + dataRest;
    SplitLinesText(e.data);
    assert Encode(e) + rest == FieldText(EVENT, e.event) + idRest;
    FieldRun(p, EVENT, e.event, idRest);
    var p1 := p.(event := e.event);
    assert [] + Drain(p1.(buffer := idRest)).1 == Drain(p1.(buffer := idRest)).1;
    IdRun(p1, e.id, dataRest);
    var p2 := p1.(id := if e.id.Some? then e.id else p.id);
    DataRun(p2, lines, [LF] + rest);
    var p3 := p2.(data := lines);
    assert [] + lines == lines && [] + [LF] + rest == [LF] + rest;
    OneLine(p3, [], rest);
  }

  lemma {:induction false} AllRun(p: Parser, events: seq<Event>)
    requires (forall e :: e in events ==> Encodable(e)) && p.data == [] && p.id == None && p.event == []
    ensures Drain(p.(buffer := EncodeAll(events)))
         == (p.(lastId := LastId(p.lastId, events), buffer := []), Outputs(events))
    decreases |events|
  {
    hide Drain, Encodable, Encode;
    if events == [] {
      DrainNothing(p.(buffer := []));
    } else {
      EventRun(p, events[0], EncodeAll(events[1..]));
      AllRun(p.(lastId := if events[0].id.Some? then events[0].id else p.lastId), events[1..]);
    }
  }

  // ---------- The encoding meets the provisos ----------

  lemma LinePlain(line: Bytes, rest: Bytes)
    requires NoEnd(line) && (line == [] || line[0] != BOM[0]) && CR !in rest && NoBomLine(rest)
    ensures CR !in line + [LF] + rest && NoBomLine(line + [LF] + rest)
  {
    var s := line + [LF] + rest;
    forall i | 0 <= i <= |s| && (i == 0 || IsEnd(s[i - 1])) ensures !(BOM <= s[i..]) {
      if i == 0 {
        assert s[0..] == s && s[0] != BOM[0];
      } else if i <= |line| {
        assert false;
      } else {
        assert s[i..] == rest[i - |line| - 1..];
      }
    }
  }

  lemma FieldPlain(name: Bytes, value: Bytes, rest: Bytes)
    requires IsName(name) && NoEnd(value) && CR !in rest && NoBomLine(rest)
    ensures CR !in FieldText(name, value) + rest && NoBomLine(FieldText(name, value) + rest)
  {
    hide NoBomLine;
    assert name[0] in name;
    LinePlain(name + [COLON, SPACE] + value, rest);
  }

  lemma {:induction false} DataPlain(lines: seq<Bytes>, rest: Bytes)
    requires (forall line :: line in lines ==> NoEnd(line)) && CR !in rest && NoBomLine(rest)
    ensures CR !in DataText(lines) + rest && NoBomLine(DataText(lines) + rest)
    decreases |lines|
  {
    hide NoBomLine;
    if lines == [] {
      assert [] + rest == rest;
    } else {
      DataPlain(lines[1..], rest);
      FieldPlain(DATA, lines[0], DataText(lines[1..]) + rest);
      assert DataText(lines) + rest == FieldText(DATA, lines[0]) + (DataText(lines[1..]) + rest);
    }
  }

  lemma EventPlain(e: Event, rest: Bytes)
    requires Encodable(e) && CR !in rest && NoBomLine(rest)
    ensures CR !in Encode(e) + rest && NoBomLine(Encode(e) + rest)
  {
    hide NoBomLine, IsUtf8, FieldText, DataText, SplitLines, Join;
    var lines := SplitLines(e.data);
    SplitLinesText(e.data);
    LinePlain([], rest);
    assert [] + [LF] + rest == [LF] + rest;
    DataPlain(lines, [LF] + rest);
    var dataRest := DataText(lines) + ([LF] + rest);
    if e.id.Some? {
      FieldPlain(ID, e.id.value, dataRest);
    } else {
      assert IdText(e.id) + dataRest == dataRest;
    }
    FieldPlain(EVENT, e.event, IdText(e.id) + dataRest);
    assert Encode(e) + rest == FieldText(EVENT, e.event) + (IdText(e.id) + dataRest);
  }

  lemma {:induction false} AllPlain(events: seq<Event>)
    requires forall e :: e in events ==> Encodable(e)
    ensures CR !in EncodeAll(events) && NoBomLine(EncodeAll(events))
    decreases |events|
  {
    hide NoBomLine, Encodable, Encode;
    if events == [] {
      EmptyPlain();
    } else {
      AllPlain(events[1..]);
      EventPlain(events[0], EncodeAll(events[1..]));
    }
  }

  lemma EmptyPlain()
    ensures NoBomLine([])
  {
  }

  lemma {:induction false} ChunkMembers(chunks: seq<Bytes>, i: nat, b: byte)
    requires i < |chunks| && b in chunks[i]
    ensures b in Concat(chunks)
    decreases i
  {
    if i > 0 {
      ChunkMembers(chunks[1..], i - 1, b);
    }
  }

  /** For any list of encodable events and any cutting of their encoding into
      chunks, an idle parser outputs exactly those events in order, is idle
      again, and remembers the id of the last event that carried one. */
  lemma RoundTrip(p: Parser, events: seq<Event>, chunks: seq<Bytes>)
    requires forall e :: e in events ==> Encodable(e)
    requires p.buffer == [] && p.event == [] && p.data == [] && p.id == None
    requires Concat(chunks) == EncodeAll(events)
    ensures PushAll(p, chunks) == (p.(lastId := LastId(p.lastId, events)), Outputs(events))
  {
    hide Drain, Encodable, NoBomLine, EncodeAll;
    AllPlain(events);
    assert NoSplit(chunks) by {
      forall i | 0 <= i < |chunks| ensures !SplitsEnding(chunks[i], Concat(chunks[i + 1..])) {
        if chunks[i] != [] && chunks[i][|chunks[i]| - 1] == CR {
          ChunkMembers(chunks, i, CR);
        }
      }
    }
    var stream := EncodeAll(events);
    assert [] + stream == stream;
    NoBomAtStart(stream, stream);
    StreamChunkIndependence(p, chunks);
    PushDrains(p, stream);
    AllRun(p, events);
  }
}
