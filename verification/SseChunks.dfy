/** Pushing a stream in chunks: exactly what it computes, and when that is what
    one push of the whole stream computes. */
module SseChunks {
  import opened Base
  import opened Sse
  import opened SseLaws
  import opened SseLines
  import opened SseText

  lemma PushDrains(p: Parser, chunk: Bytes)
    requires StripBom(p.buffer + chunk) == p.buffer + chunk
    ensures Push(p, chunk) == Drain(p.(buffer := p.buffer + chunk))
  {
  }

  /** After every push the buffer is the unfinished line: it holds no line ending. */
  lemma PushLeavesNoEnd(p: Parser, chunk: Bytes)
    ensures Push(p, chunk).0.buffer == Tail(StripBom(p.buffer + chunk)) && NoEnd(Push(p, chunk).0.buffer)
  {
    hide Drain;
    DrainTail(p.(buffer := StripBom(p.buffer + chunk)));
  }

  /** While no push drops a byte order mark, chunked pushes compute what one pass
      over the normal forms of the chunks computes. */
  lemma ExactChunking(p: Parser, chunks: seq<Bytes>)
    requires NoEnd(p.buffer) && Strips(p.buffer, chunks) == 0
    ensures PushAll(p, chunks) == Drain(p.(buffer := p.buffer + NormalAll(chunks)))
  {
    hide Drain, PushAll, Seen, Strips, NormalAll;
    PushAllReads(p, chunks);
    SeenPlain(p.buffer, chunks);
  }

  lemma PushOne(p: Parser, chunk: Bytes)
    ensures PushAll(p, [chunk]) == Push(p, chunk)
  {
    hide Push;
    assert [chunk][1..] == [] && Push(p, chunk).1 + [] == Push(p, chunk).1;
  }

  /** Chunk independence from any unfinished line: when no cut separates CR from LF
      and the chunks drop as many byte order marks as the whole does. */
  lemma ChunkIndependence(p: Parser, chunks: seq<Bytes>)
    requires NoEnd(p.buffer) && NoSplit(chunks)
    requires Strips(p.buffer, chunks) == Strips(p.buffer, [Concat(chunks)])
    ensures PushAll(p, chunks) == Push(p, Concat(chunks))
  {
    hide Drain, Push, PushAll, Seen, Strips, NoSplit;
    SameTextIff(p.buffer, chunks);
    PushAllReads(p, chunks);
    PushAllReads(p, [Concat(chunks)]);
    PushOne(p, Concat(chunks));
  }

  /** Chunk independence of a whole stream, which may start with one byte order
      mark, itself cut anywhere, and has none at a later line start. */
  lemma StreamChunkIndependence(p: Parser, chunks: seq<Bytes>)
    requires p.buffer == [] && NoSplit(chunks) && NoBomLine(StripBom(Concat(chunks)))
    ensures PushAll(p, chunks) == Push(p, Concat(chunks))
  {
    hide NoBomLine, Push, PushAll, Strips, NoSplit;
    var stream := Concat(chunks);
    assert [] + stream == stream;
    OneChunk([], stream);
    if BOM <= stream {
      MarkedStripsOnce([], chunks);
      MarkedStripsOnce([], [stream]);
    } else {
      PlainNeverStrips([], chunks);
      PlainNeverStrips([], [stream]);
    }
    ChunkIndependence(p, chunks);
  }

  // ---------- Both provisos are needed ----------

  /** A cut between CR and LF dispatches early: the line feed of the second
      chunk counts as an empty line, for every parser state and every value. */
  lemma SplitDispatchesEarly(p: Parser, value: Bytes)
    requires p.buffer == [] && NoEnd(value) && IsUtf8(value)
    ensures var line := DATA + [COLON, SPACE] + value;
            |PushAll(p, [line + [CR], [LF]]).1| == 1 && Push(p, line + [CR, LF]).1 == []
  {
    hide Drain, Push, IsUtf8, SplitField;
    var line := DATA + [COLON, SPACE] + value;
    var q := p.(data := p.data + [value]);
    FieldEnds(p, DATA, value, [CR]);
    FieldEnds(p, DATA, value, [CR, LF]);
    EmptyLine(q);
    var cut := [line + [CR], [LF]];
    assert Push(p, cut[0]) == (q, []) && Push(p, line + [CR, LF]) == (q, []);
    assert cut[1..] == [[LF]] && cut[1..][1..] == [];
    assert PushAll(q, cut[1..]).1 == Push(q, [LF]).1 + [];
  }

  lemma EmptyLine(p: Parser)
    requires p.buffer == []
    ensures Push(p, [LF]) == (Dispatch(p).0, Maybe(Dispatch(p).1))
  {
    assert [] + [LF] == [LF];
    PushDrains(p, [LF]);
    OneLine(p, [], []);
    DrainNothing(Dispatch(p).0);
    assert [] + [LF] + [] == [LF] && Maybe(Dispatch(p).1) + [] == Maybe(Dispatch(p).1);
  }

  /** One field line, whatever its ending, pushed to an empty buffer. */
  lemma FieldEnds(p: Parser, name: Bytes, value: Bytes, ending: Bytes)
    requires p.buffer == [] && IsName(name) && NoEnd(value) && IsUtf8(value) && (ending == [CR] || ending == [CR, LF])
    ensures Push(p, name + [COLON, SPACE] + value + ending)
         == (PushField(p, name, value).0, Maybe(PushField(p, name, value).1))
  {
    hide Drain, Push, IsUtf8, SplitField, PushLine;
    var line := name + [COLON, SPACE] + value;
    var s := line + ending;
    assert name[0] in name && s[0] == name[0];
    assert [] + s == s && StripBom(s) == s;
    PushDrains(p, s);
    NormalDrain(p.(buffer := s));
    NormalConcat(line, ending);
    NormalNoEnd(line);
    assert !SplitsEnding(line, ending);
    assert Normal(ending) == [LF];
    OneLine(p, line, []);
    assert line + [LF] + [] == line + [LF];
    FieldLine(p, name, value);
    DrainNothing(PushField(p, name, value).0);
    assert Maybe(PushField(p, name, value).1) + [] == Maybe(PushField(p, name, value).1);
  }

  /** A mark at a line start is dropped by a push that begins with it, and is not
      dropped by one push of the whole, whatever the lines in front of it are. */
  lemma LaterMarkIsDropped(p: Parser, text: Bytes)
    requires NoEnd(p.buffer) && text != [] && text[|text| - 1] == LF
    ensures Push(Push(p, text).0, BOM).0.buffer == [] && Push(p, text + BOM).0.buffer == BOM
  {
    hide Push, Tail, NoEnd, StripBom;
    var s := p.buffer + text;
    StripKeepsEnd(s);
    StripBehind(s);
    assert p.buffer + (text + BOM) == s + BOM;
    PushLeavesNoEnd(p, text);
    PushLeavesNoEnd(p, text + BOM);
    PushLeavesNoEnd(Push(p, text).0, BOM);
    LinesEnd(StripBom(s));
    JustTheMark();
  }

  /** A line ending leaves nothing unfinished, and then a mark all of itself. */
  lemma LinesEnd(s: Bytes)
    requires s != [] && s[|s| - 1] == LF
    ensures Tail(s) == [] && Tail(s + BOM) == BOM
  {
    assert NoEnd([]) && NoEnd(BOM);
    hide Tail, NoEnd;
    assert s + [] == s;
    TailBehind(s, []);
    TailBehind(s, BOM);
  }

  lemma JustTheMark()
    ensures StripBom([] + BOM) == [] && Tail([]) == []
  {
    assert [] + BOM == BOM && BOM[3..] == [];
  }

  lemma StripKeepsEnd(s: Bytes)
    requires s != [] && s[|s| - 1] == LF
    ensures StripBom(s) != [] && StripBom(s)[|StripBom(s)| - 1] == LF
  {
  }

  lemma StripBehind(s: Bytes)
    requires s != [] && s[|s| - 1] == LF
    ensures StripBom(s + BOM) == StripBom(s) + BOM && (BOM <= s + BOM <==> BOM <= s)
  {
    if |s| < 3 {
      assert (s + BOM)[|s| - 1] == LF;
    } else {
      assert (s + BOM)[..3] == s[..3] && (s + BOM)[3..] == s[3..] + BOM;
    }
  }
}
