/**
 The text that a chunked stream makes the parser read: line endings are
 normalised chunk by chunk, and every push drops a byte order mark that it
 finds at the head of the unfinished line.
 */
module SseText {
  import opened Base
  import opened Sse
  import opened SseLaws

  /** The unfinished last line of `s`. */
  function Tail(s: Bytes): (t: Bytes)
    ensures NoEnd(t) && |t| <= |s| && t == s[|s| - |t|..]
    ensures |t| < |s| ==> IsEnd(s[|s| - |t| - 1])
  {
    if NoEnd(s) then s
    else
      assert s == [s[0]] + s[1..];
      Tail(s[1..])
  }

  /** The text of one push behind the unfinished line. */
  function Taken(line: Bytes, chunk: Bytes): Bytes {
    Normal(StripBom(line + chunk))
  }

  /** What the parser reads in all, the unfinished line included. */
  function Seen(line: Bytes, chunks: seq<Bytes>): Bytes
    decreases |chunks|
  {
    if chunks == [] then line
    else
      var text := Taken(line, chunks[0]);
      text[..|text| - |Tail(text)|] + Seen(Tail(text), chunks[1..])
  }

  /** How many of the pushes drop a byte order mark. */
  function Strips(line: Bytes, chunks: seq<Bytes>): nat
    decreases |chunks|
  {
    if chunks == [] then 0
    else (if BOM <= line + chunks[0] then 1 else 0) + Strips(Tail(Taken(line, chunks[0])), chunks[1..])
  }

  // ---------- The unfinished line ----------

  lemma {:induction false} TailFrom(s: Bytes, i: nat)
    requires i <= |s| && (i == 0 || IsEnd(s[i - 1]))
    ensures Tail(s[i..]) == Tail(s)
    decreases i
  {
    if i == 0 {
      assert s[0..] == s;
    } else {
      assert s[i - 1] in s;
      assert s[1..][i - 1..] == s[i..];
      if i == 1 {
      } else {
        assert s[1..][i - 2] == s[i - 1];
        TailFrom(s[1..], i - 1);
      }
    }
  }

  lemma TailOfLine(s: Bytes)
    requires NoEnd(s)
    ensures Tail(s) == s
  {
  }

  /** A drained buffer holds the unfinished line. */
  lemma DrainTail(p: Parser)
    ensures Drain(p).0.buffer == Tail(p.buffer)
  {
    hide Drain;
    var i := DrainResidual(p);
    TailFrom(p.buffer, i);
    TailOfLine(p.buffer[i..]);
  }

  lemma TailOfNormal(s: Bytes)
    ensures Tail(Normal(s)) == Tail(s)
  {
    var p := Parser(s, [], [], None, None, None);
    NormalDrain(p);
    DrainTail(p);
    DrainTail(p.(buffer := Normal(s)));
  }

  // ---------- Reading ----------

  predicate NoCr(s: Bytes) {
    CR !in s
  }

  lemma Unsplit(head: Bytes, rest: Bytes)
    requires NoCr(head)
    ensures !SplitsEnding(head, rest)
  {
    if head != [] {
      assert head[|head| - 1] in head;
    }
  }

  lemma NoCrHead(s: Bytes, n: nat)
    requires NoCr(s) && n <= |s|
    ensures NoCr(s[..n])
  {
    assert forall b :: b in s[..n] ==> b in s;
  }

  /** Behind a line ending the tail is the whole unfinished line. */
  lemma TailBehind(s: Bytes, line: Bytes)
    requires s != [] && IsEnd(s[|s| - 1]) && NoEnd(line)
    ensures Tail(s + line) == line
  {
    hide Tail, NoEnd, IsEnd;
    assert (s + line)[|s|..] == line && (s + line)[|s| - 1] == s[|s| - 1];
    TailFrom(s + line, |s|);
    TailOfLine(line);
  }

  /** The complete lines of a text leave no unfinished one. */
  lemma HeadEnds(s: Bytes)
    ensures Tail(s[..|s| - |Tail(s)|]) == []
  {
    var head := s[..|s| - |Tail(s)|];
    hide Tail;
    if head != [] {
      assert head[|head| - 1] == s[|head| - 1];
      TailBehind(head, []);
      assert head + [] == head;
    } else {
      TailOfLine([]);
    }
  }

  /** Two texts, the first of which ends a line, are drained one after the other. */
  lemma DrainLines(p: Parser, more: Bytes)
    requires NoCr(p.buffer) && Tail(p.buffer) == []
    ensures Drain(p).0.buffer == []
    ensures Drain(p.(buffer := p.buffer + more))
         == (Drain(Drain(p).0.(buffer := more)).0, Drain(p).1 + Drain(Drain(p).0.(buffer := more)).1)
  {
    hide Drain, SplitsEnding, Tail, NoCr, NoEnd;
    DrainTail(p);
    Unsplit(p.buffer, more);
    DrainConcat(p, more);
    assert [] + more == more;
  }

  lemma DrainUnfinished(p: Parser)
    requires NoEnd(p.buffer)
    ensures Drain(p) == (p, [])
  {
    hide Drain;
    DrainNothing(p);
  }

  /** An unfinished line behind complete ones stays in the buffer. */
  lemma DrainKeepsTail(p: Parser, tail: Bytes)
    requires NoCr(p.buffer) && Tail(p.buffer) == [] && NoEnd(tail)
    ensures Drain(p.(buffer := p.buffer + tail)) == (Drain(p).0.(buffer := tail), Drain(p).1)
  {
    hide Drain, Tail, NoEnd, NoCr;
    DrainLines(p, tail);
    DrainUnfinished(Drain(p).0.(buffer := tail));
    assert Drain(p).1 + [] == Drain(p).1;
  }

  /** Draining a text is draining its complete lines; the rest stays. */
  lemma DrainHead(p: Parser, head: Bytes, tail: Bytes, more: Bytes)
    requires NoCr(head) && Tail(head) == [] && NoEnd(tail) && p.buffer == head + tail
    ensures Drain(p).0.buffer == tail
    ensures Drain(p.(buffer := head + more))
         == (Drain(Drain(p).0.(buffer := more)).0, Drain(p).1 + Drain(Drain(p).0.(buffer := more)).1)
  {
    hide Drain, Tail, NoEnd, NoCr;
    DrainKeepsTail(p.(buffer := head), tail);
    DrainLines(p.(buffer := head), more);
  }

  lemma PushReads(p: Parser, chunk: Bytes)
    ensures Push(p, chunk) == Drain(p.(buffer := Taken(p.buffer, chunk)))
  {
    hide Drain, Normal;
    NormalDrain(p.(buffer := StripBom(p.buffer + chunk)));
  }

  /** Chunked pushes compute what draining the text they read computes, for
      arbitrary bytes and any unfinished line. */
  lemma {:induction false} PushAllReads(p: Parser, chunks: seq<Bytes>)
    requires NoEnd(p.buffer)
    ensures PushAll(p, chunks) == Drain(p.(buffer := Seen(p.buffer, chunks)))
    decreases |chunks|
  {
    if chunks == [] {
      DrainUnfinished(p);
    } else {
      var text := Taken(p.buffer, chunks[0]);
      var tail := Tail(text);
      var head := text[..|text| - |tail|];
      var start := p.(buffer := text);
      assert NoEnd(tail) && text == head + tail;
      hide Drain, Push, Taken, Tail, NoEnd, NoCr;
      PushReads(p, chunks[0]);
      TakenNoCr(p.buffer, chunks[0]);
      NoCrHead(text, |head|);
      HeadEnds(text);
      DrainHead(start, head, tail, Seen(tail, chunks[1..]));
      PushAllReads(Drain(start).0, chunks[1..]);
    }
  }

  lemma TakenNoCr(line: Bytes, chunk: Bytes)
    ensures NoCr(Taken(line, chunk))
  {
    NormalNoCr(StripBom(line + chunk));
  }

  // ---------- How much is read ----------

  lemma NormalBehindLine(line: Bytes, chunk: Bytes)
    requires NoEnd(line)
    ensures Normal(line + chunk) == line + Normal(chunk)
  {
    hide Normal, SplitsEnding;
    assert NoCr(line);
    Unsplit(line, chunk);
    NormalConcat(line, chunk);
    NormalNoEnd(line);
  }

  /** The text of a push, with the mark that it drops. */
  lemma TakenWhole(line: Bytes, chunk: Bytes)
    requires NoEnd(line)
    ensures (if BOM <= line + chunk then BOM else []) + Taken(line, chunk) == line + Normal(chunk)
  {
    hide Normal;
    NormalBehindLine(line, chunk);
    if BOM <= line + chunk {
      var rest := (line + chunk)[3..];
      assert BOM + rest == line + chunk;
      NormalBehindLine(BOM, rest);
    } else {
      assert [] + Taken(line, chunk) == Taken(line, chunk);
    }
  }

  lemma {:induction false} SeenLength(line: Bytes, chunks: seq<Bytes>)
    requires NoEnd(line)
    ensures |Seen(line, chunks)| + 3 * Strips(line, chunks) == |line| + |NormalAll(chunks)|
    decreases |chunks|
  {
    hide Taken, Tail, Normal;
    if chunks != [] {
      TakenWhole(line, chunks[0]);
      assert |BOM| == 3;
      SeenLength(Tail(Taken(line, chunks[0])), chunks[1..]);
    }
  }

  /** A text is its complete lines and its unfinished one. */
  lemma Rejoin(text: Bytes, more: Bytes)
    ensures text[..|text| - |Tail(text)|] + (Tail(text) + more) == text + more
  {
    hide Tail;
    assert text[..|text| - |Tail(text)|] + Tail(text) == text;
  }

  /** One push of a run, and then pushes that drop no mark. */
  lemma SeenFirst(line: Bytes, chunks: seq<Bytes>)
    requires chunks != []
    requires Seen(Tail(Taken(line, chunks[0])), chunks[1..]) == Tail(Taken(line, chunks[0])) + NormalAll(chunks[1..])
    ensures Seen(line, chunks) == Taken(line, chunks[0]) + NormalAll(chunks[1..])
  {
    hide Taken, Tail, NormalAll;
    Rejoin(Taken(line, chunks[0]), NormalAll(chunks[1..]));
  }

  lemma NormalAllFirst(line: Bytes, chunks: seq<Bytes>)
    requires chunks != []
    ensures line + NormalAll(chunks) == line + Normal(chunks[0]) + NormalAll(chunks[1..])
  {
    hide Normal;
  }

  /** Without a mark dropped, the parser reads the chunks' normal forms. */
  lemma {:induction false} SeenPlain(line: Bytes, chunks: seq<Bytes>)
    requires NoEnd(line) && Strips(line, chunks) == 0
    ensures Seen(line, chunks) == line + NormalAll(chunks)
    decreases |chunks|
  {
    hide Taken, Tail, Normal;
    if chunks == [] {
      assert line + [] == line;
    } else {
      var text := Taken(line, chunks[0]);
      TakenWhole(line, chunks[0]);
      assert [] + text == text;
      SeenPlain(Tail(text), chunks[1..]);
      hide Seen, NormalAll;
      SeenFirst(line, chunks);
      NormalAllFirst(line, chunks);
    }
  }

  lemma PartOfBom(s: Bytes)
    requires |s| < 3 && s <= BOM
    ensures NoEnd(s) && !(BOM <= s) && Normal(s) == s && Tail(s) == s
  {
    assert forall b :: b in s ==> b in BOM;
    NormalNoEnd(s);
  }

  /** The push that drops the mark. */
  lemma SeenMarkedNow(line: Bytes, chunks: seq<Bytes>)
    requires NoEnd(line) && chunks != [] && BOM <= line + chunks[0] && Strips(line, chunks) == 1
    ensures BOM + Seen(line, chunks) == line + NormalAll(chunks)
  {
    hide Tail, Normal, Taken, NormalAll, Seen;
    var text := Taken(line, chunks[0]);
    TakenWhole(line, chunks[0]);
    SeenPlain(Tail(text), chunks[1..]);
    SeenFirst(line, chunks);
    NormalAllFirst(line, chunks);
    assert BOM + (text + NormalAll(chunks[1..])) == BOM + text + NormalAll(chunks[1..]);
  }

  /** A push in front of it, which leaves a part of the mark in the buffer. */
  lemma SeenPart(line: Bytes, chunks: seq<Bytes>)
    requires NoEnd(line) && chunks != [] && |line + chunks[0]| < 3 && line + chunks[0] <= BOM
    ensures Seen(line, chunks) == Seen(line + chunks[0], chunks[1..])
    ensures Strips(line, chunks) == Strips(line + chunks[0], chunks[1..])
    ensures line + NormalAll(chunks) == line + chunks[0] + NormalAll(chunks[1..])
  {
    var s := line + chunks[0];
    PartOfBom(s);
    NormalBehindLine(line, chunks[0]);
    assert Normal(chunks[0]) == chunks[0] by {
      assert s[|line|..] == chunks[0] && (line + Normal(chunks[0]))[|line|..] == Normal(chunks[0]);
    }
    hide Tail, Normal, NormalAll;
    NormalAllFirst(line, chunks);
    assert [] + Seen(s, chunks[1..]) == Seen(s, chunks[1..]);
  }

  /** A stream that starts with a mark, and drops just that one. */
  lemma {:induction false} SeenMarked(line: Bytes, chunks: seq<Bytes>)
    requires NoEnd(line) && BOM <= line + Concat(chunks) && Strips(line, chunks) == 1
    ensures BOM + Seen(line, chunks) == line + NormalAll(chunks)
    decreases |chunks|
  {
    hide Tail, Normal, Taken, NormalAll, Seen;
    if chunks != [] {
      var s, rest := line + chunks[0], Concat(chunks[1..]);
      assert s + rest == line + Concat(chunks);
      hide Strips;
      if |s| < 3 {
        PartOfMark(s, rest);
        PartOfBom(s);
        SeenPart(line, chunks);
        SeenMarked(s, chunks[1..]);
      } else {
        MarkInFirst(s, rest);
        SeenMarkedNow(line, chunks);
      }
    }
  }

  lemma PartOfMark(s: Bytes, t: Bytes)
    requires |s| < 3 && BOM <= s + t
    ensures s <= BOM
  {
    assert forall i :: 0 <= i < |s| ==> s[i] == (s + t)[i] == BOM[i];
  }

  lemma MarkInFirst(s: Bytes, t: Bytes)
    requires |s| >= 3 && BOM <= s + t
    ensures BOM <= s
  {
    assert forall i :: 0 <= i < 3 ==> s[i] == (s + t)[i] == BOM[i];
  }

  lemma OneChunk(line: Bytes, chunk: Bytes)
    ensures Concat([chunk]) == chunk && NormalAll([chunk]) == Normal(chunk)
    ensures Strips(line, [chunk]) == if BOM <= line + chunk then 1 else 0
  {
    hide Normal, Taken, Tail;
    assert [chunk][1..] == [] && chunk + [] == chunk && Normal(chunk) + [] == Normal(chunk);
  }

  /** When no cut separates CR from LF, chunks make the parser read the same text
      as one push of the whole if and only if they drop as many marks. */
  lemma SameTextIff(line: Bytes, chunks: seq<Bytes>)
    requires NoEnd(line) && NoSplit(chunks)
    ensures Seen(line, chunks) == Seen(line, [Concat(chunks)]) <==> Strips(line, chunks) == Strips(line, [Concat(chunks)])
  {
    hide Normal, NoSplit, Seen, Strips;
    var whole := Concat(chunks);
    OneChunk(line, whole);
    NormalAllIffNoSplit(chunks);
    SeenLength(line, chunks);
    SeenLength(line, [whole]);
    if Strips(line, chunks) == Strips(line, [whole]) {
      if BOM <= line + whole {
        SeenMarked(line, chunks);
        SeenMarked(line, [whole]);
        assert (BOM + Seen(line, chunks))[3..] == (BOM + Seen(line, [whole]))[3..];
      } else {
        SeenPlain(line, chunks);
        SeenPlain(line, [whole]);
      }
    }
  }

  // ---------- Streams that drop no mark, or one ----------

  lemma NoBomAtStart(s: Bytes, t: Bytes)
    requires NoBomLine(s) && t <= s
    ensures StripBom(t) == t && !(BOM <= t)
  {
    assert s[0..] == s;
  }

  lemma NoBomSuffix(s: Bytes, i: nat)
    requires NoBomLine(s) && i <= |s| && (i == 0 || IsEnd(s[i - 1]))
    ensures NoBomLine(s[i..])
  {
    forall k | 0 <= k <= |s[i..]| && (k == 0 || IsEnd(s[i..][k - 1])) ensures !(BOM <= s[i..][k..]) {
      assert s[i..][k..] == s[i + k..];
    }
  }

  /** The unfinished line after `s`, and what follows, have no mark either. */
  lemma NoBomBehind(s: Bytes, t: Bytes)
    requires NoBomLine(s + t)
    ensures NoBomLine(Tail(s) + t)
  {
    hide NoBomLine, Tail;
    var i := |s| - |Tail(s)|;
    assert (s + t)[i..] == Tail(s) + t;
    assert i > 0 ==> (s + t)[i - 1] == s[i - 1];
    NoBomSuffix(s + t, i);
  }

  /** A stream none of whose lines begins with a mark never drops one. */
  lemma {:induction false} PlainNeverStrips(line: Bytes, chunks: seq<Bytes>)
    requires NoBomLine(line + Concat(chunks))
    ensures Strips(line, chunks) == 0
    decreases |chunks|
  {
    hide NoBomLine, Tail, Normal;
    if chunks != [] {
      var s, rest := line + chunks[0], Concat(chunks[1..]);
      assert s + rest == line + Concat(chunks);
      NoBomAtStart(s + rest, s);
      TailOfNormal(s);
      NoBomBehind(s, rest);
      PlainNeverStrips(Tail(s), chunks[1..]);
    }
  }

  /** A stream with a mark at its start and no other at a line start drops one. */
  lemma {:induction false} MarkedStripsOnce(line: Bytes, chunks: seq<Bytes>)
    requires |line| < 3 && BOM <= line + Concat(chunks) && NoBomLine((line + Concat(chunks))[3..])
    ensures Strips(line, chunks) == 1
    decreases |chunks|
  {
    hide NoBomLine, Tail, Normal;
    if chunks != [] {
      var s, rest := line + chunks[0], Concat(chunks[1..]);
      assert s + rest == line + Concat(chunks);
      if |s| < 3 {
        PartOfMark(s, rest);
        PartOfBom(s);
        MarkedStripsOnce(s, chunks[1..]);
      } else {
        MarkInFirst(s, rest);
        var text := s[3..];
        assert (s + rest)[3..] == text + rest;
        TailOfNormal(text);
        NoBomBehind(text, rest);
        PlainNeverStrips(Tail(text), chunks[1..]);
      }
    }
  }
}
