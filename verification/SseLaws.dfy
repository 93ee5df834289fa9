/** Chunk independence of the SSE parser, exactly where it holds. */
module SseLaws {
  import opened Base
  import opened Sse

  /** A cut that separates a carriage return from its line feed. */
  predicate SplitsEnding(a: Bytes, b: Bytes) {
    a != [] && a[|a| - 1] == CR && b != [] && b[0] == LF
  }

  /** No line of `s` begins with a byte order mark. */
  ghost predicate NoBomLine(s: Bytes) {
    forall i :: 0 <= i <= |s| && (i == 0 || IsEnd(s[i - 1])) ==> !(BOM <= s[i..])
  }

  /** One line, without its ending. */
  function FirstLine(s: Bytes): Bytes
    requires LineEnd(s).Some?
  {
    TrimEnding(s[..LineEnd(s).value])
  }

  // ---------- Lines and concatenation ----------

  lemma {:induction false} LineEndPrefix(x: Bytes, y: Bytes)
    requires LineEnd(x).Some? && !SplitsEnding(x, y)
    ensures LineEnd(x + y) == LineEnd(x)
  {
    if !IsEnd(x[0]) {
      assert (x + y)[1..] == x[1..] + y;
      LineEndPrefix(x[1..], y);
    }
  }

  /** Draining a concatenation is draining its first part, then the rest. */
  lemma {:induction false} DrainConcat(p: Parser, y: Bytes)
    requires !SplitsEnding(p.buffer, y)
    ensures var (q, first) := Drain(p);
            var (r, rest) := Drain(q.(buffer := q.buffer + y));
            Drain(p.(buffer := p.buffer + y)) == (r, first + rest)
    decreases |p.buffer|
  {
    hide PushLine, TrimEnding, LineEnd, Drain;
    if LineEnd(p.buffer).None? {
      DrainNothing(p);
      var rest := Drain(p.(buffer := p.buffer + y)).1;
      assert [] + rest == rest;
    } else {
      var end := LineEnd(p.buffer).value;
      LineEndPrefix(p.buffer, y);
      var whole := p.(buffer := p.buffer + y);
      assert whole.buffer[..end] == p.buffer[..end] && whole.buffer[end..] == p.buffer[end..] + y;
      DrainLine(p, end);
      DrainLine(whole, end);
      var (q, item) := PushLine(p.(buffer := p.buffer[end..]), TrimEnding(p.buffer[..end]));
      PushLineIgnoresBuffer(p, whole.buffer[end..], p.buffer[end..], TrimEnding(p.buffer[..end]));
      assert !SplitsEnding(q.buffer, y);
      DrainConcat(q, y);
      var (_, first) := Drain(q);
      var rest := Drain(Drain(q).0.(buffer := Drain(q).0.buffer + y)).1;
      assert Maybe(item) + (first + rest) == Maybe(item) + first + rest;
    }
  }

  lemma PushLineIgnoresBuffer(p: Parser, a: Bytes, b: Bytes, line: Bytes)
    ensures var (q, item) := PushLine(p.(buffer := b), line);
            PushLine(p.(buffer := a), line) == (q.(buffer := a), item)
  {
  }

  /** After a push the buffer is the unfinished last line. */
  lemma {:induction false} DrainResidual(p: Parser) returns (i: nat)
    ensures i <= |p.buffer| && Drain(p).0.buffer == p.buffer[i..] && NoEnd(p.buffer[i..])
    ensures i == 0 || IsEnd(p.buffer[i - 1])
    decreases |p.buffer|
  {
    hide PushLine, TrimEnding, LineEnd, Drain;
    if LineEnd(p.buffer).None? {
      i := 0;
      DrainNothing(p);
    } else {
      var end := LineEnd(p.buffer).value;
      DrainLine(p, end);
      LineEndAt(p.buffer);
      i := DrainResidual(PushLine(p.(buffer := p.buffer[end..]), TrimEnding(p.buffer[..end])).0);
      i := i + end;
    }
  }

  lemma TrimStep(c: byte, t: Bytes)
    requires !IsEnd(c) && t != []
    ensures TrimEnding([c] + t) == [c] + TrimEnding(t)
  {
    var s, n := [c] + t, |t|;
    assert s[n] == t[n - 1] && (n >= 2 ==> s[n - 1] == t[n - 2]);
    assert s[..n] == [c] + t[..n - 1] && (n >= 2 ==> s[..n - 1] == [c] + t[..n - 2]);
  }

  lemma FirstLineStep(s: Bytes)
    requires LineEnd(s).Some? && !IsEnd(s[0])
    ensures LineEnd(s[1..]) == Some(LineEnd(s).value - 1)
    ensures FirstLine(s) == [s[0]] + FirstLine(s[1..])
    ensures s[LineEnd(s).value..] == s[1..][LineEnd(s).value - 1..]
  {
    EndStep(s);
    hide LineEnd, TrimEnding;
    var end := LineEnd(s).value;
    assert s[..end] == [s[0]] + s[1..][..end - 1];
    TrimStep(s[0], s[1..][..end - 1]);
  }

  lemma EndStep(s: Bytes)
    requires LineEnd(s).Some? && !IsEnd(s[0])
    ensures LineEnd(s[1..]) == Some(LineEnd(s).value - 1) && LineEnd(s).value >= 2
  {
  }

  /** The end found is that of the first ending: CR LF together, or CR or LF alone. */
  lemma {:induction false} LineEndIsFirst(s: Bytes) returns (n: nat)
    requires LineEnd(s).Some?
    ensures n < |s| && NoEnd(s[..n]) && IsEnd(s[n])
    ensures LineEnd(s) == Some(if s[n] == CR && n + 1 < |s| && s[n + 1] == LF then n + 2 else n + 1)
  {
    if IsEnd(s[0]) {
      n := 0;
    } else {
      var m := LineEndIsFirst(s[1..]);
      n := m + 1;
      assert s[..n] == [s[0]] + s[1..][..m];
    }
  }

  lemma {:induction false} LineEndAt(s: Bytes)
    requires LineEnd(s).Some?
    ensures IsEnd(s[LineEnd(s).value - 1]) && NoEnd(FirstLine(s))
  {
    if !IsEnd(s[0]) {
      FirstLineStep(s);
      hide LineEnd, TrimEnding;
      LineEndAt(s[1..]);
      assert s[LineEnd(s).value - 1] == s[1..][LineEnd(s).value - 2];
    }
  }

  lemma {:induction false} LineEndOfLine(line: Bytes, rest: Bytes)
    requires NoEnd(line)
    ensures var s := line + [LF] + rest;
            LineEnd(s) == Some(|line| + 1) && FirstLine(s) == line && s[|line| + 1..] == rest
  {
    var s := line + [LF] + rest;
    if line != [] {
      LineEndOfLine(line[1..], rest);
      assert s[1..] == line[1..] + [LF] + rest;
      assert s[..|line| + 1] == line + [LF];
      assert line[|line| - 1] in line;
    }
  }

  // ---------- Normal form ----------

  /** `s` with every line ending written as one line feed. */
  function Normal(s: Bytes): Bytes {
    if s == [] then []
    else if s[0] == CR && |s| > 1 && s[1] == LF then [LF] + Normal(s[2..])
    else [if s[0] == CR then LF else s[0]] + Normal(s[1..])
  }

  function NormalAll(chunks: seq<Bytes>): Bytes {
    if chunks == [] then [] else Normal(chunks[0]) + NormalAll(chunks[1..])
  }

  /** No cut between chunks separates a CR from its LF. */
  ghost predicate NoSplit(chunks: seq<Bytes>) {
    forall i :: 0 <= i < |chunks| ==> !SplitsEnding(chunks[i], Concat(chunks[i + 1..]))
  }

  lemma {:induction false} NormalNoEnd(s: Bytes)
    requires NoEnd(s)
    ensures Normal(s) == s
  {
    if s != [] {
      NormalNoEnd(s[1..]);
    }
  }

  lemma {:induction false} NormalNoCr(s: Bytes)
    ensures CR !in Normal(s)
  {
    if s != [] {
      NormalNoCr(s[1..]);
      if |s| > 1 {
        NormalNoCr(s[2..]);
      }
    }
  }

  lemma NormalEnding(s: Bytes)
    requires s != [] && IsEnd(s[0])
    ensures LineEnd(s).Some? && Normal(s) == FirstLine(s) + [LF] + Normal(s[LineEnd(s).value..])
  {
    assert FirstLine(s) == [] && [] + [LF] == [LF];
  }

  lemma {:induction false} NormalLine(s: Bytes)
    requires LineEnd(s).Some?
    ensures Normal(s) == FirstLine(s) + [LF] + Normal(s[LineEnd(s).value..])
  {
    hide LineEnd, TrimEnding, FirstLine, Normal, NoEnd, IsEnd;
    if IsEnd(s[0]) {
      NormalEnding(s);
    } else {
      FirstLineStep(s);
      NormalLine(s[1..]);
      NormalStep(s);
      var line, rest := FirstLine(s[1..]), Normal(s[LineEnd(s).value..]);
      assert [s[0]] + (line + [LF] + rest) == [s[0]] + line + [LF] + rest;
    }
  }

  lemma NormalStep(s: Bytes)
    requires s != [] && !IsEnd(s[0])
    ensures Normal(s) == [s[0]] + Normal(s[1..])
  {
  }

  /** The parser cannot tell a buffer from its normal form. */
  lemma {:induction false} NormalDrain(p: Parser)
    ensures Drain(p.(buffer := Normal(p.buffer))) == Drain(p)
    decreases |p.buffer|
  {
    hide PushLine, TrimEnding, LineEnd, Drain, Normal;
    if LineEnd(p.buffer).None? {
      NormalNoEnd(p.buffer);
    } else {
      var end := LineEnd(p.buffer).value;
      var n := p.(buffer := Normal(p.buffer));
      LineEndAt(p.buffer);
      NormalLine(p.buffer);
      LineEndOfLine(FirstLine(p.buffer), Normal(p.buffer[end..]));
      DrainLine(p, end);
      DrainLine(n, |FirstLine(p.buffer)| + 1);
      PushLineIgnoresBuffer(p, Normal(p.buffer[end..]), p.buffer[end..], FirstLine(p.buffer));
      NormalDrain(PushLine(p.(buffer := p.buffer[end..]), FirstLine(p.buffer)).0);
    }
  }

  /** Normal forms concatenate, but for one line feed at a split ending. */
  lemma NormalPair(s: Bytes)
    requires |s| > 1 && s[0] == CR && s[1] == LF
    ensures Normal(s) == [LF] + Normal(s[2..])
  {
  }

  lemma NormalOne(s: Bytes)
    requires s != [] && !(s[0] == CR && |s| > 1 && s[1] == LF)
    ensures Normal(s) == [if s[0] == CR then LF else s[0]] + Normal(s[1..])
  {
  }

  /** What the normal form of a concatenation is, for one cut. */
  predicate Joins(a: Bytes, b: Bytes) {
    if SplitsEnding(a, b) then |Normal(a + b)| + 1 == |Normal(a)| + |Normal(b)|
    else Normal(a + b) == Normal(a) + Normal(b)
  }

  lemma JoinsNothing(b: Bytes)
    ensures Joins([], b)
  {
    assert [] + b == b;
  }

  lemma JoinsOne(c: byte, b: Bytes)
    ensures Joins([c], b)
  {
    assert Normal([c]) == [if c == CR then LF else c];
    var s := [c] + b;
    assert s[1..] == b;
    if SplitsEnding([c], b) {
      assert s[2..] == b[1..];
      NormalPair(s);
      NormalOne(b);
    } else {
      NormalOne(s);
    }
  }

  lemma SplitsTail(a: Bytes, n: nat, b: Bytes)
    requires n < |a|
    ensures SplitsEnding(a[n..], b) <==> SplitsEnding(a, b)
  {
  }

  /** A common front does not matter. */
  lemma JoinsBehind(front: Bytes, x: Bytes, y: Bytes, z: Bytes)
    ensures x == y + z ==> front + x == front + y + z
  {
    assert front + (y + z) == front + y + z;
  }

  lemma JoinsPair(a: Bytes, b: Bytes)
    requires |a| > 1 && a[0] == CR && a[1] == LF && Joins(a[2..], b)
    ensures Joins(a, b)
  {
    hide Normal;
    assert (a + b)[2..] == a[2..] + b;
    NormalPair(a);
    NormalPair(a + b);
    if |a| > 2 {
      SplitsTail(a, 2, b);
    } else {
      assert a[2..] == [];
    }
    hide SplitsEnding;
    JoinsBehind([LF], Normal(a[2..] + b), Normal(a[2..]), Normal(b));
  }

  lemma JoinsNext(a: Bytes, b: Bytes)
    requires |a| > 1 && !(a[0] == CR && a[1] == LF) && Joins(a[1..], b)
    ensures Joins(a, b)
  {
    hide Normal;
    assert (a + b)[1..] == a[1..] + b;
    NormalOne(a);
    NormalOne(a + b);
    SplitsTail(a, 1, b);
    hide SplitsEnding;
    JoinsBehind([if a[0] == CR then LF else a[0]], Normal(a[1..] + b), Normal(a[1..]), Normal(b));
  }

  lemma {:induction false} NormalJoins(a: Bytes, b: Bytes)
    ensures Joins(a, b)
    decreases |a|
  {
    hide Joins;
    if a == [] {
      JoinsNothing(b);
    } else if |a| == 1 {
      JoinsOne(a[0], b);
      assert [a[0]] == a;
    } else if a[0] == CR && a[1] == LF {
      NormalJoins(a[2..], b);
      JoinsPair(a, b);
    } else {
      NormalJoins(a[1..], b);
      JoinsNext(a, b);
    }
  }

  lemma NormalConcat(a: Bytes, b: Bytes)
    ensures !SplitsEnding(a, b) ==> Normal(a + b) == Normal(a) + Normal(b)
    ensures SplitsEnding(a, b) ==> |Normal(a + b)| + 1 == |Normal(a)| + |Normal(b)|
  {
    hide Normal, SplitsEnding;
    NormalJoins(a, b);
  }

  /** The normal forms of the chunks make up the normal form of the stream if
      and only if no cut separates a CR from its LF. */
  lemma {:induction false} NormalAllIffNoSplit(chunks: seq<Bytes>)
    ensures NormalAll(chunks) == Normal(Concat(chunks)) <==> NoSplit(chunks)
    ensures |NormalAll(chunks)| >= |Normal(Concat(chunks))|
  {
    if chunks != [] {
      NormalAllIffNoSplit(chunks[1..]);
      NormalConcat(chunks[0], Concat(chunks[1..]));
      NoSplitTail(chunks);
      var n := |Normal(chunks[0])|;
      assert NormalAll(chunks)[n..] == NormalAll(chunks[1..]);
      assert (Normal(chunks[0]) + Normal(Concat(chunks[1..])))[n..] == Normal(Concat(chunks[1..]));
    }
  }

  lemma NoSplitTail(chunks: seq<Bytes>)
    requires chunks != []
    ensures NoSplit(chunks) <==> !SplitsEnding(chunks[0], Concat(chunks[1..])) && NoSplit(chunks[1..])
  {
    hide SplitsEnding, Concat;
    forall i | 0 <= i < |chunks[1..]| ensures chunks[1..][i] == chunks[i + 1] && chunks[1..][i + 1..] == chunks[i + 2..] {
    }
    if NoSplit(chunks) {
      assert chunks[0 + 1..] == chunks[1..];
      forall i | 0 <= i < |chunks[1..]| ensures !SplitsEnding(chunks[1..][i], Concat(chunks[1..][i + 1..])) {
        assert !SplitsEnding(chunks[i + 1], Concat(chunks[i + 1 + 1..]));
      }
    } else if !SplitsEnding(chunks[0], Concat(chunks[1..])) {
      var i :| 0 <= i < |chunks| && SplitsEnding(chunks[i], Concat(chunks[i + 1..]));
      assert i > 0;
      assert chunks[1..][i - 1 + 1..] == chunks[i + 1..];
      assert SplitsEnding(chunks[1..][i - 1], Concat(chunks[1..][i - 1 + 1..]));
    }
  }
}
