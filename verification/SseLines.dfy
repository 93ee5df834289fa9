/** What the SSE parser makes of a single well-formed field line. */
module SseLines {
  import opened Base
  import opened Sse
  import opened SseLaws

  predicate Ascii(s: Bytes) {
    forall b :: b in s ==> b < 0x80
  }

  /** A field name: ASCII, non-empty, no colon, no line ending. */
  predicate IsName(s: Bytes) {
    s != [] && Ascii(s) && NoEnd(s) && COLON !in s
  }

  lemma {:induction false} AsciiPrefix(a: Bytes, s: Bytes)
    requires Ascii(a)
    ensures IsUtf8(a + s) == IsUtf8(s)
  {
    if a == [] {
      assert a + s == s;
    } else {
      assert a[0] in a && (a + s)[1..] == a[1..] + s;
      forall b | b in a[1..] ensures b in a {
      }
      AsciiPrefix(a[1..], s);
    }
  }

  lemma {:induction false} FindAfter(a: Bytes, b: byte, rest: Bytes)
    requires b !in a
    ensures Find(a + [b] + rest, b) == |a|
  {
    if a != [] {
      FindAfter(a[1..], b, rest);
      assert (a + [b] + rest)[1..] == a[1..] + [b] + rest;
    }
  }

  lemma SplitFieldLine(name: Bytes, value: Bytes)
    requires IsName(name) && IsUtf8(value)
    ensures SplitField(name + [COLON, SPACE] + value) == (name, value)
  {
    hide IsUtf8, Find;
    var line := name + [COLON, SPACE] + value;
    AsciiPrefix(name + [COLON, SPACE], value);
    assert line == name + [COLON] + ([SPACE] + value);
    FindAfter(name, COLON, [SPACE] + value);
    assert line[..|name|] == name && line[|name| + 1..] == [SPACE] + value;
    assert ([SPACE] + value)[1..] == value;
  }

  lemma FieldLine(p: Parser, name: Bytes, value: Bytes)
    requires IsName(name) && NoEnd(value) && IsUtf8(value)
    ensures PushLine(p, name + [COLON, SPACE] + value) == PushField(p, name, value)
    ensures NoEnd(name + [COLON, SPACE] + value)
  {
    hide IsUtf8, SplitField;
    SplitFieldLine(name, value);
    assert name[0] in name;
  }

  /** The buffer starts with one line that ends in LF. */
  lemma OneLine(p: Parser, line: Bytes, rest: Bytes)
    requires NoEnd(line)
    ensures var (q, item) := PushLine(p.(buffer := rest), line);
            Drain(p.(buffer := line + [LF] + rest)) == (Drain(q).0, Maybe(item) + Drain(q).1)
  {
    hide PushLine, Drain, LineEnd, TrimEnding;
    LineEndOfLine(line, rest);
    DrainLine(p.(buffer := line + [LF] + rest), |line| + 1);
  }
}
