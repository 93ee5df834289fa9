/** Which byte strings count as text: the UTF-8 encodings of Unicode scalar values. */
module SseUtf8 {
  import opened Base
  import opened Sse

  predicate IsScalar(c: nat) {
    c < 0xD800 || 0xE000 <= c < 0x11_0000
  }

  function Tail(c: nat): byte {
    (0x80 + c % 64) as byte
  }

  /** The encoding of one scalar value (section 3 of RFC 3629). */
  function Encoded(c: nat): (s: Bytes)
    requires IsScalar(c)
    ensures s != []
  {
    if c < 0x80 then [c as byte]
    else if c < 0x800 then [(0xC0 + c / 64) as byte, Tail(c)]
    else if c < 0x1_0000 then [(0xE0 + c / 64 / 64) as byte, Tail(c / 64), Tail(c)]
    else [(0xF0 + c / 64 / 64 / 64) as byte, Tail(c / 64 / 64), Tail(c / 64), Tail(c)]
  }

  function EncodedText(text: seq<nat>): Bytes
    requires forall c :: c in text ==> IsScalar(c)
  {
    if text == [] then []
    else
      assert text[0] in text && forall c :: c in text[1..] ==> c in text;
      Encoded(text[0]) + EncodedText(text[1..])
  }

  ghost predicate IsText(s: Bytes) {
    exists text: seq<nat> :: (forall c :: c in text ==> IsScalar(c)) && s == EncodedText(text)
  }

  lemma FirstOfScalar(c: nat, rest: Bytes)
    requires IsScalar(c)
    ensures FirstLength(Encoded(c) + rest) == |Encoded(c)|
  {
    var s := Encoded(c) + rest;
    assert s[0] == Encoded(c)[0];
    if c >= 0x80 {
      assert s[1] == Encoded(c)[1];
    }
    if c >= 0x800 {
      assert s[2] == Encoded(c)[2];
    }
    if c >= 0x1_0000 {
      assert s[3] == Encoded(c)[3];
    }
  }

  /** One more byte behind the bits `q`. */
  function More(q: nat, b: byte): nat
    requires Continues(b)
  {
    q * 64 + (b as int - 0x80)
  }

  lemma MoreSplits(q: nat, b: byte)
    requires Continues(b)
    ensures More(q, b) / 64 == q && Tail(More(q, b)) == b
  {
    assert More(q, b) % 64 == b as int - 0x80;
  }

  lemma ScalarOfTwo(a: byte, b: byte) returns (c: nat)
    requires 0xC2 <= a <= 0xDF && Continues(b)
    ensures IsScalar(c) && Encoded(c) == [a, b]
  {
    var q := a as int - 0xC0;
    c := More(q, b);
    MoreSplits(q, b);
    assert 0x80 <= c < 0x800;
    hide More, Tail;
  }

  lemma ScalarOfThree(a: byte, b: byte, d: byte) returns (c: nat)
    requires 0xE0 <= a <= 0xEF && Continues(b) && Continues(d)
    requires (a == 0xE0 ==> b >= 0xA0) && (a == 0xED ==> b <= 0x9F)
    ensures IsScalar(c) && Encoded(c) == [a, b, d]
  {
    var q := a as int - 0xE0;
    c := More(More(q, b), d);
    MoreSplits(q, b);
    MoreSplits(More(q, b), d);
    assert 0x800 <= c < 0x1_0000 && IsScalar(c);
    hide More, Tail, IsScalar;
  }

  lemma FourBounds(q: nat, b: byte, d: byte, e: byte)
    requires q <= 4 && Continues(b) && Continues(d) && Continues(e)
    requires (q == 0 ==> b >= 0x90) && (q == 4 ==> b <= 0x8F)
    ensures 0x1_0000 <= More(More(More(q, b), d), e) < 0x11_0000
  {
  }

  lemma ScalarOfFour(a: byte, b: byte, d: byte, e: byte) returns (c: nat)
    requires 0xF0 <= a <= 0xF4 && Continues(b) && Continues(d) && Continues(e)
    requires (a == 0xF0 ==> b >= 0x90) && (a == 0xF4 ==> b <= 0x8F)
    ensures IsScalar(c) && Encoded(c) == [a, b, d, e]
  {
    var q := a as int - 0xF0;
    c := More(More(More(q, b), d), e);
    MoreSplits(q, b);
    MoreSplits(More(q, b), d);
    MoreSplits(More(More(q, b), d), e);
    FourBounds(q, b, d, e);
    hide More, Tail;
  }

  /** A well-formed front is the encoding of a scalar value. */
  lemma ScalarOfFirst(s: Bytes) returns (c: nat)
    requires FirstLength(s) > 0
    ensures IsScalar(c) && Encoded(c) == s[..FirstLength(s)]
  {
    if FirstLength(s) == 1 {
      c := s[0] as nat;
    } else if FirstLength(s) == 2 {
      c := ScalarOfTwo(s[0], s[1]);
    } else if FirstLength(s) == 3 {
      c := ScalarOfThree(s[0], s[1], s[2]);
    } else {
      c := ScalarOfFour(s[0], s[1], s[2], s[3]);
    }
  }

  lemma {:induction false} TextIsUtf8(text: seq<nat>)
    requires forall c :: c in text ==> IsScalar(c)
    ensures IsUtf8(EncodedText(text))
    decreases |text|
  {
    if text != [] {
      assert text[0] in text && forall c :: c in text[1..] ==> c in text;
      var rest := EncodedText(text[1..]);
      FirstOfScalar(text[0], rest);
      TextIsUtf8(text[1..]);
      hide Encoded, FirstLength;
      assert (Encoded(text[0]) + rest)[|Encoded(text[0])|..] == rest;
    }
  }

  lemma {:induction false} Utf8IsText(s: Bytes)
    requires IsUtf8(s)
    ensures IsText(s)
    decreases |s|
  {
    hide Encoded, FirstLength;
    if s == [] {
      assert s == EncodedText([]);
    } else {
      var n := FirstLength(s);
      var c := ScalarOfFirst(s);
      Utf8IsText(s[n..]);
      var text: seq<nat> :| (forall d :: d in text ==> IsScalar(d)) && s[n..] == EncodedText(text);
      assert ([c] + text)[1..] == text;
      assert s == s[..n] + s[n..] == EncodedText([c] + text);
    }
  }

  /** A line counts as text if and only if it is the UTF-8 encoding of some sequence
      of Unicode scalar values; the byte order mark is that of U+FEFF. */
  lemma Utf8Iff(s: Bytes)
    ensures IsUtf8(s) <==> IsText(s)
    ensures BOM == Encoded(0xFEFF)
  {
    if IsUtf8(s) {
      Utf8IsText(s);
    }
    if IsText(s) {
      var text: seq<nat> :| (forall c :: c in text ==> IsScalar(c)) && s == EncodedText(text);
      TextIsUtf8(text);
    }
  }

  lemma {:induction false} EncodedConcat(a: seq<nat>, b: seq<nat>)
    requires forall c :: c in a + b ==> IsScalar(c)
    ensures (forall c :: c in a ==> IsScalar(c)) && (forall c :: c in b ==> IsScalar(c))
    ensures EncodedText(a + b) == EncodedText(a) + EncodedText(b)
    decreases |a|
  {
    assert forall c :: c in a || c in b ==> c in a + b;
    hide Encoded;
    if a == [] {
      assert a + b == b;
    } else {
      assert (a + b)[1..] == a[1..] + b;
      assert forall c :: c in a[1..] + b ==> c in a + b;
      EncodedConcat(a[1..], b);
    }
  }

  /** Text behind text is text. */
  lemma Utf8Concat(a: Bytes, b: Bytes)
    requires IsUtf8(a) && IsUtf8(b)
    ensures IsUtf8(a + b)
  {
    hide IsUtf8, Encoded, EncodedText;
    Utf8Iff(a);
    Utf8Iff(b);
    Utf8Iff(a + b);
    var s: seq<nat> :| (forall c :: c in s ==> IsScalar(c)) && a == EncodedText(s);
    var t: seq<nat> :| (forall c :: c in t ==> IsScalar(c)) && b == EncodedText(t);
    EncodedConcat(s, t);
    assert a + b == EncodedText(s + t);
  }
}
