/** What each kind of line does to the event parser, and which values it takes. */
module SseFields {
  import opened Base
  import opened Sse
  import opened SseUtf8

  function Code(c: char): byte {
    if c < 128 as char then c as int as byte else 0
  }

  /** The bytes of an ASCII text. */
  function Ascii(text: string): Bytes {
    seq(|text|, i requires 0 <= i < |text| => Code(text[i]))
  }

  /** The field names and the default event name, letter by letter. */
  lemma Names()
    ensures EVENT == Ascii("event") && DATA == Ascii("data") && ID == Ascii("id") && RETRY == Ascii("retry")
    ensures MESSAGE == Ascii("message")
    ensures [COLON, SPACE, PLUS] == Ascii(": +") && Ascii("09") == [48, 57]
  {
  }

  // ---------- Lines ----------

  predicate Plain(name: Bytes) {
    name != [] && COLON !in name
  }

  lemma {:induction false} FindAfter(name: Bytes, b: byte, rest: Bytes)
    requires b !in name
    ensures Find(name + [b] + rest, b) == |name|
    ensures Find(name, b) == |name|
  {
    if name != [] {
      assert (name + [b] + rest)[1..] == name[1..] + [b] + rest;
      assert (name + [b] + rest)[0] == name[0] && name[0] in name;
      FindAfter(name[1..], b, rest);
    } else {
      assert ([b] + rest)[0] == b;
    }
  }

  /** A line `name:value` or `name: value` is that field with exactly that value,
      and a line without a colon is that field with an empty one. */
  lemma Splits(name: Bytes, value: Bytes)
    requires Plain(name)
    ensures IsUtf8(name + [COLON] + value) && (value == [] || value[0] != SPACE) ==>
      SplitField(name + [COLON] + value) == (name, value)
    ensures IsUtf8(name + [COLON, SPACE] + value) ==> SplitField(name + [COLON, SPACE] + value) == (name, value)
    ensures IsUtf8(name) ==> SplitField(name) == (name, [])
  {
    hide IsUtf8, Find;
    FindAfter(name, COLON, value);
    FindAfter(name, COLON, [SPACE] + value);
    var line := name + [COLON] + value;
    assert line[..|name|] == name && line[|name| + 1..] == value;
    var spaced := name + [COLON, SPACE] + value;
    assert spaced == name + [COLON] + ([SPACE] + value);
    assert spaced[..|name|] == name && spaced[|name| + 1..] == [SPACE] + value;
    assert ([SPACE] + value)[1..] == value;
  }

  /** The ways to write field `name` with `value`. */
  predicate Writes(line: Bytes, name: Bytes, value: Bytes) {
    || line == name + [COLON, SPACE] + value
    || (line == name + [COLON] + value && (value == [] || value[0] != SPACE))
    || (line == name && value == [])
  }

  lemma LineIsField(p: Parser, line: Bytes, name: Bytes, value: Bytes)
    requires Plain(name) && Writes(line, name, value) && IsUtf8(line)
    ensures PushLine(p, line) == PushField(p, name, value)
  {
    Splits(name, value);
    assert line[0] == name[0] && name[0] in name;
    hide IsUtf8, SplitField, PushField;
  }

  /** What a line that writes a field does: `data` adds a line, `event` names the
      event, `id` without NUL is kept for it, `retry` with a number is passed on,
      and nothing else does anything. */
  lemma FieldLine(p: Parser, line: Bytes, name: Bytes, value: Bytes)
    requires Plain(name) && Writes(line, name, value) && IsUtf8(line)
    ensures PushLine(p, line)
         == if name == Ascii("data") then (p.(data := p.data + [value]), None)
            else if name == Ascii("event") then (p.(event := value), None)
            else if name == Ascii("id") && 0 !in value then (p.(id := Some(value)), None)
            else if name == Ascii("retry") && ParseU64(value).Some? then
              (p.(retry := ParseU64(value)), Some(Retry(ParseU64(value).value)))
            else (p, None)
  {
    Names();
    LineIsField(p, line, name, value);
    hide PushLine, ParseU64, IsUtf8, Ascii, Writes;
  }

  /** Whatever the text of name and value, such a line is text. */
  lemma WrittenIsText(line: Bytes, name: Bytes, value: Bytes)
    requires IsUtf8(name) && IsUtf8(value) && Writes(line, name, value)
    ensures IsUtf8(line)
  {
    assert IsUtf8([COLON]) && IsUtf8([COLON, SPACE]) by {
      assert [COLON][1..] == [] && [COLON, SPACE][1..] == [SPACE] && [SPACE][1..] == [];
    }
    hide IsUtf8;
    Utf8Concat(name, [COLON]);
    Utf8Concat(name + [COLON], value);
    Utf8Concat(name, [COLON, SPACE]);
    Utf8Concat(name + [COLON, SPACE], value);
  }

  /** A comment changes nothing, whatever its bytes, and neither does a line that is
      not UTF-8. */
  lemma IgnoredLine(p: Parser, line: Bytes)
    requires line != [] && (line[0] == COLON || !IsUtf8(line))
    ensures PushLine(p, line) == (p, None)
  {
    hide IsUtf8, ParseU64;
  }

  // ---------- Blank lines ----------

  /** The lines of an event's data, put together again. */
  ghost predicate Joined(lines: seq<Bytes>, text: Bytes)
    decreases |lines|
  {
    if lines == [] then text == []
    else if |lines| == 1 then text == lines[0]
    else lines[0] + [LF] <= text && Joined(lines[1..], text[|lines[0]| + 1..])
  }

  lemma {:induction false} JoinJoins(lines: seq<Bytes>)
    ensures Joined(lines, Join(lines))
  {
    if |lines| > 1 {
      JoinJoins(lines[1..]);
      assert Join(lines)[|lines[0]| + 1..] == Join(lines[1..]);
    }
  }

  /** A blank line dispatches the event if it has data, under its name or else as
      `message`, and starts afresh either way; an id takes effect only then. */
  lemma BlankLine(p: Parser)
    ensures var (q, item) := PushLine(p, []);
            && q == Parser(p.buffer, [], [], None, p.retry, q.lastId)
            && (p.data == [] ==> item == None && q.lastId == p.lastId)
            && (p.data != [] ==>
                  && item.Some? && item.value.Dispatched?
                  && item.value.event.event == (if p.event == [] then Ascii("message") else p.event)
                  && item.value.event.id == p.id && Joined(p.data, item.value.event.data)
                  && q.lastId == if p.id.Some? then p.id else p.lastId)
  {
    Names();
    JoinJoins(p.data);
    hide Ascii, Join, Joined;
  }

  // ---------- Numbers ----------

  function Digit(d: nat): byte
    requires d < 10
  {
    (48 + d) as byte
  }

  /** `n` in decimal, without leading zeros. */
  function Digits(n: nat): (s: Bytes)
    ensures s != [] && forall b :: b in s ==> IsDigit(b)
  {
    if n < 10 then [Digit(n)] else Digits(n / 10) + [Digit(n % 10)]
  }

  function Zeros(k: nat): (s: Bytes)
    ensures |s| == k && forall b :: b in s ==> b == 48
  {
    if k == 0 then [] else Zeros(k - 1) + [48]
  }

  /** `s` is `n` in decimal with any number of leading zeros. */
  ghost predicate Spells(s: Bytes, n: nat) {
    exists k: nat :: s == Zeros(k) + Digits(n)
  }

  lemma DecimalStep(s: Bytes, b: byte)
    requires (forall c :: c in s ==> IsDigit(c)) && IsDigit(b)
    ensures Decimal(s + [b]) == 10 * Decimal(s) + (b as int - 48)
  {
    assert (s + [b])[..|s|] == s;
  }

  lemma {:induction false} DecimalOfDigits(k: nat, n: nat)
    ensures Decimal(Zeros(k) + Digits(n)) == n
    decreases n
  {
    if n < 10 {
      DecimalOfZeros(k);
      DecimalStep(Zeros(k), Digit(n));
    } else {
      DecimalOfDigits(k, n / 10);
      DecimalStep(Zeros(k) + Digits(n / 10), Digit(n % 10));
      assert Zeros(k) + Digits(n) == Zeros(k) + Digits(n / 10) + [Digit(n % 10)];
    }
  }

  lemma {:induction false} DecimalOfZeros(k: nat)
    ensures Decimal(Zeros(k)) == 0
  {
    if k > 0 {
      DecimalOfZeros(k - 1);
      DecimalStep(Zeros(k - 1), 48);
    }
  }

  lemma {:induction false} SpellsDecimal(s: Bytes)
    requires s != [] && forall b :: b in s ==> IsDigit(b)
    ensures Spells(s, Decimal(s))
    decreases |s|
  {
    var init, last := s[..|s| - 1], s[|s| - 1];
    assert s == init + [last] && last in s;
    assert forall b :: b in init ==> b in s;
    DecimalStep(init, last);
    if init == [] {
      SpellsFirst(0, last);
      assert Decimal([]) == 0 && Zeros(0) + [last] == s;
    } else {
      SpellsDecimal(init);
      var k: nat :| init == Zeros(k) + Digits(Decimal(init));
      SpellsNext(k, Decimal(init), last);
    }
  }

  lemma SpellsFirst(k: nat, b: byte)
    requires IsDigit(b)
    ensures Spells(Zeros(k) + [b], b as int - 48)
  {
    assert Digits(b as int - 48) == [b];
  }

  lemma DigitsNext(m: nat, b: byte)
    requires IsDigit(b) && m > 0
    ensures Digits(10 * m + (b as int - 48)) == Digits(m) + [b]
  {
    var n := 10 * m + (b as int - 48);
    assert n / 10 == m && n % 10 == b as int - 48;
    assert Digit(n % 10) == b;
  }

  lemma ZerosNext(k: nat)
    ensures Zeros(k) + Digits(0) == Zeros(k + 1)
  {
  }

  lemma SpellsSo(k: nat, n: nat)
    ensures Spells(Zeros(k) + Digits(n), n)
  {
    hide Digits, Zeros;
  }

  lemma SpellsNext(k: nat, m: nat, b: byte)
    requires IsDigit(b)
    ensures Spells(Zeros(k) + Digits(m) + [b], 10 * m + (b as int - 48))
  {
    hide Digits, Zeros, Spells;
    if m == 0 {
      ZerosNext(k);
      SpellsFirst(k + 1, b);
    } else {
      DigitsNext(m, b);
      SpellsSo(k, 10 * m + (b as int - 48));
      assert Zeros(k) + Digits(m) + [b] == Zeros(k) + Digits(10 * m + (b as int - 48));
    }
  }

  /** Which `retry` values are numbers, and which number they are: a decimal of at
      most 64 bits, with any leading zeros and at most one plus sign. */
  lemma NumberIff(s: Bytes, n: nat)
    ensures ParseU64(s) == Some(n) <==>
      n <= 0xFFFF_FFFF_FFFF_FFFF && (Spells(s, n) || (s != [] && s[0] == PLUS && Spells(s[1..], n)))
  {
    hide Decimal, Digits, Zeros;
    var digits := if s != [] && s[0] == PLUS then s[1..] else s;
    if digits != [] && forall b :: b in digits ==> IsDigit(b) {
      SpellsDecimal(digits);
    }
    if Spells(s, n) {
      SpelledIsNumber(s, n);
    }
    if s != [] && s[0] == PLUS && Spells(s[1..], n) {
      SpelledIsNumber(s[1..], n);
    }
  }

  lemma SpelledIsNumber(s: Bytes, n: nat)
    requires Spells(s, n)
    ensures s != [] && (forall b :: b in s ==> IsDigit(b)) && Decimal(s) == n && s[0] != PLUS
  {
    hide Decimal, Digits, Zeros;
    var k: nat :| s == Zeros(k) + Digits(n);
    DecimalOfDigits(k, n);
    assert s[0] in s;
  }
}
