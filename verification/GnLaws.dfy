/** What GN block removal keeps: completeness, idempotence and transparency. */
module GnLaws {
  import opened Base
  import opened GnLexer
  import opened GnFilter

  /** What counts as white space in front of a line, and behind a block: the ASCII
      controls from tab to carriage return and the blank, without the vertical tab
      behind a block. */
  lemma Spaces(c: char)
    ensures IsSpace(c) <==> 9 <= c as int <= 13 || c as int == 32
    ensures IsAsciiSpace(c) <==> IsSpace(c) && c as int != 11
  {
  }

  // ---------- The search is complete ----------

  /** `call` is the first visible byte of its line. */
  ghost predicate Heads(src: string, call: nat)
    requires call <= |src|
  {
    call < |src| && !IsSpace(src[call]) && forall k :: LineStart(src, call) <= k < call ==> IsSpace(src[k])
  }

  /** No line has a test block called from `from` up to `to`. */
  ghost predicate NoTestBlock(src: string, from: nat, to: nat)
    requires to <= |src|
  {
    forall call :: from <= call < to && Heads(src, call) ==> TestBlockAt(src, call).None?
  }

  lemma LineStartUnique(s: string, start: nat, i: nat)
    requires start <= i <= |s| && (start == 0 || s[start - 1] == '\n') && '\n' !in s[start..i]
    ensures LineStart(s, i) == start
  {
  }

  lemma LineEndUnique(s: string, i: nat, end: nat)
    requires i <= end <= |s| && '\n' !in s[i..end] && (end < |s| ==> s[end] == '\n')
    ensures LineEnd(s, i) == end
  {
    hide LineEnd;
  }

  lemma PlainLine(line: string, ended: bool)
    requires '\r' !in line
    ensures StripCr(line, ended) == line
  {
  }

  lemma PartOfLine(s: string, from: nat, to: nat, i: nat, j: nat)
    requires from <= i <= j <= to <= |s| && '\n' !in s[from..to]
    ensures '\n' !in s[i..j]
  {
    assert forall k :: i <= k < j ==> s[k] == s[from..to][k - from];
  }

  lemma StartsOfLine(src: string, rest: nat, end: nat)
    requires rest <= end <= |src| && '\n' !in src[rest..end] && (rest == 0 || src[rest - 1] == '\n')
    ensures forall k :: rest <= k <= end ==> LineStart(src, k) == rest
  {
    forall k | rest <= k <= end ensures LineStart(src, k) == rest {
      PartOfLine(src, rest, end, rest, k);
      LineStartUnique(src, rest, k);
    }
  }

  /** What the loop looks at in a line is the line from its head on. */
  lemma LineParts(src: string, rest: nat)
    requires rest < |src| && '\r' !in src && (rest == 0 || src[rest - 1] == '\n')
    ensures var end := LineEnd(src, rest);
            var trimmed := TrimStart(src[rest..end]);
            var call := end - |trimmed|;
            && StripCr(src[rest..end], end < |src|) == src[rest..end]
            && trimmed == LineFrom(src, call)
            && (call < end ==> !IsSpace(src[call]))
            && (forall k :: rest <= k < call ==> IsSpace(src[k]))
            && (forall k :: rest <= k <= end ==> LineStart(src, k) == rest)
  {
    hide LineEnd, TrimStart, LineStart, StripCr;
    var end := LineEnd(src, rest);
    var line := src[rest..end];
    PlainPart(src, rest, end);
    PlainLine(line, end < |src|);
    StartsOfLine(src, rest, end);
    TrimmedPart(src, rest, end);
    var call := end - |TrimStart(line)|;
    PartOfLine(src, rest, end, call, end);
    LineEndUnique(src, call, end);
  }

  lemma PlainPart(src: string, from: nat, to: nat)
    requires from <= to <= |src| && '\r' !in src
    ensures '\r' !in src[from..to]
  {
    assert forall c :: c in src[from..to] ==> c in src;
  }

  /** Trimming a line of the text cuts white space off its front. */
  lemma TrimmedPart(src: string, from: nat, to: nat)
    requires from <= to <= |src|
    ensures var call := to - |TrimStart(src[from..to])|;
            && from <= call && TrimStart(src[from..to]) == src[call..to] && (call < to ==> !IsSpace(src[call]))
            && (forall k :: from <= k < call ==> IsSpace(src[k]))
  {
    hide TrimStart;
    var line := src[from..to];
    assert forall k :: from <= k < to ==> src[k] == line[k - from];
    assert line[|line| - |TrimStart(line)|..] == src[to - |TrimStart(line)|..to];
  }

  /** A line has one head. */
  lemma OnlyHead(src: string, rest: nat, call: nat, end: nat)
    requires rest <= call <= end <= |src| && (call < end ==> !IsSpace(src[call])) && (end < |src| ==> src[end] == '\n')
    requires forall k :: rest <= k < call ==> IsSpace(src[k])
    requires forall k :: rest <= k <= end ==> LineStart(src, k) == rest
    ensures forall k :: rest <= k <= end && Heads(src, k) ==> k == call < end
    ensures call < end ==> Heads(src, call)
  {
  }

  lemma EmptyIsNoKind(kinds: seq<string>)
    ensures !StartsWithKind("", kinds)
  {
  }

  /** What one turn looks at is the call at the head of the line, if there is one. */
  lemma LineBlockAtHead(src: string, rest: nat) returns (call: nat)
    requires rest < |src| && '\r' !in src && (rest == 0 || src[rest - 1] == '\n')
    ensures rest <= call <= LineEnd(src, rest) && LineText(src, rest) == src[rest..LineEnd(src, rest)]
    ensures LineBlock(src, LineText(src, rest), rest) == if call < LineEnd(src, rest) then TestBlockAt(src, call) else None
    ensures forall k :: rest <= k <= LineEnd(src, rest) && Heads(src, k) ==> k == call
    ensures call < LineEnd(src, rest) ==> Heads(src, call)
  {
    hide TestLine, StartsWithKind, LineFrom, LineEnd, TrimStart, StripCr, Heads, KINDS;
    LineParts(src, rest);
    var end := LineEnd(src, rest);
    call := end - |TrimStart(src[rest..end])|;
    EmptyIsNoKind(KINDS);
    OnlyHead(src, rest, call, end);
  }

  lemma ThisLine(src: string, rest: nat)
    requires rest < |src| && '\r' !in src && (rest == 0 || src[rest - 1] == '\n')
    ensures var end := LineEnd(src, rest);
            match Candidate(src, rest, rest)
            case None => NoTestBlock(src, rest, end) && (end < |src| ==> Candidate(src, end + 1, end + 1).None?)
            case Some(b) =>
              || (rest <= b.call < end && Heads(src, b.call) && TestBlockAt(src, b.call) == Some(b)
                  && NoTestBlock(src, rest, b.call))
              || (end < |src| && NoTestBlock(src, rest, end) && Candidate(src, end + 1, end + 1) == Some(b))
  {
    hide LineBlock, LineText, LineEnd, Candidate, TestBlockAt, Heads;
    TurnAt(src, rest, rest);
    var call := LineBlockAtHead(src, rest);
  }

  /** On text with LF line endings the search finds the first test block, and
      finds none if and only if there is none. */
  lemma {:induction false} CandidateFrom(src: string, rest: nat)
    requires rest <= |src| && '\r' !in src && (rest == 0 || rest == |src| || src[rest - 1] == '\n')
    ensures match Candidate(src, rest, rest)
            case None => NoTestBlock(src, rest, |src|)
            case Some(b) =>
              && rest <= b.call && Heads(src, b.call) && TestBlockAt(src, b.call) == Some(b)
              && NoTestBlock(src, rest, b.call)
    decreases |src| - rest
  {
    hide TestBlockAt, LineEnd, Heads, Candidate;
    if rest < |src| {
      ThisLine(src, rest);
      var end := LineEnd(src, rest);
      assert !Heads(src, end) by { NotAHead(src, end); }
      if end < |src| {
        CandidateFrom(src, end + 1);
      }
    } else {
      assert Candidate(src, rest, rest).None? by { NothingLeft(src); }
    }
  }

  lemma NotAHead(src: string, end: nat)
    requires end <= |src| && (end < |src| ==> src[end] == '\n')
    ensures !Heads(src, end)
  {
  }

  lemma NothingLeft(src: string)
    ensures Candidate(src, |src|, |src|).None?
  {
  }

  // ---------- Errors ----------

  /** Position `k` is a `{` in code, for a scan that starts at `from`. */
  predicate CodeBrace(src: string, from: nat, k: nat) {
    from <= k < |src| && src[k] == '{' && Run(State(Code, 0), src[from..k]).lex == Code
  }

  predicate FirstCodeBrace(src: string, from: nat, open: nat) {
    CodeBrace(src, from, open) && forall k :: from <= k < open ==> !CodeBrace(src, from, k)
  }

  /** A call is malformed if and only if no code `{` follows it, and unclosed if and
      only if the depth never comes back to zero behind the first one. */
  lemma BlockErrors(src: string, call: nat, from: nat)
    requires call <= from <= |src|
    ensures BlockAt(src, call, from) == Err(Malformed) <==> forall k :: from <= k < |src| ==> !CodeBrace(src, from, k)
    ensures BlockAt(src, call, from) == Err(Unclosed) <==>
      exists open: nat :: FirstCodeBrace(src, from, open) && forall k :: open < k <= |src| ==> Depth(src, open, k) > 0
  {
    NextOpenBrace(src, from);
    var at := OpenFrom(Code, src, from);
    if at.Some? {
      MatchingBrace(src, at.value);
      assert FirstCodeBrace(src, from, at.value);
      ClosesOrNot(src, at.value);
      forall open: nat | FirstCodeBrace(src, from, open) ensures open == at.value {
        OnlyFirst(src, from, open, at.value);
      }
    }
    hide Run, OpenFrom, CloseFrom, CodeBrace, Depth, FirstReturn;
  }

  lemma OnlyFirst(src: string, from: nat, a: nat, b: nat)
    requires FirstCodeBrace(src, from, a) && FirstCodeBrace(src, from, b)
    ensures a == b
  {
  }

  lemma ClosesOrNot(src: string, open: nat)
    requires open < |src| && src[open] == '{'
    ensures CloseFrom(Code, 0, src, open).None? <==> forall k :: open < k <= |src| ==> Depth(src, open, k) > 0
  {
    MatchingBrace(src, open);
    hide Run, CloseFrom;
  }

  /** The named filter takes out the first call, and fails as that call if it has no
      block. */
  lemma NamedStep(src: string, needle: string, removed: nat)
    ensures FindText(src, needle, 0).None? ==>
      FilterNamed(src, needle, removed) == if removed == 0 then Err(Missing) else Ok(src)
    ensures FindText(src, needle, 0).Some? ==>
      var call := FindText(src, needle, 0).value;
      var block := BlockAt(src, call, call + |needle|);
      && (block.Err? ==> FilterNamed(src, needle, removed) == Err(block.failure))
      && (block.Ok? ==> FilterNamed(src, needle, removed) == FilterNamed(Remove(src, block.value), needle, removed + 1))
  {
    hide BlockAt, FindText, Remove;
  }

  lemma NeverMissing(src: string, call: nat, from: nat)
    requires call <= from <= |src|
    ensures BlockAt(src, call, from) != Err(Missing)
  {
    hide OpenFrom, CloseFrom, LineStart, SkipSpace;
  }

  /** It reports a missing target if and only if there is no call. */
  lemma {:induction false} NamedMissing(src: string, needle: string, removed: nat)
    ensures FilterNamed(src, needle, removed) == Err(Missing) <==> removed == 0 && FindText(src, needle, 0).None?
    decreases |src|
  {
    NamedStep(src, needle, removed);
    hide FindText, BlockAt, FilterNamed;
    var at := FindText(src, needle, 0);
    if at.Some? {
      NeverMissing(src, at.value, at.value + |needle|);
      var block := BlockAt(src, at.value, at.value + |needle|);
      if block.Ok? {
        NamedMissing(Remove(src, block.value), needle, removed + 1);
      }
    }
  }

  // ---------- CRLF line endings ----------

  /** How many line feeds of `s` follow a carriage return. */
  function CrLfs(s: string): (n: nat)
    ensures n <= |s|
  {
    var last := |s| - 1;
    if last < 1 then 0 else CrLfs(s[..last]) + (if s[last - 1] == '\r' && s[last] == '\n' then 1 else 0)
  }

  lemma CrLfsNext(src: string, i: nat)
    requires i < |src|
    ensures CrLfs(src[..i + 1]) == CrLfs(src[..i]) + (if i > 0 && src[i - 1] == '\r' && src[i] == '\n' then 1 else 0)
  {
    assert src[..i + 1][..i] == src[..i];
  }

  lemma {:induction false} CrLfsOfLine(src: string, rest: nat, i: nat)
    requires rest <= i <= |src| && '\n' !in src[rest..i]
    ensures CrLfs(src[..i]) == CrLfs(src[..rest])
    decreases i
  {
    if rest < i {
      CrLfsNext(src, i - 1);
      assert src[rest..i][i - 1 - rest] == src[i - 1] && src[rest..i - 1] == src[rest..i][..i - 1 - rest];
      CrLfsOfLine(src, rest, i - 1);
    }
  }

  lemma LineTextIs(src: string, rest: nat)
    requires rest < |src|
    ensures var end := LineEnd(src, rest);
            LineText(src, rest) == src[rest..if rest < end < |src| && src[end - 1] == '\r' then end - 1 else end]
  {
    var end := LineEnd(src, rest);
    hide LineEnd;
    assert rest < end ==> src[rest..end][end - rest - 1] == src[end - 1];
    assert rest < end ==> src[rest..end][..end - rest - 1] == src[rest..end - 1];
  }

  /** Each line that ends in CRLF puts the search one byte further behind. */
  lemma LagNext(src: string, rest: nat)
    requires rest < |src| && (rest == 0 || src[rest - 1] == '\n') && LineEnd(src, rest) < |src|
    ensures var end := LineEnd(src, rest);
            CrLfs(src[..end + 1]) == CrLfs(src[..rest]) + (end - rest - |LineText(src, rest)|)
  {
    LineTextIs(src, rest);
    var end := LineEnd(src, rest);
    hide LineText, LineEnd;
    CrLfsOfLine(src, rest, end);
    CrLfsNext(src, end);
    hide CrLfs;
  }

  lemma TurnAt(src: string, rest: nat, offset: nat)
    requires offset <= rest < |src|
    ensures var end, line := LineEnd(src, rest), LineText(src, rest);
            Candidate(src, rest, offset) == if LineBlock(src, line, offset).Some? then LineBlock(src, line, offset)
                                            else if end < |src| then Candidate(src, end + 1, offset + |line| + 1)
                                            else None
  {
    hide LineBlock, LineText, LineEnd;
  }

  function Believed(src: string, i: nat): (offset: nat)
    requires i <= |src|
    ensures offset <= i
  {
    i - CrLfs(src[..i])
  }

  /** One turn of the search on any text: where a line starts, the search believes to
      be as many bytes further back as lines in front of it ended in CRLF. */
  lemma SearchLags(src: string, rest: nat)
    requires rest < |src| && (rest == 0 || src[rest - 1] == '\n')
    ensures var end, line := LineEnd(src, rest), LineText(src, rest);
            var block := LineBlock(src, line, Believed(src, rest));
            Candidate(src, rest, Believed(src, rest))
            == if block.Some? then block
               else if end < |src| then Candidate(src, end + 1, Believed(src, end + 1))
               else None
  {
    hide LineBlock, LineText, LineEnd, Candidate;
    TurnAt(src, rest, Believed(src, rest));
    if LineEnd(src, rest) < |src| {
      LagNext(src, rest);
    }
    hide CrLfs;
  }
}
