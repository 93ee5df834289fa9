/** Whole runs of the GN removal loops. */
module GnRuns {
  import opened Base
  import opened GnLexer
  import opened GnFilter
  import opened GnLaws
  import opened GnTransparency

  // ---------- A list of removals ----------

  predicate Placed(src: string, blocks: seq<Block>)
    decreases |blocks|
  {
    blocks == []
    || (blocks[0].line <= blocks[0].end <= |src| && Placed(Remove(src, blocks[0]), blocks[1..]))
  }

  function RemoveAll(src: string, blocks: seq<Block>): string
    requires Placed(src, blocks)
    decreases |blocks|
  {
    if blocks == [] then src else RemoveAll(Remove(src, blocks[0]), blocks[1..])
  }

  /** Each removal keeps the states of the text behind it. */
  ghost predicate KeepsAll(src: string, blocks: seq<Block>)
    requires Placed(src, blocks)
    decreases |blocks|
  {
    blocks == [] || (KeepsState(src, blocks[0]) && KeepsAll(Remove(src, blocks[0]), blocks[1..]))
  }

  /** Where byte `k` of the text without `b` was in the text with it. */
  function Lift(b: Block, k: nat): nat
    requires b.line <= b.end
  {
    if k < b.line then k else k + (b.end - b.line)
  }

  /** The positions in `src` of the bytes that stay. */
  function Kept(src: string, blocks: seq<Block>): (keep: seq<nat>)
    requires Placed(src, blocks)
    ensures |keep| == |RemoveAll(src, blocks)|
    decreases |blocks|
  {
    if blocks == [] then seq(|src|, i => i)
    else
      var inner := Kept(Remove(src, blocks[0]), blocks[1..]);
      seq(|inner|, i requires 0 <= i < |inner| => Lift(blocks[0], inner[i]))
  }

  /** `dst` is `src` with some bytes left out, and every byte that stays has the
      lexer state and the brace depth it had. */
  ghost predicate Embeds(dst: string, src: string, keep: seq<nat>) {
    && |keep| == |dst|
    && (forall i, j :: 0 <= i < j < |keep| ==> keep[i] < keep[j])
    && (forall i :: 0 <= i < |keep| ==> keep[i] < |src| && dst[i] == src[keep[i]] && At(dst, i) == At(src, keep[i]))
  }

  lemma RemoveEmbeds(src: string, b: Block, k: nat)
    requires b.line <= b.end <= |src| && KeepsState(src, b) && k < |Remove(src, b)|
    ensures Lift(b, k) < |src| && Remove(src, b)[k] == src[Lift(b, k)]
    ensures At(Remove(src, b), k) == At(src, Lift(b, k))
  {
    hide Run;
    if k < b.line {
      assert Remove(src, b)[..k] == src[..k];
    } else {
      assert At(Remove(src, b), Lift(b, k) - (b.end - b.line)) == At(src, Lift(b, k));
    }
  }

  lemma {:induction false} RemovalsEmbed(src: string, blocks: seq<Block>)
    requires Placed(src, blocks) && KeepsAll(src, blocks)
    ensures Embeds(RemoveAll(src, blocks), src, Kept(src, blocks))
    decreases |blocks|
  {
    hide KeepsState, At;
    if blocks != [] {
      var b, inner := blocks[0], Kept(Remove(src, blocks[0]), blocks[1..]);
      RemovalsEmbed(Remove(src, b), blocks[1..]);
      forall i | 0 <= i < |inner|
        ensures Lift(b, inner[i]) < |src| && RemoveAll(src, blocks)[i] == src[Lift(b, inner[i])]
        ensures At(RemoveAll(src, blocks), i) == At(src, Lift(b, inner[i]))
      {
        RemoveEmbeds(src, b, inner[i]);
      }
    }
  }

  // ---------- The test filter ----------

  function TestBlocks(src: string): seq<Block>
    decreases |src|
  {
    hide Candidate;
    match Candidate(src, 0, 0)
    case None => []
    case Some(b) => [b] + TestBlocks(Remove(src, b))
  }

  /** No header of a removed test block holds a code `}`. */
  ghost predicate CleanHeaders(src: string)
    decreases |src|
  {
    hide Candidate;
    match Candidate(src, 0, 0)
    case None => true
    case Some(b) => !ClosesBetween(src, b.call, b.open) && CleanHeaders(Remove(src, b))
  }

  /** Removing a block at a line start keeps strings closed on their lines. */
  lemma RemoveKeepsLines(src: string, b: Block)
    requires b.line <= b.end <= |src| && KeepsState(src, b) && LinesStartInCode(src)
    requires b.line == 0 || src[b.line - 1] == '\n'
    ensures LinesStartInCode(Remove(src, b)) && ('\r' !in src ==> '\r' !in Remove(src, b))
  {
    hide Run;
    var r := Remove(src, b);
    forall i | 0 <= i <= |r| && (i == 0 || r[i - 1] == '\n') ensures At(r, i).lex == Code {
      if i <= b.line {
        assert r[..i] == src[..i] && At(r, i) == At(src, i);
        assert i > 0 ==> src[i - 1] == r[i - 1];
      } else {
        var k := i + (b.end - b.line);
        assert At(r, k - (b.end - b.line)) == At(src, k) && src[k - 1] == r[i - 1];
      }
    }
  }

  lemma {:induction false} TestRun(src: string)
    requires '\r' !in src && LinesStartInCode(src) && CleanHeaders(src)
    ensures Placed(src, TestBlocks(src)) && KeepsAll(src, TestBlocks(src))
    ensures RemoveAll(src, TestBlocks(src)) == FilterTests(src)
    ensures LinesStartInCode(FilterTests(src)) && '\r' !in FilterTests(src)
    decreases |src|
  {
    hide Candidate, KeepsState, LinesStartInCode, ClosesBetween;
    if Candidate(src, 0, 0).Some? {
      var b := Candidate(src, 0, 0).value;
      TestBlockTransparent(src, b);
      TestBlockLine(src, b);
      RemoveKeepsLines(src, b);
      TestRun(Remove(src, b));
      assert TestBlocks(src)[1..] == TestBlocks(Remove(src, b));
    }
  }

  lemma TestBlockLine(src: string, b: Block)
    requires '\r' !in src && Candidate(src, 0, 0) == Some(b)
    ensures b.line <= b.call <= |src| && (b.line == 0 || src[b.line - 1] == '\n')
  {
    hide Candidate, TestBlockAt;
    CandidateFrom(src, 0);
    TestBlockIsBlock(src, b.call);
  }

  /** The test filter on text with LF endings whose strings close on their own
      line, when no removed header holds a code `}`: every byte that stays keeps
      its lexer state and its brace depth. */
  lemma TestFilterIsTransparent(src: string)
    requires '\r' !in src && LinesStartInCode(src) && CleanHeaders(src)
    ensures Placed(src, TestBlocks(src))
    ensures Embeds(FilterTests(src), src, Kept(src, TestBlocks(src)))
  {
    hide Embeds, Kept, KeepsAll, LinesStartInCode;
    TestRun(src);
    RemovalsEmbed(src, TestBlocks(src));
  }

  /** The scan is in the same state at both ends of each block removed. */
  ghost predicate CleanBlocks(src: string)
    decreases |src|
  {
    hide Candidate;
    match Candidate(src, 0, 0)
    case None => true
    case Some(b) => At(src, b.end) == At(src, b.line) && CleanBlocks(Remove(src, b))
  }

  /** For any text at all, each removal of the test filter keeps the states of the
      text behind it if and only if the blocks are clean, and every retained byte
      keeps its own then. */
  lemma {:induction false} TestFilterKeepsIff(src: string)
    ensures Placed(src, TestBlocks(src)) && RemoveAll(src, TestBlocks(src)) == FilterTests(src)
    ensures KeepsAll(src, TestBlocks(src)) <==> CleanBlocks(src)
    ensures CleanBlocks(src) ==> Embeds(FilterTests(src), src, Kept(src, TestBlocks(src)))
    decreases |src|
  {
    hide Candidate, KeepsState, At, Embeds, Kept;
    if Candidate(src, 0, 0).Some? {
      var b := Candidate(src, 0, 0).value;
      KeepsStateExactly(src, b);
      TestFilterKeepsIff(Remove(src, b));
      assert TestBlocks(src)[1..] == TestBlocks(Remove(src, b));
    }
    if CleanBlocks(src) {
      RemovalsEmbed(src, TestBlocks(src));
    }
  }

  lemma {:induction false} FilterStops(src: string)
    ensures Candidate(FilterTests(src), 0, 0).None?
    ensures '\r' !in src ==> '\r' !in FilterTests(src)
    decreases |src|
  {
    hide Candidate;
    if Candidate(src, 0, 0).Some? {
      FilterStops(Remove(src, Candidate(src, 0, 0).value));
    }
  }

  /** The test filter leaves no test block, and a second run changes nothing. */
  lemma TestFilterReachesFixpoint(src: string)
    ensures FilterTests(FilterTests(src)) == FilterTests(src)
    ensures '\r' !in src ==> NoTestBlock(FilterTests(src), 0, |FilterTests(src)|)
  {
    hide Candidate, NoTestBlock;
    FilterStops(src);
    if '\r' !in src {
      CandidateFrom(FilterTests(src), 0);
    }
  }

  // ---------- The named filter ----------

  /** The blocks that the named filter removes before it stops. */
  function NamedBlocks(src: string, needle: string): seq<Block>
    decreases |src|
  {
    hide BlockAt, FindText;
    match FindText(src, needle, 0)
    case None => []
    case Some(call) =>
      match BlockAt(src, call, call + |needle|)
      case Err(_) => []
      case Ok(b) => [b] + NamedBlocks(Remove(src, b), needle)
  }

  /** The scan is in the same state at both ends of each stretch removed. A call in
      code meets that when the braces of its line and header balance; a call in a
      comment may not, because its block is looked for as if in code. */
  ghost predicate CleanCalls(src: string, needle: string)
    decreases |src|
  {
    hide BlockAt, FindText;
    match FindText(src, needle, 0)
    case None => true
    case Some(call) =>
      match BlockAt(src, call, call + |needle|)
      case Err(_) => true
      case Ok(b) => At(src, b.end) == At(src, b.line) && CleanCalls(Remove(src, b), needle)
  }

  /** The named filter removes `NamedBlocks`; each removal keeps the states of the
      text behind it if and only if the calls are clean. */
  lemma {:induction false} NamedRun(src: string, needle: string, removed: nat)
    requires FilterNamed(src, needle, removed).Ok?
    ensures Placed(src, NamedBlocks(src, needle))
    ensures RemoveAll(src, NamedBlocks(src, needle)) == FilterNamed(src, needle, removed).value
    ensures KeepsAll(src, NamedBlocks(src, needle)) <==> CleanCalls(src, needle)
    decreases |src|
  {
    hide FindText, BlockAt, KeepsState, At, LineStart;
    var at := FindText(src, needle, 0);
    if at.Some? {
      var b := BlockAt(src, at.value, at.value + |needle|).value;
      KeepsStateExactly(src, b);
      NamedRun(Remove(src, b), needle, removed + 1);
      assert NamedBlocks(src, needle)[1..] == NamedBlocks(Remove(src, b), needle);
    }
  }

  /** Every byte that the named filter retains keeps its lexer state and its brace
      depth, for any text with clean calls. */
  lemma NamedFilterIsTransparent(src: string, needle: string)
    requires CleanCalls(src, needle) && FilterNamed(src, needle, 0).Ok?
    ensures Placed(src, NamedBlocks(src, needle))
    ensures Embeds(FilterNamed(src, needle, 0).value, src, Kept(src, NamedBlocks(src, needle)))
  {
    hide Embeds, Kept, KeepsAll, FilterNamed, CleanCalls;
    NamedRun(src, needle, 0);
    RemovalsEmbed(src, NamedBlocks(src, needle));
  }

  /** A successful named filter leaves no call, so that a second run fails. */
  lemma {:induction false} NamedFilterLeavesNone(src: string, needle: string, removed: nat)
    requires FilterNamed(src, needle, removed).Ok?
    ensures var result := FilterNamed(src, needle, removed).value;
            FindText(result, needle, 0).None? && FilterNamed(result, needle, 0) == Err(Missing)
    decreases |src|
  {
    hide FindText, BlockAt;
    var at := FindText(src, needle, 0);
    if at.Some? {
      NamedFilterLeavesNone(Remove(src, BlockAt(src, at.value, at.value + |needle|).value), needle, removed + 1);
    }
  }

  // ---------- A call in a comment ----------

  /** A comment that names a target and holds one more quotation mark, and a string
      with braces on the next line. */
  const COMMENTED := "# t(\"a\") \"\n\"{}\""

  const COMMENTED_BLOCK := Block(0, 2, 12, 13, 14)

  lemma AtNext(src: string, i: nat)
    requires i < |src|
    ensures At(src, i + 1) == State(Step(At(src, i).lex, src[i]), At(src, i).depth + Delta(At(src, i).lex, src[i]))
  {
    RunNext(State(Code, 0), src, 0, i);
    assert src[0..i + 1] == src[..i + 1] && src[0..i] == src[..i];
  }

  /** A comment goes on up to its line feed. */
  lemma {:induction false} CommentGoesOn(src: string, from: nat, end: nat)
    requires from <= end <= |src| && At(src, from).lex == Comment
    requires forall k :: from <= k < end ==> src[k] != '\n'
    ensures At(src, end) == At(src, from)
    decreases end
  {
    hide At;
    if from < end {
      CommentGoesOn(src, from, end - 1);
      AtNext(src, end - 1);
    }
  }

  lemma CommentedStart()
    ensures At(COMMENTED, 0) == State(Code, 0) && At(COMMENTED, 1) == State(Comment, 0)
  {
    assert COMMENTED[..0] == [];
    RunEmpty(State(Code, 0));
    hide At;
    AtNext(COMMENTED, 0);
  }

  lemma CommentedFirstLine()
    ensures At(COMMENTED, 11) == State(Code, 0)
  {
    hide At;
    CommentedStart();
    CommentGoesOn(COMMENTED, 1, 10);
    AtNext(COMMENTED, 10);
  }

  lemma CommentedStates()
    ensures At(COMMENTED, 0) == At(COMMENTED, 11) == State(Code, 0) && At(COMMENTED, 14) == State(Str(false), 0)
  {
    hide At;
    CommentedStart();
    CommentedFirstLine();
    AtNext(COMMENTED, 11);
    AtNext(COMMENTED, 12);
    AtNext(COMMENTED, 13);
  }

  lemma CommentedLines()
    ensures LinesStartInCode(COMMENTED)
  {
    CommentedStates();
    hide At;
    forall i | 0 <= i <= |COMMENTED| && (i == 0 || COMMENTED[i - 1] == '\n') ensures At(COMMENTED, i).lex == Code {
      assert i == 0 || i == 11;
    }
  }

  lemma CommentedCall()
    ensures FindText(COMMENTED, Needle("t", "a"), 0) == Some(2) && |Needle("t", "a")| == 6
  {
    assert Needle("t", "a") == "t(\"a\")";
    assert COMMENTED[0..][0] == '#' && COMMENTED[1..][0] == ' ' && COMMENTED[2..][..6] == "t(\"a\")";
  }

  lemma CommentedBlock()
    ensures BlockAt(COMMENTED, 2, 8) == Ok(COMMENTED_BLOCK)
  {
    var s := COMMENTED;
    assert OpenFrom(Code, s, 8) == OpenFrom(Code, s, 9) == OpenFrom(Str(false), s, 10) == OpenFrom(Str(false), s, 11)
        == OpenFrom(Code, s, 12);
    assert CloseFrom(Code, 0, s, 12) == CloseFrom(Code, 1, s, 13) == Some(13);
    assert LineStart(s, 0) == LineStart(s, 1) == LineStart(s, 2) == 0 && SkipSpace(s, 14) == 14;
  }

  /** The block found behind the call is inside the string, and removing it leaves
      the rest of the string as code, although every line starts in code and no
      `}` stands in the header. */
  lemma CommentedCallBreaks()
    ensures LinesStartInCode(COMMENTED) && FindText(COMMENTED, Needle("t", "a"), 0) == Some(2)
    ensures BlockAt(COMMENTED, 2, 8) == Ok(COMMENTED_BLOCK) && '}' !in COMMENTED[2..12]
    ensures !KeepsState(COMMENTED, COMMENTED_BLOCK) && !CleanCalls(COMMENTED, Needle("t", "a"))
  {
    CommentedBlock();
    CommentedCall();
    CommentedLines();
    hide At, BlockAt, FindText, KeepsState, LinesStartInCode, Needle;
    CommentedStates();
    KeepsStateExactly(COMMENTED, COMMENTED_BLOCK);
  }
}
