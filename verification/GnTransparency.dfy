/** Removing GN blocks does not disturb the text that stays. */
module GnTransparency {
  import opened Base
  import opened GnLexer
  import opened GnFilter
  import opened GnLaws

  /** Every line starts in code: strings close on their own line. */
  ghost predicate LinesStartInCode(src: string) {
    forall i :: 0 <= i <= |src| && (i == 0 || src[i - 1] == '\n') ==> At(src, i).lex == Code
  }

  /** Behind the block every byte keeps its lexer state and brace depth. */
  ghost predicate KeepsState(src: string, b: Block)
    requires b.line <= b.end <= |src|
  {
    forall k :: b.end <= k <= |src| ==> At(Remove(src, b), k - (b.end - b.line)) == At(src, k)
  }

  lemma AtTo(src: string, i: nat, j: nat)
    requires i <= j <= |src|
    ensures At(src, j) == Run(At(src, i), src[i..j])
  {
    RunConcat(State(Code, 0), src[..i], src[i..j]);
    assert src[..i] + src[i..j] == src[..j];
  }

  lemma RunFrom(st: State, s: string)
    requires st.lex == Code
    ensures Run(st, s) == State(Run(State(Code, 0), s).lex, st.depth + Run(State(Code, 0), s).depth)
  {
    RunShift(State(Code, 0), s, st.depth);
  }

  lemma {:induction false} RunSpaces(st: State, s: string)
    requires st.lex == Code && forall c :: c in s ==> IsSpace(c)
    ensures Run(st, s) == st
    decreases |s|
  {
    if s != [] {
      assert s[0] in s && forall c :: c in s[1..] ==> c in s;
      RunSpaces(st, s[1..]);
    }
  }

  /** Behind a removed block the scan is back in code, at the depth it had in
      front of the block's opening brace. */
  lemma BlockStates(src: string, call: nat, from: nat, b: Block)
    requires call <= from <= |src| && BlockAt(src, call, from) == Ok(b) && At(src, from).lex == Code
    ensures At(src, b.open).lex == Code && At(src, b.end) == At(src, b.open)
    ensures forall k :: from <= k < b.open ==> !(src[k] == '{' && At(src, k).lex == Code)
  {
    hide Run, OpenFrom, CloseFrom;
    NextOpenBrace(src, from);
    MatchingBrace(src, b.open);
    forall k | from <= k <= b.open ensures At(src, k).lex == Run(State(Code, 0), src[from..k]).lex {
      AtTo(src, from, k);
      RunFrom(At(src, from), src[from..k]);
    }
    AtTo(src, b.open, b.close + 1);
    RunFrom(At(src, b.open), src[b.open..b.close + 1]);
    RunNext(State(Code, 0), src, b.open, b.close);
    assert src[b.close] == '}';
    AtTo(src, b.close + 1, b.end);
    assert forall k :: b.close + 1 <= k < b.end ==> IsAsciiSpace(src[k]);
    RunSpaces(At(src, b.close + 1), src[b.close + 1..b.end]);
  }

  /** The text behind a removed stretch keeps its states if and only if the scan is
      in the same state at both ends of the stretch, whatever stands there. */
  lemma KeepsStateExactly(src: string, b: Block)
    requires b.line <= b.end <= |src|
    ensures KeepsState(src, b) <==> At(src, b.end) == At(src, b.line)
  {
    hide Run;
    forall k | b.end <= k <= |src|
      ensures At(src, k) == Run(At(src, b.end), src[b.end..k])
      ensures At(Remove(src, b), k - (b.end - b.line)) == Run(At(src, b.line), src[b.end..k])
    {
      AtTo(src, b.end, k);
      var r := Remove(src, b);
      AtTo(r, b.line, k - (b.end - b.line));
      assert r[..b.line] == src[..b.line] && r[b.line..k - (b.end - b.line)] == src[b.end..k];
    }
    assert src[b.end..b.end] == [];
    RunEmpty(At(src, b.end));
    RunEmpty(At(src, b.line));
  }

  /** For a block whose line starts in code and whose call ends in code: if and only
      if the braces in front of the block on its line, and in its header, balance. */
  lemma KeepsStateIff(src: string, call: nat, from: nat, b: Block)
    requires call <= from <= |src| && BlockAt(src, call, from) == Ok(b)
    requires At(src, from).lex == Code && At(src, b.line).lex == Code
    ensures KeepsState(src, b) <==> At(src, b.open).depth == At(src, b.line).depth
  {
    hide Run;
    BlockStates(src, call, from, b);
    KeepsStateExactly(src, b);
  }

  lemma RunEmpty(st: State)
    ensures Run(st, []) == st
  {
  }

  /** A code `}` between `from` and `to`. */
  ghost predicate ClosesBetween(src: string, from: nat, to: nat)
    requires from <= to <= |src|
  {
    exists k :: from <= k < to && src[k] == '}' && At(src, k).lex == Code
  }

  lemma {:induction false} DepthFalls(src: string, from: nat, end: nat)
    requires from <= end <= |src|
    requires forall k :: from <= k < end ==> !(src[k] == '{' && At(src, k).lex == Code)
    ensures At(src, end).depth <= At(src, from).depth
    ensures At(src, end).depth == At(src, from).depth <==> !ClosesBetween(src, from, end)
    decreases end
  {
    hide Run;
    if from < end {
      DepthFalls(src, from, end - 1);
      RunNext(State(Code, 0), src, 0, end - 1);
      assert src[0..end] == src[..end] && src[0..end - 1] == src[..end - 1];
      if ClosesBetween(src, from, end - 1) {
        assert ClosesBetween(src, from, end);
      }
    }
  }

  /** The state of a line start carries over to the head of the line. */
  lemma HeadInCode(src: string, call: nat)
    requires call <= |src| && Heads(src, call) && LinesStartInCode(src)
    ensures At(src, call) == At(src, LineStart(src, call)) && At(src, call).lex == Code
  {
    hide Run;
    var line := LineStart(src, call);
    AtTo(src, line, call);
    RunSpaces(At(src, line), src[line..call]);
  }

  /** A removed test block leaves every later byte its state if and only if no
      code `}` stands between the call and its opening brace. */
  lemma TestBlockTransparent(src: string, b: Block)
    requires '\r' !in src && LinesStartInCode(src) && Candidate(src, 0, 0) == Some(b)
    ensures WellPlaced(src, b, b.call) && (KeepsState(src, b) <==> !ClosesBetween(src, b.call, b.open))
  {
    hide Candidate, TestLine, StartsWithKind, KeepsState, ClosesBetween;
    CandidateFrom(src, 0);
    assert BlockAt(src, b.call, b.call) == Ok(b) by { TestBlockIsBlock(src, b.call); }
    HeadInCode(src, b.call);
    BlockStates(src, b.call, b.call, b);
    KeepsStateIff(src, b.call, b.call, b);
    DepthFalls(src, b.call, b.open);
  }

  lemma TestBlockIsBlock(src: string, call: nat)
    requires call <= |src| && TestBlockAt(src, call).Some?
    ensures BlockAt(src, call, call) == Ok(TestBlockAt(src, call).value)
    ensures TestBlockAt(src, call).value.line == LineStart(src, call)
  {
  }
}
