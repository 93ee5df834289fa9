/**
 The GN scanner: strings, comments and braces.

 Text is a sequence of bytes, one `char` each. A brace counts only in code,
 that is outside strings and `#` comments.
 */
module GnLexer {
  import opened Base

  datatype Lex = Code | Str(escaped: bool) | Comment

  /** Lexer state and number of open code braces. */
  datatype State = State(lex: Lex, depth: int)

  function Step(l: Lex, c: char): Lex {
    match l
    case Comment => if c == '\n' then Code else Comment
    case Str(true) => Str(false)
    case Str(false) => if c == '\\' then Str(true) else if c == '"' then Code else l
    case Code => if c == '#' then Comment else if c == '"' then Str(false) else Code
  }

  function Delta(l: Lex, c: char): int {
    if l == Code && c == '{' then 1 else if l == Code && c == '}' then -1 else 0
  }

  function Run(st: State, s: string): State
    decreases |s|
  {
    if s == [] then st else Run(State(Step(st.lex, s[0]), st.depth + Delta(st.lex, s[0])), s[1..])
  }

  /** The state in front of byte `i` of `src`. */
  function At(src: string, i: nat): State
    requires i <= |src|
  {
    Run(State(Code, 0), src[..i])
  }

  /** The code-brace depth of `src[open..i]` scanned on its own. */
  function Depth(src: string, open: nat, i: nat): int
    requires open <= i <= |src|
  {
    Run(State(Code, 0), src[open..i]).depth
  }

  /** The first code `{` from `i` on, when the scan is in state `l` there. */
  function OpenFrom(l: Lex, src: string, i: nat): Option<nat>
    decreases |src| - i
  {
    if i >= |src| then None
    else if l == Code && src[i] == '{' then Some(i)
    else OpenFrom(Step(l, src[i]), src, i + 1)
  }

  /** The `}` that brings the depth back to zero; none as well when a `}` comes
      before any `{`. */
  function CloseFrom(l: Lex, depth: nat, src: string, i: nat): Option<nat>
    decreases |src| - i
  {
    if i >= |src| then None
    else if l == Code && src[i] == '{' then CloseFrom(l, depth + 1, src, i + 1)
    else if l == Code && src[i] == '}' then
      if depth == 0 then None
      else if depth == 1 then Some(i)
      else CloseFrom(l, depth - 1, src, i + 1)
    else CloseFrom(Step(l, src[i]), depth, src, i + 1)
  }

  // ---------- The two scanners, as loops ----------

  /** The lexer state that the flags of a scanner stand for. */
  function Flags(inString: bool, escaped: bool, inComment: bool): Lex {
    if inComment then Comment else if inString then Str(escaped) else Code
  }

  method NextGnOpenBrace(src: string, start: nat) returns (open: Option<nat>)
    ensures open == OpenFrom(Code, src, start)
  {
    var inString, escaped, inComment := false, false, false;
    var index := start;
    while index < |src|
      invariant !(inString && inComment) && (escaped ==> inString)
      invariant OpenFrom(Code, src, start) == OpenFrom(Flags(inString, escaped, inComment), src, index)
    {
      var c := src[index];
      if inComment {
        if c == '\n' {
          inComment := false;
        }
      } else if inString {
        if escaped {
          escaped := false;
        } else if c == '\\' {
          escaped := true;
        } else if c == '"' {
          inString := false;
        }
      } else if c == '#' {
        inComment := true;
      } else if c == '"' {
        inString := true;
      } else if c == '{' {
        return Some(index);
      }
      index := index + 1;
    }
    open := None;
  }

  method MatchingGnBrace(src: string, open: nat) returns (close: Option<nat>)
    ensures close == CloseFrom(Code, 0, src, open)
  {
    var depth: nat := 0;
    var inString, escaped, inComment := false, false, false;
    var index := open;
    while index < |src|
      invariant !(inString && inComment) && (escaped ==> inString)
      invariant CloseFrom(Code, 0, src, open) == CloseFrom(Flags(inString, escaped, inComment), depth, src, index)
    {
      var c := src[index];
      if inComment {
        if c == '\n' {
          inComment := false;
        }
      } else if inString {
        if escaped {
          escaped := false;
        } else if c == '\\' {
          escaped := true;
        } else if c == '"' {
          inString := false;
        }
      } else if c == '#' {
        inComment := true;
      } else if c == '"' {
        inString := true;
      } else if c == '{' {
        depth := depth + 1;
      } else if c == '}' {
        if depth == 0 {
          return None;
        }
        depth := depth - 1;
        if depth == 0 {
          return Some(index);
        }
      }
      index := index + 1;
    }
    close := None;
  }

  // ---------- Runs ----------

  lemma {:induction false} RunConcat(st: State, a: string, b: string)
    ensures Run(st, a + b) == Run(Run(st, a), b)
    decreases |a|
  {
    if a == [] {
      assert a + b == b;
    } else {
      RunConcat(State(Step(st.lex, a[0]), st.depth + Delta(st.lex, a[0])), a[1..], b);
      assert (a + b)[1..] == a[1..] + b;
    }
  }

  /** A run does not look at the depth it starts from. */
  lemma {:induction false} RunShift(st: State, s: string, d: int)
    ensures Run(State(st.lex, st.depth + d), s) == State(Run(st, s).lex, Run(st, s).depth + d)
    decreases |s|
  {
    if s != [] {
      RunShift(State(Step(st.lex, s[0]), st.depth + Delta(st.lex, s[0])), s[1..], d);
    }
  }

  lemma RunOne(st: State, c: char)
    ensures Run(st, [c]) == State(Step(st.lex, c), st.depth + Delta(st.lex, c))
  {
    assert [c][1..] == [];
  }

  /** Extending a scan by one byte. */
  lemma RunNext(st: State, src: string, from: nat, i: nat)
    requires from <= i < |src|
    ensures Run(st, src[from..i + 1])
         == State(Step(Run(st, src[from..i]).lex, src[i]), Run(st, src[from..i]).depth + Delta(Run(st, src[from..i]).lex, src[i]))
  {
    RunConcat(st, src[from..i], [src[i]]);
    RunOne(Run(st, src[from..i]), src[i]);
    assert src[from..i] + [src[i]] == src[from..i + 1];
  }

  /** `close` is the first place behind `i` where the code-brace depth of the text
      from `open` on is back to zero; there is none if and only if it is none. */
  ghost predicate FirstReturn(src: string, open: nat, i: nat, close: Option<nat>)
    requires open <= i <= |src|
  {
    match close
    case Some(j) =>
      && i <= j < |src| && src[j] == '}' && Run(State(Code, 0), src[open..j]).lex == Code
      && Depth(src, open, j + 1) == 0
      && (forall k :: i < k <= j ==> Depth(src, open, k) > 0)
    case None => forall k :: i < k <= |src| ==> Depth(src, open, k) > 0
  }

  lemma {:induction false} CloseFromSpec(src: string, open: nat, i: nat, st: State)
    requires open <= i <= |src| && st == Run(State(Code, 0), src[open..i])
    requires st.depth >= 0 && (st.depth == 0 ==> i < |src| && st.lex == Code && src[i] == '{')
    ensures FirstReturn(src, open, i, CloseFrom(st.lex, st.depth, src, i))
    decreases |src| - i
  {
    if i < |src| {
      RunNext(State(Code, 0), src, open, i);
      var next := Run(State(Code, 0), src[open..i + 1]);
      if next.depth > 0 {
        CloseFromSpec(src, open, i + 1, next);
      }
    }
  }

  /** `matching_gn_brace` finds the first place where the code-brace depth is
      back to zero, and nothing if and only if there is no such place. */
  lemma MatchingBrace(src: string, open: nat)
    requires open < |src| && src[open] == '{'
    ensures FirstReturn(src, open, open, CloseFrom(Code, 0, src, open))
    ensures CloseFrom(Code, 0, src, open).Some? ==> open < CloseFrom(Code, 0, src, open).value
  {
    assert src[open..open] == [] && Run(State(Code, 0), src[open..open]) == State(Code, 0);
    hide Run, CloseFrom, FirstReturn;
    CloseFromSpec(src, open, open, State(Code, 0));
    ReturnIsBehind(src, open, CloseFrom(Code, 0, src, open));
  }

  lemma ReturnIsBehind(src: string, open: nat, close: Option<nat>)
    requires open < |src| && src[open] == '{' && FirstReturn(src, open, open, close)
    ensures close.Some? ==> open < close.value
  {
  }

  /** `next_gn_open_brace` finds the first code `{`; before it the depth only falls. */
  lemma {:induction false} OpenFromSpec(src: string, start: nat, i: nat, st: State)
    requires start <= i <= |src| && st == Run(State(Code, 0), src[start..i])
    ensures match OpenFrom(st.lex, src, i)
            case Some(open) =>
              && i <= open < |src| && src[open] == '{' && Run(State(Code, 0), src[start..open]).lex == Code
              && (forall k :: i <= k < open ==> !(src[k] == '{' && Run(State(Code, 0), src[start..k]).lex == Code))
            case None => forall k :: i <= k < |src| ==> !(src[k] == '{' && Run(State(Code, 0), src[start..k]).lex == Code)
    decreases |src| - i
  {
    if i < |src| && !(st.lex == Code && src[i] == '{') {
      RunNext(State(Code, 0), src, start, i);
      OpenFromSpec(src, start, i + 1, Run(State(Code, 0), src[start..i + 1]));
    }
  }

  lemma NextOpenBrace(src: string, start: nat)
    requires start <= |src|
    ensures match OpenFrom(Code, src, start)
            case Some(open) =>
              && start <= open < |src| && src[open] == '{' && Run(State(Code, 0), src[start..open]).lex == Code
              && (forall k :: start <= k < open ==> !(src[k] == '{' && Run(State(Code, 0), src[start..k]).lex == Code))
            case None => forall k :: start <= k < |src| ==> !(src[k] == '{' && Run(State(Code, 0), src[start..k]).lex == Code)
  {
    assert src[start..start] == [] && Run(State(Code, 0), src[start..start]) == State(Code, 0);
    hide Run, OpenFrom;
    OpenFromSpec(src, start, start, State(Code, 0));
  }
}
