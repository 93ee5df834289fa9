/** GN text as it is written: strings, comments, and whole calls, and what the test
    filter makes of them. */
module GnCalls {
  import opened Base
  import opened GnLexer
  import opened GnFilter
  import opened GnLaws
  import opened GnTests

  // ---------- Pieces of text ----------

  /** No quotation mark, comment or brace. */
  predicate Plain(s: string) {
    forall c :: c in s ==> PlainChar(c)
  }

  predicate PlainChar(c: char) {
    c != '"' && c != '#' && c != '{' && c != '}'
  }

  /** A string's contents as GN writes them. */
  function Escape(s: string): string {
    if s == "" then ""
    else (if s[0] == '"' || s[0] == '\\' then ['\\', s[0]] else [s[0]]) + Escape(s[1..])
  }

  lemma {:induction false} PlainRun(d: int, s: string)
    requires Plain(s)
    ensures Run(State(Code, d), s) == State(Code, d)
    decreases |s|
  {
    if s != "" {
      assert s[0] in s && forall c :: c in s[1..] ==> c in s;
      PlainRun(d, s[1..]);
    }
  }

  lemma {:induction false} EscapeRun(d: int, s: string)
    ensures Run(State(Str(false), d), Escape(s)) == State(Str(false), d)
    decreases |s|
  {
    if s != "" {
      var first := if s[0] == '"' || s[0] == '\\' then ['\\', s[0]] else [s[0]];
      RunConcat(State(Str(false), d), first, Escape(s[1..]));
      RunOne(State(Str(false), d), first[0]);
      if |first| == 2 {
        assert first == [first[0]] + [first[1]];
        RunConcat(State(Str(false), d), [first[0]], [first[1]]);
        RunOne(State(Str(true), d), first[1]);
      }
      EscapeRun(d, s[1..]);
    }
  }

  lemma {:induction false} CommentRun(d: int, s: string)
    requires '\n' !in s
    ensures Run(State(Comment, d), s) == State(Comment, d)
    decreases |s|
  {
    if s != "" {
      assert s[0] in s && forall c :: c in s[1..] ==> c in s;
      CommentRun(d, s[1..]);
    }
  }

  /** The scanner is back in code, at the same depth, behind a string with any
      contents and behind a comment with any text; and each brace in code counts. */
  lemma ScanPieces(d: int, s: string)
    ensures Run(State(Code, d), "\"" + Escape(s) + "\"") == State(Code, d)
    ensures '\n' !in s ==> Run(State(Code, d), "#" + s + "\n") == State(Code, d)
    ensures Run(State(Code, d), "{") == State(Code, d + 1) && Run(State(Code, d), "}") == State(Code, d - 1)
  {
    RunConcat(State(Code, d), "\"" + Escape(s), "\"");
    RunConcat(State(Code, d), "\"", Escape(s));
    RunOne(State(Code, d), '"');
    EscapeRun(d, s);
    RunOne(State(Str(false), d), '"');
    RunOne(State(Code, d), '{');
    RunOne(State(Code, d), '}');
    if '\n' !in s {
      RunConcat(State(Code, d), "#" + s, "\n");
      RunConcat(State(Code, d), "#", s);
      RunOne(State(Code, d), '#');
      CommentRun(d, s);
      RunOne(State(Comment, d), '\n');
    }
  }

  // ---------- The braces of a call ----------

  lemma {:induction false} SkipPlain(src: string, i: nat, j: nat, depth: nat)
    requires i <= j <= |src| && forall k :: i <= k < j ==> PlainChar(src[k])
    ensures OpenFrom(Code, src, i) == OpenFrom(Code, src, j)
    ensures CloseFrom(Code, depth, src, i) == CloseFrom(Code, depth, src, j)
    decreases j - i
  {
    if i < j {
      SkipPlain(src, i + 1, j, depth);
    }
  }

  lemma AtMark(src: string, i: nat)
    requires i < |src|
    ensures src[i] == '"' ==> OpenFrom(Code, src, i) == OpenFrom(Str(false), src, i + 1)
    ensures src[i] == '{' ==> OpenFrom(Code, src, i) == Some(i)
    ensures src[i] == '{' ==> CloseFrom(Code, 0, src, i) == CloseFrom(Code, 1, src, i + 1)
    ensures src[i] == '}' ==> CloseFrom(Code, 1, src, i) == Some(i)
  {
  }

  lemma {:induction false} SkipString(src: string, i: nat, s: string)
    requires i + |Escape(s)| < |src| && src[i..i + |Escape(s)|] == Escape(s) && src[i + |Escape(s)|] == '"'
    ensures OpenFrom(Str(false), src, i) == OpenFrom(Code, src, i + |Escape(s)| + 1)
    decreases |s|
  {
    if s != "" {
      var n := if s[0] == '"' || s[0] == '\\' then 2 else 1;
      var e := src[i..i + |Escape(s)|];
      assert e[0] == src[i] && (n == 2 ==> e[1] == src[i + 1]);
      assert e[n..] == Escape(s[1..]) == src[i + n..i + |Escape(s)|];
      SkipString(src, i + n, s[1..]);
    }
  }

  function Header(kind: string, name: string): string {
    kind + "(\"" + Escape(name) + "\") "
  }

  /** A call with its block on lines of its own. */
  function CallText(kind: string, name: string, body: string): string {
    Header(kind, name) + "{" + body + "}\n"
  }

  /** A kind's name. */
  predicate Word(kind: string) {
    kind != "" && forall c :: c in kind ==> 'a' <= c <= 'z' || c == '_'
  }

  /** Text of one line, as the contents of a string. */
  predicate OneLine(s: string) {
    '\n' !in s && '\r' !in s
  }

  /** A body without calls. */
  predicate PlainBody(body: string) {
    Plain(body) && '(' !in body && '\r' !in body
  }

  /** Where the pieces of a header stand. */
  lemma HeaderParts(kind: string, name: string)
    ensures var h, n, e := Header(kind, name), |kind|, |Escape(name)|;
            && |h| == n + 5 + e && h[..n] == kind && h[n] == '(' && h[n + 1] == '"'
            && h[n + 2..n + 2 + e] == Escape(name) && h[n + 2 + e] == '"' && h[n + 3 + e] == ')' && h[n + 4 + e] == ' '
  {
    hide Escape;
    var h, n, e := Header(kind, name), |kind|, |Escape(name)|;
    assert h == kind + ("(\"" + Escape(name) + "\") ");
    var rest := "(\"" + Escape(name) + "\") ";
    assert rest[0] == '(' && rest[1] == '"' && rest[2..2 + e] == Escape(name);
    assert h[n + 2..n + 2 + e] == rest[2..2 + e];
    assert h[n + 2 + e] == rest[2 + e] && h[n + 3 + e] == rest[3 + e] && h[n + 4 + e] == rest[4 + e];
  }

  lemma HeaderOpens(kind: string, name: string, src: string)
    requires Word(kind) && |Header(kind, name)| < |src| && src[|Header(kind, name)|] == '{'
    requires src[..|Header(kind, name)|] == Header(kind, name)
    ensures OpenFrom(Code, src, 0) == Some(|Header(kind, name)|)
  {
    HeaderParts(kind, name);
    hide Header, OpenFrom, Escape;
    var h, n, e := Header(kind, name), |kind|, |Escape(name)|;
    assert forall k :: 0 <= k < |h| ==> src[k] == h[k];
    forall k | 0 <= k < n + 1 ensures PlainChar(src[k]) {
      assert k < n ==> h[k] == h[..n][k] == kind[k] && kind[k] in kind;
    }
    SkipPlain(src, 0, n + 1, 0);
    AtMark(src, n + 1);
    assert src[n + 2..n + 2 + e] == h[n + 2..n + 2 + e];
    SkipString(src, n + 2, name);
    SkipPlain(src, n + 3 + e, n + 5 + e, 0);
    AtMark(src, |h|);
  }

  lemma BodyCloses(h: string, body: string)
    requires Plain(body)
    ensures var src := h + "{" + body + "}\n";
            CloseFrom(Code, 0, src, |h|) == Some(|h| + 1 + |body|)
  {
    hide CloseFrom;
    var src := h + "{" + body + "}\n";
    AtMark(src, |h|);
    assert forall k :: |h| + 1 <= k < |h| + 1 + |body| ==> src[k] == body[k - |h| - 1] && src[k] in body;
    SkipPlain(src, |h| + 1, |h| + 1 + |body|, 1);
    AtMark(src, |h| + 1 + |body|);
  }

  function CallBlock(kind: string, name: string, body: string): Block {
    var h := |Header(kind, name)|;
    Block(0, 0, h, h + 1 + |body|, h + 3 + |body|)
  }

  /** The block of a call that stands alone is the whole text. */
  lemma CallHasBlock(kind: string, name: string, body: string)
    requires Word(kind) && Plain(body)
    ensures var src := CallText(kind, name, body);
            BlockAt(src, 0, 0) == Ok(CallBlock(kind, name, body)) && |src| == CallBlock(kind, name, body).end
  {
    var h := Header(kind, name);
    var src := CallText(kind, name, body);
    assert src[..|h|] == h && src[|h|] == '{';
    HeaderOpens(kind, name, src);
    BodyCloses(h, body);
    var close := |h| + 1 + |body|;
    assert |src| == close + 2 && src[close + 1] == '\n';
    hide OpenFrom, CloseFrom, Header;
    assert SkipSpace(src, close + 2) == close + 2;
    assert SkipSpace(src, close + 1) == close + 2;
    assert LineStart(src, 0) == 0;
  }

  // ---------- The only head of a call ----------

  lemma {:induction false} EscapeOneLine(name: string)
    requires OneLine(name)
    ensures OneLine(Escape(name))
  {
    if name != "" {
      assert name[0] in name && forall c :: c in name[1..] ==> c in name;
      EscapeOneLine(name[1..]);
    }
  }

  lemma HeaderOneLine(kind: string, name: string)
    requires Word(kind) && OneLine(name)
    ensures OneLine(Header(kind, name))
  {
    EscapeOneLine(name);
    assert '\n' !in "(\"" && '\n' !in "\") ";
    hide Escape;
  }

  /** A line has no head behind its first visible byte. */
  lemma InFirstLine(src: string, call: nat)
    requires 0 < call <= |src| && '\n' !in src[0..call] && !IsSpace(src[0])
    ensures !Heads(src, call)
  {
    LineStartUnique(src, 0, call);
  }

  lemma ParenthesisOfCall(line: string, other: string)
    requires other + "(" <= line
    ensures '(' in line
  {
    var call := other + "(";
    assert line[|other|] == call[|other|] == '(';
  }

  lemma NoParenthesis(line: string, other: string)
    requires '(' !in line
    ensures !(other + "(" <= line)
  {
    if other + "(" <= line {
      ParenthesisOfCall(line, other);
    }
  }

  /** Behind the first line there is no call of anything. */
  lemma NoOtherCall(kind: string, name: string, body: string, call: nat, other: string)
    requires Word(kind) && OneLine(name) && PlainBody(body)
    requires 0 < call <= |CallText(kind, name, body)| && Heads(CallText(kind, name, body), call)
    ensures !CallsKind(CallText(kind, name, body), call, other)
  {
    var h := Header(kind, name);
    var src := CallText(kind, name, body);
    HeaderOneLine(kind, name);
    assert src[0] == h[0] == kind[0] && kind[0] in kind && !IsSpace(src[0]);
    hide Header, Word, Heads;
    if call <= |h| {
      assert src[0..call] == h[..call];
      InFirstLine(src, call);
    } else {
      var line := LineFrom(src, call);
      forall i | 0 <= i < |line| ensures line[i] != '(' {
        var k := call + i - |h|;
        assert line[i] == src[call + i] == (h + "{" + body + "}\n")[|h| + k];
        if 1 <= k <= |body| {
          assert src[|h| + k] == body[k - 1] && body[k - 1] in body;
        }
      }
      NoParenthesis(line, other);
    }
  }

  lemma CallHeads(kind: string, name: string, body: string)
    requires Word(kind)
    ensures Heads(CallText(kind, name, body), 0)
  {
    var src := CallText(kind, name, body);
    assert src[0] == kind[0] && kind[0] in kind;
    assert LineStart(src, 0) == 0;
  }

  lemma FirstLineCalls(kind: string, name: string, body: string, other: string)
    requires Word(kind) && OneLine(name) && '(' !in other
    ensures CallsKind(CallText(kind, name, body), 0, other) <==> other == kind
  {
    var h := Header(kind, name);
    var src := CallText(kind, name, body);
    HeaderOneLine(kind, name);
    assert src[..|h|] == h && forall k :: 0 <= k < |h| ==> src[k] == h[k];
    var line := LineFrom(src, 0);
    assert |line| >= |h| && line[..|h|] == h by {
      assert LineEnd(src, 0) >= |h|;
      assert line == src[0..LineEnd(src, 0)];
    }
    assert h[..|kind| + 1] == kind + "(" && line[..|kind| + 1] == h[..|kind| + 1];
    if other + "(" <= line {
      SamePrefix(line, kind, other);
    }
  }

  lemma SamePrefix(line: string, kind: string, other: string)
    requires kind + "(" <= line && other + "(" <= line && '(' !in other && Word(kind)
    ensures other == kind
  {
    assert line[|kind|] == (kind + "(")[|kind|] == '(' && line[|other|] == (other + "(")[|other|] == '(';
    assert forall k :: 0 <= k < |kind| ==> line[k] == (kind + "(")[k] == kind[k] && kind[k] in kind;
    assert forall k :: 0 <= k < |other| ==> line[k] == (other + "(")[k] == other[k] && other[k] in other;
    assert |kind| == |other|;
  }

  // ---------- The filter on a call ----------

  /** What makes a call alone a test target. */
  predicate IsTest(kind: string, name: string, body: string) {
    IsTestKind(kind) || Occurs("unittest", Header(kind, name)) || SaysTestonly(body)
  }

  lemma CallIsTarget(kind: string, name: string, body: string)
    requires IsKnownKind(kind) && Word(kind) && OneLine(name) && PlainBody(body)
    ensures TestTarget(CallText(kind, name, body), 0, CallBlock(kind, name, body)) <==> IsTest(kind, name, body)
  {
    var src, b := CallText(kind, name, body), CallBlock(kind, name, body);
    hide IsKnownKind, CallText, CallBlock, Header, BlockAt, CallsKind, Heads, Marked, IsTest;
    CallHasBlock(kind, name, body);
    CallHeads(kind, name, body);
    assert '(' !in kind by { assert forall c :: c in kind ==> c != '('; }
    FirstLineCalls(kind, name, body, kind);
    CallParts(kind, name, body);
    CallIsMarked(kind, name, body);
  }

  lemma CallIsMarked(kind: string, name: string, body: string)
    requires Word(kind) && OneLine(name) && Plain(body)
    ensures CallParted(CallText(kind, name, body), CallBlock(kind, name, body), kind, name, body)
    ensures Marked(CallText(kind, name, body), 0, CallBlock(kind, name, body)) <==> IsTest(kind, name, body)
  {
    hide CallText, CallBlock, Header, CallsKind, Occurs, SaysTestonly, IsTestKind;
    CallParts(kind, name, body);
    KindMarks(kind, name, body);
  }

  lemma KindMarks(kind: string, name: string, body: string)
    requires Word(kind) && OneLine(name)
    ensures (exists other :: IsTestKind(other) && CallsKind(CallText(kind, name, body), 0, other)) <==> IsTestKind(kind)
  {
    hide CallText, CallsKind, IsTestKind;
    forall other | IsTestKind(other) ensures CallsKind(CallText(kind, name, body), 0, other) <==> other == kind {
      TestKindIsPlain(other);
      FirstLineCalls(kind, name, body, other);
    }
  }

  lemma TestKindIsPlain(kind: string)
    requires IsTestKind(kind)
    ensures '(' !in kind
  {
  }

  predicate CallParted(src: string, b: Block, kind: string, name: string, body: string) {
    && b.call == b.line == 0 && b.open < b.close < b.end == |src|
    && src[0..b.open] == Header(kind, name) && src[b.open + 1..b.close] == body
  }

  lemma CallParts(kind: string, name: string, body: string)
    ensures CallParted(CallText(kind, name, body), CallBlock(kind, name, body), kind, name, body)
  {
    hide Header;
  }

  lemma OnlyCall(kind: string, name: string, body: string)
    requires IsKnownKind(kind) && Word(kind) && OneLine(name) && PlainBody(body)
    ensures var src := CallText(kind, name, body);
            forall call: nat, b :: call <= |src| && TestTarget(src, call, b) ==> call == 0 && b == CallBlock(kind, name, body)
  {
    var src := CallText(kind, name, body);
    CallHasBlock(kind, name, body);
    hide CallText, CallBlock, BlockAt, IsKnownKind, Marked;
    forall call: nat, b | call <= |src| && TestTarget(src, call, b) ensures call == 0 && b == CallBlock(kind, name, body) {
      if call > 0 {
        forall other ensures !CallsKind(src, call, other) {
          NoOtherCall(kind, name, body, call, other);
        }
      }
    }
  }

  lemma NoReturn(kind: string, name: string, body: string)
    requires OneLine(Header(kind, name)) && '\r' !in body
    ensures '\r' !in CallText(kind, name, body)
  {
    hide Header;
  }

  /** A call that stands alone, of any known kind, with any name and any plain body:
      it is taken out altogether if its kind is one of the nine test kinds, its
      header says `unittest`, or some line of its body says `testonly = true`, and
      left as it is otherwise. */
  lemma FilterOnCall(kind: string, name: string, body: string)
    requires IsKnownKind(kind) && Word(kind) && OneLine(name) && PlainBody(body)
    ensures FilterTests(CallText(kind, name, body)) == if IsTest(kind, name, body) then "" else CallText(kind, name, body)
  {
    var src, b := CallText(kind, name, body), CallBlock(kind, name, body);
    HeaderOneLine(kind, name);
    NoReturn(kind, name, body);
    CallIsTarget(kind, name, body);
    OnlyCall(kind, name, body);
    CallParts(kind, name, body);
    hide IsKnownKind, CallText, CallBlock, TestTarget, Candidate, IsTest, Word, Header;
    if IsTest(kind, name, body) {
      assert NoTarget(src, 0);
      TargetIsSome(src, 0, b);
      assert src[..0] + src[b.end..] == "" && Remove(src, b) == "";
      NothingToFilter();
      FilterPeels(src, "");
      FilterPeels("", "");
      FirstIsPeeled(src, b, "");
    } else {
      assert NoTarget(src, |src|);
      FilterLeavesNoTarget(src);
    }
  }

  lemma NothingToFilter()
    ensures FilterTests("") == ""
  {
  }

  const YES := "\n  testonly = true\n"

  const NO := "\n  testonly = false\n"

  lemma TestonlyTrueSays()
    ensures SaysTestonly(YES)
  {
    LineStartUnique(YES, 1, 3);
    assert HeadsLine(YES, 3);
    assert YES[3..][..15] == "testonly = true";
    assert TestonlyAt(YES, 3);
    hide HeadsLine, TestonlyAt;
  }

  lemma TestonlyFalseDoesNot()
    ensures !SaysTestonly(NO)
  {
    hide HeadsLine;
    assert |NO| == 20 && NO[0] != 't' && NO[1] != 't' && NO[2] != 't' && NO[4] != 't' && NO[5] != 't' && NO[14] == 'f';
    forall j | 0 <= j <= |NO| ensures !TestonlyAt(NO, j) {
      if TestonlyAt(NO, j) {
        TestonlyLetters(NO, j);
      }
    }
  }

  lemma TestonlyLetters(body: string, j: nat)
    requires j <= |body| && TestonlyAt(body, j)
    ensures j + 15 <= |body| && body[j] == 't' && body[j + 11] == 't'
  {
    var s := body[j..];
    assert s[0] == "testonly = true"[0] && s[11] == "testonly = true"[11];
    assert body[j] == s[0] && body[j + 11] == s[11];
  }

  lemma TestonlyBodies()
    ensures PlainBody(YES) && PlainBody(NO)
  {
  }

  /** With `testonly = true` in its body a target of any known kind is taken out;
      with `testonly = false` one that is no test otherwise stays. */
  lemma TestonlyTargets(kind: string, name: string)
    requires IsKnownKind(kind) && Word(kind) && OneLine(name)
    ensures FilterTests(CallText(kind, name, "\n  testonly = true\n")) == ""
    ensures !IsTestKind(kind) && !Occurs("unittest", kind + "(\"" + Escape(name) + "\") ") ==>
      FilterTests(CallText(kind, name, "\n  testonly = false\n")) == CallText(kind, name, "\n  testonly = false\n")
  {
    TestonlyTrueSays();
    TestonlyFalseDoesNot();
    TestonlyBodies();
    hide IsKnownKind, Word, CallText, FilterTests, SaysTestonly, PlainBody, IsTestKind, Occurs;
    FilterOnCall(kind, name, YES);
    FilterOnCall(kind, name, NO);
  }
}
