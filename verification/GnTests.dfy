/** Which GN calls are test targets, said of the text itself, and that the test
    filter removes these and nothing else. */
module GnTests {
  import opened Base
  import opened GnLexer
  import opened GnFilter
  import opened GnLaws

  // ---------- Test targets ----------

  predicate Occurs(needle: string, text: string) {
    exists i :: 0 <= i <= |text| && needle <= text[i..]
  }

  /** Only white space stands in front of position `j` on its line. */
  predicate HeadsLine(body: string, j: nat)
    requires j <= |body|
  {
    forall k :: LineStart(body, j) <= k < j ==> IsSpace(body[k])
  }

  predicate TestonlyAt(body: string, j: nat)
    requires j <= |body|
  {
    "testonly = true" <= body[j..]
  }

  /** Some line of `body` is white space followed by `testonly = true`. */
  predicate SaysTestonly(body: string) {
    exists j :: 0 <= j <= |body| && HeadsLine(body, j) && TestonlyAt(body, j)
  }

  predicate IsTestKind(kind: string) {
    || kind == "android_nocompile_test_suite" || kind == "cronet_instrumentation_test_apk" || kind == "fuzzer_test"
    || kind == "instrumentation_test_apk" || kind == "lint_test" || kind == "robolectric_binary"
    || kind == "robolectric_library" || kind == "script_test" || kind == "test"
  }

  /** The kinds of target that the filter looks at. */
  predicate IsKnownKind(kind: string) {
    EarlyKind(kind) || MiddleKind(kind) || LateKind(kind)
  }

  predicate EarlyKind(kind: string) {
    || kind == "action" || kind == "android_aidl" || kind == "android_apk" || kind == "android_assets"
    || kind == "android_java_prebuilt" || kind == "android_library" || kind == "android_nocompile_test_suite"
    || kind == "android_resources" || kind == "androidx_android_aar_prebuilt" || kind == "androidx_java_group"
    || kind == "bundle_data_from_filelist" || kind == "bundle_data" || kind == "component"
  }

  predicate MiddleKind(kind: string) {
    || kind == "copy" || kind == "cronet_instrumentation_test_apk" || kind == "executable" || kind == "fuzzer_test"
    || kind == "generate_jni" || kind == "generate_jni_registration" || kind == "group"
    || kind == "incremental_javac_prebuilt" || kind == "instrumentation_test_apk" || kind == "java_cpp_enum"
    || kind == "java_group" || kind == "java_library" || kind == "java_prebuilt"
  }

  predicate LateKind(kind: string) {
    || kind == "lint_test" || kind == "perfetto_generate_unittests" || kind == "perfetto_unittest_source_set"
    || kind == "python_library" || kind == "robolectric_binary" || kind == "robolectric_library"
    || kind == "script_test" || kind == "shared_library" || kind == "shared_library_with_jni" || kind == "source_set"
    || kind == "static_library" || kind == "target" || kind == "test"
  }

  /** The rest of the line at `call` begins with a call of `kind`. */
  predicate CallsKind(src: string, call: nat, kind: string)
    requires call <= |src|
  {
    kind + "(" <= LineFrom(src, call)
  }

  /** What makes a call of a known kind with block `b` a test target. */
  ghost predicate Marked(src: string, call: nat, b: Block)
    requires WellPlaced(src, b, call) && call <= |src|
  {
    || (exists kind :: IsTestKind(kind) && CallsKind(src, call, kind))
    || Occurs("unittest", src[call..b.open])
    || SaysTestonly(src[b.open + 1..b.close])
  }

  /** A test target with block `b` is called at the head of a line. */
  ghost predicate TestTarget(src: string, call: nat, b: Block) {
    && call <= |src| && Heads(src, call) && BlockAt(src, call, call) == Ok(b)
    && (exists kind :: IsKnownKind(kind) && CallsKind(src, call, kind))
    && Marked(src, call, b)
  }

  // ---------- The search finds test targets ----------

  lemma FoundIffOccurs(text: string, needle: string)
    ensures FindText(text, needle, 0).Some? <==> Occurs(needle, text)
  {
  }

  lemma StripsEnd(body: string, end: nat, ended: bool)
    requires end <= |body|
    ensures var line := StripCr(body[..end], ended);
            |line| <= end && line == body[..|line|] && (|line| < end ==> |line| == end - 1 && body[|line|] == '\r')
  {
  }

  lemma LiteralInLine(body: string, j: nat, end: nat)
    requires j <= end <= |body| && (end < |body| ==> body[end] == '\n') && TestonlyAt(body, j)
    ensures j + 15 <= end && body[j] == 't' && body[j + 14] == 'e' && body[j..j + 15] == "testonly = true"
  {
    var s := body[j..];
    assert s[..15] == "testonly = true" && forall k :: 0 <= k < 15 ==> s[k] == body[j + k];
    assert s[0] == 't' && s[14] == 'e';
    assert forall k :: 0 <= k < 15 ==> s[k] == "testonly = true"[k] != '\n';
    assert forall k :: j <= k < j + 15 ==> body[k] == s[k - j] != '\n';
  }

  /** The literal at the head of the line that ends at `end`. */
  predicate SaysBefore(body: string, end: nat)
    requires end <= |body|
  {
    exists j :: 0 <= j <= end && AllSpace(body, j) && TestonlyAt(body, j)
  }

  predicate AllSpace(body: string, j: nat)
    requires j <= |body|
  {
    forall k :: 0 <= k < j ==> IsSpace(body[k])
  }

  lemma TrimmedIsHead(body: string, n: nat)
    requires n <= |body|
    ensures var j := n - |TrimStart(body[..n])|;
            0 <= j && TrimStart(body[..n]) == body[j..n] && AllSpace(body, j) && (j < n ==> !IsSpace(body[j]))
  {
    hide TrimStart;
    var line := body[..n];
    var j := n - |TrimStart(line)|;
    assert line[j..] == body[j..n];
    assert forall k :: 0 <= k < n ==> line[k] == body[k];
  }

  /** The first line says so if and only if the literal stands behind its white space. */
  lemma FirstLineSays(body: string, end: nat, ended: bool)
    requires end <= |body| && (end < |body| ==> body[end] == '\n')
    ensures "testonly = true" <= TrimStart(StripCr(body[..end], ended)) <==> SaysBefore(body, end)
  {
    StripsEnd(body, end, ended);
    hide StripCr, TrimStart, SaysBefore, AllSpace, IsSpace;
    var n := |StripCr(body[..end], ended)|;
    TrimmedIsHead(body, n);
    var at := n - |TrimStart(body[..n])|;
    if "testonly = true" <= body[at..n] {
      SaysIfTrimmed(body, at, n, end);
    }
    if SaysBefore(body, end) {
      TrimmedIfSays(body, at, n, end);
    }
  }

  lemma SaysIfTrimmed(body: string, at: nat, n: nat, end: nat)
    requires at <= n <= end <= |body| && AllSpace(body, at) && "testonly = true" <= body[at..n]
    ensures SaysBefore(body, end)
  {
    hide AllSpace;
    assert body[at..][..15] == body[at..n][..15];
    assert TestonlyAt(body, at);
  }

  lemma TrimmedIfSays(body: string, at: nat, n: nat, end: nat)
    requires at <= n <= end <= |body| && AllSpace(body, at) && (at < n ==> !IsSpace(body[at]))
    requires (end < |body| ==> body[end] == '\n') && (n < end ==> n == end - 1 && body[n] == '\r')
    requires SaysBefore(body, end)
    ensures "testonly = true" <= body[at..n]
  {
    var j :| 0 <= j <= end && AllSpace(body, j) && TestonlyAt(body, j);
    hide TestonlyAt;
    LiteralInLine(body, j, end);
    assert !IsSpace('t') && j + 15 <= n;
    hide IsSpace;
    assert at == j;
    assert body[at..n][..15] == body[j..j + 15];
  }

  lemma HeadsFirst(body: string, j: nat, end: nat)
    requires j <= end <= |body| && '\n' !in body[..end]
    ensures HeadsLine(body, j) <==> AllSpace(body, j)
  {
    assert body[0..j] == body[..end][..j];
    LineStartUnique(body, 0, j);
  }

  lemma HeadsRest(body: string, end: nat, j: nat)
    requires end < j <= |body| && body[end] == '\n'
    ensures HeadsLine(body, j) <==> HeadsLine(body[end + 1..], j - end - 1)
    ensures TestonlyAt(body, j) <==> TestonlyAt(body[end + 1..], j - end - 1)
  {
    hide LineStart, IsSpace;
    var rest := body[end + 1..];
    var start := LineStart(rest, j - end - 1);
    assert rest[start..j - end - 1] == body[start + end + 1..j];
    assert start > 0 ==> rest[start - 1] == body[start + end];
    LineStartUnique(body, start + end + 1, j);
    assert forall k :: end < k < j ==> body[k] == rest[k - end - 1];
    assert rest[j - end - 1..] == body[j..];
    hide TestonlyAt;
    assert HeadsLine(body, j) ==> HeadsLine(rest, j - end - 1) by {
      assert forall k :: start <= k < j - end - 1 ==> rest[k] == body[k + end + 1];
    }
  }

  lemma SaysFirstOrRest(body: string, end: nat)
    requires end <= |body| && (end < |body| ==> body[end] == '\n') && '\n' !in body[..end]
    ensures SaysTestonly(body) <==> SaysBefore(body, end) || (end < |body| && SaysTestonly(body[end + 1..]))
  {
    hide HeadsLine, TestonlyAt, AllSpace;
    if SaysTestonly(body) {
      var j :| 0 <= j <= |body| && HeadsLine(body, j) && TestonlyAt(body, j);
      if j <= end {
        HeadsFirst(body, j, end);
      } else {
        HeadsRest(body, end, j);
      }
    }
    if SaysBefore(body, end) {
      var j :| 0 <= j <= end && AllSpace(body, j) && TestonlyAt(body, j);
      HeadsFirst(body, j, end);
    }
    if end < |body| && SaysTestonly(body[end + 1..]) {
      var rest := body[end + 1..];
      var j :| 0 <= j <= |rest| && HeadsLine(rest, j) && TestonlyAt(rest, j);
      HeadsRest(body, end, j + end + 1);
    }
  }

  lemma AnyFirstOrRest(body: string)
    ensures var end := Find(body, '\n');
            AnyTestonlyLine(body) <==>
              "testonly = true" <= TrimStart(StripCr(body[..end], end < |body|))
              || (end < |body| && AnyTestonlyLine(body[end + 1..]))
  {
    hide Find, TrimStart, StripCr;
  }

  lemma {:induction false} AnyLineIffSays(body: string)
    ensures AnyTestonlyLine(body) <==> SaysTestonly(body)
    decreases |body|
  {
    var end := Find(body, '\n');
    AnyFirstOrRest(body);
    hide SaysTestonly, SaysBefore, TrimStart, StripCr, Find, AnyTestonlyLine;
    FirstLineSays(body, end, end < |body|);
    SaysFirstOrRest(body, end);
    if end < |body| {
      AnyLineIffSays(body[end + 1..]);
    }
  }

  lemma KindIsListed(text: string)
    ensures StartsWithKind(text, TEST_KINDS) <==> exists kind :: IsTestKind(kind) && kind + "(" <= text
  {
    if StartsWithKind(text, TEST_KINDS) {
      var i :| 0 <= i < |TEST_KINDS| && TEST_KINDS[i] + "(" <= text;
      assert IsTestKind(TEST_KINDS[i]);
    }
    if kind :| IsTestKind(kind) && kind + "(" <= text {
      assert kind in TEST_KINDS;
      var i :| 0 <= i < |TEST_KINDS| && TEST_KINDS[i] == kind;
    }
  }

  lemma PartIsKnown(i: nat)
    requires i < |KINDS|
    ensures i < 13 ==> EarlyKind(KINDS[i])
    ensures 13 <= i < 26 ==> MiddleKind(KINDS[i])
    ensures 26 <= i ==> LateKind(KINDS[i])
  {
  }

  lemma EarlyIsIn(kind: string)
    requires EarlyKind(kind)
    ensures kind in KINDS
  {
  }

  lemma MiddleIsIn(kind: string)
    requires MiddleKind(kind)
    ensures kind in KINDS
  {
  }

  lemma LateIsIn(kind: string)
    requires LateKind(kind)
    ensures kind in KINDS
  {
  }

  lemma KnownIsListed(text: string)
    ensures StartsWithKind(text, KINDS) <==> exists kind :: IsKnownKind(kind) && kind + "(" <= text
  {
    hide IsKnownKind, KINDS;
    if StartsWithKind(text, KINDS) {
      var i :| 0 <= i < |KINDS| && KINDS[i] + "(" <= text;
      ListedIsKnown(i);
      assert IsKnownKind(KINDS[i]);
    }
    if kind :| IsKnownKind(kind) && kind + "(" <= text {
      KnownIsIn(kind);
      var i :| 0 <= i < |KINDS| && KINDS[i] == kind;
    }
  }

  lemma KnownIsIn(kind: string)
    requires IsKnownKind(kind)
    ensures kind in KINDS
  {
    hide EarlyKind, MiddleKind, LateKind, KINDS;
    if EarlyKind(kind) {
      EarlyIsIn(kind);
    } else if MiddleKind(kind) {
      MiddleIsIn(kind);
    } else {
      LateIsIn(kind);
    }
  }

  lemma ListedIsKnown(i: nat)
    requires i < |KINDS|
    ensures IsKnownKind(KINDS[i])
  {
    PartIsKnown(i);
    hide EarlyKind, MiddleKind, LateKind, KINDS;
  }

  lemma BlockIffTarget(src: string, call: nat)
    requires call <= |src| && Heads(src, call)
    ensures forall b :: TestBlockAt(src, call) == Some(b) <==> TestTarget(src, call, b)
  {
    hide BlockAt, LineFrom, StartsWithKind, IsKnownKind, KINDS, TEST_KINDS, FindText, Occurs, AnyTestonlyLine,
      SaysTestonly, Heads, IsTestKind, Marked;
    var line := LineFrom(src, call);
    KnownIsListed(line);
    if BlockAt(src, call, call).Ok? {
      MarkedIff(src, call, BlockAt(src, call, call).value);
    }
  }

  lemma MarkedIff(src: string, call: nat, b: Block)
    requires call <= |src| && WellPlaced(src, b, call)
    ensures Marked(src, call, b) <==>
      || StartsWithKind(LineFrom(src, call), TEST_KINDS)
      || FindText(src[call..b.open], "unittest", 0).Some?
      || AnyTestonlyLine(src[b.open + 1..b.close])
  {
    hide LineFrom, StartsWithKind, TEST_KINDS, FindText, Occurs, AnyTestonlyLine, SaysTestonly, IsTestKind;
    KindIsListed(LineFrom(src, call));
    FoundIffOccurs(src[call..b.open], "unittest");
    AnyLineIffSays(src[b.open + 1..b.close]);
  }

  /** No test target is called in front of `to`. */
  ghost predicate NoTarget(src: string, to: nat) {
    forall call, b :: 0 <= call < to ==> !TestTarget(src, call, b)
  }

  /** On text with LF line endings the search finds the first test target, and
      nothing if and only if there is none. */
  lemma SearchFindsTargets(src: string)
    requires '\r' !in src
    ensures Candidate(src, 0, 0).None? ==> NoTarget(src, |src|)
    ensures Candidate(src, 0, 0).Some? ==>
      var b := Candidate(src, 0, 0).value;
      b.call < |src| && TestTarget(src, b.call, b) && NoTarget(src, b.call)
  {
    hide Candidate, TestBlockAt, TestTarget, NoTestBlock, NoTarget, Heads;
    CandidateFrom(src, 0);
    if Candidate(src, 0, 0).None? {
      NoneIsNone(src, |src|);
    } else {
      var b := Candidate(src, 0, 0).value;
      NoneIsNone(src, b.call);
      BlockIffTarget(src, b.call);
      TargetHeads(src, b.call, b);
    }
  }

  lemma NoneIsNone(src: string, to: nat)
    requires to <= |src| && NoTestBlock(src, 0, to)
    ensures NoTarget(src, to)
  {
    hide TestBlockAt, Heads, TestTarget;
    forall call, b | 0 <= call < to ensures !TestTarget(src, call, b) {
      if TestTarget(src, call, b) {
        TargetHeads(src, call, b);
        BlockIffTarget(src, call);
      }
    }
  }

  lemma TargetHeads(src: string, call: nat, b: Block)
    requires TestTarget(src, call, b)
    ensures call < |src| && Heads(src, call)
  {
  }

  // ---------- What the test filter does ----------

  /** `out` is `src` with its test targets taken out, the first one first: from the
      start of its line to the next visible byte behind its block. */
  ghost predicate Peels(src: string, out: string)
    decreases |src|
  {
    if NoTarget(src, |src|) then out == src
    else exists call, b :: TestTarget(src, call, b) && NoTarget(src, call) && PlacedAt(src, b) && Peels(Remove(src, b), out)
  }

  predicate PlacedAt(src: string, b: Block) {
    b.line < b.end <= |src|
  }

  lemma PlainRest(src: string, b: Block)
    requires b.line <= b.end <= |src| && '\r' !in src
    ensures '\r' !in Remove(src, b)
  {
  }

  lemma TargetHasBlock(src: string, call: nat, b: Block)
    requires TestTarget(src, call, b)
    ensures call <= |src| && BlockAt(src, call, call) == Ok(b)
  {
    hide IsKnownKind, Heads, BlockAt, Marked, CallsKind;
  }

  lemma OneTarget(src: string, c: nat, b: Block, d: nat, e: Block)
    requires TestTarget(src, c, b) && NoTarget(src, c) && TestTarget(src, d, e) && NoTarget(src, d)
    ensures c == d && b == e
  {
    hide IsKnownKind, Heads, BlockAt, Marked, CallsKind;
    hide TestTarget;
    TargetHeads(src, c, b);
    TargetHeads(src, d, e);
    assert c == d;
    TargetHasBlock(src, c, b);
    TargetHasBlock(src, c, e);
  }

  lemma TargetPlaced(src: string, call: nat, b: Block)
    requires TestTarget(src, call, b)
    ensures PlacedAt(src, b) && b.call == call
  {
    hide IsKnownKind, Heads, Marked, CallsKind;
  }

  /** On text with LF line endings the test filter takes out the test targets, the
      first one first, and nothing else, until there is none. */
  lemma {:induction false} FilterPeels(src: string, out: string)
    requires '\r' !in src
    ensures Peels(src, out) <==> out == FilterTests(src)
    decreases |src|
  {
    hide Candidate, TestTarget, NoTarget;
    SearchFindsTargets(src);
    if Candidate(src, 0, 0).None? {
      assert NoTarget(src, |src|);
    } else {
      var b := Candidate(src, 0, 0).value;
      TargetPlaced(src, b.call, b);
      PlainRest(src, b);
      FilterPeels(Remove(src, b), out);
      assert !NoTarget(src, |src|) by { TargetIsSome(src, b.call, b); }
      FirstIsPeeled(src, b, out);
      assert FilterTests(src) == FilterTests(Remove(src, b));
    }
  }

  lemma TargetIsSome(src: string, call: nat, b: Block)
    requires TestTarget(src, call, b)
    ensures !NoTarget(src, |src|)
  {
    hide TestTarget;
    TargetHeads(src, call, b);
  }

  lemma FirstIsPeeled(src: string, b: Block, out: string)
    requires TestTarget(src, b.call, b) && NoTarget(src, b.call) && PlacedAt(src, b) && !NoTarget(src, |src|)
    ensures Peels(src, out) <==> Peels(Remove(src, b), out)
  {
    hide TestTarget, NoTarget, Remove;
    if Peels(src, out) {
      var call, c :| TestTarget(src, call, c) && NoTarget(src, call) && PlacedAt(src, c) && Peels(Remove(src, c), out);
      OneTarget(src, b.call, b, call, c);
    }
  }

  /** No test target is left, and a text without any is left alone. */
  lemma FilterLeavesNoTarget(src: string)
    requires '\r' !in src
    ensures NoTarget(FilterTests(src), |FilterTests(src)|)
    ensures NoTarget(src, |src|) <==> FilterTests(src) == src
    decreases |src|
  {
    hide Candidate, TestTarget, NoTarget;
    SearchFindsTargets(src);
    if Candidate(src, 0, 0).Some? {
      var b := Candidate(src, 0, 0).value;
      TargetPlaced(src, b.call, b);
      PlainRest(src, b);
      FilterLeavesNoTarget(Remove(src, b));
      TargetIsSome(src, b.call, b);
      FilterShrinks(Remove(src, b));
    }
  }

  lemma {:induction false} FilterShrinks(src: string)
    ensures |FilterTests(src)| <= |src|
    decreases |src|
  {
    hide Candidate;
    if Candidate(src, 0, 0).Some? {
      FilterShrinks(Remove(src, Candidate(src, 0, 0).value));
    }
  }
}
