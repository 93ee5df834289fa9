/** The block removal loops of the GN overlay, and what they leave. */
module GnFilter {
  import opened Base
  import opened GnLexer

  const KINDS: seq<string> := [
    "action", "android_aidl", "android_apk", "android_assets", "android_java_prebuilt", "android_library",
    "android_nocompile_test_suite", "android_resources", "androidx_android_aar_prebuilt", "androidx_java_group",
    "bundle_data_from_filelist", "bundle_data", "component", "copy", "cronet_instrumentation_test_apk", "executable",
    "fuzzer_test", "generate_jni", "generate_jni_registration", "group", "incremental_javac_prebuilt",
    "instrumentation_test_apk", "java_cpp_enum", "java_group", "java_library", "java_prebuilt", "lint_test",
    "perfetto_generate_unittests", "perfetto_unittest_source_set", "python_library", "robolectric_binary",
    "robolectric_library", "script_test", "shared_library", "shared_library_with_jni", "source_set",
    "static_library", "target", "test"]

  /** The kinds that are removed whatever their body says. */
  const TEST_KINDS: seq<string> := [
    "android_nocompile_test_suite", "cronet_instrumentation_test_apk", "fuzzer_test", "instrumentation_test_apk",
    "lint_test", "robolectric_binary", "robolectric_library", "script_test", "test"]

  /** A target call found in the text: its line, the call, the braces of its
      block, and the end of the white space behind the block. */
  datatype Block = Block(line: nat, call: nat, open: nat, close: nat, end: nat)

  datatype Failure = Missing | Malformed | Unclosed

  datatype Result<T> = Ok(value: T) | Err(failure: Failure)

  // ---------- Searching ----------

  predicate IsSpace(c: char) {
    c == ' ' || c == '\t' || c == '\n' || c == '\r' || c == 11 as char || c == 12 as char
  }

  predicate IsAsciiSpace(c: char) {
    c == ' ' || c == '\t' || c == '\n' || c == '\r' || c == 12 as char
  }

  function Find(s: string, c: char): (i: nat)
    ensures i <= |s| && c !in s[..i] && (i < |s| ==> s[i] == c)
  {
    if s == "" || s[0] == c then 0 else 1 + Find(s[1..], c)
  }

  /** The first occurrence of `needle` at or after `from`. */
  function FindText(s: string, needle: string, from: nat): (at: Option<nat>)
    ensures at.Some? ==> from <= at.value <= |s| && needle <= s[at.value..]
    ensures forall k :: from <= k <= |s| && (at.Some? ==> k < at.value) ==> !(needle <= s[k..])
    decreases |s| - from
  {
    if from > |s| then None
    else if needle <= s[from..] then Some(from)
    else if from == |s| then None
    else FindText(s, needle, from + 1)
  }

  /** The start of the line that holds position `i`. */
  function LineStart(s: string, i: nat): (start: nat)
    requires i <= |s|
    ensures start <= i && (start == 0 || s[start - 1] == '\n') && '\n' !in s[start..i]
  {
    if i == 0 || s[i - 1] == '\n' then i
    else
      assert s[LineStart(s, i - 1)..i] == s[LineStart(s, i - 1)..i - 1] + [s[i - 1]];
      LineStart(s, i - 1)
  }

  function SkipSpace(s: string, i: nat): (end: nat)
    requires i <= |s|
    ensures i <= end <= |s| && (forall k :: i <= k < end ==> IsAsciiSpace(s[k])) && (end < |s| ==> !IsAsciiSpace(s[end]))
    decreases |s| - i
  {
    if i < |s| && IsAsciiSpace(s[i]) then SkipSpace(s, i + 1) else i
  }

  function TrimStart(s: string): (t: string)
    ensures |t| <= |s| && t == s[|s| - |t|..] && (t != "" ==> !IsSpace(t[0]))
    ensures forall k :: 0 <= k < |s| - |t| ==> IsSpace(s[k])
  {
    if s != "" && IsSpace(s[0]) then
      var t := TrimStart(s[1..]);
      assert s[1..][|s| - 1 - |t|..] == s[|s| - |t|..] && forall k :: 0 < k < |s| ==> s[k] == s[1..][k - 1];
      t
    else s
  }

  /** A line without the CR of a CRLF ending. */
  function StripCr(line: string, ended: bool): string {
    if ended && line != "" && line[|line| - 1] == '\r' then line[..|line| - 1] else line
  }

  predicate AnyTestonlyLine(body: string)
    decreases |body|
  {
    var end := Find(body, '\n');
    "testonly = true" <= TrimStart(StripCr(body[..end], end < |body|))
    || (end < |body| && AnyTestonlyLine(body[end + 1..]))
  }

  predicate StartsWithKind(s: string, kinds: seq<string>) {
    exists i :: 0 <= i < |kinds| && kinds[i] + "(" <= s
  }

  // ---------- Blocks ----------

  function BlockAt(src: string, call: nat, from: nat): (block: Result<Block>)
    requires call <= from <= |src|
    ensures block.Ok? ==> WellPlaced(src, block.value, from) && block.value.call == call
  {
    match OpenFrom(Code, src, from)
    case None => Err(Malformed)
    case Some(open) =>
      NextOpenBrace(src, from);
      MatchingBrace(src, open);
      match CloseFrom(Code, 0, src, open)
      case None => Err(Unclosed)
      case Some(close) => Ok(Block(LineStart(src, call), call, open, close, SkipSpace(src, close + 1)))
  }

  predicate WellPlaced(src: string, b: Block, from: nat) {
    b.line <= b.call <= from <= b.open < b.close < b.end <= |src|
  }

  function Remove(src: string, b: Block): string
    requires b.line <= b.end <= |src|
  {
    src[..b.line] + src[b.end..]
  }

  /** The end of the line that holds position `i`, its line feed excluded. */
  function LineEnd(src: string, i: nat): (end: nat)
    requires i <= |src|
    ensures i <= end <= |src| && '\n' !in src[i..end] && (end < |src| ==> src[end] == '\n')
  {
    assert src[i..][..Find(src[i..], '\n')] == src[i..i + Find(src[i..], '\n')];
    i + Find(src[i..], '\n')
  }

  /** The rest of the line from `i` on. */
  function LineFrom(src: string, i: nat): string
    requires i <= |src|
  {
    src[i..LineEnd(src, i)]
  }

  /** The test block of a call to a known kind; `text` is the call's line from
      the kind on. */
  function TestLine(src: string, text: string, call: nat): (block: Option<Block>)
    requires call <= |src|
    ensures block.Some? ==> WellPlaced(src, block.value, call) && block.value.call == call
  {
    match BlockAt(src, call, call)
    case Err(_) => None
    case Ok(b) =>
      if StartsWithKind(text, TEST_KINDS)
         || FindText(src[b.call..b.open], "unittest", 0).Some?
         || AnyTestonlyLine(src[b.open + 1..b.close])
      then Some(b)
      else None
  }

  /** The test block that is called at `call`, if there is one. */
  function TestBlockAt(src: string, call: nat): (block: Option<Block>)
    requires call <= |src|
    ensures block.Some? ==> WellPlaced(src, block.value, call) && block.value.call == call
  {
    if StartsWithKind(LineFrom(src, call), KINDS) then TestLine(src, LineFrom(src, call), call) else None
  }

  /** The text of the line from `rest` on, as the source splits lines. */
  function LineText(src: string, rest: nat): (line: string)
    requires rest <= |src|
    ensures rest + |line| <= LineEnd(src, rest)
  {
    StripCr(src[rest..LineEnd(src, rest)], LineEnd(src, rest) < |src|)
  }

  /** The test block called in `line`, which the source takes to start at `offset`. */
  function LineBlock(src: string, line: string, offset: nat): (block: Option<Block>)
    requires offset + |line| <= |src|
    ensures block.Some? ==> WellPlaced(src, block.value, block.value.call)
  {
    var trimmed := TrimStart(line);
    if StartsWithKind(trimmed, KINDS) then TestLine(src, trimmed, offset + |line| - |trimmed|) else None
  }

  /** The first test block, looking at the lines from `rest` on; `offset` is
      where the source believes that `rest` starts. */
  function Candidate(src: string, rest: nat, offset: nat): (block: Option<Block>)
    requires offset <= rest <= |src|
    ensures block.Some? ==> WellPlaced(src, block.value, block.value.call)
    decreases |src| - rest
  {
    if rest == |src| then None
    else
      var line := LineText(src, rest);
      var here := LineBlock(src, line, offset);
      if here.Some? then here
      else if LineEnd(src, rest) < |src| then Candidate(src, LineEnd(src, rest) + 1, offset + |line| + 1)
      else None
  }

  // ---------- The removal loops ----------

  /** All blocks called by `needle` removed; an error if one has no block, or if
      there was none to remove. */
  function FilterNamed(src: string, needle: string, removed: nat): Result<string>
    decreases |src|
  {
    hide BlockAt, FindText;
    match FindText(src, needle, 0)
    case None => if removed == 0 then Err(Missing) else Ok(src)
    case Some(call) =>
      match BlockAt(src, call, call + |needle|)
      case Err(failure) => Err(failure)
      case Ok(b) => FilterNamed(Remove(src, b), needle, removed + 1)
  }

  /** All test blocks removed, the first one first. */
  function FilterTests(src: string): string
    decreases |src|
  {
    hide Candidate;
    match Candidate(src, 0, 0)
    case None => src
    case Some(b) => FilterTests(Remove(src, b))
  }

  method FindBlock(src: string, call: nat, from: nat) returns (block: Result<Block>)
    requires call <= from <= |src|
    ensures block == BlockAt(src, call, from)
  {
    NextOpenBrace(src, from);
    var open := NextGnOpenBrace(src, from);
    if open.None? {
      return Err(Malformed);
    }
    MatchingBrace(src, open.value);
    var close := MatchingGnBrace(src, open.value);
    if close.None? {
      return Err(Unclosed);
    }
    var end := close.value + 1;
    while end < |src| && IsAsciiSpace(src[end])
      invariant close.value < end <= |src| && SkipSpace(src, end) == SkipSpace(src, close.value + 1)
    {
      end := end + 1;
    }
    block := Ok(Block(LineStart(src, call), call, open.value, close.value, end));
  }

  /** How a call of the target `name` reads. */
  function Needle(kind: string, name: string): string {
    kind + "(\"" + name + "\")"
  }

  method RemoveNamedGnBlocks(source: string, kind: string, name: string) returns (result: Result<string>)
    ensures result == FilterNamed(source, Needle(kind, name), 0)
    ensures result.Ok? ==> |result.value| < |source| && FindText(result.value, Needle(kind, name), 0).None?
  {
    hide BlockAt, FindText;
    var needle := Needle(kind, name);
    var src := source;
    var removed := 0;
    var call := FindText(src, needle, 0);
    while call.Some?
      invariant call == FindText(src, needle, 0)
      invariant FilterNamed(source, needle, 0) == FilterNamed(src, needle, removed)
      invariant |src| <= |source| && (removed > 0 ==> |src| < |source|)
      decreases |src|
    {
      var block := FindBlock(src, call.value, call.value + |needle|);
      if block.Err? {
        return Err(block.failure);
      }
      src := Remove(src, block.value);
      removed := removed + 1;
      call := FindText(src, needle, 0);
    }
    result := if removed == 0 then Err(Missing) else Ok(src);
  }

  method RemoveGnBlockWithHeader(source: string, header: string) returns (result: Result<string>)
    ensures FindText(source, header, 0).None? ==> result == Err(Missing)
    ensures FindText(source, header, 0).Some? ==>
      var call := FindText(source, header, 0).value;
      var block := BlockAt(source, call, call + |header|);
      result == if block.Ok? then Ok(Remove(source, block.value)) else Err(block.failure)
  {
    var call := FindText(source, header, 0);
    if call.None? {
      return Err(Missing);
    }
    var block := FindBlock(source, call.value, call.value + |header|);
    if block.Err? {
      return Err(block.failure);
    }
    result := Ok(Remove(source, block.value));
  }

  method CheckCall(src: string, trimmed: string, call: nat) returns (block: Option<Block>)
    requires call <= |src|
    ensures block == TestLine(src, trimmed, call)
  {
    hide BlockAt, FindText, AnyTestonlyLine, StartsWithKind;
    var found := FindBlock(src, call, call);
    if found.Err? {
      return None;
    }
    var b := found.value;
    if StartsWithKind(trimmed, TEST_KINDS)
       || FindText(src[b.call..b.open], "unittest", 0).Some?
       || AnyTestonlyLine(src[b.open + 1..b.close])
    {
      return Some(b);
    }
    block := None;
  }

  method CheckLine(src: string, line: string, offset: nat) returns (block: Option<Block>)
    requires offset + |line| <= |src|
    ensures block == LineBlock(src, line, offset)
  {
    hide TestLine, StartsWithKind, KINDS, TrimStart;
    var trimmed := TrimStart(line);
    if !StartsWithKind(trimmed, KINDS) {
      return None;
    }
    block := CheckCall(src, trimmed, offset + |line| - |trimmed|);
  }

  method FindCandidate(src: string) returns (block: Option<Block>)
    ensures block == Candidate(src, 0, 0)
  {
    hide LineBlock, LineText, LineEnd;
    var rest: nat, offset: nat := 0, 0;
    while rest < |src|
      invariant offset <= rest <= |src| && Candidate(src, 0, 0) == Candidate(src, rest, offset)
    {
      var line := LineText(src, rest);
      block := CheckLine(src, line, offset);
      if block.Some? {
        return;
      }
      var end := LineEnd(src, rest);
      if end == |src| {
        return None;
      }
      rest, offset := end + 1, offset + |line| + 1;
    }
    block := None;
  }

  method RemoveTestonlyGnBlocks(source: string) returns (result: string)
    ensures result == FilterTests(source) && Candidate(result, 0, 0).None?
    ensures |result| <= |source|
  {
    hide Candidate;
    result := source;
    var block := FindCandidate(result);
    while block.Some?
      invariant block == Candidate(result, 0, 0) && FilterTests(source) == FilterTests(result)
      invariant |result| <= |source|
      decreases |result|
    {
      result := Remove(result, block.value);
      block := FindCandidate(result);
    }
  }
}
