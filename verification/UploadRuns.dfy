/** Any sequence of read, rewind and close callbacks on an upload. */
module UploadRuns {
  import opened Base
  import opened UploadState

  datatype Event = Reads(attempt: Attempt) | Rewinds(seek: Seek) | Closes

  /** An upload with its history since the last successful rewind: the bytes that
      left the source, the bytes reported to the sink, whether some were taken
      and not reported, and whether a seek has gone wrong. */
  datatype Run = Run(u: Upload, taken: Bytes, sent: Bytes, lost: bool, astray: bool)

  function Contents(source: Source): Bytes {
    if source.Memory? then source.body else source.contents
  }

  function Cursor(source: Source): nat {
    if source.Memory? then source.cursor else source.position
  }

  function Remaining(source: Source): Option<nat> {
    if source.Memory? then None else source.remaining
  }

  function Length(source: Source): Option<nat> {
    if source.Memory? then None else source.length
  }

  /** A source as the provider gets it. */
  predicate Pristine(source: Source) {
    Cursor(source) == 0 && Remaining(source) == Length(source)
  }

  function Init(source: Source): Run {
    Run(Upload(source, false, None, []), [], [], false, false)
  }

  predicate Enabled(r: Run, wordMax: nat, e: Event) {
    && Sound(r.u.source)
    && (e.Reads? ==> Possible(r.u.source, e.attempt.capacity, wordMax, e.attempt.outcome))
  }

  function Last(u: Upload): Option<Completion> {
    if u.completions == [] then None else Some(u.completions[|u.completions| - 1])
  }

  function AfterRead(r: Run, u: Upload): Run {
    var before, after := Cursor(r.u.source), Cursor(u.source);
    var moved := if before <= after <= |Contents(u.source)| then Contents(u.source)[before..after] else [];
    var reported := if Last(u).Some? && Last(u).value.ReadSucceeded? then Last(u).value.bytes else [];
    Run(u, r.taken + moved, r.sent + reported, r.lost || (moved != [] && Last(u) == Some(ReadError)), r.astray)
  }

  function Apply(r: Run, wordMax: nat, e: Event): Run
    requires Enabled(r, wordMax, e)
  {
    match e
    case Reads(attempt) => AfterRead(r, Read(r.u, wordMax, attempt))
    case Rewinds(seek) =>
      var u := Rewind(r.u, seek);
      if Last(u) == Some(RewindSucceeded) then Run(u, [], [], false, false)
      else r.(u := u, astray := r.astray || u.source != r.u.source)
    case Closes => r.(u := r.u.(closed := true))
  }

  predicate Inv(r: Run, origin: Source) {
    && Sound(r.u.source) && r.u.source.Memory? == origin.Memory?
    && Contents(r.u.source) == Contents(origin) && Length(r.u.source) == Length(origin)
    && (!r.astray ==> r.taken == Contents(origin)[..Cursor(r.u.source)])
    && (Length(origin).Some? ==> Remaining(r.u.source).Some? && |r.taken| + Remaining(r.u.source).value == Length(origin).value)
    && (!r.lost ==> r.sent == r.taken)
    && (r.lost ==> r.u.error.Some? && ReadError in r.u.completions)
  }

  /** `next` is `source` moved on over `bytes`. */
  predicate Moved(source: Source, next: Source, bytes: Bytes) {
    && Sound(next) && next.Memory? == source.Memory?
    && Contents(next) == Contents(source) && Length(next) == Length(source)
    && Cursor(source) <= Cursor(next) <= |Contents(source)|
    && bytes == Contents(source)[Cursor(source)..Cursor(next)]
    && (Length(source).Some? ==>
          Remaining(source).Some? && Remaining(next).Some?
          && Remaining(next).value + |bytes| == Remaining(source).value)
  }

  lemma Stays(source: Source)
    requires Sound(source)
    ensures Moved(source, source, [])
  {
  }

  /** What `Fetch` hands out is what its source has moved over. */
  lemma FetchMoves(source: Source, capacity: nat, wordMax: nat, outcome: Answer)
    requires Sound(source) && Possible(source, capacity, wordMax, outcome) && capacity <= wordMax
    ensures Fetch(source, capacity, wordMax, outcome).1.Got? ==>
      Moved(source, Fetch(source, capacity, wordMax, outcome).0, Fetch(source, capacity, wordMax, outcome).1.bytes)
    ensures Fetch(source, capacity, wordMax, outcome).1.Broken? ==> Fetch(source, capacity, wordMax, outcome).0 == source
  {
    if source.Stream? {
      LimitIsExact(source.remaining, capacity, wordMax);
    }
  }

  /** What a read callback does: it moves over `bytes` and reports them, or it
      reports an error, which it records if any bytes are lost with it. */
  lemma ReadEffect(u: Upload, wordMax: nat, a: Attempt) returns (bytes: Bytes, report: Completion)
    requires Sound(u.source) && Possible(u.source, a.capacity, wordMax, a.outcome)
    ensures Moved(u.source, Read(u, wordMax, a).source, bytes)
    ensures Read(u, wordMax, a).completions == u.completions + [report]
    ensures report == ReadError || (report.ReadSucceeded? && report.bytes == bytes)
    ensures report == ReadError && bytes != [] ==> Read(u, wordMax, a).error.Some?
    ensures u.error.Some? ==> Read(u, wordMax, a).error.Some?
  {
    Stays(u.source);
    bytes, report := [], ReadError;
    if a.capacity <= wordMax {
      FetchMoves(u.source, a.capacity, wordMax, a.outcome);
      if a.memory && !u.closed && !a.interrupted {
        var (_, fetched) := Fetch(u.source, a.capacity, wordMax, a.outcome);
        if fetched.Got? {
          bytes := fetched.bytes;
          if bytes == [] || a.destination {
            report := ReadSucceeded(bytes, fetched.finalChunk);
          }
        }
      }
    }
    hide Fetch, Sound, Possible, Moved;
  }

  lemma ReadKeepsInv(r: Run, origin: Source, wordMax: nat, a: Attempt)
    requires Inv(r, origin) && Enabled(r, wordMax, Reads(a))
    ensures Inv(Apply(r, wordMax, Reads(a)), origin)
  {
    hide Possible, Sound, Read, Contents, Cursor, Length, Remaining;
    var bytes, report := ReadEffect(r.u, wordMax, a);
    var u := Read(r.u, wordMax, a);
    var before, after := Cursor(r.u.source), Cursor(u.source);
    assert Contents(origin)[..after] == Contents(origin)[..before] + Contents(origin)[before..after];
    assert Last(u) == Some(report);
    assert ReadError in r.u.completions ==> ReadError in u.completions;
    assert report == u.completions[|u.completions| - 1];
  }

  /** What a rewind callback does: it starts the source afresh, or it reports an
      error and leaves contents and remainder alone. */
  lemma RewindEffect(u: Upload, k: Seek) returns (report: Completion)
    requires Sound(u.source)
    ensures var v := Rewind(u, k);
            && v.completions == u.completions + [report] && Last(v) == Some(report)
            && Sound(v.source) && v.source.Memory? == u.source.Memory?
            && Contents(v.source) == Contents(u.source) && Length(v.source) == Length(u.source)
            && (report == RewindSucceeded || report == RewindError)
            && (report == RewindSucceeded ==> Cursor(v.source) == 0 && Remaining(v.source) == Length(v.source))
            && (report == RewindError ==> Remaining(v.source) == Remaining(u.source) && v.error.Some?)
  {
    report := Last(Rewind(u, k)).value;
  }

  lemma RewindKeepsInv(r: Run, origin: Source, wordMax: nat, k: Seek)
    requires Inv(r, origin) && Enabled(r, wordMax, Rewinds(k))
    ensures Inv(Apply(r, wordMax, Rewinds(k)), origin)
  {
    var report := RewindEffect(r.u, k);
    hide Rewind, Sound, Contents, Cursor, Length, Remaining, Possible;
    var u := Rewind(r.u, k);
    if r.lost {
      var i :| 0 <= i < |r.u.completions| && r.u.completions[i] == ReadError;
      assert u.completions[i] == ReadError;
    }
  }

  lemma StepKeepsInv(r: Run, origin: Source, wordMax: nat, e: Event)
    requires Inv(r, origin) && Enabled(r, wordMax, e)
    ensures Inv(Apply(r, wordMax, e), origin)
  {
    hide Read, Rewind, AfterRead;
    match e
    case Reads(attempt) => ReadKeepsInv(r, origin, wordMax, attempt);
    case Rewinds(seek) => RewindKeepsInv(r, origin, wordMax, seek);
    case Closes =>
  }

  // ---------- Runs ----------

  ghost predicate Reaches(r: Run, wordMax: nat, events: seq<Event>, t: Run)
    decreases |events|
  {
    if events == [] then r == t
    else Enabled(r, wordMax, events[0]) && Reaches(Apply(r, wordMax, events[0]), wordMax, events[1..], t)
  }

  lemma {:induction false} RunKeepsInv(r: Run, origin: Source, wordMax: nat, events: seq<Event>, t: Run)
    requires Inv(r, origin) && Reaches(r, wordMax, events, t)
    ensures Inv(t, origin)
    decreases |events|
  {
    hide Inv, Apply, Enabled;
    if events != [] {
      StepKeepsInv(r, origin, wordMax, events[0]);
      RunKeepsInv(Apply(r, wordMax, events[0]), origin, wordMax, events[1..], t);
    }
  }

  lemma ReachedInv(origin: Source, wordMax: nat, events: seq<Event>, t: Run)
    requires Sound(origin) && Pristine(origin) && Reaches(Init(origin), wordMax, events, t)
    ensures Inv(t, origin)
  {
    RunKeepsInv(Init(origin), origin, wordMax, events, t);
  }

  /** How many of the events must report to the sink. */
  function Callbacks(events: seq<Event>): nat {
    if events == [] then 0 else (if events[0].Closes? then 0 else 1) + Callbacks(events[1..])
  }

  lemma StepCompletes(r: Run, wordMax: nat, e: Event)
    requires Enabled(r, wordMax, e)
    ensures |Apply(r, wordMax, e).u.completions| == |r.u.completions| + (if e.Closes? then 0 else 1)
    ensures r.u.completions <= Apply(r, wordMax, e).u.completions
    ensures e.Reads? ==> Last(Apply(r, wordMax, e).u).value.ReadSucceeded? || Last(Apply(r, wordMax, e).u).value.ReadError?
    ensures e.Rewinds? ==>
      Last(Apply(r, wordMax, e).u).value.RewindSucceeded? || Last(Apply(r, wordMax, e).u).value.RewindError?
  {
    hide Sound, Possible, Fetch;
  }

  /** Every read or rewind callback makes exactly one sink completion. */
  lemma {:induction false} OneCompletionEach(r: Run, wordMax: nat, events: seq<Event>, t: Run)
    requires Reaches(r, wordMax, events, t)
    ensures |t.u.completions| == |r.u.completions| + Callbacks(events)
    decreases |events|
  {
    hide Apply, Enabled;
    if events != [] {
      StepCompletes(r, wordMax, events[0]);
      OneCompletionEach(Apply(r, wordMax, events[0]), wordMax, events[1..], t);
    }
  }

  /** Since the last successful rewind, the bytes taken are a prefix of the
      source, and they are the bytes sent unless some were lost; taken and
      remaining add up to the declared length. */
  lemma PrefixIsDelivered(origin: Source, wordMax: nat, events: seq<Event>, t: Run)
    requires Sound(origin) && Pristine(origin) && Reaches(Init(origin), wordMax, events, t)
    ensures !t.astray ==> t.taken <= Contents(origin)
    ensures !t.lost ==> t.sent == t.taken
    ensures Length(origin).Some? ==>
      Remaining(t.u.source).Some? && |t.taken| + Remaining(t.u.source).value == Length(origin).value
  {
    ReachedInv(origin, wordMax, events, t);
  }

  /** When nothing remains, the declared length of the source's own bytes has
      been sent, unless some were lost. */
  lemma NothingRemainsMeansAllSent(origin: Source, wordMax: nat, events: seq<Event>, t: Run)
    requires Sound(origin) && Pristine(origin) && Reaches(Init(origin), wordMax, events, t)
    requires Remaining(t.u.source) == Some(0) && !t.astray && !t.lost
    ensures Length(origin).Some? && Length(origin).value <= |Contents(origin)|
    ensures t.sent == Contents(origin)[..Length(origin).value]
  {
    ReachedInv(origin, wordMax, events, t);
  }

  /** Whether the source has something to give to a read with this outcome. */
  predicate Gives(source: Source, capacity: nat, outcome: Answer) {
    match source
    case Memory(body, cursor) => cursor < |body| && capacity > 0
    case Stream(_, _, _, _, _) => outcome.Count? && outcome.count > 0
  }

  /** The read gets as far as its source. */
  predicate Runs(u: Upload, wordMax: nat, a: Attempt) {
    a.capacity <= wordMax && a.memory && !a.interrupted && !u.closed
  }

  /** Bytes are lost exactly by a read that has no destination, gets as far as its
      source, and finds something there; the sink hears of an error then. A
      successful rewind starts afresh. */
  lemma LostIffNoDestination(r: Run, wordMax: nat, e: Event)
    requires Enabled(r, wordMax, e) && !r.lost
    ensures Apply(r, wordMax, e).lost <==>
      && e.Reads? && !e.attempt.destination && Runs(r.u, wordMax, e.attempt)
      && Gives(r.u.source, e.attempt.capacity, e.attempt.outcome)
    ensures Apply(r, wordMax, e).lost ==> Last(Apply(r, wordMax, e).u) == Some(ReadError)
  {
    match e
    case Reads(attempt) => LossOfRead(r, wordMax, attempt);
    case Rewinds(_) =>
    case Closes =>
  }

  lemma LossOfRead(r: Run, wordMax: nat, a: Attempt)
    requires Enabled(r, wordMax, Reads(a)) && !r.lost
    ensures var u := Read(r.u, wordMax, a);
            && (AfterRead(r, u).lost <==>
                  !a.destination && Runs(r.u, wordMax, a) && Gives(r.u.source, a.capacity, a.outcome))
            && (AfterRead(r, u).lost ==> Last(u) == Some(ReadError))
  {
    var bytes, report := ReadEffect(r.u, wordMax, a);
    var u := Read(r.u, wordMax, a);
    assert Last(u) == Some(report);
    ReadMoves(r.u, wordMax, a);
    assert bytes != [] <==> Cursor(u.source) != Cursor(r.u.source);
    assert report.ReadSucceeded? && !a.destination ==> bytes == [] by {
      hide Possible, Sound, Limit;
    }
    hide Read, Possible, Sound;
  }

  /** A read moves its source exactly when it gets there and finds something. */
  lemma ReadMoves(u: Upload, wordMax: nat, a: Attempt)
    requires Sound(u.source) && Possible(u.source, a.capacity, wordMax, a.outcome)
    ensures Cursor(Read(u, wordMax, a).source) != Cursor(u.source)
       <==> Runs(u, wordMax, a) && Gives(u.source, a.capacity, a.outcome)
    ensures Cursor(Read(u, wordMax, a).source) != Cursor(u.source) && a.destination ==>
      Last(Read(u, wordMax, a)).value.ReadSucceeded?
  {
  }

  /** A rewindable source of its declared length, read up to `position`. */
  function Whole(contents: Bytes, position: nat): Source
    requires position <= |contents|
  {
    Stream(contents, position, Some(|contents|), Some(|contents| - position), true)
  }

  lemma RetryFails(contents: Bytes, wordMax: nat)
    requires |contents| <= wordMax
    ensures var e := Reads(Attempt(|contents|, true, false, false, Error(0)));
            && Enabled(Init(Whole(contents, 0)), wordMax, e)
            && Apply(Init(Whole(contents, 0)), wordMax, e)
            == Run(Upload(Whole(contents, 0), false, Some(NoMemory), [ReadError]), [], [], false, false)
  {
  }

  lemma RetryRewinds(contents: Bytes, wordMax: nat)
    ensures var r := Run(Upload(Whole(contents, 0), false, Some(NoMemory), [ReadError]), [], [], false, false);
            var e := Rewinds(Seek(false, None, 0));
            && Enabled(r, wordMax, e)
            && Apply(r, wordMax, e)
            == Run(Upload(Whole(contents, 0), false, Some(NoMemory), [ReadError, RewindSucceeded]), [], [], false, false)
  {
  }

  lemma RetrySends(contents: Bytes, wordMax: nat) returns (t: Run)
    requires |contents| <= wordMax
    ensures var r := Run(Upload(Whole(contents, 0), false, Some(NoMemory), [ReadError, RewindSucceeded]), [], [], false, false);
            var e := Reads(Attempt(|contents|, true, true, false, Count(|contents|)));
            Enabled(r, wordMax, e) && Apply(r, wordMax, e) == t
    ensures ReadError in t.u.completions && !t.lost && !t.astray && t.sent == contents
  {
    var r := Run(Upload(Whole(contents, 0), false, Some(NoMemory), [ReadError, RewindSucceeded]), [], [], false, false);
    var a := Attempt(|contents|, true, true, false, Count(|contents|));
    assert contents[0..|contents|] == contents;
    var u := Read(r.u, wordMax, a);
    assert u == Upload(Whole(contents, |contents|), false, Some(NoMemory),
                       [ReadError, RewindSucceeded, ReadSucceeded(contents, false)]);
    hide Read, Possible;
    t := AfterRead(r, u);
    assert u.completions[0] == ReadError && [] + contents == contents;
  }

  /** An error does not spoil what comes after a rewind: a read that fails for want
      of memory, a rewind, and a read with room for everything send it all. */
  lemma RetrySendsEverything(contents: Bytes, wordMax: nat) returns (events: seq<Event>, t: Run)
    requires |contents| <= wordMax
    ensures Reaches(Init(Whole(contents, 0)), wordMax, events, t)
    ensures ReadError in t.u.completions && !t.lost && !t.astray && t.sent == contents
  {
    var fail := Reads(Attempt(|contents|, true, false, false, Error(0)));
    var rewind := Rewinds(Seek(false, None, 0));
    var all := Reads(Attempt(|contents|, true, true, false, Count(|contents|)));
    RetryFails(contents, wordMax);
    RetryRewinds(contents, wordMax);
    t := RetrySends(contents, wordMax);
    assert Reaches(t, wordMax, [], t);
    hide Apply, Enabled, Reaches;
    var sends := Run(Upload(Whole(contents, 0), false, Some(NoMemory), [ReadError, RewindSucceeded]), [], [], false, false);
    Steps(sends, wordMax, all, [], t);
    var rewinds := Run(Upload(Whole(contents, 0), false, Some(NoMemory), [ReadError]), [], [], false, false);
    Steps(rewinds, wordMax, rewind, [all] + [], t);
    Steps(Init(Whole(contents, 0)), wordMax, fail, [rewind] + ([all] + []), t);
    events := [fail] + ([rewind] + ([all] + []));
  }

  lemma Steps(r: Run, wordMax: nat, e: Event, events: seq<Event>, t: Run)
    requires Enabled(r, wordMax, e) && Reaches(Apply(r, wordMax, e), wordMax, events, t)
    ensures Reaches(r, wordMax, [e] + events, t)
  {
    hide Enabled, Apply;
    assert ([e] + events)[1..] == events;
  }

  // ---------- Single callbacks ----------

  /** A read that reaches a source at its end, with bytes still declared, is an
      error, and the source stays where it is. */
  lemma ShortSourceIsAnError(u: Upload, wordMax: nat, a: Attempt)
    requires Sound(u.source) && u.source.Stream? && Possible(u.source, a.capacity, wordMax, a.outcome)
    requires u.source.position == |u.source.contents| && Remaining(u.source).Some? && Remaining(u.source).value > 0
    ensures Last(Read(u, wordMax, a)) == Some(ReadError) && Read(u, wordMax, a).source == u.source
    ensures a.capacity <= wordMax ==> Read(u, wordMax, a).error.Some?
  {
  }

  /** A final chunk is reported exactly for an empty read of a stream of
      undeclared length: at its end, or into a buffer without room. */
  lemma FinalChunkIsForUndeclaredEnd(u: Upload, wordMax: nat, a: Attempt)
    requires Sound(u.source) && Possible(u.source, a.capacity, wordMax, a.outcome)
    requires Last(Read(u, wordMax, a)).value.ReadSucceeded?
    ensures Last(Read(u, wordMax, a)).value.finalChunk <==>
      u.source.Stream? && u.source.length.None? && Last(Read(u, wordMax, a)).value.bytes == []
    ensures Last(Read(u, wordMax, a)).value.finalChunk <==>
      u.source.Stream? && u.source.length.None? && (a.capacity == 0 || u.source.position == |u.source.contents|)
  {
  }

  /** The buffer without room: the body is declared complete too early. */
  lemma NoRoomEndsTheBody(contents: Bytes, wordMax: nat)
    requires contents != []
    ensures var u := Upload(Stream(contents, 0, None, None, true), false, None, []);
            Last(Read(u, wordMax, Attempt(0, true, true, false, Count(0)))) == Some(ReadSucceeded([], true))
  {
  }

  /** After `close`, both callbacks report cancellation and leave the source. */
  lemma ClosedCancels(u: Upload, wordMax: nat, a: Attempt, k: Seek)
    requires Sound(u.source) && Possible(u.source, a.capacity, wordMax, a.outcome) && u.closed
    ensures Last(Read(u, wordMax, a)) == Some(ReadError) && Read(u, wordMax, a).source == u.source
    ensures a.capacity <= wordMax && a.memory && u.error.None? ==> Read(u, wordMax, a).error == Some(Closed)
    ensures Last(Rewind(u, k)) == Some(RewindError) && Rewind(u, k).source == u.source
    ensures u.error.None? ==> Rewind(u, k).error == Some(Closed)
  {
  }

  /** A read without a destination reports an error after the source has moved. */
  lemma NoDestinationLosesBytes(u: Upload, wordMax: nat, a: Attempt)
    requires Sound(u.source) && Possible(u.source, a.capacity, wordMax, a.outcome)
    requires a.capacity <= wordMax && a.memory && !a.interrupted && !u.closed && !a.destination
    ensures Cursor(Read(u, wordMax, a).source) > Cursor(u.source) ==>
      Last(Read(u, wordMax, a)) == Some(ReadError) && Read(u, wordMax, a).error.Some?
    ensures Last(Read(u, wordMax, a)).value.ReadSucceeded? ==> Last(Read(u, wordMax, a)).value.bytes == []
  {
  }

  /** A rewind succeeds if and only if the provider is and stays open and the source
      is in memory, or is a stream that can be rewound and was. */
  lemma RewindSucceedsIff(u: Upload, k: Seek)
    ensures Last(Rewind(u, k)) == Some(RewindSucceeded) <==>
      !u.closed && !k.interrupted && (u.source.Memory? || (u.source.rewindable && k.error.None?))
    ensures Last(Rewind(u, k)) == Some(RewindSucceeded) ==>
      Cursor(Rewind(u, k).source) == 0 && Contents(Rewind(u, k).source) == Contents(u.source)
      && Remaining(Rewind(u, k).source) == Length(u.source) && Rewind(u, k).error == u.error
    ensures Last(Rewind(u, k)) != Some(RewindSucceeded) && u.error.None? ==>
      Rewind(u, k).error
      == Some(if u.closed || k.interrupted then Closed else if !u.source.rewindable then NotRewindable
              else SourceFailed(k.error.value))
    ensures u.error.Some? ==> Rewind(u, k).error == u.error
  {
  }

  /** A read succeeds if and only if its buffer has an addressable size and can be
      had, the provider is and stays open, the source delivers, and what it delivers
      has a place to go; else the first error is the one recorded. */
  lemma ReadSucceedsIff(u: Upload, wordMax: nat, a: Attempt)
    requires Sound(u.source) && Possible(u.source, a.capacity, wordMax, a.outcome)
    ensures Last(Read(u, wordMax, a)).value.ReadSucceeded? <==>
      Runs(u, wordMax, a) && Delivers(u.source, a.outcome) && (a.destination || !Gives(u.source, a.capacity, a.outcome))
    ensures Last(Read(u, wordMax, a)) == Some(ReadError) && u.error.None? ==>
      Read(u, wordMax, a).error
      == if a.capacity > wordMax then None
         else if !a.memory then Some(NoMemory)
         else if u.closed || a.interrupted then Some(Closed)
         else if Delivers(u.source, a.outcome) then Some(NoBuffer)
         else if a.outcome.Error? then Some(SourceFailed(a.outcome.code))
         else Some(ShortSource)
    ensures u.error.Some? || Last(Read(u, wordMax, a)).value.ReadSucceeded? ==> Read(u, wordMax, a).error == u.error
  {
  }

  /** The source answers a read with bytes, or with an end that is not too early. */
  predicate Delivers(source: Source, outcome: Answer) {
    source.Memory?
    || (outcome.Count? && (outcome.count > 0 || source.remaining.None? || source.remaining.value == 0))
  }

  /** A read of a body in memory sends as much of it as fits. */
  lemma MemoryRead(r: Run, wordMax: nat, a: Attempt)
    requires r.u.source.Memory? && r.u.source.cursor <= |r.u.source.body| && !r.u.closed
    requires a.capacity <= wordMax && a.memory && a.destination && !a.interrupted
    ensures Enabled(r, wordMax, Reads(a))
    ensures var t := Apply(r, wordMax, Reads(a));
            var body, from := r.u.source.body, r.u.source.cursor;
            var end := if |body| - from <= a.capacity then |body| else from + a.capacity;
            && t.sent == r.sent + body[from..end] && t.u.source == Memory(body, end)
            && t.u.closed == r.u.closed && t.lost == r.lost
  {
  }

  /** A body in memory is sent completely by reads of any size that is not zero,
      wherever it stands. */
  lemma {:induction false} MemoryIsSent(r: Run, wordMax: nat, a: Attempt) returns (events: seq<Event>, t: Run)
    requires r.u.source.Memory? && r.u.source.cursor <= |r.u.source.body| && !r.u.closed
    requires 0 < a.capacity <= wordMax && a.memory && a.destination && !a.interrupted
    ensures Reaches(r, wordMax, events, t) && forall e :: e in events ==> e == Reads(a)
    ensures t.sent == r.sent + r.u.source.body[r.u.source.cursor..]
    ensures t.u.source == Memory(r.u.source.body, |r.u.source.body|)
    decreases |r.u.source.body| - r.u.source.cursor
  {
    var body, from := r.u.source.body, r.u.source.cursor;
    if from == |body| {
      events, t := [], r;
      assert r.sent + body[from..] == r.sent;
    } else {
      MemoryRead(r, wordMax, a);
      hide Apply, Enabled;
      var u := Apply(r, wordMax, Reads(a));
      events, t := MemoryIsSent(u, wordMax, a);
      Steps(r, wordMax, Reads(a), events, t);
      events := [Reads(a)] + events;
      assert body[from..] == body[from..u.u.source.cursor] + body[u.u.source.cursor..];
    }
  }
}
