/**
 The upload provider of a URL request: native read and rewind callbacks, each of
 which reads or seeks the application's source and then reports to the sink.

 The source is the environment's: a read of a stream returns any count up to
 its limit and to what is left, and zero only at the end; it may also fail.
 */
module UploadState {
  import opened Base

  datatype Source =
    | Memory(body: Bytes, cursor: nat)
    | Stream(contents: Bytes, position: nat, length: Option<nat>, remaining: Option<nat>, rewindable: bool)

  datatype Fault = Closed | NoMemory | NoBuffer | ShortSource | NotRewindable | SourceFailed(code: nat)

  /** One call of a sink method. */
  datatype Completion = ReadSucceeded(bytes: Bytes, finalChunk: bool) | ReadError | RewindSucceeded | RewindError

  datatype Upload = Upload(source: Source, closed: bool, error: Option<Fault>, completions: seq<Completion>)

  /** What one read callback meets: a buffer size and destination, whether the
      temporary buffer can be had, whether the provider is closed meanwhile, and
      the count or error of a stream's read. */
  datatype Attempt = Attempt(capacity: nat, destination: bool, memory: bool, interrupted: bool, outcome: Answer)

  datatype Answer = Count(count: nat) | Error(code: nat)

  /** What one rewind callback meets; a seek that does not succeed leaves a
      stream wherever it `lands`. */
  datatype Seek = Seek(interrupted: bool, error: Option<nat>, lands: nat)

  datatype Fetched = Got(bytes: Bytes, finalChunk: bool) | Broken(fault: Fault)

  function SaturatingSub(a: nat, b: nat): nat {
    if a <= b then 0 else a - b
  }

  /** How much a stream is asked for; `wordMax` is the largest `usize`. */
  function Limit(remaining: Option<nat>, capacity: nat, wordMax: nat): nat {
    if remaining.Some? && remaining.value <= wordMax then Min(remaining.value, capacity) else capacity
  }

  predicate Sound(source: Source) {
    match source
    case Memory(body, cursor) => cursor <= |body|
    case Stream(contents, position, length, remaining, _) =>
      position <= |contents| && (length.Some? <==> remaining.Some?) && (length.Some? ==> remaining.value <= length.value)
  }

  /** What the environment may answer. */
  predicate Possible(source: Source, capacity: nat, wordMax: nat, outcome: Answer) {
    source.Stream? && outcome.Count? ==>
      && outcome.count <= Limit(source.remaining, capacity, wordMax)
      && source.position + outcome.count <= |source.contents|
      && (outcome.count == 0 ==> Limit(source.remaining, capacity, wordMax) == 0 || source.position == |source.contents|)
  }

  /** The locked part of a read callback. */
  function Fetch(source: Source, capacity: nat, wordMax: nat, outcome: Answer): (Source, Fetched)
    requires Sound(source) && Possible(source, capacity, wordMax, outcome)
  {
    match source
    case Memory(body, cursor) =>
      var count := Min(|body| - cursor, capacity);
      (source.(cursor := cursor + count), Got(body[cursor..cursor + count], false))
    case Stream(contents, position, length, remaining, _) =>
      match outcome
      case Error(code) => (source, Broken(SourceFailed(code)))
      case Count(count) =>
        if count == 0 && remaining.Some? && remaining.value != 0 then (source, Broken(ShortSource))
        else
          (source.(position := position + count,
                   remaining := if remaining.Some? then Some(SaturatingSub(remaining.value, count)) else None),
           Got(contents[position..position + count], length.None? && count == 0))
  }

  function Record(error: Option<Fault>, fault: Fault): Option<Fault> {
    if error.Some? then error else Some(fault)
  }

  function ReadFailed(u: Upload, fault: Fault): Upload {
    u.(error := Record(u.error, fault), completions := u.completions + [ReadError])
  }

  function Read(u: Upload, wordMax: nat, a: Attempt): Upload
    requires Sound(u.source) && Possible(u.source, a.capacity, wordMax, a.outcome)
  {
    var v := u.(closed := u.closed || a.interrupted);
    if a.capacity > wordMax then u.(completions := u.completions + [ReadError])
    else if !a.memory then ReadFailed(v, NoMemory)
    else if v.closed then ReadFailed(v, Closed)
    else
      var (source, fetched) := Fetch(u.source, a.capacity, wordMax, a.outcome);
      match fetched
      case Broken(fault) => ReadFailed(v.(source := source), fault)
      case Got(bytes, finalChunk) =>
        if bytes != [] && !a.destination then ReadFailed(v.(source := source), NoBuffer)
        else v.(source := source, completions := u.completions + [ReadSucceeded(bytes, finalChunk)])
  }

  function RewindFailed(u: Upload, fault: Fault): Upload {
    u.(error := Record(u.error, fault), completions := u.completions + [RewindError])
  }

  /** Where a seek that failed or was abandoned leaves the source. */
  function Astray(source: Source, lands: nat): Source {
    if source.Stream? && source.rewindable then source.(position := Min(lands, |source.contents|)) else source
  }

  function Rewind(u: Upload, a: Seek): Upload {
    var v := u.(closed := u.closed || a.interrupted);
    if u.closed then RewindFailed(v, Closed)
    else if a.interrupted then RewindFailed(v.(source := Astray(u.source, a.lands)), Closed)
    else
      var done := v.(completions := u.completions + [RewindSucceeded]);
      match u.source
      case Memory(_, _) => done.(source := u.source.(cursor := 0))
      case Stream(_, _, length, _, rewindable) =>
        if !rewindable then RewindFailed(v, NotRewindable)
        else if a.error.Some? then RewindFailed(v.(source := Astray(u.source, a.lands)), SourceFailed(a.error.value))
        else done.(source := u.source.(position := 0, remaining := length))
  }

  /** The limit never exceeds what is declared to be left, whether or not that
      fits a `usize`, so that `saturating_sub` never saturates. */
  lemma LimitIsExact(remaining: Option<nat>, capacity: nat, wordMax: nat)
    requires capacity <= wordMax
    ensures Limit(remaining, capacity, wordMax) == if remaining.Some? then Min(remaining.value, capacity) else capacity
  {
  }

  class UploadContext {
    const wordMax: nat
    var source: Source
    var closed: bool
    var requestError: Option<Fault>
    var completions: seq<Completion>

    ghost function Value(): Upload
      reads this
    {
      Upload(source, closed, requestError, completions)
    }

    constructor (source: Source, wordMax: nat)
      ensures Value() == Upload(source, false, None, []) && this.wordMax == wordMax
    {
      this.source, this.wordMax := source, wordMax;
      closed, requestError, completions := false, None, [];
    }

    method FinishReadError(fault: Fault)
      modifies this`requestError, this`completions
      ensures Value() == ReadFailed(old(Value()), fault)
    {
      if requestError.None? {
        requestError := Some(fault);
      }
      completions := completions + [ReadError];
    }

    method ReadUploadSource(capacity: nat, outcome: Answer) returns (fetched: Fetched)
      requires source.Stream? && Sound(source) && Possible(source, capacity, wordMax, outcome)
      modifies this`source
      ensures (source, fetched) == Fetch(old(source), capacity, wordMax, outcome)
    {
      match outcome {
        case Error(code) =>
          fetched := Broken(SourceFailed(code));
        case Count(count) =>
          if count == 0 && source.remaining.Some? && source.remaining.value != 0 {
            return Broken(ShortSource);
          }
          fetched := Got(source.contents[source.position..source.position + count], source.length.None? && count == 0);
          if source.remaining.Some? {
            source := source.(remaining := Some(SaturatingSub(source.remaining.value, count)));
          }
          source := source.(position := source.position + count);
      }
    }

    /** Exactly one sink completion, whatever the attempt meets. */
    method OnRead(a: Attempt)
      requires Sound(source) && Possible(source, a.capacity, wordMax, a.outcome)
      modifies this
      ensures Value() == Read(old(Value()), wordMax, a)
      ensures |completions| == |old(completions)| + 1
    {
      if a.capacity > wordMax {
        completions := completions + [ReadError];
        return;
      }
      if a.interrupted {
        closed := true;
      }
      if !a.memory {
        FinishReadError(NoMemory);
        return;
      }
      if closed {
        FinishReadError(Closed);
        return;
      }
      var fetched: Fetched;
      if source.Memory? {
        var count := Min(|source.body| - source.cursor, a.capacity);
        fetched := Got(source.body[source.cursor..source.cursor + count], false);
        source := source.(cursor := source.cursor + count);
      } else {
        fetched := ReadUploadSource(a.capacity, a.outcome);
      }
      match fetched {
        case Broken(fault) =>
          FinishReadError(fault);
        case Got(bytes, finalChunk) =>
          if bytes != [] && !a.destination {
            FinishReadError(NoBuffer);
            return;
          }
          completions := completions + [ReadSucceeded(bytes, finalChunk)];
      }
    }

    method OnRewind(a: Seek)
      requires Sound(source)
      modifies this
      ensures Value() == Rewind(old(Value()), a)
      ensures |completions| == |old(completions)| + 1
    {
      var failed: Option<Fault> := None;
      if closed {
        failed := Some(Closed);
      } else if a.interrupted {
        closed, source, failed := true, Astray(source, a.lands), Some(Closed);
      } else if source.Memory? {
        source := source.(cursor := 0);
      } else if !source.rewindable {
        failed := Some(NotRewindable);
      } else if a.error.Some? {
        source, failed := Astray(source, a.lands), Some(SourceFailed(a.error.value));
      } else {
        source := source.(position := 0, remaining := source.length);
      }
      if a.interrupted {
        closed := true;
      }
      match failed {
        case None =>
          completions := completions + [RewindSucceeded];
        case Some(fault) =>
          if requestError.None? {
            requestError := Some(fault);
          }
          completions := completions + [RewindError];
      }
    }

    method OnClose()
      modifies this`closed
      ensures Value() == old(Value()).(closed := true)
    {
      closed := true;
    }
  }
}
