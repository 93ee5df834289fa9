/**
 The response side of a URL request: what a completed native read does, and the
 two adapters through which the application takes the bytes.
 */
module ResponseState {
  import opened Base

  datatype Fault =
    | InvalidReadSize(reported: nat, capacity: nat)
    | ResponseTooLarge(limit: nat)
    | NoBuffer
    | NoReceiver
    | Rejected(code: nat)
    | Native(code: nat)

  /** What a completed read leads to. */
  datatype Verdict = Fail(fault: Fault) | ReadAgain | Forward(chunk: Bytes)

  /** An item of the body channel. */
  datatype Item = Chunk(bytes: Bytes) | Failure(fault: Fault)

  /** The body's buffered chunk, what is in its channel, and whether every
      sender is gone. */
  datatype Body = Body(current: Bytes, channel: seq<Item>, closed: bool)

  datatype ReadPoll = Filled(bytes: Bytes) | ReadFailed(fault: Fault) | EndOfBody | ReadPending

  datatype NextPoll = Item(item: Item) | NoMore | NextPending

  function ItemBytes(item: Item): Bytes {
    if item.Chunk? then item.bytes else []
  }

  function ChunksOf(channel: seq<Item>): Bytes {
    if channel == [] then [] else ItemBytes(channel[0]) + ChunksOf(channel[1..])
  }

  /** The bytes that the body holds, in the order in which it gives them out. */
  function Rest(b: Body): Bytes {
    b.current + ChunksOf(b.channel)
  }

  lemma {:induction false} ChunksOfConcat(a: seq<Item>, b: seq<Item>)
    ensures ChunksOf(a + b) == ChunksOf(a) + ChunksOf(b)
  {
    hide ItemBytes;
    if a == [] {
      assert a + b == b;
    } else {
      ChunksOfConcat(a[1..], b);
      assert (a + b)[1..] == a[1..] + b;
      assert ChunksOf(a + b) == ItemBytes(a[0]) + ChunksOf(a[1..] + b);
    }
  }

  // ---------- The adapters ----------

  /** `poll_read` into a buffer with `room` bytes left. */
  function PollRead(b: Body, room: nat): (Body, ReadPoll)
    decreases |b.channel|
  {
    if b.current != [] then
      var count := Min(|b.current|, room);
      (b.(current := b.current[count..]), Filled(b.current[..count]))
    else if b.channel == [] then (b, if b.closed then EndOfBody else ReadPending)
    else
      var rest := b.(channel := b.channel[1..]);
      match b.channel[0]
      case Chunk(bytes) => PollRead(rest.(current := bytes), room)
      case Failure(fault) => (rest, ReadFailed(fault))
  }

  function PollNext(b: Body): (Body, NextPoll) {
    if b.current != [] then (b.(current := []), Item(Chunk(b.current)))
    else if b.channel == [] then (b, if b.closed then NoMore else NextPending)
    else (b.(channel := b.channel[1..]), Item(b.channel[0]))
  }

  function ReadBytes(p: ReadPoll): Bytes {
    if p.Filled? then p.bytes else []
  }

  function NextBytes(p: NextPoll): Bytes {
    if p.Item? then ItemBytes(p.item) else []
  }

  lemma ServeFront(b: Body, count: nat)
    requires count <= |b.current|
    ensures b.current[..count] + Rest(b.(current := b.current[count..])) == Rest(b)
  {
    hide ChunksOf;
    assert b.current == b.current[..count] + b.current[count..];
  }

  /** An empty buffer is refilled with the front of the channel. */
  lemma Refill(b: Body)
    requires b.current == [] && b.channel != []
    ensures b.channel[0].Chunk? ==> Rest(b.(current := b.channel[0].bytes, channel := b.channel[1..])) == Rest(b)
    ensures b.channel[0].Failure? ==> Rest(b.(channel := b.channel[1..])) == Rest(b)
  {
  }

  /** `poll_read` hands out the next bytes in order and loses none; it gives
      nothing into a non-empty buffer only when there is nothing to give. */
  lemma {:induction false} PollReadConserves(b: Body, room: nat)
    ensures ReadBytes(PollRead(b, room).1) + Rest(PollRead(b, room).0) == Rest(b)
    ensures |ReadBytes(PollRead(b, room).1)| <= room
    ensures PollRead(b, room).1.Filled? && room > 0 ==> ReadBytes(PollRead(b, room).1) != []
    ensures PollRead(b, room).1.EndOfBody? ==> b.closed && Rest(b) == []
    ensures PollRead(b, room).1.ReadPending? ==> !b.closed && Rest(b) == []
    ensures PollRead(b, room).0.closed == b.closed
    ensures |PollRead(b, room).0.channel| <= |b.channel|
    decreases |b.channel|
  {
    if b.current != [] {
      hide Rest, ChunksOf;
      ServeFront(b, Min(|b.current|, room));
    } else if b.channel != [] {
      hide Rest, ChunksOf;
      Refill(b);
      if b.channel[0].Chunk? {
        PollReadConserves(b.(channel := b.channel[1..], current := b.channel[0].bytes), room);
      }
    }
  }

  lemma PollNextConserves(b: Body)
    ensures NextBytes(PollNext(b).1) + Rest(PollNext(b).0) == Rest(b)
    ensures PollNext(b).1.NoMore? ==> b.closed && Rest(b) == []
    ensures PollNext(b).1.NextPending? ==> !b.closed && Rest(b) == []
    ensures PollNext(b).0.closed == b.closed
    ensures |PollNext(b).0.channel| <= |b.channel|
  {
  }

  // ---------- Bytes and errors in one order ----------

  /** The error that a poll hands out. */
  function ReadFaults(p: ReadPoll): seq<Fault> {
    if p.ReadFailed? then [p.fault] else []
  }

  function ItemFaults(item: Item): seq<Fault> {
    if item.Failure? then [item.fault] else []
  }

  function NextFaults(p: NextPoll): seq<Fault> {
    if p.Item? then ItemFaults(p.item) else []
  }

  function FaultsOf(channel: seq<Item>): seq<Fault> {
    if channel == [] then [] else ItemFaults(channel[0]) + FaultsOf(channel[1..])
  }

  lemma {:induction false} FaultsOfConcat(a: seq<Item>, b: seq<Item>)
    ensures FaultsOf(a + b) == FaultsOf(a) + FaultsOf(b)
  {
    hide ItemFaults;
    if a == [] {
      assert a + b == b;
    } else {
      FaultsOfConcat(a[1..], b);
      assert (a + b)[1..] == a[1..] + b;
      assert FaultsOf(a + b) == ItemFaults(a[0]) + FaultsOf(a[1..] + b);
    }
  }

  lemma {:induction false} PollReadFaults(b: Body, room: nat)
    ensures ReadFaults(PollRead(b, room).1) + FaultsOf(PollRead(b, room).0.channel) == FaultsOf(b.channel)
    decreases |b.channel|
  {
    if b.current == [] && b.channel != [] && b.channel[0].Chunk? {
      PollReadFaults(b.(channel := b.channel[1..], current := b.channel[0].bytes), room);
    }
  }

  lemma PollNextFaults(b: Body)
    ensures NextFaults(PollNext(b).1) + FaultsOf(PollNext(b).0.channel) == FaultsOf(b.channel)
  {
  }

  /** What the application gets out of a body, piece by piece. */
  datatype Token = Octet(value: byte) | Told(fault: Fault)

  function Octets(s: Bytes): seq<Token> {
    if s == [] then [] else [Octet(s[0])] + Octets(s[1..])
  }

  function TokensOf(channel: seq<Item>): seq<Token> {
    if channel == [] then [] else ItemTokens(channel[0]) + TokensOf(channel[1..])
  }

  function ItemTokens(item: Item): seq<Token> {
    match item
    case Chunk(bytes) => Octets(bytes)
    case Failure(fault) => [Told(fault)]
  }

  function Tokens(b: Body): seq<Token> {
    Octets(b.current) + TokensOf(b.channel)
  }

  function ReadTokens(p: ReadPoll): seq<Token> {
    match p
    case Filled(bytes) => Octets(bytes)
    case ReadFailed(fault) => [Told(fault)]
    case _ => []
  }

  function NextTokens(p: NextPoll): seq<Token> {
    if p.Item? then ItemTokens(p.item) else []
  }

  lemma {:induction false} OctetsConcat(a: Bytes, b: Bytes)
    ensures Octets(a + b) == Octets(a) + Octets(b)
  {
    if a == [] {
      assert a + b == b;
    } else {
      OctetsConcat(a[1..], b);
      assert (a + b)[1..] == a[1..] + b;
    }
  }

  lemma {:induction false} OctetsEmpty(s: Bytes)
    ensures Octets(s) == [] <==> s == []
  {
  }

  lemma FrontTokens(b: Body)
    requires b.current == []
    ensures b.channel != [] ==> Tokens(b) == ItemTokens(b.channel[0]) + Tokens(b.(channel := b.channel[1..]))
    ensures b.channel == [] ==> Tokens(b) == []
  {
    hide ItemTokens;
  }

  lemma ServedFront(b: Body, count: nat)
    requires count <= |b.current|
    ensures Octets(b.current[..count]) + Tokens(b.(current := b.current[count..])) == Tokens(b)
  {
    hide Octets, TokensOf;
    OctetsConcat(b.current[..count], b.current[count..]);
    assert b.current == b.current[..count] + b.current[count..];
  }

  lemma ChunkTurn(b: Body, room: nat)
    requires b.current == [] && b.channel != [] && b.channel[0].Chunk?
    ensures var u := b.(channel := b.channel[1..], current := b.channel[0].bytes);
            PollRead(b, room) == PollRead(u, room) && Tokens(b) == Tokens(u)
  {
  }

  /** `poll_read` hands out the next bytes, or the next error if that comes first,
      and loses neither; it fills the buffer or uses up a chunk. */
  lemma {:induction false} PollReadTokens(b: Body, room: nat)
    ensures ReadTokens(PollRead(b, room).1) + Tokens(PollRead(b, room).0) == Tokens(b)
    ensures PollRead(b, room).1.Filled? ==> |PollRead(b, room).1.bytes| == room || PollRead(b, room).0.current == []
    ensures PollRead(b, room).1.EndOfBody? ==> b.closed && Tokens(b) == []
    ensures PollRead(b, room).1.ReadPending? ==> !b.closed && Tokens(b) == []
    decreases |b.channel|
  {
    hide Tokens, Octets;
    if b.current != [] {
      ServedFront(b, Min(|b.current|, room));
    } else if b.channel != [] && b.channel[0].Chunk? {
      ChunkTurn(b, room);
      hide PollRead;
      PollReadTokens(b.(channel := b.channel[1..], current := b.channel[0].bytes), room);
    } else {
      FrontTokens(b);
      assert [] + Tokens(b) == Tokens(b);
    }
  }

  lemma PollNextTokens(b: Body)
    ensures NextTokens(PollNext(b).1) + Tokens(PollNext(b).0) == Tokens(b)
    ensures PollNext(b).1.NoMore? ==> b.closed && Tokens(b) == []
    ensures PollNext(b).1.NextPending? ==> !b.closed && Tokens(b) == []
  {
    hide Tokens, Octets;
    if b.current != [] {
      ServedFront(b, |b.current|);
      assert b.current[..|b.current|] == b.current && b.current[|b.current|..] == [];
    } else {
      FrontTokens(b);
      assert [] + Tokens(b) == Tokens(b);
    }
  }

  class ResponseBody {
    var current: Bytes
    var channel: seq<Item>
    var closed: bool

    ghost function Value(): Body
      reads this
    {
      Body(current, channel, closed)
    }

    constructor ()
      ensures Value() == Body([], [], false)
    {
      current, channel, closed := [], [], false;
    }

    /** `written` counts what this call has put into the caller's buffer. */
    method PollReadInto(room: nat) returns (poll: ReadPoll)
      modifies this`current, this`channel
      ensures (Value(), poll) == PollRead(old(Value()), room)
      ensures ReadBytes(poll) + Rest(Value()) == old(Rest(Value()))
    {
      PollReadConserves(Value(), room);
      while true
        invariant PollRead(Value(), room) == PollRead(old(Value()), room)
        decreases |channel|
      {
        if current != [] {
          var count := Min(|current|, room);
          poll := Filled(current[..count]);
          current := current[count..];
          return;
        }
        if channel == [] {
          return if closed then EndOfBody else ReadPending;
        }
        var item := channel[0];
        channel := channel[1..];
        match item {
          case Chunk(bytes) => current := bytes;
          case Failure(fault) => return ReadFailed(fault);
        }
      }
    }

    method PollNextItem() returns (poll: NextPoll)
      modifies this`current, this`channel
      ensures (Value(), poll) == PollNext(old(Value()))
      ensures NextBytes(poll) + Rest(Value()) == old(Rest(Value()))
    {
      PollNextConserves(Value());
      if current != [] {
        poll := Item(Chunk(current));
        current := [];
      } else if channel == [] {
        poll := if closed then NoMore else NextPending;
      } else {
        poll := Item(channel[0]);
        channel := channel[1..];
      }
    }
  }

  // ---------- A completed read ----------

  /** `wordMax` is the largest `usize`. A total that does not fit counts as too
      large, and the total is raised before the data pointer is looked at. */
  function Judge(received: nat, limit: nat, wordMax: nat, capacity: nat, reported: nat, memory: Option<Bytes>): (Verdict, nat)
    requires memory.Some? ==> |memory.value| == capacity
  {
    if reported > capacity then (Fail(InvalidReadSize(reported, capacity)), received)
    else if reported > wordMax || received + reported > wordMax || received + reported > limit then
      (Fail(ResponseTooLarge(limit)), received)
    else if reported == 0 then (ReadAgain, received)
    else if memory.None? then (Fail(NoBuffer), received + reported)
    else (Forward(memory.value[..reported]), received + reported)
  }

  predicate Fits(received: nat, limit: nat, capacity: nat, reported: nat) {
    reported <= capacity && received + reported <= limit
  }

  /** `chunk` is the first `count` bytes of `memory`. */
  predicate IsFront(memory: Bytes, count: nat, chunk: Bytes) {
    |chunk| == count <= |memory| && forall i :: 0 <= i < count ==> chunk[i] == memory[i]
  }

  /** A chunk is forwarded exactly when it fits the buffer and the limit, and it is
      then what native code wrote at the front of the buffer. */
  lemma JudgeIsExact(received: nat, limit: nat, wordMax: nat, capacity: nat, reported: nat, memory: Option<Bytes>)
    requires memory.Some? ==> |memory.value| == capacity
    requires received <= limit <= wordMax
    ensures var (verdict, total) := Judge(received, limit, wordMax, capacity, reported, memory);
            && received <= total <= limit
            && (verdict.Forward? <==> 0 < reported <= capacity && received + reported <= limit && memory.Some?)
            && (verdict.Forward? ==> IsFront(memory.value, reported, verdict.chunk))
            && (verdict.ReadAgain? <==> reported == 0)
            && (verdict == Fail(ResponseTooLarge(limit)) <==> reported <= capacity && received + reported > limit)
            && (verdict == Fail(InvalidReadSize(reported, capacity)) <==> reported > capacity)
            && (verdict == Fail(NoBuffer) <==>
                  0 < reported <= capacity && received + reported <= limit && memory.None?)
            && total == if Fits(received, limit, capacity, reported) then received + reported else received
  {
  }

  /** The first error wins, and a recorded one before the native outcome. */
  function FirstOf(recorded: Option<Fault>, fault: Option<Fault>): Option<Fault> {
    if recorded.Some? then recorded else fault
  }

  /** The state of a request's callbacks. */
  class CallbackContext {
    const limit: nat
    const wordMax: nat
    var received: nat
    var terminal: bool
    var done: bool
    var requestError: Option<Fault>

    ghost predicate Valid()
      reads this
    {
      received <= limit <= wordMax
    }

    constructor (limit: nat, wordMax: nat)
      requires limit <= wordMax
      ensures Valid() && received == 0 && !terminal && !done && requestError.None?
      ensures this.limit == limit && this.wordMax == wordMax
    {
      this.limit, this.wordMax := limit, wordMax;
      received, terminal, done, requestError := 0, false, false, None;
    }

    /** The first error recorded wins. */
    method Record(fault: Fault)
      modifies this`requestError
      ensures requestError == FirstOf(old(requestError), Some(fault))
    {
      if requestError.None? {
        requestError := Some(fault);
      }
    }

    method OnReadCompleted(capacity: nat, reported: nat, memory: Option<Bytes>) returns (verdict: Verdict)
      requires Valid() && (memory.Some? ==> |memory.value| == capacity)
      modifies this`received, this`requestError
      ensures (verdict, received) == Judge(old(received), limit, wordMax, capacity, reported, memory)
      ensures verdict.Forward? ==> memory.Some? && IsFront(memory.value, reported, verdict.chunk)
      ensures Valid()
      ensures verdict.Fail? ==> requestError == FirstOf(old(requestError), Some(verdict.fault))
      ensures !verdict.Fail? ==> requestError == old(requestError)
    {
      if reported > capacity {
        verdict := Fail(InvalidReadSize(reported, capacity));
        Record(verdict.fault);
        return;
      }
      if reported > wordMax || received + reported > wordMax || received + reported > limit {
        verdict := Fail(ResponseTooLarge(limit));
        Record(verdict.fault);
        return;
      }
      received := received + reported;
      if reported == 0 {
        return ReadAgain;
      }
      match memory {
        case None =>
          verdict := Fail(NoBuffer);
          Record(verdict.fault);
        case Some(data) =>
          verdict := Forward(data[..reported]);
      }
    }

    /** Only the first terminal callback has an effect; `published` is the error
        handed to the application, if any. */
    method Terminal(fallback: Option<Fault>) returns (first: bool, published: Option<Fault>)
      modifies this`terminal, this`done, this`requestError
      ensures first == !old(terminal) && terminal
      ensures first ==> done && requestError.None?
      ensures first ==> published == FirstOf(old(requestError), fallback)
      ensures !first ==> published.None? && done == old(done) && requestError == old(requestError)
    {
      first, published := !terminal, None;
      terminal := true;
      if !first {
        return;
      }
      done := true;
      published, requestError := requestError, None;
      if published.None? {
        published := fallback;
      }
    }
  }
}
