/**
 The live event source: its queue of events, the response bodies that it reads
 one after the other, and what it asks for when it reconnects.

 The server and the network are a script: what each body has to send, and how
 each attempt to connect again is answered.
 */
module EventQueue {
  import opened Base
  import opened Sse
  import opened SseRoundTrip

  function EventOf(item: Output): seq<Event> {
    if item.Dispatched? then [item.event] else []
  }

  function EventsOf(items: seq<Output>): seq<Event> {
    if items == [] then [] else EventOf(items[0]) + EventsOf(items[1..])
  }

  /** The reconnection delay after `items`. */
  function LastRetry(retry: nat, items: seq<Output>): nat
    decreases |items|
  {
    if items == [] then retry
    else LastRetry(if items[0].Retry? then items[0].millis else retry, items[1..])
  }

  function Reversed(s: seq<Event>): (r: seq<Event>)
    ensures |r| == |s|
  {
    if s == [] then [] else Reversed(s[1..]) + [s[0]]
  }

  lemma {:induction false} ReversedAppend(s: seq<Event>, e: Event)
    ensures Reversed(s + [e]) == [e] + Reversed(s)
  {
    if s != [] {
      ReversedAppend(s[1..], e);
      assert (s + [e])[1..] == s[1..] + [e];
    }
  }

  lemma {:induction false} EventsOfConcat(a: seq<Output>, b: seq<Output>)
    ensures EventsOf(a + b) == EventsOf(a) + EventsOf(b)
  {
    hide EventOf;
    if a == [] {
      assert a + b == b;
    } else {
      EventsOfConcat(a[1..], b);
      assert (a + b)[1..] == a[1..] + b;
      assert EventsOf(a + b) == EventOf(a[0]) + EventsOf(a[1..] + b);
    }
  }

  /** One turn of the loop in `ingest`. */
  lemma OneItem(pending: seq<Event>, retry: nat, items: seq<Output>)
    requires items != []
    ensures items[0].Dispatched? ==>
      Reversed(pending) + EventsOf(items) == Reversed([items[0].event] + pending) + EventsOf(items[1..])
      && LastRetry(retry, items) == LastRetry(retry, items[1..])
    ensures items[0].Retry? ==>
      EventsOf(items) == EventsOf(items[1..]) && LastRetry(retry, items) == LastRetry(items[0].millis, items[1..])
  {
    if items[0].Dispatched? {
      assert ([items[0].event] + pending)[1..] == pending;
    } else {
      assert [] + EventsOf(items[1..]) == EventsOf(items[1..]);
    }
  }

  lemma NoItems(pending: seq<Event>, retry: nat, items: seq<Output>)
    requires items == []
    ensures Reversed(pending) + EventsOf(items) == Reversed(pending) && LastRetry(retry, items) == retry
  {
  }

  lemma {:induction false} LastRetryConcat(retry: nat, a: seq<Output>, b: seq<Output>)
    ensures LastRetry(retry, a + b) == LastRetry(LastRetry(retry, a), b)
    decreases |a|
  {
    if a == [] {
      assert a + b == b;
    } else {
      LastRetryConcat(if a[0].Retry? then a[0].millis else retry, a[1..], b);
      assert (a + b)[1..] == a[1..] + b;
    }
  }

  /** The delay that counts is the last one, or the old one if there is none. */
  lemma {:induction false} LastRetryIsLast(retry: nat, items: seq<Output>, k: nat)
    requires k < |items| && items[k].Retry? && forall i :: k < i < |items| ==> !items[i].Retry?
    ensures LastRetry(retry, items) == items[k].millis
    decreases |items|
  {
    var now := if items[0].Retry? then items[0].millis else retry;
    if k == 0 {
      NoRetry(now, items[1..]);
    } else {
      LastRetryIsLast(now, items[1..], k - 1);
    }
  }

  lemma {:induction false} NoRetry(retry: nat, items: seq<Output>)
    requires forall i :: 0 <= i < |items| ==> !items[i].Retry?
    ensures LastRetry(retry, items) == retry
    decreases |items|
  {
    if items != [] {
      NoRetry(retry, items[1..]);
    }
  }

  // ---------- What is to come ----------

  /** A chunk of the response body, or an error in its place. */
  datatype Piece = Chunk(bytes: Bytes) | Broken(code: nat)

  /** How an attempt to connect again is answered. */
  datatype Attempt = Opened(body: seq<Piece>) | Refused(code: nat)

  /** What `next_event` hands out. */
  datatype Delivery = Event(event: Event) | Failure(code: nat)

  /** What can be seen of a source from outside: `delay` is slept before the
      attempt, `ids` are its `last-event-id` headers. */
  datatype Happening =
    | Delivers(delivery: Delivery)
    | Reconnects(delay: nat, ids: seq<Bytes>)
    | Hangs

  /** What an event source is, apart from its queue. */
  datatype Feed = Feed(parser: Parser, retry: nat, body: Option<seq<Piece>>, attempts: seq<Attempt>)

  function Delivered(events: seq<Event>): seq<Happening> {
    if events == [] then [] else [Delivers(Delivery.Event(events[0]))] + Delivered(events[1..])
  }

  function EventIn(h: Happening): seq<Event> {
    if h.Delivers? && h.delivery.Event? then [h.delivery.event] else []
  }

  /** The events among `happenings`. */
  function EventsIn(happenings: seq<Happening>): seq<Event> {
    if happenings == [] then [] else EventIn(happenings[0]) + EventsIn(happenings[1..])
  }

  function IdHeader(id: Option<Bytes>): seq<Bytes> {
    if id.Some? then [id.value] else []
  }

  predicate HasChunk(body: seq<Piece>) {
    body != [] && body[0].Chunk?
  }

  /** The source has nothing more to do: no body is left, or the last one is at its
      end and the source does not reconnect. */
  predicate Over(f: Feed, auto: bool) {
    f.body.None? || (f.body.value == [] && !auto)
  }

  function Size(body: Option<seq<Piece>>): nat {
    if body.Some? then |body.value| + 1 else 0
  }

  /** What the next attempt lets happen at once. */
  function Reply(attempts: seq<Attempt>): seq<Happening> {
    if attempts == [] then [Hangs]
    else if attempts[0].Refused? then [Delivers(Failure(attempts[0].code))]
    else []
  }

  function NextBody(attempts: seq<Attempt>): Option<seq<Piece>> {
    if attempts != [] && attempts[0].Opened? then Some(attempts[0].body) else None
  }

  function Later(attempts: seq<Attempt>): seq<Attempt> {
    if attempts == [] then [] else attempts[1..]
  }

  /** The next piece of the body, or the next attempt. The request of a reconnection
      repeats the headers of the first one, which are `first`. */
  function Turn(f: Feed, auto: bool, first: seq<Bytes>): (r: (seq<Happening>, Feed))
    requires !Over(f, auto)
    ensures |r.1.attempts| < |f.attempts| || (r.1.attempts == f.attempts && Size(r.1.body) < Size(f.body))
  {
    var body := f.body.value;
    if HasChunk(body) then
      var (q, items) := Push(f.parser, body[0].bytes);
      (Delivered(EventsOf(items)), Feed(q, LastRetry(f.retry, items), Some(body[1..]), f.attempts))
    else if !auto then
      ([Delivers(Failure(body[0].code))], f.(body := Some(body[1..])))
    else
      var ask := Reconnects(f.retry, first + IdHeader(f.parser.lastId));
      ([ask] + Reply(f.attempts), f.(body := NextBody(f.attempts), attempts := Later(f.attempts)))
  }

  /** All that will happen if the application asks for as long as it gets. */
  function Future(f: Feed, auto: bool, first: seq<Bytes>): seq<Happening>
    decreases |f.attempts|, Size(f.body)
  {
    if Over(f, auto) then []
    else var (now, next) := Turn(f, auto, first); now + Future(next, auto, first)
  }

  /** The chunk that a turn reads. */
  function Reads(f: Feed, auto: bool): seq<Bytes>
    requires !Over(f, auto)
  {
    var body := f.body.value;
    if HasChunk(body) then [body[0].bytes] else []
  }

  /** All chunks that the source reads, of all its connections. */
  function Heard(f: Feed, auto: bool): seq<Bytes>
    decreases |f.attempts|, Size(f.body)
  {
    if Over(f, auto) then [] else Reads(f, auto) + Heard(Turn(f, auto, []).1, auto)
  }

  // ---------- The source ----------

  /** How a call of `next_event` ends: with an event or error, with `None`, or not
      at all, when the attempt to connect again is never answered. */
  datatype CallEnd = Yields(delivery: Delivery) | Ended | Unanswered

  function Told(outcome: CallEnd): seq<Happening> {
    match outcome
    case Yields(delivery) => [Delivers(delivery)]
    case Ended => []
    case Unanswered => [Hangs]
  }

  function Answer(attempts: seq<Attempt>): Option<Attempt> {
    if attempts == [] then None else Some(attempts[0])
  }

  /** What an attempt makes of the call when it leaves no body. */
  function WithoutBody(answer: Option<Attempt>): CallEnd {
    if answer.None? then Unanswered
    else if answer.value.Refused? then Yields(Failure(answer.value.code))
    else Ended
  }

  predicate OnlyAsks(happenings: seq<Happening>) {
    forall h :: h in happenings ==> h.Reconnects?
  }

  function ToldIf(end: Option<CallEnd>): seq<Happening> {
    if end.Some? then Told(end.value) else []
  }

  lemma More(a: seq<Happening>, b: seq<Happening>, c: seq<Happening>, d: seq<Happening>)
    requires OnlyAsks(a) && OnlyAsks(b)
    ensures OnlyAsks(a + b) && a + (b + c + d) == (a + b) + c + d
  {
  }

  lemma ChunkTurn(f: Feed, auto: bool, first: seq<Bytes>)
    requires f.body.Some? && HasChunk(f.body.value)
    ensures var (q, items) := Push(f.parser, f.body.value[0].bytes);
            var next := Feed(q, LastRetry(f.retry, items), Some(f.body.value[1..]), f.attempts);
            Future(f, auto, first) == Delivered(EventsOf(items)) + Future(next, auto, first)
  {
    hide Push, LastRetry, EventsOf, Delivered;
  }

  lemma BreakTurn(f: Feed, auto: bool, first: seq<Bytes>)
    requires f.body.Some? && f.body.value != [] && f.body.value[0].Broken? && !auto
    ensures Future(f, auto, first)
         == [Delivers(Failure(f.body.value[0].code))] + Future(f.(body := Some(f.body.value[1..])), auto, first)
  {
  }

  lemma LostTurn(f: Feed, auto: bool, first: seq<Bytes>)
    requires f.body.Some? && auto && !HasChunk(f.body.value)
    ensures var ask := Reconnects(f.retry, first + IdHeader(f.parser.lastId));
            var next := f.(body := NextBody(f.attempts), attempts := Later(f.attempts));
            && (next.body.Some? ==> Future(f, auto, first) == [ask] + Future(next, auto, first))
            && (next.body.None? ==>
                  Future(f, auto, first) == [ask] + Told(WithoutBody(Answer(f.attempts))) + Future(next, auto, first))
  {
    TurnOfLost(f, auto, first);
    assert Future(f, auto, first) == Turn(f, auto, first).0 + Future(Turn(f, auto, first).1, auto, first) by {
      hide Turn;
    }
    hide Turn, Future, IdHeader;
  }

  lemma TurnOfLost(f: Feed, auto: bool, first: seq<Bytes>)
    requires f.body.Some? && auto && !HasChunk(f.body.value)
    ensures var ask := Reconnects(f.retry, first + IdHeader(f.parser.lastId));
            var next := f.(body := NextBody(f.attempts), attempts := Later(f.attempts));
            && Turn(f, auto, first).1 == next
            && (next.body.Some? ==> Turn(f, auto, first).0 == [ask])
            && (next.body.None? ==> Turn(f, auto, first).0 == [ask] + Told(WithoutBody(Answer(f.attempts))))
  {
    hide IdHeader;
  }

  lemma NothingFollows(f: Feed, auto: bool, first: seq<Bytes>)
    requires Over(f, auto)
    ensures Future(f, auto, first) == []
  {
  }

  lemma NoneReversed()
    ensures Delivered(Reversed([])) == [] && Reversed([]) == []
  {
  }

  class EventSource {
    const parser: SseParser
    const auto: bool
    const first: seq<Bytes>
    var pending: seq<Event>
    var retry: nat
    var body: Option<seq<Piece>>
    var attempts: seq<Attempt>

    ghost function Value(): Feed
      reads this, parser
    {
      Feed(parser.Value(), retry, body, attempts)
    }

    /** All that is still to happen, first things first. */
    ghost function Stream(): seq<Happening>
      reads this, parser
    {
      Delivered(Reversed(pending)) + Future(Value(), auto, first)
    }

    /** The request that opened the source carried its last event id. */
    constructor (lastEventId: Option<Bytes>, auto: bool, retry: nat, body: seq<Piece>, attempts: seq<Attempt>)
      ensures pending == [] && this.auto == auto && fresh(parser)
      ensures first == if lastEventId.Some? then [lastEventId.value] else []
      ensures Value() == Feed(Parser([], [], [], None, None, lastEventId), retry, Some(body), attempts)
    {
      parser := new SseParser(lastEventId);
      this.auto := auto;
      first := IdHeader(lastEventId);
      pending := [];
      this.retry := retry;
      this.body := Some(body);
      this.attempts := attempts;
    }

    method Ingest(chunk: Bytes)
      modifies this, parser
      ensures parser.Value() == Push(old(parser.Value()), chunk).0
      ensures Reversed(pending) == Reversed(old(pending)) + EventsOf(Push(old(parser.Value()), chunk).1)
      ensures retry == LastRetry(old(retry), Push(old(parser.Value()), chunk).1)
      ensures body == old(body) && attempts == old(attempts)
    {
      hide Push, Reversed, EventsOf, LastRetry;
      var items := parser.Feed(chunk);
      var i := 0;
      assert items[0..] == items;
      while i < |items|
        invariant 0 <= i <= |items|
        invariant Reversed(pending) + EventsOf(items[i..]) == Reversed(old(pending)) + EventsOf(items)
        invariant LastRetry(retry, items[i..]) == LastRetry(old(retry), items)
        invariant body == old(body) && attempts == old(attempts)
        invariant parser.Value() == Push(old(parser.Value()), chunk).0
        decreases |items| - i
      {
        OneItem(pending, retry, items[i..]);
        assert items[i..][1..] == items[i + 1..];
        match items[i] {
          case Dispatched(event) =>
            pending := [event] + pending;
          case Retry(millis) =>
            retry := millis;
        }
        i := i + 1;
      }
      NoItems(pending, retry, items[i..]);
    }

    /** Gives up the body, sleeps, and connects again; no body is left unless the
        attempt succeeds. */
    method Reconnect() returns (ask: Happening, answer: Option<Attempt>)
      modifies this
      ensures ask == Reconnects(retry, first + IdHeader(parser.lastId))
      ensures answer == Answer(old(attempts))
      ensures body == NextBody(old(attempts)) && attempts == Later(old(attempts))
      ensures pending == old(pending) && retry == old(retry)
      ensures old(auto && body.Some? && pending == [] && !HasChunk(body.value)) ==>
        && (body.Some? ==> old(Stream()) == [ask] + Stream())
        && (body.None? ==> old(Stream()) == [ask] + Told(WithoutBody(answer)) + Stream())
    {
      if auto && body.Some? && pending == [] && !HasChunk(body.value) {
        LostTurn(Value(), auto, first);
        NoQueue();
      }
      hide Future, Reversed, IdHeader, Delivered, HasChunk, Stream, Told, WithoutBody;
      body := None;
      ask := Reconnects(retry, first + IdHeader(parser.lastId));
      answer := None;
      if attempts != [] {
        answer := Some(attempts[0]);
        attempts := attempts[1..];
        if answer.value.Opened? {
          body := Some(answer.value.body);
        }
      }
      assert pending == [] ==> Stream() == Future(Value(), auto, first) by {
        if pending == [] {
          NoQueue();
        }
      }
    }

    lemma NoQueue()
      requires pending == []
      ensures Stream() == Future(Value(), auto, first)
    {
      NoneReversed();
      hide Future, Delivered, Reversed;
      assert [] + Future(Value(), auto, first) == Future(Value(), auto, first);
    }

    /** The call does what comes next: attempts to connect up to the next delivery,
        or up to one that is never answered, or to the end of all. */
    method NextEvent() returns (asked: seq<Happening>, outcome: CallEnd)
      modifies this, parser
      ensures old(Stream()) == asked + Told(outcome) + Stream()
      ensures OnlyAsks(asked)
      ensures !outcome.Yields? ==> Stream() == []
    {
      assert OnlyAsks([]);
      asked := [];
      hide OnlyAsks, Stream, Told, Size;
      while true
        invariant old(Stream()) == asked + Stream()
        invariant OnlyAsks(asked)
        decreases |attempts|, Size(body)
      {
        var more, end := Advance();
        More(asked, more, ToldIf(end), Stream());
        asked := asked + more;
        if end.Some? {
          return asked, end.value;
        }
        assert asked + [] == asked;
      }
    }

    /** One turn of that loop. */
    method Advance() returns (asked: seq<Happening>, end: Option<CallEnd>)
      modifies this, parser
      ensures old(Stream()) == asked + ToldIf(end) + Stream()
      ensures OnlyAsks(asked)
      ensures end.Some? && !end.value.Yields? ==> Stream() == []
      ensures end.None? ==>
        |attempts| < |old(attempts)| || (attempts == old(attempts) && Size(body) < old(Size(body)))
    {
      asked := [];
      end := None;
      hide Push, Future, Reversed, IdHeader, Delivered, Stream, Told;
      if pending != [] {
        var event := PopPending();
        end := Some(Yields(Delivery.Event(event)));
      } else if body.None? || (body.value == [] && !auto) {
        AtTheEnd();
        end := Some(Ended);
        NoneTold();
      } else if HasChunk(body.value) {
        TakeChunk();
      } else if auto {
        var ask, answer := Reconnect();
        asked := [ask];
        if body.None? {
          AtTheEnd();
          end := Some(WithoutBody(answer));
        }
      } else {
        var code := TakeBreak();
        end := Some(Yields(Failure(code)));
      }
      assert [] + ToldIf(end) == ToldIf(end) && asked + [] == asked;
    }

    lemma NoneTold()
      ensures Told(Ended) == []
    {
    }

    lemma AtTheEnd()
      requires pending == [] && Over(Value(), auto)
      ensures Stream() == []
    {
      NoneReversed();
      NothingFollows(Value(), auto, first);
    }

    method PopPending() returns (event: Event)
      requires pending != []
      modifies this
      ensures old(Stream()) == Told(Yields(Delivery.Event(event))) + Stream()
    {
      hide Future, Push;
      var rest := pending[..|pending| - 1];
      event := pending[|pending| - 1];
      assert pending == rest + [event];
      ReversedAppend(rest, event);
      assert ([event] + Reversed(rest))[1..] == Reversed(rest);
      pending := rest;
    }

    method TakeBreak() returns (code: nat)
      requires pending == [] && body.Some? && body.value != [] && body.value[0].Broken? && !auto
      modifies this
      ensures old(Stream()) == Told(Yields(Failure(code))) + Stream()
    {
      BreakTurn(Value(), auto, first);
      NoneReversed();
      hide Future, Reversed, Delivered;
      code := body.value[0].code;
      body := Some(body.value[1..]);
    }

    method TakeChunk()
      requires pending == [] && body.Some? && HasChunk(body.value)
      modifies this, parser
      ensures Stream() == old(Stream()) && attempts == old(attempts) && body == Some(old(body).value[1..])
    {
      ChunkTurn(Value(), auto, first);
      NoneReversed();
      hide Push, Future, Reversed, EventsOf, LastRetry, Delivered;
      var chunk := body.value[0].bytes;
      ghost var events := EventsOf(Push(parser.Value(), chunk).1);
      assert Stream() == Delivered(events) + Future(
        Feed(Push(parser.Value(), chunk).0, LastRetry(retry, Push(parser.Value(), chunk).1), Some(body.value[1..]), attempts),
        auto, first);
      body := Some(body.value[1..]);
      Ingest(chunk);
      assert [] + events == events;
      assert Reversed(pending) == events;
    }
  }
}
