/** What the connections of one event source deliver together, and what each
    attempt to connect again asks for. */
module EventReconnects {
  import opened Base
  import opened Sse
  import opened SseRoundTrip
  import opened EventQueue

  lemma {:induction false} PushAllConcat(p: Parser, a: seq<Bytes>, b: seq<Bytes>)
    ensures var (q, first) := PushAll(p, a);
            PushAll(p, a + b) == (PushAll(q, b).0, first + PushAll(q, b).1)
    decreases |a|
  {
    hide Push;
    if a == [] {
      assert a + b == b;
      assert [] + PushAll(p, b).1 == PushAll(p, b).1;
    } else {
      PushAllConcat(Push(p, a[0]).0, a[1..], b);
      assert (a + b)[1..] == a[1..] + b;
      var rest := PushAll(Push(p, a[0]).0, a[1..]).1;
      assert Push(p, a[0]).1 + (rest + PushAll(PushAll(p, a).0, b).1)
          == Push(p, a[0]).1 + rest + PushAll(PushAll(p, a).0, b).1;
    }
  }

  lemma {:induction false} EventsInConcat(a: seq<Happening>, b: seq<Happening>)
    ensures EventsIn(a + b) == EventsIn(a) + EventsIn(b)
  {
    hide EventIn;
    if a == [] {
      assert a + b == b;
    } else {
      EventsInConcat(a[1..], b);
      assert (a + b)[1..] == a[1..] + b;
      assert EventsIn(a + b) == EventIn(a[0]) + EventsIn(a[1..] + b);
    }
  }

  lemma {:induction false} EventsInDelivered(events: seq<Event>)
    ensures EventsIn(Delivered(events)) == events
    ensures forall h :: h in Delivered(events) ==> h.Delivers? && h.delivery.Event?
  {
    if events != [] {
      EventsInDelivered(events[1..]);
    }
  }

  // ---------- One turn ----------

  lemma PushOne(p: Parser, chunk: Bytes)
    ensures PushAll(p, [chunk]) == Push(p, chunk)
  {
    hide Push;
    var (q, items) := Push(p, chunk);
    assert PushAll(q, [chunk][1..]) == (q, []);
    assert items + [] == items;
  }

  /** A turn parses what it reads, and delivers the events in it. */
  lemma TurnParses(f: Feed, auto: bool, first: seq<Bytes>)
    requires !Over(f, auto)
    ensures var (now, next) := Turn(f, auto, first);
            var (q, items) := PushAll(f.parser, Reads(f, auto));
            next == Turn(f, auto, []).1 && next.parser == q && EventsIn(now) == EventsOf(items)
            && next.retry == LastRetry(f.retry, items)
  {
    if HasChunk(f.body.value) {
      PushOne(f.parser, f.body.value[0].bytes);
      EventsInDelivered(EventsOf(Push(f.parser, f.body.value[0].bytes).1));
      hide Push, PushAll, LastRetry, EventsOf, EventsIn, Delivered;
    } else {
      OtherTurn(f, auto, first);
    }
  }

  lemma OtherTurn(f: Feed, auto: bool, first: seq<Bytes>)
    requires !Over(f, auto) && !HasChunk(f.body.value)
    ensures var (now, next) := Turn(f, auto, first);
            EventsIn(now) == [] && next == Turn(f, auto, []).1 && next.parser == f.parser && next.retry == f.retry
  {
    hide IdHeader, Reply;
    var now := Turn(f, auto, first).0;
    if auto {
      ReplyTellsNothing(f.attempts);
      assert now[1..] == Reply(f.attempts);
      assert EventsIn(now) == EventIn(now[0]) + EventsIn(Reply(f.attempts));
    } else {
      assert now[1..] == [];
    }
  }

  lemma ReplyTellsNothing(attempts: seq<Attempt>)
    ensures EventsIn(Reply(attempts)) == []
  {
    if Reply(attempts) != [] {
      assert Reply(attempts)[1..] == [];
    }
  }

  /** Only the first thing in a turn can be a reconnection; a failure of a source
      that reconnects, or one that hangs, is the last thing of all. */
  lemma TurnAsks(f: Feed, auto: bool, first: seq<Bytes>, i: nat)
    requires !Over(f, auto) && i < |Turn(f, auto, first).0|
    ensures var (now, next) := Turn(f, auto, first);
            && (now[i].Reconnects? ==> i == 0 && now[i] == Reconnects(f.retry, first + IdHeader(f.parser.lastId)))
            && (auto && !now[i].Reconnects? && !(now[i].Delivers? && now[i].delivery.Event?) ==>
                  i == |now| - 1 == 1 && now[0].Reconnects? && next.body.None?)
  {
    if HasChunk(f.body.value) {
      var events := EventsOf(Push(f.parser, f.body.value[0].bytes).1);
      EventsInDelivered(events);
      assert Turn(f, auto, first).0 == Delivered(events) by { hide Delivered, EventsOf, Push, LastRetry; }
      hide Turn, Push, LastRetry, EventsOf, EventsIn, Delivered, IdHeader;
      assert Delivered(events)[i] in Delivered(events);
    } else {
      hide Push, LastRetry, EventsOf, EventsIn, Delivered, IdHeader;
    }
  }

  // ---------- All turns ----------

  /** The events that a source delivers are those of one parser for all that it
      hears, on whatever connections: nothing is forgotten in between. */
  lemma {:induction false} ConnectionsAreOneText(f: Feed, auto: bool, first: seq<Bytes>)
    ensures EventsIn(Future(f, auto, first)) == EventsOf(PushAll(f.parser, Heard(f, auto)).1)
    decreases |f.attempts|, Size(f.body)
  {
    if !Over(f, auto) {
      var (now, next) := Turn(f, auto, first);
      TurnParses(f, auto, first);
      assert Heard(f, auto) == Reads(f, auto) + Heard(next, auto);
      hide Turn, Reads, EventsOf, EventsIn, PushAll, Over;
      ConnectionsAreOneText(next, auto, first);
      var (q, items) := PushAll(f.parser, Reads(f, auto));
      PushAllConcat(f.parser, Reads(f, auto), Heard(next, auto));
      EventsOfConcat(items, PushAll(q, Heard(next, auto)).1);
      EventsInConcat(now, Future(next, auto, first));
    }
  }

  lemma SomethingComes(f: Feed, auto: bool, first: seq<Bytes>)
    requires Future(f, auto, first) != []
    ensures !Over(f, auto)
  {
  }

  lemma FutureSplits(f: Feed, auto: bool, first: seq<Bytes>, i: nat)
    requires !Over(f, auto) && i < |Future(f, auto, first)|
    ensures var (now, next) := Turn(f, auto, first);
            && (i < |now| ==> Future(f, auto, first)[i] == now[i])
            && (i >= |now| ==>
                  && i - |now| < |Future(next, auto, first)|
                  && Future(f, auto, first)[i] == Future(next, auto, first)[i - |now|]
                  && Future(f, auto, first)[..i] == now + Future(next, auto, first)[..i - |now|])
  {
    hide Turn, Over;
  }

  lemma FutureAt(f: Feed, auto: bool, first: seq<Bytes>, i: nat)
    requires !Over(f, auto) && i < |Future(f, auto, first)|
    ensures var (now, next) := Turn(f, auto, first);
            && (i < |now| ==> Future(f, auto, first)[i] == now[i])
            && (i >= |now| ==>
                  && i - |now| < |Future(next, auto, first)|
                  && Future(f, auto, first)[i] == Future(next, auto, first)[i - |now|])
  {
    hide Turn, Over;
  }

  /** Where a reconnection stands in what a source does: behind a number of chunks
      that it has heard. */
  ghost predicate Behind(f: Feed, auto: bool, first: seq<Bytes>, i: nat, n: nat)
    requires i < |Future(f, auto, first)| && n <= |Heard(f, auto)|
  {
    var (q, items) := PushAll(f.parser, Heard(f, auto)[..n]);
    && Future(f, auto, first)[i] == Reconnects(LastRetry(f.retry, items), first + IdHeader(q.lastId))
    && EventsIn(Future(f, auto, first)[..i]) == EventsOf(items)
  }

  /** Each reconnection waits for the last delay heard so far and asks with the last
      id parsed so far, and what was heard so far has been delivered. */
  lemma {:induction false} ReconnectsBehind(f: Feed, auto: bool, first: seq<Bytes>, i: nat) returns (n: nat)
    requires i < |Future(f, auto, first)| && Future(f, auto, first)[i].Reconnects?
    ensures n <= |Heard(f, auto)| && Behind(f, auto, first, i, n)
    decreases |f.attempts|, Size(f.body)
  {
    SomethingComes(f, auto, first);
    hide Turn, Future, Heard, Reads, EventsOf, EventsIn, PushAll, Over, LastRetry, IdHeader, Behind, Size;
    var (now, next) := Turn(f, auto, first);
    FutureAt(f, auto, first, i);
    if i < |now| {
      TurnAsks(f, auto, first, i);
      n := 0;
      BehindNothing(f, auto, first, i);
    } else {
      n := ReconnectsBehind(next, auto, first, i - |now|);
      BehindLater(f, auto, first, i, n);
      n := n + |Reads(f, auto)|;
    }
  }

  lemma BehindNothing(f: Feed, auto: bool, first: seq<Bytes>, i: nat)
    requires i == 0 < |Future(f, auto, first)|
    requires Future(f, auto, first)[0] == Reconnects(f.retry, first + IdHeader(f.parser.lastId))
    ensures Behind(f, auto, first, i, 0)
  {
    hide Future, Heard, IdHeader;
    assert Future(f, auto, first)[..0] == [] && Heard(f, auto)[..0] == [];
  }

  lemma HeardBehind(f: Feed, auto: bool, n: nat)
    requires !Over(f, auto) && n <= |Heard(Turn(f, auto, []).1, auto)|
    ensures |Reads(f, auto)| + n <= |Heard(f, auto)|
    ensures var (q, items) := PushAll(f.parser, Reads(f, auto));
            var (r, more) := PushAll(q, Heard(Turn(f, auto, []).1, auto)[..n]);
            PushAll(f.parser, Heard(f, auto)[..|Reads(f, auto)| + n]) == (r, items + more)
  {
    assert Heard(f, auto) == Reads(f, auto) + Heard(Turn(f, auto, []).1, auto);
    hide Turn, Heard, Reads, PushAll, Over;
    var later := Heard(Turn(f, auto, []).1, auto)[..n];
    assert Heard(f, auto)[..|Reads(f, auto)| + n] == Reads(f, auto) + later;
    PushAllConcat(f.parser, Reads(f, auto), later);
  }

  lemma BehindLater(f: Feed, auto: bool, first: seq<Bytes>, i: nat, n: nat)
    requires !Over(f, auto) && i < |Future(f, auto, first)|
    requires var (now, next) := Turn(f, auto, first);
             i >= |now| && i - |now| < |Future(next, auto, first)| && n <= |Heard(next, auto)|
             && Behind(next, auto, first, i - |now|, n)
    ensures |Reads(f, auto)| + n <= |Heard(f, auto)| && Behind(f, auto, first, i, |Reads(f, auto)| + n)
  {
    var (now, next) := Turn(f, auto, first);
    FutureSplits(f, auto, first, i);
    TurnParses(f, auto, first);
    hide Turn, Future, Heard, Reads, EventsOf, EventsIn, PushAll, Over, LastRetry, IdHeader;
    var (q, items) := PushAll(f.parser, Reads(f, auto));
    var later := Heard(next, auto)[..n];
    HeardBehind(f, auto, n);
    assert LastRetry(f.retry, items + PushAll(q, later).1) == LastRetry(next.retry, PushAll(q, later).1) by {
      LastRetryConcat(f.retry, items, PushAll(q, later).1);
    }
    assert EventsIn(Future(f, auto, first)[..i]) == EventsOf(items + PushAll(q, later).1) by {
      EventsOfConcat(items, PushAll(q, later).1);
      EventsInConcat(now, Future(next, auto, first)[..i - |now|]);
    }
  }

  // ---------- The last event id ----------

  lemma LineLastId(p: Parser, line: Bytes)
    ensures var (q, item) := PushLine(p, line);
            q.lastId == LastId(p.lastId, EventsOf(Maybe(item)))
  {
    hide SplitField, ParseU64, Join;
    var (q, item) := PushLine(p, line);
    if item.Some? {
      assert [item.value][1..] == [];
      if item.value.Dispatched? {
        assert EventsOf([item.value]) == [item.value.event] + [] == [item.value.event];
        assert [item.value.event][1..] == [];
      }
    }
  }

  lemma {:induction false} LastIdConcat(start: Option<Bytes>, a: seq<Event>, b: seq<Event>)
    ensures LastId(start, a + b) == LastId(LastId(start, a), b)
    decreases |a|
  {
    if a == [] {
      assert a + b == b;
    } else {
      LastIdConcat(if a[0].id.Some? then a[0].id else start, a[1..], b);
      assert (a + b)[1..] == a[1..] + b;
    }
  }

  lemma {:induction false} DrainLastId(p: Parser)
    ensures Drain(p).0.lastId == LastId(p.lastId, EventsOf(Drain(p).1))
    decreases |p.buffer|
  {
    hide PushLine, TrimEnding;
    if LineEnd(p.buffer) == None {
      DrainNothing(p);
    } else {
      var end := LineEnd(p.buffer).value;
      DrainLine(p, end);
      hide Drain, LineEnd, EventsOf, LastId;
      var (q, item) := PushLine(p.(buffer := p.buffer[end..]), TrimEnding(p.buffer[..end]));
      LineLastId(p.(buffer := p.buffer[end..]), TrimEnding(p.buffer[..end]));
      DrainLastId(q);
      EventsOfConcat(Maybe(item), Drain(q).1);
      LastIdConcat(p.lastId, EventsOf(Maybe(item)), EventsOf(Drain(q).1));
    }
  }

  lemma {:induction false} PushAllLastId(p: Parser, chunks: seq<Bytes>)
    ensures PushAll(p, chunks).0.lastId == LastId(p.lastId, EventsOf(PushAll(p, chunks).1))
    decreases |chunks|
  {
    if chunks != [] {
      var (q, items) := Push(p, chunks[0]);
      DrainLastId(p.(buffer := StripBom(p.buffer + chunks[0])));
      hide Push, Drain, EventsOf, LastId;
      PushAllLastId(q, chunks[1..]);
      EventsOfConcat(items, PushAll(q, chunks[1..]).1);
      LastIdConcat(p.lastId, EventsOf(items), EventsOf(PushAll(q, chunks[1..]).1));
    }
  }

  /** Each reconnection asks with the id of the last event delivered in front of it
      that carried one, behind the ids of the opening request: with that id alone if
      and only if there were none. */
  lemma ResumesBehindTheLastEvent(f: Feed, auto: bool, first: seq<Bytes>, i: nat)
    requires i < |Future(f, auto, first)| && Future(f, auto, first)[i].Reconnects?
    ensures var id := LastId(f.parser.lastId, EventsIn(Future(f, auto, first)[..i]));
            Future(f, auto, first)[i].ids == first + (if id.Some? then [id.value] else [])
    ensures var id := LastId(f.parser.lastId, EventsIn(Future(f, auto, first)[..i]));
            Future(f, auto, first)[i].ids == (if id.Some? then [id.value] else []) <==> first == []
  {
    hide Future, Heard, EventsIn, EventsOf, PushAll, LastId, LastRetry;
    var n := ReconnectsBehind(f, auto, first, i);
    PushAllLastId(f.parser, Heard(f, auto)[..n]);
  }

  // ---------- The end ----------

  lemma FutureTurns(f: Feed, auto: bool, first: seq<Bytes>)
    requires !Over(f, auto)
    ensures var (now, next) := Turn(f, auto, first);
            Future(f, auto, first) == now + Future(next, auto, first)
  {
    hide Turn, Over;
  }

  lemma NothingWithoutABody(f: Feed, auto: bool, first: seq<Bytes>)
    requires f.body.None?
    ensures Future(f, auto, first) == []
  {
  }

  /** A source that reconnects fails at most once: by an attempt to connect that
      fails, and nothing happens any more then. The same holds when an attempt is
      not answered. Errors of a body are not handed out. */
  lemma {:induction false} FailsOnceAndLast(f: Feed, first: seq<Bytes>, i: nat)
    requires i < |Future(f, true, first)| && !Future(f, true, first)[i].Reconnects?
    requires Future(f, true, first)[i].Delivers? ==> Future(f, true, first)[i].delivery.Failure?
    ensures 0 < i == |Future(f, true, first)| - 1 && Future(f, true, first)[i - 1].Reconnects?
    decreases |f.attempts|, Size(f.body)
  {
    SomethingComes(f, true, first);
    FutureTurns(f, true, first);
    hide Turn, Future, Over, Size;
    var (now, next) := Turn(f, true, first);
    FutureSplits(f, true, first, i);
    if i < |now| {
      TurnAsks(f, true, first, i);
      NothingWithoutABody(next, true, first);
    } else {
      FailsOnceAndLast(next, first, i - |now|);
    }
  }

  // ---------- What is heard ----------

  /** The chunks of a body up to its first error. */
  function UpToBreak(body: seq<Piece>): seq<Bytes> {
    if body == [] || body[0].Broken? then [] else [body[0].bytes] + UpToBreak(body[1..])
  }

  /** All chunks of a body, whatever its errors. */
  function AllChunks(body: seq<Piece>): seq<Bytes> {
    if body == [] then [] else (if body[0].Chunk? then [body[0].bytes] else []) + AllChunks(body[1..])
  }

  /** Each body up to its first error, as long as attempts to connect succeed. */
  function OfAll(body: seq<Piece>, attempts: seq<Attempt>): seq<Bytes>
    decreases |attempts|
  {
    UpToBreak(body) + (if attempts != [] && attempts[0].Opened? then OfAll(attempts[0].body, attempts[1..]) else [])
  }

  lemma {:induction false} HeardReconnecting(f: Feed)
    requires f.body.Some?
    ensures Heard(f, true) == OfAll(f.body.value, f.attempts)
    decreases |f.attempts|, |f.body.value|
  {
    hide Turn, Heard;
    var body := f.body.value;
    var next := Turn(f, true, []).1;
    if HasChunk(body) {
      HeardChunk(f, true);
      HeardReconnecting(next);
      hide OfAll;
      OfAllChunk(body, f.attempts);
    } else {
      HeardLost(f);
      hide OfAll;
      OfAllLost(body, f.attempts);
      if next.body.Some? {
        HeardReconnecting(next);
      } else {
        HeardNothing(next, true);
      }
    }
  }

  lemma OfAllChunk(body: seq<Piece>, attempts: seq<Attempt>)
    requires HasChunk(body)
    ensures OfAll(body, attempts) == [body[0].bytes] + OfAll(body[1..], attempts)
  {
  }

  lemma OfAllLost(body: seq<Piece>, attempts: seq<Attempt>)
    requires !HasChunk(body)
    ensures NextBody(attempts).None? ==> OfAll(body, attempts) == []
    ensures NextBody(attempts).Some? ==> OfAll(body, attempts) == OfAll(NextBody(attempts).value, Later(attempts))
  {
    assert UpToBreak(body) == [];
    if NextBody(attempts).Some? {
      var rest := OfAll(attempts[0].body, attempts[1..]);
      assert [] + rest == rest;
    }
  }

  lemma {:induction false} HeardAlone(f: Feed)
    requires f.body.Some?
    ensures Heard(f, false) == AllChunks(f.body.value)
    decreases |f.body.value|
  {
    hide Turn, Heard;
    var body := f.body.value;
    if body == [] {
      HeardNothing(f, false);
    } else {
      var next := Turn(f, false, []).1;
      if HasChunk(body) {
        HeardChunk(f, false);
      } else {
        HeardBreak(f);
      }
      HeardAlone(next);
      assert [] + Heard(next, false) == Heard(next, false);
    }
  }

  /** A source that reconnects hears each body up to its first error, of all
      connections up to the first attempt that fails; one that does not hears all
      chunks of its only body. */
  lemma HeardIs(f: Feed, auto: bool)
    requires f.body.Some?
    ensures Heard(f, auto) == if auto then OfAll(f.body.value, f.attempts) else AllChunks(f.body.value)
  {
    hide Heard, OfAll, AllChunks;
    if auto {
      HeardReconnecting(f);
    } else {
      HeardAlone(f);
    }
  }

  lemma HeardNothing(f: Feed, auto: bool)
    requires Over(f, auto)
    ensures Heard(f, auto) == []
  {
  }

  lemma HeardChunk(f: Feed, auto: bool)
    requires f.body.Some? && HasChunk(f.body.value)
    ensures var next := Turn(f, auto, []).1;
            next.body == Some(f.body.value[1..]) && next.attempts == f.attempts
            && Heard(f, auto) == [f.body.value[0].bytes] + Heard(next, auto)
  {
    hide Push, LastRetry;
  }

  lemma HeardBreak(f: Feed)
    requires f.body.Some? && f.body.value != [] && f.body.value[0].Broken?
    ensures var next := Turn(f, false, []).1;
            next.body == Some(f.body.value[1..]) && next.attempts == f.attempts && Heard(f, false) == Heard(next, false)
  {
    assert [] + Heard(Turn(f, false, []).1, false) == Heard(Turn(f, false, []).1, false);
  }

  lemma HeardLost(f: Feed)
    requires f.body.Some? && !HasChunk(f.body.value)
    ensures var next := Turn(f, true, []).1;
            next.body == NextBody(f.attempts) && next.attempts == Later(f.attempts) && Heard(f, true) == Heard(next, true)
  {
    hide IdHeader;
    assert [] + Heard(Turn(f, true, []).1, true) == Heard(Turn(f, true, []).1, true);
  }

  // ---------- Which errors ----------

  /** How many attempts to connect there are among `happenings`. */
  function Asks(happenings: seq<Happening>): nat {
    if happenings == [] then 0 else (if happenings[0].Reconnects? then 1 else 0) + Asks(happenings[1..])
  }

  lemma {:induction false} AsksConcat(a: seq<Happening>, b: seq<Happening>)
    ensures Asks(a + b) == Asks(a) + Asks(b)
  {
    if a == [] {
      assert a + b == b;
    } else {
      AsksConcat(a[1..], b);
      assert (a + b)[1..] == a[1..] + b;
    }
  }

  lemma {:induction false} NoAsks(happenings: seq<Happening>)
    requires forall h :: h in happenings ==> !h.Reconnects?
    ensures Asks(happenings) == 0
  {
    if happenings != [] {
      assert happenings[0] in happenings && forall h :: h in happenings[1..] ==> h in happenings;
      NoAsks(happenings[1..]);
    }
  }

  /** What a turn of a source that reconnects asks, and what comes of it. */
  lemma TurnAttempts(f: Feed, first: seq<Bytes>)
    requires !Over(f, true)
    ensures var (now, next) := Turn(f, true, first);
            && (HasChunk(f.body.value) ==>
                  Asks(now) == 0 && next.attempts == f.attempts && forall h :: h in now ==> h.Delivers? && h.delivery.Event?)
            && (!HasChunk(f.body.value) ==>
                  && Asks(now) == 1 && next.attempts == Later(f.attempts) && now != [] && now[0].Reconnects?
                  && (f.attempts == [] ==> now[1..] == [Hangs] && next.body.None?)
                  && (f.attempts != [] && f.attempts[0].Refused? ==>
                        now[1..] == [Delivers(Failure(f.attempts[0].code))] && next.body.None?)
                  && (f.attempts != [] && f.attempts[0].Opened? ==> now[1..] == []))
  {
    if HasChunk(f.body.value) {
      var events := EventsOf(Push(f.parser, f.body.value[0].bytes).1);
      EventsInDelivered(events);
      assert Turn(f, true, first).0 == Delivered(events) by { hide Delivered, EventsOf, Push, LastRetry; }
      NoAsks(Delivered(events));
      hide Delivered, EventsOf, Push, LastRetry, Asks;
    } else {
      hide IdHeader;
      var ask := Turn(f, true, first).0[0];
      assert Turn(f, true, first).0 == [ask] + Reply(f.attempts);
      AsksConcat([ask], Reply(f.attempts));
    }
  }

  /** The error handed out by a source that reconnects is that of the attempt it has
      just made, the attempts being made in order; it hangs on the first one that is
      not answered. */
  lemma {:induction false} AttemptsInOrder(f: Feed, first: seq<Bytes>, i: nat)
    requires i < |Future(f, true, first)|
    ensures var k, h := Asks(Future(f, true, first)[..i]), Future(f, true, first)[i];
            && (h.Delivers? && h.delivery.Failure? ==>
                  0 < k <= |f.attempts| && f.attempts[k - 1] == Refused(h.delivery.code))
            && (h.Hangs? ==> k == |f.attempts| + 1)
    decreases |f.attempts|, Size(f.body)
  {
    SomethingComes(f, true, first);
    FutureSplits(f, true, first, i);
    FutureTurns(f, true, first);
    TurnAttempts(f, first);
    hide Turn, Future, Size, Over, Asks;
    var (now, next) := Turn(f, true, first);
    if i < |now| {
      assert Future(f, true, first)[..i] == now[..i];
      ThisAttempt(f, first, i);
    } else {
      if next.body.None? {
        NothingWithoutABody(next, true, first);
      }
      AttemptsInOrder(next, first, i - |now|);
      AsksConcat(now, Future(next, true, first)[..i - |now|]);
    }
  }

  lemma ThisAttempt(f: Feed, first: seq<Bytes>, i: nat)
    requires !Over(f, true) && i < |Turn(f, true, first).0|
    ensures var k, h := Asks(Turn(f, true, first).0[..i]), Turn(f, true, first).0[i];
            && (h.Delivers? && h.delivery.Failure? ==>
                  k == 1 <= |f.attempts| && f.attempts[0] == Refused(h.delivery.code))
            && (h.Hangs? ==> k == 1 && f.attempts == [])
  {
    TurnAttempts(f, first);
    var now := Turn(f, true, first).0;
    hide Turn, Over;
    if HasChunk(f.body.value) {
      assert now[i] in now;
    } else if i > 0 {
      assert now[1..][i - 1] == now[i] && now[..1] == [now[0]] && i == 1;
      assert [now[0]][1..] == [];
    }
  }

  function Codes(body: seq<Piece>): seq<nat> {
    if body == [] then [] else (if body[0].Broken? then [body[0].code] else []) + Codes(body[1..])
  }

  function CodeIn(h: Happening): seq<nat> {
    if h.Delivers? && h.delivery.Failure? then [h.delivery.code] else []
  }

  function CodesIn(happenings: seq<Happening>): seq<nat> {
    if happenings == [] then [] else CodeIn(happenings[0]) + CodesIn(happenings[1..])
  }

  lemma {:induction false} CodesConcat(a: seq<Happening>, b: seq<Happening>)
    ensures CodesIn(a + b) == CodesIn(a) + CodesIn(b)
  {
    hide CodeIn;
    if a == [] {
      assert a + b == b;
    } else {
      CodesConcat(a[1..], b);
      assert (a + b)[1..] == a[1..] + b;
      assert CodesIn(a + b) == CodeIn(a[0]) + CodesIn(a[1..] + b);
    }
  }

  lemma {:induction false} NoCodes(happenings: seq<Happening>)
    requires forall h :: h in happenings ==> h.Delivers? && h.delivery.Event?
    ensures CodesIn(happenings) == []
  {
    if happenings != [] {
      assert happenings[0] in happenings && forall h :: h in happenings[1..] ==> h in happenings;
      NoCodes(happenings[1..]);
    }
  }

  /** A source that does not reconnect hands out the errors of its body, in order. */
  lemma {:induction false} BodyErrorsInOrder(f: Feed, first: seq<Bytes>)
    requires f.body.Some?
    ensures CodesIn(Future(f, false, first)) == Codes(f.body.value)
    decreases |f.attempts|, Size(f.body)
  {
    if f.body.value != [] {
      var (now, next) := Turn(f, false, first);
      FutureTurns(f, false, first);
      if HasChunk(f.body.value) {
        var events := EventsOf(Push(f.parser, f.body.value[0].bytes).1);
        EventsInDelivered(events);
        assert now == Delivered(events) && next.body == Some(f.body.value[1..]) && next.attempts == f.attempts by {
          hide Delivered, EventsOf, Push, LastRetry;
        }
        NoCodes(now);
      } else {
        assert now[1..] == [];
      }
      hide Turn, Future, Delivered, EventsOf, Push, LastRetry;
      CodesConcat(now, Future(next, false, first));
      BodyErrorsInOrder(next, first);
    }
  }

  // ---------- Encoded events ----------

  lemma {:induction false} EventsOfOutputs(events: seq<Event>)
    ensures EventsOf(Outputs(events)) == events
  {
    if events != [] {
      EventsOfOutputs(events[1..]);
      assert Outputs(events)[1..] == Outputs(events[1..]);
    }
  }

  /** A fresh source that hears an encoding, however cut into chunks and however
      spread over connections, delivers exactly the encoded events. */
  lemma DeliversTheEncodedEvents(source: EventSource, events: seq<Event>)
    requires source.pending == [] && (forall e :: e in events ==> Encodable(e))
    requires source.parser.Value() == Parser([], [], [], None, None, source.parser.lastId)
    requires Concat(Heard(source.Value(), source.auto)) == EncodeAll(events)
    ensures EventsIn(source.Stream()) == events
  {
    source.NoQueue();
    hide Encodable, EncodeAll, PushAll, Future, Heard, EventsOf, EventsIn, Delivered;
    ConnectionsAreOneText(source.Value(), source.auto, source.first);
    RoundTrip(source.parser.Value(), events, Heard(source.Value(), source.auto));
    EventsOfOutputs(events);
  }
}
