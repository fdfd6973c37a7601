/** All interleavings of subscriptions, received messages, consumption, stops and reconnections. */
module FeederRuns {
  import opened Wrappers
  import opened Chunking
  import opened Feeders

  /** The feeder, the ids written but not yet inserted, and what has happened: the ids answered without error, those
      of them answered while in flight, those retired, the ids answered with an error, the messages received and the
      frames popped. */
  datatype World = World(feed: Feed, inFlight: set<int>, replied: set<int>, missed: set<int>, retired: set<int>,
                         rejected: set<int>, received: seq<FeedMessage>, popped: seq<Frame>)

  const START := World(Feed({}, 1, [], [], false, []), {}, {}, {}, {}, {}, [], [])

  /** The socket write and the insertion of the id are two steps; Send is both at once. */
  datatype Event =
    | WriteRequest(params: seq<string>)
    | InsertPending(id: int)
    | Send(chunk: seq<string>)
    | Receive(m: FeedMessage)
    | GetUpdate
    | SetRunning(on: bool)
    | Remember(symbols: seq<string>)

  /** A message that confirms a request. */
  predicate Confirms(m: FeedMessage) {
    m.Parsed? && !m.isError && m.id.Some?
  }

  /** An error reply to a request. */
  predicate Rejects(m: FeedMessage) {
    m.Parsed? && m.isError && m.id.Some?
  }

  function SentIds(w: World): set<int> {
    set k | 0 <= k < |w.feed.wire| :: w.feed.wire[k].id
  }

  /** The exchange confirms only written requests, each at most once, and confirmations carry no market data;
      getUpdate returns only when there is a frame or the feeder has stopped. */
  ghost predicate Enabled(w: World, e: Event) {
    match e
    case InsertPending(id) => id in w.inFlight
    case Receive(m) =>
      && (m.Parsed? && m.id.Some? ==> m.frame.None?)
      && (Confirms(m) ==> m.id.value in SentIds(w) && m.id.value !in w.replied)
    case GetUpdate => w.feed.queue != [] || !w.feed.running
    case _ => true
  }

  function Write(f: Feed, params: seq<string>): Feed {
    f.(nextId := f.nextId + 1, wire := f.wire + [Request("SUBSCRIBE", params, f.nextId)])
  }

  function Apply(w: World, e: Event): World {
    match e
    case WriteRequest(params) => w.(feed := Write(w.feed, params), inFlight := w.inFlight + {w.feed.nextId})
    case InsertPending(id) => w.(feed := w.feed.(pending := w.feed.pending + {id}), inFlight := w.inFlight - {id})
    case Send(chunk) => w.(feed := Write(w.feed, chunk).(pending := w.feed.pending + {w.feed.nextId}))
    case Receive(m) =>
      w.(feed := Received(w.feed, m), received := w.received + [m],
         replied := if Confirms(m) then w.replied + {m.id.value} else w.replied,
         retired := if Confirms(m) && m.id.value in w.feed.pending then w.retired + {m.id.value} else w.retired,
         rejected := if Rejects(m) then w.rejected + {m.id.value} else w.rejected,
         missed := if Confirms(m) && m.id.value !in w.feed.pending then w.missed + {m.id.value} else w.missed)
    case GetUpdate =>
      if w.feed.queue == [] then w
      else w.(feed := w.feed.(queue := w.feed.queue[1..]), popped := w.popped + [w.feed.queue[0]])
    case SetRunning(on) => w.(feed := w.feed.(running := on))
    case Remember(symbols) => w.(feed := w.feed.(subscriptions := symbols))
  }

  function Final(w: World, events: seq<Event>): World {
    if events == [] then w else Apply(Final(w, events[..|events|-1]), events[|events|-1])
  }

  ghost predicate CanRun(w: World, events: seq<Event>) {
    events != [] ==> CanRun(w, events[..|events|-1]) && Enabled(Final(w, events[..|events|-1]), events[|events|-1])
  }

  /** The market data among the received messages, in arrival order. */
  function FramesOf(received: seq<FeedMessage>): seq<Frame> {
    if received == [] then []
    else
      var m := received[|received|-1];
      FramesOf(received[..|received|-1]) + (if m.Parsed? && !m.isError && m.frame.Some? then [m.frame.value] else [])
  }

  /** Ids are numbered from 1 in sending order. */
  ghost predicate Numbered(f: Feed) {
    f.nextId == |f.wire| + 1 && forall k :: 0 <= k < |f.wire| ==> f.wire[k].id == k + 1
  }

  ghost predicate IsId(f: Feed, id: int) {
    1 <= id <= |f.wire|
  }

  /** Every id is in flight, pending or retired, and in only one of these; the confirmed ones are retired unless they
      were confirmed in flight; no frame is lost, duplicated or reordered. */
  ghost predicate Invariant(w: World) {
    && Numbered(w.feed)
    && (forall id :: id in w.inFlight || id in w.feed.pending || id in w.retired <==> IsId(w.feed, id))
    && w.inFlight !! w.feed.pending !! w.retired
    && w.replied == w.retired + w.missed && w.retired !! w.missed
    && (forall id :: id in w.missed ==> IsId(w.feed, id))
    && w.popped + w.feed.queue == FramesOf(w.received)
  }

  lemma SentIdsAre(w: World, id: int)
    requires Numbered(w.feed)
    ensures id in SentIds(w) <==> IsId(w.feed, id)
  {
    if IsId(w.feed, id) {
      assert w.feed.wire[id-1].id == id;
    }
  }

  lemma {:induction false} ReceiveKeepsInvariant(w: World, m: FeedMessage)
    requires Invariant(w) && Enabled(w, Receive(m))
    ensures Invariant(Apply(w, Receive(m)))
  {}

  lemma {:induction false} StepKeepsInvariant(w: World, e: Event)
    requires Invariant(w) && Enabled(w, e)
    ensures Invariant(Apply(w, e))
  {
    match e
    case Receive(m) => ReceiveKeepsInvariant(w, m);
    case GetUpdate =>
      if w.feed.queue != [] {
        assert w.popped + [w.feed.queue[0]] + w.feed.queue[1..] == w.popped + w.feed.queue;
      }
    case _ =>
  }

  lemma {:induction false} EveryRunKeepsInvariant(events: seq<Event>)
    requires CanRun(START, events)
    ensures Invariant(Final(START, events))
  {
    if events != [] {
      EveryRunKeepsInvariant(events[..|events|-1]);
      StepKeepsInvariant(Final(START, events[..|events|-1]), events[|events|-1]);
    }
  }

  /** Over every run, whatever the subscriptions and reconnections: no id is used twice, and ids grow by one. */
  lemma {:induction false} IdsAreUnique(events: seq<Event>)
    requires CanRun(START, events)
    ensures var wire := Final(START, events).feed.wire;
            forall j, k :: 0 <= j < k < |wire| ==> wire[k].id - wire[j].id == k - j
  {
    EveryRunKeepsInvariant(events);
  }

  /** Over every run: the frames popped, followed by those queued, are the market data received, in order. */
  lemma {:induction false} NoFrameLost(events: seq<Event>)
    requires CanRun(START, events)
    ensures var w := Final(START, events); w.popped + w.feed.queue == FramesOf(w.received)
  {
    EveryRunKeepsInvariant(events);
  }

  /** Over every run: pending is what was sent, inserted and not confirmed, plus what was confirmed between its write
      and its insertion. It is exactly sent minus confirmed if and only if none of the inserted ids was confirmed
      before. */
  lemma {:induction false} PendingIsUnconfirmedIff(events: seq<Event>)
    requires CanRun(START, events)
    ensures var w := Final(START, events);
            && w.feed.pending == (SentIds(w) - w.inFlight - w.replied) + (w.missed - w.inFlight)
            && (w.feed.pending == SentIds(w) - w.inFlight - w.replied <==> w.missed <= w.inFlight)
  {
    EveryRunKeepsInvariant(events);
    var w := Final(START, events);
    PendingIs(w);
    SplitByMissed(w.feed.pending, SentIds(w) - w.inFlight - w.replied, w.missed, w.inFlight);
  }

  lemma {:induction false} PendingIs(w: World)
    requires Invariant(w)
    ensures w.feed.pending == (SentIds(w) - w.inFlight - w.replied) + (w.missed - w.inFlight)
    ensures w.missed <= w.replied
  {
    forall id ensures id in SentIds(w) <==> IsId(w.feed, id) {
      SentIdsAre(w, id);
    }
    forall id ensures id in w.feed.pending <==> id in (SentIds(w) - w.inFlight - w.replied) + (w.missed - w.inFlight) {
      if id in w.missed {
        assert IsId(w.feed, id) && id in w.replied && id !in w.retired;
      }
    }
  }

  lemma SplitByMissed(pending: set<int>, rest: set<int>, missed: set<int>, inFlight: set<int>)
    requires rest !! missed && pending == rest + (missed - inFlight)
    ensures pending == rest <==> missed <= inFlight
  {
    if id :| id in missed && id !in inFlight {
      assert id in pending && id !in rest;
    }
  }

  /** An error reply does not retire its id: pending is sent minus answered, errors included, if and only if moreover
      every rejected id that was sent is still in flight or has been confirmed. */
  lemma {:induction false} PendingIsUnansweredIff(events: seq<Event>)
    requires CanRun(START, events)
    ensures var w := Final(START, events);
            w.feed.pending == SentIds(w) - w.inFlight - w.replied - w.rejected
            <==> w.missed <= w.inFlight && w.rejected * SentIds(w) <= w.inFlight + w.replied
  {
    EveryRunKeepsInvariant(events);
    var w := Final(START, events);
    PendingIs(w);
    var sent := SentIds(w);
    if w.feed.pending == sent - w.inFlight - w.replied - w.rejected {
      forall id | id in w.missed ensures id in w.inFlight {
        assert id !in w.inFlight ==> id in w.feed.pending && id in w.replied;
      }
      forall id | id in w.rejected * sent ensures id in w.inFlight + w.replied {
        assert id !in w.inFlight + w.replied ==> id in w.feed.pending;
      }
    }
    if w.missed <= w.inFlight && w.rejected * sent <= w.inFlight + w.replied {
      forall id | id in sent - w.inFlight - w.replied ensures id !in w.rejected {
        assert id in w.rejected ==> id in w.rejected * sent;
      }
      assert w.missed - w.inFlight == {};
    }
  }

  /** An id stays pending through every continuation in which nothing confirms it. */
  lemma {:induction false} StaysPending(before: seq<Event>, after: seq<Event>, id: int)
    requires id in Final(START, before).feed.pending
    requires forall k :: 0 <= k < |after| && after[k].Receive? && Confirms(after[k].m) ==> after[k].m.id.value != id
    ensures id in Final(START, before + after).feed.pending
  {
    if after == [] {
      assert before + after == before;
    } else {
      var init := after[..|after|-1];
      assert (before + after)[..|before + after|-1] == before + init;
      StaysPending(before, init, id);
      assert after[|after|-1].Receive? && Confirms(after[|after|-1].m) ==> after[|after|-1].m.id.value != id;
    }
  }

  /** Runs that write and insert in one step. */
  predicate OneStepSends(events: seq<Event>) {
    forall k :: 0 <= k < |events| ==> !events[k].WriteRequest?
  }

  lemma {:induction false} OneStepSendsMissNothing(events: seq<Event>)
    requires CanRun(START, events) && OneStepSends(events)
    ensures var w := Final(START, events); w.inFlight == {} && w.missed == {}
  {
    if events != [] {
      var init, e := events[..|events|-1], events[|events|-1];
      OneStepSendsMissNothing(init);
      EveryRunKeepsInvariant(init);
      var w := Final(START, init);
      if e.Receive? && Confirms(e.m) {
        SentIdsAre(w, e.m.id.value);
      }
    }
  }

  /** Then pending is exactly sent minus confirmed, across any number of reconnections. */
  lemma {:induction false} PendingIsSentMinusConfirmed(events: seq<Event>)
    requires CanRun(START, events) && OneStepSends(events)
    ensures var w := Final(START, events); w.feed.pending == SentIds(w) - w.replied
  {
    OneStepSendsMissNothing(events);
    PendingIsUnconfirmedIff(events);
  }

  lemma OneMore(w: World, events: seq<Event>, e: Event)
    ensures Final(w, events + [e]) == Apply(Final(w, events), e)
    ensures CanRun(w, events + [e]) <==> CanRun(w, events) && Enabled(Final(w, events), e)
  {}

  /** The three steps that leave a confirmed request pending. */
  lemma ConfirmationMissed() returns (events: seq<Event>)
    ensures CanRun(START, events)
    ensures var w := Final(START, events);
            w.feed.pending == {1} && w.replied == {1} && SentIds(w) == {1} && w.inFlight == {}
  {
    var e0, e1, e2 := WriteRequest(["btcusdt@bookTicker"]), Receive(Parsed(false, Some(1), None)), InsertPending(1);
    OneMore(START, [], e0);
    var w0 := Final(START, [e0]);
    assert [] + [e0] == [e0] && [e0] + [e1] == [e0, e1] && [e0, e1] + [e2] == [e0, e1, e2];
    assert w0.feed.wire[0].id == 1;
    OneMore(START, [e0], e1);
    OneMore(START, [e0, e1], e2);
    events := [e0, e1, e2];
  }

  /** The two steps that leave a rejected request pending. */
  lemma RejectedStaysPending() returns (events: seq<Event>)
    ensures CanRun(START, events) && OneStepSends(events)
    ensures var w := Final(START, events);
            && w.feed.pending == {1} && w.rejected == {1} && SentIds(w) == {1}
            && w.inFlight == {} && w.missed == {} && w.replied == {}
  {
    var e0, e1 := Send(["btcusdt@bookTicker"]), Receive(Parsed(true, Some(1), None));
    OneMore(START, [], e0);
    assert [] + [e0] == [e0] && [e0] + [e1] == [e0, e1];
    assert Final(START, [e0]).feed.wire[0].id == 1;
    OneMore(START, [e0], e1);
    events := [e0, e1];
  }

  /** A subscription is the run of its one-step sends: the method and the step system agree. */
  function SubscribeEvents(symbols: seq<string>, streams: seq<string>, chunkSize: nat, n: nat): (r: seq<Event>)
    ensures |r| == n + 1
  {
    if n == 0 then [Remember(symbols)]
    else SubscribeEvents(symbols, streams, chunkSize, n - 1) + [Send(ChunkAt(streams, chunkSize, n - 1))]
  }

  /** The feeder after the first n requests of a subscription. */
  function SentSoFar(f: Feed, symbols: seq<string>, streams: seq<string>, chunkSize: nat, n: nat): Feed {
    f.(subscriptions := symbols, nextId := f.nextId + n, pending := f.pending + IdRange(f.nextId, n),
       wire := f.wire + Requests("SUBSCRIBE", streams, chunkSize, f.nextId, n))
  }

  lemma NothingSent(w: World, symbols: seq<string>, streams: seq<string>, chunkSize: nat)
    ensures Apply(w, Remember(symbols)) == w.(feed := SentSoFar(w.feed, symbols, streams, chunkSize, 0))
  {}

  lemma OneSent(w: World, symbols: seq<string>, streams: seq<string>, chunkSize: nat, n: nat)
    ensures Apply(w.(feed := SentSoFar(w.feed, symbols, streams, chunkSize, n)), Send(ChunkAt(streams, chunkSize, n)))
            == w.(feed := SentSoFar(w.feed, symbols, streams, chunkSize, n + 1))
  {}

  lemma {:induction false} SubscribeEventsRun(w: World, symbols: seq<string>, streams: seq<string>, chunkSize: nat,
      n: nat)
    ensures CanRun(w, SubscribeEvents(symbols, streams, chunkSize, n))
            && OneStepSends(SubscribeEvents(symbols, streams, chunkSize, n))
    ensures Final(w, SubscribeEvents(symbols, streams, chunkSize, n))
            == w.(feed := SentSoFar(w.feed, symbols, streams, chunkSize, n))
  {
    hide SentSoFar, Apply, ChunkAt;
    if n == 0 {
      NothingSent(w, symbols, streams, chunkSize);
      OneMore(w, [], Remember(symbols));
      assert [] + [Remember(symbols)] == [Remember(symbols)];
    } else {
      SubscribeEventsRun(w, symbols, streams, chunkSize, n - 1);
      OneMore(w, SubscribeEvents(symbols, streams, chunkSize, n - 1), Send(ChunkAt(streams, chunkSize, n - 1)));
      OneSent(w, symbols, streams, chunkSize, n - 1);
    }
  }

  lemma SubscriptionIsRun(w: World, symbols: seq<string>, streamName: string, max: nat)
    requires Subscribable(symbols, max)
    ensures var streams := StreamList(symbols, streamName, max);
            var events := SubscribeEvents(symbols, streams, max / 4, SentCount(streams, max / 4));
            && CanRun(w, events) && OneStepSends(events)
            && Final(w, events) == w.(feed := Subscribed(w.feed, symbols, streamName, max))
  {
    var streams := StreamList(symbols, streamName, max);
    SubscribeEventsRun(w, symbols, streams, max / 4, SentCount(streams, max / 4));
  }

  /** The same subscription with each write and its insertion as two steps, as in the loop. */
  function SplitEvents(symbols: seq<string>, streams: seq<string>, chunkSize: nat, first: int, n: nat): (r: seq<Event>)
    ensures |r| == 2 * n + 1
  {
    if n == 0 then [Remember(symbols)]
    else
      SplitEvents(symbols, streams, chunkSize, first, n - 1)
      + [WriteRequest(ChunkAt(streams, chunkSize, n - 1)), InsertPending(first + n - 1)]
  }

  lemma OneSplit(w: World, symbols: seq<string>, streams: seq<string>, chunkSize: nat, n: nat)
    requires w.feed.nextId + n !in w.inFlight
    ensures var now := w.(feed := SentSoFar(w.feed, symbols, streams, chunkSize, n));
            var write, insert := WriteRequest(ChunkAt(streams, chunkSize, n)), InsertPending(w.feed.nextId + n);
            && Enabled(now, write) && Enabled(Apply(now, write), insert)
            && Apply(Apply(now, write), insert) == w.(feed := SentSoFar(w.feed, symbols, streams, chunkSize, n + 1))
  {
    assert w.inFlight + {w.feed.nextId + n} - {w.feed.nextId + n} == w.inFlight;
  }

  lemma {:induction false} SplitEventsRun(w: World, symbols: seq<string>, streams: seq<string>, chunkSize: nat, n: nat)
    requires forall id :: id in w.inFlight ==> id < w.feed.nextId
    ensures CanRun(w, SplitEvents(symbols, streams, chunkSize, w.feed.nextId, n))
    ensures Final(w, SplitEvents(symbols, streams, chunkSize, w.feed.nextId, n))
            == w.(feed := SentSoFar(w.feed, symbols, streams, chunkSize, n))
  {
    hide SentSoFar, Apply, ChunkAt;
    if n == 0 {
      NothingSent(w, symbols, streams, chunkSize);
      OneMore(w, [], Remember(symbols));
      assert [] + [Remember(symbols)] == [Remember(symbols)];
    } else {
      var init := SplitEvents(symbols, streams, chunkSize, w.feed.nextId, n - 1);
      var write, insert := WriteRequest(ChunkAt(streams, chunkSize, n - 1)), InsertPending(w.feed.nextId + n - 1);
      SplitEventsRun(w, symbols, streams, chunkSize, n - 1);
      OneSplit(w, symbols, streams, chunkSize, n - 1);
      OneMore(w, init, write);
      OneMore(w, init + [write], insert);
      assert init + [write] + [insert] == init + [write, insert];
    }
  }

  /** From every reachable state a subscription is also the run of its writes and insertions, which is one of the
      interleavings. */
  lemma {:induction false} SubscriptionIsSplitRun(before: seq<Event>, symbols: seq<string>, streamName: string,
      max: nat)
    requires CanRun(START, before) && Subscribable(symbols, max)
    ensures var w, streams := Final(START, before), StreamList(symbols, streamName, max);
            var events := SplitEvents(symbols, streams, max / 4, w.feed.nextId, SentCount(streams, max / 4));
            CanRun(w, events) && Final(w, events) == w.(feed := Subscribed(w.feed, symbols, streamName, max))
  {
    EveryRunKeepsInvariant(before);
    var w, streams := Final(START, before), StreamList(symbols, streamName, max);
    forall id | id in w.inFlight ensures id < w.feed.nextId {
      assert IsId(w.feed, id);
    }
    SplitEventsRun(w, symbols, streams, max / 4, SentCount(streams, max / 4));
  }
}
