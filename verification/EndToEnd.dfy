/** From the messages of the exchange to the files of the recorder. */
module EndToEnd {
  import opened Feeders
  import opened FeederRuns
  import opened Recorders

  /** Every session is a run of a new feeder. */
  ghost predicate SessionsCanRun(sessions: seq<seq<Event>>) {
    forall i :: 0 <= i < |sessions| ==> CanRun(FeederRuns.START, sessions[i])
  }

  function PoppedIn(sessions: seq<seq<Event>>): (r: seq<seq<Frame>>)
    ensures |r| == |sessions| && forall i :: 0 <= i < |r| ==> r[i] == Final(FeederRuns.START, sessions[i]).popped
  {
    seq(|sessions|, i requires 0 <= i < |sessions| => Final(FeederRuns.START, sessions[i]).popped)
  }

  /** The lines that reach a ticker's file, session by session: the ticker's market data in arrival order, but for the
      frames still queued when the session ended. */
  lemma {:induction false} SessionLines(events: seq<Event>, show: Frame -> string, ticker: string)
    requires CanRun(FeederRuns.START, events)
    ensures var w := Final(FeederRuns.START, events);
            LinesOf(ticker, show, w.popped) + LinesOf(ticker, show, w.feed.queue)
            == LinesOf(ticker, show, FramesOf(w.received))
  {
    NoFrameLost(events);
    var w := Final(FeederRuns.START, events);
    LinesOfConcat(ticker, show, w.popped, w.feed.queue);
  }

  /** The market data received over all sessions. */
  function ReceivedIn(sessions: seq<seq<Event>>): seq<Frame> {
    if sessions == [] then []
    else ReceivedIn(sessions[..|sessions|-1]) + FramesOf(Final(FeederRuns.START, sessions[|sessions|-1]).received)
  }

  /** If every session drains its queue, the recorded files are the received market data: for each ticker one header
      and then all its frames, from all sessions, in arrival order; and no file for a ticker that never had a frame. */
  lemma {:induction false} FilesAreTheMarketData(sessions: seq<seq<Event>>, date: string, show: Frame -> string,
      ticker: string)
    requires SessionsCanRun(sessions)
    requires forall i :: 0 <= i < |sessions| ==> Final(FeederRuns.START, sessions[i]).feed.queue == []
    ensures var files := RecordSessions(map[], date, show, PoppedIn(sessions));
            var name, lines := FileName(ticker, date), LinesOf(ticker, show, ReceivedIn(sessions));
            (name in files <==> lines != []) && (name in files ==> files[name] == [HEADER] + lines)
  {
    SessionsDemultiplex(date, show, PoppedIn(sessions), ticker);
    DrainedIsReceived(sessions);
  }

  lemma {:induction false} DrainedIsReceived(sessions: seq<seq<Event>>)
    requires SessionsCanRun(sessions)
    requires forall i :: 0 <= i < |sessions| ==> Final(FeederRuns.START, sessions[i]).feed.queue == []
    ensures Concat(PoppedIn(sessions)) == ReceivedIn(sessions)
  {
    if sessions != [] {
      var init, last := sessions[..|sessions|-1], sessions[|sessions|-1];
      assert PoppedIn(sessions)[..|sessions|-1] == PoppedIn(init);
      DrainedIsReceived(init);
      NoFrameLost(last);
      var w := Final(FeederRuns.START, last);
      assert w.feed.queue == [] && w.popped + [] == w.popped;
    }
  }
}
