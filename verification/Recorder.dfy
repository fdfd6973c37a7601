/** The recorder: one file per ticker and date, a header written once, and one counter per instrument. */
module Recorders {
  import opened Feeders

  const HEADER := "symbol;timestamp;bestBidPrice;bestBidQty;bestAskPrice;bestAskQty"

  function FileName(ticker: string, date: string): string {
    "data/" + ticker + "/" + date + "/book.csv"
  }

  /** The lines of every file, by name. */
  type Files = map<string, seq<string>>

  /** The file system, which outlives a session. */
  class Disk {
    var files: Files

    constructor ()
      ensures files == map[]
    {
      files := map[];
    }
  }

  // ----- Counters -----

  ghost function SumOver(m: map<string, nat>, keys: set<string>): nat
    requires keys <= m.Keys
  {
    if keys == {} then 0
    else
      var k :| k in keys;
      m[k] + SumOver(m, keys - {k})
  }

  /** The sum does not depend on the order in which the keys are visited. */
  lemma {:induction false} SumOverRemove(m: map<string, nat>, keys: set<string>, k: string)
    requires keys <= m.Keys && k in keys
    ensures SumOver(m, keys) == m[k] + SumOver(m, keys - {k})
  {
    var c :| c in keys && SumOver(m, keys) == m[c] + SumOver(m, keys - {c});
    if c != k {
      SumOverRemove(m, keys - {c}, k);
      SumOverRemove(m, keys - {k}, c);
      assert keys - {c} - {k} == keys - {k} - {c};
    }
  }

  lemma {:induction false} SumOverSame(m: map<string, nat>, n: map<string, nat>, keys: set<string>)
    requires keys <= m.Keys && keys <= n.Keys && forall k :: k in keys ==> m[k] == n[k]
    ensures SumOver(m, keys) == SumOver(n, keys)
  {
    if keys != {} {
      var k :| k in keys;
      SumOverRemove(m, keys, k);
      SumOverRemove(n, keys, k);
      SumOverSame(m, n, keys - {k});
    }
  }

  function CountOf(counters: map<string, nat>, instrument: string): nat {
    if instrument in counters then counters[instrument] else 0
  }

  function Increment(counters: map<string, nat>, instrument: string): map<string, nat> {
    counters[instrument := CountOf(counters, instrument) + 1]
  }

  lemma {:induction false} IncrementAddsOne(counters: map<string, nat>, instrument: string)
    ensures var next := Increment(counters, instrument);
            SumOver(next, next.Keys) == SumOver(counters, counters.Keys) + 1
  {
    var next := Increment(counters, instrument);
    SumOverRemove(next, next.Keys, instrument);
    var others := next.Keys - {instrument};
    SumOverSame(next, counters, others);
    if instrument in counters {
      SumOverRemove(counters, counters.Keys, instrument);
      assert counters.Keys - {instrument} == others;
    } else {
      assert counters.Keys == others;
    }
  }

  class RecorderMonitor {
    var updatesCounter: map<string, nat>
    var runTimeSeconds: int
    var timeUntilStopSeconds: int
    var subscribedInstruments: int

    constructor ()
      ensures updatesCounter == map[]
    {
      updatesCounter := map[];
      runTimeSeconds, timeUntilStopSeconds, subscribedInstruments := 0, 0, 0;
    }

    method UpdateMetrics(runTime: int, timeUntilStop: int, subscribed: int, instrument: string)
      modifies this
      ensures updatesCounter == Increment(old(updatesCounter), instrument)
      ensures runTimeSeconds == runTime && timeUntilStopSeconds == timeUntilStop && subscribedInstruments == subscribed
    {
      runTimeSeconds, timeUntilStopSeconds, subscribedInstruments := runTime, timeUntilStop, subscribed;
      if instrument !in updatesCounter {
        updatesCounter := updatesCounter[instrument := 0];
      }
      updatesCounter := updatesCounter[instrument := updatesCounter[instrument] + 1];
    }

    /** Adds up the counters, in whatever order the map lists them. */
    method GetUpdatesCount() returns (updatesCount: nat)
      ensures updatesCount == SumOver(updatesCounter, updatesCounter.Keys)
    {
      updatesCount := 0;
      var left := updatesCounter.Keys;
      while left != {}
        invariant left <= updatesCounter.Keys
        invariant updatesCount + SumOver(updatesCounter, left) == SumOver(updatesCounter, updatesCounter.Keys)
        decreases left
      {
        var k :| k in left;
        SumOverRemove(updatesCounter, left, k);
        updatesCount := updatesCount + updatesCounter[k];
        left := left - {k};
      }
    }
  }

  // ----- Files -----

  /** A line appended to a file that gets the header when it is created. */
  function Append(files: Files, name: string, line: string): Files {
    files[name := (if name in files then files[name] else [HEADER]) + [line]]
  }

  /** A session: each frame appended to the file of its ticker. */
  function RecordAll(files: Files, date: string, show: Frame -> string, frames: seq<Frame>): Files {
    if frames == [] then files
    else
      var last := frames[|frames|-1];
      Append(RecordAll(files, date, show, frames[..|frames|-1]), FileName(last.symbol, date), show(last))
  }

  function CountAll(counters: map<string, nat>, frames: seq<Frame>): map<string, nat> {
    if frames == [] then counters else Increment(CountAll(counters, frames[..|frames|-1]), frames[|frames|-1].symbol)
  }

  class BNBRecorder {
    const date: string
    const show: Frame -> string
    const disk: Disk
    const monitor: RecorderMonitor
    /** symbol_file_map_: the open stream of each ticker, as the name of its file. */
    var openFiles: map<string, string>

    /** An open stream is on the ticker's own file, which exists. */
    ghost predicate Valid()
      reads this, disk
    {
      forall t :: t in openFiles ==> openFiles[t] == FileName(t, date) && openFiles[t] in disk.files
    }

    /** A new session on an existing disk. */
    constructor (date: string, show: Frame -> string, disk: Disk)
      ensures Valid() && fresh(monitor) && monitor.updatesCounter == map[]
      ensures this.date == date && this.show == show && this.disk == disk
    {
      this.date, this.show, this.disk := date, show, disk;
      this.monitor := new RecorderMonitor();
      this.openFiles := map[];
    }

    method RecordData(ticker: string, data: string)
      requires Valid()
      modifies this, disk
      ensures Valid() && disk.files == Append(old(disk.files), FileName(ticker, date), data)
    {
      if ticker !in openFiles {
        OpenFileForSymbol(ticker);
      }
      var name := openFiles[ticker];
      disk.files := disk.files[name := disk.files[name] + [data]];
    }

    method OpenFileForSymbol(ticker: string)
      requires Valid()
      modifies this, disk
      ensures Valid() && ticker in openFiles
      ensures var name := FileName(ticker, date);
              disk.files == if name in old(disk.files) then old(disk.files) else old(disk.files)[name := [HEADER]]
    {
      var name := FileName(ticker, date);
      if name !in disk.files {
        disk.files := disk.files[name := [HEADER]];
      }
      openFiles := openFiles[ticker := name];
    }

    /** The loop of run over the frames popped before the session ends. */
    method Run(frames: seq<Frame>, subscribed: int, clock: nat -> int)
      requires Valid()
      modifies this, disk, monitor
      ensures Valid()
      ensures disk.files == RecordAll(old(disk.files), date, show, frames)
      ensures monitor.updatesCounter == CountAll(old(monitor.updatesCounter), frames)
    {
      for i := 0 to |frames|
        invariant Valid()
        invariant disk.files == RecordAll(old(disk.files), date, show, frames[..i])
        invariant monitor.updatesCounter == CountAll(old(monitor.updatesCounter), frames[..i])
      {
        assert frames[..i+1][..i] == frames[..i];
        monitor.UpdateMetrics(clock(2 * i), clock(2 * i + 1), subscribed, frames[i].symbol);
        RecordData(frames[i].symbol, show(frames[i]));
      }
      assert frames[..|frames|] == frames;
    }
  }

  // ----- What the files hold -----

  /** The lines of one ticker's frames, in order. */
  function LinesOf(ticker: string, show: Frame -> string, frames: seq<Frame>): seq<string> {
    if frames == [] then []
    else
      var last := frames[|frames|-1];
      LinesOf(ticker, show, frames[..|frames|-1]) + (if last.symbol == ticker then [show(last)] else [])
  }

  /** For one date, different tickers are recorded in different files. */
  lemma FileNameInjective(t: string, u: string, date: string)
    requires FileName(t, date) == FileName(u, date)
    ensures t == u
  {
    var f := FileName(t, date);
    assert |f| == 5 + |t| + 1 + |date| + 9 == 5 + |u| + 1 + |date| + 9;
    assert f[5..5 + |t|] == t;
    assert f[5..5 + |u|] == u;
  }

  /** Tickers without a slash are recorded in different files for different tickers or dates. */
  lemma {:induction false} FileNameDetermines(t: string, u: string, date: string, other: string)
    requires '/' !in t && '/' !in u && FileName(t, date) == FileName(u, other)
    ensures t == u && date == other
  {
    var f := FileName(t, date);
    assert f[5..5 + |t|] == t && f[5 + |t|] == '/';
    assert f[5..5 + |u|] == u && f[5 + |u|] == '/';
    assert |f| == 5 + |t| + 1 + |date| + 9 == 5 + |u| + 1 + |other| + 9;
    assert f[6 + |t|..6 + |t| + |date|] == date;
    assert f[6 + |u|..6 + |u| + |other|] == other;
  }

  /** What a ticker's file holds before its first line of a session. */
  function Before(files: Files, name: string): seq<string> {
    if name in files then files[name] else [HEADER]
  }

  /** A session appends to each ticker's file exactly that ticker's frames, in order, and creates it, with one header,
      only if there are any; no other file changes. */
  lemma {:induction false} SessionDemultiplexes(files: Files, date: string, show: Frame -> string, frames: seq<Frame>,
      ticker: string)
    ensures var after, name := RecordAll(files, date, show, frames), FileName(ticker, date);
            && (name in after <==> name in files || LinesOf(ticker, show, frames) != [])
            && (name in after ==> after[name] == Before(files, name) + LinesOf(ticker, show, frames))
  {
    if frames != [] {
      var init, last := frames[..|frames|-1], frames[|frames|-1];
      SessionDemultiplexes(files, date, show, init, ticker);
      if FileName(last.symbol, date) == FileName(ticker, date) {
        FileNameInjective(last.symbol, ticker, date);
      }
    }
  }

  /** A file that is not one of the recorded tickers' is neither created nor changed. */
  lemma {:induction false} SessionTouchesOnlyTickers(files: Files, date: string, show: Frame -> string,
      frames: seq<Frame>, name: string)
    requires forall k :: 0 <= k < |frames| ==> name != FileName(frames[k].symbol, date)
    ensures var after := RecordAll(files, date, show, frames);
            (name in after <==> name in files) && (name in after ==> after[name] == files[name])
  {
    if frames != [] {
      var init := frames[..|frames|-1];
      forall k | 0 <= k < |init| ensures name != FileName(init[k].symbol, date) {
        assert init[k] == frames[k];
      }
      SessionTouchesOnlyTickers(files, date, show, init, name);
      assert name != FileName(frames[|frames|-1].symbol, date);
    }
  }

  /** A session for one date leaves the files of every other date alone. */
  lemma {:induction false} OtherDatesUntouched(files: Files, date: string, other: string, show: Frame -> string,
      frames: seq<Frame>, ticker: string)
    requires date != other && '/' !in ticker && forall k :: 0 <= k < |frames| ==> '/' !in frames[k].symbol
    ensures var after, name := RecordAll(files, date, show, frames), FileName(ticker, other);
            (name in after <==> name in files) && (name in after ==> after[name] == files[name])
  {
    forall k | 0 <= k < |frames| ensures FileName(ticker, other) != FileName(frames[k].symbol, date) {
      if FileName(ticker, other) == FileName(frames[k].symbol, date) {
        FileNameDetermines(ticker, frames[k].symbol, other, date);
        assert false;
      }
    }
    SessionTouchesOnlyTickers(files, date, show, frames, FileName(ticker, other));
  }

  function RecordSessions(files: Files, date: string, show: Frame -> string, sessions: seq<seq<Frame>>): Files {
    if sessions == [] then files
    else RecordAll(RecordSessions(files, date, show, sessions[..|sessions|-1]), date, show, sessions[|sessions|-1])
  }

  function Concat(sessions: seq<seq<Frame>>): seq<Frame> {
    if sessions == [] then [] else Concat(sessions[..|sessions|-1]) + sessions[|sessions|-1]
  }

  lemma {:induction false} LinesOfConcat(ticker: string, show: Frame -> string, a: seq<Frame>, b: seq<Frame>)
    ensures LinesOf(ticker, show, a + b) == LinesOf(ticker, show, a) + LinesOf(ticker, show, b)
  {
    if b == [] {
      assert a + b == a;
    } else {
      LinesOfConcat(ticker, show, a, b[..|b|-1]);
      assert (a + b)[..|a + b|-1] == a + b[..|b|-1];
    }
  }

  /** Over any number of sessions for one date, starting with no files: each file is one header followed by exactly its
      ticker's frames in order; a ticker without frames has no file. */
  lemma {:induction false} SessionsDemultiplex(date: string, show: Frame -> string, sessions: seq<seq<Frame>>,
      ticker: string)
    ensures var after, name := RecordSessions(map[], date, show, sessions), FileName(ticker, date);
            var lines := LinesOf(ticker, show, Concat(sessions));
            && (name in after <==> lines != [])
            && (name in after ==>
                  after[name] == ["symbol;timestamp;bestBidPrice;bestBidQty;bestAskPrice;bestAskQty"] + lines)
  {
    if sessions != [] {
      var init, last := sessions[..|sessions|-1], sessions[|sessions|-1];
      SessionsDemultiplex(date, show, init, ticker);
      SessionDemultiplexes(RecordSessions(map[], date, show, init), date, show, last, ticker);
      LinesOfConcat(ticker, show, Concat(init), last);
    }
  }

  ghost function LineCounts(files: Files): map<string, nat> {
    map n | n in files :: |files[n]|
  }

  /** The lines of all files, less one header for each file. */
  ghost function DataLines(files: Files): int {
    SumOver(LineCounts(files), files.Keys) - |files|
  }

  lemma {:induction false} AppendAddsOne(files: Files, name: string, line: string)
    ensures DataLines(Append(files, name, line)) == DataLines(files) + 1
  {
    var after := Append(files, name, line);
    var counts, others := LineCounts(after), after.Keys - {name};
    SumOverRemove(counts, after.Keys, name);
    SumOverSame(counts, LineCounts(files), others);
    if name in files {
      SumOverRemove(LineCounts(files), files.Keys, name);
      assert after.Keys == files.Keys && files.Keys - {name} == others;
    } else {
      assert after.Keys == files.Keys + {name} && others == files.Keys;
    }
  }

  lemma {:induction false} SessionAddsLines(files: Files, date: string, show: Frame -> string, frames: seq<Frame>)
    ensures DataLines(RecordAll(files, date, show, frames)) == DataLines(files) + |frames|
  {
    if frames != [] {
      var init, last := frames[..|frames|-1], frames[|frames|-1];
      SessionAddsLines(files, date, show, init);
      AppendAddsOne(RecordAll(files, date, show, init), FileName(last.symbol, date), show(last));
    }
  }

  lemma {:induction false} CountersSum(frames: seq<Frame>, show: Frame -> string, ticker: string)
    ensures var counters := CountAll(map[], frames);
            && CountOf(counters, ticker) == |LinesOf(ticker, show, frames)|
            && SumOver(counters, counters.Keys) == |frames|
  {
    if frames != [] {
      var init := frames[..|frames|-1];
      CountersSum(init, show, ticker);
      IncrementAddsOne(CountAll(map[], init), frames[|frames|-1].symbol);
    }
  }

  /** In a session that starts with fresh counters, on any files, each counter is the number of lines by which the
      ticker's file has grown beyond its header, and the sum of the counters is the number of data lines added over
      all files. */
  lemma {:induction false} CountersAreLines(files: Files, date: string, show: Frame -> string, frames: seq<Frame>,
      ticker: string)
    ensures var after, name := RecordAll(files, date, show, frames), FileName(ticker, date);
            var counters := CountAll(map[], frames);
            && CountOf(counters, ticker) == |LinesOf(ticker, show, frames)|
               == |Before(after, name)| - |Before(files, name)|
            && SumOver(counters, counters.Keys) == |frames| == DataLines(after) - DataLines(files)
  {
    CountersSum(frames, show, ticker);
    SessionAddsLines(files, date, show, frames);
    SessionDemultiplexes(files, date, show, frames, ticker);
  }
}
