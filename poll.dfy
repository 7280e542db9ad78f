/** `loop`: one poll of the component — the sequencer, then the timeout,
    then every byte the UART has buffered — and the facts that span polls. */
module Poll {
  import opened Ascii
  import opened RadarState
  import opened Decoder
  import opened ConfigTx
  import opened Presence

  /** What one poll sees: the clock, and the bytes waiting on the UART. */
  datatype Tick = Tick(now: uint32, input: seq<byte>)

  /** `loop` at time `now` with `input` buffered. */
  function Loop(s: State, now: uint32, input: seq<byte>): (r: Step)
    requires Inv(s)
    ensures Inv(r.state) && r.state.settings == s.settings
    ensures r.state.tx.configStrings == s.tx.configStrings
    ensures r.state.tx.maxConfigPosition == s.tx.maxConfigPosition
    ensures s.tx.configPosition <= r.state.tx.configPosition
    ensures s.tx.allConfigsAreSent ==> r.state.tx.allConfigsAreSent
    ensures r.state.tx.logVersion ==> s.tx.logVersion
    ensures r.state.tx.logGetAll ==> s.tx.logGetAll
    // the writes of a poll are the sequencer's, and come first
    ensures Writes(r.events) == Writes(ManageConfigTx(s.tx, now).events)
    ensures r.events[..|ManageConfigTx(s.tx, now).events|] == ManageConfigTx(s.tx, now).events
  {
    var m := ManageConfigTx(s.tx, now);
    var s1 := s.(tx := m.tx);
    var f := FeedAll(s1, input, now);
    NoWrites(MotionTimeout(s1, now));
    NoWrites(f.events);
    WritesAppend(m.events, MotionTimeout(s1, now));
    WritesAppend(m.events + MotionTimeout(s1, now), f.events);
    Step(f.state, m.events + MotionTimeout(s1, now) + f.events)
  }

  /** A sequence of polls, oldest first. */
  function Run(s: State, ticks: seq<Tick>): (r: Step)
    requires Inv(s)
    ensures Inv(r.state) && r.state.settings == s.settings
    ensures r.state.tx.configStrings == s.tx.configStrings
    ensures r.state.tx.maxConfigPosition == s.tx.maxConfigPosition
    ensures s.tx.configPosition <= r.state.tx.configPosition
    decreases |ticks|
  {
    if ticks == [] then Step(s, [])
    else
      var l := Loop(s, ticks[0].now, ticks[0].input);
      var r := Run(l.state, ticks[1..]);
      Step(r.state, l.events + r.events)
  }

  /** One poll writes the rows between its cursor positions, and uses up
      each diagnostic flag by writing its command once. */
  lemma LoopWrites(s: State, now: uint32, input: seq<byte>)
    requires Inv(s)
    ensures var r := Loop(s, now, input);
      && RowWrites(r.events) == s.tx.configStrings[s.tx.configPosition..r.state.tx.configPosition]
      && WriteCount(r.events, VersionCommand) + (if r.state.tx.logVersion then 1 else 0)
           == (if s.tx.logVersion then 1 else 0)
      && WriteCount(r.events, GetAllCommand) + (if r.state.tx.logGetAll then 1 else 0)
           == (if s.tx.logGetAll then 1 else 0)
  {
    var m := ManageConfigTx(s.tx, now);
    var s1 := s.(tx := m.tx);
    var f := FeedAll(s1, input, now);
    ManageConfigTxWrites(s.tx, now);
    NoWrites(MotionTimeout(s1, now));
    NoWrites(f.events);
    WritesAppend(m.events, MotionTimeout(s1, now));
    WritesAppend(m.events + MotionTimeout(s1, now), f.events);
  }

  lemma RowWritesJoin(x: seq<Event>, y: seq<Event>, rows: seq<string>, p0: int, p1: int, p2: int)
    requires 0 <= p0 <= p1 <= p2 <= |rows|
    requires RowWrites(x) == rows[p0..p1] && RowWrites(y) == rows[p1..p2]
    ensures RowWrites(x + y) == rows[p0..p2]
  {
    WritesAppend(x, y);
    SliceJoin(rows, p0, p1, p2);
  }

  lemma SliceJoin(rows: seq<string>, p0: int, p1: int, p2: int)
    requires 0 <= p0 <= p1 <= p2 <= |rows|
    ensures rows[p0..p1] + rows[p1..p2] == rows[p0..p2]
  {
  }

  /** Over any run, the rows go out in table order, each exactly once, and
      exactly those the cursor passed over. */
  lemma {:induction false} RunRowWrites(s: State, ticks: seq<Tick>)
    requires Inv(s)
    ensures var r := Run(s, ticks);
      RowWrites(r.events) == s.tx.configStrings[s.tx.configPosition..r.state.tx.configPosition]
    decreases |ticks|
  {
    if ticks == [] {
      assert s.tx.configStrings[s.tx.configPosition..s.tx.configPosition] == [];
    } else {
      var l := Loop(s, ticks[0].now, ticks[0].input);
      var r := Run(l.state, ticks[1..]);
      var rows := s.tx.configStrings;
      var p0, p1, p2 := s.tx.configPosition, l.state.tx.configPosition, r.state.tx.configPosition;
      assert Run(s, ticks) == Step(r.state, l.events + r.events);
      LoopWrites(s, ticks[0].now, ticks[0].input);
      RunRowWrites(l.state, ticks[1..]);
      RowWritesJoin(l.events, r.events, rows, p0, p1, p2);
    }
  }

  /** Over any run, `VER` and `get_all` are each written at most once, and
      only if their flag was set; a written one is not pending any more. */
  lemma {:induction false} RunDiagnosticWrites(s: State, ticks: seq<Tick>)
    requires Inv(s)
    ensures var r := Run(s, ticks);
      && WriteCount(r.events, VersionCommand) + (if r.state.tx.logVersion then 1 else 0)
           == (if s.tx.logVersion then 1 else 0)
      && WriteCount(r.events, GetAllCommand) + (if r.state.tx.logGetAll then 1 else 0)
           == (if s.tx.logGetAll then 1 else 0)
    decreases |ticks|
  {
    if ticks != [] {
      var l := Loop(s, ticks[0].now, ticks[0].input);
      var r := Run(l.state, ticks[1..]);
      LoopWrites(s, ticks[0].now, ticks[0].input);
      RunDiagnosticWrites(l.state, ticks[1..]);
      WritesAppend(l.events, r.events);
    }
  }

  /** Each diagnostic command goes out at most once in any run. */
  lemma DiagnosticsAtMostOnce(s: State, ticks: seq<Tick>)
    requires Inv(s)
    ensures WriteCount(Run(s, ticks).events, VersionCommand) <= 1
    ensures WriteCount(Run(s, ticks).events, GetAllCommand) <= 1
  {
    RunDiagnosticWrites(s, ticks);
  }

  /** While the clock reads at most 15 s (the logger is not taken to be up),
      neither diagnostic is written, whatever the decoder sees, and both stay
      pending. */
  lemma {:induction false} DiagnosticsWaitForLogger(s: State, ticks: seq<Tick>)
    requires Inv(s)
    requires forall k | 0 <= k < |ticks| :: !LoggerReady(ticks[k].now)
    ensures var r := Run(s, ticks);
      && r.state.tx.logVersion == s.tx.logVersion && r.state.tx.logGetAll == s.tx.logGetAll
      && WriteCount(r.events, VersionCommand) == 0 && WriteCount(r.events, GetAllCommand) == 0
    decreases |ticks|
  {
    RunDiagnosticWrites(s, ticks);
    if ticks != [] {
      var l := Loop(s, ticks[0].now, ticks[0].input);
      assert !LoggerReady(ticks[0].now);
      assert l.state.tx.logVersion == s.tx.logVersion && l.state.tx.logGetAll == s.tx.logGetAll;
      assert forall k | 0 <= k < |ticks[1..]| :: ticks[1..][k] == ticks[k + 1];
      DiagnosticsWaitForLogger(l.state, ticks[1..]);
    }
  }

  /** The first poll after `setup` writes the first row, `rmax=…`. */
  lemma FirstPollAfterSetup(settings: Settings, now: uint32, input: seq<byte>)
    ensures var s := Setup(Init().(settings := settings));
      Loop(s, now, input).events[0] == Write(ConfigCommands(settings)[0])
  {
    var s := Setup(Init().(settings := settings));
    FirstPollWritesFirstRow(settings, now);
    assert Loop(s, now, input).events[..1] == [Write(ConfigCommands(settings)[0])];
  }

  /** A poll whose drain publishes nothing (no accepted line ended in it;
      in particular, one whose input holds no `\n`) leaves the timestamp
      alone; so, once timed out, the next poll clears presence again (as
      long as the clock has not come round to the timestamp). */
  lemma ClearRepeatsUntilLine(s: State, now: uint32, input: seq<byte>, later: uint32)
    requires Inv(s)
    requires FeedAll(s.(tx := ManageConfigTx(s.tx, now).tx), input, now).events == []
    requires TimedOut(s.lastMotionTime, now, s.settings.motionTimeout)
    requires Elapsed(later, s.lastMotionTime) >= Elapsed(now, s.lastMotionTime)
    ensures var r := Loop(s, now, input);
      && r.state.lastMotionTime == s.lastMotionTime
      && MotionTimeout(r.state, later) == ClearedPresence
  {
  }

  /** A poll that decodes a `rec…` line unblocks the sequencer: the next
      poll writes the row under the cursor, if rows remain. */
  lemma AcknowledgmentUnblocks(s: State, now: uint32, rest: seq<byte>, next: Tick)
    requires Inv(s) && AtLineStart(s.rx) && LF !in rest
    ensures var r := Loop(s, now, ConfigReceivedText + rest + [LF]);
      var q := r.state.tx;
      && q.isReadyToSendNextConfig
      && (q.configPosition < q.maxConfigPosition ==>
            Loop(r.state, next.now, next.input).events[0] == Write(q.configStrings[q.configPosition]))
  {
    var m := ManageConfigTx(s.tx, now);
    var s1 := s.(tx := m.tx);
    AcknowledgmentLine(s1, rest, now);
    var r := Loop(s, now, ConfigReceivedText + rest + [LF]);
    var q := r.state.tx;
    if q.configPosition < q.maxConfigPosition {
      var m2 := ManageConfigTx(q, next.now);
      assert m2.events == [Write(q.configStrings[q.configPosition])];
      assert Loop(r.state, next.now, next.input).events[..1] == m2.events;
    }
  }
}
