/** `send_next_config` and `manage_config_tx`: the handshake that passes the
    rendered configuration rows to the radar one at a time, each only after
    the radar acknowledged the previous one, followed by the two one-shot
    diagnostic commands. */
module ConfigTx {
  import opened RadarState

  /** The result of one sequencer operation: its new variables and what it wrote. */
  datatype TxStep = TxStep(tx: Sequencer, events: seq<Event>)

  /** `millis() > 15000`: the logger is taken to be running after 15 s. */
  predicate LoggerReady(now: uint32)
    ensures LoggerReady(now) <==> now >= 15001
  {
    now > 15000
  }

  /** `send_next_config`: write the row under the cursor and wait for its
      acknowledgment; past the last row, only mark the configuration sent. */
  function SendNextConfig(q: Sequencer): (r: TxStep)
    requires SequencerInv(q)
    ensures SequencerInv(r.tx)
    ensures r.tx.configStrings == q.configStrings && r.tx.maxConfigPosition == q.maxConfigPosition
    ensures r.tx.logVersion == q.logVersion && r.tx.logGetAll == q.logGetAll
    // a row is written exactly when the radar is ready and rows remain, and
    // then it is the row under the cursor, which advances by one
    ensures r.events != [] <==> q.isReadyToSendNextConfig && q.configPosition < q.maxConfigPosition
    ensures r.events != [] ==>
      && r.events == [Write(q.configStrings[q.configPosition])]
      && r.tx.configPosition == q.configPosition + 1
      && !r.tx.isReadyToSendNextConfig
      && r.tx.allConfigsAreSent == q.allConfigsAreSent
    // otherwise the cursor stays, and "all sent" is set iff ready at the end
    ensures r.events == [] ==>
      && r.tx.configPosition == q.configPosition
      && r.tx.isReadyToSendNextConfig == q.isReadyToSendNextConfig
      && r.tx.allConfigsAreSent == (q.allConfigsAreSent || q.isReadyToSendNextConfig)
  {
    if !q.isReadyToSendNextConfig then TxStep(q, [])
    else if q.configPosition >= q.maxConfigPosition then TxStep(q.(allConfigsAreSent := true), [])
    else
      TxStep(q.(configPosition := q.configPosition + 1, isReadyToSendNextConfig := false),
             [Write(q.configStrings[q.configPosition])])
  }

  /** `manage_config_tx` at time `now`: while rows remain, the next row; once
      all are sent and the logger is up, `VER` and then `get_all`, once each;
      nothing while an acknowledgment is awaited. */
  function ManageConfigTx(q: Sequencer, now: uint32): (r: TxStep)
    requires SequencerInv(q)
    ensures SequencerInv(r.tx)
    ensures r.tx.configStrings == q.configStrings && r.tx.maxConfigPosition == q.maxConfigPosition
    // at most one write per call, only when ready, and a write awaits its acknowledgment
    ensures |r.events| <= 1
    ensures forall e | e in r.events :: e.Write?
    ensures r.events != [] ==> q.isReadyToSendNextConfig && !r.tx.isReadyToSendNextConfig
    ensures r.events == [] ==> r.tx.isReadyToSendNextConfig == q.isReadyToSendNextConfig
    // the cursor never moves back and moves only with the write of its row
    ensures q.configPosition <= r.tx.configPosition <= r.tx.maxConfigPosition
    ensures r.tx.configPosition != q.configPosition <==>
      q.isReadyToSendNextConfig && !q.allConfigsAreSent && q.configPosition < q.maxConfigPosition
    ensures r.tx.configPosition != q.configPosition ==>
      r.tx.configPosition == q.configPosition + 1 && r.events == [Write(q.configStrings[q.configPosition])]
    // "all sent" is never cleared, and is set by a call that writes nothing
    ensures q.allConfigsAreSent ==> r.tx.allConfigsAreSent
    ensures r.tx.allConfigsAreSent && !q.allConfigsAreSent ==>
      r.events == [] && q.isReadyToSendNextConfig && q.configPosition == q.maxConfigPosition
    // the diagnostics: after the rows, past 15 s, `VER` first, each at most once
    ensures r.events == [Write(VersionCommand)] <==>
      q.isReadyToSendNextConfig && q.allConfigsAreSent && q.logVersion && LoggerReady(now)
    ensures r.events == [Write(GetAllCommand)] <==>
      q.isReadyToSendNextConfig && q.allConfigsAreSent && !q.logVersion && q.logGetAll && LoggerReady(now)
    ensures r.tx.logVersion == (q.logVersion && r.events != [Write(VersionCommand)])
    ensures r.tx.logGetAll == (q.logGetAll && r.events != [Write(GetAllCommand)])
  {
    if !q.isReadyToSendNextConfig then TxStep(q, [])
    else if !q.allConfigsAreSent then SendNextConfig(q)
    else if q.logVersion && LoggerReady(now) then
      TxStep(q.(logVersion := false, isReadyToSendNextConfig := false), [Write(VersionCommand)])
    else if q.logGetAll && LoggerReady(now) then
      TxStep(q.(logGetAll := false, isReadyToSendNextConfig := false), [Write(GetAllCommand)])
    else TxStep(q, [])
  }

  /** The texts written, in order. */
  function Writes(events: seq<Event>): (w: seq<string>)
    ensures |w| <= |events|
    ensures forall t | t in w :: Write(t) in events
  {
    if events == [] then []
    else Writes(events[..|events| - 1]) + (if events[|events| - 1].Write? then [events[|events| - 1].text] else [])
  }

  /** The rows written: the writes other than the two diagnostics. */
  function RowWrites(events: seq<Event>): (w: seq<string>)
    ensures |w| <= |events|
    ensures forall t | t in w :: t in Writes(events) && t != VersionCommand && t != GetAllCommand
  {
    if events == [] then []
    else
      var e := events[|events| - 1];
      RowWrites(events[..|events| - 1])
        + (if e.Write? && e.text != VersionCommand && e.text != GetAllCommand then [e.text] else [])
  }

  /** How many times `text` was written. */
  function WriteCount(events: seq<Event>, text: string): (n: nat)
    ensures n <= |events|
    ensures n == 0 <==> Write(text) !in events
  {
    if events == [] then 0
    else WriteCount(events[..|events| - 1], text) + (if events[|events| - 1] == Write(text) then 1 else 0)
  }

  /** Writes, row writes and counts of `x + y` are those of `x` followed by those of `y`. */
  lemma WritesAppend(x: seq<Event>, y: seq<Event>)
    ensures Writes(x + y) == Writes(x) + Writes(y)
    ensures RowWrites(x + y) == RowWrites(x) + RowWrites(y)
    ensures WriteCount(x + y, VersionCommand) == WriteCount(x, VersionCommand) + WriteCount(y, VersionCommand)
    ensures WriteCount(x + y, GetAllCommand) == WriteCount(x, GetAllCommand) + WriteCount(y, GetAllCommand)
  {
    AllWritesAppend(x, y);
    RowWritesAppend(x, y);
    WriteCountAppend(x, y, VersionCommand);
    WriteCountAppend(x, y, GetAllCommand);
  }

  lemma {:induction false} AllWritesAppend(x: seq<Event>, y: seq<Event>)
    ensures Writes(x + y) == Writes(x) + Writes(y)
    decreases |y|
  {
    if y == [] {
      assert x + y == x;
    } else {
      var y' := y[..|y| - 1];
      assert (x + y)[..|x + y| - 1] == x + y';
      assert (x + y)[|x + y| - 1] == y[|y| - 1];
      AllWritesAppend(x, y');
    }
  }

  lemma {:induction false} RowWritesAppend(x: seq<Event>, y: seq<Event>)
    ensures RowWrites(x + y) == RowWrites(x) + RowWrites(y)
    decreases |y|
  {
    if y == [] {
      assert x + y == x;
    } else {
      var y' := y[..|y| - 1];
      assert (x + y)[..|x + y| - 1] == x + y';
      assert (x + y)[|x + y| - 1] == y[|y| - 1];
      RowWritesAppend(x, y');
    }
  }

  lemma {:induction false} WriteCountAppend(x: seq<Event>, y: seq<Event>, text: string)
    ensures WriteCount(x + y, text) == WriteCount(x, text) + WriteCount(y, text)
    decreases |y|
  {
    if y == [] {
      assert x + y == x;
    } else {
      var y' := y[..|y| - 1];
      assert (x + y)[..|x + y| - 1] == x + y';
      assert (x + y)[|x + y| - 1] == y[|y| - 1];
      WriteCountAppend(x, y', text);
    }
  }

  /** Events without writes write nothing. */
  lemma {:induction false} NoWrites(events: seq<Event>)
    requires forall e | e in events :: !e.Write?
    ensures Writes(events) == [] && RowWrites(events) == []
    ensures WriteCount(events, VersionCommand) == 0 && WriteCount(events, GetAllCommand) == 0
    decreases |events|
  {
    if events != [] {
      assert forall e | e in events[..|events| - 1] :: e in events;
      NoWrites(events[..|events| - 1]);
    }
  }

  /** One call of `manage_config_tx` writes exactly the rows its cursor
      passed over, and each diagnostic at most once, only while its flag was set. */
  lemma ManageConfigTxWrites(q: Sequencer, now: uint32)
    requires SequencerInv(q)
    ensures var r := ManageConfigTx(q, now);
      && RowWrites(r.events) == q.configStrings[q.configPosition..r.tx.configPosition]
      && WriteCount(r.events, VersionCommand) + (if r.tx.logVersion then 1 else 0) == (if q.logVersion then 1 else 0)
      && WriteCount(r.events, GetAllCommand) + (if r.tx.logGetAll then 1 else 0) == (if q.logGetAll then 1 else 0)
  {
    var r := ManageConfigTx(q, now);
    var p := q.configPosition;
    if r.tx.configPosition != p {
      assert q.configStrings[p..p + 1] == [q.configStrings[p]];
      assert r.events[..0] == [];
    } else if r.events != [] {
      assert r.events[..0] == [];
    }
  }

  /** After setup the first poll writes the first row, at any time, since
      the component starts out ready. */
  lemma FirstPollWritesFirstRow(settings: Settings, now: uint32)
    ensures var q := Setup(Init().(settings := settings)).tx;
      ManageConfigTx(q, now).events == [Write(ConfigCommands(settings)[0])]
  {
  }

  /** A write blocks the sequencer: the next call writes nothing unless an
      acknowledgment came in between. */
  lemma WaitsForAcknowledgment(q: Sequencer, now1: uint32, now2: uint32)
    requires SequencerInv(q)
    requires ManageConfigTx(q, now1).events != []
    ensures ManageConfigTx(ManageConfigTx(q, now1).tx, now2).events == []
  {
  }
}
