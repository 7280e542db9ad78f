/** `LD1125hComponent` as a class: the header's fields, its setters, and
    `setup`, `loop`, `motion_timeout`, `manage_config_tx`,
    `send_next_config` and `handle_char_` updating them in place. Each
    method is proved to do what the matching function of the state model
    does, so the facts proved there hold of the object. */
module LD1125h {
  import opened Ascii
  import opened Render
  import opened RadarState
  import Decoder
  import ConfigTx
  import Presence
  import Poll

  class LD1125hComponent {
    // How long presence is held after the last accepted line, in ms.
    var motionTimeout: int32

    // Radar settings sent at start-up (`rmax` in hundredths of a metre),
    // and the two one-shot diagnostic requests.
    var rmax: nat
    var mth1Mov: int32
    var mth2Mov: int32
    var mth3Mov: int32
    var mth1Occ: int32
    var mth2Occ: int32
    var mth3Occ: int32
    var tsOn: int32
    var tsOff: int32
    var outputMode: int32
    var testMode: int32
    var logVersion: bool
    var logGetAll: bool

    // The rendered command rows and the sequencer's cursor and flags.
    const configStrings: array<string>
    var configPosition: int
    var maxConfigPosition: int
    var isReadyToSendNextConfig: bool
    var allConfigsAreSent: bool

    // Decoder buffers, the byte position in the line, and the acceptance flag.
    const motionType: array<byte>
    const centerValidation: array<byte>
    var inputPosition: int
    var isDataAMotionEvent: bool

    // The line's decoded values, published at its end (distance in hundredths).
    var isMovement: bool
    var isOccupancy: bool
    var distance: int

    // When the last line was published, in ms; 0 until then.
    var lastMotionTime: uint32

    /** The settings the setters assigned. */
    function Config(): Settings
      reads this
    {
      Settings(motionTimeout, rmax, mth1Mov, mth2Mov, mth3Mov, mth1Occ, mth2Occ, mth3Occ,
        tsOn, tsOff, outputMode, testMode)
    }

    /** The sequencer's variables. */
    ghost function Tx(): Sequencer
      reads this, configStrings
    {
      Sequencer(logVersion, logGetAll, configStrings[..], configPosition, maxConfigPosition,
        isReadyToSendNextConfig, allConfigsAreSent)
    }

    /** The decoder's variables. */
    ghost function Rx(): Parser
      reads this, motionType, centerValidation
    {
      Parser(motionType[..], centerValidation[..], inputPosition, isDataAMotionEvent,
        isMovement, isOccupancy, distance)
    }

    /** The object's value in the state model. */
    ghost function Abs(): State
      reads this, configStrings, motionType, centerValidation
    {
      State(Config(), Tx(), Rx(), lastMotionTime)
    }

    /** The buffers have their declared sizes, and the state model's invariant holds. */
    ghost predicate Valid()
      reads this, configStrings, motionType, centerValidation
      ensures Valid() ==> Inv(Abs())
    {
      && configStrings.Length == ConfigRowCount
      && motionType.Length == MotionTypeSize
      && centerValidation.Length == CenterValidationSize
      && motionType != centerValidation
      && ParserInv(Rx())
      && SequencerInv(Tx())
    }

    /** A new component, with the header's initialisers. */
    constructor ()
      ensures Valid() && Abs() == Init()
      ensures fresh(configStrings) && fresh(motionType) && fresh(centerValidation)
    {
      motionTimeout := 0;
      rmax := 0;
      mth1Mov, mth2Mov, mth3Mov := 0, 0, 0;
      mth1Occ, mth2Occ, mth3Occ := 0, 0, 0;
      tsOn, tsOff, outputMode, testMode := 0, 0, 0, 0;
      logVersion, logGetAll := false, false;
      configStrings := new string[ConfigRowCount](_ => "");
      configPosition, maxConfigPosition := 0, 0;
      isReadyToSendNextConfig, allConfigsAreSent := true, false;
      motionType := new byte[MotionTypeSize](_ => 0);
      centerValidation := new byte[CenterValidationSize](_ => 0);
      inputPosition := 0;
      isDataAMotionEvent := true;
      isMovement, isOccupancy := false, false;
      distance := 0;
      lastMotionTime := 0;
      new;
      assert configStrings[..] == seq(ConfigRowCount, _ => "");
      assert motionType[..] == [0, 0, 0];
      assert centerValidation[..] == [0, 0, 0, 0, 0, 0];
    }

    // Setters: each one writes its own field and leaves the rest alone.

    method SetMotionTimeout(timeout: int32)
      requires Valid()
      modifies this
      ensures Valid() && Abs() == old(Abs()).(settings := old(Abs()).settings.(motionTimeout := timeout))
    {
      motionTimeout := timeout;
    }

    method SetRmax(hundredths: nat)
      requires Valid()
      modifies this
      ensures Valid() && Abs() == old(Abs()).(settings := old(Abs()).settings.(rmax := hundredths))
    {
      rmax := hundredths;
    }

    method SetMth1Mov(mth1: int32)
      requires Valid()
      modifies this
      ensures Valid() && Abs() == old(Abs()).(settings := old(Abs()).settings.(mth1Mov := mth1))
    {
      mth1Mov := mth1;
    }

    method SetMth2Mov(mth2: int32)
      requires Valid()
      modifies this
      ensures Valid() && Abs() == old(Abs()).(settings := old(Abs()).settings.(mth2Mov := mth2))
    {
      mth2Mov := mth2;
    }

    method SetMth3Mov(mth3: int32)
      requires Valid()
      modifies this
      ensures Valid() && Abs() == old(Abs()).(settings := old(Abs()).settings.(mth3Mov := mth3))
    {
      mth3Mov := mth3;
    }

    method SetMth1Occ(mth1: int32)
      requires Valid()
      modifies this
      ensures Valid() && Abs() == old(Abs()).(settings := old(Abs()).settings.(mth1Occ := mth1))
    {
      mth1Occ := mth1;
    }

    method SetMth2Occ(mth2: int32)
      requires Valid()
      modifies this
      ensures Valid() && Abs() == old(Abs()).(settings := old(Abs()).settings.(mth2Occ := mth2))
    {
      mth2Occ := mth2;
    }

    method SetMth3Occ(mth3: int32)
      requires Valid()
      modifies this
      ensures Valid() && Abs() == old(Abs()).(settings := old(Abs()).settings.(mth3Occ := mth3))
    {
      mth3Occ := mth3;
    }

    method SetTsOn(ts: int32)
      requires Valid()
      modifies this
      ensures Valid() && Abs() == old(Abs()).(settings := old(Abs()).settings.(tsOn := ts))
    {
      tsOn := ts;
    }

    method SetTsOff(ts: int32)
      requires Valid()
      modifies this
      ensures Valid() && Abs() == old(Abs()).(settings := old(Abs()).settings.(tsOff := ts))
    {
      tsOff := ts;
    }

    method SetOutputMode(mode: int32)
      requires Valid()
      modifies this
      ensures Valid() && Abs() == old(Abs()).(settings := old(Abs()).settings.(outputMode := mode))
    {
      outputMode := mode;
    }

    method SetTestMode(mode: int32)
      requires Valid()
      modifies this
      ensures Valid() && Abs() == old(Abs()).(settings := old(Abs()).settings.(testMode := mode))
    {
      testMode := mode;
    }

    method SetLogVersion(send: bool)
      requires Valid()
      modifies this
      ensures Valid() && Abs() == old(Abs()).(tx := old(Abs()).tx.(logVersion := send))
    {
      logVersion := send;
    }

    method SetLogGetAll(send: bool)
      requires Valid()
      modifies this
      ensures Valid() && Abs() == old(Abs()).(tx := old(Abs()).tx.(logGetAll := send))
    {
      logGetAll := send;
    }

    /** `setup`: render the 11 rows into the row table. */
    method Setup()
      requires Valid() && maxConfigPosition == 0 && !allConfigsAreSent
      modifies this, configStrings
      ensures Valid() && Abs() == RadarState.Setup(old(Abs()))
    {
      RenderConfigRows();
      RowsAreNotDiagnostics(old(Abs()).settings);
    }

    /** The `sprintf` calls of `setup`: each row is rendered at
        `max_config_position_`, which advances past it (counted in a local
        and stored back once; the settings are read once, up front). */
    method RenderConfigRows()
      requires configStrings.Length == ConfigRowCount && maxConfigPosition == 0
      modifies this`maxConfigPosition, configStrings
      ensures maxConfigPosition == ConfigRowCount
      ensures configStrings[..] == ConfigCommands(old(Config()))
    {
      var c := Config();
      var pos := maxConfigPosition;
      configStrings[pos] := ConfigRow("rmax", FixedPoint2(c.rmax));
      pos := pos + 1;
      configStrings[pos] := ConfigRow("mth1_mov", IntToDecimal(c.mth1Mov));
      pos := pos + 1;
      configStrings[pos] := ConfigRow("mth2_mov", IntToDecimal(c.mth2Mov));
      pos := pos + 1;
      configStrings[pos] := ConfigRow("mth3_mov", IntToDecimal(c.mth3Mov));
      pos := pos + 1;
      configStrings[pos] := ConfigRow("mth1_occ", IntToDecimal(c.mth1Occ));
      pos := pos + 1;
      configStrings[pos] := ConfigRow("mth2_occ", IntToDecimal(c.mth2Occ));
      pos := pos + 1;
      configStrings[pos] := ConfigRow("mth3_occ", IntToDecimal(c.mth3Occ));
      pos := pos + 1;
      configStrings[pos] := ConfigRow("ts_on", IntToDecimal(c.tsOn));
      pos := pos + 1;
      configStrings[pos] := ConfigRow("ts_off", IntToDecimal(c.tsOff));
      pos := pos + 1;
      configStrings[pos] := ConfigRow("output_mode", IntToDecimal(c.outputMode));
      pos := pos + 1;
      configStrings[pos] := ConfigRow("test_mode", IntToDecimal(c.testMode));
      pos := pos + 1;
      maxConfigPosition := pos;
    }

    /** `send_next_config`. */
    method SendNextConfig() returns (events: seq<Event>)
      requires Valid()
      modifies this
      ensures Valid()
      ensures var r := ConfigTx.SendNextConfig(old(Abs()).tx); Abs() == old(Abs()).(tx := r.tx) && events == r.events
    {
      events := [];
      if !isReadyToSendNextConfig {
        return;
      }
      if configPosition >= maxConfigPosition {
        allConfigsAreSent := true;
        return;
      }
      events := [Write(configStrings[configPosition])];
      configPosition := configPosition + 1;
      isReadyToSendNextConfig := false;
    }

    /** `manage_config_tx`, with `now` standing for `millis()`. */
    method ManageConfigTx(now: uint32) returns (events: seq<Event>)
      requires Valid()
      modifies this
      ensures Valid()
      ensures var r := ConfigTx.ManageConfigTx(old(Abs()).tx, now); Abs() == old(Abs()).(tx := r.tx) && events == r.events
    {
      var isLoggerReady := now > 15000;
      events := [];
      if isReadyToSendNextConfig {
        if !allConfigsAreSent {
          events := SendNextConfig();
        } else if logVersion && isLoggerReady {
          events := [Write(VersionCommand)];
          logVersion := false;
          isReadyToSendNextConfig := false;
        } else if logGetAll && isLoggerReady {
          events := [Write(GetAllCommand)];
          logGetAll := false;
          isReadyToSendNextConfig := false;
        }
      }
    }

    /** `motion_timeout`, with `now` standing for `millis()`: changes nothing,
        and publishes the cleared presence exactly when the timeout elapsed. */
    method MotionTimeout(now: uint32) returns (events: seq<Event>)
      requires Valid()
      ensures events == Presence.MotionTimeout(Abs(), now)
      ensures events == [] || events == Presence.ClearedPresence
    {
      events := [];
      if lastMotionTime > 0 && Presence.Elapsed(now, lastMotionTime) >= Presence.AsUnsigned(motionTimeout) {
        events := [PublishMotion(false), PublishMovement(false), PublishOccupancy(false)];
      }
    }

    /** `handle_char_` on byte `c`, with `now` standing for `millis()`. */
    method HandleChar(c: byte, now: uint32) returns (events: seq<Event>)
      requires Valid()
      modifies this, motionType, centerValidation
      ensures Valid()
      ensures var r := Decoder.HandleChar(old(Abs()), c, now); Abs() == r.state && events == r.events
    {
      events := [];
      if c == LF {
        events := HandleLineEnd(now);
      } else if !isDataAMotionEvent {
        return;
      } else if c == CR {
        return;
      } else {
        ghost var s := Abs();
        HandleDataByte(c);
        assert Abs() == s.(rx := Rx(), tx := Tx());
      }
    }

    /** A byte other than `\r` and `\n` of a line still acceptable: it takes
        the next position. */
    method HandleDataByte(c: byte)
      requires Valid() && isDataAMotionEvent && c != LF && c != CR
      modifies this`inputPosition, this`isMovement, this`isOccupancy, this`isDataAMotionEvent,
        this`isReadyToSendNextConfig, this`distance, motionType, centerValidation
      ensures Valid()
      ensures Rx() == Decoder.Accept(old(Rx()), c)
      ensures Tx() == if Decoder.Acknowledges(old(Rx()), c) then old(Tx()).(isReadyToSendNextConfig := true) else old(Tx())
    {
      if inputPosition <= 2 {
        HandleTypeByte(c);
      } else if inputPosition <= 8 {
        HandleSeparatorByte(c);
      } else {
        HandleDistanceByte(c);
      }
    }

    /** The `\n` that ends a line: publish it if it is acceptable and the
        configuration is sent, then reset the decoder. */
    method HandleLineEnd(now: uint32) returns (events: seq<Event>)
      requires Valid()
      modifies this`lastMotionTime, this`isDataAMotionEvent, this`isOccupancy, this`isMovement, this`inputPosition
      ensures Valid()
      ensures var r := Decoder.HandleChar(old(Abs()), LF, now); Abs() == r.state && events == r.events
    {
      ghost var s := Abs();
      events := [];
      if isDataAMotionEvent && allConfigsAreSent {
        lastMotionTime := now;
        events := [PublishMotion(isMovement || isOccupancy), PublishMovement(isMovement),
                   PublishOccupancy(isOccupancy), PublishDistance(distance)];
        assert events == Decoder.LineRecord(s.rx);
      }
      isDataAMotionEvent := true;
      isOccupancy := false;
      isMovement := false;
      inputPosition := 0;
      assert Abs() == s.(rx := Decoder.Reset(s.rx), lastMotionTime := lastMotionTime);
    }

    /** Positions 0 to 2 of an acceptable line. */
    method HandleTypeByte(c: byte)
      requires Valid() && isDataAMotionEvent && c != LF && c != CR && inputPosition <= 2
      modifies this`inputPosition, this`isMovement, this`isOccupancy, this`isDataAMotionEvent,
        this`isReadyToSendNextConfig, motionType
      ensures Valid()
      ensures Rx() == Decoder.AcceptType(old(Rx()), c)
      ensures Tx() == if Decoder.Acknowledges(old(Rx()), c) then old(Tx()).(isReadyToSendNextConfig := true) else old(Tx())
    {
      ghost var rx := Rx();
      motionType[inputPosition] := c;
      assert motionType[..] == rx.motionType[inputPosition := c];
      if inputPosition == 2 {
        ClassifyMotionType();
      }
      inputPosition := inputPosition + 1;
    }

    /** Position 2 completes the type token: `mov` and `occ` set their flag,
        anything else rejects the line, and `rec` also raises the
        acknowledgment flag. */
    method ClassifyMotionType()
      requires motionType.Length == MotionTypeSize && isDataAMotionEvent && !isMovement && !isOccupancy
      modifies this`isMovement, this`isOccupancy, this`isDataAMotionEvent, this`isReadyToSendNextConfig
      ensures isMovement == (motionType[..] == MovementText)
      ensures isOccupancy == (motionType[..] == OccupancyText)
      ensures isDataAMotionEvent == (isMovement || isOccupancy)
      ensures isReadyToSendNextConfig == (old(isReadyToSendNextConfig) || motionType[..] == ConfigReceivedText)
    {
      if motionType[..] == MovementText {
        isMovement := true;
      } else if motionType[..] == OccupancyText {
        isOccupancy := true;
      } else {
        isDataAMotionEvent := false;
      }
      if motionType[..] == ConfigReceivedText {
        isReadyToSendNextConfig := true;
      }
    }

    /** Positions 3 to 8 of an acceptable line. */
    method HandleSeparatorByte(c: byte)
      requires Valid() && isDataAMotionEvent && c != LF && c != CR && 3 <= inputPosition <= 8
      modifies this`inputPosition, this`isDataAMotionEvent, centerValidation
      ensures Valid()
      ensures Rx() == Decoder.AcceptSeparator(old(Rx()), c)
    {
      ghost var rx := Rx();
      centerValidation[inputPosition - 3] := c;
      assert centerValidation[..] == rx.centerValidation[inputPosition - 3 := c];
      if inputPosition == 8 && centerValidation[..] != CenterText {
        isDataAMotionEvent := true;
      }
      inputPosition := inputPosition + 1;
    }

    /** Positions 9 and on of an acceptable line. */
    method HandleDistanceByte(c: byte)
      requires Valid() && isDataAMotionEvent && c != LF && c != CR && 9 <= inputPosition
      modifies this`inputPosition, this`isDataAMotionEvent, this`distance
      ensures Valid()
      ensures Rx() == Decoder.AcceptDistance(old(Rx()), c)
    {
      if inputPosition == 9 || inputPosition == 11 || inputPosition == 12 {
        var val := CharToInt(c);
        if IsValidIntChar(val) {
          if inputPosition == 9 {
            distance := 100 * val;
          } else if inputPosition == 11 {
            distance := distance + 10 * val;
          } else {
            distance := distance + val;
          }
        } else {
          isDataAMotionEvent := false;
        }
      } else if inputPosition == 10 && c != Dot {
        isDataAMotionEvent := false;
      } else if inputPosition >= 13 {
        isDataAMotionEvent := false;
      }
      inputPosition := inputPosition + 1;
    }

    /** `loop`, with `now` standing for `millis()` and `input` for the bytes
        the UART has buffered: the sequencer, the timeout, then every byte. */
    method Loop(now: uint32, input: seq<byte>) returns (events: seq<Event>)
      requires Valid()
      modifies this, configStrings, motionType, centerValidation
      ensures Valid()
      ensures Poll.Loop(old(Abs()), now, input) == Step(Abs(), events)
    {
      var sent := ManageConfigTx(now);
      var cleared := MotionTimeout(now);
      ghost var start := Abs();
      var fed: seq<Event> := [];
      var i := 0;
      while i < |input|
        invariant 0 <= i <= |input|
        invariant Valid()
        invariant Decoder.FeedAll(start, input[..i], now) == Step(Abs(), fed)
      {
        var e := HandleChar(input[i], now);
        Decoder.FeedSnoc(start, input[..i], input[i], now);
        assert input[..i + 1] == input[..i] + [input[i]];
        fed := fed + e;
        i := i + 1;
      }
      assert input[..i] == input;
      events := sent + cleared + fed;
    }
  }
}
