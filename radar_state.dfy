/** The state of one `LD1125hComponent`, field for field as the header
    declares it, the events the component emits, its object invariant, its
    initial value, and the configuration rows `setup` renders. */
module RadarState {
  import opened Ascii
  import opened Render

  /** `uint32_t`, the type of `millis()` and of the last-motion timestamp. */
  type uint32 = n: int | 0 <= n < 0x1_0000_0000
  /** `int` on the target, the type of the integer settings. */
  type int32 = n: int | -0x8000_0000 <= n < 0x8000_0000

  const TwoTo32: int := 0x1_0000_0000

  /** `config_strings_[11][20]`: 11 rows of 20 chars each. */
  const ConfigRowCount: nat := 11
  const ConfigRowWidth: nat := 20
  /** Sizes of `motion_type_` and `center_validation_`. */
  const MotionTypeSize: nat := 3
  const CenterValidationSize: nat := 6
  /** A valid line is 13 bytes long; a longer one is rejected. */
  const MaxLinePosition: nat := 14

  /** The literal arrays the decoder compares against. */
  const MovementText: seq<byte> := ['m' as byte, 'o' as byte, 'v' as byte]
  const OccupancyText: seq<byte> := ['o' as byte, 'c' as byte, 'c' as byte]
  const ConfigReceivedText: seq<byte> := ['r' as byte, 'e' as byte, 'c' as byte]
  const CenterText: seq<byte> := [',' as byte, ' ' as byte, 'd' as byte, 'i' as byte, 's' as byte, '=' as byte]

  /** The two one-shot diagnostic commands. */
  const VersionCommand: string := "VER\r\n"
  const GetAllCommand: string := "get_all\r\n"

  /** What the component does to the outside world: a `write_str` to the
      radar, or a `publish_state` on one of its four sensors. */
  datatype Event =
    | Write(text: string)
    | PublishMotion(on: bool)
    | PublishMovement(on: bool)
    | PublishOccupancy(on: bool)
    | PublishDistance(hundredths: int)

  /** The result of one operation: the new state and what it emitted, in order. */
  datatype Step = Step(state: State, events: seq<Event>)

  /** The settings the configuration setters assign before `setup`. */
  datatype Settings = Settings(
    motionTimeout: int32,
    rmax: nat,  // hundredths of a metre
    mth1Mov: int32, mth2Mov: int32, mth3Mov: int32,
    mth1Occ: int32, mth2Occ: int32, mth3Occ: int32,
    tsOn: int32, tsOff: int32, outputMode: int32, testMode: int32)

  /** The variables that pass the configuration to the radar, with the two
      diagnostic "still to send" flags. */
  datatype Sequencer = Sequencer(
    logVersion: bool,
    logGetAll: bool,
    configStrings: seq<string>,
    configPosition: int,
    maxConfigPosition: int,
    isReadyToSendNextConfig: bool,
    allConfigsAreSent: bool)

  /** The variables that parse the input stream, and the sensor states
      kept before publication (distance in hundredths of a metre). */
  datatype Parser = Parser(
    motionType: seq<byte>,
    centerValidation: seq<byte>,
    inputPosition: int,
    isDataAMotionEvent: bool,
    isMovement: bool,
    isOccupancy: bool,
    distance: int)

  /** The whole component. */
  datatype State = State(settings: Settings, tx: Sequencer, rx: Parser, lastMotionTime: uint32)

  /** The decoder's invariant: buffer sizes, position bounds, exclusive type
      flags, and the distance range at each position. */
  ghost predicate ParserInv(p: Parser) {
    && |p.motionType| == MotionTypeSize
    && |p.centerValidation| == CenterValidationSize
    && 0 <= p.inputPosition <= MaxLinePosition
    && (p.inputPosition == MaxLinePosition ==> !p.isDataAMotionEvent)
    && (p.inputPosition <= 2 ==> p.isDataAMotionEvent && !p.isMovement && !p.isOccupancy)
    && !(p.isMovement && p.isOccupancy)
    && 0 <= p.distance <= 999
    && (p.isDataAMotionEvent && 10 <= p.inputPosition <= 11 ==> p.distance <= 900)
    && (p.isDataAMotionEvent && p.inputPosition == 12 ==> p.distance <= 990)
  }

  /** The sequencer's invariant: the cursor stays within the rendered rows,
      and "all sent" means the cursor reached the end. */
  ghost predicate SequencerInv(q: Sequencer) {
    && |q.configStrings| == ConfigRowCount
    && 0 <= q.configPosition <= q.maxConfigPosition <= ConfigRowCount
    && (q.allConfigsAreSent ==> q.configPosition == q.maxConfigPosition)
    && (forall i | 0 <= i < ConfigRowCount :: q.configStrings[i] != VersionCommand && q.configStrings[i] != GetAllCommand)
  }

  /** The object invariant. */
  ghost predicate Inv(s: State) {
    ParserInv(s.rx) && SequencerInv(s.tx)
  }

  /** The decoder is at the start of a line. */
  ghost predicate AtLineStart(p: Parser) {
    p.inputPosition == 0 && p.isDataAMotionEvent && !p.isMovement && !p.isOccupancy
  }

  /** A freshly constructed component: the header's initialisers, and zero
      (value-initialisation) for the members that have none. */
  function Init(): (s: State)
    ensures Inv(s) && AtLineStart(s.rx)
    ensures s.tx.isReadyToSendNextConfig && !s.tx.allConfigsAreSent
    ensures s.tx.configPosition == 0 && s.tx.maxConfigPosition == 0 && s.lastMotionTime == 0
  {
    State(
      Settings(motionTimeout := 0, rmax := 0,
        mth1Mov := 0, mth2Mov := 0, mth3Mov := 0, mth1Occ := 0, mth2Occ := 0, mth3Occ := 0,
        tsOn := 0, tsOff := 0, outputMode := 0, testMode := 0),
      Sequencer(logVersion := false, logGetAll := false,
        configStrings := seq(ConfigRowCount, _ => ""),
        configPosition := 0, maxConfigPosition := 0,
        isReadyToSendNextConfig := true, allConfigsAreSent := false),
      Parser(motionType := [0, 0, 0], centerValidation := [0, 0, 0, 0, 0, 0],
        inputPosition := 0, isDataAMotionEvent := true,
        isMovement := false, isOccupancy := false, distance := 0),
      0)
  }

  /** The keys of the configuration rows, in the order `setup` renders them. */
  const ConfigKeys: seq<string> := ["rmax", "mth1_mov", "mth2_mov", "mth3_mov", "mth1_occ", "mth2_occ",
    "mth3_occ", "ts_on", "ts_off", "output_mode", "test_mode"]

  /** The `"key=%i\r\n"` shape of every row. */
  function ConfigRow(key: string, value: string): string {
    key + "=" + value + "\r\n"
  }

  /** The 11 rows `setup` renders from the settings, one per `sprintf`;
      `ConfigCommandsLayout` states what each row holds. */
  function ConfigCommands(s: Settings): (rows: seq<string>)
    ensures |rows| == ConfigRowCount
  {
    [ ConfigRow("rmax", FixedPoint2(s.rmax)),
      ConfigRow("mth1_mov", IntToDecimal(s.mth1Mov)),
      ConfigRow("mth2_mov", IntToDecimal(s.mth2Mov)),
      ConfigRow("mth3_mov", IntToDecimal(s.mth3Mov)),
      ConfigRow("mth1_occ", IntToDecimal(s.mth1Occ)),
      ConfigRow("mth2_occ", IntToDecimal(s.mth2Occ)),
      ConfigRow("mth3_occ", IntToDecimal(s.mth3Occ)),
      ConfigRow("ts_on", IntToDecimal(s.tsOn)),
      ConfigRow("ts_off", IntToDecimal(s.tsOff)),
      ConfigRow("output_mode", IntToDecimal(s.outputMode)),
      ConfigRow("test_mode", IntToDecimal(s.testMode)) ]
  }

  /** The integer settings, in row order (row 0 is the range, rendered separately). */
  function IntSettings(s: Settings): seq<int> {
    [ s.mth1Mov, s.mth2Mov, s.mth3Mov, s.mth1Occ, s.mth2Occ, s.mth3Occ,
      s.tsOn, s.tsOff, s.outputMode, s.testMode ]
  }

  /** The text each row carries after its `key=`. */
  function ConfigValues(s: Settings): seq<string> {
    [ FixedPoint2(s.rmax), IntToDecimal(s.mth1Mov), IntToDecimal(s.mth2Mov), IntToDecimal(s.mth3Mov),
      IntToDecimal(s.mth1Occ), IntToDecimal(s.mth2Occ), IntToDecimal(s.mth3Occ),
      IntToDecimal(s.tsOn), IntToDecimal(s.tsOff), IntToDecimal(s.outputMode), IntToDecimal(s.testMode) ]
  }

  /** The value ranges the configuration schema admits for each setting. */
  ghost predicate SchemaRanges(s: Settings) {
    && s.rmax <= 1000
    && 0 <= s.mth1Mov <= 100 && 0 <= s.mth2Mov <= 100 && 0 <= s.mth3Mov <= 100
    && 0 <= s.mth1Occ <= 100 && 0 <= s.mth2Occ <= 100 && 0 <= s.mth3Occ <= 100
    && 0 <= s.tsOn && 0 <= s.tsOff
    && 0 <= s.outputMode <= 1 && 0 <= s.testMode <= 1
  }

  /** `setup`: render the 11 rows into the row table and advance
      `max_config_position_` past them. Called once, before any poll. */
  function Setup(s: State): (t: State)
    requires Inv(s) && s.tx.maxConfigPosition == 0 && !s.tx.allConfigsAreSent
    ensures Inv(t)
    ensures t.tx.maxConfigPosition == ConfigRowCount && t.tx.configPosition == 0
    ensures t.tx.configStrings == ConfigCommands(s.settings)
    ensures t == s.(tx := s.tx.(configStrings := t.tx.configStrings, maxConfigPosition := ConfigRowCount))
  {
    RowsAreNotDiagnostics(s.settings);
    s.(tx := s.tx.(configStrings := ConfigCommands(s.settings), maxConfigPosition := ConfigRowCount))
  }

  /** Each row is `key=value\r\n`, with the keys in `setup`'s order and
      the values rendered from the settings. */
  lemma ConfigCommandsLayout(s: Settings)
    ensures forall i | 0 <= i < ConfigRowCount ::
      ConfigCommands(s)[i] == ConfigRow(ConfigKeys[i], ConfigValues(s)[i])
  {
    var rows, keys, values := ConfigCommands(s), ConfigKeys, ConfigValues(s);
    assert rows[0] == ConfigRow(keys[0], values[0]);
    assert rows[1] == ConfigRow(keys[1], values[1]);
    assert rows[2] == ConfigRow(keys[2], values[2]);
    assert rows[3] == ConfigRow(keys[3], values[3]);
    assert rows[4] == ConfigRow(keys[4], values[4]);
    assert rows[5] == ConfigRow(keys[5], values[5]);
    assert rows[6] == ConfigRow(keys[6], values[6]);
    assert rows[7] == ConfigRow(keys[7], values[7]);
    assert rows[8] == ConfigRow(keys[8], values[8]);
    assert rows[9] == ConfigRow(keys[9], values[9]);
    assert rows[10] == ConfigRow(keys[10], values[10]);
  }

  lemma RowHasEquals(s: Settings, i: int)
    requires 0 <= i < ConfigRowCount
    ensures ConfigCommands(s)[i] != VersionCommand && ConfigCommands(s)[i] != GetAllCommand
  {
    ConfigCommandsLayout(s);
    var k := ConfigKeys[i];
    var row := ConfigCommands(s)[i];
    assert row[|k|] == '=';
    assert '=' !in VersionCommand;
    assert '=' !in GetAllCommand;
  }

  lemma RowsAreNotDiagnostics(s: Settings)
    ensures forall i | 0 <= i < ConfigRowCount ::
      ConfigCommands(s)[i] != VersionCommand && ConfigCommands(s)[i] != GetAllCommand
  {
    forall i | 0 <= i < ConfigRowCount
      ensures ConfigCommands(s)[i] != VersionCommand && ConfigCommands(s)[i] != GetAllCommand
    {
      RowHasEquals(s, i);
    }
  }

  /** Each integer row's value reads back as the setting it was rendered
      from, and the range row reads back as the range in hundredths. */
  lemma ConfigValuesRoundTrip(s: Settings)
    ensures forall i | 1 <= i < ConfigRowCount ::
      |ConfigValues(s)[i]| >= 1 && SignedValue(ConfigValues(s)[i]) == IntSettings(s)[i - 1]
    ensures var v := ConfigValues(s)[0];
      100 * DecimalValue(v[..|v| - 3]) + 10 * (v[|v| - 2] as int - '0' as int) + (v[|v| - 1] as int - '0' as int)
        == s.rmax
  {
    var values, ints := ConfigValues(s), IntSettings(s);
    forall i | 1 <= i < ConfigRowCount
      ensures |values[i]| >= 1 && SignedValue(values[i]) == ints[i - 1]
    {
      assert values[i] == IntToDecimal(ints[i - 1]);
      IntRoundTrip(ints[i - 1]);
    }
    FixedPointRoundTrip(s.rmax);
  }

  lemma Pow10Values()
    ensures Pow10(1) == 10 && Pow10(2) == 100 && Pow10(3) == 1000
    ensures Pow10(9) == 1_000_000_000 && Pow10(10) == 10_000_000_000
  {
    assert Pow10(4) == 10_000;
    assert Pow10(6) == 1_000_000;
    assert Pow10(8) == 100_000_000;
  }

  /** Under the schema's ranges every row, with its terminating NUL, fits
      in a 20-char row of the table. */
  lemma ConfigRowsFit(s: Settings)
    requires SchemaRanges(s)
    ensures forall i | 0 <= i < ConfigRowCount :: |ConfigCommands(s)[i]| + 1 <= ConfigRowWidth
  {
    Pow10Values();
    DecimalLength(s.rmax / 100, 2);
    DecimalLength(s.mth1Mov, 3);
    DecimalLength(s.mth2Mov, 3);
    DecimalLength(s.mth3Mov, 3);
    DecimalLength(s.mth1Occ, 3);
    DecimalLength(s.mth2Occ, 3);
    DecimalLength(s.mth3Occ, 3);
    DecimalLength(s.tsOn, 10);
    DecimalLength(s.tsOff, 10);
    DecimalLength(s.outputMode, 1);
    DecimalLength(s.testMode, 1);
  }

  /** The bound is tight: the largest `ts_off` fills the row exactly. */
  lemma LongestRow(s: Settings)
    requires s.tsOff == 0x7fff_ffff
    ensures |ConfigCommands(s)[8]| + 1 == ConfigRowWidth
  {
    Pow10Values();
    DecimalLength(s.tsOff, 10);
    DecimalLengthAtLeast(s.tsOff, 10);
  }
}
