/** `handle_char_`: the byte-at-a-time decoder of `mov, dis=D.DD` and
    `occ, dis=D.DD` lines, with the `rec` acknowledgment detector, as a
    function of the component's state; and the line-level facts it gives. */
module Decoder {
  import opened Ascii
  import opened RadarState

  /** What a completed line publishes, in the source's order: motion,
      movement, occupancy, distance. */
  function LineRecord(p: Parser): (r: seq<Event>)
    ensures |r| == 4 && r[0].PublishMotion? && r[1].PublishMovement? && r[2].PublishOccupancy?
    // motion is reported exactly when movement or occupancy is
    ensures r[0].on <==> r[1].on || r[2].on
    ensures r[1].on == p.isMovement && r[2].on == p.isOccupancy
    ensures r[3] == PublishDistance(p.distance)
  {
    [ PublishMotion(p.isMovement || p.isOccupancy), PublishMovement(p.isMovement),
      PublishOccupancy(p.isOccupancy), PublishDistance(p.distance) ]
  }

  /** `t` differs from `s` at most in the decoder, the acknowledgment flag
      and the last-motion timestamp. */
  ghost predicate OnlyDecoderChanged(s: State, t: State) {
    t.settings == s.settings && t.tx == s.tx.(isReadyToSendNextConfig := t.tx.isReadyToSendNextConfig)
  }

  /** Positions 0 to 2: store the byte in the type buffer; at 2 classify
      the token: `mov` and `occ` set their flag, anything else rejects the line. */
  function AcceptType(p: Parser, c: byte): (t: Parser)
    requires ParserInv(p) && p.isDataAMotionEvent && c != LF && c != CR && p.inputPosition <= 2
    ensures ParserInv(t)
    ensures t.inputPosition == p.inputPosition + 1
    ensures t.distance == p.distance && t.centerValidation == p.centerValidation
    ensures t.motionType == p.motionType[p.inputPosition := c]
    // the token is judged only once complete: `mov` or `occ`, and nothing else
    ensures p.inputPosition < 2 ==> t.isDataAMotionEvent && !t.isMovement && !t.isOccupancy
    ensures p.inputPosition == 2 ==>
      && t.isMovement == (t.motionType == MovementText)
      && t.isOccupancy == (t.motionType == OccupancyText)
      && t.isDataAMotionEvent == (t.isMovement || t.isOccupancy)
  {
    var pos := p.inputPosition;
    var mt := p.motionType[pos := c];
    var u := p.(motionType := mt, inputPosition := pos + 1);
    if pos == 2 then
      if mt == MovementText then u.(isMovement := true)
      else if mt == OccupancyText then u.(isOccupancy := true)
      else u.(isDataAMotionEvent := false)
    else u
  }

  /** Position 2 completes `rec`, the radar's acknowledgment of a command. */
  predicate Acknowledges(p: Parser, c: byte)
    requires ParserInv(p)
    ensures Acknowledges(p, c) <==>
      p.inputPosition == 2 && p.motionType[0] == 'r' as byte && p.motionType[1] == 'e' as byte && c == 'c' as byte
  {
    var m := p.motionType[2 := c];
    assert m == ConfigReceivedText <==> m[0] == 'r' as byte && m[1] == 'e' as byte && m[2] == 'c' as byte;
    p.inputPosition == 2 && m == ConfigReceivedText
  }

  /** Positions 3 to 8: store the byte in the separator buffer; at 8 compare
      it with `, dis=`. A mismatch sets the flag to true, which leaves it as
      it was. */
  function AcceptSeparator(p: Parser, c: byte): (t: Parser)
    requires ParserInv(p) && p.isDataAMotionEvent && c != LF && c != CR && 3 <= p.inputPosition <= 8
    ensures ParserInv(t)
    ensures t.centerValidation == p.centerValidation[p.inputPosition - 3 := c]
    ensures t == p.(centerValidation := t.centerValidation, inputPosition := p.inputPosition + 1)
  {
    var pos := p.inputPosition;
    var cv := p.centerValidation[pos - 3 := c];
    if pos == 8 && cv != CenterText then p.(centerValidation := cv, isDataAMotionEvent := true, inputPosition := pos + 1)
    else p.(centerValidation := cv, inputPosition := pos + 1)
  }

  /** Positions 9 and on: digits at 9, 11 and 12 build the distance in
      hundredths, 10 must be '.', and any byte at 13 or later rejects the line. */
  function AcceptDistance(p: Parser, c: byte): (t: Parser)
    requires ParserInv(p) && p.isDataAMotionEvent && c != LF && c != CR && 9 <= p.inputPosition
    ensures ParserInv(t)
    ensures t == p.(isDataAMotionEvent := t.isDataAMotionEvent, distance := t.distance, inputPosition := p.inputPosition + 1)
    // the line stays acceptable only with a digit at 9, 11 or 12, or '.' at 10
    ensures t.isDataAMotionEvent <==>
      (p.inputPosition in {9, 11, 12} && IsDigit(c)) || (p.inputPosition == 10 && c == Dot)
  {
    var pos := p.inputPosition;
    var t :=
      if pos == 9 || pos == 11 || pos == 12 then
        var val := CharToInt(c);
        if IsValidIntChar(val) then
          p.(distance := if pos == 9 then 100 * val else if pos == 11 then p.distance + 10 * val else p.distance + val)
        else p.(isDataAMotionEvent := false)
      else if pos == 10 && c != Dot then p.(isDataAMotionEvent := false)
      else if pos >= 13 then p.(isDataAMotionEvent := false)
      else p;
    t.(inputPosition := pos + 1)
  }

  /** A byte other than `\n` and `\r` on a line that is still acceptable:
      store or check it according to its position, then advance. */
  function Accept(p: Parser, c: byte): (t: Parser)
    requires ParserInv(p) && p.isDataAMotionEvent && c != LF && c != CR
    ensures ParserInv(t)
    ensures t.inputPosition == p.inputPosition + 1
  {
    if p.inputPosition <= 2 then AcceptType(p, c)
    else if p.inputPosition <= 8 then AcceptSeparator(p, c)
    else AcceptDistance(p, c)
  }

  /** The decoder's state at the start of the next line; the distance stays. */
  function Reset(p: Parser): (t: Parser)
    requires ParserInv(p)
    ensures ParserInv(t) && AtLineStart(t)
  {
    p.(isDataAMotionEvent := true, isOccupancy := false, isMovement := false, inputPosition := 0)
  }

  /** `handle_char_` on one byte, with `now` standing for `millis()`. */
  function HandleChar(s: State, c: byte, now: uint32): (r: Step)
    requires Inv(s)
    ensures Inv(r.state) && OnlyDecoderChanged(s, r.state)
    // end of line: publish an acceptable line once configured, and start over
    ensures c == LF ==> AtLineStart(r.state.rx) && r.state.rx.distance == s.rx.distance
    ensures r.events != [] <==> c == LF && s.rx.isDataAMotionEvent && s.tx.allConfigsAreSent
    ensures r.events != [] ==> r.events == LineRecord(s.rx) && r.state.lastMotionTime == now
    ensures r.events == [] ==> r.state.lastMotionTime == s.lastMotionTime
    // bytes after a rejection, and every `\r`, change nothing
    ensures c != LF && !s.rx.isDataAMotionEvent ==> r == Step(s, [])
    ensures c == CR ==> r == Step(s, [])
    // every other byte takes exactly one position
    ensures c != LF && c != CR && s.rx.isDataAMotionEvent ==> r.state.rx.inputPosition == s.rx.inputPosition + 1
    // the acknowledgment flag is only ever raised, and only by `rec` at the line's start
    ensures r.state.tx.isReadyToSendNextConfig <==>
      s.tx.isReadyToSendNextConfig || (c != LF && c != CR && s.rx.isDataAMotionEvent && Acknowledges(s.rx, c))
  {
    if c == LF then
      var publish := s.rx.isDataAMotionEvent && s.tx.allConfigsAreSent;
      Step(s.(rx := Reset(s.rx), lastMotionTime := if publish then now else s.lastMotionTime),
           if publish then LineRecord(s.rx) else [])
    else if !s.rx.isDataAMotionEvent then Step(s, [])
    else if c == CR then Step(s, [])
    else
      var tx := if Acknowledges(s.rx, c) then s.tx.(isReadyToSendNextConfig := true) else s.tx;
      Step(s.(rx := Accept(s.rx, c), tx := tx), [])
  }

  /** Every byte of `input` through `handle_char_`, in order (the drain loop of `loop`). */
  function FeedAll(s: State, input: seq<byte>, now: uint32): (r: Step)
    requires Inv(s)
    ensures Inv(r.state) && OnlyDecoderChanged(s, r.state)
    ensures forall e | e in r.events :: !e.Write?
    ensures LF !in input ==> r.events == []
    // the timestamp moves exactly when something is published
    ensures r.events == [] ==> r.state.lastMotionTime == s.lastMotionTime
    ensures r.events != [] ==> r.state.lastMotionTime == now
    ensures s.tx.isReadyToSendNextConfig ==> r.state.tx.isReadyToSendNextConfig
    decreases |input|
  {
    if input == [] then Step(s, [])
    else
      var r := FeedAll(s, input[..|input| - 1], now);
      var t := HandleChar(r.state, input[|input| - 1], now);
      Step(t.state, r.events + t.events)
  }

  /** The number of bytes other than `\r` (the bytes that take a position). */
  function NonCRCount(input: seq<byte>): (n: nat)
    ensures n <= |input|
    ensures n + multiset(input)[CR] == |input|
  {
    if input == [] then 0
    else
      assert input == input[..|input| - 1] + [input[|input| - 1]];
      NonCRCount(input[..|input| - 1]) + (if input[|input| - 1] == CR then 0 else 1)
  }

  lemma FeedOne(s: State, c: byte, now: uint32)
    requires Inv(s)
    ensures FeedAll(s, [c], now) == HandleChar(s, c, now)
  {
    assert [c][..0] == [];
  }

  /** Feeding `x + y` is feeding `x`, then `y` from where `x` left off. */
  lemma {:induction false} FeedAllAppend(s: State, x: seq<byte>, y: seq<byte>, now: uint32)
    requires Inv(s)
    ensures var rx := FeedAll(s, x, now); var ry := FeedAll(rx.state, y, now);
      FeedAll(s, x + y, now) == Step(ry.state, rx.events + ry.events)
    decreases |y|
  {
    var rx := FeedAll(s, x, now);
    if y == [] {
      assert x + y == x;
      assert FeedAll(rx.state, y, now) == Step(rx.state, []);
      assert rx.events + [] == rx.events;
    } else {
      var y', c := y[..|y| - 1], y[|y| - 1];
      assert (x + y)[..|x + y| - 1] == x + y';
      assert (x + y)[|x + y| - 1] == c;
      FeedAllAppend(s, x, y', now);
      var ry' := FeedAll(rx.state, y', now);
      var h := HandleChar(ry'.state, c, now);
      assert FeedAll(s, x + y', now) == Step(ry'.state, rx.events + ry'.events);
      assert FeedAll(rx.state, y, now) == Step(h.state, ry'.events + h.events);
      assert FeedAll(s, x + y, now) == Step(h.state, (rx.events + ry'.events) + h.events);
      assert (rx.events + ry'.events) + h.events == rx.events + (ry'.events + h.events);
    }
  }

  /** Feeding one byte and then the rest. */
  lemma FeedCons(s: State, c: byte, rest: seq<byte>, now: uint32)
    requires Inv(s)
    ensures var h := HandleChar(s, c, now); var rr := FeedAll(h.state, rest, now);
      FeedAll(s, [c] + rest, now) == Step(rr.state, h.events + rr.events)
  {
    FeedAllAppend(s, [c], rest, now);
    FeedOne(s, c, now);
  }

  /** While a line is rejected, no byte but `\n` changes anything. */
  lemma {:induction false} IgnoredWhileRejected(s: State, input: seq<byte>, now: uint32)
    requires Inv(s) && !s.rx.isDataAMotionEvent && LF !in input
    ensures FeedAll(s, input, now) == Step(s, [])
    decreases |input|
  {
    if input != [] {
      IgnoredWhileRejected(s, input[..|input| - 1], now);
    }
  }

  /** A rejected line is discarded at its `\n`: nothing is published, the
      timestamp stays, and the decoder starts the next line afresh. */
  lemma RejectedLineDiscarded(s: State, rest: seq<byte>, now: uint32)
    requires Inv(s) && !s.rx.isDataAMotionEvent && LF !in rest
    ensures var r := FeedAll(s, rest + [LF], now);
      r.events == [] && r.state == s.(rx := Reset(s.rx))
  {
    FeedAllAppend(s, rest, [LF], now);
    IgnoredWhileRejected(s, rest, now);
    FeedOne(s, LF, now);
  }

  /** The first three bytes of a line classify it: `mov` and `occ` set their
      flag, anything else (`rec` included) rejects the line, and `rec` also
      raises the acknowledgment flag. */
  lemma TypeToken(s: State, t: seq<byte>, now: uint32)
    requires Inv(s) && AtLineStart(s.rx)
    requires |t| == 3 && CR !in t && LF !in t
    ensures var r := FeedAll(s, t, now);
      && r.events == []
      && r.state.rx.inputPosition == 3
      && r.state.rx.isMovement == (t == MovementText)
      && r.state.rx.isOccupancy == (t == OccupancyText)
      && r.state.rx.isDataAMotionEvent == (t == MovementText || t == OccupancyText)
      && r.state.rx.distance == s.rx.distance
      && r.state.tx.isReadyToSendNextConfig == (s.tx.isReadyToSendNextConfig || t == ConfigReceivedText)
      && r.state.lastMotionTime == s.lastMotionTime
  {
    FeedCons(s, t[0], t[1..], now);
    var s1 := HandleChar(s, t[0], now).state;
    FeedCons(s1, t[1], t[2..], now);
    var s2 := HandleChar(s1, t[1], now).state;
    FeedOne(s2, t[2], now);
    assert t[1..] == [t[1]] + t[2..];
    assert t[2..] == [t[2]];
    assert t == [t[0]] + t[1..];
    assert s2.rx.motionType[2 := t[2]] == t;
  }

  /** Separator positions never reject a line, whatever their bytes. */
  lemma {:induction false} SeparatorBytes(s: State, sep: seq<byte>, now: uint32)
    requires Inv(s) && s.rx.isDataAMotionEvent && 3 <= s.rx.inputPosition && s.rx.inputPosition + |sep| <= 9
    requires CR !in sep && LF !in sep
    ensures var r := FeedAll(s, sep, now);
      && r.events == []
      && r.state.rx == s.rx.(centerValidation := r.state.rx.centerValidation, inputPosition := s.rx.inputPosition + |sep|)
      && r.state.tx == s.tx
      && r.state.lastMotionTime == s.lastMotionTime
    decreases |sep|
  {
    if sep != [] {
      SeparatorBytes(s, sep[..|sep| - 1], now);
    }
  }

  /** A digit at position 9, 11 or 12 adds its weight to the distance. */
  lemma DistanceDigit(s: State, c: byte, now: uint32)
    requires Inv(s) && s.rx.isDataAMotionEvent && s.rx.inputPosition in {9, 11, 12} && IsDigit(c)
    ensures var pos := s.rx.inputPosition;
      var w := if pos == 9 then 100 else if pos == 11 then 10 else 1;
      var d := if pos == 9 then 0 else s.rx.distance;
      HandleChar(s, c, now) == Step(s.(rx := s.rx.(inputPosition := pos + 1, distance := d + w * CharToInt(c))), [])
  {
  }

  /** Feeding `x` and then one more byte (the definition of FeedAll, named). */
  lemma FeedSnoc(s: State, x: seq<byte>, c: byte, now: uint32)
    requires Inv(s)
    ensures var r := FeedAll(s, x, now); var h := HandleChar(r.state, c, now);
      FeedAll(s, x + [c], now) == Step(h.state, r.events + h.events)
  {
    assert (x + [c])[..|x|] == x;
  }

  /** Feeding four bytes is four steps of `handle_char_`. */
  lemma FeedFour(s: State, c0: byte, c1: byte, c2: byte, c3: byte, now: uint32)
    requires Inv(s)
    ensures var h0 := HandleChar(s, c0, now); var h1 := HandleChar(h0.state, c1, now);
      var h2 := HandleChar(h1.state, c2, now); var h3 := HandleChar(h2.state, c3, now);
      FeedAll(s, [c0, c1, c2, c3], now) == Step(h3.state, h0.events + h1.events + h2.events + h3.events)
  {
    FeedOne(s, c0, now);
    FeedSnoc(s, [c0], c1, now);
    assert [c0] + [c1] == [c0, c1];
    FeedSnoc(s, [c0, c1], c2, now);
    assert [c0, c1] + [c2] == [c0, c1, c2];
    FeedSnoc(s, [c0, c1, c2], c3, now);
    assert [c0, c1, c2] + [c3] == [c0, c1, c2, c3];
  }

  /** The four distance bytes `a.bc` of an acceptable line give 100a+10b+c
      hundredths. */
  lemma DistanceBytes(s: State, a: byte, b: byte, c: byte, now: uint32)
    requires Inv(s) && s.rx.isDataAMotionEvent && s.rx.inputPosition == 9
    requires IsDigit(a) && IsDigit(b) && IsDigit(c)
    ensures var r := FeedAll(s, [a, Dot, b, c], now);
      && r.events == []
      && r.state.rx == s.rx.(inputPosition := 13, distance := 100 * CharToInt(a) + 10 * CharToInt(b) + CharToInt(c))
      && r.state.tx == s.tx
      && r.state.lastMotionTime == s.lastMotionTime
  {
    var h0 := HandleChar(s, a, now);
    DistanceDigit(s, a, now);
    var h1 := HandleChar(h0.state, Dot, now);
    assert h1 == Step(h0.state.(rx := h0.state.rx.(inputPosition := 11)), []);
    var h2 := HandleChar(h1.state, b, now);
    DistanceDigit(h1.state, b, now);
    var h3 := HandleChar(h2.state, c, now);
    DistanceDigit(h2.state, c, now);
    FeedFour(s, a, Dot, b, c, now);
  }

  /** A motion line's 13 bytes from a line start: the type token, any six
      separator bytes, and `a.bc`. */
  function MotionLine(kind: seq<byte>, sep: seq<byte>, a: byte, b: byte, c: byte): seq<byte> {
    kind + sep + [a, Dot, b, c]
  }

  /** The record `mov, dis=a.bc` or `occ, dis=a.bc` builds before its line
      ends. The separator is not checked, so any six bytes there do. */
  lemma MotionLineDecoded(s: State, kind: seq<byte>, sep: seq<byte>, a: byte, b: byte, c: byte, now: uint32)
    requires Inv(s) && AtLineStart(s.rx)
    requires kind == MovementText || kind == OccupancyText
    requires |sep| == 6 && CR !in sep && LF !in sep
    requires IsDigit(a) && IsDigit(b) && IsDigit(c)
    ensures var r := FeedAll(s, MotionLine(kind, sep, a, b, c), now);
      && r.events == []
      && r.state.rx.isDataAMotionEvent
      && r.state.rx.inputPosition == 13
      && r.state.rx.isMovement == (kind == MovementText)
      && r.state.rx.isOccupancy == (kind == OccupancyText)
      && r.state.rx.distance == 100 * CharToInt(a) + 10 * CharToInt(b) + CharToInt(c)
      && r.state.tx == s.tx
      && r.state.lastMotionTime == s.lastMotionTime
  {
    assert CR !in kind && LF !in kind;
    TypeToken(s, kind, now);
    var s3 := FeedAll(s, kind, now).state;
    SeparatorBytes(s3, sep, now);
    var s9 := FeedAll(s3, sep, now).state;
    DistanceBytes(s9, a, b, c, now);
    FeedAllAppend(s, kind, sep, now);
    FeedAllAppend(s, kind + sep, [a, Dot, b, c], now);
  }

  /** The record a well-formed motion line publishes. */
  function PublishedRecord(kind: seq<byte>, a: byte, b: byte, c: byte): seq<Event> {
    [ PublishMotion(true), PublishMovement(kind == MovementText), PublishOccupancy(kind == OccupancyText),
      PublishDistance(100 * CharToInt(a) + 10 * CharToInt(b) + CharToInt(c)) ]
  }

  /** At its `\r\n` a well-formed motion line publishes its record and
      refreshes the timestamp, once the configuration is sent; before that it
      is decoded and dropped. */
  lemma MotionLinePublished(s: State, kind: seq<byte>, sep: seq<byte>, a: byte, b: byte, c: byte, now: uint32)
    requires Inv(s) && AtLineStart(s.rx)
    requires kind == MovementText || kind == OccupancyText
    requires |sep| == 6 && CR !in sep && LF !in sep
    requires IsDigit(a) && IsDigit(b) && IsDigit(c)
    ensures var r := FeedAll(s, MotionLine(kind, sep, a, b, c) + [CR, LF], now);
      && r.events == (if s.tx.allConfigsAreSent then PublishedRecord(kind, a, b, c) else [])
      && r.state.lastMotionTime == (if s.tx.allConfigsAreSent then now else s.lastMotionTime)
      && AtLineStart(r.state.rx)
      && r.state.tx == s.tx
  {
    var line := MotionLine(kind, sep, a, b, c);
    MotionLineDecoded(s, kind, sep, a, b, c, now);
    FeedSnoc(s, line, CR, now);
    assert HandleChar(FeedAll(s, line, now).state, CR, now) == Step(FeedAll(s, line, now).state, []);
    FeedSnoc(s, line + [CR], LF, now);
    assert line + [CR] + [LF] == line + [CR, LF];
  }

  /** The same well-formed line fed twice publishes the same record twice:
      nothing of one line carries into the next. */
  lemma RepeatedLineSameRecord(s: State, kind: seq<byte>, sep: seq<byte>, a: byte, b: byte, c: byte, now1: uint32, now2: uint32)
    requires Inv(s) && AtLineStart(s.rx) && s.tx.allConfigsAreSent
    requires kind == MovementText || kind == OccupancyText
    requires |sep| == 6 && CR !in sep && LF !in sep
    requires IsDigit(a) && IsDigit(b) && IsDigit(c)
    ensures var line := MotionLine(kind, sep, a, b, c) + [CR, LF];
      var r1 := FeedAll(s, line, now1);
      var r2 := FeedAll(r1.state, line, now2);
      r1.events == r2.events == PublishedRecord(kind, a, b, c)
  {
    MotionLinePublished(s, kind, sep, a, b, c, now1);
    var r1 := FeedAll(s, MotionLine(kind, sep, a, b, c) + [CR, LF], now1);
    MotionLinePublished(r1.state, kind, sep, a, b, c, now2);
  }

  /** A line whose type token is neither `mov` nor `occ` publishes nothing
      and leaves the timestamp alone; if the token is `rec` it raises the
      acknowledgment flag. */
  lemma UnknownTypeNotPublished(s: State, t: seq<byte>, rest: seq<byte>, now: uint32)
    requires Inv(s) && AtLineStart(s.rx)
    requires |t| == 3 && CR !in t && LF !in t && t != MovementText && t != OccupancyText
    requires LF !in rest
    ensures var r := FeedAll(s, t + rest + [LF], now);
      && r.events == []
      && r.state.lastMotionTime == s.lastMotionTime
      && AtLineStart(r.state.rx)
      && r.state.tx.isReadyToSendNextConfig == (s.tx.isReadyToSendNextConfig || t == ConfigReceivedText)
  {
    TypeToken(s, t, now);
    var s3 := FeedAll(s, t, now).state;
    RejectedLineDiscarded(s3, rest, now);
    FeedAllAppend(s, t, rest + [LF], now);
    assert t + rest + [LF] == t + (rest + [LF]);
  }

  /** A `rec...` line (the radar's "received message") acknowledges the last
      command and is never published. */
  lemma AcknowledgmentLine(s: State, rest: seq<byte>, now: uint32)
    requires Inv(s) && AtLineStart(s.rx) && LF !in rest
    ensures var r := FeedAll(s, ConfigReceivedText + rest + [LF], now);
      && r.events == []
      && r.state.tx == s.tx.(isReadyToSendNextConfig := true)
      && r.state.lastMotionTime == s.lastMotionTime
      && AtLineStart(r.state.rx)
  {
    UnknownTypeNotPublished(s, ConfigReceivedText, rest, now);
  }

  /** From position 9 on, a byte keeps the line acceptable exactly when it
      is a digit at 9, 11 or 12, or the '.' at 10. */
  lemma PositionalCheck(s: State, c: byte, now: uint32)
    requires Inv(s) && s.rx.isDataAMotionEvent && s.rx.inputPosition >= 9 && c != LF && c != CR
    ensures HandleChar(s, c, now).state.rx.isDataAMotionEvent <==>
      (s.rx.inputPosition in {9, 11, 12} && IsDigit(c)) || (s.rx.inputPosition == 10 && c == Dot)
  {
  }

  /** A byte rejected at positions 9 to 13 discards its whole line:
      nothing is published and the timestamp stays. */
  lemma RejectedByteDiscardsLine(s: State, c: byte, rest: seq<byte>, now: uint32)
    requires Inv(s) && s.rx.isDataAMotionEvent && s.rx.inputPosition >= 9 && c != LF && c != CR
    requires !((s.rx.inputPosition in {9, 11, 12} && IsDigit(c)) || (s.rx.inputPosition == 10 && c == Dot))
    requires LF !in rest
    ensures var r := FeedAll(s, [c] + rest + [LF], now);
      r.events == [] && r.state.lastMotionTime == s.lastMotionTime && AtLineStart(r.state.rx)
  {
    PositionalCheck(s, c, now);
    var s1 := HandleChar(s, c, now).state;
    RejectedLineDiscarded(s1, rest, now);
    FeedCons(s, c, rest + [LF], now);
    assert [c] + rest + [LF] == [c] + (rest + [LF]);
  }

  /** On an acceptable line the position counts the bytes other than `\r`. */
  lemma {:induction false} PositionCountsBytes(s: State, input: seq<byte>, now: uint32)
    requires Inv(s) && LF !in input
    requires FeedAll(s, input, now).state.rx.isDataAMotionEvent
    ensures FeedAll(s, input, now).state.rx.inputPosition == s.rx.inputPosition + NonCRCount(input)
    decreases |input|
  {
    if input != [] {
      var prefix := input[..|input| - 1];
      var r := FeedAll(s, prefix, now);
      if !r.state.rx.isDataAMotionEvent {
        // a rejected line stays rejected, contradicting the requirement
        assert false;
      }
      PositionCountsBytes(s, prefix, now);
    }
  }

  /** A line with 14 or more bytes besides `\r` is rejected, whatever they are,
      and publishes nothing at its `\n`. */
  lemma OverlongLineRejected(s: State, input: seq<byte>, now: uint32)
    requires Inv(s) && AtLineStart(s.rx) && LF !in input && NonCRCount(input) >= MaxLinePosition
    ensures !FeedAll(s, input, now).state.rx.isDataAMotionEvent
    ensures var r := FeedAll(s, input + [LF], now);
      r.events == [] && r.state.lastMotionTime == s.lastMotionTime
  {
    var r := FeedAll(s, input, now);
    if r.state.rx.isDataAMotionEvent {
      PositionCountsBytes(s, input, now);
      assert false;
    }
    FeedAllAppend(s, input, [LF], now);
    FeedOne(r.state, LF, now);
  }

  /** Fewer than three bytes besides `\r` never reach the type check. */
  lemma {:induction false} ShortPrefix(s: State, input: seq<byte>, now: uint32)
    requires Inv(s) && AtLineStart(s.rx) && LF !in input && NonCRCount(input) < 3
    ensures var r := FeedAll(s, input, now);
      && r.events == []
      && r.state.rx == s.rx.(motionType := r.state.rx.motionType, inputPosition := NonCRCount(input))
      && r.state.tx == s.tx
    decreases |input|
  {
    if input != [] {
      ShortPrefix(s, input[..|input| - 1], now);
    }
  }

  /** A line of fewer than three bytes besides `\r` is still acceptable at
      its `\n`: once configured it publishes "no motion" with the distance of
      an earlier line, and refreshes the timestamp. */
  lemma ShortLineAccepted(s: State, input: seq<byte>, now: uint32)
    requires Inv(s) && AtLineStart(s.rx) && LF !in input && NonCRCount(input) < 3
    ensures var r := FeedAll(s, input + [LF], now);
      && r.events == (if s.tx.allConfigsAreSent
                      then [PublishMotion(false), PublishMovement(false), PublishOccupancy(false), PublishDistance(s.rx.distance)]
                      else [])
      && r.state.lastMotionTime == (if s.tx.allConfigsAreSent then now else s.lastMotionTime)
  {
    ShortPrefix(s, input, now);
    var r := FeedAll(s, input, now);
    FeedAllAppend(s, input, [LF], now);
    FeedOne(r.state, LF, now);
  }
}
