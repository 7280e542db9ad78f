/** `motion_timeout`: presence is cleared once the time since the last
    published line reaches the configured timeout, with the elapsed time
    taken in unsigned 32-bit arithmetic. */
module Presence {
  import opened RadarState

  /** What a timeout publishes: no motion, no movement, no occupancy. */
  const ClearedPresence: seq<Event> := [PublishMotion(false), PublishMovement(false), PublishOccupancy(false)]

  /** `millis() - last_motion_time_` on `uint32_t`: the difference wraps
      around when the clock has wrapped since `last`. */
  function Elapsed(now: uint32, last: uint32): (e: uint32)
    // the elapsed time is the one 32-bit value that, added to `last`, gives `now`
    ensures (last + e) % TwoTo32 == now
    ensures now >= last ==> e == now - last
  {
    if now >= last then now - last else now - last + TwoTo32
  }

  /** The `int` timeout as the comparison sees it, converted to `uint32_t`. */
  function AsUnsigned(timeout: int32): (u: uint32)
    ensures u % TwoTo32 == timeout % TwoTo32
    ensures timeout >= 0 ==> u == timeout
  {
    if timeout < 0 then timeout + TwoTo32 else timeout
  }

  /** The condition of `motion_timeout`. */
  predicate TimedOut(last: uint32, now: uint32, timeout: int32)
    // the 32-bit difference against the timeout reduced modulo 2^32
    ensures TimedOut(last, now, timeout) <==>
      last > 0 && (now - last) % TwoTo32 >= timeout % TwoTo32
  {
    ElapsedIsModular(now, last);
    last > 0 && Elapsed(now, last) >= AsUnsigned(timeout)
  }

  /** `motion_timeout` at time `now`: what it publishes. */
  function MotionTimeout(s: State, now: uint32): (events: seq<Event>)
    ensures events == [] || events == ClearedPresence
    ensures events == ClearedPresence <==>
      s.lastMotionTime > 0 && (now - s.lastMotionTime) % TwoTo32 >= s.settings.motionTimeout % TwoTo32
  {
    if TimedOut(s.lastMotionTime, now, s.settings.motionTimeout) then ClearedPresence else []
  }

  /** Elapsed time is the difference modulo 2^32. */
  lemma ElapsedIsModular(now: uint32, last: uint32)
    ensures Elapsed(now, last) == (now - last) % TwoTo32
  {
    var e := Elapsed(now, last);
    if now < last {
      assert now - last + TwoTo32 == e;
      assert 0 <= e < TwoTo32;
    }
  }

  /** Once timed out, still timed out `d` ms later, as long as the clock has
      not come round to `last` again. The clear is thus published on every
      poll until a line refreshes the timestamp. */
  lemma TimeoutPersists(last: uint32, now: uint32, d: nat, timeout: int32)
    requires TimedOut(last, now, timeout)
    requires Elapsed(now, last) + d < TwoTo32
    ensures TimedOut(last, (now + d) % TwoTo32, timeout)
    ensures Elapsed((now + d) % TwoTo32, last) == Elapsed(now, last) + d
  {
    var e := Elapsed(now, last);
    var later := (now + d) % TwoTo32;
    ElapsedIsModular(now, last);
    ElapsedIsModular(later, last);
    assert (last + e) % TwoTo32 == now;
    assert (last + e + d) % TwoTo32 == later;
    ElapsedUnique(later, last, e + d);
  }

  /** The elapsed time is the only 32-bit value that brings `last` to `now`. */
  lemma ElapsedUnique(now: uint32, last: uint32, e: int)
    requires 0 <= e < TwoTo32 && (last + e) % TwoTo32 == now
    ensures Elapsed(now, last) == e
  {
    if last + e < TwoTo32 {
      assert (last + e) % TwoTo32 == last + e;
    } else {
      assert (last + e) % TwoTo32 == last + e - TwoTo32;
    }
  }

  /** Across the 32-bit wrap of `millis()`, the elapsed time is still right:
      256 ms before the wrap to 256 ms after it is 512 ms. */
  lemma ElapsedAcrossWrap()
    ensures Elapsed(0x100, 0xFFFF_FF00) == 0x200
    ensures TimedOut(0xFFFF_FF00, 0x100, 500)
  {
  }

  /** A timestamp of 0 means "no line yet": nothing is cleared, whatever the time. */
  lemma NothingBeforeFirstLine(s: State, now: uint32)
    requires s.lastMotionTime == 0
    ensures MotionTimeout(s, now) == []
  {
  }

  /** A negative timeout converts to a huge unsigned one: presence is then
      only cleared once more than 2^31 ms (about 24.8 days) have elapsed. */
  lemma NegativeTimeout(last: uint32, now: uint32, timeout: int32)
    requires timeout < 0 && TimedOut(last, now, timeout)
    ensures Elapsed(now, last) >= 0x8000_0000
  {
  }

  /** With a line at 1000 ms and a timeout of 500 ms, polls at 1400, 1500
      and 1600 ms clear nothing, clear, and clear again. */
  lemma TimeoutExample(s: State)
    requires s.lastMotionTime == 1000 && s.settings.motionTimeout == 500
    ensures MotionTimeout(s, 1400) == []
    ensures MotionTimeout(s, 1500) == ClearedPresence
    ensures MotionTimeout(s, 1600) == ClearedPresence
  {
  }
}
