/** How long the engines wait: the time to the first timer or the given timeout, whichever ends
    first, as a struct timeval for select and as an int of milliseconds for epoll. */
module Waits {
  import opened Basics
  import opened TimeVals
  import opened Schedule

  /** What the engines compute with: deadlines that are not past the clock reading `now`, and
      the timeout of iosocket_loop. */
  predicate Ahead(head: Option<TimeVal>, timeout: Option<TimeVal>, now: TimeVal) {
    && Normal(now)
    && (head.Some? ==> Carried(head.value) && !IsBigger(now, head.value))
    && (timeout.Some? ==> Normal(timeout.value) && timeout.value.sec >= 0)
  }

  /** The check in front of the wait establishes that: it triggers the timers whenever the head is
      past `now`, and the clock does not go back. */
  lemma CheckedBeforeWait<T>(q: seq<Entry<T>>, now: TimeVal, clock: nat -> TimeVal, bound: int)
    requires Runnable(q) && ValidClock(clock, bound) && Normal(now) && Micros(now) <= Micros(clock(0))
    ensures var rest := if q != [] && IsBigger(now, q[0].deadline) then Run(q, clock, 0, bound).rest else q;
      rest != [] ==> Ahead(Some(rest[0].deadline), None, now)
  {
    if q != [] && IsBigger(now, q[0].deadline) {
      RunLeavesNothingDue(q, clock, 0, bound);
      var o := Run(q, clock, 0, bound);
      if o.rest != [] {
        assert EntryOk(o.rest[0]);
        assert Micros(clock(0)) <= Micros(clock(o.readings - 1));
        BiggerThanClock(o.rest[0].deadline, now);
      }
    } else if q != [] {
      assert EntryOk(q[0]);
    }
  }

  // The gap to the first timer in microseconds.
  function Gap(head: TimeVal, now: TimeVal): int {
    Micros(head) - Micros(now)
  }

  /** The deadline has 1000000 microseconds, the reading none, and no smaller timeout is given. */
  predicate OutOfRange(head: Option<TimeVal>, timeout: Option<TimeVal>, now: TimeVal) {
    && head.Some? && head.value.usec == MILLION && now.usec == 0
    && (timeout.None? || !IsSmaller(timeout.value, TimeVal(head.value.sec - now.sec, MILLION)))
  }

  /** engine_select_loop, lines 75-92; None is a wait without end. */
  method SelectWait(head: Option<TimeVal>, timeout: Option<TimeVal>, now: TimeVal) returns (wait: Option<TimeVal>)
    requires Ahead(head, timeout, now)
    ensures wait.None? <==> head.None? && timeout.None?
    ensures wait.Some? ==> wait.value.sec >= 0 && Carried(wait.value)
    ensures wait.Some? ==>
      Micros(wait.value) == (if head.None? then Micros(timeout.value)
                             else if timeout.None? then Gap(head.value, now)
                             else Min(Micros(timeout.value), Gap(head.value, now)))
    // select may refuse 1000000 microseconds; this is when it is asked for them
    ensures wait.Some? ==>
      (Normal(wait.value) <==> !OutOfRange(head, timeout, now))
  {
    var tout := ZERO;
    if head.Some? {
      tout := head.value;
      tout := tout.(sec := tout.sec - now.sec);
      tout := tout.(usec := tout.usec - now.usec);
      if tout.usec < 0 {
        tout := tout.(sec := tout.sec - 1);
        tout := tout.(usec := tout.usec + MILLION);
      }
    }
    if timeout.Some? {
      if head.None? || IsSmaller(timeout.value, tout) {
        tout := TimeVal(timeout.value.sec, timeout.value.usec);
      }
      wait := Some(tout);
    } else if head.Some? {
      wait := Some(tout);
    } else {
      wait := None;
    }
  }

  // IOHANDLER_LOOP_MAXTIME
  const LOOP_MAXTIME: int := 100_000

  /** The timeout iosocket_loop makes of its argument. */
  function LoopTimeout(usec: nat): (t: TimeVal)
    ensures Normal(t) && t.sec >= 0 && Micros(t) == usec
  {
    TimeVal(usec / MILLION, usec % MILLION)
  }

  /** With the timeout of iohandler_run select is never asked for them. */
  lemma RunWaitsInRange(head: TimeVal, now: TimeVal)
    requires Ahead(Some(head), None, now)
    ensures !OutOfRange(Some(head), Some(LoopTimeout(100_000)), now)
  {
  }

  /** A call of iosocket_loop with more time can: 5 seconds, and a deadline at 1 second and 1000000
      microseconds. */
  lemma LoopWaitOutOfRange()
    ensures Ahead(Some(TimeVal(1, MILLION)), Some(LoopTimeout(5_000_000)), ZERO)
    ensures OutOfRange(Some(TimeVal(1, MILLION)), Some(LoopTimeout(5_000_000)), ZERO)
  {
  }

  const TWO_31: int := 0x8000_0000
  const TWO_32: int := 0x1_0000_0000

  /** The conversion of a long to an int. */
  function ToInt(x: int): (r: int)
    ensures -TWO_31 <= r < TWO_31
    ensures r == x <==> -TWO_31 <= x < TWO_31
  {
    (x + TWO_31) % TWO_32 - TWO_31
  }

  /** Division as in C. */
  function Quotient(a: int, b: int): int
    requires b > 0
  {
    if a >= 0 then a / b else -((-a) / b)
  }

  /** The milliseconds to the first timer before they are stored in an int. */
  function RawMsec(head: TimeVal, now: TimeVal): int {
    (head.sec - now.sec) * 1000 + Quotient(head.usec - now.usec, 1000)
  }

  /** They are never negative and less than 1 ms from the gap. */
  lemma RawMsecClose(head: TimeVal, now: TimeVal)
    requires Ahead(Some(head), None, now)
    ensures RawMsec(head, now) >= 0
    ensures -1000 < 1000 * RawMsec(head, now) - Gap(head, now) < 1000
  {
    var d := head.usec - now.usec;
    var a := if d >= 0 then d else -d;
    assert a == a / 1000 * 1000 + a % 1000;
  }

  // Storing the two parts one after the other is storing their sum.
  lemma ToIntSum(a: int, b: int)
    ensures ToInt(ToInt(a) + b) == ToInt(a + b)
  {
    var k := (a + TWO_31) / TWO_32;
    assert ToInt(a) == a - k * TWO_32;
    ToIntShift(a + b, k);
  }

  lemma ToIntShift(x: int, k: int)
    ensures ToInt(x - k * TWO_32) == ToInt(x)
  {
    var y := x + TWO_31;
    var q, r := y / TWO_32, y % TWO_32;
    assert y - k * TWO_32 == (q - k) * TWO_32 + r;
    RemainderUnique(y - k * TWO_32, q - k, r);
  }

  lemma RemainderUnique(y: int, q: int, r: int)
    requires y == q * TWO_32 + r && 0 <= r < TWO_32
    ensures y % TWO_32 == r
  {
  }

  /** The two ints merged. */
  function Merged(head: TimeVal, timeout: TimeVal, now: TimeVal): int {
    Min(ToInt(Micros(timeout) / 1000), ToInt(RawMsec(head, now)))
  }

  /** engine_epoll_loop, lines 81-91; epoll_wait takes any negative number as a wait without end. */
  method EpollWait(head: Option<TimeVal>, timeout: Option<TimeVal>, now: TimeVal) returns (msec: int)
    requires Ahead(head, timeout, now)
    ensures head.None? && timeout.None? ==> msec == -1
    ensures head.Some? && timeout.None? ==> msec == ToInt(RawMsec(head.value, now))
    ensures timeout.Some? && head.None? ==> msec == ToInt(Micros(timeout.value) / 1000)
    ensures timeout.Some? && head.Some? ==> msec == Merged(head.value, timeout.value, now)
  {
    msec := 0;
    if head.Some? {
      msec := ToInt((head.value.sec - now.sec) * 1000);
      ToIntSum((head.value.sec - now.sec) * 1000, Quotient(head.value.usec - now.usec, 1000));
      msec := ToInt(msec + Quotient(head.value.usec - now.usec, 1000));
    }
    if timeout.Some? {
      var msec2 := ToInt(timeout.value.sec * 1000 + Quotient(timeout.value.usec, 1000));
      assert Micros(timeout.value) / 1000 == timeout.value.sec * 1000 + timeout.value.usec / 1000;
      if head.None? || msec2 < msec {
        msec := msec2;
      }
    } else if head.None? {
      msec := -1;
    }
  }

  /** With a timeout, as iosocket_loop always gives one, the wait is the smaller of the two exactly
      if that one fits in an int and the other one, as an int, is not smaller still. Then it is not
      negative and less than 1 ms from what is to be waited. */
  lemma EpollWaitExactIff(head: TimeVal, timeout: TimeVal, now: TimeVal)
    requires Ahead(Some(head), Some(timeout), now)
    ensures var given, raw, msec := Micros(timeout) / 1000, RawMsec(head, now), Merged(head, timeout, now);
      var least, other := Min(given, raw), if given <= raw then raw else given;
      && (msec == least <==> least < TWO_31 && ToInt(other) >= least)
      && (msec == least ==> msec >= 0 && -1000 < 1000 * msec - Min(Micros(timeout), Gap(head, now)) < 1000)
  {
    RawMsecClose(head, now);
    assert ToInt(Micros(timeout) / 1000) == Micros(timeout) / 1000 || Micros(timeout) / 1000 >= TWO_31;
  }

  /** What a timeout of iosocket_loop, whose argument is an int, comes to: the wait is wrong exactly
      if the timer is 2^31 ms ahead or more and what is left of that in the int is smaller. */
  lemma LoopWaitExactIff(head: TimeVal, usec: nat, now: TimeVal)
    requires Ahead(Some(head), None, now) && usec < TWO_31
    ensures var given, raw := usec / 1000, RawMsec(head, now);
      Merged(head, LoopTimeout(usec), now) == Min(given, raw) <==> raw < TWO_31 || ToInt(raw) >= given
  {
    EpollWaitExactIff(head, LoopTimeout(usec), now);
    RawMsecClose(head, now);
  }

  /** A timer 30 days ahead makes epoll wait without end, whatever timeout is given; one 50 days
      ahead does not: the 100 ms of iohandler_run hold. */
  lemma ThirtyDaysWaitForever(now: TimeVal, timeout: TimeVal)
    requires Normal(now)
    ensures Ahead(Some(now.(sec := now.sec + 30 * 86400)), None, now)
    ensures Merged(now.(sec := now.sec + 30 * 86400), timeout, now) < 0
    ensures Merged(now.(sec := now.sec + 50 * 86400), LoopTimeout(LOOP_MAXTIME), now) == 100
  {
  }
}
