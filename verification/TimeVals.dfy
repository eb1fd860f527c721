/** Seconds/microseconds time values as `struct timeval` holds them, with the
    lexicographic comparison macros of IOInternal.h and the carry of the timer. */
module TimeVals {

  const MILLION: int := 1_000_000

  datatype TimeVal = TimeVal(sec: int, usec: int)

  const ZERO := TimeVal(0, 0)

  // timeval_is_bigger
  predicate IsBigger(x: TimeVal, y: TimeVal) {
    x.sec > y.sec || (x.sec == y.sec && x.usec > y.usec)
  }

  // timeval_is_smaler
  predicate IsSmaller(x: TimeVal, y: TimeVal) {
    x.sec < y.sec || (x.sec == y.sec && x.usec < y.usec)
  }

  function Micros(t: TimeVal): int {
    t.sec * MILLION + t.usec
  }

  // What gettimeofday returns.
  predicate Normal(t: TimeVal) {
    0 <= t.usec < MILLION
  }

  // What a deadline can be: the carry test is `>`, so 1000000 itself can stay.
  predicate Carried(t: TimeVal) {
    0 <= t.usec <= MILLION
  }

  /** The addition of _autoreload_timer, with its carry. The operands of the division
      are positive, so Dafny's operators agree with C's. */
  function Reload(t: TimeVal, period: TimeVal): (r: TimeVal)
    ensures Micros(r) == Micros(t) + Micros(period)
    ensures 0 <= t.usec + period.usec ==> Carried(r) && (Normal(r) <==> t.usec + period.usec != MILLION)
  {
    var sec := t.sec + period.sec;
    var usec := t.usec + period.usec;
    if usec > MILLION then TimeVal(sec + usec / MILLION, usec % MILLION) else TimeVal(sec, usec)
  }

  /** Against a clock reading the lexicographic test is exactly the order of the totals,
      even for a deadline whose microseconds are 1000000. */
  lemma BiggerThanClock(t: TimeVal, now: TimeVal)
    requires Carried(t) && Normal(now)
    ensures IsBigger(t, now) <==> Micros(t) > Micros(now)
  {
  }

  /** Between two deadlines it can only break ties of the totals. */
  lemma BiggerRefinesMicros(x: TimeVal, y: TimeVal)
    requires Carried(x) && Carried(y)
    ensures Micros(x) > Micros(y) ==> IsBigger(x, y)
    ensures IsBigger(x, y) ==> Micros(x) >= Micros(y)
  {
  }
}
