/** Time arithmetic of evutil.h on normalized values, and the rounding of poll.c. */
module TimeVal {
  const MILLION := 1_000_000

  datatype Time = Time(sec: int, usec: int)

  predicate Normal(t: Time) {
    0 <= t.usec < MILLION
  }

  function Micros(t: Time): int {
    t.sec * MILLION + t.usec
  }

  /** evutil_timeradd */
  function Add(t: Time, u: Time): (r: Time)
    ensures Micros(r) == Micros(t) + Micros(u)
    ensures Normal(t) && Normal(u) ==> Normal(r)
  {
    var usec := t.usec + u.usec;
    if usec >= MILLION then Time(t.sec + u.sec + 1, usec - MILLION) else Time(t.sec + u.sec, usec)
  }

  /** evutil_timersub */
  function Sub(t: Time, u: Time): (r: Time)
    ensures Micros(r) == Micros(t) - Micros(u)
    ensures Normal(t) && Normal(u) ==> Normal(r)
  {
    var usec := t.usec - u.usec;
    if usec < 0 then Time(t.sec - u.sec - 1, usec + MILLION) else Time(t.sec - u.sec, usec)
  }

  /** evutil_timercmp with < */
  predicate Less(t: Time, u: Time) {
    if t.sec == u.sec then t.usec < u.usec else t.sec < u.sec
  }

  /** Comparing field by field is comparing durations. */
  lemma {:induction false} LessIsLess(t: Time, u: Time)
    requires Normal(t) && Normal(u)
    ensures Less(t, u) <==> Micros(t) < Micros(u)
    ensures t == u <==> Micros(t) == Micros(u)
  {
  }

  /** The wait in milliseconds that poll_dispatch and devpoll_dispatch pass to the kernel. */
  function Millis(t: Time): int {
    t.sec * 1000 + (t.usec + 999) / 1000
  }

  /** Rounding never shortens the wait and adds less than a millisecond. */
  lemma {:induction false} MillisRoundsUp(t: Time)
    requires Normal(t)
    ensures 0 <= Millis(t) * 1000 - Micros(t) < 1000
  {
    assert (t.usec + 999) / 1000 * 1000 <= t.usec + 999 < (t.usec + 999) / 1000 * 1000 + 1000;
  }

  /** Moving all deadlines by the same amount keeps their order. */
  lemma {:induction false} ShiftKeepsOrder(t: Time, u: Time, off: Time)
    requires Normal(t) && Normal(u) && Normal(off)
    ensures Less(Sub(t, off), Sub(u, off)) <==> Less(t, u)
  {
    LessIsLess(t, u);
    LessIsLess(Sub(t, off), Sub(u, off));
  }
}
