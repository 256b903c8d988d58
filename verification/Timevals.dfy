/** The timer arithmetic of lib/thread.c: seconds and microseconds, without the width of a C long. */
module Timevals {

  const SECOND_MICRO := 1000000

  datatype Timeval = Timeval(sec: int, usec: int)

  /** What the pair stands for, in microseconds. */
  function Micros(a: Timeval): int {
    a.sec * SECOND_MICRO + a.usec
  }

  /** The microsecond part is below one second, as a clock reading's is. */
  predicate Normal(a: Timeval) {
    0 <= a.usec < SECOND_MICRO
  }

  function Cmp(a: Timeval, b: Timeval): int {
    if a.sec == b.sec then a.usec - b.usec else a.sec - b.sec
  }

  /** The comparison by parts has the sign of the difference in time. */
  lemma CmpOrdersTime(a: Timeval, b: Timeval)
    requires Normal(a) && Normal(b)
    ensures Cmp(a, b) <= 0 <==> Micros(a) <= Micros(b)
    ensures Cmp(a, b) >= 0 <==> Micros(a) >= Micros(b)
  {
  }

  /** A negative time becomes ten microseconds, a time beyond the cap loses whole seconds,
      any other time keeps its value; the result is always normal. */
  method Adjust(a: Timeval) returns (r: Timeval)
    ensures Normal(r) && 0 <= r.sec <= SECOND_MICRO
    ensures Micros(a) < 0 ==> Micros(r) == 10
    ensures 0 <= Micros(a) < (SECOND_MICRO + 1) * SECOND_MICRO ==> Micros(r) == Micros(a)
    ensures (SECOND_MICRO + 1) * SECOND_MICRO <= Micros(a) ==>
              r.sec == SECOND_MICRO && (Micros(a) - Micros(r)) % SECOND_MICRO == 0 && Micros(r) < Micros(a)
  {
    r := a;
    while r.usec >= SECOND_MICRO
      invariant Micros(r) == Micros(a)
      invariant a.usec < 0 ==> r == a
      invariant a.usec >= 0 ==> r.usec >= 0
      decreases r.usec
    {
      r := Timeval(r.sec + 1, r.usec - SECOND_MICRO);
    }
    while r.usec < 0
      invariant Micros(r) == Micros(a)
      invariant r.usec < SECOND_MICRO
      decreases -r.usec
    {
      r := Timeval(r.sec - 1, r.usec + SECOND_MICRO);
    }
    if r.sec < 0 {
      r := Timeval(0, 10);
    }
    if r.sec > SECOND_MICRO {
      ghost var whole := r.sec - SECOND_MICRO;
      r := Timeval(SECOND_MICRO, r.usec);
      assert Micros(a) - Micros(r) == whole * SECOND_MICRO;
    }
  }

  method Subtract(a: Timeval, b: Timeval) returns (r: Timeval)
    ensures Normal(r) && 0 <= r.sec <= SECOND_MICRO
    ensures Micros(a) < Micros(b) ==> Micros(r) == 10
    ensures 0 <= Micros(a) - Micros(b) ==> Micros(r) <= Micros(a) - Micros(b)
    ensures 0 <= Micros(a) - Micros(b) < (SECOND_MICRO + 1) * SECOND_MICRO ==>
              Micros(r) == Micros(a) - Micros(b)
  {
    r := Adjust(Timeval(a.sec - b.sec, a.usec - b.usec));
  }

  /** The instant a delay after a clock reading; the part in microseconds is carried. */
  function Deadline(now: Timeval, delay: nat): (r: Timeval)
    requires Normal(now)
    ensures Normal(r) && Micros(r) == Micros(now) + delay
  {
    var usec := now.usec + delay % SECOND_MICRO;
    Timeval(now.sec + delay / SECOND_MICRO + usec / SECOND_MICRO, usec % SECOND_MICRO)
  }
}
