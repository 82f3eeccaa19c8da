/** `timeRemoveMillis`: a timestamp cut down to whole seconds, used to
 *  compare times on filesystems without millisecond resolution.
 *  Timestamps are integer milliseconds since the epoch. */
module Utimes {

  /** The argument: a number, a Date (its `getTime()`), or anything else. */
  datatype TimeValue = Number(ms: int) | Date(time: int) | Other

  datatype Outcome = Returned(value: TimeValue) | Thrown

  const MillisPerSecond: int := 1000

  /** `Math.floor(t / 1000) * 1000`: the start of the second holding `t`. */
  function Truncate(t: int): (r: int)
    ensures r <= t < r + MillisPerSecond
    ensures r % MillisPerSecond == 0
  {
    (t / MillisPerSecond) * MillisPerSecond
  }

  /** A number gives a number, a Date a Date, anything else an error. */
  function TimeRemoveMillis(v: TimeValue): (r: Outcome)
    ensures r.Thrown? <==> v.Other?
    ensures v.Number? ==> r.value.Number? && r.value.ms <= v.ms < r.value.ms + MillisPerSecond
    ensures v.Number? ==> r.value.ms % MillisPerSecond == 0
    ensures v.Date? ==> r.value.Date? && r.value.time <= v.time < r.value.time + MillisPerSecond
    ensures v.Date? ==> r.value.time % MillisPerSecond == 0
  {
    match v
    case Number(t) => Returned(Number(Truncate(t)))
    case Date(t) => Returned(Date(Truncate(t)))
    case Other => Thrown
  }

  /** Two multiples of a second less than a second apart are ordered. */
  lemma MultiplesOrdered(x: int, y: int)
    requires x % MillisPerSecond == 0 && y % MillisPerSecond == 0
    requires x < y + MillisPerSecond
    ensures x <= y
  {
    assert x == MillisPerSecond * (x / MillisPerSecond) && y == MillisPerSecond * (y / MillisPerSecond);
  }

  /** The result is the greatest multiple of a second not after `t`. */
  lemma TruncateIsGreatest(t: int, m: int)
    requires m % MillisPerSecond == 0 && m <= t
    ensures m <= Truncate(t)
  {
    MultiplesOrdered(m, Truncate(t));
  }

  lemma TruncateMonotone(a: int, b: int)
    requires a <= b
    ensures Truncate(a) <= Truncate(b)
  {
    MultiplesOrdered(Truncate(a), Truncate(b));
  }

  /** Multiples of a second are kept as they are, so a second application
   *  changes nothing. */
  lemma TruncateFixesMultiples(t: int)
    requires t % MillisPerSecond == 0
    ensures Truncate(t) == t
  {
    MultiplesOrdered(t, Truncate(t));
  }

  lemma TimeRemoveMillisIdempotent(v: TimeValue)
    requires !v.Other?
    ensures TimeRemoveMillis(TimeRemoveMillis(v).value) == TimeRemoveMillis(v)
  {
    match v
    case Number(t) => TruncateFixesMultiples(Truncate(t));
    case Date(t) => TruncateFixesMultiples(Truncate(t));
  }

  /** A Date stands for the same instant as the number its `getTime()`
   *  returns. */
  lemma DateAgreesWithNumber(t: int)
    ensures TimeRemoveMillis(Date(t)).value.time == TimeRemoveMillis(Number(t)).value.ms
  {
  }
}
