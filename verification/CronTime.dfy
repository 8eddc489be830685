/**
  Time as the controller handles it, and cron schedules by their contract.
 */
module CronTime {
  /** Nanoseconds since the zero time; the zero time itself doubles as "no time". */
  type Instant = int

  const ZERO_TIME: Instant := 0
  const SECOND := 1_000_000_000
  const MIN_INT64 := -0x8000_0000_0000_0000
  const MAX_INT64 := 0x7FFF_FFFF_FFFF_FFFF

  /** A product of int64 durations wraps around. */
  function Wrap64(x: int): (w: int)
    ensures MIN_INT64 <= w <= MAX_INT64
    ensures MIN_INT64 <= x <= MAX_INT64 ==> w == x
  {
    (x - MIN_INT64) % 0x1_0000_0000_0000_0000 + MIN_INT64
  }

  /** The difference of two instants, as a duration that saturates. */
  function Since(later: Instant, earlier: Instant): int {
    var d := later - earlier;
    if d > MAX_INT64 then MAX_INT64 else if d < MIN_INT64 then MIN_INT64 else d
  }

  lemma WrapBounds(x: int)
    requires x >= 0
    ensures Wrap64(x) <= x
    ensures Wrap64(x) != MIN_INT64 ==> Wrap64(-x) == -Wrap64(x)
    ensures Wrap64(x) == MIN_INT64 ==> Wrap64(-x) == MIN_INT64
  {
  }

  // ----- schedules -----

  /** Next(t): the next time the schedule is activated after t. */
  type Schedule = Instant -> Instant

  /** The contract of a cron schedule that never dries up: Next(t) is the least point after t, on a whole second. */
  ghost predicate Lawful(next: Schedule) {
    && (forall t :: t < next(t) && next(t) % SECOND == 0)
    && (forall s, t {:trigger NoneBetween(next, s, t)} :: NoneBetween(next, s, t))
  }

  /** No point is skipped: from anywhere before Next(s), Next leads to the same point. */
  ghost predicate NoneBetween(next: Schedule, s: Instant, t: Instant) {
    s <= t < next(s) ==> next(t) == next(s)
  }

  ghost predicate IsPoint(next: Schedule, p: Instant) {
    next(p - 1) == p
  }

  /** The schedule points in (lo, hi]. */
  ghost function Points(next: Schedule, lo: Instant, hi: Instant): set<Instant> {
    set p: Instant | lo < p <= hi && IsPoint(next, p)
  }

  lemma NextIsLeastPoint(next: Schedule, t: Instant)
    requires Lawful(next)
    ensures IsPoint(next, next(t)) && t < next(t)
    ensures forall p :: t < p && IsPoint(next, p) ==> next(t) <= p
  {
    assert NoneBetween(next, t, next(t) - 1);
    forall p | t < p && IsPoint(next, p) ensures next(t) <= p {
      assert NoneBetween(next, t, p - 1);
    }
  }

  lemma PointsStep(next: Schedule, lo: Instant, hi: Instant)
    requires Lawful(next)
    ensures next(lo) > hi ==> Points(next, lo, hi) == {}
    ensures next(lo) <= hi ==> Points(next, lo, hi) == {next(lo)} + Points(next, next(lo), hi)
                               && next(lo) !in Points(next, next(lo), hi)
  {
    NextIsLeastPoint(next, lo);
  }

  lemma PointsNested(next: Schedule, lo: Instant, hi: Instant, lo': Instant, hi': Instant)
    requires lo' <= lo && hi <= hi'
    ensures Points(next, lo, hi) <= Points(next, lo', hi')
    ensures |Points(next, lo, hi)| <= |Points(next, lo', hi')|
  {
    SubsetSize(Points(next, lo, hi), Points(next, lo', hi'));
  }

  lemma {:induction false} SubsetSize<A>(a: set<A>, b: set<A>)
    requires a <= b
    ensures |a| <= |b|
    ensures |a| == |b| ==> a == b
  {
    if a != {} {
      var x :| x in a;
      SubsetSize(a - {x}, b - {x});
    }
  }
}
