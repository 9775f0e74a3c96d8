/**
  The progress engine of the school-year tracker: how much of a fixed date
  window has elapsed, as a percentage clamped to [0, 100], and how many days
  are left until its end, clamped below at 0. Instants are integer
  milliseconds since the epoch; "now" is a parameter instead of a clock read.
 */
module ProgressEngine {
  import opened Numbers

  /** Milliseconds in a day: 1000 * 60 * 60 * 24. */
  const DayMs: int := 86_400_000

  /** 2025-09-01T00:00:00Z, the first day of the school year. */
  const SchoolStartMs: int := 1_756_684_800_000

  /** 2026-07-04T00:00:00Z, the start of the summer break. */
  const SchoolEndMs: int := 1_783_123_200_000

  /** What one refresh of the widget displays. */
  datatype Snapshot = Snapshot(percentage: real, daysRemaining: nat)

  /** `Math.ceil(ms / DayMs)`: the number of (started) days in a span of milliseconds. */
  function CeilDays(ms: int): (days: int)
    ensures (days - 1) * DayMs < ms <= days * DayMs
  {
    -((-ms) / DayMs)
  }

  /** Whole days of the window, rounded up. */
  function TotalDays(start: int, end: int): (days: int)
    requires start < end
    ensures days >= 1
  {
    CeilDays(end - start)
  }

  /** Days elapsed since the start of the window, rounded up (negative before it). */
  function ElapsedDays(start: int, now: int): (days: int)
    ensures (days - 1) * DayMs < now - start <= days * DayMs
    ensures days <= 0 <==> now <= start
  {
    CeilDays(now - start)
  }

  /**
    The displayed percentage: elapsed days over total days, times 100,
    clamped to [0, 100]. It is 0 exactly until the window starts, and 100
    exactly once the elapsed day count reaches the total (in particular from
    the end instant on).
   */
  function Percentage(start: int, end: int, now: int): (p: real)
    requires start < end
    ensures 0.0 <= p <= 100.0
    ensures p == 0.0 <==> now <= start
    ensures p == 100.0 <==> ElapsedDays(start, now) >= TotalDays(start, end)
    ensures now >= end ==> p == 100.0
  {
    var total := TotalDays(start, end);
    var elapsed := ElapsedDays(start, now);
    RatioBounds(elapsed, total);
    Max(0.0, Min(100.0, (elapsed as real / total as real) * 100.0))
  }

  /** Where the ratio of elapsed to total days crosses 0 and 100 percent. */
  lemma RatioBounds(elapsed: int, total: int)
    requires total >= 1
    ensures (elapsed as real / total as real) * 100.0 <= 0.0 <==> elapsed <= 0
    ensures (elapsed as real / total as real) * 100.0 >= 100.0 <==> elapsed >= total
  {
    var r := elapsed as real / total as real;
    assert r * total as real == elapsed as real;
    if r <= 0.0 {
      assert r * total as real <= 0.0;
    }
    if r >= 1.0 {
      assert r * total as real >= 1.0 * total as real;
    }
    if elapsed >= total {
      assert r * total as real >= total as real;
    }
  }

  /** Whole days left until the end of the window, never negative. */
  function DaysRemaining(end: int, now: int): (days: nat)
    ensures days == 0 <==> now >= end
    ensures now < end ==> (days - 1) * DayMs < end - now <= days * DayMs
  {
    MaxInt(0, CeilDays(end - now))
  }

  /** One refresh of the tracker for the hard-coded school year. */
  function UpdateProgress(now: int): (s: Snapshot)
    ensures 0.0 <= s.percentage <= 100.0
    ensures s.percentage == 0.0 <==> now <= SchoolStartMs
    ensures now >= SchoolEndMs ==> s.percentage == 100.0 && s.daysRemaining == 0
    ensures now < SchoolEndMs ==> s.daysRemaining > 0
  {
    Snapshot(Percentage(SchoolStartMs, SchoolEndMs, now), DaysRemaining(SchoolEndMs, now))
  }

  /** Rounding up to days never reverses the order of two spans. */
  lemma CeilDaysMonotone(a: int, b: int)
    requires a <= b
    ensures CeilDays(a) <= CeilDays(b)
  {
  }

  /** Dividing by a positive number keeps the order of two reals. */
  lemma DivideMonotone(a: real, b: real, t: real)
    requires t > 0.0 && a <= b
    ensures a / t <= b / t
  {
    assert b / t - a / t == (b - a) / t;
    assert (b - a) / t >= 0.0;
  }

  /** As time passes the percentage never goes down and the days left never go up. */
  lemma ProgressMonotone(start: int, end: int, now1: int, now2: int)
    requires start < end
    requires now1 <= now2
    ensures Percentage(start, end, now1) <= Percentage(start, end, now2)
    ensures DaysRemaining(end, now1) >= DaysRemaining(end, now2)
  {
    CeilDaysMonotone(now1 - start, now2 - start);
    CeilDaysMonotone(end - now2, end - now1);
    var total := TotalDays(start, end) as real;
    var e1 := ElapsedDays(start, now1) as real;
    var e2 := ElapsedDays(start, now2) as real;
    DivideMonotone(e1, e2, total);
    var r1, r2 := (e1 / total) * 100.0, (e2 / total) * 100.0;
    assert r1 <= r2;
    assert Percentage(start, end, now1) == Max(0.0, Min(100.0, r1));
    assert Percentage(start, end, now2) == Max(0.0, Min(100.0, r2));
  }

  /**
    The percentage is a step function: every instant within the same
    day-long step (start + (k-1) days, start + k days] shows the same value.
   */
  lemma PercentagePlateau(start: int, end: int, k: int, now1: int, now2: int)
    requires start < end
    requires start + (k - 1) * DayMs < now1 <= start + k * DayMs
    requires start + (k - 1) * DayMs < now2 <= start + k * DayMs
    ensures ElapsedDays(start, now1) == ElapsedDays(start, now2) == k
    ensures Percentage(start, end, now1) == Percentage(start, end, now2)
  {
    var e1 := ElapsedDays(start, now1);
    var e2 := ElapsedDays(start, now2);
    assert e1 == k by {
      assert (e1 - 1) * DayMs < now1 - start <= e1 * DayMs;
    }
    assert e2 == k by {
      assert (e2 - 1) * DayMs < now2 - start <= e2 * DayMs;
    }
  }

  /**
    Before the window starts at least the whole window's days remain; when
    the window is a whole number of days (as the school year is), strictly
    more.
   */
  lemma DaysRemainingBeforeStart(start: int, end: int, now: int)
    requires start < end
    requires now < start
    ensures DaysRemaining(end, now) >= TotalDays(start, end)
    ensures (end - start) % DayMs == 0 ==> DaysRemaining(end, now) > TotalDays(start, end)
  {
    CeilDaysMonotone(end - start, end - now);
    if (end - start) % DayMs == 0 {
      var total := TotalDays(start, end);
      assert end - start == total * DayMs;
      assert end - now > total * DayMs;
    }
  }

  /**
    Inside a window of whole days, the elapsed and the remaining day counts
    add up to the total at each day boundary and overlap by one day in
    between, since both are rounded up.
   */
  lemma ElapsedPlusRemaining(start: int, end: int, now: int)
    requires start < end
    requires start <= now <= end
    requires (end - start) % DayMs == 0
    ensures ElapsedDays(start, now) + DaysRemaining(end, now)
      == TotalDays(start, end) + (if (now - start) % DayMs == 0 then 0 else 1)
  {
    var total := TotalDays(start, end);
    var q, r := (now - start) / DayMs, (now - start) % DayMs;
    assert end - start == total * DayMs;
    assert now - start == q * DayMs + r;
    var elapsed := ElapsedDays(start, now);
    assert (elapsed - 1) * DayMs < q * DayMs + r <= elapsed * DayMs;
    assert elapsed == q + (if r == 0 then 0 else 1);
    var remaining := CeilDays(end - now);
    assert end - now == (total - q) * DayMs - r;
    assert (remaining - 1) * DayMs < (total - q) * DayMs - r <= remaining * DayMs;
    assert remaining == total - q;
  }

  /** The hard-coded school year spans exactly 306 days. */
  lemma SchoolYearLength()
    ensures SchoolEndMs - SchoolStartMs == 306 * DayMs
    ensures TotalDays(SchoolStartMs, SchoolEndMs) == 306
  {
  }

  /** On 2026-01-01T00:00:00Z, 122 of the 306 days have passed and 184 remain. */
  lemma NewYearSnapshot()
    ensures ElapsedDays(SchoolStartMs, 1_767_225_600_000) == 122
    ensures UpdateProgress(1_767_225_600_000) == Snapshot(6100.0 / 153.0, 184)
  {
    SchoolYearLength();
  }
}
