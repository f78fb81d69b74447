/**
 * `SendReminder._GetPotentialDates`: the dates of a teacher that fall in
 * the coming week, in ascending order.
 */
module Window {

  import opened Calendar
  import opened Sorting

  /** `(d - now).days`: whole days from `now` to `d`, rounded down as `timedelta` does. */
  function DaysUntil(now: Timestamp, d: Timestamp): (n: int)
    ensures n * MicrosPerDay <= Micros(d) - Micros(now) < (n + 1) * MicrosPerDay
    ensures n >= 0 <==> !Before(d, now)
  {
    BeforeIsChronological(d, now);
    (Micros(d) - Micros(now)) / MicrosPerDay
  }

  /**
   * The test of the filter loop, `diff_days >= 0 and diff_days <= 7`.
   * Since the day count is rounded down, it admits every instant from
   * `now` up to, but not including, eight days after `now`.
   */
  predicate InWindow(now: Timestamp, d: Timestamp)
    ensures InWindow(now, d) <==> Micros(now) <= Micros(d) < Micros(now) + 8 * MicrosPerDay
  {
    0 <= DaysUntil(now, d) <= 7
  }

  /** The dates of `dates` that pass the test, in their original order (the list the loop builds). */
  function Kept(now: Timestamp, dates: seq<Timestamp>): (r: seq<Timestamp>)
    ensures forall d :: d in r <==> d in dates && InWindow(now, d)
    ensures |r| <= |dates|
  {
    if dates == [] then []
    else
      var last := dates[|dates| - 1];
      assert dates == dates[..|dates| - 1] + [last];
      Kept(now, dates[..|dates| - 1]) + (if InWindow(now, last) then [last] else [])
  }

  /** How often each date occurs among the kept ones: as often as in the input if it passes, else never. */
  lemma {:induction false} KeptMultiplicity(now: Timestamp, dates: seq<Timestamp>, d: Timestamp)
    ensures multiset(Kept(now, dates))[d] == if InWindow(now, d) then multiset(dates)[d] else 0
  {
    if dates != [] {
      var init := dates[..|dates| - 1];
      assert dates == init + [dates[|dates| - 1]];
      KeptMultiplicity(now, init, d);
    }
  }

  /** `d <= e` on datetimes: `d` is not after `e`. */
  predicate NotAfter(d: Timestamp, e: Timestamp) {
    !Before(e, d)
  }

  /** Python's order on datetimes is total and antisymmetric, so `sorted` has one answer. */
  lemma NotAfterTotalOrder()
    ensures Total(NotAfter) && Transitive(NotAfter) && Antisymmetric(NotAfter)
  {
  }

  /** Ascending in Python's datetime order. */
  ghost predicate Ascending(s: seq<Timestamp>) {
    SortedBy(NotAfter, s)
  }

  /** The selected dates of `_GetPotentialDates`: those in the window, sorted. */
  function PotentialDates(now: Timestamp, dates: seq<Timestamp>): (r: seq<Timestamp>)
    ensures multiset(r) == multiset(Kept(now, dates))
  {
    NotAfterTotalOrder();
    Sort(NotAfter, Kept(now, dates))
  }

  /**
   * What the selection is: ascending, holding each input date in the
   * window exactly as often as the input does, and nothing else.
   */
  lemma PotentialDatesSpec(now: Timestamp, dates: seq<Timestamp>)
    ensures Ascending(PotentialDates(now, dates))
    ensures forall d :: multiset(PotentialDates(now, dates))[d] == if InWindow(now, d) then multiset(dates)[d] else 0
    ensures forall d :: d in PotentialDates(now, dates) <==> d in dates && InWindow(now, d)
  {
    var r := PotentialDates(now, dates);
    forall d ensures multiset(r)[d] == if InWindow(now, d) then multiset(dates)[d] else 0 {
      KeptMultiplicity(now, dates, d);
    }
    forall d ensures d in r <==> d in dates && InWindow(now, d) {
      assert d in r <==> d in multiset(r);
      assert d in Kept(now, dates) <==> d in multiset(Kept(now, dates));
    }
  }

  /** The selection is empty exactly when no date is in the window. */
  lemma PotentialDatesEmpty(now: Timestamp, dates: seq<Timestamp>)
    ensures PotentialDates(now, dates) == [] <==> forall d :: d in dates ==> !InWindow(now, d)
  {
    PotentialDatesSpec(now, dates);
    var r := PotentialDates(now, dates);
    if r != [] {
      assert r[0] in r;
    }
  }

  /** The selection depends only on which dates a teacher has, not on their order in the row. */
  lemma PotentialDatesIgnoreOrder(now: Timestamp, a: seq<Timestamp>, b: seq<Timestamp>)
    requires multiset(a) == multiset(b)
    ensures PotentialDates(now, a) == PotentialDates(now, b)
  {
    var ka, kb := Kept(now, a), Kept(now, b);
    forall d ensures multiset(ka)[d] == multiset(kb)[d] {
      KeptMultiplicity(now, a, d);
      KeptMultiplicity(now, b, d);
    }
    assert multiset(ka) == multiset(kb);
    PotentialDatesSpec(now, a);
    PotentialDatesSpec(now, b);
    NotAfterTotalOrder();
    SortedUnique(NotAfter, PotentialDates(now, a), PotentialDates(now, b));
  }

  /** Ascending in Python's order is ascending in time. */
  lemma AscendingIsChronological(s: seq<Timestamp>, i: int, j: int)
    requires Ascending(s) && 0 <= i < j < |s|
    ensures Micros(s[i]) <= Micros(s[j])
  {
    assert NotAfter(s[i], s[j]);
    BeforeIsChronological(s[j], s[i]);
  }

  /**
   * `_GetPotentialDates` as the script runs it: a loop appending the dates
   * that pass the test, then `sorted`.  `now` is the reading of the clock.
   */
  method GetPotentialDates(now: Timestamp, dates: seq<Timestamp>) returns (r: seq<Timestamp>)
    ensures r == PotentialDates(now, dates)
    ensures Ascending(r)
    ensures forall d :: d in r <==> d in dates && InWindow(now, d)
  {
    var potential: seq<Timestamp> := [];
    for k := 0 to |dates|
      invariant potential == Kept(now, dates[..k])
    {
      assert dates[..k + 1][..k] == dates[..k];
      if InWindow(now, dates[k]) {
        potential := potential + [dates[k]];
      }
    }
    assert dates[..|dates|] == dates;
    NotAfterTotalOrder();
    r := Sort(NotAfter, potential);
    PotentialDatesSpec(now, dates);
  }
}
