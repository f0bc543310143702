/**
 * Expiry selection (src/pricing/utils.py, src/pricing/price_sheet.py). An instant
 * is a whole number of microseconds since 1970-01-01 00:00 UTC, a Thursday.
 */
module Expiries {

  const HOUR := 3600000000
  const DAY := 86400000000
  const WEEK := 604800000000
  const FRIDAY := 4

  // ── The calendar ──

  function Day(t: int): int { t / DAY }

  /** datetime.weekday(): Monday is 0. */
  function Weekday(t: int): int { (Day(t) + 3) % 7 }

  /** 08:00 UTC on a day: replace(hour=8, minute=0, second=0, microsecond=0). */
  function EightOn(day: int): int { day * DAY + 8 * HOUR }

  predicate IsEight(t: int) { t == EightOn(Day(t)) }

  predicate IsFridayEight(t: int) { IsEight(t) && Weekday(t) == FRIDAY }

  // ── The program's functions ──

  function NextEight(after: int): int {
    var candidate := EightOn(Day(after));
    if candidate <= after then candidate + DAY else candidate
  }

  function NextFridayEight(after: int): int {
    var ahead := (FRIDAY - Weekday(after)) % 7;
    var days := if ahead == 0 && EightOn(Day(after)) <= after then 7 else ahead;
    EightOn(Day(after + days * DAY))
  }

  /** cutoff_hours_for_expiry, on whole seconds. */
  function CutoffHours(expiry: int, now: int, shortHours: int, standardHours: int): int {
    if expiry - now <= 48 * 3600 then shortHours else standardHours
  }

  /** The check of OTokenSpec.__post_init__, on whole seconds. */
  predicate Aligned(expiry: int) { expiry % 86400 == 28800 }

  // ── Minimality ──

  lemma DayOfEight(day: int)
    ensures Day(EightOn(day)) == day && IsEight(EightOn(day))
  {}

  lemma LaterEight(t: int, after: int)
    requires IsEight(t) && t > after
    ensures Day(t) >= Day(after) && (EightOn(Day(after)) <= after ==> Day(t) > Day(after))
  {}

  /** The first 08:00 strictly after an instant: it is one, it is later, and none is earlier. */
  lemma NextEightIsFirst(after: int)
    ensures IsEight(NextEight(after)) && NextEight(after) > after && NextEight(after) <= after + DAY
    ensures forall t :: IsEight(t) && t > after ==> NextEight(after) <= t
  {
    var today := Day(after);
    DayOfEight(today);
    DayOfEight(today + 1);
    assert EightOn(today) + DAY == EightOn(today + 1);
    forall t | IsEight(t) && t > after ensures NextEight(after) <= t {
      LaterEight(t, after);
    }
  }

  lemma DaysAhead(after: int)
    ensures var days := if Weekday(after) == FRIDAY && EightOn(Day(after)) > after then 0
                        else if Weekday(after) == FRIDAY then 7 else (FRIDAY - Weekday(after)) % 7;
            && 0 <= days <= 7 && NextFridayEight(after) == EightOn(Day(after) + days)
            && (Day(after) + days + 3) % 7 == FRIDAY
  {
    var ahead := (FRIDAY - Weekday(after)) % 7;
    assert Day(after + ahead * DAY) == Day(after) + ahead;
    assert Day(after + 7 * DAY) == Day(after) + 7;
  }

  /** The first Friday 08:00 strictly after an instant. */
  lemma NextFridayIsFirst(after: int)
    ensures IsFridayEight(NextFridayEight(after)) && NextFridayEight(after) > after && NextFridayEight(after) <= after + WEEK
    ensures forall t :: IsFridayEight(t) && t > after ==> NextFridayEight(after) <= t
  {
    var friday := NextFridayEight(after);
    DaysAhead(after);
    DayOfEight(Day(friday));
    forall t | IsFridayEight(t) && t > after ensures friday <= t {
      LaterEight(t, after);
      FridaysAreWeeksApart(t, friday);
    }
  }

  lemma FridaysAreWeeksApart(t: int, u: int)
    requires IsFridayEight(t) && IsFridayEight(u)
    ensures (t - u) % WEEK == 0 && (t > u ==> t >= u + WEEK)
  {
    assert (Day(t) - Day(u)) % 7 == 0;
    assert t - u == (Day(t) - Day(u)) * DAY;
  }

  // ── The selection ──

  /** Daily, near Friday, weekly and biweekly, in this order. */
  datatype Selection = Selection(daily: int, nearFriday: int, weekly: int, biweekly: int)

  function Select(now: int, shortHours: int, standardHours: int): Selection {
    var weekly := NextFridayEight(now + standardHours * HOUR);
    Selection(NextEight(now + shortHours * HOUR), NextFridayEight(now + shortHours * HOUR), weekly, weekly + WEEK)
  }

  /** The second Friday after the standard cutoff: no other lies between the two. */
  lemma BiweeklyIsSecond(now: int, standardHours: int)
    ensures var weekly := NextFridayEight(now + standardHours * HOUR);
            && IsFridayEight(weekly + WEEK)
            && (forall t :: IsFridayEight(t) && t > weekly ==> weekly + WEEK <= t)
  {
    hide NextFridayEight, IsFridayEight;
    NextFridayIsFirst(now + standardHours * HOUR);
    NextWeek(NextFridayEight(now + standardHours * HOUR));
  }

  lemma NextWeek(friday: int)
    requires IsFridayEight(friday)
    ensures IsFridayEight(friday + WEEK)
    ensures forall t :: IsFridayEight(t) && t > friday ==> friday + WEEK <= t
  {
    DayOfEight(Day(friday) + 7);
    assert friday + WEEK == EightOn(Day(friday) + 7);
    forall t | IsFridayEight(t) && t > friday ensures friday + WEEK <= t {
      FridaysAreWeeksApart(t, friday);
    }
  }

  const SHORT_HOURS := 4
  const STANDARD_HOURS := 48

  /**
   * With the shipped cutoffs the daily slot is never after the near Friday and always
   * before the weekly one, and the near Friday is the weekly one or the one before it.
   */
  lemma ShippedSelection(now: int)
    ensures var s := Select(now, SHORT_HOURS, STANDARD_HOURS);
            && s.daily <= s.nearFriday && s.daily < s.weekly < s.biweekly
            && (s.nearFriday == s.weekly || s.nearFriday == s.weekly - WEEK)
  {
    var near, far := now + SHORT_HOURS * HOUR, now + STANDARD_HOURS * HOUR;
    var s := Select(now, SHORT_HOURS, STANDARD_HOURS);
    NextEightIsFirst(near);
    NextFridayIsFirst(near);
    NextFridayIsFirst(far);
    assert s.nearFriday <= s.weekly;
    FridaysAreWeeksApart(s.weekly, s.nearFriday);
    assert s.weekly < s.nearFriday + 2 * WEEK;
    assert s.weekly - s.nearFriday == 0 || s.weekly - s.nearFriday == WEEK by {
      WeeksBelowTwo(s.weekly - s.nearFriday);
    }
  }

  lemma WeeksBelowTwo(d: int)
    requires d % WEEK == 0 && 0 <= d < 2 * WEEK
    ensures d == 0 || d == WEEK
  {}

  function Seconds(t: int): int { t / 1000000 }

  ghost predicate Increasing(r: seq<int>) { forall i, j :: 0 <= i < j < |r| ==> r[i] < r[j] }

  /** sorted({...}): the distinct items in order. */
  method SortDistinct(items: seq<int>) returns (r: seq<int>)
    ensures Increasing(r) && forall x :: x in r <==> x in items
  {
    r := [];
    for i := 0 to |items|
      invariant Increasing(r) && forall x :: x in r <==> x in items[..i]
    {
      r := InsertDistinct(r, items[i]);
      assert items[..i + 1] == items[..i] + [items[i]];
    }
    assert items[..|items|] == items;
  }

  method InsertDistinct(s: seq<int>, x: int) returns (r: seq<int>)
    requires Increasing(s)
    ensures Increasing(r) && forall y :: y in r <==> y == x || y in s
  {
    var k := 0;
    while k < |s| && s[k] < x
      invariant 0 <= k <= |s| && forall i :: 0 <= i < k ==> s[i] < x
    {
      k := k + 1;
    }
    assert s == s[..k] + s[k..];
    r := if k < |s| && s[k] == x then s else s[..k] + [x] + s[k..];
  }

  predicate Selected(s: Selection, t: int) { t == s.daily || t == s.nearFriday || t == s.weekly || t == s.biweekly }

  ghost predicate SelectedSecond(s: Selection, x: int) { exists t :: Selected(s, t) && x == Seconds(t) }

  /** get_expiries: the distinct instants of the selection in order, as whole seconds. */
  method GetExpiries(now: int, shortHours: int, standardHours: int) returns (r: seq<int>)
    ensures Increasing(r) && forall x :: x in r <==> SelectedSecond(Select(now, shortHours, standardHours), x)
    ensures forall i :: 0 <= i < |r| ==> Aligned(r[i])
  {
    hide NextFridayEight, NextEight, EightOn, Weekday;
    ghost var s := Select(now, shortHours, standardHours);
    var weekly := NextFridayEight(now + standardHours * HOUR);
    var daily := NextEight(now + shortHours * HOUR);
    var nearFriday := NextFridayEight(now + shortHours * HOUR);
    var instants := SortDistinct([daily, nearFriday, weekly, weekly + WEEK]);
    AllEights(now, shortHours, standardHours);
    forall i | 0 <= i < |instants| ensures IsEight(instants[i]) {
      assert instants[i] in instants;
    }
    r := Timestamps(instants);
    SecondsOfSelected(s, instants, r);
  }

  lemma SecondsOfSelected(s: Selection, instants: seq<int>, r: seq<int>)
    requires forall t :: t in instants <==> Selected(s, t)
    requires |r| == |instants| && forall i :: 0 <= i < |r| ==> r[i] == Seconds(instants[i])
    ensures forall x :: x in r <==> SelectedSecond(s, x)
  {
    forall x ensures x in r <==> SelectedSecond(s, x) {
      if x in r {
        var i :| 0 <= i < |r| && r[i] == x;
        assert Selected(s, instants[i]);
      }
      if SelectedSecond(s, x) {
        var t :| Selected(s, t) && x == Seconds(t);
        var i :| 0 <= i < |instants| && instants[i] == t;
        assert r[i] == x;
      }
    }
  }

  lemma AllEights(now: int, shortHours: int, standardHours: int)
    ensures var s := Select(now, shortHours, standardHours);
            IsEight(s.daily) && IsFridayEight(s.nearFriday) && IsFridayEight(s.weekly) && IsFridayEight(s.biweekly)
  {
    NextEightIsFirst(now + shortHours * HOUR);
    NextFridayIsFirst(now + shortHours * HOUR);
    NextFridayIsFirst(now + standardHours * HOUR);
    BiweeklyIsSecond(now, standardHours);
  }

  /** int(f.timestamp()) for each instant. */
  method Timestamps(instants: seq<int>) returns (r: seq<int>)
    requires forall i :: 0 <= i < |instants| ==> IsEight(instants[i])
    requires Increasing(instants)
    ensures |r| == |instants| && forall i :: 0 <= i < |r| ==> r[i] == Seconds(instants[i]) && Aligned(r[i])
    ensures Increasing(r)
  {
    r := [];
    for i := 0 to |instants|
      invariant |r| == i && forall j :: 0 <= j < i ==> r[j] == Seconds(instants[j]) && Aligned(r[j])
    {
      EightIsAligned(instants[i]);
      r := r + [Seconds(instants[i])];
    }
    forall i, j | 0 <= i < j < |r| ensures r[i] < r[j] {
      SecondsOfEights(instants[i], instants[j]);
    }
  }

  /** 08:00 UTC passes the alignment check; conversion to seconds loses nothing. */
  lemma EightIsAligned(t: int)
    requires IsEight(t)
    ensures Aligned(Seconds(t)) && Seconds(t) * 1000000 == t
  {
    assert t == (Day(t) * 86400 + 28800) * 1000000;
    assert Seconds(t) == Day(t) * 86400 + 28800;
  }

  lemma SecondsOfEights(t: int, u: int)
    requires IsEight(t) && IsEight(u) && t < u
    ensures Seconds(t) < Seconds(u)
  {
    EightIsAligned(t);
    EightIsAligned(u);
  }

  /** The selection in order, as whole seconds. */
  function SecondsInOrder(s: Selection): seq<int> {
    seq(|InOrder(s)|, i requires 0 <= i < |InOrder(s)| => Seconds(InOrder(s)[i]))
  }

  /** With the shipped cutoffs there are always three or four expiries, each past its own cutoff. */
  method ShippedExpiries(now: int) returns (r: seq<int>)
    ensures r == SecondsInOrder(Select(now, SHORT_HOURS, STANDARD_HOURS)) && 3 <= |r| <= 4 && Increasing(r)
    ensures forall i :: 0 <= i < |r| ==> r[i] % 86400 == 8 * 3600 && r[i] - Seconds(now) > 4 * 3600 && ClearsCutoff(r[i], Seconds(now))
  {
    r := GetExpiries(now, SHORT_HOURS, STANDARD_HOURS);
    hide NextFridayEight, NextEight;
    ghost var s := Select(now, SHORT_HOURS, STANDARD_HOURS);
    ShippedSelection(now);
    AllEights(now, SHORT_HOURS, STANDARD_HOURS);
    SecondsAreInOrder(s, r);
    forall i | 0 <= i < |r| ensures ClearsCutoff(r[i], Seconds(now)) && r[i] - Seconds(now) > 4 * 3600 {
      assert Selected(s, InOrder(s)[i]);
      SelectedClears(now, InOrder(s)[i]);
      ClearsCutoffIff(r[i], Seconds(now));
    }
  }

  /** The test generate_otoken_specs applies to an expiry at a given second. */
  predicate ClearsCutoff(expiry: int, nowSeconds: int) {
    expiry > nowSeconds + CutoffHours(expiry, nowSeconds, SHORT_HOURS, STANDARD_HOURS) * 3600
  }

  /** With the shipped cutoffs an expiry passes the test exactly when it is more than 4 hours away. */
  lemma ClearsCutoffIff(expiry: int, nowSeconds: int)
    ensures ClearsCutoff(expiry, nowSeconds) <==> expiry - nowSeconds > 4 * 3600
  {}

  /** An increasing list is determined by its elements. */
  lemma {:induction false} IncreasingUnique(a: seq<int>, b: seq<int>)
    requires Increasing(a) && Increasing(b) && forall x :: x in a <==> x in b
    ensures a == b
  {
    LastIsIn(a);
    LastIsIn(b);
    if a != [] && b != [] {
      var x, y := a[|a| - 1], b[|b| - 1];
      LastIsLargest(a, y);
      LastIsLargest(b, x);
      WithoutLast(a);
      WithoutLast(b);
      var a', b' := a[..|a| - 1], b[..|b| - 1];
      forall z ensures z in a' <==> z in b' {
        assert z in a' <==> z in a && z != x;
      }
      IncreasingUnique(a', b');
    }
  }

  lemma LastIsIn(a: seq<int>)
    ensures a != [] ==> a[|a| - 1] in a
  {}

  lemma LastIsLargest(a: seq<int>, y: int)
    requires Increasing(a) && y in a
    ensures y <= a[|a| - 1]
  {}

  lemma WithoutLast(a: seq<int>)
    requires Increasing(a) && a != []
    ensures a == a[..|a| - 1] + [a[|a| - 1]]
    ensures forall x :: x in a[..|a| - 1] <==> x in a && x != a[|a| - 1]
  {}

  /** The selection in order, without repeats. */
  function InOrder(s: Selection): seq<int> {
    if s.nearFriday == s.daily || s.nearFriday == s.weekly then [s.daily, s.weekly, s.biweekly]
    else [s.daily, s.nearFriday, s.weekly, s.biweekly]
  }

  lemma SecondsAreInOrder(s: Selection, r: seq<int>)
    requires s.daily <= s.nearFriday <= s.weekly && s.daily < s.weekly < s.biweekly
    requires IsEight(s.daily) && IsEight(s.nearFriday) && IsEight(s.weekly) && IsEight(s.biweekly)
    requires Increasing(r) && forall x :: x in r <==> SelectedSecond(s, x)
    ensures r == SecondsInOrder(s)
  {
    var instants, expected := InOrder(s), SecondsInOrder(s);
    forall t ensures t in instants <==> Selected(s, t) {}
    SecondsOfSelected(s, instants, expected);
    forall i, j | 0 <= i < j < |expected| ensures expected[i] < expected[j] {
      SecondsOfEights(instants[i], instants[j]);
    }
    IncreasingUnique(r, expected);
  }

  /** Every selected expiry clears the cutoff test, whichever cutoff applies to it. */
  lemma SelectedClears(now: int, instant: int)
    requires Selected(Select(now, SHORT_HOURS, STANDARD_HOURS), instant)
    ensures ClearsCutoff(Seconds(instant), Seconds(now))
  {
    var near := now + SHORT_HOURS * HOUR;
    var s := Select(now, SHORT_HOURS, STANDARD_HOURS);
    NextEightIsFirst(near);
    NextFridayIsFirst(near);
    NextFridayIsFirst(now + STANDARD_HOURS * HOUR);
    AllEights(now, SHORT_HOURS, STANDARD_HOURS);
    hide NextFridayEight, NextEight, IsFridayEight;
    assert instant > near;
    EightIsAligned(instant);
  }
}
