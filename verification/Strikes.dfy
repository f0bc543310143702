/**
 * Strike generation around the spot price (src/pricing/price_sheet.py). Prices are
 * exact reals, so a strike is a whole multiple of the step.
 */
module Strikes {
  import opened Arithmetic
  import opened Wrappers

  // ── Multiples of the step ──

  function At(k: int, step: real): real { k as real * step }

  lemma AtNext(k: int, step: real)
    ensures At(k + 1, step) == At(k, step) + step
  {}

  lemma {:induction false} AtMonotone(j: int, k: int, step: real)
    requires j < k && step > 0.0
    ensures At(j, step) < At(k, step)
    decreases k - j
  {
    AtNext(k - 1, step);
    if j < k - 1 {
      AtMonotone(j, k - 1, step);
    }
  }

  /** The n multiples from lo on: a strictly increasing progression without gaps. */
  function Progression(lo: int, n: nat, step: real): seq<real> {
    seq(n, i requires 0 <= i < n => At(lo + i, step))
  }

  lemma ProgressionIncreases(lo: int, n: nat, step: real)
    requires step > 0.0
    ensures forall i, j :: 0 <= i < j < n ==> Progression(lo, n, step)[i] < Progression(lo, n, step)[j]
    ensures forall i, j :: 0 <= i <= j < n ==> Progression(lo, n, step)[i] <= Progression(lo, n, step)[j]
    ensures forall i :: 0 <= i < n - 1 ==> Progression(lo, n, step)[i + 1] == Progression(lo, n, step)[i] + step
  {
    forall i, j | 0 <= i < j < n ensures Progression(lo, n, step)[i] < Progression(lo, n, step)[j] {
      AtMonotone(lo + i, lo + j, step);
    }
    forall i | 0 <= i < n - 1 ensures Progression(lo, n, step)[i + 1] == Progression(lo, n, step)[i] + step {
      AtNext(lo + i, step);
    }
  }

  /** Python's round: to the nearest integer, ties to the even one. */
  function Round(x: real): int {
    var f := x.Floor;
    var d := x - f as real;
    if d < 0.5 then f else if d > 0.5 then f + 1 else if f % 2 == 0 then f else f + 1
  }

  /** The index of the multiple of the step at the centre. */
  function Nearest(spot: real, step: real): int
    requires step > 0.0
  {
    Round(spot / step)
  }

  function Distance(x: real, y: real): real { if x <= y then y - x else x - y }

  /** No multiple of the step is nearer to the spot than the centre, and of two equally near ones it is the even one. */
  lemma CentreIsNearest(spot: real, step: real, k: int)
    requires step > 0.0
    ensures var c := Nearest(spot, step);
            && Distance(At(c, step), spot) <= Distance(At(k, step), spot)
            && (k != c && Distance(At(c, step), spot) == Distance(At(k, step), spot) ==> c % 2 == 0)
  {
    assert spot == (spot / step) * step;
    hide Distance, At, Round;
    RoundScaled(spot / step, step, k);
  }

  lemma RoundScaled(x: real, step: real, k: int)
    requires step > 0.0
    ensures Distance(At(Round(x), step), x * step) <= Distance(At(k, step), x * step)
    ensures k != Round(x) && Distance(At(Round(x), step), x * step) == Distance(At(k, step), x * step) ==> Round(x) % 2 == 0
  {
    RoundIsNearest(x, k);
    hide *;
    DistanceScaled(Round(x), x, step);
    DistanceScaled(k, x, step);
    CompareScaled(Distance(Round(x) as real, x), Distance(k as real, x), step);
  }

  lemma CompareScaled(a: real, b: real, step: real)
    requires step > 0.0 && a <= b
    ensures a * step <= b * step && (a * step == b * step ==> a == b)
  {
    Scaled(a, b, step);
  }

  lemma RoundIsNearest(x: real, k: int)
    ensures Distance(Round(x) as real, x) <= Distance(k as real, x)
    ensures k != Round(x) && Distance(Round(x) as real, x) == Distance(k as real, x) ==> Round(x) % 2 == 0
  {}

  lemma DistanceScaled(k: int, b: real, step: real)
    requires step > 0.0
    ensures Distance(At(k, step), b * step) == Distance(k as real, b) * step
  {
    var a := k as real;
    Scaled(a, b, step);
    Scaled(b, a, step);
    assert (b - a) * step == b * step - a * step;
    assert (a - b) * step == a * step - b * step;
  }

  /** The neighbours of the centre lie on either side of the spot. */
  lemma CentreEncloses(spot: real, step: real)
    requires step > 0.0
    ensures At(Nearest(spot, step) - 1, step) < spot < At(Nearest(spot, step) + 1, step)
  {
    var x := spot / step;
    var c := Round(x);
    assert x - 0.5 <= c as real <= x + 0.5;
    assert spot == x * step;
    AtAgainst(c - 1, x, step);
    AtAgainst(c + 1, x, step);
  }

  lemma AtAgainst(k: int, x: real, step: real)
    requires step > 0.0
    ensures k as real < x ==> At(k, step) < x * step
    ensures x < k as real ==> x * step < At(k, step)
  {
    Scaled(k as real, x, step);
    Scaled(x, k as real, step);
  }

  lemma Scaled(a: real, b: real, step: real)
    requires step > 0.0
    ensures a < b ==> a * step < b * step
  {}

  // ── Counting ──

  function Below(s: seq<real>, spot: real): nat {
    if s == [] then 0 else Below(s[..|s| - 1], spot) + if s[|s| - 1] < spot then 1 else 0
  }

  function Above(s: seq<real>, spot: real): nat {
    if s == [] then 0 else Above(s[..|s| - 1], spot) + if s[|s| - 1] > spot then 1 else 0
  }

  lemma {:induction false} CountsPrepend(x: real, s: seq<real>, spot: real)
    ensures Below([x] + s, spot) == Below(s, spot) + if x < spot then 1 else 0
    ensures Above([x] + s, spot) == Above(s, spot) + if x > spot then 1 else 0
  {
    if s == [] {
      assert ([x] + s)[..0] == [];
    } else {
      assert ([x] + s)[..|s|] == [x] + s[..|s| - 1];
      CountsPrepend(x, s[..|s| - 1], spot);
    }
  }

  lemma CountsAppend(s: seq<real>, x: real, spot: real)
    ensures Below(s + [x], spot) == Below(s, spot) + if x < spot then 1 else 0
    ensures Above(s + [x], spot) == Above(s, spot) + if x > spot then 1 else 0
  {
    assert (s + [x])[..|s|] == s;
  }

  // ── Sorting ──

  function Insert(x: real, s: seq<real>): seq<real> {
    if s == [] || s[|s| - 1] <= x then s + [x] else Insert(x, s[..|s| - 1]) + [s[|s| - 1]]
  }

  function Sorted(s: seq<real>): seq<real> {
    if s == [] then [] else Insert(s[|s| - 1], Sorted(s[..|s| - 1]))
  }

  lemma SortedAppend(s: seq<real>, x: real)
    ensures Sorted(s + [x]) == Insert(x, Sorted(s))
  {
    assert (s + [x])[..|s|] == s;
  }

  ghost predicate Ordered(s: seq<real>) { forall i, j :: 0 <= i < j < |s| ==> s[i] <= s[j] }

  ghost predicate AtMost(s: seq<real>, hi: real) { forall i :: 0 <= i < |s| ==> s[i] <= hi }

  /** Sorted is what it is called, for any list: an ordered rearrangement. */
  lemma {:induction false} SortedSorts(s: seq<real>)
    ensures Ordered(Sorted(s)) && multiset(Sorted(s)) == multiset(s)
  {
    if s != [] {
      var init, x := s[..|s| - 1], s[|s| - 1];
      SortedSorts(init);
      InsertKeepsOrder(x, Sorted(init));
      InsertAdds(x, Sorted(init));
      assert s == init + [x];
    }
  }

  lemma {:induction false} InsertStaysBelow(x: real, s: seq<real>, hi: real)
    requires AtMost(s, hi) && x <= hi
    ensures AtMost(Insert(x, s), hi)
  {
    if s != [] && s[|s| - 1] > x {
      InsertStaysBelow(x, s[..|s| - 1], hi);
    }
  }

  lemma {:induction false} InsertKeepsOrder(x: real, s: seq<real>)
    requires Ordered(s)
    ensures Ordered(Insert(x, s))
  {
    if s != [] && s[|s| - 1] > x {
      InsertKeepsOrder(x, s[..|s| - 1]);
      InsertStaysBelow(x, s[..|s| - 1], s[|s| - 1]);
    }
  }

  lemma {:induction false} InsertAdds(x: real, s: seq<real>)
    ensures multiset(Insert(x, s)) == multiset(s) + multiset{x}
  {
    if s != [] && s[|s| - 1] > x {
      InsertAdds(x, s[..|s| - 1]);
      assert s == s[..|s| - 1] + [s[|s| - 1]];
    }
  }

  lemma InsertLargest(x: real, s: seq<real>)
    requires s == [] || s[|s| - 1] <= x
    ensures Insert(x, s) == s + [x]
  {}

  lemma {:induction false} InsertSmallest(x: real, s: seq<real>)
    requires forall i :: 0 <= i < |s| ==> x < s[i]
    ensures Insert(x, s) == [x] + s
  {
    if s != [] {
      InsertSmallest(x, s[..|s| - 1]);
      assert s == s[..|s| - 1] + [s[|s| - 1]];
    }
  }

  // ── generate_strikes ──

  ghost predicate InProgress(strikes: seq<real>, lo: int, n: nat, step: real, spot: real) {
    && Sorted(strikes) == Progression(lo, n, step)
    && Below(strikes, spot) == Below(Progression(lo, n, step), spot)
    && Above(strikes, spot) == Above(Progression(lo, n, step), spot)
  }

  /** Extending downwards adds a strike below the spot and nothing above it. */
  lemma ExtendDown(strikes: seq<real>, lo: int, n: nat, step: real, spot: real)
    requires step > 0.0 && InProgress(strikes, lo, n, step, spot) && At(lo - 1, step) < spot
    ensures InProgress(strikes + [At(lo - 1, step)], lo - 1, n + 1, step, spot)
    ensures Below(strikes + [At(lo - 1, step)], spot) == Below(strikes, spot) + 1
    ensures Above(strikes + [At(lo - 1, step)], spot) == Above(strikes, spot)
  {
    hide Insert, Sorted, Below, Above;
    var x, p := At(lo - 1, step), Progression(lo, n, step);
    forall i | 0 <= i < n ensures x < p[i] {
      AtMonotone(lo - 1, lo + i, step);
    }
    SortedAppend(strikes, x);
    InsertSmallest(x, p);
    assert Progression(lo - 1, n + 1, step) == [x] + p;
    CountsPrepend(x, p, spot);
    CountsAppend(strikes, x, spot);
  }

  lemma ExtendUp(strikes: seq<real>, lo: int, n: nat, step: real, spot: real)
    requires step > 0.0 && InProgress(strikes, lo, n, step, spot)
    ensures InProgress(strikes + [At(lo + n, step)], lo, n + 1, step, spot)
    ensures At(lo + n, step) > spot ==> Above(strikes + [At(lo + n, step)], spot) == Above(strikes, spot) + 1
    ensures At(lo + n, step) > spot ==> Below(strikes + [At(lo + n, step)], spot) == Below(strikes, spot)
  {
    hide At, Insert, Sorted, Below, Above;
    var x, p := At(lo + n, step), Progression(lo, n, step);
    if n > 0 {
      AtMonotone(lo + n - 1, lo + n, step);
      assert p[n - 1] <= x;
    }
    SortedAppend(strikes, x);
    InsertLargest(x, p);
    assert Progression(lo, n + 1, step) == p + [x];
    CountsAppend(p, x, spot);
    CountsAppend(strikes, x, spot);
  }

  /** The index of the lowest centred strike. */
  function Lowest(spot: real, step: real, num: nat): int
    requires step > 0.0
  {
    Nearest(spot, step) - num / 2
  }

  lemma LowestMeans(spot: real, step: real, num: nat)
    requires step > 0.0 && num > 0
    ensures Lowest(spot, step, num) <= Nearest(spot, step) <= Lowest(spot, step, num) + num - 1
  {}

  /** The centred strikes: num of them around the nearest multiple. */
  function Centred(spot: real, step: real, num: nat): seq<real>
    requires step > 0.0
  {
    Progression(Lowest(spot, step, num), num, step)
  }

  method Centre(spot: real, step: real, num: nat) returns (strikes: seq<real>)
    requires step > 0.0 && num > 0
    ensures strikes == Centred(spot, step, num) && InProgress(strikes, Lowest(spot, step, num), num, step, spot)
  {
    hide At, InProgress;
    var center, half := Nearest(spot, step), num / 2;
    strikes := [];
    NothingYet(center - half, step, spot);
    for i := 0 to num
      invariant strikes == Progression(center - half, i, step)
      invariant InProgress(strikes, center - half, i, step, spot)
    {
      ExtendUp(strikes, center - half, i, step, spot);
      assert Progression(center - half, i + 1, step) == strikes + [At(center - half + i, step)];
      FromCentre(center, i - half, step);
      assert At(center + (i - half), step) == At(center - half + i, step);
      var strike := center as real * step + (i - half) as real * step;
      assert strike == At(center - half + i, step);
      strikes := strikes + [strike];
    }
  }

  lemma NothingYet(lo: int, step: real, spot: real)
    ensures InProgress([], lo, 0, step, spot) && Progression(lo, 0, step) == []
  {
    assert Progression(lo, 0, step) == [];
  }

  lemma FromCentre(center: int, i: int, step: real)
    ensures center as real * step + i as real * step == At(center + i, step)
  {}

  method MinOf(s: seq<real>) returns (m: real)
    requires s != []
    ensures m in s && forall x :: x in s ==> m <= x
  {
    m := s[0];
    for i := 0 to |s|
      invariant m in s && forall j :: 0 <= j < i ==> m <= s[j]
    {
      if s[i] < m { m := s[i]; }
    }
  }

  method MaxOf(s: seq<real>) returns (m: real)
    requires s != []
    ensures m in s && forall x :: x in s ==> x <= m
  {
    m := s[0];
    for i := 0 to |s|
      invariant m in s && forall j :: 0 <= j < i ==> s[j] <= m
    {
      if s[i] > m { m := s[i]; }
    }
  }

  lemma NotEmpty(strikes: seq<real>, lo: int, n: nat, step: real, spot: real)
    requires n > 0 && InProgress(strikes, lo, n, step, spot)
    ensures strikes != []
  {}

  lemma SameElements(strikes: seq<real>, lo: int, n: nat, step: real, spot: real)
    requires InProgress(strikes, lo, n, step, spot)
    ensures forall x :: x in strikes <==> x in Progression(lo, n, step)
  {
    SortedSorts(strikes);
    forall x ensures x in strikes <==> x in Progression(lo, n, step) {
      assert x in multiset(strikes) <==> x in multiset(Progression(lo, n, step));
    }
  }

  lemma LowestIs(strikes: seq<real>, m: real, lo: int, n: nat, step: real, spot: real)
    requires step > 0.0 && n > 0 && InProgress(strikes, lo, n, step, spot)
    requires m in strikes && forall x :: x in strikes ==> m <= x
    ensures m == At(lo, step)
  {
    SameElements(strikes, lo, n, step, spot);
    ProgressionIncreases(lo, n, step);
    var p := Progression(lo, n, step);
    var i :| 0 <= i < n && p[i] == m;
    assert p[0] in p && p[0] <= p[i];
  }

  lemma HighestIs(strikes: seq<real>, m: real, lo: int, n: nat, step: real, spot: real)
    requires step > 0.0 && n > 0 && InProgress(strikes, lo, n, step, spot)
    requires m in strikes && forall x :: x in strikes ==> x <= m
    ensures m == At(lo + n - 1, step)
  {
    SameElements(strikes, lo, n, step, spot);
    ProgressionIncreases(lo, n, step);
    var p := Progression(lo, n, step);
    var i :| 0 <= i < n && p[i] == m;
    assert p[n - 1] in p && p[i] <= p[n - 1];
  }

  lemma AtOrder(j: int, k: int, step: real)
    requires j <= k && step > 0.0
    ensures At(j, step) <= At(k, step)
  {
    if j < k {
      AtMonotone(j, k, step);
    }
  }

  /** The loop that lowers the lowest strike; every strike it adds is below the spot, so it ends. */
  method ExtendPuts(centred: seq<real>, spot: real, step: real, minOtm: int, ghost lo: int, ghost n: nat, ghost c: int)
    returns (strikes: seq<real>, ghost down: nat)
    requires step > 0.0 && n > 0 && lo <= c && InProgress(centred, lo, n, step, spot) && At(c - 1, step) < spot
    ensures InProgress(strikes, lo - down, n + down, step, spot)
    ensures Below(strikes, spot) == Max(minOtm, Below(centred, spot)) && Above(strikes, spot) == Above(centred, spot)
  {
    hide At, InProgress;
    strikes, down := centred, 0;
    NotEmpty(strikes, lo, n, step, spot);
    var lowest := MinOf(strikes);
    LowestIs(strikes, lowest, lo, n, step, spot);
    while Below(strikes, spot) < minOtm
      invariant lowest == At(lo - down, step) && InProgress(strikes, lo - down, n + down, step, spot)
      invariant Below(centred, spot) <= Below(strikes, spot) <= Max(minOtm, Below(centred, spot))
      invariant Above(strikes, spot) == Above(centred, spot)
      decreases minOtm - Below(strikes, spot)
    {
      AtNext(lo - down - 1, step);
      AtOrder(lo - down - 1, c - 1, step);
      ExtendDown(strikes, lo - down, n + down, step, spot);
      lowest := lowest - step;
      strikes := strikes + [lowest];
      down := down + 1;
    }
  }

  /** The loop that raises the highest strike. */
  method ExtendCalls(before: seq<real>, spot: real, step: real, minOtm: int, ghost lo: int, ghost n: nat, ghost c: int)
    returns (strikes: seq<real>, ghost up: nat)
    requires step > 0.0 && n > 0 && c <= lo + n - 1 && InProgress(before, lo, n, step, spot) && At(c + 1, step) > spot
    ensures InProgress(strikes, lo, n + up, step, spot)
    ensures Above(strikes, spot) == Max(minOtm, Above(before, spot)) && Below(strikes, spot) == Below(before, spot)
  {
    hide At, InProgress;
    strikes, up := before, 0;
    NotEmpty(strikes, lo, n, step, spot);
    var highest := MaxOf(strikes);
    HighestIs(strikes, highest, lo, n, step, spot);
    while Above(strikes, spot) < minOtm
      invariant highest == At(lo + n + up - 1, step) && InProgress(strikes, lo, n + up, step, spot)
      invariant Above(before, spot) <= Above(strikes, spot) <= Max(minOtm, Above(before, spot))
      invariant Below(strikes, spot) == Below(before, spot)
      decreases minOtm - Above(strikes, spot)
    {
      AtNext(lo + n + up - 1, step);
      AtOrder(c + 1, lo + n + up, step);
      ExtendUp(strikes, lo, n + up, step, spot);
      highest := highest + step;
      strikes := strikes + [highest];
      up := up + 1;
    }
  }

  /** The result: a gap-free progression around the centred strikes. */
  ghost predicate Around(r: seq<real>, spot: real, step: real, num: nat, down: nat, up: nat)
    requires step > 0.0
  {
    r == Progression(Lowest(spot, step, num) - down, down + num + up, step)
  }

  lemma Extended(centred: seq<real>, strikes: seq<real>, spot: real, step: real, num: nat, down: nat, up: nat)
    requires step > 0.0 && centred == Centred(spot, step, num)
    requires InProgress(strikes, Lowest(spot, step, num) - down, num + down + up, step, spot)
    ensures Around(Sorted(strikes), spot, step, num, down, up)
    ensures Below(Sorted(strikes), spot) == Below(strikes, spot) && Above(Sorted(strikes), spot) == Above(strikes, spot)
  {}

  /** Centring and both extensions. */
  method Extend(spot: real, step: real, num: nat, minOtm: int) returns (strikes: seq<real>, ghost down: nat, ghost up: nat)
    requires step > 0.0 && num > 0
    ensures Around(Sorted(strikes), spot, step, num, down, up)
    ensures Below(Sorted(strikes), spot) == Max(minOtm, Below(Centred(spot, step, num), spot))
    ensures Above(Sorted(strikes), spot) == Max(minOtm, Above(Centred(spot, step, num), spot))
  {
    hide *;
    ghost var c, lo := Nearest(spot, step), Lowest(spot, step, num);
    LowestMeans(spot, step, num);
    CentreEncloses(spot, step);
    var centred := Centre(spot, step, num);
    strikes, down := ExtendPuts(centred, spot, step, minOtm, lo, num, c);
    strikes, up := ExtendCalls(strikes, spot, step, minOtm, lo - down, num + down, c);
    Extended(centred, strikes, spot, step, num, down, up);
  }

  /**
   * generate_strikes, for a positive step. Without a centred strike there is no
   * lowest one and the program raises (None). Otherwise it ends, and returns a
   * gap-free progression around the centred strikes with exactly as many strikes
   * strictly below (above) the spot as the larger of the minimum and the centred count.
   */
  method GenerateStrikes(spot: real, step: real, numStrikes: int, minOtmPerSide: int)
    returns (r: Option<seq<real>>, ghost down: nat, ghost up: nat)
    requires step > 0.0
    ensures r.None? <==> numStrikes <= 0
    ensures r.Some? ==> Around(r.value, spot, step, numStrikes, down, up)
    ensures r.Some? ==> Below(r.value, spot) == Max(minOtmPerSide, Below(Centred(spot, step, numStrikes), spot))
    ensures r.Some? ==> Above(r.value, spot) == Max(minOtmPerSide, Above(Centred(spot, step, numStrikes), spot))
  {
    if numStrikes <= 0 {
      return None, 0, 0;
    }
    var strikes;
    strikes, down, up := Extend(spot, step, numStrikes, minOtmPerSide);
    return Some(Sorted(strikes)), down, up;
  }

  /**
   * What the progression means: strictly increasing, one step apart, the centred strikes
   * in their place, and the counts are those of the strikes below and above the spot.
   */
  lemma AroundMeans(r: seq<real>, spot: real, step: real, num: nat, down: nat, up: nat)
    requires step > 0.0 && Around(r, spot, step, num, down, up)
    ensures forall i, j :: 0 <= i < j < |r| ==> r[i] < r[j]
    ensures forall i :: 0 <= i < |r| - 1 ==> r[i + 1] == r[i] + step
    ensures |r| == down + num + up && r[down..down + num] == Centred(spot, step, num)
    ensures forall i :: 0 <= i < |r| ==> (r[i] < spot <==> i < Below(r, spot)) && (r[i] > spot <==> i >= |r| - Above(r, spot))
  {
    ProgressionIncreases(Lowest(spot, step, num) - down, down + num + up, step);
    assert r[down..down + num] == Centred(spot, step, num);
    hide Progression, At, Around, Centred;
    CountsSplit(r, spot);
  }

  /** The centred strikes are num multiples of the step, half of them below the centre. */
  lemma CentredAre(spot: real, step: real, num: nat, i: nat)
    requires step > 0.0 && i < num
    ensures |Centred(spot, step, num)| == num
    ensures Centred(spot, step, num)[i] == At(Nearest(spot, step) + i - num / 2, step)
  {
    assert Lowest(spot, step, num) + i == Nearest(spot, step) + i - num / 2;
  }

  lemma {:induction false} CountsSplit(r: seq<real>, spot: real)
    requires forall i, j :: 0 <= i < j < |r| ==> r[i] < r[j]
    ensures Below(r, spot) <= |r| && Above(r, spot) <= |r|
    ensures forall i :: 0 <= i < |r| ==> (r[i] < spot <==> i < Below(r, spot)) && (r[i] > spot <==> i >= |r| - Above(r, spot))
  {
    if r != [] {
      var init := r[..|r| - 1];
      CountsSplit(init, spot);
      assert forall i :: 0 <= i < |init| ==> init[i] == r[i];
      assert |init| > 0 ==> init[|init| - 1] < r[|init|];
    }
  }
}
