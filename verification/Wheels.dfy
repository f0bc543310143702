/**
 * Wheel cycles, perfect weeks and the premium bonus of one wallet
 * (src/api/leaderboard.py). Instants are whole microseconds.
 */
module Wheels {
  import opened Wrappers

  /** A row's id column, which may be NULL. */
  type Id = Option<string>

  const WINDOW := 24 * 3600 * 1000000

  /** A timestamp column: NULL, a text that is no timestamp (the empty one too), or an instant. */
  datatype Stamp = Missing | Unreadable | Instant(at: int)

  datatype Row = Row(
    id: Id, asset: Option<string>, isPut: Option<bool>, isItm: Option<bool>,
    indexedAt: Stamp, settledAt: Stamp, netPremium: Option<int>, premium: Option<int>)

  datatype Pair = Pair(first: Row, second: Row)

  // ── Legs and pairs ──

  predicate ItmSettled(r: Row) { r.isItm == Some(true) && !r.settledAt.Missing? }

  function Legs(rows: seq<Row>): seq<Row> {
    if rows == [] then []
    else Legs(rows[..|rows| - 1]) + if ItmSettled(rows[|rows| - 1]) then [rows[|rows| - 1]] else []
  }

  predicate CanLead(r: Row) { r.id.Some? && r.settledAt.Instant? }

  /** The conditions on the second leg that do not look at what is used. */
  predicate Follows(lead: Row, follow: Row)
    requires CanLead(lead)
  {
    && follow.id.Some? && follow.id != lead.id
    && follow.asset == lead.asset
    && follow.isPut != lead.isPut
    && follow.indexedAt.Instant?
    && lead.settledAt.at <= follow.indexedAt.at <= lead.settledAt.at + WINDOW
  }

  /** Two rows complete a wheel: both assigned, opposite sides of one asset, the second opened in time. */
  predicate IsWheel(p: Pair) {
    ItmSettled(p.first) && ItmSettled(p.second) && CanLead(p.first) && Follows(p.first, p.second)
  }

  function IdsOf(pairs: seq<Pair>): set<Id> {
    if pairs == [] then {}
    else IdsOf(pairs[..|pairs| - 1]) + {pairs[|pairs| - 1].first.id, pairs[|pairs| - 1].second.id}
  }

  /** A set of wheels in which no position takes part twice. */
  ghost predicate Matching(pairs: seq<Pair>) {
    pairs == [] ||
    var init, last := pairs[..|pairs| - 1], pairs[|pairs| - 1];
    Matching(init) && IsWheel(last) && last.first.id !in IdsOf(init) && last.second.id !in IdsOf(init)
  }

  // ── The greedy search ──

  function FirstFollow(legs: seq<Row>, lead: Row, used: set<Id>): Option<Row>
    requires CanLead(lead)
  {
    if legs == [] then None
    else if Follows(lead, legs[0]) && legs[0].id !in used then Some(legs[0])
    else FirstFollow(legs[1..], lead, used)
  }

  lemma {:induction false} FirstFollowFinds(legs: seq<Row>, lead: Row, used: set<Id>)
    requires CanLead(lead)
    ensures var f := FirstFollow(legs, lead, used);
            if f.Some? then f.value in legs && Follows(lead, f.value) && f.value.id !in used
            else forall i :: 0 <= i < |legs| && Follows(lead, legs[i]) ==> legs[i].id in used
  {
    if legs != [] {
      FirstFollowFinds(legs[1..], lead, used);
      if FirstFollow(legs, lead, used).None? {
        forall i | 0 <= i < |legs| && Follows(lead, legs[i]) ensures legs[i].id in used {
          assert i > 0 ==> legs[i] == legs[1..][i - 1];
        }
      }
    }
  }

  /** What the outer loop does with one leg. */
  function Step(legs: seq<Row>, lead: Row, used: set<Id>): seq<Pair> {
    if !CanLead(lead) || lead.id in used then []
    else
      match FirstFollow(legs, lead, used)
      case None => []
      case Some(follow) => [Pair(lead, follow)]
  }

  /** The pairs found after the first n legs. */
  function Greedy(legs: seq<Row>, n: nat): seq<Pair>
    requires n <= |legs|
  {
    if n == 0 then []
    else Greedy(legs, n - 1) + Step(legs, legs[n - 1], IdsOf(Greedy(legs, n - 1)))
  }

  lemma IdsOfAppend(pairs: seq<Pair>, p: Pair)
    ensures IdsOf(pairs + [p]) == IdsOf(pairs) + {p.first.id, p.second.id}
    ensures Matching(pairs) && IsWheel(p) && p.first.id !in IdsOf(pairs) && p.second.id !in IdsOf(pairs) ==> Matching(pairs + [p])
  {
    assert (pairs + [p])[..|pairs|] == pairs;
  }

  ghost predicate AllSettled(legs: seq<Row>) { forall i :: 0 <= i < |legs| ==> ItmSettled(legs[i]) }

  lemma {:induction false} GreedyMatches(legs: seq<Row>, n: nat)
    requires n <= |legs| && AllSettled(legs)
    ensures Matching(Greedy(legs, n))
  {
    if n > 0 {
      GreedyMatches(legs, n - 1);
      StepMatches(legs, n - 1, Greedy(legs, n - 1));
    }
  }

  lemma StepMatches(legs: seq<Row>, i: nat, before: seq<Pair>)
    requires i < |legs| && AllSettled(legs) && Matching(before)
    ensures Matching(before + Step(legs, legs[i], IdsOf(before)))
    ensures IdsOf(before) <= IdsOf(before + Step(legs, legs[i], IdsOf(before)))
    ensures var after := IdsOf(before + Step(legs, legs[i], IdsOf(before)));
            CanLead(legs[i]) && legs[i].id !in after ==> forall j :: 0 <= j < |legs| && Follows(legs[i], legs[j]) ==> legs[j].id in after
  {
    var lead, used := legs[i], IdsOf(before);
    assert before + [] == before;
    if CanLead(lead) && lead.id !in used {
      FirstFollowFinds(legs, lead, used);
      var f := FirstFollow(legs, lead, used);
      if f.Some? {
        IdsOfAppend(before, Pair(lead, f.value));
      }
    }
  }

  /** A leg that was passed over has no follower left that is unused. */
  lemma {:induction false} GreedyIsMaximal(legs: seq<Row>, n: nat, i: nat, j: nat)
    requires i < n <= |legs| && j < |legs| && AllSettled(legs) && IsWheel(Pair(legs[i], legs[j]))
    ensures legs[i].id in IdsOf(Greedy(legs, n)) || legs[j].id in IdsOf(Greedy(legs, n))
  {
    hide Step, Matching, IdsOf, Follows;
    GreedyMatches(legs, n - 1);
    StepMatches(legs, n - 1, Greedy(legs, n - 1));
    if i < n - 1 {
      GreedyIsMaximal(legs, n - 1, i, j);
    }
  }

  // ── Any wallet ──

  function WheelPairs(rows: seq<Row>): seq<Pair> { Greedy(Legs(rows), |Legs(rows)|) }

  lemma {:induction false} LegsAre(rows: seq<Row>)
    ensures AllSettled(Legs(rows))
    ensures forall r :: r in Legs(rows) <==> r in rows && ItmSettled(r)
  {
    if rows != [] {
      LegsAre(rows[..|rows| - 1]);
      assert forall r :: r in rows <==> r in rows[..|rows| - 1] || r == rows[|rows| - 1];
    }
  }

  /** The pairs found are disjoint wheels, and no wheel is left among the rows they do not use. */
  lemma WheelsAreMaximal(rows: seq<Row>, a: Row, b: Row)
    ensures Matching(WheelPairs(rows))
    ensures a in rows && b in rows && IsWheel(Pair(a, b)) ==> a.id in IdsOf(WheelPairs(rows)) || b.id in IdsOf(WheelPairs(rows))
  {
    var legs := Legs(rows);
    LegsAre(rows);
    GreedyMatches(legs, |legs|);
    if a in rows && b in rows && IsWheel(Pair(a, b)) {
      assert a in legs && b in legs;
      var i :| 0 <= i < |legs| && legs[i] == a;
      var j :| 0 <= j < |legs| && legs[j] == b;
      GreedyIsMaximal(legs, |legs|, i, j);
    }
  }

  /** A wheel on the columns: two assigned rows on opposite sides of one asset, the second opened within 24 hours. */
  ghost predicate WheelOf(a: Row, b: Row) {
    && a.isItm == Some(true) && b.isItm == Some(true) && a.id.Some? && b.id.Some? && a.id != b.id
    && a.settledAt.Instant? && b.indexedAt.Instant? && b.settledAt != Missing
    && a.asset == b.asset && a.isPut != b.isPut
    && 0 <= b.indexedAt.at - a.settledAt.at <= 86_400_000_000
  }

  /** The pairs are wheels among the rows, no two of them share a position, and no wheel is left among the rows they leave. */
  lemma PairsAreWheels(rows: seq<Row>, k: nat, a: Row, b: Row)
    ensures k < |WheelPairs(rows)| ==>
              var p := WheelPairs(rows)[k];
              p.first in rows && p.second in rows && WheelOf(p.first, p.second)
    ensures a in rows && b in rows && WheelOf(a, b) ==> a.id in IdsOf(WheelPairs(rows)) || b.id in IdsOf(WheelPairs(rows))
  {
    WheelsAreMaximal(rows, a, b);
    LegsAre(rows);
    if k < |WheelPairs(rows)| {
      MatchingHas(WheelPairs(rows), k);
      GreedyUsesLegs(Legs(rows), |Legs(rows)|, k);
    }
  }

  lemma {:induction false} MatchingHas(pairs: seq<Pair>, k: nat)
    requires Matching(pairs) && k < |pairs|
    ensures IsWheel(pairs[k])
  {
    if k < |pairs| - 1 {
      MatchingHas(pairs[..|pairs| - 1], k);
    }
  }

  lemma {:induction false} GreedyUsesLegs(legs: seq<Row>, n: nat, k: nat)
    requires n <= |legs| && k < |Greedy(legs, n)|
    ensures Greedy(legs, n)[k].first in legs && Greedy(legs, n)[k].second in legs
  {
    var before := Greedy(legs, n - 1);
    StepUsesLegs(legs, legs[n - 1], IdsOf(before));
    hide Step, IdsOf;
    ghost var step := Step(legs, legs[n - 1], IdsOf(before));
    assert Greedy(legs, n) == before + step;
    hide Greedy;
    if k < |before| {
      GreedyUsesLegs(legs, n - 1, k);
    }
  }

  lemma StepUsesLegs(legs: seq<Row>, lead: Row, used: set<Id>)
    requires lead in legs
    ensures |Step(legs, lead, used)| <= 1
    ensures Step(legs, lead, used) != [] ==> Step(legs, lead, used)[0].first in legs && Step(legs, lead, used)[0].second in legs
  {
    if CanLead(lead) {
      FirstFollowFinds(legs, lead, used);
    }
  }

  /** Each pair uses two ids of its own, so halving the number of ids counts the pairs. */
  lemma {:induction false} TwoIdsPerPair(pairs: seq<Pair>)
    requires Matching(pairs)
    ensures |IdsOf(pairs)| == 2 * |pairs|
  {
    if pairs != [] {
      var init, last := pairs[..|pairs| - 1], pairs[|pairs| - 1];
      TwoIdsPerPair(init);
      assert IdsOf(pairs) == IdsOf(init) + {last.first.id} + {last.second.id};
    }
  }

  lemma {:induction false} TouchingBound(pairs: seq<Pair>, ids: set<Id>)
    requires Matching(pairs)
    requires forall i :: 0 <= i < |pairs| ==> pairs[i].first.id in ids || pairs[i].second.id in ids
    ensures |pairs| <= |ids|
  {
    if pairs != [] {
      var init, last := pairs[..|pairs| - 1], pairs[|pairs| - 1];
      var x := if last.first.id in ids then last.first.id else last.second.id;
      forall i | 0 <= i < |init| ensures init[i].first.id in ids - {x} || init[i].second.id in ids - {x} {
        assert init[i] == pairs[i];
        IdsOfHas(init, i);
      }
      TouchingBound(init, ids - {x});
    }
  }

  lemma {:induction false} IdsOfHas(pairs: seq<Pair>, i: nat)
    requires i < |pairs|
    ensures pairs[i].first.id in IdsOf(pairs) && pairs[i].second.id in IdsOf(pairs)
  {
    if i < |pairs| - 1 {
      IdsOfHas(pairs[..|pairs| - 1], i);
    }
  }

  /** The greedy choice is at least half of the best: no set of disjoint wheels is more than twice as large. */
  lemma GreedyIsHalfOptimal(rows: seq<Row>, other: seq<Pair>)
    requires Matching(other) && forall i :: 0 <= i < |other| ==> other[i].first in rows && other[i].second in rows
    requires forall i :: 0 <= i < |other| ==> IsWheel(other[i])
    ensures |other| <= 2 * |WheelPairs(rows)|
  {
    var ids := IdsOf(WheelPairs(rows));
    forall i | 0 <= i < |other| ensures other[i].first.id in ids || other[i].second.id in ids {
      WheelsAreMaximal(rows, other[i].first, other[i].second);
    }
    TouchingBound(other, ids);
    LegsAre(rows);
    GreedyMatches(Legs(rows), |Legs(rows)|);
    TwoIdsPerPair(WheelPairs(rows));
  }

  /** _detect_wheels: the assigned rows, paired up. */
  method DetectWheels(rows: seq<Row>) returns (wheelIds: set<Id>, ghost pairs: seq<Pair>)
    ensures pairs == WheelPairs(rows) && wheelIds == IdsOf(pairs)
    ensures |wheelIds| / 2 == |pairs|
    ensures None !in wheelIds
  {
    var itmSettled := [];
    for i := 0 to |rows|
      invariant itmSettled == Legs(rows[..i])
    {
      assert rows[..i + 1][..i] == rows[..i];
      if rows[i].isItm == Some(true) && !rows[i].settledAt.Missing? {
        itmSettled := itmSettled + [rows[i]];
      }
    }
    assert rows[..|rows|] == rows;
    LegsAre(rows);
    wheelIds, pairs := PairUp(itmSettled);
  }

  /** The two nested loops over the assigned rows. */
  method PairUp(legs: seq<Row>) returns (wheelIds: set<Id>, ghost pairs: seq<Pair>)
    requires AllSettled(legs)
    ensures pairs == Greedy(legs, |legs|) && wheelIds == IdsOf(pairs)
    ensures |wheelIds| / 2 == |pairs|
    ensures None !in wheelIds
  {
    hide Step, IdsOf;
    NoIds();
    wheelIds, pairs := {}, [];
    for n := 0 to |legs|
      invariant pairs == Greedy(legs, n) && wheelIds == IdsOf(pairs) && None !in wheelIds
    {
      var follow := FindFollow(legs, legs[n], wheelIds);
      if follow.Some? {
        IdsOfAppend(pairs, Pair(legs[n], follow.value));
        wheelIds := wheelIds + {legs[n].id, follow.value.id};
        pairs := pairs + [Pair(legs[n], follow.value)];
      }
    }
    GreedyMatches(legs, |legs|);
    TwoIdsPerPair(pairs);
  }

  lemma NoIds()
    ensures IdsOf([]) == {}
  {}

  /** The inner loop: the first unused leg that completes a wheel with this one. */
  method FindFollow(legs: seq<Row>, lead: Row, used: set<Id>) returns (follow: Option<Row>)
    ensures Step(legs, lead, used) == if follow.Some? then [Pair(lead, follow.value)] else []
    ensures follow.Some? ==> lead.id.Some? && follow.value.id.Some?
  {
    if lead.id.None? || lead.id in used || !lead.settledAt.Instant? {
      return None;
    }
    var windowEnd := lead.settledAt.at + WINDOW;
    assert legs[0..] == legs;
    for i := 0 to |legs|
      invariant FirstFollow(legs, lead, used) == FirstFollow(legs[i..], lead, used)
    {
      var candidate := legs[i];
      assert legs[i..][1..] == legs[i + 1..];
      if candidate.id.Some? && candidate.id !in used && candidate.id != lead.id
         && candidate.asset == lead.asset && candidate.isPut != lead.isPut && candidate.indexedAt.Instant? {
        if lead.settledAt.at <= candidate.indexedAt.at <= windowEnd {
          return Some(candidate);
        }
      }
    }
    return None;
  }

  // ── Perfect weeks ──

  predicate SettledIn(r: Row, start: int, end: int) { r.settledAt.Instant? && start <= r.settledAt.at <= end }

  /** A row of this id ended out of the money within the week, and none in the money; the week includes both ends. */
  ghost predicate PerfectWeek(rows: seq<Row>, id: Id, start: int, end: int) {
    && (exists i :: 0 <= i < |rows| && rows[i].id == id && rows[i].isItm == Some(false)
                    && rows[i].settledAt.Instant? && start <= rows[i].settledAt.at <= end)
    && (forall i :: 0 <= i < |rows| && rows[i].isItm == Some(true) && rows[i].settledAt.Instant? ==>
          !(start <= rows[i].settledAt.at <= end))
  }

  /** _detect_perfect_week. */
  method DetectPerfectWeek(rows: seq<Row>, wheelIds: set<Id>, start: int, end: int) returns (bonusIds: set<Id>)
    ensures bonusIds !! wheelIds
    ensures forall id :: id in bonusIds <==> id !in wheelIds && PerfectWeek(rows, id, start, end)
    ensures forall id :: id in bonusIds <==>
              && id !in wheelIds
              && (forall r :: r in rows && SettledIn(r, start, end) ==> r.isItm != Some(true))
              && (exists r :: r in rows && r.id == id && r.isItm == Some(false) && SettledIn(r, start, end))
  {
    bonusIds := {};
    var hasItm := exists r :: r in rows && r.isItm == Some(true) && SettledIn(r, start, end);
    if hasItm {
      return;
    }
    for i := 0 to |rows|
      invariant forall id :: id in bonusIds <==>
                  && id !in wheelIds
                  && (exists j :: 0 <= j < i && rows[j].id == id && rows[j].isItm == Some(false) && SettledIn(rows[j], start, end))
    {
      if rows[i].id !in wheelIds && rows[i].isItm == Some(false) && SettledIn(rows[i], start, end) {
        bonusIds := bonusIds + {rows[i].id};
      }
    }
  }

  // ── The wallet's statistics ──

  function Human(r: Row): real {
    var raw := if r.netPremium.Some? then r.netPremium else r.premium;
    if raw.None? then 0.0 else raw.value as real / 1000000.0
  }

  /** A row's premium in dollars, on the columns: the net one if there is one, else the gross one, else nothing. */
  ghost function Earned(r: Row): real {
    match (r.netPremium, r.premium)
    case (Some(net), _) => net as real / 1_000_000.0
    case (None, Some(gross)) => gross as real / 1_000_000.0
    case (None, None) => 0.0
  }

  ghost function RawPremium(rows: seq<Row>): real {
    if rows == [] then 0.0 else RawPremium(rows[..|rows| - 1]) + Earned(rows[|rows| - 1])
  }

  /** The premium of the rows that earn the bonus. */
  ghost function BonusPremium(rows: seq<Row>, bonusIds: set<Id>): real {
    if rows == [] then 0.0
    else BonusPremium(rows[..|rows| - 1], bonusIds) + if rows[|rows| - 1].id in bonusIds then Earned(rows[|rows| - 1]) else 0.0
  }

  /** For premiums that are not negative the bonus is worth between nothing and half of the raw total. */
  lemma {:induction false} BonusBounds(rows: seq<Row>, bonusIds: set<Id>)
    requires forall i :: 0 <= i < |rows| ==> Earned(rows[i]) >= 0.0
    ensures 0.0 <= BonusPremium(rows, bonusIds) <= RawPremium(rows)
  {
    if rows != [] {
      BonusBounds(rows[..|rows| - 1], bonusIds);
    }
  }

  /** The bonus part of _compute_wallet_stats; the weeks are (start, end) pairs. */
  method WalletStats(rows: seq<Row>, week1: (int, int), week2: (int, int))
    returns (wheelCount: nat, adjusted: real, ghost bonusIds: set<Id>)
    ensures wheelCount == |WheelPairs(rows)|
    ensures forall id :: id in bonusIds <==>
              || id in IdsOf(WheelPairs(rows))
              || PerfectWeek(rows, id, week1.0, week1.1)
              || PerfectWeek(rows, id, week2.0, week2.1)
    ensures adjusted == RawPremium(rows) + 0.5 * BonusPremium(rows, bonusIds)
    ensures (forall i :: 0 <= i < |rows| ==> Earned(rows[i]) >= 0.0) ==> RawPremium(rows) <= adjusted <= 1.5 * RawPremium(rows)
  {
    var wheelIds;
    ghost var pairs;
    wheelIds, pairs := DetectWheels(rows);
    var pw1 := DetectPerfectWeek(rows, wheelIds, week1.0, week1.1);
    var pw2 := DetectPerfectWeek(rows, wheelIds, week2.0, week2.1);
    var bonus := wheelIds + pw1 + pw2;
    bonusIds := bonus;
    wheelCount := |wheelIds| / 2;
    adjusted := 0.0;
    for i := 0 to |rows|
      invariant adjusted == RawPremium(rows[..i]) + 0.5 * BonusPremium(rows[..i], bonus)
    {
      assert rows[..i + 1][..i] == rows[..i];
      adjusted := adjusted + Human(rows[i]) * if rows[i].id in bonus then 1.5 else 1.0;
    }
    assert rows[..|rows|] == rows;
    if forall i :: 0 <= i < |rows| ==> Earned(rows[i]) >= 0.0 {
      BonusBounds(rows, bonus);
    }
  }

  // ── Streaks ──

  /** n settled rows in a row, from the given place on, ended out of the money. */
  ghost predicate OtmRun(outcomes: seq<Option<bool>>, from: int, n: int) {
    && 0 <= from && 0 <= n && from + n <= |outcomes|
    && (forall i :: from <= i < from + n ==> outcomes[i] == Some(false))
  }

  /** The streak loop over the settled rows in order of settlement: the longest run out of the money. */
  method LongestOtmStreak(outcomes: seq<Option<bool>>) returns (maxStreak: nat)
    ensures exists from :: OtmRun(outcomes, from, maxStreak)
    ensures forall from, n :: OtmRun(outcomes, from, n) ==> n <= maxStreak
  {
    var streak := 0;
    maxStreak := 0;
    ghost var best := 0;
    for i := 0 to |outcomes|
      invariant 0 <= streak <= i && OtmRun(outcomes, i - streak, streak)
      invariant streak < i ==> outcomes[i - streak - 1] != Some(false)
      invariant OtmRun(outcomes, best, maxStreak) && streak <= maxStreak
      invariant forall from, n :: OtmRun(outcomes, from, n) && from + n <= i ==> n <= maxStreak
    {
      if outcomes[i] == Some(false) {
        streak := streak + 1;
        assert streak < i + 1 ==> outcomes[i - streak] != Some(false);
        if streak > maxStreak {
          maxStreak, best := streak, i + 1 - streak;
        }
      } else {
        streak := 0;
      }
    }
  }
}
