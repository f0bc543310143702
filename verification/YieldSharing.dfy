/**
 * Time-weighted sharing of harvested yield (src/yield_tracking/calculator.py,
 * src/api/yield_routes.py). Instants are integers; the program's float shares are
 * the exact quotients here, rounded down by int(). Addresses are compared folded
 * to lower case, so a user is that folded string.
 */
module YieldSharing {
  import opened Arithmetic
  import opened Wrappers

  const BPS := 10000

  datatype Position = Position(
    id: string, user: string, asset: string, collateral: nat, depositedAt: int, settledAt: Option<int>)

  datatype Allocation = Allocation(position: string, user: string, amount: nat)

  // ── Weights ──

  function Duration(p: Position, from: int, to: int): nat {
    var start := Max(p.depositedAt, from);
    var end := if p.settledAt.Some? then Min(p.settledAt.value, to) else to;
    Max(end - start, 0)
  }

  /** The number of instants of a period at which the position is deposited and not yet settled. */
  ghost function InstantsHeld(p: Position, from: int, to: int): nat
    decreases to - from
  {
    if to <= from then 0
    else InstantsHeld(p, from, to - 1)
         + if p.depositedAt <= to - 1 && (p.settledAt.Some? ==> to - 1 < p.settledAt.value) then 1 else 0
  }

  lemma {:induction false} DurationCounts(p: Position, from: int, to: int)
    decreases to - from
    ensures Duration(p, from, to) == InstantsHeld(p, from, to)
  {
    if from < to {
      DurationCounts(p, from, to - 1);
    }
  }

  function Weight(p: Position, from: int, to: int): nat {
    Mul(p.collateral, Duration(p, from, to))
  }

  function Weights(positions: seq<Position>, from: int, to: int): seq<nat> {
    seq(|positions|, i requires 0 <= i < |positions| => Weight(positions[i], from, to))
  }

  function Sum(ws: seq<nat>): nat { if ws == [] then 0 else Sum(ws[..|ws| - 1]) + ws[|ws| - 1] }

  function Positive(ws: seq<nat>): nat {
    if ws == [] then 0 else Positive(ws[..|ws| - 1]) + if ws[|ws| - 1] > 0 then 1 else 0
  }

  function Total(positions: seq<Position>, from: int, to: int): nat { Sum(Weights(positions, from, to)) }

  predicate SettledBefore(p: Position, from: int) { p.settledAt.Some? && p.settledAt.value <= from }

  /** The database filter of the two calculators, and the filter all three apply. */
  predicate DepositedBefore(p: Position, to: int) { p.depositedAt < to }

  predicate Active(p: Position, from: int, to: int) { DepositedBefore(p, to) && !SettledBefore(p, from) }

  function ActiveOf(rows: seq<Position>, from: int, to: int): seq<Position> {
    if rows == [] then []
    else ActiveOf(rows[..|rows| - 1], from, to) + if Active(rows[|rows| - 1], from, to) then [rows[|rows| - 1]] else []
  }

  function UnsettledOf(rows: seq<Position>, from: int): seq<Position> {
    if rows == [] then []
    else UnsettledOf(rows[..|rows| - 1], from) + if SettledBefore(rows[|rows| - 1], from) then [] else [rows[|rows| - 1]]
  }

  /** A row either filter drops weighs nothing. */
  lemma DroppedWeighsNothing(p: Position, from: int, to: int)
    requires !Active(p, from, to)
    ensures Weight(p, from, to) == 0
  {}

  lemma WeightsAppend(ps: seq<Position>, p: Position, from: int, to: int)
    ensures Weights(ps + [p], from, to) == Weights(ps, from, to) + [Weight(p, from, to)]
    ensures Total(ps + [p], from, to) == Total(ps, from, to) + Weight(p, from, to)
  {
    var ws := Weights(ps + [p], from, to);
    assert ws[..|ws| - 1] == Weights(ps, from, to);
  }

  /** So the three computations divide by the same total. */
  lemma {:induction false} FiltersAgree(rows: seq<Position>, from: int, to: int)
    ensures Total(ActiveOf(rows, from, to), from, to) == Total(rows, from, to) == Total(UnsettledOf(rows, from), from, to)
  {
    if rows != [] {
      var init, last := rows[..|rows| - 1], rows[|rows| - 1];
      FiltersAgree(init, from, to);
      WeightsAppend(init, last, from, to);
      WeightsAppend(ActiveOf(init, from, to), last, from, to);
      WeightsAppend(UnsettledOf(init, from), last, from, to);
      assert rows == init + [last];
      if !Active(last, from, to) {
        DroppedWeighsNothing(last, from, to);
        assert ActiveOf(init, from, to) + [] == ActiveOf(init, from, to);
      }
      assert UnsettledOf(init, from) + [] == UnsettledOf(init, from);
    }
  }

  /** Splitting a period splits every weight: nothing is counted twice or lost. */
  lemma WeightIsAdditive(p: Position, a: int, b: int, c: int)
    requires a <= b <= c
    ensures Weight(p, a, c) == Weight(p, a, b) + Weight(p, b, c)
  {
    assert Duration(p, a, c) == Duration(p, a, b) + Duration(p, b, c);
  }

  lemma {:induction false} TotalIsAdditive(ps: seq<Position>, a: int, b: int, c: int)
    requires a <= b <= c
    ensures Total(ps, a, c) == Total(ps, a, b) + Total(ps, b, c)
  {
    if ps != [] {
      var init, last := ps[..|ps| - 1], ps[|ps| - 1];
      TotalIsAdditive(init, a, b, c);
      WeightIsAdditive(last, a, b, c);
      assert ps == init + [last];
      WeightsAppend(init, last, a, c);
      WeightsAppend(init, last, a, b);
      WeightsAppend(init, last, b, c);
    }
  }

  // ── Floors ──

  /** The floor of the exact share. */
  function Share(amount: nat, weight: nat, total: nat): nat
    requires total > 0
  {
    Div(Mul(amount, weight), total)
  }

  function Shares(ws: seq<nat>, amount: nat, total: nat): seq<nat>
    requires total > 0
  {
    seq(|ws|, i requires 0 <= i < |ws| => Share(amount, ws[i], total))
  }

  /**
   * Rounding every share down loses less than one unit for each further positive
   * weight: the floors add up to at most the floor of the sum, and to at most
   * (number of positive weights - 1) less.
   */
  lemma {:induction false} FloorsLoseLittle(ws: seq<nat>, amount: nat, total: nat)
    requires total > 0
    ensures Sum(Shares(ws, amount, total)) <= Share(amount, Sum(ws), total)
    ensures Share(amount, Sum(ws), total) <= Sum(Shares(ws, amount, total)) + if Positive(ws) == 0 then 0 else Positive(ws) - 1
    ensures Positive(ws) == 0 <==> Sum(ws) == 0
  {
    if ws != [] {
      var init, w := ws[..|ws| - 1], ws[|ws| - 1];
      FloorsLoseLittle(init, amount, total);
      var shares := Shares(ws, amount, total);
      assert shares[..|shares| - 1] == Shares(init, amount, total);
      MulAdds(amount, Sum(init), w);
      DivSum(Mul(amount, Sum(init)), Mul(amount, w), total);
    } else {
      assert Shares(ws, amount, total) == [];
    }
  }

  lemma ShareOfAll(amount: nat, total: nat)
    requires total > 0
    ensures Share(amount, total, total) == amount
  {
    QuotientIs(Mul(amount, total), total, amount);
  }

  /** Dust over a full set of weights. */
  lemma DustBound(ws: seq<nat>, amount: nat)
    requires Sum(ws) > 0
    ensures 0 <= amount - Sum(Shares(ws, amount, Sum(ws))) < Positive(ws)
  {
    FloorsLoseLittle(ws, amount, Sum(ws));
    ShareOfAll(amount, Sum(ws));
  }

  // ── calculate_allocations ──

  function AllocationOf(p: Position, share: nat): seq<Allocation> {
    if share == 0 then [] else [Allocation(p.id, p.user, share)]
  }

  /** One allocation for every position with a positive share, in the order of the rows. */
  function Allocate(ps: seq<Position>, from: int, to: int, amount: nat, total: nat): seq<Allocation>
    requires total > 0
  {
    if ps == [] then []
    else
      var p := ps[|ps| - 1];
      Allocate(ps[..|ps| - 1], from, to, amount, total) + AllocationOf(p, Share(amount, Weight(p, from, to), total))
  }

  function AmountOf(allocations: seq<Allocation>): nat {
    if allocations == [] then 0 else AmountOf(allocations[..|allocations| - 1]) + allocations[|allocations| - 1].amount
  }

  function WithDust(allocations: seq<Allocation>, dust: nat): seq<Allocation> {
    if dust == 0 || allocations == [] then allocations
    else allocations[0 := allocations[0].(amount := allocations[0].amount + dust)]
  }

  /** Rows the filter drops have no share, so the shares are those of all rows. */
  lemma {:induction false} AllocateIgnoresDropped(rows: seq<Position>, from: int, to: int, amount: nat, total: nat)
    requires total > 0
    ensures Allocate(ActiveOf(rows, from, to), from, to, amount, total) == Allocate(rows, from, to, amount, total)
  {
    if rows != [] {
      var init, p := rows[..|rows| - 1], rows[|rows| - 1];
      var active := ActiveOf(init, from, to);
      AllocateIgnoresDropped(init, from, to, amount, total);
      if Active(p, from, to) {
        assert ActiveOf(rows, from, to)[..|active|] == active;
      } else {
        DroppedWeighsNothing(p, from, to);
        ShareOfNothing(amount, total);
        assert ActiveOf(rows, from, to) == active;
        assert Allocate(init, from, to, amount, total) + [] == Allocate(init, from, to, amount, total);
      }
    }
  }

  /** The allocations before the dust; none without a weighted position. */
  function Undusted(rows: seq<Position>, from: int, to: int, amount: nat): seq<Allocation> {
    var total := Total(rows, from, to);
    if total == 0 then [] else Allocate(rows, from, to, amount, total)
  }

  lemma UndustedFits(rows: seq<Position>, from: int, to: int, amount: nat)
    ensures AmountOf(Undusted(rows, from, to, amount)) <= amount
    ensures Total(rows, from, to) > 0 ==>
              amount - AmountOf(Undusted(rows, from, to, amount)) < Positive(Weights(rows, from, to))
  {
    var total := Total(rows, from, to);
    if total > 0 {
      AmountsAreShares(rows, from, to, amount, total);
      DustBound(Weights(rows, from, to), amount);
    }
  }

  function Dust(rows: seq<Position>, from: int, to: int, amount: nat): nat {
    UndustedFits(rows, from, to, amount);
    if Total(rows, from, to) == 0 then 0 else amount - AmountOf(Undusted(rows, from, to, amount))
  }

  function Allocations(rows: seq<Position>, from: int, to: int, amount: nat): seq<Allocation> {
    WithDust(Undusted(rows, from, to, amount), Dust(rows, from, to, amount))
  }

  /** calculate_allocations: the active rows, their weights, the floors, and the dust on the first allocation. */
  method CalculateAllocations(rows: seq<Position>, from: int, to: int, distributable: nat)
    returns (allocations: seq<Allocation>, dust: nat)
    ensures allocations == Allocations(rows, from, to, distributable) && dust == Dust(rows, from, to, distributable)
    ensures Total(rows, from, to) == 0 ==> allocations == [] && dust == 0
    ensures Total(rows, from, to) > 0 ==> dust < Positive(Weights(rows, from, to))
    ensures allocations != [] ==> AmountOf(allocations) == distributable
  {
    hide Allocate, ActiveOf, Share;
    FiltersAgree(rows, from, to);
    UndustedFits(rows, from, to, distributable);
    var positions := SelectActive(rows, from, to);
    if positions == [] {
      return [], 0;
    }
    var weights, total := WeighAll(positions, from, to);
    if total == 0 {
      return [], 0;
    }
    var allocatedTotal;
    allocations, allocatedTotal := ShareOut(positions, weights, from, to, distributable, total);
    AllocateIgnoresDropped(rows, from, to, distributable, total);
    dust := distributable - allocatedTotal;
    if |allocations| > 0 {
      AmountWithDust(allocations, dust);
    }
    if dust > 0 && |allocations| > 0 {
      allocations := allocations[0 := allocations[0].(amount := allocations[0].amount + dust)];
    }
  }

  method ShareOut(positions: seq<Position>, weights: seq<nat>, from: int, to: int, distributable: nat, total: nat)
    returns (allocations: seq<Allocation>, allocatedTotal: nat)
    requires total > 0 && weights == Weights(positions, from, to)
    ensures allocations == Allocate(positions, from, to, distributable, total)
    ensures allocatedTotal == AmountOf(allocations)
  {
    allocations, allocatedTotal := [], 0;
    for i := 0 to |positions|
      invariant allocations == Allocate(positions[..i], from, to, distributable, total)
      invariant allocatedTotal == AmountOf(allocations)
    {
      assert positions[..i + 1][..i] == positions[..i];
      var amount := Share(distributable, weights[i], total);
      if amount != 0 {
        allocatedTotal := allocatedTotal + amount;
        allocations := allocations + [Allocation(positions[i].id, positions[i].user, amount)];
      }
    }
    assert positions[..|positions|] == positions;
  }

  method SelectActive(rows: seq<Position>, from: int, to: int) returns (positions: seq<Position>)
    ensures positions == ActiveOf(rows, from, to)
  {
    positions := [];
    for i := 0 to |rows|
      invariant positions == ActiveOf(rows[..i], from, to)
    {
      assert rows[..i + 1][..i] == rows[..i];
      if DepositedBefore(rows[i], to) && !SettledBefore(rows[i], from) {
        positions := positions + [rows[i]];
      }
    }
    assert rows[..|rows|] == rows;
  }

  method WeighAll(positions: seq<Position>, from: int, to: int) returns (weights: seq<nat>, total: nat)
    ensures weights == Weights(positions, from, to) && total == Total(positions, from, to)
  {
    weights, total := [], 0;
    for i := 0 to |positions|
      invariant weights == Weights(positions[..i], from, to) && total == Total(positions[..i], from, to)
    {
      assert positions[..i + 1] == positions[..i] + [positions[i]];
      WeightsAppend(positions[..i], positions[i], from, to);
      var weight := Weight(positions[i], from, to);
      weights, total := weights + [weight], total + weight;
    }
    assert positions[..|positions|] == positions;
  }

  lemma AmountOfAppend(a: seq<Allocation>, x: Allocation)
    ensures AmountOf(a + [x]) == AmountOf(a) + x.amount
  {
    assert (a + [x])[..|a|] == a;
  }

  lemma {:induction false} AmountsAreShares(ps: seq<Position>, from: int, to: int, amount: nat, total: nat)
    requires total > 0
    ensures AmountOf(Allocate(ps, from, to, amount, total)) == Sum(Shares(Weights(ps, from, to), amount, total))
  {
    if ps != [] {
      hide Share, Weight;
      var init, p := ps[..|ps| - 1], ps[|ps| - 1];
      AmountsAreShares(init, from, to, amount, total);
      var share := Share(amount, Weight(p, from, to), total);
      SharesAppend(init, p, from, to, amount, total);
      assert ps == init + [p];
      var before := Allocate(init, from, to, amount, total);
      if share == 0 {
        assert Allocate(ps, from, to, amount, total) == before;
      } else {
        AmountOfAppend(before, Allocation(p.id, p.user, share));
      }
    }
  }

  lemma SharesAppend(ps: seq<Position>, p: Position, from: int, to: int, amount: nat, total: nat)
    requires total > 0
    ensures Sum(Shares(Weights(ps + [p], from, to), amount, total))
         == Sum(Shares(Weights(ps, from, to), amount, total)) + Share(amount, Weight(p, from, to), total)
  {
    hide Share, Weight;
    var all := Shares(Weights(ps + [p], from, to), amount, total);
    assert all[..|all| - 1] == Shares(Weights(ps, from, to), amount, total);
  }

  lemma {:induction false} AmountWithDust(allocations: seq<Allocation>, dust: nat)
    requires allocations != []
    ensures AmountOf(WithDust(allocations, dust)) == AmountOf(allocations) + dust
  {
    var init, last := allocations[..|allocations| - 1], allocations[|allocations| - 1];
    if dust > 0 {
      if init == [] {
        assert WithDust(allocations, dust)[..0] == init;
      } else {
        AmountWithDust(init, dust);
        assert WithDust(allocations, dust) == WithDust(init, dust) + [last];
        AmountOfAppend(WithDust(init, dust), last);
      }
    }
  }

  // ── The fee ──

  function PlatformFee(total: nat, feeBps: nat): nat { Div(Mul(total, feeBps), BPS) }

  function Distributable(total: nat, feeBps: nat): nat
    requires feeBps <= BPS
  {
    FeeAtMostTotal(total, feeBps);
    total - PlatformFee(total, feeBps)
  }

  /** What the estimates take off the accrued yield first. */
  function EstimatedDistributable(accrued: nat, feeBps: nat): nat
    requires feeBps <= BPS
  {
    Div(Mul(accrued, BPS - feeBps), BPS)
  }

  lemma FeeAtMostTotal(total: nat, feeBps: nat)
    requires feeBps <= BPS
    ensures PlatformFee(total, feeBps) <= total
  {
    MulAdds(total, feeBps, BPS - feeBps);
  }

  /** The estimate rounds the users' part down, the distribution rounds the fee down: they differ by at most one. */
  lemma EstimatedDistributableIff(total: nat, feeBps: nat)
    requires feeBps <= BPS
    ensures EstimatedDistributable(total, feeBps) <= Distributable(total, feeBps) <= EstimatedDistributable(total, feeBps) + 1
    ensures Distributable(total, feeBps) == EstimatedDistributable(total, feeBps) <==> Mul(total, feeBps) % BPS == 0
  {
    MulAdds(total, feeBps, BPS - feeBps);
    assert Mul(total, BPS) == total * BPS;
  }

  /** The position's exact share is at least one unit. */
  predicate HasUnit(p: Position, from: int, to: int, amount: nat, total: nat) {
    Mul(amount, Weight(p, from, to)) >= total > 0
  }

  lemma UnitIsPositiveShare(p: Position, from: int, to: int, amount: nat, total: nat)
    requires total > 0
    ensures HasUnit(p, from, to, amount, total) <==> Share(amount, Weight(p, from, to), total) > 0
  {
    FloorIsZeroIff(Mul(amount, Weight(p, from, to)), total);
  }

  lemma {:induction false} AllocatesIff(ps: seq<Position>, from: int, to: int, amount: nat, total: nat)
    requires total > 0
    ensures Allocate(ps, from, to, amount, total) != []
       <==> exists i :: 0 <= i < |ps| && HasUnit(ps[i], from, to, amount, total)
  {
    if ps != [] {
      hide HasUnit, Share;
      var init, p := ps[..|ps| - 1], ps[|ps| - 1];
      AllocatesIff(init, from, to, amount, total);
      UnitIsPositiveShare(p, from, to, amount, total);
      assert forall i :: 0 <= i < |init| ==> init[i] == ps[i];
    }
  }

  /**
   * Conservation: fee and allocations together are the harvested yield exactly when
   * there is nothing to distribute or some position's exact share reaches one unit.
   */
  lemma YieldIsConservedIff(rows: seq<Position>, from: int, to: int, harvested: nat, feeBps: nat)
    requires feeBps <= BPS
    ensures PlatformFee(harvested, feeBps) + AmountOf(Allocations(rows, from, to, Distributable(harvested, feeBps))) == harvested
       <==> || Distributable(harvested, feeBps) == 0
            || (exists i :: 0 <= i < |rows| && HasUnit(rows[i], from, to, Distributable(harvested, feeBps), Total(rows, from, to)))
  {
    var amount, total := Distributable(harvested, feeBps), Total(rows, from, to);
    UndustedFits(rows, from, to, amount);
    if total > 0 {
      AllocatesIff(rows, from, to, amount, total);
      if Undusted(rows, from, to, amount) != [] {
        AmountWithDust(Undusted(rows, from, to, amount), Dust(rows, from, to, amount));
      }
    }
  }

  function Deposit(id: string, user: string, collateral: nat): Position {
    Position(id, user, "usdc", collateral, 0, None)
  }

  lemma TwoDeposits(a: Position, b: Position)
    requires a.depositedAt == b.depositedAt == 0 && a.settledAt == b.settledAt == None
    ensures Weight(a, 0, 1) == a.collateral && Weight(b, 0, 1) == b.collateral
    ensures Total([a, b], 0, 1) == a.collateral + b.collateral
  {
    MulAdds(a.collateral, 1, 0);
    MulAdds(b.collateral, 1, 0);
    WeightsAppend([], a, 0, 1);
    WeightsAppend([a], b, 0, 1);
    assert [] + [a] == [a] && [a] + [b] == [a, b];
  }

  /** Yields nobody gets: one unit for two equal positions, and any yield without positions. */
  lemma YieldCanStayUnpaid(harvested: nat)
    requires harvested > 0
    ensures var rows := [Deposit("p", "u", 1), Deposit("q", "v", 1)];
            PlatformFee(1, 0) + AmountOf(Allocations(rows, 0, 1, Distributable(1, 0))) == 0
    ensures PlatformFee(harvested, 0) + AmountOf(Allocations([], 0, 1, Distributable(harvested, 0))) == 0
  {
    var a, b := Deposit("p", "u", 1), Deposit("q", "v", 1);
    TwoDeposits(a, b);
    assert PlatformFee(1, 0) == 0 && PlatformFee(harvested, 0) == 0;
    AllocatesIff([a, b], 0, 1, 1, 2);
    assert !HasUnit([a, b][0], 0, 1, 1, 2) && !HasUnit([a, b][1], 0, 1, 1, 2);
    assert Undusted([a, b], 0, 1, 1) == [];
    assert Undusted([], 0, 1, harvested) == [];
  }

  // ── Who gets what ──

  /** The rows an allocation was made for, as indices in order. */
  ghost function Kept(ps: seq<Position>, from: int, to: int, amount: nat, total: nat): seq<nat>
    requires total > 0
  {
    if ps == [] then []
    else
      var p := ps[|ps| - 1];
      Kept(ps[..|ps| - 1], from, to, amount, total)
        + if Share(amount, Weight(p, from, to), total) == 0 then [] else [|ps| - 1]
  }

  /** Allocation k belongs to row kept[k] and is its floor; the rows left out have a share of zero. */
  ghost predicate FloorsOf(ps: seq<Position>, kept: seq<nat>, shares: seq<Allocation>, from: int, to: int, amount: nat, total: nat)
    requires total > 0
  {
    && |shares| == |kept|
    && (forall k :: 0 <= k < |kept| ==> kept[k] < |ps| && IsFloorOf(ps[kept[k]], shares[k], from, to, amount, total))
    && (forall j, k :: 0 <= j < k < |kept| ==> kept[j] < kept[k])
    && (forall i :: 0 <= i < |ps| && Share(amount, Weight(ps[i], from, to), total) > 0 ==> i in kept)
  }

  predicate IsFloorOf(p: Position, a: Allocation, from: int, to: int, amount: nat, total: nat)
    requires total > 0
  {
    a.position == p.id && a.user == p.user && a.amount == Share(amount, Weight(p, from, to), total) > 0
  }

  lemma FloorsOfAppend(ps: seq<Position>, p: Position, kept: seq<nat>, shares: seq<Allocation>,
                       from: int, to: int, amount: nat, total: nat)
    requires total > 0 && FloorsOf(ps, kept, shares, from, to, amount, total)
    ensures var share := Share(amount, Weight(p, from, to), total);
            FloorsOf(ps + [p], kept + if share == 0 then [] else [|ps|], shares + AllocationOf(p, share), from, to, amount, total)
  {
    hide Share, Weight;
    var share := Share(amount, Weight(p, from, to), total);
    if share == 0 {
      assert kept + [] == kept && shares + [] == shares;
    } else {
      var kept' := kept + [|ps|];
      assert kept'[|kept|] == |ps|;
      forall i | 0 <= i < |ps| && Share(amount, Weight(ps[i], from, to), total) > 0 ensures i in kept' {
        assert i in kept;
      }
    }
  }

  lemma {:induction false} AllocationsAreFloors(ps: seq<Position>, from: int, to: int, amount: nat, total: nat)
    requires total > 0
    ensures FloorsOf(ps, Kept(ps, from, to, amount, total), Allocate(ps, from, to, amount, total), from, to, amount, total)
  {
    hide FloorsOf;
    if ps == [] {
      FloorsOfNothing(from, to, amount, total);
    } else {
      var init, p := ps[..|ps| - 1], ps[|ps| - 1];
      AllocationsAreFloors(init, from, to, amount, total);
      FloorsOfAppend(init, p, Kept(init, from, to, amount, total), Allocate(init, from, to, amount, total), from, to, amount, total);
      assert ps == init + [p];
    }
  }

  lemma FloorsOfNothing(from: int, to: int, amount: nat, total: nat)
    requires total > 0
    ensures FloorsOf([], [], [], from, to, amount, total)
  {}

  /** Row f is the first whose share is a whole unit, and no row's share is larger. */
  ghost predicate FirstUnitIsLargest(rows: seq<Position>, f: nat, from: int, to: int, amount: nat, total: nat) {
    && total > 0 && f < |rows| && Share(amount, Weight(rows[f], from, to), total) > 0
    && (forall i :: 0 <= i < f ==> Share(amount, Weight(rows[i], from, to), total) == 0)
    && (forall i :: 0 <= i < |rows| ==>
          Share(amount, Weight(rows[i], from, to), total) <= Share(amount, Weight(rows[f], from, to), total))
  }

  /** The dust lies on an allocation whose share no other exceeds. */
  ghost predicate DustIsOnLargest(allocations: seq<Allocation>, dust: nat) {
    allocations != [] && forall k :: 0 < k < |allocations| ==> allocations[k].amount + dust <= allocations[0].amount
  }

  lemma FirstShareIsLargestIff(rows: seq<Position>, from: int, to: int, amount: nat, total: nat)
    requires total > 0
    ensures DustIsOnLargest(Allocate(rows, from, to, amount, total), 0)
       <==> exists f :: FirstUnitIsLargest(rows, f, from, to, amount, total)
  {
    hide Share, Weight;
    var shares, kept := Allocate(rows, from, to, amount, total), Kept(rows, from, to, amount, total);
    AllocationsAreFloors(rows, from, to, amount, total);
    if shares == [] {
      return;
    }
    assert IsFloorOf(rows[kept[0]], shares[0], from, to, amount, total);
    if forall k :: 0 < k < |shares| ==> shares[k].amount <= shares[0].amount {
      forall i | 0 <= i < |rows| && Share(amount, Weight(rows[i], from, to), total) > 0
        ensures kept[0] <= i && Share(amount, Weight(rows[i], from, to), total) <= shares[0].amount
      {
        assert i in kept;
        var k :| 0 <= k < |kept| && kept[k] == i;
        assert IsFloorOf(rows[kept[k]], shares[k], from, to, amount, total);
      }
      assert FirstUnitIsLargest(rows, kept[0], from, to, amount, total);
    }
    if f :| FirstUnitIsLargest(rows, f, from, to, amount, total) {
      assert f in kept;
      assert kept[0] == f;
      forall k | 0 < k < |shares| ensures shares[k].amount <= shares[0].amount {
        assert IsFloorOf(rows[kept[k]], shares[k], from, to, amount, total);
      }
    }
  }

  /**
   * Rounding dust reaches a largest allocation exactly when the first position whose
   * share is a whole unit has the largest share of all.
   */
  lemma DustGoesToLargestIff(rows: seq<Position>, from: int, to: int, amount: nat)
    ensures DustIsOnLargest(Allocations(rows, from, to, amount), Dust(rows, from, to, amount))
       <==> exists f :: FirstUnitIsLargest(rows, f, from, to, amount, Total(rows, from, to))
  {
    hide Share, Allocate, Total;
    if Total(rows, from, to) > 0 {
      FirstShareIsLargestIff(rows, from, to, amount, Total(rows, from, to));
      hide FirstUnitIsLargest;
      var shares, dust := Undusted(rows, from, to, amount), Dust(rows, from, to, amount);
      var out := Allocations(rows, from, to, amount);
      assert out != [] ==> out[0].amount == shares[0].amount + dust;
      assert forall k :: 0 < k < |shares| ==> out[k] == shares[k];
    }
  }

  /** Two positions of weights 2 and 3 share 4 units: the one unit of dust goes to the smaller share. */
  lemma DustGoesToFirst()
    ensures var rows := [Deposit("p", "u", 2), Deposit("q", "v", 3)];
            && Undusted(rows, 0, 1, 4) == [Allocation("p", "u", 1), Allocation("q", "v", 2)]
            && Dust(rows, 0, 1, 4) == 1
            && Allocations(rows, 0, 1, 4) == [Allocation("p", "u", 2), Allocation("q", "v", 2)]
            && !DustIsOnLargest(Allocations(rows, 0, 1, 4), 1)
  {
    var a, b := Deposit("p", "u", 2), Deposit("q", "v", 3);
    TwoDeposits(a, b);
    assert [a, b][..1] == [a] && [a][..0] == [];
    assert Share(4, 2, 5) == 1 && Share(4, 3, 5) == 2;
    assert Allocate([a], 0, 1, 4, 5) == [Allocation("p", "u", 1)];
    assert Allocate([a, b], 0, 1, 4, 5) == [Allocation("p", "u", 1)] + [Allocation("q", "v", 2)];
    AmountOfAppend([], Allocation("p", "u", 1));
    AmountOfAppend([Allocation("p", "u", 1)], Allocation("q", "v", 2));
    assert [] + [Allocation("p", "u", 1)] == [Allocation("p", "u", 1)];
    var shares := Undusted([a, b], 0, 1, 4);
    assert shares == [Allocation("p", "u", 1), Allocation("q", "v", 2)] == [Allocation("p", "u", 1)] + [Allocation("q", "v", 2)];
    assert AmountOf(shares) == 3 && Dust([a, b], 0, 1, 4) == 1;
    var out := WithDust(shares, 1);
    assert out == [Allocation("p", "u", 2), Allocation("q", "v", 2)];
    assert out[1].amount + 1 > out[0].amount;
  }

  // ── Estimates ──

  function OfUser(ps: seq<Position>, user: string): seq<Position> {
    if ps == [] then []
    else OfUser(ps[..|ps| - 1], user) + if ps[|ps| - 1].user == user then [ps[|ps| - 1]] else []
  }

  function Pending(rows: seq<Position>, user: string, from: int, to: int, accrued: nat, feeBps: nat): nat
    requires feeBps <= BPS
  {
    var total := Total(rows, from, to);
    if total == 0 then 0
    else Share(EstimatedDistributable(accrued, feeBps), Total(OfUser(rows, user), from, to), total)
  }

  /** estimate_pending_yield: one pass accumulating the user's weight and the total. */
  method EstimatePendingYield(rows: seq<Position>, user: string, from: int, to: int, accrued: nat, feeBps: nat)
    returns (estimate: nat)
    requires feeBps <= BPS
    ensures estimate == Pending(rows, user, from, to, accrued, feeBps)
  {
    if rows == [] {
      return 0;
    }
    var positions := SelectActive(rows, from, to);
    var userWeight, totalWeight := 0, 0;
    for i := 0 to |positions|
      invariant totalWeight == Total(positions[..i], from, to)
      invariant userWeight == Total(OfUser(positions[..i], user), from, to)
    {
      assert positions[..i + 1] == positions[..i] + [positions[i]];
      WeightsAppend(positions[..i], positions[i], from, to);
      UserTotalAppend(positions[..i], positions[i], user, from, to);
      var weight := Weight(positions[i], from, to);
      totalWeight := totalWeight + weight;
      if positions[i].user == user {
        userWeight := userWeight + weight;
      }
    }
    assert positions[..|positions|] == positions;
    FiltersAgree(rows, from, to);
    UserActiveAgree(rows, user, from, to);
    if totalWeight == 0 {
      return 0;
    }
    return Share(EstimatedDistributable(accrued, feeBps), userWeight, totalWeight);
  }

  lemma UserTotalAppend(ps: seq<Position>, p: Position, user: string, from: int, to: int)
    ensures Total(OfUser(ps + [p], user), from, to)
         == Total(OfUser(ps, user), from, to) + if p.user == user then Weight(p, from, to) else 0
  {
    var mine := OfUser(ps, user);
    assert (ps + [p])[..|ps|] == ps;
    WeightsAppend(mine, p, from, to);
    assert mine + [] == mine;
  }

  lemma {:induction false} UserActiveAgree(rows: seq<Position>, user: string, from: int, to: int)
    ensures Total(OfUser(ActiveOf(rows, from, to), user), from, to) == Total(OfUser(rows, user), from, to)
  {
    if rows != [] {
      var init, p := rows[..|rows| - 1], rows[|rows| - 1];
      var active := ActiveOf(init, from, to);
      UserActiveAgree(init, user, from, to);
      assert rows == init + [p];
      UserTotalAppend(init, p, user, from, to);
      UserTotalAppend(active, p, user, from, to);
      if !Active(p, from, to) {
        DroppedWeighsNothing(p, from, to);
        assert ActiveOf(rows, from, to) == active;
      } else {
        assert ActiveOf(rows, from, to) == active + [p];
      }
    }
  }

  lemma {:induction false} UserUnsettledAgree(rows: seq<Position>, user: string, from: int, to: int)
    ensures Total(OfUser(UnsettledOf(rows, from), user), from, to) == Total(OfUser(rows, user), from, to)
  {
    if rows != [] {
      var init, p := rows[..|rows| - 1], rows[|rows| - 1];
      var unsettled := UnsettledOf(init, from);
      UserUnsettledAgree(init, user, from, to);
      assert rows == init + [p];
      UserTotalAppend(init, p, user, from, to);
      UserTotalAppend(unsettled, p, user, from, to);
      if SettledBefore(p, from) {
        DroppedWeighsNothing(p, from, to);
        assert UnsettledOf(rows, from) == unsettled;
      } else {
        assert UnsettledOf(rows, from) == unsettled + [p];
      }
    }
  }

  /** What _estimate_per_position gives one position of an asset whose rows are all there. */
  function EstimateOf(p: Position, rows: seq<Position>, from: int, to: int, accrued: nat, feeBps: nat): nat
    requires feeBps <= BPS
  {
    var total := Total(rows, from, to);
    if total == 0 then 0 else Share(EstimatedDistributable(accrued, feeBps), Weight(p, from, to), total)
  }

  function EstimatesOf(ps: seq<Position>, rows: seq<Position>, from: int, to: int, accrued: nat, feeBps: nat): seq<nat>
    requires feeBps <= BPS
  {
    seq(|ps|, i requires 0 <= i < |ps| => EstimateOf(ps[i], rows, from, to, accrued, feeBps))
  }

  /**
   * A user's per-position estimates add up to at most the pending estimate, and
   * fall short of it by less than the number of the user's positions with weight.
   */
  lemma EstimatesFitPending(rows: seq<Position>, user: string, from: int, to: int, accrued: nat, feeBps: nat)
    requires feeBps <= BPS
    ensures var mine := OfUser(UnsettledOf(rows, from), user);
            var k := Positive(Weights(mine, from, to));
            var estimates := Sum(EstimatesOf(mine, rows, from, to, accrued, feeBps));
            var pending := Pending(rows, user, from, to, accrued, feeBps);
            && estimates <= pending && (k == 0 ==> pending == 0) && (k > 0 ==> pending - estimates < k)
  {
    hide Weight, OfUser, UnsettledOf, Positive;
    var mine, total := OfUser(UnsettledOf(rows, from), user), Total(rows, from, to);
    var amount := EstimatedDistributable(accrued, feeBps);
    UserUnsettledAgree(rows, user, from, to);
    FloorsLoseLittle(Weights(mine, from, to), amount, Max(total, 1));
    if total > 0 {
      assert EstimatesOf(mine, rows, from, to, accrued, feeBps) == Shares(Weights(mine, from, to), amount, total);
      ShareOfNothing(amount, total);
    } else {
      ZeroEstimates(EstimatesOf(mine, rows, from, to, accrued, feeBps));
    }
  }

  lemma ShareOfNothing(amount: nat, total: nat)
    requires total > 0
    ensures Share(amount, 0, total) == 0
  {}

  lemma {:induction false} ZeroEstimates(s: seq<nat>)
    requires forall i :: 0 <= i < |s| ==> s[i] == 0
    ensures Sum(s) == 0
  {
    if s != [] {
      ZeroEstimates(s[..|s| - 1]);
    }
  }

  lemma ShareIsMonotone(a: nat, b: nat, weight: nat, total: nat)
    requires a <= b && total > 0
    ensures Share(a, weight, total) <= Share(b, weight, total)
  {
    assert Mul(b, weight) == Mul(a, weight) + Mul(b - a, weight);
    DivMonotone(Mul(a, weight), Mul(b, weight), total);
  }

  /** No estimate promises more than the same yield later allocates to the position. */
  lemma EstimateAtMostAllocation(rows: seq<Position>, i: nat, from: int, to: int, harvested: nat, feeBps: nat)
    returns (k: nat)
    requires feeBps <= BPS && i < |rows| && EstimateOf(rows[i], rows, from, to, harvested, feeBps) > 0
    ensures var out := Allocations(rows, from, to, Distributable(harvested, feeBps));
            && k < |out| && out[k].position == rows[i].id
            && out[k].amount >= EstimateOf(rows[i], rows, from, to, harvested, feeBps)
  {
    hide Weight, FloorsOf, Kept;
    var amount, total := Distributable(harvested, feeBps), Total(rows, from, to);
    EstimatedDistributableIff(harvested, feeBps);
    ShareIsMonotone(EstimatedDistributable(harvested, feeBps), amount, Weight(rows[i], from, to), total);
    k := AllocationFor(rows, i, from, to, amount, total);
  }

  /** Every row with a positive share has an allocation. */
  lemma AllocationFor(ps: seq<Position>, i: nat, from: int, to: int, amount: nat, total: nat) returns (k: nat)
    requires total > 0 && i < |ps| && Share(amount, Weight(ps[i], from, to), total) > 0
    ensures var shares := Allocate(ps, from, to, amount, total);
            k < |shares| && IsFloorOf(ps[i], shares[k], from, to, amount, total)
  {
    hide Share, Weight;
    AllocationsAreFloors(ps, from, to, amount, total);
    var kept := Kept(ps, from, to, amount, total);
    assert i in kept;
    k :| 0 <= k < |kept| && kept[k] == i;
  }
}
