/** Pending yield per position, over all assets at once (src/api/yield_routes.py). */
module YieldEstimates {
  import opened Arithmetic
  import opened Wrappers
  import opened YieldSharing

  function OfAsset(ps: seq<Position>, asset: string): seq<Position> {
    if ps == [] then []
    else OfAsset(ps[..|ps| - 1], asset) + if ps[|ps| - 1].asset == asset then [ps[|ps| - 1]] else []
  }

  ghost predicate UniqueIds(ps: seq<Position>) {
    forall i, j :: 0 <= i < j < |ps| ==> ps[i].id != ps[j].id
  }

  /** The accrued yield of an asset, where a failed read counts as none. */
  function Accrued(accruedByAsset: map<string, int>, asset: string): nat {
    if asset in accruedByAsset && accruedByAsset[asset] > 0 then accruedByAsset[asset] else 0
  }

  /** The estimate of one position against all rows of its asset. */
  function Estimate(p: Position, all: seq<Position>, from: int, to: int, accruedByAsset: map<string, int>, feeBps: nat): nat
    requires feeBps <= BPS
  {
    EstimateOf(p, OfAsset(all, p.asset), from, to, Accrued(accruedByAsset, p.asset), feeBps)
  }

  lemma {:induction false} OfAssetHas(ps: seq<Position>, asset: string, i: nat) returns (j: nat)
    requires i < |ps| && ps[i].asset == asset
    ensures j < |OfAsset(ps, asset)| && OfAsset(ps, asset)[j] == ps[i]
  {
    if i == |ps| - 1 {
      j := |OfAsset(ps[..i], asset)|;
    } else {
      j := OfAssetHas(ps[..|ps| - 1], asset, i);
    }
  }

  lemma {:induction false} OfAssetFrom(ps: seq<Position>, asset: string, j: nat) returns (i: nat)
    requires j < |OfAsset(ps, asset)|
    ensures i < |ps| && ps[i] == OfAsset(ps, asset)[j] && ps[i].asset == asset
  {
    if j == |OfAsset(ps[..|ps| - 1], asset)| {
      i := |ps| - 1;
    } else {
      i := OfAssetFrom(ps[..|ps| - 1], asset, j);
    }
  }

  lemma {:induction false} OfAssetUnique(ps: seq<Position>, asset: string)
    requires UniqueIds(ps)
    ensures UniqueIds(OfAsset(ps, asset))
  {
    if ps != [] {
      var init := ps[..|ps| - 1];
      OfAssetUnique(init, asset);
      forall j | 0 <= j < |OfAsset(init, asset)| ensures OfAsset(init, asset)[j].id != ps[|ps| - 1].id {
        var i := OfAssetFrom(init, asset, j);
      }
    }
  }

  /** The first k positions of a group have their estimate, and nothing else was added. */
  ghost predicate Filled(before: map<string, nat>, after: map<string, nat>, ps: seq<Position>, es: seq<nat>, k: nat)
    requires k <= |ps| == |es|
  {
    && (forall i :: 0 <= i < k ==> (ps[i].id in after <==> es[i] > 0) && (es[i] > 0 ==> after[ps[i].id] == es[i]))
    && (forall id :: id in before ==> id in after && after[id] == before[id])
    && (forall id :: id in after ==> id in before || exists i :: 0 <= i < k && ps[i].id == id)
  }

  /** The body of the loop over the assets. */
  method EstimateAsset(positions: seq<Position>, from: int, to: int, accrued: nat, feeBps: nat, before: map<string, nat>)
    returns (estimates: map<string, nat>)
    requires feeBps <= BPS && accrued > 0 && UniqueIds(positions)
    requires forall i :: 0 <= i < |positions| ==> positions[i].id !in before
    ensures Filled(before, estimates, positions, EstimatesOf(positions, positions, from, to, accrued, feeBps), |positions|)
  {
    hide Weight;
    estimates := before;
    var distributable := EstimatedDistributable(accrued, feeBps);
    var kept, total := WeighUnsettled(positions, from, to);
    ghost var es := EstimatesOf(positions, positions, from, to, accrued, feeBps);
    if total == 0 {
      return;
    }
    for i := 0 to |positions|
      invariant Filled(before, estimates, positions, es, i)
    {
      if kept[i].Some? {
        var amount := Share(distributable, kept[i].value, total);
        if amount > 0 {
          estimates := estimates[positions[i].id := amount];
        }
      } else {
        DroppedWeighsNothing(positions[i], from, to);
        ShareOfNothing(distributable, total);
      }
    }
  }

  /** The weights of the rows not settled before the period; the others are skipped. */
  method WeighUnsettled(positions: seq<Position>, from: int, to: int) returns (kept: seq<Option<nat>>, total: nat)
    ensures |kept| == |positions| && total == Total(positions, from, to)
    ensures forall i :: 0 <= i < |kept| ==>
              if SettledBefore(positions[i], from) then kept[i].None? else kept[i] == Some(Weight(positions[i], from, to))
  {
    kept, total := [], 0;
    for i := 0 to |positions|
      invariant |kept| == i && total == Total(positions[..i], from, to)
      invariant forall j :: 0 <= j < i ==>
                  if SettledBefore(positions[j], from) then kept[j].None? else kept[j] == Some(Weight(positions[j], from, to))
    {
      assert positions[..i + 1] == positions[..i] + [positions[i]];
      WeightsAppend(positions[..i], positions[i], from, to);
      if SettledBefore(positions[i], from) {
        DroppedWeighsNothing(positions[i], from, to);
        kept := kept + [None];
      } else {
        var weight := Weight(positions[i], from, to);
        kept, total := kept + [Some(weight)], total + weight;
      }
    }
    assert positions[..|positions|] == positions;
  }

  ghost predicate Grouped(byAsset: map<string, seq<Position>>, ps: seq<Position>) {
    forall a :: OfAsset(ps, a) == if a in byAsset then byAsset[a] else []
  }

  lemma GroupedAppend(byAsset: map<string, seq<Position>>, ps: seq<Position>, p: Position)
    requires Grouped(byAsset, ps)
    ensures Grouped(byAsset[p.asset := OfAsset(ps, p.asset) + [p]], ps + [p])
  {
    assert (ps + [p])[..|ps|] == ps;
  }

  /** Grouping by asset, in order of first appearance. */
  method GroupByAsset(all: seq<Position>) returns (byAsset: map<string, seq<Position>>, order: seq<string>)
    ensures forall a :: a in order <==> a in byAsset
    ensures forall i, j :: 0 <= i < j < |order| ==> order[i] != order[j]
    ensures forall i :: 0 <= i < |all| ==> all[i].asset in byAsset
    ensures Grouped(byAsset, all)
  {
    hide OfAsset;
    byAsset, order := map[], [];
    assert Grouped(byAsset, []) by { NothingGrouped(); }
    for i := 0 to |all|
      invariant forall a :: a in order <==> a in byAsset
      invariant forall i, j :: 0 <= i < j < |order| ==> order[i] != order[j]
      invariant forall j :: 0 <= j < i ==> all[j].asset in byAsset
      invariant Grouped(byAsset, all[..i])
    {
      var p := all[i];
      GroupedAppend(byAsset, all[..i], p);
      assert all[..i + 1] == all[..i] + [p];
      if p.asset in byAsset {
        byAsset := byAsset[p.asset := byAsset[p.asset] + [p]];
      } else {
        byAsset, order := byAsset[p.asset := [] + [p]], order + [p.asset];
      }
    }
    assert all[..|all|] == all;
  }

  lemma NothingGrouped()
    ensures Grouped(map[], [])
  {}

  ghost predicate EstimatedFor(all: seq<Position>, i: nat, estimates: map<string, nat>, from: int, to: int,
                               accruedByAsset: map<string, int>, feeBps: nat)
    requires feeBps <= BPS && i < |all|
  {
    var e := Estimate(all[i], all, from, to, accruedByAsset, feeBps);
    (all[i].id in estimates <==> e > 0) && (e > 0 ==> estimates[all[i].id] == e)
  }

  /** _estimate_per_position: every position gets its share of its own asset's yield, and no other key appears. */
  method EstimatePerPosition(all: seq<Position>, from: int, to: int, accruedByAsset: map<string, int>, feeBps: nat)
    returns (estimates: map<string, nat>)
    requires feeBps <= BPS && UniqueIds(all)
    ensures forall i :: 0 <= i < |all| ==> EstimatedFor(all, i, estimates, from, to, accruedByAsset, feeBps)
    ensures forall id :: id in estimates ==> exists i :: 0 <= i < |all| && all[i].id == id
  {
    hide OfAsset, EstimateOf, EstimatesOf;
    var byAsset: map<string, seq<Position>>, order: seq<string> := GroupByAsset(all);
    estimates := map[];
    for n := 0 to |order|
      invariant forall i :: 0 <= i < |all| && all[i].asset in order[..n] ==>
                  EstimatedFor(all, i, estimates, from, to, accruedByAsset, feeBps)
      invariant KeysFrom(all, order[..n], estimates)
    {
      var a := order[n];
      ghost var before := estimates;
      assert order[..n + 1] == order[..n] + [a] && a !in order[..n];
      OfAssetUnique(all, a);
      NoneYet(all, order[..n], a, estimates);
      if a in accruedByAsset && accruedByAsset[a] > 0 {
        forall j | 0 <= j < |byAsset[a]| ensures byAsset[a][j].id !in estimates {
          var i := OfAssetFrom(all, a, j);
        }
        estimates := EstimateAsset(byAsset[a], from, to, accruedByAsset[a], feeBps, estimates);
      }
      forall i | 0 <= i < |all| && all[i].asset in order[..n + 1]
        ensures EstimatedFor(all, i, estimates, from, to, accruedByAsset, feeBps)
      {
        GroupDone(all, a, before, estimates, i, from, to, accruedByAsset, feeBps);
      }
      GroupKeys(all, order[..n], a, before, estimates, from, to, accruedByAsset, feeBps);
    }
    assert order[..|order|] == order;
  }

  ghost predicate KeysFrom(all: seq<Position>, assets: seq<string>, estimates: map<string, nat>) {
    forall id :: id in estimates ==> exists i :: 0 <= i < |all| && all[i].id == id && all[i].asset in assets
  }

  lemma NoneYet(all: seq<Position>, assets: seq<string>, a: string, estimates: map<string, nat>)
    requires UniqueIds(all) && KeysFrom(all, assets, estimates) && a !in assets
    ensures forall i :: 0 <= i < |all| && all[i].asset == a ==> all[i].id !in estimates
  {}

  ghost predicate GroupStep(all: seq<Position>, a: string, before: map<string, nat>, after: map<string, nat>, from: int, to: int,
                            accruedByAsset: map<string, int>, feeBps: nat)
    requires feeBps <= BPS
  {
    var rows, accrued := OfAsset(all, a), Accrued(accruedByAsset, a);
    if accrued == 0 then after == before
    else Filled(before, after, rows, EstimatesOf(rows, rows, from, to, accrued, feeBps), |rows|)
  }

  lemma GroupDone(all: seq<Position>, a: string, before: map<string, nat>, after: map<string, nat>, i: nat, from: int, to: int,
                  accruedByAsset: map<string, int>, feeBps: nat)
    requires feeBps <= BPS && i < |all| && UniqueIds(all) && GroupStep(all, a, before, after, from, to, accruedByAsset, feeBps)
    requires if all[i].asset == a then all[i].id !in before else EstimatedFor(all, i, before, from, to, accruedByAsset, feeBps)
    ensures EstimatedFor(all, i, after, from, to, accruedByAsset, feeBps)
  {
    if all[i].asset == a {
      var j := OfAssetHas(all, a, i);
      NothingAccrued(all[i], OfAsset(all, a), from, to, feeBps);
    } else if all[i].id in after && all[i].id !in before {
      var j :| 0 <= j < |OfAsset(all, a)| && OfAsset(all, a)[j].id == all[i].id;
      var k := OfAssetFrom(all, a, j);
    }
  }

  lemma NothingAccrued(p: Position, rows: seq<Position>, from: int, to: int, feeBps: nat)
    requires feeBps <= BPS
    ensures EstimateOf(p, rows, from, to, 0, feeBps) == 0
  {}

  lemma GroupKeys(all: seq<Position>, assets: seq<string>, a: string, before: map<string, nat>, after: map<string, nat>,
                  from: int, to: int, accruedByAsset: map<string, int>, feeBps: nat)
    requires feeBps <= BPS && KeysFrom(all, assets, before) && GroupStep(all, a, before, after, from, to, accruedByAsset, feeBps)
    ensures KeysFrom(all, assets + [a], after)
  {
    forall id | id in after ensures exists i :: 0 <= i < |all| && all[i].id == id && all[i].asset in assets + [a] {
      if id in before {
        var i :| 0 <= i < |all| && all[i].id == id && all[i].asset in assets;
      } else {
        var j :| 0 <= j < |OfAsset(all, a)| && OfAsset(all, a)[j].id == id;
        var i := OfAssetFrom(all, a, j);
      }
    }
  }
}
