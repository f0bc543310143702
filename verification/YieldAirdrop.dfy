/**
 * Harvest, fee, allocation and distribution of one asset's yield, as token
 * movements (src/bots/yield_airdrop.py). A transfer or a write may land although it raises.
 */
module YieldAirdrop {
  import opened Wrappers
  import opened YieldSharing

  datatype Row = Row(distribution: nat, user: string, amount: nat, delivered: bool)

  datatype Summary = Summary(harvested: nat, platformFee: nat, allocations: nat, delivered: nat, failed: nat, dust: nat)

  /** What becomes of a transfer: no effect, it lands although the call raises, or it is confirmed. */
  datatype Call = Refused | LandedUnseen | Confirmed

  /** The fate of the fee transfer and of each row's transfer, and whether nothing else goes wrong (`calm`). */
  datatype Environment = Environment(fee: Call, transfer: nat -> Call, calm: bool)

  function RowOf(a: Allocation, d: nat, delivered: bool): Row { Row(d, a.user, a.amount, delivered) }

  /** The new rows are the allocations, and delivered are those whose transfer is confirmed. */
  ghost predicate Distributed(before: seq<Row>, after: seq<Row>, allocations: seq<Allocation>, d: nat, env: Environment) {
    && |after| == |before| + |allocations| && before <= after
    && forall j :: 0 <= j < |allocations| ==>
         after[|before| + j] == RowOf(allocations[j], d, env.transfer(|before| + j).Confirmed?)
  }

  function PendingSum(rows: seq<Row>, distribution: nat): nat {
    if rows == [] then 0
    else
      var last := rows[|rows| - 1];
      PendingSum(rows[..|rows| - 1], distribution) + if last.distribution == distribution && !last.delivered then last.amount else 0
  }

  function RowsOf(allocations: seq<Allocation>, distribution: nat): seq<Row> {
    seq(|allocations|, i requires 0 <= i < |allocations| =>
      RowOf(allocations[i], distribution, false))
  }

  lemma {:induction false} PendingSumConcat(a: seq<Row>, b: seq<Row>, d: nat)
    ensures PendingSum(a + b, d) == PendingSum(a, d) + PendingSum(b, d)
  {
    if b == [] {
      assert a + b == a;
    } else {
      assert (a + b)[..|a + b| - 1] == a + b[..|b| - 1];
      PendingSumConcat(a, b[..|b| - 1], d);
    }
  }

  lemma {:induction false} NonePending(rows: seq<Row>, d: nat)
    requires forall i :: 0 <= i < |rows| ==> rows[i].distribution != d || rows[i].delivered
    ensures PendingSum(rows, d) == 0
  {
    if rows != [] {
      NonePending(rows[..|rows| - 1], d);
    }
  }

  lemma {:induction false} NewRowsPending(allocations: seq<Allocation>, d: nat)
    ensures PendingSum(RowsOf(allocations, d), d) == AmountOf(allocations)
  {
    if allocations != [] {
      var init := allocations[..|allocations| - 1];
      NewRowsPending(init, d);
      assert RowsOf(allocations, d)[..|allocations| - 1] == RowsOf(init, d);
    }
  }

  lemma {:induction false} MarkedIsNotPending(rows: seq<Row>, i: nat, d: nat)
    requires i < |rows| && rows[i].distribution == d && !rows[i].delivered
    ensures PendingSum(rows[i := rows[i].(delivered := true)], d) == PendingSum(rows, d) - rows[i].amount
  {
    var marked := rows[i := rows[i].(delivered := true)];
    var n := |rows| - 1;
    if i == n {
      assert marked[..n] == rows[..n];
    } else {
      MarkedIsNotPending(rows[..n], i, d);
      assert marked[..n] == rows[..n][i := rows[i].(delivered := true)];
    }
  }

  /** An increasing list of exactly the numbers from m to n has n - m entries. */
  lemma {:induction false} RangeLength(p: seq<nat>, m: nat, n: nat)
    requires m <= n && forall j, k :: 0 <= j < k < |p| ==> p[j] < p[k]
    requires forall k :: 0 <= k < |p| ==> m <= p[k] < n
    requires forall i :: m <= i < n ==> i in p
    ensures |p| == n - m
    decreases n - m
  {
    if p == [] {
      assert m < n ==> m in p;
    } else {
      var z := |p| - 1;
      assert m <= p[z] < n && n - 1 in p;
      var last :| 0 <= last < |p| && p[last] == n - 1;
      assert p[last] <= p[z];
      forall i | m <= i < n - 1 ensures i in p[..z] {
        assert i in p;
        var k :| 0 <= k < |p| && p[k] == i;
        assert p[..z][k] == i;
      }
      RangeLength(p[..z], m, n - 1);
    }
  }

  class Airdrop {
    /** Token balances: the operator, the treasury, and everything sent to users. */
    var operator: int
    var treasury: int
    var paid: int
    /** yield_allocations, and the ids of yield_distributions. */
    var rows: seq<Row>
    var distributions: nat
    /** The part of the payments whose transfer landed although the call raised. */
    ghost var unseen: int

    constructor (balance: int)
      ensures Valid() && operator == balance && treasury == 0 && paid == 0 && rows == [] && unseen == 0
    {
      operator, treasury, paid, rows, distributions, unseen := balance, 0, 0, [], 0, 0;
    }

    ghost predicate Valid()
      reads this
    {
      forall i :: 0 <= i < |rows| ==> rows[i].distribution < distributions
    }

    ghost function Tokens(): int
      reads this
    {
      operator + treasury + paid
    }

    /** What the operator holds but for transfers that landed unseen. */
    ghost function Expected(): int
      reads this
    {
      operator + unseen
    }

    /** _transfer_fee_to_treasury; a failure is logged and the run goes on. */
    method TransferFee(fee: nat, env: Environment) returns (sent: bool)
      modifies this`operator, this`treasury, this`unseen
      ensures sent == env.fee.Confirmed?
      ensures Tokens() == old(Tokens()) && Expected() == old(Expected()) - (if sent then fee else 0)
      ensures unseen == old(unseen) + if env.fee.LandedUnseen? then fee else 0
    {
      sent := env.fee.Confirmed?;
      if !env.fee.Refused? {
        operator, treasury := operator - fee, treasury + fee;
        unseen := unseen + if sent then 0 else fee;
      }
    }

    /** One transfer and, behind it, the marking of its row: each may land although it raises. */
    method Send(i: nat, d: nat, env: Environment) returns (sent: bool, raised: bool)
      requires Valid() && i < |rows| && rows[i].distribution == d && !rows[i].delivered
      modifies this`operator, this`paid, this`rows, this`unseen
      ensures Valid() && Tokens() == old(Tokens())
      ensures rows == old(rows) || (sent && rows == old(rows)[i := old(rows)[i].(delivered := true)])
      ensures sent == env.transfer(i).Confirmed?
      ensures !raised ==> rows[i].delivered == sent
      ensures raised ==> sent && !env.calm
      ensures unseen == old(unseen) + if env.transfer(i).LandedUnseen? then old(rows)[i].amount else 0
      ensures !raised ==> Expected() - old(Expected()) == PendingSum(rows, d) - PendingSum(old(rows), d)
    {
      var call := env.transfer(i);
      sent, raised := call.Confirmed?, false;
      if !call.Refused? {
        operator, paid := operator - rows[i].amount, paid + rows[i].amount;
      }
      if !sent {
        unseen := unseen + if call.LandedUnseen? then rows[i].amount else 0;
        return;
      }
      var marks: bool := *;
      raised := *;
      marks, raised := marks || env.calm, !env.calm && (raised || !marks);
      if marks {
        MarkedIsNotPending(rows, i, d);
        rows := rows[i := rows[i].(delivered := true)];
      }
    }

    /**
     * _distribute_allocations over the pending rows of one distribution. The process
     * may die before any of them; a marking write that raises ends the loop.
     */
    method Distribute(pending: seq<nat>, d: nat, env: Environment) returns (delivered: nat, failed: nat, raised: bool)
      requires Valid() && forall k :: 0 <= k < |pending| ==>
                 pending[k] < |rows| && rows[pending[k]].distribution == d && !rows[pending[k]].delivered
      requires forall j, k :: 0 <= j < k < |pending| ==> pending[j] != pending[k]
      modifies this`operator, this`paid, this`rows, this`unseen
      ensures Valid() && Tokens() == old(Tokens()) && |rows| == |old(rows)|
      ensures !raised ==> delivered + failed == |pending|
      ensures !raised ==> Expected() - old(Expected()) == PendingSum(rows, d) - PendingSum(old(rows), d)
      ensures !raised && failed == 0 ==> forall k :: 0 <= k < |pending| ==> rows[pending[k]].delivered
      ensures !raised ==> forall k :: 0 <= k < |pending| ==> rows[pending[k]].delivered == env.transfer(pending[k]).Confirmed?
      ensures env.calm ==> !raised
      ensures forall i :: 0 <= i < |rows| && rows[i] != old(rows)[i] ==>
                old(rows)[i].distribution == d && rows[i] == old(rows)[i].(delivered := true)
    {
      hide PendingSum;
      delivered, failed, raised := 0, 0, false;
      for k := 0 to |pending|
        invariant Valid() && Tokens() == old(Tokens()) && |rows| == |old(rows)|
        invariant delivered + failed == k
        invariant Expected() - old(Expected()) == PendingSum(rows, d) - PendingSum(old(rows), d)
        invariant failed == 0 ==> forall j :: 0 <= j < k ==> rows[pending[j]].delivered
        invariant forall j :: 0 <= j < k ==> rows[pending[j]].delivered == env.transfer(pending[j]).Confirmed?
        invariant forall j :: k <= j < |pending| ==> rows[pending[j]] == old(rows)[pending[j]]
        invariant forall i :: 0 <= i < |rows| && rows[i] != old(rows)[i] ==>
                    old(rows)[i].distribution == d && rows[i] == old(rows)[i].(delivered := true)
      {
        var sent;
        raised := *;
        raised := raised && !env.calm;
        if raised {
          return;
        }
        sent, raised := Send(pending[k], d, env);
        if raised {
          return;
        }
        if sent {
          delivered := delivered + 1;
        } else {
          failed := failed + 1;
        }
      }
    }

    /** The rows of one distribution that are still pending, in the order the database gives them. */
    method SelectPending(d: nat) returns (pending: seq<nat>)
      ensures forall k :: 0 <= k < |pending| ==>
                pending[k] < |rows| && rows[pending[k]].distribution == d && !rows[pending[k]].delivered
      ensures forall j, k :: 0 <= j < k < |pending| ==> pending[j] < pending[k]
      ensures forall i :: 0 <= i < |rows| && rows[i].distribution == d && !rows[i].delivered ==> i in pending
    {
      pending := [];
      for n := 0 to |rows|
        invariant forall k :: 0 <= k < |pending| ==>
                    pending[k] < n && rows[pending[k]].distribution == d && !rows[pending[k]].delivered
        invariant forall j, k :: 0 <= j < k < |pending| ==> pending[j] < pending[k]
        invariant forall i :: 0 <= i < n && rows[i].distribution == d && !rows[i].delivered ==> i in pending
      {
        if rows[n].distribution == d && !rows[n].delivered {
          pending := pending + [n];
        }
      }
    }

    /**
     * _process_asset after a successful harvest. No token is created or lost; when
     * nothing raises and something was allocated, the operator is left with exactly
     * the unsent fee and the allocations whose transfer failed, less what landed unseen.
     */
    method ProcessAsset(positions: seq<Position>, from: int, to: int, totalYield: nat, feeBps: nat, env: Environment)
      returns (summary: Summary, raised: bool, feeSent: bool, d: nat)
      requires Valid() && feeBps <= BPS
      modifies this
      ensures Valid() && Tokens() == old(Tokens()) + totalYield
      ensures !raised ==> summary.delivered + summary.failed == summary.allocations
      ensures !raised && summary.allocations > 0 ==>
                Expected() == old(Expected()) + PendingSum(rows, d) + if feeSent then 0 else PlatformFee(totalYield, feeBps)
      ensures !raised && summary.allocations > 0 && summary.failed == 0 ==> PendingSum(rows, d) == 0
      ensures !raised && summary.allocations == 0 ==>
                Expected() == old(Expected()) + totalYield - if feeSent then PlatformFee(totalYield, feeBps) else 0
      ensures !raised ==> feeSent == env.fee.Confirmed?
      ensures !raised ==> Distributed(old(rows), rows, Allocations(positions, from, to, Distributable(totalYield, feeBps)), d, env)
      ensures env.calm ==> !raised
    {
      operator := operator + totalYield;
      var fee, distributable := PlatformFee(totalYield, feeBps), Distributable(totalYield, feeBps);
      summary, feeSent, d := Summary(totalYield, fee, 0, 0, 0, 0), false, distributions;
      var recorded: bool := *;
      raised := *;
      recorded, raised := recorded || env.calm, !env.calm && (raised || !recorded);
      if recorded { distributions := distributions + 1; }
      if raised { return; }
      feeSent := TransferFee(fee, env);
      raised := *;
      raised := raised && !env.calm;
      if raised { return; }
      var allocations, dust := CalculateAllocations(positions, from, to, distributable);
      var delivered, failed;
      delivered, failed, raised := SaveAndDistribute(allocations, d, env);
      summary := Summary(totalYield, fee, |allocations|, delivered, failed, dust);
    }

    /** save_allocations: one insert, which may land although it raises. */
    method SaveAllocations(allocations: seq<Allocation>, d: nat, calm: bool) returns (raised: bool)
      requires Valid() && d < distributions && forall i :: 0 <= i < |rows| ==> rows[i].distribution < d
      modifies this`rows
      ensures Valid() && (rows == old(rows) || rows == old(rows) + RowsOf(allocations, d))
      ensures !raised ==> rows == old(rows) + RowsOf(allocations, d) && PendingSum(rows, d) == AmountOf(allocations)
      ensures calm ==> !raised
    {
      var saves: bool := *;
      raised := *;
      saves, raised := saves || calm, !calm && (raised || !saves);
      NonePending(rows, d);
      NewRowsPending(allocations, d);
      PendingSumConcat(rows, RowsOf(allocations, d), d);
      if saves { rows := rows + RowsOf(allocations, d); }
    }

    /** save_allocations, then the distribution of what was saved. */
    method SaveAndDistribute(allocations: seq<Allocation>, d: nat, env: Environment)
      returns (delivered: nat, failed: nat, raised: bool)
      requires Valid() && d < distributions && forall i :: 0 <= i < |rows| ==> rows[i].distribution < d
      modifies this`operator, this`paid, this`rows, this`unseen
      ensures Valid() && Tokens() == old(Tokens())
      ensures !raised ==> delivered + failed == |allocations|
      ensures !raised ==> Expected() == old(Expected()) - AmountOf(allocations) + PendingSum(rows, d)
      ensures !raised && failed == 0 ==> PendingSum(rows, d) == 0
      ensures !raised ==> Distributed(old(rows), rows, allocations, d, env)
      ensures env.calm ==> !raised
    {
      hide PendingSum, AmountOf;
      delivered, failed := 0, 0;
      ghost var saved := |rows|;
      raised := SaveAllocations(allocations, d, env.calm);
      if raised { return; }
      var pending := SelectPending(d);
      RangeLength(pending, saved, |rows|);
      delivered, failed, raised := Distribute(pending, d, env);
      if !raised && failed == 0 {
        NonePending(rows, d);
      }
    }
  }
}
