/**
 * Polling indexer of OrderExecuted and PhysicalDelivery events: a cursor that advances
 * over block ranges although enrichment, storage and the chain itself misbehave
 * (index_once in src/bots/event_indexer.py).
 */
module EventIndexer {
  import opened Arithmetic
  import opened Wrappers
  import opened DeliveryMatching

  const BLOCK_RANGE := 2000
  const CONFIRMATION_BLOCKS := 2
  const RESCAN_BLOCKS := 50

  type DeliveryLog = Log<Event>

  ghost predicate InBlockOrder<T(!new)>(logs: seq<Log<T>>) {
    forall i, j :: 0 <= i < j < |logs| ==> logs[i].block <= logs[j].block
  }

  /** One order event per transaction: rows are keyed by transaction hash. */
  ghost predicate OnePerTx(logs: seq<Order>) {
    forall i, j :: 0 <= i < j < |logs| ==> logs[i].tx != logs[j].tx
  }

  /** What get_logs returns for a block range. */
  function GetLogs<T(!new)>(chain: seq<Log<T>>, lo: int, hi: int): seq<Log<T>> {
    if chain == [] then []
    else
      var init, last := chain[..|chain| - 1], chain[|chain| - 1];
      GetLogs(init, lo, hi) + if lo <= last.block <= hi then [last] else []
  }

  /** The events before the first one that cannot be enriched. */
  function BeforeFailure<T(!new)>(logs: seq<Log<T>>, ok: Log<T> -> bool): seq<Log<T>> {
    if logs == [] then []
    else
      var init, last := logs[..|logs| - 1], logs[|logs| - 1];
      var r := BeforeFailure(init, ok);
      if |r| == |init| && ok(last) then r + [last] else r
  }

  /** The lowest block with an event that cannot be enriched. */
  function FirstFailedBlock<T(!new)>(logs: seq<Log<T>>, ok: Log<T> -> bool): Option<int> {
    if logs == [] then None
    else
      var init, last := logs[..|logs| - 1], logs[|logs| - 1];
      var b := FirstFailedBlock(init, ok);
      if !ok(last) && (b.None? || last.block < b.value) then Some(last.block) else b
  }

  lemma {:induction false} LogsAreInRange<T(!new)>(chain: seq<Log<T>>, lo: int, hi: int)
    ensures forall o :: o in GetLogs(chain, lo, hi) <==> o in chain && lo <= o.block <= hi
    ensures InBlockOrder(chain) ==> InBlockOrder(GetLogs(chain, lo, hi))
  {
    if chain != [] {
      var init, last := chain[..|chain| - 1], chain[|chain| - 1];
      LogsAreInRange(init, lo, hi);
      assert forall o :: o in chain <==> o in init || o == last;
      var logs := GetLogs(init, lo, hi);
      if InBlockOrder(chain) {
        forall i | 0 <= i < |logs| ensures logs[i].block <= last.block {
          assert logs[i] in init;
        }
      }
    }
  }

  /** The taken events are the longest prefix that can be enriched. */
  lemma {:induction false} TakenIsPrefix<T(!new)>(logs: seq<Log<T>>, ok: Log<T> -> bool)
    ensures BeforeFailure(logs, ok) <= logs
    ensures forall o :: o in BeforeFailure(logs, ok) ==> ok(o)
    ensures |BeforeFailure(logs, ok)| < |logs| ==> !ok(logs[|BeforeFailure(logs, ok)|])
  {
    if logs != [] {
      TakenIsPrefix(logs[..|logs| - 1], ok);
    }
  }

  lemma {:induction false} FailedBlockIsLowest<T(!new)>(logs: seq<Log<T>>, ok: Log<T> -> bool)
    ensures FirstFailedBlock(logs, ok).None? <==> forall o :: o in logs ==> ok(o)
    ensures FirstFailedBlock(logs, ok).Some? ==>
              && (exists o :: o in logs && !ok(o) && o.block == FirstFailedBlock(logs, ok).value)
              && (forall o :: o in logs && !ok(o) ==> FirstFailedBlock(logs, ok).value <= o.block)
  {
    if logs != [] {
      var init, last := logs[..|logs| - 1], logs[|logs| - 1];
      FailedBlockIsLowest(init, ok);
      assert forall o :: o in logs <==> o in init || o == last;
    }
  }

  /** Every event below the first failed block was taken, so the cursor may move up to it. */
  ghost predicate NoGap<T(!new)>(logs: seq<Log<T>>, ok: Log<T> -> bool) {
    var b := FirstFailedBlock(logs, ok);
    forall o :: o in logs && (b.Some? ==> o.block < b.value) ==> o in BeforeFailure(logs, ok)
  }

  /** No log behind the first failure belongs to a block before the lowest failed one. */
  ghost predicate NothingEarlierBehind<T(!new)>(logs: seq<Log<T>>, ok: Log<T> -> bool) {
    forall j :: |BeforeFailure(logs, ok)| <= j < |logs| ==>
      FirstFailedBlock(logs, ok).Some? && FirstFailedBlock(logs, ok).value <= logs[j].block
  }

  lemma NothingBehindHasNoGap<T(!new)>(logs: seq<Log<T>>, ok: Log<T> -> bool)
    requires NothingEarlierBehind(logs, ok)
    ensures NoGap(logs, ok)
  {
    var taken, b := BeforeFailure(logs, ok), FirstFailedBlock(logs, ok);
    TakenIsPrefix(logs, ok);
    forall o | o in logs && (b.Some? ==> o.block < b.value) ensures o in taken {
      var j :| 0 <= j < |logs| && logs[j] == o;
      assert j < |taken|;
      assert taken[j] == o;
    }
  }

  /** Logs in block order leave no gap. */
  lemma BlockOrderHasNoGap<T(!new)>(logs: seq<Log<T>>, ok: Log<T> -> bool)
    requires InBlockOrder(logs)
    ensures NoGap(logs, ok)
  {
    var taken, b := BeforeFailure(logs, ok), FirstFailedBlock(logs, ok);
    TakenIsPrefix(logs, ok);
    FailedBlockIsLowest(logs, ok);
    forall j | |taken| <= j < |logs| ensures b.Some? && b.value <= logs[j].block {
      assert !ok(logs[|taken|]) && logs[|taken|] in logs;
      assert j == |taken| || logs[|taken|].block <= logs[j].block;
    }
    NothingBehindHasNoGap(logs, ok);
  }

  ghost predicate NoDuplicates<T(!new)>(logs: seq<Log<T>>) { forall i, j :: 0 <= i < j < |logs| ==> logs[i] != logs[j] }

  /** An event listed behind one of a later block is lost when that one alone cannot be enriched. */
  lemma OutOfOrderLosesAnEvent<T(!new)>(logs: seq<Log<T>>, i: nat, j: nat)
    requires NoDuplicates(logs) && i < j < |logs| && logs[j].block < logs[i].block
    ensures !NoGap(logs, o => o != logs[i])
  {
    var ok := o => o != logs[i];
    var taken, b := BeforeFailure(logs, ok), FirstFailedBlock(logs, ok);
    TakenIsPrefix(logs, ok);
    FailedBlockIsLowest(logs, ok);
    assert logs[i] in logs && logs[j] in logs && !ok(logs[i]);
    assert logs[i] !in taken;
    assert logs[|taken|] == logs[i];
    assert forall k :: 0 <= k < |taken| ==> taken[k] == logs[k];
  }

  /** Halting below the lowest failed block is gap-free, whatever fails, exactly when the logs come in block order. */
  lemma NoGapIffInBlockOrder<T(!new)>(logs: seq<Log<T>>)
    requires NoDuplicates(logs)
    ensures (forall ok: Log<T> -> bool :: NoGap(logs, ok)) <==> InBlockOrder(logs)
  {
    if InBlockOrder(logs) {
      forall ok: Log<T> -> bool ensures NoGap(logs, ok) {
        BlockOrderHasNoGap(logs, ok);
      }
    } else {
      var i, j :| 0 <= i < j < |logs| && logs[j].block < logs[i].block;
      OutOfOrderLosesAnEvent(logs, i, j);
    }
  }

  // ── Coverage ──

  /** Every order event after `start` and up to `cursor` is stored. */
  ghost predicate Covered(chain: seq<Order>, rows: seq<Row>, start: int, cursor: int) {
    forall o :: o in chain && start < o.block <= cursor ==> Has(rows, o)
  }

  /** The delivery is recorded, or no position opened after `start` and up to it is without one. */
  ghost predicate Handled(rows: seq<Row>, start: int, e: DeliveryLog) {
    || Delivered(rows, e.data)
    || (forall i :: 0 <= i < |rows| && rows[i].order.data.user == e.data.user && rows[i].order.data.otoken == e.data.otoken
                    && start < rows[i].order.block <= e.block ==>
          rows[i].delivery.Some?)
  }

  /** Every delivery event after `start` and up to `cursor` is handled. */
  ghost predicate AllHandled(deliveries: seq<DeliveryLog>, rows: seq<Row>, start: int, cursor: int) {
    forall e :: e in deliveries && start < e.block <= cursor ==> Handled(rows, start, e)
  }

  /** Rows are order events of the chain. */
  ghost predicate FromChain(rows: seq<Row>, chain: seq<Order>) {
    forall i :: 0 <= i < |rows| ==> rows[i].order in chain
  }

  lemma SameTxSameOrder(chain: seq<Order>, a: Order, b: Order)
    requires OnePerTx(chain) && a in chain && b in chain && a.tx == b.tx
    ensures a == b
  {
    var i :| 0 <= i < |chain| && chain[i] == a;
    var j :| 0 <= j < |chain| && chain[j] == b;
  }

  /** Storing an event of the chain appends its row, unless it is there: then nothing changes. */
  lemma StoreAppends(chain: seq<Order>, rows: seq<Row>, o: Order)
    requires OnePerTx(chain) && FromChain(rows, chain) && o in chain
    ensures Store(rows, o) == rows || (!Has(rows, o) && Store(rows, o) == rows + [Row(o, None)])
    ensures Has(Store(rows, o), o)
  {
    var i, after := IndexOf(rows, o.tx), Store(rows, o);
    assert after[i].order == o;
    if i < |rows| {
      SameTxSameOrder(chain, rows[i].order, o);
    }
  }

  /** What storing events of the chain does: unclaimed rows of events that had none are appended. */
  ghost predicate Appends(before: seq<Row>, after: seq<Row>, chain: seq<Order>) {
    && before <= after && FromChain(after, chain)
    && forall i :: |before| <= i < |after| ==> after[i].delivery.None? && !Has(before, after[i].order)
  }

  lemma AppendsHas(before: seq<Row>, after: seq<Row>, chain: seq<Order>, o: Order)
    requires Appends(before, after, chain) && Has(before, o)
    ensures Has(after, o)
  {
    var i :| 0 <= i < |before| && before[i].order == o;
    assert after[i].order == o;
  }

  lemma {:induction false} UpsertAppends(chain: seq<Order>, rows: seq<Row>, orders: seq<Order>)
    requires OnePerTx(chain) && FromChain(rows, chain) && forall o :: o in orders ==> o in chain
    ensures Appends(rows, Upsert(rows, orders), chain)
    ensures forall o :: o in orders ==> Has(Upsert(rows, orders), o)
  {
    if orders != [] {
      var init, last := orders[..|orders| - 1], orders[|orders| - 1];
      assert last in orders && forall o :: o in orders <==> o in init || o == last;
      UpsertAppends(chain, rows, init);
      StoreAppends(chain, Upsert(rows, init), last);
      AppendsMore(chain, rows, Upsert(rows, init), last);
    }
  }

  lemma AppendsMore(chain: seq<Order>, rows: seq<Row>, mid: seq<Row>, o: Order)
    requires Appends(rows, mid, chain) && o in chain
    requires Store(mid, o) == mid || (!Has(mid, o) && Store(mid, o) == mid + [Row(o, None)])
    ensures Appends(rows, Store(mid, o), chain)
    ensures forall p :: Has(mid, p) ==> Has(Store(mid, o), p)
  {
    if Has(rows, o) {
      AppendsHas(rows, mid, chain, o);
    }
    forall p | Has(mid, p) ensures Has(Store(mid, o), p) {
      var i :| 0 <= i < |mid| && mid[i].order == p;
      assert Store(mid, o)[i].order == p;
    }
  }

  /** Appending keeps every row, and no (user, oToken, transaction) is recorded twice. */
  lemma AppendsExtends(before: seq<Row>, after: seq<Row>, chain: seq<Order>)
    requires Appends(before, after, chain)
    ensures Extends(before, after) && (OneClaimEach(before) ==> OneClaimEach(after))
  {
    assert forall i :: 0 <= i < |before| ==> after[i] == before[i];
  }

  lemma DeliveredStays(before: seq<Row>, after: seq<Row>, e: Event)
    requires Delivered(before, e) && |before| <= |after|
    requires forall i :: 0 <= i < |before| && before[i].delivery.Some? ==> after[i] == before[i]
    ensures Delivered(after, e)
  {
    var i :| 0 <= i < |before| && before[i].order.data.user == e.user && before[i].order.data.otoken == e.otoken
             && before[i].delivery.Some? && before[i].delivery.value.tx == e.delivery.tx;
    assert after[i] == before[i];
  }

  /** New rows are of events above the cursor or from before the start, so handled deliveries stay handled. */
  lemma AppendsHandled(chain: seq<Order>, deliveries: seq<DeliveryLog>, before: seq<Row>, after: seq<Row>, start: int, cursor: int)
    requires Appends(before, after, chain) && Covered(chain, before, start, cursor)
    requires AllHandled(deliveries, before, start, cursor)
    ensures Covered(chain, after, start, cursor) && AllHandled(deliveries, after, start, cursor)
  {
    forall o | o in chain && start < o.block <= cursor ensures Has(after, o) {
      AppendsHas(before, after, chain, o);
    }
    forall e | e in deliveries && start < e.block <= cursor ensures Handled(after, start, e) {
      assert Handled(before, start, e);
      if Delivered(before, e.data) {
        DeliveredStays(before, after, e.data);
      } else {
        forall i | 0 <= i < |after| && after[i].order.data.user == e.data.user && after[i].order.data.otoken == e.data.otoken
                   && start < after[i].order.block <= e.block
          ensures after[i].delivery.Some?
        {
          assert i < |before| ==> after[i] == before[i];
          assert after[i].order in chain;
        }
      }
    }
  }

  /** Marking keeps orders and claims. */
  lemma MarkingHandled(chain: seq<Order>, deliveries: seq<DeliveryLog>, before: seq<Row>, after: seq<Row>, start: int, cursor: int)
    requires Keeps(before, after) && FromChain(before, chain)
    requires Covered(chain, before, start, cursor) && AllHandled(deliveries, before, start, cursor)
    ensures FromChain(after, chain) && Covered(chain, after, start, cursor) && AllHandled(deliveries, after, start, cursor)
  {
    forall o | o in chain && start < o.block <= cursor ensures Has(after, o) {
      var i :| 0 <= i < |before| && before[i].order == o;
      assert after[i].order == o;
    }
    forall e | e in deliveries && start < e.block <= cursor ensures Handled(after, start, e) {
      assert Handled(before, start, e);
      if Delivered(before, e.data) {
        DeliveredStays(before, after, e.data);
      } else {
        forall i | 0 <= i < |after| && after[i].order.data.user == e.data.user && after[i].order.data.otoken == e.data.otoken
                   && start < after[i].order.block <= e.block
          ensures after[i].delivery.Some?
        {
          assert before[i].order == after[i].order;
        }
      }
    }
  }

  /**
   * Every order of the blocks from lo to hi that lies below all orders of that range that
   * cannot be enriched is stored, and every such delivery is on a row or finds none left.
   */
  ghost predicate Rescanned(chain: seq<Order>, deliveries: seq<DeliveryLog>, rows: seq<Row>, lo: int, hi: int, answers: Answers) {
    && (forall o :: o in chain && lo <= o.block <= hi
                    && (forall p :: p in chain && lo <= p.block <= hi && !answers.order(p) ==> o.block < p.block) ==>
          Has(rows, o))
    && (forall e :: e in deliveries && lo <= e.block <= hi
                    && (forall f :: f in deliveries && lo <= f.block <= hi && !answers.delivery(f) ==> e.block < f.block) ==>
          Delivered(rows, e.data) || NoneLeft(rows, e.data))
  }

  /** The re-scan looks back 50 blocks from the cursor the cycle began with, and at 2000 blocks at most. */
  ghost predicate RescannedFrom(cursor: int, safe: int, chain: seq<Order>, deliveries: seq<DeliveryLog>, rows: seq<Row>,
                                answers: Answers) {
    Max(cursor - 50, 0) < Min(Max(cursor - 50, 0) + 1999, safe) ==>
      Rescanned(chain, deliveries, rows, Max(cursor - 50, 0), Min(Max(cursor - 50, 0) + 1999, safe), answers)
  }

  /** The events of delivery logs. */
  function Events(logs: seq<DeliveryLog>): seq<Event> {
    seq(|logs|, i requires 0 <= i < |logs| => logs[i].data)
  }

  /** Where a pass without failures moves the cursor. */
  function Advance(cursor: int, safe: int): int {
    if cursor + 1 <= safe then Min(cursor + BLOCK_RANGE, safe) else cursor
  }

  function AfterPasses(cursor: int, safe: int, n: nat): int
    decreases n
  {
    if n == 0 then cursor else AfterPasses(Advance(cursor, safe), safe, n - 1)
  }

  /** Without failures the head is reached after ceil(gap / BLOCK_RANGE) passes and not before. */
  lemma {:induction false} ReachesHeadIff(cursor: int, safe: int, n: nat)
    requires cursor <= safe
    ensures AfterPasses(cursor, safe, n) == Min(cursor + BLOCK_RANGE * n, safe)
    ensures AfterPasses(cursor, safe, n) == safe <==> n >= (safe - cursor + BLOCK_RANGE - 1) / BLOCK_RANGE
    decreases n
  {
    if n > 0 {
      ReachesHeadIff(Advance(cursor, safe), safe, n - 1);
    }
  }

  /**
   * What a pass meets: the events that can be enriched, and whether every query and
   * write goes well and the process lives on (`calm`).
   */
  datatype Answers = Answers(order: Order -> bool, delivery: DeliveryLog -> bool, calm: bool)

  class Indexer {
    /** indexer_state.last_indexed_block and the order_events table. */
    var cursor: int
    const table: OrderEvents
    /** The chain: order events and delivery events, in block order. */
    var chain: seq<Order>
    var deliveries: seq<DeliveryLog>
    /** Where the cursor began, and the highest confirmed head seen. */
    const start: int
    var confirmed: int

    constructor (cursor: int, chain: seq<Order>, rows: seq<Row>)
      requires InBlockOrder(chain) && OnePerTx(chain) && FromChain(rows, chain) && OneClaimEach(rows)
      ensures Valid() && this.cursor == this.start == cursor && this.chain == chain && table.rows == rows
      ensures fresh(table)
    {
      this.cursor, this.chain, this.start, this.confirmed := cursor, chain, cursor, cursor;
      this.deliveries := [];
      this.table := new OrderEvents(rows);
    }

    ghost predicate Valid()
      reads this, table
    {
      && InBlockOrder(chain) && OnePerTx(chain) && InBlockOrder(deliveries)
      && start <= cursor <= confirmed
      && FromChain(table.rows, chain) && OneClaimEach(table.rows)
      && Covered(chain, table.rows, start, cursor)
      && AllHandled(deliveries, table.rows, start, cursor)
    }

    /** New blocks: confirmed ones do not change, and events arrive in block order. */
    method Grow(more: seq<Order>, moreDeliveries: seq<DeliveryLog>)
      requires Valid() && Arrives(chain, deliveries, confirmed, more, moreDeliveries)
      modifies this`chain, this`deliveries
      ensures Valid() && chain == old(chain) + more && deliveries == old(deliveries) + moreDeliveries
    {
      chain := chain + more;
      deliveries := deliveries + moreDeliveries;
    }

    /** The first part of both fetches: the events before the first failure, and the lowest failed block. */
    method Enrich<T(!new)>(logs: seq<Log<T>>, ok: Log<T> -> bool) returns (taken: seq<Log<T>>, failed: Option<int>)
      ensures taken == BeforeFailure(logs, ok) && failed == FirstFailedBlock(logs, ok)
    {
      taken, failed := [], None;
      for i := 0 to |logs|
        invariant failed == FirstFailedBlock(logs[..i], ok)
        invariant taken == BeforeFailure(logs[..i], ok)
        invariant |taken| <= i && (failed.None? <==> |taken| == i)
      {
        assert logs[..i + 1][..i] == logs[..i];
        if !ok(logs[i]) {
          if failed.None? || logs[i].block < failed.value {
            failed := Some(logs[i].block);
          }
        } else if failed.None? {
          taken := taken + [logs[i]];
        }
      }
      assert logs[..|logs|] == logs;
    }

    /** _fetch_and_store_order_events; `raised` is a failed query or store, and a store may land although it raises. */
    method FetchAndStoreOrderEvents(lo: int, hi: int, ok: Order -> bool, calm: bool) returns (failed: Option<int>, raised: bool)
      requires Valid()
      modifies table
      ensures Valid() && Extends(old(table.rows), table.rows)
      ensures table.rows == old(table.rows) || table.rows == Upsert(old(table.rows), BeforeFailure(GetLogs(chain, lo, hi), ok))
      ensures !raised ==> failed == FirstFailedBlock(GetLogs(chain, lo, hi), ok)
      ensures !raised ==> table.rows == Upsert(old(table.rows), BeforeFailure(GetLogs(chain, lo, hi), ok))
      ensures calm ==> !raised
    {
      failed := None;
      raised := *;
      raised := raised && !calm;
      if raised { return; }
      var toStore;
      toStore, failed := Enrich(GetLogs(chain, lo, hi), ok);
      ghost var before := table.rows;
      TakenIsFromChain(chain, lo, hi, ok);
      UpsertAppends(chain, before, toStore);
      AppendsExtends(before, Upsert(before, toStore), chain);
      AppendsHandled(chain, deliveries, before, Upsert(before, toStore), start, cursor);
      raised := table.StoreEvents(toStore, calm);
    }

    /** _fetch_and_update_delivery_events: the rows are those of the first `handled` events taken. */
    method FetchDeliveryEvents(lo: int, hi: int, ok: DeliveryLog -> bool, calm: bool)
      returns (failed: Option<int>, ghost handled: nat, raised: bool)
      requires Valid()
      modifies table
      ensures Valid() && Keeps(old(table.rows), table.rows)
      ensures handled <= |BeforeFailure(GetLogs(deliveries, lo, hi), ok)|
      ensures table.rows == MarkAll(old(table.rows), Events(BeforeFailure(GetLogs(deliveries, lo, hi), ok))[..handled])
      ensures !raised ==> failed == FirstFailedBlock(GetLogs(deliveries, lo, hi), ok)
      ensures !raised ==> table.rows == MarkAll(old(table.rows), Events(BeforeFailure(GetLogs(deliveries, lo, hi), ok)))
      ensures calm ==> !raised
    {
      failed, handled := None, 0;
      raised := *;
      raised := raised && !calm;
      if raised { return; }
      var taken;
      taken, failed := Enrich(GetLogs(deliveries, lo, hi), ok);
      var updated;
      ghost var before := table.rows;
      updated, handled, raised := table.UpdateDeliveryEvents(Events(taken), calm);
      assert !raised ==> Events(taken)[..handled] == Events(taken);
      MarkAllKeeps(before, Events(taken)[..handled]);
      MarkingHandled(chain, deliveries, before, table.rows, start, cursor);
    }

    /** _set_last_indexed_block: applied, refused, or applied although it raised. */
    method SetLastIndexedBlock(block: int, calm: bool) returns (raised: bool)
      modifies this`cursor
      ensures cursor == block || (cursor == old(cursor) && raised)
      ensures calm ==> !raised
    {
      var applied: bool := *;
      raised := *;
      applied, raised := applied || calm, !calm && (raised || !applied);
      if applied {
        cursor := block;
      }
    }

    /** The cursor never falls, stays below failing events of its range, and below the confirmed head. */
    twostate predicate CursorMoved(safe: int, answers: Answers)
      reads this
    {
      && old(cursor) <= cursor
      && (cursor > old(cursor) ==> cursor <= safe && cursor <= old(cursor) + BLOCK_RANGE)
      && (forall o :: o in chain && !answers.order(o) && old(cursor) < o.block ==> cursor < o.block)
      && (forall e :: e in deliveries && !answers.delivery(e) && old(cursor) < e.block ==> cursor < e.block)
    }

    /** Nothing goes wrong in the blocks above `from` and up to `to`. */
    ghost predicate NoFailure(from: int, to: int, answers: Answers)
      reads this
    {
      && answers.calm
      && (forall o :: o in chain && from < o.block <= to ==> answers.order(o))
      && (forall e :: e in deliveries && from < e.block <= to ==> answers.delivery(e))
    }

    /** The forward pass: when calm, it goes as far as the range and the failures allow. */
    method ForwardPass(safe: int, answers: Answers) returns (raised: bool)
      requires Valid() && safe <= confirmed
      modifies this`cursor, table
      ensures Valid() && CursorMoved(safe, answers) && Extends(old(table.rows), table.rows)
      ensures answers.calm ==> !raised
      ensures forall c :: old(cursor) <= c <= Advance(old(cursor), safe) && NoFailure(old(cursor), c, answers) ==> c <= cursor
    {
      hide GetLogs, BeforeFailure, FirstFailedBlock, Upsert, MarkAll, Events, OneClaimEach, OnePerTx, InBlockOrder,
           Covered, AllHandled, FromChain;
      raised := false;
      var lo := cursor + 1;
      if lo <= safe {
        var hi := if lo + BLOCK_RANGE - 1 < safe then lo + BLOCK_RANGE - 1 else safe;
        var orderFail, deliveryFail;
        ghost var before, handled := table.rows, 0;
        orderFail, raised := FetchAndStoreOrderEvents(lo, hi, answers.order, answers.calm);
        if raised { return; }
        ghost var mid := table.rows;
        deliveryFail, handled, raised := FetchDeliveryEvents(lo, hi, answers.delivery, answers.calm);
        ExtendsKept(before, mid, table.rows);
        if raised { return; }
        FailureLiesInRange(chain, lo, hi, answers.order);
        FailureLiesInRange(deliveries, lo, hi, answers.delivery);
        var target := hi;
        if orderFail.Some? || deliveryFail.Some? {
          var minFailed := if orderFail.None? then deliveryFail.value
                           else if deliveryFail.None? then orderFail.value
                           else if orderFail.value < deliveryFail.value then orderFail.value else deliveryFail.value;
          if minFailed <= lo { return; }
          target := minFailed - 1;
        }
        CoveredBelowFailure(chain, before, mid, start, lo, hi, target, answers.order);
        HandledBelowFailure(chain, deliveries, mid, table.rows, start, lo, hi, target, answers.delivery);
        raised := SetLastIndexedBlock(target, answers.calm);
      }
    }

    /**
     * One polling cycle at the given head: the forward pass, then the re-scan of
     * recent blocks, whose own errors are swallowed. The process may die in between.
     */
    method IndexOnce(currentBlock: int, forward: Answers, rescan: Answers) returns (raised: bool)
      requires Valid()
      modifies this`cursor, this`confirmed, table
      ensures Valid() && CursorMoved(currentBlock - CONFIRMATION_BLOCKS, forward) && Extends(old(table.rows), table.rows)
      ensures confirmed == Max(old(confirmed), currentBlock - CONFIRMATION_BLOCKS)
      ensures forward.calm ==> !raised
      ensures forall c :: old(cursor) <= c <= Advance(old(cursor), currentBlock - CONFIRMATION_BLOCKS)
                          && NoFailure(old(cursor), c, forward) ==>
                c <= cursor
      ensures !raised && rescan.calm ==>
                RescannedFrom(old(cursor), currentBlock - CONFIRMATION_BLOCKS, chain, deliveries, table.rows, rescan)
    {
      hide OneClaimEach, OnePerTx, InBlockOrder, Covered, AllHandled, FromChain, Extends, Rescanned;
      var safe := currentBlock - CONFIRMATION_BLOCKS;
      confirmed := if safe > confirmed then safe else confirmed;
      var lastIndexed := cursor;
      ghost var before := table.rows;
      raised := ForwardPass(safe, forward);
      if raised { return; }
      raised := *;
      raised := raised && !forward.calm;
      if raised { return; }
      var rescanFrom := if lastIndexed - RESCAN_BLOCKS > 0 then lastIndexed - RESCAN_BLOCKS else 0;
      var rescanTo := if rescanFrom + BLOCK_RANGE - 1 < safe then rescanFrom + BLOCK_RANGE - 1 else safe;
      if rescanFrom < rescanTo {
        ghost var mid := table.rows;
        Rescan(rescanFrom, rescanTo, rescan);
        ExtendsTrans(before, mid, table.rows);
      }
    }

    /** The re-scan pass: when calm, everything of its range below its first failures is stored and delivered. */
    method Rescan(lo: int, hi: int, answers: Answers)
      requires Valid()
      modifies table
      ensures Valid() && Extends(old(table.rows), table.rows)
      ensures answers.calm ==> Rescanned(chain, deliveries, table.rows, lo, hi, answers)
    {
      hide OneClaimEach, OnePerTx, AllHandled, Covered, GetLogs, BeforeFailure, FirstFailedBlock, MarkAll, Upsert;
      ghost var before := table.rows;
      var failed, swallowed := FetchAndStoreOrderEvents(lo, hi, answers.order, answers.calm);
      if !swallowed {
        ghost var mid, handled := table.rows, 0;
        FailureLiesInRange(chain, lo, hi, answers.order);
        FailureLiesInRange(deliveries, lo, hi, answers.delivery);
        StoredBelowFailure(chain, before, mid, lo, hi, answers.order);
        failed, handled, swallowed := FetchDeliveryEvents(lo, hi, answers.delivery, answers.calm);
        ExtendsKept(before, mid, table.rows);
        if !swallowed {
          DeliveredBelowFailure(deliveries, mid, table.rows, lo, hi, answers.delivery);
          KeepsHas(mid, table.rows);
        }
      }
    }

    /**
     * Any number of polling cycles while the chain grows: no order at or below the cursor
     * is ever missing, no delivery unhandled, and no row or claim is lost; and the last
     * cycle re-scanned the blocks around the cursor it began with (`prior`).
     */
    method Poll(heads: seq<int>, forward: nat -> Answers, rescan: nat -> Answers,
                arrivals: nat -> seq<Order>, newDeliveries: nat -> seq<DeliveryLog>)
      returns (ghost prior: int, raised: bool)
      requires Valid()
      modifies this`cursor, this`confirmed, this`chain, this`deliveries, table
      ensures old(cursor) <= prior <= cursor && (|heads| > 0 && forward(|heads| - 1).calm ==> !raised)
      ensures |heads| > 0 && !raised && rescan(|heads| - 1).calm ==>
                RescannedFrom(prior, heads[|heads| - 1] - CONFIRMATION_BLOCKS, chain, deliveries, table.rows, rescan(|heads| - 1))
      ensures Valid() && old(cursor) <= cursor && old(chain) <= chain && old(deliveries) <= deliveries
      ensures Covered(chain, table.rows, start, cursor) && AllHandled(deliveries, table.rows, start, cursor)
      ensures Extends(old(table.rows), table.rows) && OneClaimEach(table.rows)
    {
      hide GetLogs, BeforeFailure, FirstFailedBlock, OneClaimEach, OnePerTx, InBlockOrder, Covered, AllHandled, FromChain;
      hide RescannedFrom;
      prior, raised := cursor, false;
      ghost var before := table.rows;
      for i := 0 to |heads|
        invariant Valid() && old(cursor) <= cursor && old(chain) <= chain && old(deliveries) <= deliveries
        invariant Extends(before, table.rows)
        invariant old(cursor) <= prior <= cursor && (i > 0 && forward(i - 1).calm ==> !raised)
        invariant i > 0 && !raised && rescan(i - 1).calm ==>
                    RescannedFrom(prior, heads[i - 1] - CONFIRMATION_BLOCKS, chain, deliveries, table.rows, rescan(i - 1))
      {
        if Arrives(chain, deliveries, confirmed, arrivals(i), newDeliveries(i)) {
          Grow(arrivals(i), newDeliveries(i));
        }
        ghost var mid := table.rows;
        prior := cursor;
        raised := IndexOnce(heads[i], forward(i), rescan(i));
        ExtendsTrans(before, mid, table.rows);
      }
    }

    /**
     * n cycles at one head, while the chain grows above it. If nothing goes wrong in
     * them up to the confirmed head, the cursor is at that head exactly when there were
     * at least ceil(gap / BLOCK_RANGE) of them.
     */
    method CatchUp(n: nat, head: int, forward: nat -> Answers, rescan: nat -> Answers,
                   arrivals: nat -> seq<Order>, newDeliveries: nat -> seq<DeliveryLog>)
      requires Valid() && confirmed <= head - CONFIRMATION_BLOCKS
      modifies this`cursor, this`confirmed, this`chain, this`deliveries, table
      ensures Valid() && old(cursor) <= cursor <= head - CONFIRMATION_BLOCKS && old(chain) <= chain
      ensures AllSucceed(n, head - CONFIRMATION_BLOCKS, forward) ==>
                && cursor == Min(old(cursor) + BLOCK_RANGE * n, head - CONFIRMATION_BLOCKS)
                && (cursor == head - CONFIRMATION_BLOCKS <==>
                      n >= (head - CONFIRMATION_BLOCKS - old(cursor) + BLOCK_RANGE - 1) / BLOCK_RANGE)
    {
      hide GetLogs, BeforeFailure, FirstFailedBlock, OneClaimEach, OnePerTx, InBlockOrder, Covered, AllHandled, FromChain;
      ghost var safe := head - CONFIRMATION_BLOCKS;
      for i := 0 to n
        invariant Valid() && old(cursor) <= cursor <= safe && old(chain) <= chain && confirmed <= safe
        invariant AllSucceed(i, safe, forward) ==> cursor == AfterPasses(old(cursor), safe, i)
      {
        ghost var before, events, logs := cursor, chain, deliveries;
        if Arrives(chain, deliveries, confirmed, arrivals(i), newDeliveries(i)) {
          Grow(arrivals(i), newDeliveries(i));
        }
        SucceedOnFewer(events, logs, chain, deliveries, i, safe, forward);
        var raised := IndexOnce(head, forward(i), rescan(i));
        assert AllSucceed(i + 1, safe, forward) ==> NoFailure(before, Advance(before, safe), forward(i));
        AfterPassesSnoc(old(cursor), safe, i);
      }
      ReachesHeadIff(old(cursor), safe, n);
    }

    /** In none of the first n cycles anything goes wrong up to the given block of the present chain. */
    ghost predicate AllSucceed(n: nat, to: int, forward: nat -> Answers)
      reads this
    {
      SucceedOn(chain, deliveries, n, to, forward)
    }
  }

  ghost predicate SucceedOn(chain: seq<Order>, deliveries: seq<DeliveryLog>, n: nat, to: int, forward: nat -> Answers) {
    && (forall i :: 0 <= i < n ==> forward(i).calm)
    && (forall i, o :: 0 <= i < n && o in chain && o.block <= to ==> forward(i).order(o))
    && (forall i, e :: 0 <= i < n && e in deliveries && e.block <= to ==> forward(i).delivery(e))
  }

  lemma SucceedOnFewer(events: seq<Order>, logs: seq<DeliveryLog>, chain: seq<Order>, deliveries: seq<DeliveryLog>,
                       n: nat, to: int, forward: nat -> Answers)
    requires events <= chain && logs <= deliveries
    ensures SucceedOn(chain, deliveries, n + 1, to, forward) ==> SucceedOn(events, logs, n, to, forward)
  {
    assert forall o :: o in events ==> o in chain;
    assert forall e :: e in logs ==> e in deliveries;
  }

  lemma {:induction false} AfterPassesSnoc(cursor: int, safe: int, n: nat)
    ensures AfterPasses(cursor, safe, n + 1) == Advance(AfterPasses(cursor, safe, n), safe)
    decreases n
  {
    if n > 0 {
      AfterPassesSnoc(Advance(cursor, safe), safe, n - 1);
    }
  }

  /** New events extend the chain in block order, above every confirmed block, order events one per transaction. */
  predicate Arrives(chain: seq<Order>, deliveries: seq<DeliveryLog>, confirmed: int, more: seq<Order>, moreDeliveries: seq<DeliveryLog>) {
    && (forall i, j :: 0 <= i < j < |chain + more| ==> (chain + more)[i].block <= (chain + more)[j].block)
    && (forall i, j :: 0 <= i < j < |chain + more| ==> (chain + more)[i].tx != (chain + more)[j].tx)
    && (forall i :: 0 <= i < |more| ==> more[i].block > confirmed)
    && (forall i, j :: 0 <= i < j < |deliveries + moreDeliveries| ==>
          (deliveries + moreDeliveries)[i].block <= (deliveries + moreDeliveries)[j].block)
    && (forall i :: 0 <= i < |moreDeliveries| ==> moreDeliveries[i].block > confirmed)
  }

  lemma TakenIsFromChain<T(!new)>(chain: seq<Log<T>>, lo: int, hi: int, ok: Log<T> -> bool)
    ensures forall o :: o in BeforeFailure(GetLogs(chain, lo, hi), ok) ==> o in chain && lo <= o.block <= hi
  {
    var logs := GetLogs(chain, lo, hi);
    LogsAreInRange(chain, lo, hi);
    TakenIsPrefix(logs, ok);
    var taken := BeforeFailure(logs, ok);
    forall o | o in taken ensures o in logs {
      var i :| 0 <= i < |taken| && taken[i] == o;
      assert logs[i] == o;
    }
  }

  /** After the store, every event of the range below its first failed block is stored. */
  lemma CoveredBelowFailure(chain: seq<Order>, before: seq<Row>, after: seq<Row>,
                            start: int, lo: int, hi: int, c: int, ok: Order -> bool)
    requires InBlockOrder(chain) && OnePerTx(chain) && FromChain(before, chain) && Covered(chain, before, start, lo - 1)
    requires after == Upsert(before, BeforeFailure(GetLogs(chain, lo, hi), ok))
    requires lo - 1 <= c <= hi
    requires var b := FirstFailedBlock(GetLogs(chain, lo, hi), ok); b.Some? ==> c < b.value
    ensures Covered(chain, after, start, c)
  {
    var logs := GetLogs(chain, lo, hi);
    LogsAreInRange(chain, lo, hi);
    BlockOrderHasNoGap(logs, ok);
    TakenIsFromChain(chain, lo, hi, ok);
    UpsertAppends(chain, before, BeforeFailure(logs, ok));
    forall o | o in chain && start < o.block <= c ensures Has(after, o) {
      if o.block < lo {
        AppendsHas(before, after, chain, o);
      } else {
        assert o in logs;
      }
    }
  }

  /** The same without a cursor: whatever the range, its events below the first failure are stored. */
  lemma StoredBelowFailure(chain: seq<Order>, before: seq<Row>, after: seq<Row>, lo: int, hi: int, ok: Order -> bool)
    requires InBlockOrder(chain) && OnePerTx(chain) && FromChain(before, chain)
    requires after == Upsert(before, BeforeFailure(GetLogs(chain, lo, hi), ok))
    ensures forall o :: o in chain && lo <= o.block <= hi
                        && (forall p :: p in chain && lo <= p.block <= hi && !ok(p) ==> o.block < p.block) ==>
              Has(after, o)
  {
    var logs := GetLogs(chain, lo, hi);
    LogsAreInRange(chain, lo, hi);
    BlockOrderHasNoGap(logs, ok);
    FailedBlockIsLowest(logs, ok);
    TakenIsFromChain(chain, lo, hi, ok);
    UpsertAppends(chain, before, BeforeFailure(logs, ok));
    forall o | o in chain && lo <= o.block <= hi && (forall p :: p in chain && lo <= p.block <= hi && !ok(p) ==> o.block < p.block)
      ensures Has(after, o)
    {
      assert o in logs;
    }
  }

  lemma DeliveredBelowFailure(deliveries: seq<DeliveryLog>, before: seq<Row>, after: seq<Row>, lo: int, hi: int,
                              ok: DeliveryLog -> bool)
    requires InBlockOrder(deliveries)
    requires after == MarkAll(before, Events(BeforeFailure(GetLogs(deliveries, lo, hi), ok)))
    ensures forall e :: e in deliveries && lo <= e.block <= hi
                        && (forall f :: f in deliveries && lo <= f.block <= hi && !ok(f) ==> e.block < f.block) ==>
              Delivered(after, e.data) || NoneLeft(after, e.data)
  {
    hide MarkAll, GetLogs, BeforeFailure, FirstFailedBlock, Delivered, NoneLeft;
    var logs := GetLogs(deliveries, lo, hi);
    var taken := BeforeFailure(logs, ok);
    LogsAreInRange(deliveries, lo, hi);
    BlockOrderHasNoGap(logs, ok);
    FailedBlockIsLowest(logs, ok);
    EveryEventIsDelivered(before, Events(taken));
    forall e | e in deliveries && lo <= e.block <= hi
               && (forall f :: f in deliveries && lo <= f.block <= hi && !ok(f) ==> e.block < f.block)
      ensures Delivered(after, e.data) || NoneLeft(after, e.data)
    {
      assert e in logs && e in taken;
      var i :| 0 <= i < |taken| && taken[i] == e;
      assert Events(taken)[i] == e.data && e.data in Events(taken);
    }
  }

  lemma KeepsHas(before: seq<Row>, after: seq<Row>)
    requires Keeps(before, after)
    ensures forall o :: Has(before, o) ==> Has(after, o)
  {
    forall o | Has(before, o) ensures Has(after, o) {
      var i :| 0 <= i < |before| && before[i].order == o;
      assert after[i].order == o;
    }
  }

  /** After the marking, every delivery of the range below its first failed block is handled. */
  lemma HandledBelowFailure(chain: seq<Order>, deliveries: seq<DeliveryLog>, before: seq<Row>, after: seq<Row>,
                            start: int, lo: int, hi: int, c: int, ok: DeliveryLog -> bool)
    requires InBlockOrder(deliveries) && FromChain(before, chain)
    requires Covered(chain, before, start, c) && AllHandled(deliveries, before, start, lo - 1)
    requires after == MarkAll(before, Events(BeforeFailure(GetLogs(deliveries, lo, hi), ok)))
    requires lo - 1 <= c <= hi
    requires var b := FirstFailedBlock(GetLogs(deliveries, lo, hi), ok); b.Some? ==> c < b.value
    ensures Covered(chain, after, start, c) && AllHandled(deliveries, after, start, c)
  {
    var logs := GetLogs(deliveries, lo, hi);
    var taken := BeforeFailure(logs, ok);
    LogsAreInRange(deliveries, lo, hi);
    BlockOrderHasNoGap(logs, ok);
    MarkAllKeeps(before, Events(taken));
    EveryEventIsDelivered(before, Events(taken));
    MarkingHandled(chain, [], before, after, start, c);
    MarkingHandled(chain, deliveries, before, after, start, lo - 1);
    forall e | e in deliveries && start < e.block <= c ensures Handled(after, start, e) {
      if lo <= e.block {
        assert e in logs && e in taken;
        var i :| 0 <= i < |taken| && taken[i] == e;
        assert Events(taken)[i] == e.data && e.data in Events(taken);
      }
    }
  }

  lemma ExtendsKept(a: seq<Row>, b: seq<Row>, c: seq<Row>)
    requires Extends(a, b) && Keeps(b, c)
    ensures Extends(a, c)
  {
    assert c[..|b|] == c;
    ExtendsTrans(a, b, c);
  }

  /** Without a failure in the range nothing fails; with one, the first failed block lies in it. */
  lemma FailureLiesInRange<T(!new)>(chain: seq<Log<T>>, lo: int, hi: int, ok: Log<T> -> bool)
    ensures var b := FirstFailedBlock(GetLogs(chain, lo, hi), ok);
            && (b.Some? ==> lo <= b.value <= hi && exists o :: o in chain && !ok(o) && o.block == b.value)
            && (forall o :: o in chain && !ok(o) && lo <= o.block <= hi ==> b.Some? && b.value <= o.block)
  {
    LogsAreInRange(chain, lo, hi);
    FailedBlockIsLowest(GetLogs(chain, lo, hi), ok);
  }
}
