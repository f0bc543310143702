/**
 * The order_events table: storing order events, and matching PhysicalDelivery events,
 * which carry no vault id, to its rows (_store_events and _update_delivery_events in
 * src/bots/event_indexer.py).
 */
module DeliveryMatching {
  import opened Arithmetic
  import opened Wrappers

  type TxHash = string

  datatype Delivery = Delivery(tx: TxHash, asset: string, amount: int)

  /** A decoded log of the chain. */
  datatype Log<T> = Log(tx: TxHash, block: int, data: T)

  /** The terms of an order event; `other` stands for the remaining decoded columns. */
  datatype Terms = Terms(user: string, otoken: string, vaultId: int, other: int)

  type Order = Log<Terms>

  /** Table order is sequence order; the position is the row's primary key. */
  datatype Row = Row(order: Order, delivery: Option<Delivery>)

  datatype Event = Event(user: string, otoken: string, delivery: Delivery)

  predicate Matches(row: Row, e: Event) { row.order.data.user == e.user && row.order.data.otoken == e.otoken }

  predicate Claims(row: Row, e: Event) {
    Matches(row, e) && row.delivery.Some? && row.delivery.value.tx == e.delivery.tx
  }

  predicate Unmarked(row: Row, e: Event) { Matches(row, e) && row.delivery.None? }

  ghost predicate Recorded(rows: seq<Row>, e: Event) { exists i :: 0 <= i < |rows| && Claims(rows[i], e) }

  function VaultId(row: Row): int { row.order.data.vaultId }

  /** The first of the unmarked rows with the lowest vault id; |rows| when there is none. */
  ghost predicate IsCandidate(rows: seq<Row>, e: Event, i: nat) {
    && i < |rows| && Unmarked(rows[i], e)
    && (forall j :: 0 <= j < |rows| && Unmarked(rows[j], e) ==>
          VaultId(rows[i]) < VaultId(rows[j]) || (VaultId(rows[i]) == VaultId(rows[j]) && i <= j))
  }

  ghost predicate Exhausted(rows: seq<Row>, e: Event) { forall i :: 0 <= i < |rows| ==> !Unmarked(rows[i], e) }

  ghost function Candidate(rows: seq<Row>, e: Event): (i: nat)
    requires !Exhausted(rows, e)
    ensures IsCandidate(rows, e, i)
  {
    CandidateExists(rows, e);
    var i: nat :| IsCandidate(rows, e, i);
    i
  }

  lemma {:induction false} CandidateExists(rows: seq<Row>, e: Event)
    requires !Exhausted(rows, e)
    ensures exists i: nat :: IsCandidate(rows, e, i)
  {
    var init, last := rows[..|rows| - 1], |rows| - 1;
    if Exhausted(init, e) {
      assert forall j :: 0 <= j < last ==> !Unmarked(init[j], e);
      assert forall j :: 0 <= j < last ==> rows[j] == init[j];
      assert IsCandidate(rows, e, last);
    } else {
      CandidateExists(init, e);
      var i: nat :| IsCandidate(init, e, i);
      assert forall j :: 0 <= j < last ==> rows[j] == init[j];
      if Unmarked(rows[last], e) && VaultId(rows[last]) < VaultId(rows[i]) {
        assert IsCandidate(rows, e, last);
      } else {
        assert IsCandidate(rows, e, i);
      }
    }
  }

  ghost function Mark(rows: seq<Row>, e: Event): seq<Row> {
    if Recorded(rows, e) || Exhausted(rows, e) then rows
    else rows[Candidate(rows, e) := rows[Candidate(rows, e)].(delivery := Some(e.delivery))]
  }

  ghost function MarkAll(rows: seq<Row>, events: seq<Event>): seq<Row> {
    if events == [] then rows else Mark(MarkAll(rows, events[..|events| - 1]), events[|events| - 1])
  }

  function Marked(rows: seq<Row>): nat {
    if rows == [] then 0 else Marked(rows[..|rows| - 1]) + if rows[|rows| - 1].delivery.Some? then 1 else 0
  }

  /** Rows stay what they are, and a claimed row is never overwritten. */
  ghost predicate Keeps(before: seq<Row>, after: seq<Row>) {
    && |after| == |before|
    && forall i :: 0 <= i < |before| ==>
         && after[i].order == before[i].order
         && (before[i].delivery.Some? ==> after[i] == before[i])
  }

  /** No (user, oToken, transaction) is recorded on two rows. */
  ghost predicate OneClaimEach(rows: seq<Row>) {
    forall i, j :: 0 <= i < j < |rows| && rows[i].delivery.Some? && rows[j].delivery.Some? ==>
      !(rows[i].order.data.user == rows[j].order.data.user && rows[i].order.data.otoken == rows[j].order.data.otoken
        && rows[i].delivery.value.tx == rows[j].delivery.value.tx)
  }

  /** Handling the event again would do nothing. */
  ghost predicate Absorbed(rows: seq<Row>, e: Event) { Recorded(rows, e) || Exhausted(rows, e) }

  lemma MarkKeeps(rows: seq<Row>, e: Event)
    ensures Keeps(rows, Mark(rows, e)) && Absorbed(Mark(rows, e), e)
    ensures OneClaimEach(rows) ==> OneClaimEach(Mark(rows, e))
  {
    if !Absorbed(rows, e) {
      var i := Candidate(rows, e);
      assert Claims(Mark(rows, e)[i], e);
      forall j | 0 <= j < |rows| && j != i ensures !Claims(rows[j], e) {}
    }
  }

  lemma KeepsAbsorbed(before: seq<Row>, after: seq<Row>, e: Event)
    requires Keeps(before, after) && Absorbed(before, e)
    ensures Absorbed(after, e)
  {
    if Recorded(before, e) {
      var i :| 0 <= i < |before| && Claims(before[i], e);
      assert Claims(after[i], e);
    } else {
      forall i | 0 <= i < |after| ensures !Unmarked(after[i], e) {
        assert !Unmarked(before[i], e);
      }
    }
  }

  lemma KeepsTrans(a: seq<Row>, b: seq<Row>, c: seq<Row>)
    requires Keeps(a, b) && Keeps(b, c)
    ensures Keeps(a, c)
  {}

  lemma {:induction false} MarkAllKeeps(rows: seq<Row>, events: seq<Event>)
    ensures Keeps(rows, MarkAll(rows, events))
    ensures OneClaimEach(rows) ==> OneClaimEach(MarkAll(rows, events))
    ensures forall e :: e in events ==> Absorbed(MarkAll(rows, events), e)
  {
    if events != [] {
      var init, last := events[..|events| - 1], events[|events| - 1];
      var mid, after := MarkAll(rows, init), MarkAll(rows, events);
      assert after == Mark(mid, last);
      MarkAllKeeps(rows, init);
      MarkKeeps(mid, last);
      KeepsTrans(rows, mid, after);
      forall e | e in events ensures Absorbed(after, e) {
        if e in init {
          KeepsAbsorbed(mid, after, e);
        } else {
          assert e == last;
        }
      }
    }
  }

  // ── What the rows say afterwards, on the columns ──

  /** A row of this user and oToken records the event's transaction. */
  ghost predicate Delivered(rows: seq<Row>, e: Event) {
    exists i :: 0 <= i < |rows| && rows[i].order.data.user == e.user && rows[i].order.data.otoken == e.otoken
                && rows[i].delivery.Some? && rows[i].delivery.value.tx == e.delivery.tx
  }

  /** Every row of this user and oToken has a delivery. */
  ghost predicate NoneLeft(rows: seq<Row>, e: Event) {
    forall i :: 0 <= i < |rows| && rows[i].order.data.user == e.user && rows[i].order.data.otoken == e.otoken ==>
      rows[i].delivery.Some?
  }

  /** Every event handled is on a row of its user and oToken, or none of these is left without a delivery. */
  lemma EveryEventIsDelivered(rows: seq<Row>, events: seq<Event>)
    ensures forall e :: e in events ==> Delivered(MarkAll(rows, events), e) || NoneLeft(MarkAll(rows, events), e)
  {
    var after := MarkAll(rows, events);
    MarkAllKeeps(rows, events);
    forall e | e in events ensures Delivered(after, e) || NoneLeft(after, e) {
      assert Absorbed(after, e);
      if Recorded(after, e) {
        var i :| 0 <= i < |after| && Claims(after[i], e);
      } else {
        assert forall i :: 0 <= i < |after| ==> !Unmarked(after[i], e);
      }
    }
  }

  /**
   * A new delivery on a row is that of an event for its user and oToken, and no
   * position with a lower vault id was passed over.
   */
  ghost predicate Assigned(before: seq<Row>, after: seq<Row>, events: seq<Event>)
    requires |after| == |before|
  {
    && (forall i :: 0 <= i < |before| && after[i].delivery != before[i].delivery ==>
          exists k :: 0 <= k < |events| && after[i].delivery == Some(events[k].delivery)
                      && before[i].order.data.user == events[k].user && before[i].order.data.otoken == events[k].otoken)
    && (forall i, j :: 0 <= i < |before| && 0 <= j < |before| && after[i].delivery != before[i].delivery
                       && after[j].delivery.None? && before[i].order.data.user == before[j].order.data.user
                       && before[i].order.data.otoken == before[j].order.data.otoken ==>
          before[i].order.data.vaultId <= before[j].order.data.vaultId)
  }

  lemma {:induction false} MarkAllAssigns(rows: seq<Row>, events: seq<Event>)
    ensures |MarkAll(rows, events)| == |rows| && Assigned(rows, MarkAll(rows, events), events)
  {
    MarkAllKeeps(rows, events);
    if events != [] {
      var init, last := events[..|events| - 1], events[|events| - 1];
      MarkAllAssigns(rows, init);
      MarkAllKeeps(rows, init);
      AssignedMore(rows, MarkAll(rows, init), init, last);
      assert events == init + [last];
    }
  }

  lemma AssignedMore(before: seq<Row>, mid: seq<Row>, events: seq<Event>, e: Event)
    requires Keeps(before, mid) && Assigned(before, mid, events)
    ensures |Mark(mid, e)| == |before| && Assigned(before, Mark(mid, e), events + [e])
  {
    var after, more := Mark(mid, e), events + [e];
    forall i | 0 <= i < |before| && after[i].delivery != before[i].delivery
      ensures exists k :: 0 <= k < |more| && after[i].delivery == Some(more[k].delivery)
                          && before[i].order.data.user == more[k].user && before[i].order.data.otoken == more[k].otoken
    {
      if mid[i].delivery != before[i].delivery {
        var k :| 0 <= k < |events| && mid[i].delivery == Some(events[k].delivery)
                 && before[i].order.data.user == events[k].user && before[i].order.data.otoken == events[k].otoken;
        assert more[k] == events[k] && after[i] == mid[i];
      } else {
        assert more[|events|] == e;
      }
    }
    forall i, j | 0 <= i < |before| && 0 <= j < |before| && after[i].delivery != before[i].delivery
                  && after[j].delivery.None? && before[i].order.data.user == before[j].order.data.user
                  && before[i].order.data.otoken == before[j].order.data.otoken
      ensures before[i].order.data.vaultId <= before[j].order.data.vaultId
    {
      assert mid[j].delivery.None?;
      if mid[i].delivery == before[i].delivery {
        assert IsCandidate(mid, e, i) && Unmarked(mid[j], e);
      }
    }
  }

  lemma HandledSoFar(rows: seq<Row>, events: seq<Event>)
    ensures forall e :: e in events ==> Delivered(MarkAll(rows, events), e) || NoneLeft(MarkAll(rows, events), e)
    ensures |MarkAll(rows, events)| == |rows| && Assigned(rows, MarkAll(rows, events), events)
  {
    EveryEventIsDelivered(rows, events);
    MarkAllAssigns(rows, events);
  }

  // ── How many rows are delivered ──

  function PositionsOf(rows: seq<Row>, user: string, otoken: string): nat {
    if rows == [] then 0
    else
      var last := rows[|rows| - 1].order.data;
      PositionsOf(rows[..|rows| - 1], user, otoken) + if last.user == user && last.otoken == otoken then 1 else 0
  }

  function DeliveredOf(rows: seq<Row>, user: string, otoken: string): nat {
    if rows == [] then 0
    else
      var last := rows[|rows| - 1];
      DeliveredOf(rows[..|rows| - 1], user, otoken)
        + if last.order.data.user == user && last.order.data.otoken == otoken && last.delivery.Some? then 1 else 0
  }

  /** The transactions of the events for a user and oToken, and of those on its rows. */
  function TxsOf(events: seq<Event>, user: string, otoken: string): set<TxHash> {
    set i | 0 <= i < |events| && events[i].user == user && events[i].otoken == otoken :: events[i].delivery.tx
  }

  function TxsOn(rows: seq<Row>, user: string, otoken: string): set<TxHash> {
    set i | 0 <= i < |rows| && rows[i].order.data.user == user && rows[i].order.data.otoken == otoken && rows[i].delivery.Some?
      :: rows[i].delivery.value.tx
  }

  lemma {:induction false} CountsOfMarked(rows: seq<Row>, i: nat, d: Delivery, user: string, otoken: string)
    requires i < |rows| && rows[i].delivery.None?
    ensures var after := rows[i := rows[i].(delivery := Some(d))];
            && PositionsOf(after, user, otoken) == PositionsOf(rows, user, otoken)
            && DeliveredOf(after, user, otoken)
            == DeliveredOf(rows, user, otoken)
               + (if rows[i].order.data.user == user && rows[i].order.data.otoken == otoken then 1 else 0)
  {
    var after := rows[i := rows[i].(delivery := Some(d))];
    var n := |rows| - 1;
    if i < n {
      assert after[..n] == rows[..n][i := rows[..n][i].(delivery := Some(d))];
      CountsOfMarked(rows[..n], i, d, user, otoken);
    } else {
      assert after[..n] == rows[..n];
    }
  }

  lemma {:induction false} AllDeliveredIff(rows: seq<Row>, user: string, otoken: string)
    ensures DeliveredOf(rows, user, otoken) <= PositionsOf(rows, user, otoken)
    ensures DeliveredOf(rows, user, otoken) == PositionsOf(rows, user, otoken)
       <==> forall i :: 0 <= i < |rows| && rows[i].order.data.user == user && rows[i].order.data.otoken == otoken ==>
              rows[i].delivery.Some?
  {
    if rows != [] {
      var init := rows[..|rows| - 1];
      AllDeliveredIff(init, user, otoken);
      assert forall i :: 0 <= i < |init| ==> init[i] == rows[i];
    }
  }

  /** The count and the recorded transactions after the events, from those before. */
  ghost predicate Counts(before: seq<Row>, after: seq<Row>, events: seq<Event>, user: string, otoken: string) {
    var was, unseen := TxsOn(before, user, otoken), TxsOf(events, user, otoken) - TxsOn(before, user, otoken);
    var n, all := DeliveredOf(after, user, otoken), PositionsOf(before, user, otoken);
    && PositionsOf(after, user, otoken) == all
    && n == Min(all, DeliveredOf(before, user, otoken) + |unseen|)
    && TxsOn(after, user, otoken) <= was + unseen
    && (n < all ==> TxsOn(after, user, otoken) == was + unseen)
  }

  lemma TxsOfMore(events: seq<Event>, e: Event, user: string, otoken: string)
    ensures TxsOf(events + [e], user, otoken)
         == TxsOf(events, user, otoken) + if e.user == user && e.otoken == otoken then {e.delivery.tx} else {}
  {
    var more := events + [e];
    assert more[|events|] == e;
    forall tx | tx in TxsOf(events, user, otoken) ensures tx in TxsOf(more, user, otoken) {
      var i :| 0 <= i < |events| && events[i].user == user && events[i].otoken == otoken && events[i].delivery.tx == tx;
      assert more[i] == events[i];
    }
  }

  lemma TxsOnMarked(rows: seq<Row>, i: nat, d: Delivery, user: string, otoken: string)
    requires i < |rows| && rows[i].delivery.None?
    ensures TxsOn(rows[i := rows[i].(delivery := Some(d))], user, otoken)
         == TxsOn(rows, user, otoken)
            + (if rows[i].order.data.user == user && rows[i].order.data.otoken == otoken then {d.tx} else {})
  {
    var after := rows[i := rows[i].(delivery := Some(d))];
    assert after[i].delivery == Some(d);
    forall tx | tx in TxsOn(rows, user, otoken) ensures tx in TxsOn(after, user, otoken) {
      var j :| 0 <= j < |rows| && rows[j].order.data.user == user && rows[j].order.data.otoken == otoken
               && rows[j].delivery.Some? && rows[j].delivery.value.tx == tx;
      assert after[j] == rows[j];
    }
  }

  /** Nothing is marked: no new transaction, or no row left for it. */
  lemma CountsStay(before: seq<Row>, mid: seq<Row>, events: seq<Event>, e: Event, user: string, otoken: string)
    requires Counts(before, mid, events, user, otoken)
    requires DeliveredOf(mid, user, otoken) == PositionsOf(mid, user, otoken)
             || TxsOf(events + [e], user, otoken) <= TxsOf(events, user, otoken) + TxsOn(before, user, otoken)
    ensures Counts(before, mid, events + [e], user, otoken)
  {
    hide PositionsOf, DeliveredOf, TxsOf, TxsOn;
    TxsOfMore(events, e, user, otoken);
    var was := TxsOn(before, user, otoken);
    var some, more := TxsOf(events, user, otoken) - was, TxsOf(events + [e], user, otoken) - was;
    assert more == some || more == some + {e.delivery.tx};
  }

  /** A row is marked for a new transaction. */
  lemma CountsGrow(before: seq<Row>, mid: seq<Row>, events: seq<Event>, e: Event, i: nat)
    requires Counts(before, mid, events, e.user, e.otoken)
    requires i < |mid| && Unmarked(mid[i], e) && e.delivery.tx !in TxsOn(mid, e.user, e.otoken)
    ensures Counts(before, mid[i := mid[i].(delivery := Some(e.delivery))], events + [e], e.user, e.otoken)
  {
    hide PositionsOf, DeliveredOf, TxsOf, TxsOn;
    TxsOfMore(events, e, e.user, e.otoken);
    CountsOfMarked(mid, i, e.delivery, e.user, e.otoken);
    TxsOnMarked(mid, i, e.delivery, e.user, e.otoken);
    AllDeliveredIff(mid, e.user, e.otoken);
    assert DeliveredOf(mid, e.user, e.otoken) < PositionsOf(mid, e.user, e.otoken);
    var was := TxsOn(before, e.user, e.otoken);
    var some, more := TxsOf(events, e.user, e.otoken) - was, TxsOf(events + [e], e.user, e.otoken) - was;
    assert more == some + {e.delivery.tx};
  }

  lemma CountsMore(before: seq<Row>, mid: seq<Row>, events: seq<Event>, e: Event, user: string, otoken: string)
    requires Counts(before, mid, events, user, otoken)
    ensures Counts(before, Mark(mid, e), events + [e], user, otoken)
  {
    hide PositionsOf, DeliveredOf, TxsOf, TxsOn;
    TxsOfMore(events, e, user, otoken);
    RecordedIff(mid, e);
    AllDeliveredIff(mid, user, otoken);
    if Absorbed(mid, e) {
      if e.user == user && e.otoken == otoken && !Recorded(mid, e) {
        assert forall i :: 0 <= i < |mid| ==> !Unmarked(mid[i], e);
      }
      CountsStay(before, mid, events, e, user, otoken);
    } else {
      var i := Candidate(mid, e);
      assert Unmarked(mid[i], e);
      if e.user == user && e.otoken == otoken {
        CountsGrow(before, mid, events, e, i);
      } else {
        CountsOfMarked(mid, i, e.delivery, user, otoken);
        TxsOnMarked(mid, i, e.delivery, user, otoken);
        CountsStay(before, mid, events, e, user, otoken);
      }
    }
  }

  lemma RecordedIff(rows: seq<Row>, e: Event)
    ensures Recorded(rows, e) <==> e.delivery.tx in TxsOn(rows, e.user, e.otoken)
  {
    if Recorded(rows, e) {
      var i :| 0 <= i < |rows| && Claims(rows[i], e);
    }
    if e.delivery.tx in TxsOn(rows, e.user, e.otoken) {
      var i :| 0 <= i < |rows| && rows[i].order.data.user == e.user && rows[i].order.data.otoken == e.otoken
               && rows[i].delivery.Some? && rows[i].delivery.value.tx == e.delivery.tx;
      assert Claims(rows[i], e);
    }
  }

  lemma CountsNothing(rows: seq<Row>, user: string, otoken: string)
    ensures Counts(rows, rows, [], user, otoken)
  {
    AllDeliveredIff(rows, user, otoken);
    assert TxsOf([], user, otoken) == {};
    hide PositionsOf, DeliveredOf, TxsOf, TxsOn;
  }

  lemma {:induction false} MarkAllCounts(rows: seq<Row>, events: seq<Event>, user: string, otoken: string)
    ensures Counts(rows, MarkAll(rows, events), events, user, otoken)
  {
    if events == [] {
      CountsNothing(rows, user, otoken);
    } else {
      hide Counts, Mark, PositionsOf, DeliveredOf, TxsOf, TxsOn;
      var init, last := events[..|events| - 1], events[|events| - 1];
      MarkAllCounts(rows, init, user, otoken);
      CountsMore(rows, MarkAll(rows, init), init, last, user, otoken);
      assert events == init + [last];
    }
  }

  /**
   * Each new transaction delivers one position: afterwards the delivered rows of a user
   * and oToken are those before plus the transactions not yet recorded, as far as there
   * are rows.
   */
  lemma DeliveredAreCounted(rows: seq<Row>, events: seq<Event>, user: string, otoken: string)
    ensures DeliveredOf(MarkAll(rows, events), user, otoken)
         == Min(PositionsOf(rows, user, otoken),
                DeliveredOf(rows, user, otoken) + |TxsOf(events, user, otoken) - TxsOn(rows, user, otoken)|)
  {
    hide PositionsOf, DeliveredOf, TxsOf, TxsOn;
    MarkAllCounts(rows, events, user, otoken);
  }

  lemma {:induction false} AbsorbedChangesNothing(rows: seq<Row>, events: seq<Event>)
    requires forall e :: e in events ==> Absorbed(rows, e)
    ensures MarkAll(rows, events) == rows
  {
    if events != [] {
      var init, last := events[..|events| - 1], events[|events| - 1];
      AbsorbedChangesNothing(rows, init);
      assert last in events && Absorbed(rows, last);
      assert MarkAll(rows, events) == Mark(MarkAll(rows, init), last);
    }
  }

  /**
   * Replays are harmless: once a list of events was handled, handling any events
   * of that list again, in any order and any number of times, changes no row.
   */
  lemma ReplayIsHarmless(rows: seq<Row>, events: seq<Event>, again: seq<Event>)
    requires forall e :: e in again ==> e in events
    ensures MarkAll(MarkAll(rows, events), again) == MarkAll(rows, events)
  {
    MarkAllKeeps(rows, events);
    AbsorbedChangesNothing(MarkAll(rows, events), again);
  }

  lemma {:induction false} MarkAllSplits(rows: seq<Row>, first: seq<Event>, rest: seq<Event>)
    ensures MarkAll(rows, first + rest) == MarkAll(MarkAll(rows, first), rest)
  {
    if rest == [] {
      assert first + rest == first;
    } else {
      var all := first + rest;
      assert all[..|all| - 1] == first + rest[..|rest| - 1];
      MarkAllSplits(rows, first, rest[..|rest| - 1]);
    }
  }

  /** A pass cut off after any prefix and then repeated from the start gives the rows of one full pass. */
  lemma ResumeAfterCrash(rows: seq<Row>, events: seq<Event>, done: nat)
    requires done <= |events|
    ensures MarkAll(MarkAll(rows, events[..done]), events) == MarkAll(rows, events)
  {
    var first, rest := events[..done], events[done..];
    assert events == first + rest;
    MarkAllSplits(rows, first, rest);
    MarkAllSplits(MarkAll(rows, first), first, rest);
    ReplayIsHarmless(rows, first, first);
  }

  lemma {:induction false} MarkedAfterUpdate(rows: seq<Row>, i: nat, d: Delivery)
    requires i < |rows| && rows[i].delivery.None?
    ensures Marked(rows[i := rows[i].(delivery := Some(d))]) == Marked(rows) + 1
  {
    var after := rows[i := rows[i].(delivery := Some(d))];
    var n := |rows| - 1;
    if i < n {
      assert after[..n] == rows[..n][i := rows[..n][i].(delivery := Some(d))];
      MarkedAfterUpdate(rows[..n], i, d);
    } else {
      assert after[..n] == rows[..n];
    }
  }

  // ── Storing order events ──

  /** The first row of a transaction; |rows| when there is none. */
  function IndexOf(rows: seq<Row>, tx: TxHash): (i: nat)
    ensures i <= |rows| && (i < |rows| ==> rows[i].order.tx == tx)
    ensures forall j :: 0 <= j < i ==> rows[j].order.tx != tx
  {
    if rows == [] then 0
    else
      var i := IndexOf(rows[..|rows| - 1], tx);
      if i < |rows| - 1 || rows[|rows| - 1].order.tx == tx then i else |rows|
  }

  /** Upsert of one event on the transaction hash: the delivery columns of an existing row stay. */
  function Store(rows: seq<Row>, o: Order): seq<Row> {
    var i := IndexOf(rows, o.tx);
    if i < |rows| then rows[i := rows[i].(order := o)] else rows + [Row(o, None)]
  }

  function Upsert(rows: seq<Row>, orders: seq<Order>): seq<Row> {
    if orders == [] then rows else Store(Upsert(rows, orders[..|orders| - 1]), orders[|orders| - 1])
  }

  /** The event is in the database, as the chain has it. */
  ghost predicate Has(rows: seq<Row>, o: Order) { exists i :: 0 <= i < |rows| && rows[i].order == o }

  /** The unique index of the table. */
  ghost predicate UniqueTx(rows: seq<Row>) {
    forall i, j :: 0 <= i < j < |rows| ==> rows[i].order.tx != rows[j].order.tx
  }

  /** Every event of the list is told apart by its transaction. */
  ghost predicate TxIdentifies(orders: seq<Order>) {
    forall a, b :: a in orders && b in orders && a.tx == b.tx ==> a == b
  }

  lemma StoreAdds(rows: seq<Row>, o: Order)
    requires UniqueTx(rows)
    ensures UniqueTx(Store(rows, o)) && Has(Store(rows, o), o)
    ensures forall p :: Has(rows, p) && p.tx != o.tx ==> Has(Store(rows, o), p)
  {
    var i, after := IndexOf(rows, o.tx), Store(rows, o);
    assert after[i].order == o;
    forall p | Has(rows, p) && p.tx != o.tx ensures Has(after, p) {
      var j :| 0 <= j < |rows| && rows[j].order == p;
      assert after[j].order == p;
    }
  }

  lemma {:induction false} UpsertAdds(rows: seq<Row>, orders: seq<Order>)
    requires UniqueTx(rows)
    ensures UniqueTx(Upsert(rows, orders))
    ensures TxIdentifies(orders) ==> forall o :: o in orders ==> Has(Upsert(rows, orders), o)
  {
    if orders != [] {
      var init, last := orders[..|orders| - 1], orders[|orders| - 1];
      UpsertAdds(rows, init);
      StoreAdds(Upsert(rows, init), last);
      assert forall o :: o in orders <==> o in init || o == last;
    }
  }

  /** One upsert stores every event of the list exactly when no two different ones share a transaction. */
  lemma StoresAllIff(rows: seq<Row>, orders: seq<Order>)
    requires UniqueTx(rows)
    ensures (forall o :: o in orders ==> Has(Upsert(rows, orders), o)) <==> TxIdentifies(orders)
  {
    var after := Upsert(rows, orders);
    UpsertAdds(rows, orders);
    if forall o :: o in orders ==> Has(after, o) {
      forall a, b | a in orders && b in orders && a.tx == b.tx ensures a == b {
        var i :| 0 <= i < |after| && after[i].order == a;
        var j :| 0 <= j < |after| && after[j].order == b;
      }
    }
  }

  /** All rows stay, with their orders and claims; new ones are behind them and unclaimed. */
  ghost predicate Extends(before: seq<Row>, after: seq<Row>) {
    && |before| <= |after|
    && Keeps(before, after[..|before|])
  }

  lemma ExtendsTrans(a: seq<Row>, b: seq<Row>, c: seq<Row>)
    requires Extends(a, b) && Extends(b, c)
    ensures Extends(a, c)
  {
    assert forall i :: 0 <= i < |a| ==> c[..|b|][i] == c[i] && b[..|a|][i] == b[i];
  }

  class OrderEvents {
    var rows: seq<Row>

    constructor (initial: seq<Row>)
      ensures rows == initial
    {
      rows := initial;
    }

    /** _store_events: one upsert, which may land although it raises. */
    method StoreEvents(orders: seq<Order>, calm: bool) returns (raised: bool)
      modifies this
      ensures rows == old(rows) || rows == Upsert(old(rows), orders)
      ensures (!raised ==> rows == Upsert(old(rows), orders)) && (calm ==> !raised)
    {
      var lands: bool := *;
      raised := *;
      lands, raised := lands || calm, !calm && (raised || !lands);
      if lands {
        rows := Upsert(rows, orders);
      }
    }

    /** The idempotency query: does a row record this transaction for this user and oToken? */
    method AlreadyRecorded(e: Event) returns (found: bool)
      ensures found == Recorded(rows, e) == Delivered(rows, e)
    {
      for i := 0 to |rows|
        invariant forall j :: 0 <= j < i ==> !Claims(rows[j], e)
      {
        if Claims(rows[i], e) {
          return true;
        }
      }
      return false;
    }

    /** The candidate query: unmarked rows by vault id, limit one. */
    method FindCandidate(e: Event) returns (at: Option<nat>)
      ensures at.Some? ==> IsCandidate(rows, e, at.value)
      ensures at.None? ==> Exhausted(rows, e) && NoneLeft(rows, e)
      ensures at.Some? ==>
                && rows[at.value].order.data.user == e.user && rows[at.value].order.data.otoken == e.otoken
                && rows[at.value].delivery.None?
                && (forall j :: 0 <= j < |rows| && rows[j].order.data.user == e.user && rows[j].order.data.otoken == e.otoken
                                && rows[j].delivery.None? ==>
                      rows[at.value].order.data.vaultId <= rows[j].order.data.vaultId)
    {
      at := None;
      for i := 0 to |rows|
        invariant at.Some? ==> at.value < i && IsCandidate(rows[..i], e, at.value)
        invariant at.None? ==> forall j :: 0 <= j < i ==> !Unmarked(rows[j], e)
      {
        if Unmarked(rows[i], e) && (at.None? || VaultId(rows[i]) < VaultId(rows[at.value])) {
          at := Some(i);
        }
        assert forall j :: 0 <= j < i ==> rows[..i + 1][j] == rows[..i][j];
        assert rows[..i + 1][i] == rows[i];
      }
      assert rows[..|rows|] == rows;
    }

    /**
     * _update_delivery_events. A database error may end it (`raised`, never when calm)
     * after any number of events, and the update that raised may have landed; the rows
     * are those of the events handled so far.
     */
    method UpdateDeliveryEvents(events: seq<Event>, calm: bool) returns (updated: nat, ghost handled: nat, raised: bool)
      modifies this
      ensures handled <= |events| && (!raised ==> handled == |events|) && (calm ==> !raised)
      ensures rows == MarkAll(old(rows), events[..handled])
      ensures updated <= Marked(rows) - Marked(old(rows)) <= updated + 1
      ensures !raised ==> updated == Marked(rows) - Marked(old(rows))
      ensures forall e :: e in events[..handled] ==> Delivered(rows, e) || NoneLeft(rows, e)
      ensures |rows| == |old(rows)| && Assigned(old(rows), rows, events[..handled])
    {
      hide Delivered, NoneLeft, Assigned;
      updated, handled, raised := 0, 0, false;
      ghost var was := rows;
      HandledSoFar(was, []);
      for i := 0 to |events|
        invariant handled == i && !raised
        invariant rows == MarkAll(was, events[..i]) && |rows| == |was| && Assigned(was, rows, events[..i])
        invariant forall e :: e in events[..i] ==> Delivered(rows, e) || NoneLeft(rows, e)
        invariant updated == Marked(rows) - Marked(old(rows))
      {
        var e := events[i];
        assert events[..i + 1][..i] == events[..i];
        raised := *;
        raised := raised && !calm;
        if raised { return; }
        var already := AlreadyRecorded(e);
        if !already {
          var at := FindCandidate(e);
          if at.Some? {
            CandidateIsUnique(rows, e, at.value);
            MarkedAfterUpdate(rows, at.value, e.delivery);
            var lands: bool := *;
            raised := *;
            lands, raised := lands || calm, !calm && (raised || !lands);
            if lands {
              rows := rows[at.value := rows[at.value].(delivery := Some(e.delivery))];
              handled := i + 1;
              HandledSoFar(was, events[..i + 1]);
            }
            if raised { return; }
            updated := updated + 1;
          }
        }
        handled := i + 1;
        HandledSoFar(was, events[..i + 1]);
      }
      assert events[..|events|] == events;
    }
  }

  lemma CandidateIsUnique(rows: seq<Row>, e: Event, i: nat)
    requires IsCandidate(rows, e, i)
    ensures !Exhausted(rows, e) && Candidate(rows, e) == i
  {
    assert Unmarked(rows[i], e);
    var j := Candidate(rows, e);
    assert Unmarked(rows[j], e);
  }
}
