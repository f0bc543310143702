/**
 * The order_events rows the expiry settler works on, its two work queries, and
 * what one cycle may do to a row (src/bots/expiry_settler.py).
 */
module Settlement {
  import opened Wrappers

  /** A vault: owner address and vault id. Base rows, one per vault. */
  type Key = (string, nat)

  type TxHash = nat

  datatype Asset = Eth | Btc

  datatype SettlementType = Cash | Physical | PhysicalFailed

  datatype Row = Row(
    expiry: int,
    asset: Asset,
    strike: Option<int>,
    isPut: Option<bool>,
    amount: Option<int>,
    maker: Option<string>,
    isSettled: bool,
    settlementType: Option<SettlementType>,
    isItm: Option<bool>,
    expiryPrice: Option<int>,
    deliveryTx: Option<TxHash>)

  /** An oracle price is finalized per underlying and expiry. */
  type Feed = (Asset, int)

  function FeedOf(row: Row): Feed { (row.asset, row.expiry) }

  predicate Complete(row: Row) { row.strike.Some? && row.isPut.Some? && row.amount.Some? }

  /** get_expired_unsettled. */
  predicate ExpiredUnsettled(row: Row, now: int) {
    !row.isSettled && row.expiry <= now && Complete(row)
  }

  predicate AwaitsDelivery(row: Row) {
    && row.deliveryTx.None?
    && row.isItm != Some(false)
    && (row.settlementType.None? || row.settlementType == Some(Cash))
    && row.maker.Some?
  }

  /** get_pending_phase2. */
  predicate PendingPhase2(row: Row, now: int) {
    row.isSettled && row.expiry <= now && Complete(row) && AwaitsDelivery(row)
  }

  predicate Selected(row: Row, now: int) { ExpiredUnsettled(row, now) || PendingPhase2(row, now) }

  /** Strictly in the money: at the strike neither side is. */
  predicate InTheMoney(row: Row, price: int)
    requires Complete(row)
  {
    if row.isPut.value then price < row.strike.value else price > row.strike.value
  }

  predicate HasMaker(row: Row) { row.maker.Some? && row.maker.value != "" }

  /** How a cycle came to know the vault is settled on chain. */
  datatype Via =
    | Recovered   // marked by an earlier cycle
    | Observed    // found settled on chain
    | Batched     // settled by this cycle's transaction

  datatype Outcome =
    | Left(observed: bool)                 // not carried into phase 2
    | Skipped(via: Via)                    // no finalized price could be read
    | OutOfTheMoney(via: Via, price: int)
    | Undeliverable(via: Via, price: int)  // no market maker, or every retry failed
    | Delivered(via: Via, price: int, tx: TxHash)

  function SettleMark(row: Row, via: Via): Row {
    match via
    case Recovered => row
    case Observed => row.(isSettled := true)
    case Batched => row.(isSettled := true, settlementType := Some(Cash))
  }

  function FailMark(row: Row, price: int): Row {
    row.(settlementType := Some(PhysicalFailed), isItm := Some(true), expiryPrice := Some(price))
  }

  function DeliveryMark(row: Row, price: int, tx: TxHash): Row {
    row.(settlementType := Some(Physical), isItm := Some(true), expiryPrice := Some(price), deliveryTx := Some(tx))
  }

  function OtmMark(row: Row, price: int): Row { row.(isItm := Some(false), expiryPrice := Some(price)) }

  /** The row after the cycle when each of its marks lands. */
  function Finish(row: Row, o: Outcome): Row {
    match o
    case Left(observed) => if observed then SettleMark(row, Observed) else row
    case Skipped(via) => SettleMark(row, via)
    case OutOfTheMoney(via, price) => OtmMark(SettleMark(row, via), price)
    case Undeliverable(via, price) => FailMark(SettleMark(row, via), price)
    case Delivered(via, price, tx) => DeliveryMark(SettleMark(row, via), price, tx)
  }

  predicate Fits(row: Row, o: Outcome) {
    if o.Left? then !row.isSettled
    else && (o.via.Recovered? <==> row.isSettled)
         && (o.OutOfTheMoney? ==> Complete(row) && !InTheMoney(row, o.price))
         && (o.Undeliverable? || o.Delivered? ==> Complete(row) && InTheMoney(row, o.price))
         && (o.Delivered? ==> HasMaker(row))
  }

  /** Nothing of an earlier delivery is on the row. */
  predicate Untouched(row: Row) {
    row.deliveryTx.None? && row.isItm.None? && (row.settlementType.None? || row.settlementType == Some(Cash))
  }

  /** The columns no mark writes. */
  predicate SameTerms(a: Row, b: Row) {
    && a.expiry == b.expiry && a.asset == b.asset && a.strike == b.strike && a.isPut == b.isPut
    && a.amount == b.amount && a.maker == b.maker
  }

  /**
   * Convergence, exactly: at the same clock the next cycle selects a row this one
   * worked on if it was left unsettled, or if it is settled without a finalized
   * price and still awaits delivery; no other outcome is ever selected again.
   */
  lemma SelectedAgainIff(row: Row, o: Outcome, now: int)
    requires Selected(row, now) && Fits(row, o)
    ensures Selected(Finish(row, o), now)
       <==> || (o.Left? && !o.observed)
            || ((o.Skipped? || o.Left?) && AwaitsDelivery(Finish(row, o)))
  {
    match o
    case Left(_) =>
    case Skipped(via) => SettledBy(row, via);
    case OutOfTheMoney(via, _) => SettledBy(row, via);
    case Undeliverable(via, _) => SettledBy(row, via);
    case Delivered(via, _, _) => SettledBy(row, via);
  }

  lemma SettledBy(row: Row, via: Via)
    requires via.Recovered? <==> row.isSettled
    ensures SettleMark(row, via).isSettled && SameTerms(row, SettleMark(row, via))
  {}

  /** For a row no earlier cycle classified, a skipped one is selected again exactly if it names a maker. */
  lemma SkippedIsSelectedAgainIff(row: Row, via: Via, now: int)
    requires Selected(row, now) && Untouched(row) && Fits(row, Skipped(via))
    ensures Selected(Finish(row, Skipped(via)), now) <==> row.maker.Some?
  {
    SelectedAgainIff(row, Skipped(via), now);
  }

  /** A delivered row is never worked on again, at any later clock. */
  lemma DeliveredIsNeverSelected(row: Row, o: Outcome, now: int)
    requires Fits(row, o) && o.Delivered?
    ensures !Selected(Finish(row, o), now)
  {}

  /**
   * Why both marks matter: a delivered position whose delivery mark was lost looks
   * to the next cycle like one that still awaits delivery.
   */
  lemma LostDeliveryMarkIsSelectedAgain(row: Row, via: Via, now: int)
    requires Selected(row, now) && Untouched(row) && HasMaker(row) && (via.Recovered? <==> row.isSettled)
    ensures PendingPhase2(SettleMark(row, via), now)
  {
    SettledBy(row, via);
  }

  /**
   * Likewise: a delivery recorded on a row whose settlement mark was
   * lost is selected again, and being settled on chain goes straight to phase 2.
   */
  lemma LostSettleMarkIsSelectedAgain(row: Row, price: int, tx: TxHash, now: int)
    requires ExpiredUnsettled(row, now)
    ensures ExpiredUnsettled(DeliveryMark(row, price, tx), now)
  {}
}
