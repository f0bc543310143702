/**
 * The two-phase settlement cycle (src/bots/expiry_settler.py): settle vaults in
 * batches on chain, reconcile the rows with the chain, classify against the
 * oracle and deliver in-the-money positions. The database and the chain fail
 * independently: every read, write and transaction below is the environment's choice.
 */
module ExpirySettler {
  import opened Arithmetic
  import opened Wrappers
  import opened Settlement
  import opened SettlementAmounts

  const MAX_BATCH_SIZE := 50

  /** What becomes of a transaction: it is never sent, has no effect, lands although the call raises, or is confirmed. */
  datatype Call = NotSent | Refused | LandedUnseen | Confirmed(tx: TxHash)

  predicate Lands(call: Call) { call.LandedUnseen? || call.Confirmed? }

  /**
   * What one cycle meets. Setting prices: those that others made final, Chainlink's price
   * of an asset, the feeds whose state can be checked, the fate of each setting
   * transaction. Then whether the first reconciliation runs through, the oracle and vault
   * reads that succeed, the fate of each batch
   * transaction and of each numbered redeem attempt, settings.settlement_max_retries,
   * and whether the process survives.
   */
  datatype Environment = Environment(
    others: map<Feed, int>, quote: Asset -> Option<int>, checked: Feed -> bool, setPrice: Feed -> Call,
    reconciles: bool, readable: Feed -> bool, checkable: Key -> bool, batch: seq<Key> -> Call, redeem: (Key, nat) -> Call,
    maxRetries: int, survives: bool)

  /** The price of the feed can be made final: Chainlink has one, and the transaction lands. */
  predicate Settable(feed: Feed, env: Environment) {
    env.checked(feed) && env.quote(feed.0).Some? && Lands(env.setPrice(feed))
  }

  /**
   * The prices after those of the given expiries were set: what was final stays, and
   * every other feed of them that can be set has the asset's price.
   */
  ghost predicate PricesSet(before: map<Feed, int>, after: map<Feed, int>, expiries: set<int>, env: Environment) {
    && (forall f: Feed :: f in after <==>
          || f in before || f in env.others
          || (f.1 in expiries && env.checked(f) && env.quote(f.0).Some? && Lands(env.setPrice(f))))
    && (forall f: Feed :: f in after ==>
          after[f] == if f in before then before[f] else if f in env.others then env.others[f] else env.quote(f.0).value)
  }

  /** No redeem lands unseen. */
  ghost predicate NothingUnseen(env: Environment) { forall k, a :: !env.redeem(k, a).LandedUnseen? }

  /** Every batch that may be sent, of 1 to 50 vaults, is confirmed; none of them lands. */
  ghost predicate AllConfirmed(env: Environment) { forall b :: 1 <= |b| <= 50 ==> env.batch(b).Confirmed? }

  ghost predicate NoneLands(env: Environment) { forall b :: 1 <= |b| <= 50 ==> env.batch(b) in {NotSent, Refused} }

  predicate EndsConfirmed(calls: seq<Call>) { calls != [] && calls[|calls| - 1].Confirmed? }

  /** The answers to the first n redeem attempts for a vault, of which a confirmed one is the last. */
  function Attempts(env: Environment, k: Key, n: nat): seq<Call> {
    if n == 0 then []
    else
      var calls := Attempts(env, k, n - 1);
      if EndsConfirmed(calls) then calls else calls + [env.redeem(k, n)]
  }

  function Retries(env: Environment, k: Key): seq<Call> { Attempts(env, k, Max(env.maxRetries, 0)) }

  /** The hash of the confirmed attempt, if there is one. */
  function Hash(calls: seq<Call>): Option<TxHash> {
    if EndsConfirmed(calls) then Some(calls[|calls| - 1].tx) else None
  }

  function Sendings(calls: seq<Call>): nat {
    if calls == [] then 0 else Sendings(calls[..|calls| - 1]) + if calls[|calls| - 1].NotSent? then 0 else 1
  }

  function Landings(calls: seq<Call>): nat {
    if calls == [] then 0 else Landings(calls[..|calls| - 1]) + if Lands(calls[|calls| - 1]) then 1 else 0
  }

  /** Attempt a is the first one to be confirmed. */
  ghost predicate FirstConfirmed(env: Environment, k: Key, a: int, tx: TxHash) {
    1 <= a <= env.maxRetries && env.redeem(k, a) == Confirmed(tx) && forall b :: 1 <= b < a ==> !env.redeem(k, b).Confirmed?
  }

  /** Retrying gives up exactly when none of the configured attempts would be confirmed, and then all were made. */
  lemma {:induction false} GivesUpIff(env: Environment, k: Key, n: nat)
    ensures Hash(Attempts(env, k, n)).None? <==> forall a :: 1 <= a <= n ==> !env.redeem(k, a).Confirmed?
    ensures Hash(Attempts(env, k, n)).None? ==> |Attempts(env, k, n)| == n
    ensures forall a :: 1 <= a <= |Attempts(env, k, n)| ==> Attempts(env, k, n)[a - 1] == env.redeem(k, a)
    ensures |Attempts(env, k, n)| <= n
    ensures n <= env.maxRetries && Hash(Attempts(env, k, n)).Some? ==>
              exists a :: FirstConfirmed(env, k, a, Hash(Attempts(env, k, n)).value)
  {
    if n > 0 {
      GivesUpIff(env, k, n - 1);
      if n <= env.maxRetries && Hash(Attempts(env, k, n - 1)).None? && env.redeem(k, n).Confirmed? {
        assert FirstConfirmed(env, k, n, env.redeem(k, n).tx);
      }
    }
  }

  lemma {:induction false} ConfirmedStays(env: Environment, k: Key, m: nat, n: nat)
    requires m <= n && EndsConfirmed(Attempts(env, k, m))
    ensures Attempts(env, k, n) == Attempts(env, k, m)
  {
    if m < n {
      ConfirmedStays(env, k, m, n - 1);
    }
  }

  ghost predicate Distinct(s: seq<Key>) { forall i, j :: 0 <= i < j < |s| ==> s[i] != s[j] }

  function KeysOf(s: seq<Key>): set<Key> { set k | k in s }

  lemma DistinctAppend(a: seq<Key>, b: seq<Key>)
    requires Distinct(a) && Distinct(b) && KeysOf(a) !! KeysOf(b)
    ensures Distinct(a + b) && KeysOf(a + b) == KeysOf(a) + KeysOf(b)
  {
    assert forall k :: k in a + b <==> k in a || k in b;
    forall i, j | 0 <= i < j < |a + b| ensures (a + b)[i] != (a + b)[j] {
      if i < |a| <= j {
        assert a[i] in KeysOf(a) && b[j - |a|] in KeysOf(b);
      }
    }
  }

  lemma DistinctSnoc(a: seq<Key>, k: Key)
    requires Distinct(a) && k !in KeysOf(a)
    ensures Distinct(a + [k]) && KeysOf(a + [k]) == KeysOf(a) + {k}
  {
    DistinctAppend(a, [k]);
    assert KeysOf([k]) == {k};
  }

  lemma KeysOfNext(s: seq<Key>, i: nat)
    requires i < |s| && Distinct(s)
    ensures KeysOf(s[..i + 1]) == KeysOf(s[..i]) + {s[i]} && s[i] !in KeysOf(s[..i]) && s[i] in KeysOf(s)
  {
    assert s[..i + 1] == s[..i] + [s[i]];
  }

  lemma NothingLeft(all: set<Key>, part: set<Key>)
    requires part <= all && all - part == {}
    ensures part == all
  {
    forall k | k in all ensures k in part {
      assert k in part || k in all - part;
    }
  }

  lemma PartMissing(all: set<Key>, before: set<Key>, batch: set<Key>, part: set<Key>)
    requires batch <= all && before !! batch && part <= batch
    ensures part != batch ==> before + part != all
  {
    if part != batch {
      var k :| k in batch && k !in part;
      assert k in all;
    }
  }

  lemma SplitUnion(all: set<Key>, part: set<Key>, rest: set<Key>)
    requires part <= all && rest == all - part
    ensures part + rest == all && part !! rest
  {}

  lemma KeysOfSlice(s: seq<Key>, i: nat, j: nat)
    requires i <= j <= |s| && Distinct(s)
    ensures Distinct(s[i..j]) && KeysOf(s[..i]) !! KeysOf(s[i..j]) && KeysOf(s[i..j]) <= KeysOf(s)
    ensures KeysOf(s[..j]) == KeysOf(s[..i]) + KeysOf(s[i..j])
  {
    assert s[..j] == s[..i] + s[i..j];
  }

  lemma KeysOfPrefix(s: seq<Key>, i: nat)
    requires i <= |s|
    ensures KeysOf(s[..i]) <= KeysOf(s)
  {}

  /** The mark for a vault found settled on chain landed, or was lost. */
  predicate ObservedMark(before: Row, after: Row, lost: bool) {
    after == SettleMark(before, Observed) || (lost && after == before)
  }

  /** Settled on chain and strictly in the money at the finalized price. */
  ghost predicate Deliverable(k: Key, db: map<Key, Row>, settled: set<Key>, prices: map<Feed, int>) {
    && k in db && k in settled && Complete(db[k]) && HasMaker(db[k])
    && FeedOf(db[k]) in prices && InTheMoney(db[k], prices[FeedOf(db[k])])
  }

  /**
   * A row marked settled is settled on chain; unless it is tainted, its vault was
   * redeemed at most once, and then the row carries both marks.
   */
  ghost predicate RowConsistent(row: Row, onChain: bool, redeems: nat, lost: bool) {
    && (row.isSettled ==> onChain)
    && (redeems > 0 ==> lost || (redeems == 1 && row.isSettled && row.deliveryTx.Some?))
  }

  /** Every row is consistent, and a redeem is only ever sent for a deliverable vault. */
  ghost predicate Consistent(db: map<Key, Row>, settled: set<Key>, prices: map<Feed, int>,
                             attempted: seq<Key>, redeemed: multiset<Key>, tainted: set<Key>) {
    && (forall k :: k in redeemed ==> k in db)
    && (forall k :: k in db ==> RowConsistent(db[k], k in settled, redeemed[k], k in tainted))
    && (forall k :: k in attempted ==> Deliverable(k, db, settled, prices))
  }

  /**
   * What a sent redeem means, on the columns: the vault is settled on chain, its row
   * complete with a maker, and the final price is below a put's strike or above a call's.
   */
  ghost predicate AllExercised(attempted: seq<Key>, db: map<Key, Row>, settled: set<Key>, prices: map<Feed, int>) {
    && (forall k :: k in attempted ==>
          && k in db && k in settled && db[k].strike.Some? && db[k].isPut.Some? && db[k].amount.Some?
          && db[k].maker.Some? && db[k].maker.value != "" && (db[k].asset, db[k].expiry) in prices)
    && (forall k :: k in attempted && db[k].isPut.value ==> prices[(db[k].asset, db[k].expiry)] < db[k].strike.value)
    && (forall k :: k in attempted && !db[k].isPut.value ==> prices[(db[k].asset, db[k].expiry)] > db[k].strike.value)
  }

  lemma ConsistentIsExercised(db: map<Key, Row>, settled: set<Key>, prices: map<Feed, int>,
                              attempted: seq<Key>, redeemed: multiset<Key>, tainted: set<Key>)
    requires Consistent(db, settled, prices, attempted, redeemed, tainted)
    ensures AllExercised(attempted, db, settled, prices)
  {
    forall k | k in attempted ensures Deliverable(k, db, settled, prices) {}
  }

  /** A put that is redeemed costs at most its strike value, the USDC that was locked for it. */
  lemma RedeemedPutWithinStrikeValue(db: map<Key, Row>, settled: set<Key>, prices: map<Feed, int>,
                                     attempted: seq<Key>, redeemed: multiset<Key>, tainted: set<Key>, k: Key, decimals: nat)
    requires Consistent(db, settled, prices, attempted, redeemed, tainted) && k in attempted && decimals >= 8
    requires k in db && db[k].isPut == Some(true) && db[k].amount.Some? && db[k].amount.value >= 0
    requires (db[k].asset, db[k].expiry) in prices && prices[(db[k].asset, db[k].expiry)] >= 0
    ensures db[k].strike.Some? && db[k].strike.value >= 0
    ensures PutCost(ContraAmount(db[k].amount.value, db[k].strike.value, true, decimals), prices[(db[k].asset, db[k].expiry)], decimals)
         <= ContraAmount(db[k].amount.value, db[k].strike.value, false, decimals)
  {
    ConsistentIsExercised(db, settled, prices, attempted, redeemed, tainted);
    PutCostWithinStrikeValue(db[k].amount.value, prices[(db[k].asset, db[k].expiry)], db[k].strike.value, decimals);
  }

  lemma ReconciledIsConsistent(before: map<Key, Row>, after: map<Key, Row>, settled: set<Key>, prices: map<Feed, int>,
                               attempted: seq<Key>, redeemed: multiset<Key>, lost: set<Key>, tainted: set<Key>, found: set<Key>)
    requires Consistent(before, settled, prices, attempted, redeemed, lost) && lost <= tainted
    requires Reconciled(before, after, settled, tainted, found)
    ensures Consistent(after, settled, prices, attempted, redeemed, tainted)
  {
    forall k | k in attempted ensures Deliverable(k, after, settled, prices) {
      assert Deliverable(k, before, settled, prices);
    }
    forall k | k in after ensures RowConsistent(after[k], k in settled, redeemed[k], k in tainted) {
      assert RowConsistent(before[k], k in settled, redeemed[k], k in lost);
    }
  }

  /** Exactly the found rows carry the mark, and all of them are settled on chain. */
  ghost predicate Reconciled(before: map<Key, Row>, after: map<Key, Row>, settled: set<Key>, lost: set<Key>, found: set<Key>) {
    && after.Keys == before.Keys
    && (forall k :: k in before && k !in found ==> after[k] == before[k])
    && (forall k :: k in found ==> k in before && k in settled && ObservedMark(before[k], after[k], k in lost))
  }

  /** The vaults a read finds settled on chain. */
  function FoundSettled(keys: set<Key>, settled: set<Key>, env: Environment): set<Key> {
    set k | k in keys && k in settled && env.checkable(k)
  }

  lemma FoundMore(keys: set<Key>, settled: set<Key>, env: Environment, k: Key)
    ensures FoundSettled(keys + {k}, settled, env)
         == FoundSettled(keys, settled, env) + if k in settled && env.checkable(k) then {k} else {}
    ensures FoundSettled(keys, settled, env) <= keys
  {}

  lemma ReconciledKept(before: map<Key, Row>, after: map<Key, Row>, settled: set<Key>, lost0: set<Key>, lost: set<Key>, found: set<Key>)
    requires Reconciled(before, after, settled, lost0, found) && lost0 <= lost
    ensures Reconciled(before, after, settled, lost, found)
  {}

  lemma NothingReconciled(db: map<Key, Row>, settled: set<Key>, lost: set<Key>, env: Environment)
    ensures Reconciled(db, db, settled, lost, {}) && FoundSettled({}, settled, env) == {}
  {}

  lemma ReconciledStep(before: map<Key, Row>, mid: map<Key, Row>, after: map<Key, Row>, settled: set<Key>,
                       lost0: set<Key>, lost: set<Key>, found: set<Key>, k: Key)
    requires k in before && k in settled && k !in found
    requires lost0 <= lost && Reconciled(before, mid, settled, lost0, found)
    requires k in after && after == mid[k := after[k]] && ObservedMark(mid[k], after[k], k in lost)
    ensures Reconciled(before, after, settled, lost, found + {k})
  {}

  /** Exactly the rows in `via` carry their settlement mark, and all of them are settled on chain. */
  ghost predicate Marked(before: map<Key, Row>, after: map<Key, Row>, settled: set<Key>, lost: set<Key>, via: map<Key, Via>) {
    && after.Keys == before.Keys
    && (forall k :: k in before && k !in via ==> after[k] == before[k])
    && (forall k :: k in via ==>
          && k in before && k in settled
          && (after[k] == SettleMark(before[k], via[k]) || (k in lost && after[k] == before[k])))
  }

  ghost predicate AllBatched(via: map<Key, Via>) { forall k :: k in via ==> via[k] == Batched }

  lemma MarkedTrans(before: map<Key, Row>, mid: map<Key, Row>, after: map<Key, Row>, settled1: set<Key>, settled2: set<Key>,
                    lost1: set<Key>, lost2: set<Key>, via1: map<Key, Via>, via2: map<Key, Via>)
    requires Marked(before, mid, settled1, lost1, via1) && Marked(mid, after, settled2, lost2, via2)
    requires via1.Keys !! via2.Keys && settled1 <= settled2 && lost1 <= lost2
    ensures Marked(before, after, settled2, lost2, via1 + via2)
  {}

  lemma MarkedNothing(db: map<Key, Row>, settled: set<Key>, lost: set<Key>)
    ensures Marked(db, db, settled, lost, map[])
  {}

  lemma ReconciledIsMarked(before: map<Key, Row>, after: map<Key, Row>, settled: set<Key>, lost: set<Key>, found: set<Key>)
    requires Reconciled(before, after, settled, lost, found)
    ensures Marked(before, after, settled, lost, map k | k in found :: Observed)
  {}

  lemma MarkedIsConsistent(before: map<Key, Row>, after: map<Key, Row>, settled0: set<Key>, settled: set<Key>, prices: map<Feed, int>,
                           attempted: seq<Key>, redeemed: multiset<Key>, lost: set<Key>, tainted: set<Key>, via: map<Key, Via>)
    requires Consistent(before, settled0, prices, attempted, redeemed, lost) && lost <= tainted && settled0 <= settled
    requires Marked(before, after, settled, tainted, via)
    ensures Consistent(after, settled, prices, attempted, redeemed, tainted)
  {
    forall k | k in attempted ensures Deliverable(k, after, settled, prices) {
      assert Deliverable(k, before, settled0, prices);
    }
    forall k | k in after ensures RowConsistent(after[k], k in settled, redeemed[k], k in tainted) {
      assert RowConsistent(before[k], k in settled0, redeemed[k], k in lost);
    }
  }

  ghost predicate AllComplete(keys: set<Key>, db: map<Key, Row>) { forall k :: k in keys ==> k in db && Complete(db[k]) }

  /** The cache holds final prices, and nothing for a feed exactly if it has none or reading it fails. */
  ghost predicate CacheIsTrue(cache: map<Feed, Option<int>>, prices: map<Feed, int>, env: Environment) {
    forall f :: f in cache ==>
      cache[f] == if env.readable(f) && f in prices then Some(prices[f]) else None
  }

  ghost predicate CacheCovers(keys: set<Key>, db: map<Key, Row>, cache: map<Feed, Option<int>>) {
    forall k :: k in keys ==> k in db && FeedOf(db[k]) in cache
  }

  ghost function ItmKeys(keys: set<Key>, db: map<Key, Row>, cache: map<Feed, Option<int>>): set<Key>
    requires AllComplete(keys, db) && CacheCovers(keys, db, cache)
  {
    set k | k in keys && cache[FeedOf(db[k])].Some? && InTheMoney(db[k], cache[FeedOf(db[k])].value)
  }

  ghost function SkippedKeys(keys: set<Key>, db: map<Key, Row>, cache: map<Feed, Option<int>>): set<Key>
    requires CacheCovers(keys, db, cache)
  {
    set k | k in keys && cache[FeedOf(db[k])].None?
  }

  /** The two lists on the columns: the price is the final one, a put is in the money below its strike, a call above. */
  lemma CachedMoneyness(keys: set<Key>, db: map<Key, Row>, prices: map<Feed, int>, env: Environment, cache: map<Feed, Option<int>>)
    requires AllComplete(keys, db) && CacheCovers(keys, db, cache) && CacheIsTrue(cache, prices, env)
    ensures forall k :: k in ItmKeys(keys, db, cache) <==>
              && k in keys && env.readable((db[k].asset, db[k].expiry)) && (db[k].asset, db[k].expiry) in prices
              && (if db[k].isPut.value then prices[(db[k].asset, db[k].expiry)] < db[k].strike.value
                  else prices[(db[k].asset, db[k].expiry)] > db[k].strike.value)
    ensures forall k :: k in SkippedKeys(keys, db, cache) <==>
              k in keys && !(env.readable((db[k].asset, db[k].expiry)) && (db[k].asset, db[k].expiry) in prices)
  {}

  lemma CacheGrows(keys: set<Key>, db: map<Key, Row>, before: map<Feed, Option<int>>, after: map<Feed, Option<int>>)
    requires AllComplete(keys, db) && CacheCovers(keys, db, before)
    requires forall f :: f in before ==> f in after && after[f] == before[f]
    ensures CacheCovers(keys, db, after)
    ensures ItmKeys(keys, db, after) == ItmKeys(keys, db, before)
    ensures SkippedKeys(keys, db, after) == SkippedKeys(keys, db, before)
  {}

  function DeliveryResult(row: Row, price: int, tx: Option<TxHash>): Row {
    if tx.Some? then DeliveryMark(row, price, tx.value) else FailMark(row, price)
  }

  /** A position that may be delivered now: unless tainted it is marked settled and was never redeemed. */
  ghost predicate Ready(k: Key, db: map<Key, Row>, settled: set<Key>, prices: map<Feed, int>,
                        redeemed: multiset<Key>, tainted: set<Key>) {
    && k in db && k in settled && Complete(db[k])
    && (k in tainted || (db[k].isSettled && k !in redeemed))
  }

  ghost predicate AllReady(keys: set<Key>, db: map<Key, Row>, settled: set<Key>, prices: map<Feed, int>,
                           redeemed: multiset<Key>, tainted: set<Key>) {
    forall k :: k in keys ==> Ready(k, db, settled, prices, redeemed, tainted)
  }

  ghost predicate PricedInTheMoney(keys: set<Key>, db: map<Key, Row>, cache: map<Feed, Option<int>>)
    requires forall k :: k in keys ==> k in db && Complete(db[k])
  {
    forall k :: k in keys ==>
      FeedOf(db[k]) in cache && cache[FeedOf(db[k])].Some? && InTheMoney(db[k], cache[FeedOf(db[k])].value)
  }

  /** The transactions from position `first` on went to these vaults only. */
  ghost predicate SentOnlyTo(first: nat, sent: seq<Key>, keys: set<Key>) {
    forall i :: first <= i < |sent| ==> sent[i] in keys
  }

  /** What phase 2 changes, as a value. */
  datatype Ledger = Ledger(db: map<Key, Row>, attempted: seq<Key>, redeemed: multiset<Key>, tainted: set<Key>)

  /** The transactions of one attempt, the redeem that landed, and the taint of one that landed unseen. */
  ghost predicate RedeemedOnce(start: Ledger, now: Ledger, k: Key, call: Call) {
    && now.db == start.db
    && now.attempted == start.attempted + (if call.NotSent? then [] else [k])
    && now.redeemed == start.redeemed + (if Lands(call) then multiset{k} else multiset{})
    && now.tainted == start.tainted + if call.LandedUnseen? then {k} else {}
  }

  /** The same of several attempts. */
  ghost predicate Redeemed(start: Ledger, now: Ledger, k: Key, calls: seq<Call>) {
    && now.db == start.db
    && start.attempted <= now.attempted && |now.attempted| == |start.attempted| + Sendings(calls)
    && SentOnlyTo(|start.attempted|, now.attempted, {k})
    && now.redeemed[k] == start.redeemed[k] + Landings(calls)
    && (forall j :: j != k ==> now.redeemed[j] == start.redeemed[j])
    && now.tainted == start.tainted + if Landings(calls) > (if EndsConfirmed(calls) then 1 else 0) then {k} else {}
  }

  lemma NotRedeemed(start: Ledger, k: Key)
    ensures Redeemed(start, start, k, [])
  {}

  lemma UntaintedIfSeen(mid: Ledger, now: Ledger, k: Key, call: Call)
    requires RedeemedOnce(mid, now, k, call)
    ensures !call.LandedUnseen? ==> now.tainted == mid.tainted
  {}

  lemma RedeemedStep(start: Ledger, mid: Ledger, now: Ledger, k: Key, calls: seq<Call>, call: Call)
    requires Redeemed(start, mid, k, calls) && !EndsConfirmed(calls) && RedeemedOnce(mid, now, k, call)
    ensures Redeemed(start, now, k, calls + [call])
  {
    var more := calls + [call];
    assert more[..|more| - 1] == calls;
    SentMore(|start.attempted|, mid.attempted, now.attempted, k, {k});
  }

  /** What is known of the redeems of a vault once its attempts are over. */
  ghost predicate Accounted(start: Ledger, now: Ledger, k: Key, tx: Option<TxHash>) {
    && (forall j :: j != k ==> now.redeemed[j] == start.redeemed[j])
    && start.tainted <= now.tainted <= start.tainted + {k}
    && (k !in now.tainted ==> now.redeemed[k] == start.redeemed[k] + if tx.Some? then 1 else 0)
    && (tx.Some? ==> now.redeemed[k] > start.redeemed[k])
  }

  lemma RedeemedIsAccounted(start: Ledger, now: Ledger, k: Key, calls: seq<Call>)
    requires Redeemed(start, now, k, calls)
    ensures Accounted(start, now, k, Hash(calls)) && now.db == start.db
    ensures start.attempted <= now.attempted && SentOnlyTo(|start.attempted|, now.attempted, {k})
  {}

  /** One position's row and redeem count after phase 2 reached it (`result`) or did not (None). */
  ghost predicate Resolved(before: Row, after: Row, count: nat, count': nat, lost: bool,
                           price: Option<int>, result: Option<Option<TxHash>>, aborted: bool) {
    if result.None? then
      after == before && count' == count
    else
      var tx := result.value;
      && SameTerms(before, after) && price.Some?
      && (if tx.Some? then HasMaker(before) && count' > 0 else lost || count' == count)
      && (aborted || lost || after == DeliveryResult(before, price.value, tx))
  }

  function Find<K, V>(m: map<K, V>, k: K): Option<V> { if k in m then Some(m[k]) else None }

  function CachedPrice(cache: map<Feed, Option<int>>, feed: Feed): Option<int> {
    if feed in cache then cache[feed] else None
  }

  ghost predicate DeliveryProgress(start: Ledger, now: Ledger, cache: map<Feed, Option<int>>,
                                   results: map<Key, Option<TxHash>>, aborted: bool) {
    && now.db.Keys == start.db.Keys && results.Keys <= start.db.Keys
    && (forall k :: k in start.db ==>
          Resolved(start.db[k], now.db[k], start.redeemed[k], now.redeemed[k], k in now.tainted,
                   CachedPrice(cache, FeedOf(start.db[k])), Find(results, k), aborted))
    && start.tainted <= now.tainted <= start.tainted + results.Keys
  }

  ghost predicate DeliveryStep(mid: Ledger, now: Ledger, k: Key, price: int, tx: Option<TxHash>, aborted: bool) {
    && k in mid.db && k in now.db && now.db == mid.db[k := now.db[k]]
    && (forall j :: j != k ==> now.redeemed[j] == mid.redeemed[j])
    && mid.tainted <= now.tainted <= mid.tainted + {k}
    && Resolved(mid.db[k], now.db[k], mid.redeemed[k], now.redeemed[k], k in now.tainted, Some(price), Some(tx), aborted)
  }

  /** The mark behind the redeems landed or was lost, or the process died without a confirmed one. */
  lemma DeliveryStepHolds(start: Ledger, now: Ledger, settled: set<Key>, prices: map<Feed, int>,
                          k: Key, price: int, tx: Option<TxHash>, aborted: bool)
    requires Ready(k, start.db, settled, prices, start.redeemed, start.tainted) && HasMaker(start.db[k])
    requires Accounted(start, now, k, tx)
    requires k in now.db && now.db == start.db[k := now.db[k]] && SameTerms(start.db[k], now.db[k])
    requires k in now.tainted || now.db[k] == DeliveryResult(start.db[k], price, tx) || (aborted && tx.None? && now.db == start.db)
    ensures DeliveryStep(start, now, k, price, tx, aborted)
    ensures RowConsistent(start.db[k], k in settled, start.redeemed[k], k in start.tainted) ==>
              RowConsistent(now.db[k], k in settled, now.redeemed[k], k in now.tainted)
  {}

  /** After a delivery step an untouched position is resolved as before, whether or not the step was cut off. */
  lemma StillResolved(before: Row, after: Row, count: nat, count': nat, lost: bool,
                      price: Option<int>, result: Option<Option<TxHash>>, aborted: bool)
    requires Resolved(before, after, count, count', lost, price, result, false)
    ensures Resolved(before, after, count, count', lost, price, result, aborted)
  {}

  /** One position across a delivery step. */
  lemma ProgressAt(start: Ledger, mid: Ledger, now: Ledger, cache: map<Feed, Option<int>>,
                   results: map<Key, Option<TxHash>>, k: Key, price: int, tx: Option<TxHash>, aborted: bool, j: Key)
    requires DeliveryProgress(start, mid, cache, results, false) && k !in results && j in start.db
    requires k in mid.db && CachedPrice(cache, FeedOf(mid.db[k])) == Some(price)
    requires DeliveryStep(mid, now, k, price, tx, aborted)
    ensures Resolved(start.db[j], now.db[j], start.redeemed[j], now.redeemed[j], j in now.tainted,
                     CachedPrice(cache, FeedOf(start.db[j])), Find(results[k := tx], j), aborted)
  {
    if j == k {
      NotYetDelivered(start, mid, cache, results, k);
    } else {
      StillResolved(start.db[j], mid.db[j], start.redeemed[j], mid.redeemed[j], j in mid.tainted,
                    CachedPrice(cache, FeedOf(start.db[j])), Find(results, j), aborted);
    }
  }

  lemma DeliveryProgresses(start: Ledger, mid: Ledger, now: Ledger, cache: map<Feed, Option<int>>,
                           results: map<Key, Option<TxHash>>, k: Key, price: int, tx: Option<TxHash>, aborted: bool)
    requires DeliveryProgress(start, mid, cache, results, false) && k !in results && k in mid.db
    requires CachedPrice(cache, FeedOf(mid.db[k])) == Some(price)
    requires DeliveryStep(mid, now, k, price, tx, aborted)
    ensures DeliveryProgress(start, now, cache, results[k := tx], aborted)
  {
    hide Resolved, CachedPrice, Find;
    forall j | j in start.db
      ensures Resolved(start.db[j], now.db[j], start.redeemed[j], now.redeemed[j], j in now.tainted,
                       CachedPrice(cache, FeedOf(start.db[j])), Find(results[k := tx], j), aborted)
    {
      ProgressAt(start, mid, now, cache, results, k, price, tx, aborted, j);
    }
  }

  lemma NotYetDelivered(start: Ledger, mid: Ledger, cache: map<Feed, Option<int>>, results: map<Key, Option<TxHash>>, k: Key)
    requires DeliveryProgress(start, mid, cache, results, false) && k !in results && k in mid.db
    ensures mid.db[k] == start.db[k] && mid.redeemed[k] == start.redeemed[k]
  {
    assert Resolved(start.db[k], mid.db[k], start.redeemed[k], mid.redeemed[k], k in mid.tainted,
                    CachedPrice(cache, FeedOf(start.db[k])), Find(results, k), false);
  }

  lemma StillReady(k: Key, start: Ledger, now: Ledger, settled: set<Key>, prices: map<Feed, int>,
                   cache: map<Feed, Option<int>>, results: map<Key, Option<TxHash>>)
    requires Ready(k, start.db, settled, prices, start.redeemed, start.tainted) && k !in results
    requires DeliveryProgress(start, now, cache, results, false)
    ensures Ready(k, now.db, settled, prices, now.redeemed, now.tainted) && now.db[k] == start.db[k]
  {
    assert Resolved(start.db[k], now.db[k], start.redeemed[k], now.redeemed[k], k in now.tainted,
                    CachedPrice(cache, FeedOf(start.db[k])), Find(results, k), false);
  }

  lemma ReadyIsComplete(k: Key, start: Ledger, settled: set<Key>, prices: map<Feed, int>)
    requires Ready(k, start.db, settled, prices, start.redeemed, start.tainted)
    ensures k in start.db && Complete(start.db[k])
  {}

  lemma NoneDelivered(start: Ledger, cache: map<Feed, Option<int>>, env: Environment, keys: set<Key>)
    ensures DeliveryProgress(start, start, cache, map[], false) && AllRetried(map[], start.db, env)
    ensures SentOnlyTo(|start.attempted|, start.attempted, keys)
  {}

  ghost predicate OtmMarked(before: map<Key, Row>, after: map<Key, Row>, tainted: set<Key>, keys: set<Key>,
                            cache: map<Feed, Option<int>>) {
    && after.Keys == before.Keys
    && (forall k :: k in before && k !in keys ==> after[k] == before[k])
    && (forall k :: k in keys ==>
          && k in before && SameTerms(before[k], after[k])
          && FeedOf(before[k]) in cache && cache[FeedOf(before[k])].Some?
          && (k in tainted || after[k] == OtmMark(before[k], cache[FeedOf(before[k])].value)))
  }

  /** One row is rewritten; redeems and taints of other vaults stand still. */
  lemma ConsistentStep(before: map<Key, Row>, after: map<Key, Row>, settled: set<Key>, prices: map<Feed, int>,
                       attempted: seq<Key>, attempted': seq<Key>, redeemed: multiset<Key>, redeemed': multiset<Key>,
                       tainted: set<Key>, tainted': set<Key>, k: Key)
    requires Consistent(before, settled, prices, attempted, redeemed, tainted)
    requires k in before && k in after && after == before[k := after[k]] && SameTerms(before[k], after[k])
    requires attempted <= attempted' && SentOnlyTo(|attempted|, attempted', {k})
    requires |attempted'| > |attempted| ==> Deliverable(k, before, settled, prices)
    requires tainted <= tainted' && forall j :: j != k ==> redeemed'[j] == redeemed[j]
    requires RowConsistent(after[k], k in settled, redeemed'[k], k in tainted')
    ensures Consistent(after, settled, prices, attempted', redeemed', tainted')
  {
    forall j | j in attempted' ensures Deliverable(j, after, settled, prices) {
      var i :| 0 <= i < |attempted'| && attempted'[i] == j;
      if i < |attempted| {
        assert attempted[i] == j && j in attempted;
      }
      assert Deliverable(j, before, settled, prices);
    }
    forall j | j in redeemed' ensures j in after {
      assert j == k || redeemed'[j] == redeemed[j];
    }
    forall j | j in after ensures RowConsistent(after[j], j in settled, redeemed'[j], j in tainted') {
      assert j == k || RowConsistent(before[j], j in settled, redeemed[j], j in tainted);
    }
  }

  lemma SentMore(first: nat, mid: seq<Key>, sent: seq<Key>, k: Key, keys: set<Key>)
    requires SentOnlyTo(first, mid, keys) && mid <= sent && SentOnlyTo(|mid|, sent, {k}) && k in keys
    ensures SentOnlyTo(first, sent, keys)
  {
    forall i | first <= i < |sent| ensures sent[i] in keys {
      if i < |mid| {
        assert sent[i] == mid[i];
      } else {
        assert sent[i] in {k};
      }
    }
  }

  lemma OtmStep(before: map<Key, Row>, mid: map<Key, Row>, after: map<Key, Row>, tainted: set<Key>, tainted': set<Key>,
                keys: set<Key>, cache: map<Feed, Option<int>>, k: Key)
    requires OtmMarked(before, mid, tainted, keys, cache) && k !in keys && tainted <= tainted'
    requires k in mid && k in after && after == mid[k := after[k]] && SameTerms(mid[k], after[k])
    requires FeedOf(mid[k]) in cache && cache[FeedOf(mid[k])].Some?
    requires k in tainted' || after[k] == OtmMark(mid[k], cache[FeedOf(mid[k])].value)
    ensures OtmMarked(before, after, tainted', keys + {k}, cache)
  {}

  lemma OtmNothing(db: map<Key, Row>, tainted: set<Key>, cache: map<Feed, Option<int>>)
    ensures OtmMarked(db, db, tainted, {}, cache)
  {}

  lemma StillUnmarked(before: map<Key, Row>, mid: map<Key, Row>, tainted: set<Key>, keys: set<Key>,
                      cache: map<Feed, Option<int>>, k: Key)
    requires OtmMarked(before, mid, tainted, keys, cache) && k in before && k !in keys
    ensures k in mid && mid[k] == before[k]
  {}

  // ── The whole cycle ──

  ghost function ExpiredKeys(db: map<Key, Row>, now: int): set<Key> { set k | k in db && ExpiredUnsettled(db[k], now) }

  ghost function PendingKeys(db: map<Key, Row>, now: int): set<Key> { set k | k in db && PendingPhase2(db[k], now) }

  ghost predicate AllObserved(marks: map<Key, Via>) { forall k :: k in marks ==> marks[k] == Observed }

  lemma SeedParts(e: set<Key>, p: set<Key>, positions: set<Key>, reconciled: set<Key>, seed: set<Key>)
    requires e !! p && positions + reconciled == e && positions !! reconciled && seed == reconciled + p
    ensures positions !! seed && positions + seed == e + p && positions <= e
  {}

  ghost function SelectedKeys(db: map<Key, Row>, now: int): set<Key> { ExpiredKeys(db, now) + PendingKeys(db, now) }

  /** One row through phase 2: `price` is what the oracle read gave, `result` the delivery. */
  ghost predicate Classified(before: Row, after: Row, count: nat, count': nat, lost: bool,
                             entered: bool, price: Option<int>, result: Option<Option<TxHash>>) {
    if !entered || price.None? then
      after == before && count' == count
    else
      && Complete(before)
      && if InTheMoney(before, price.value) then
           result.Some? && Resolved(before, after, count, count', lost, price, result, false)
         else
           count' == count && SameTerms(before, after) && (lost || after == OtmMark(before, price.value))
  }

  ghost predicate AllClassified(start: Ledger, now: Ledger, positions: set<Key>, cache: map<Feed, Option<int>>,
                                results: map<Key, Option<TxHash>>) {
    && now.db.Keys == start.db.Keys && CacheCovers(positions, start.db, cache)
    && forall k :: k in start.db ==>
         Classified(start.db[k], now.db[k], start.redeemed[k], now.redeemed[k], k in now.tainted,
                    k in positions, CachedPrice(cache, FeedOf(start.db[k])), Find(results, k))
  }

  lemma ClassifiedByPhases(start: Ledger, mid: Ledger, now: Ledger, positions: set<Key>, cache: map<Feed, Option<int>>,
                           results: map<Key, Option<TxHash>>)
    requires AllComplete(positions, start.db) && CacheCovers(positions, start.db, cache)
    requires DeliveryProgress(start, mid, cache, results, false)
    requires results.Keys == ItmKeys(positions, start.db, cache)
    requires OtmMarked(mid.db, now.db, now.tainted, positions - results.Keys - SkippedKeys(positions, start.db, cache), cache)
    requires now.redeemed == mid.redeemed && mid.tainted <= now.tainted
    ensures AllClassified(start, now, positions, cache, results)
  {
    forall k | k in start.db
      ensures Classified(start.db[k], now.db[k], start.redeemed[k], now.redeemed[k], k in now.tainted,
                         k in positions, CachedPrice(cache, FeedOf(start.db[k])), Find(results, k))
    {
      assert Resolved(start.db[k], mid.db[k], start.redeemed[k], mid.redeemed[k], k in mid.tainted,
                      CachedPrice(cache, FeedOf(start.db[k])), Find(results, k), false);
      if k in results {
        assert now.db[k] == mid.db[k];
      }
    }
  }

  lemma UntouchedByDelivery(start: Ledger, now: Ledger, cache: map<Feed, Option<int>>,
                            results: map<Key, Option<TxHash>>, aborted: bool)
    requires DeliveryProgress(start, now, cache, results, aborted)
    ensures OutsideUntouched(start, now, results.Keys)
  {
    forall k | k in start.db
      ensures SameTerms(start.db[k], now.db[k])
      ensures k !in results ==> now.db[k] == start.db[k] && now.redeemed[k] == start.redeemed[k]
    {
      assert Resolved(start.db[k], now.db[k], start.redeemed[k], now.redeemed[k], k in now.tainted,
                      CachedPrice(cache, FeedOf(start.db[k])), Find(results, k), aborted);
    }
  }

  lemma OtmUntouched(start: Ledger, mid: Ledger, now: Ledger, positions: set<Key>, delivered: set<Key>, marked: set<Key>,
                     cache: map<Feed, Option<int>>)
    requires OutsideUntouched(start, mid, delivered) && delivered <= positions && marked <= positions
    requires OtmMarked(mid.db, now.db, now.tainted, marked, cache) && now.redeemed == mid.redeemed
    ensures OutsideUntouched(start, now, positions)
  {}

  lemma SameFeeds(start: Ledger, now: Ledger, keys: set<Key>, cache: map<Feed, Option<int>>, results: map<Key, Option<TxHash>>)
    requires AllComplete(keys, start.db) && CacheCovers(keys, start.db, cache)
    requires results.Keys == ItmKeys(keys, start.db, cache)
    requires now.db.Keys == start.db.Keys && forall k :: k in start.db ==> SameTerms(start.db[k], now.db[k])
    ensures CacheCovers(keys, now.db, cache)
    ensures forall k :: k in keys && k !in results && k !in SkippedKeys(keys, start.db, cache) ==>
              cache[FeedOf(now.db[k])].Some?
  {}

  /** Rows outside `keys` and the redeems of their vaults stand still; terms never change. */
  ghost predicate OutsideUntouched(start: Ledger, now: Ledger, keys: set<Key>) {
    && now.db.Keys == start.db.Keys
    && (forall k :: k in start.db ==> SameTerms(start.db[k], now.db[k]))
    && (forall k :: k in start.db && k !in keys ==> now.db[k] == start.db[k] && now.redeemed[k] == start.redeemed[k])
  }

  lemma ClassifiedUntouched(start: Ledger, now: Ledger, positions: set<Key>, cache: map<Feed, Option<int>>,
                            results: map<Key, Option<TxHash>>)
    requires AllClassified(start, now, positions, cache, results)
    ensures OutsideUntouched(start, now, positions)
  {
    forall k | k in start.db
      ensures SameTerms(start.db[k], now.db[k])
      ensures k !in positions ==> now.db[k] == start.db[k] && now.redeemed[k] == start.redeemed[k]
    {
      assert Classified(start.db[k], now.db[k], start.redeemed[k], now.redeemed[k], k in now.tainted,
                        k in positions, CachedPrice(cache, FeedOf(start.db[k])), Find(results, k));
    }
  }

  // ── What the cycle did to each selected row ──

  ghost function ViaOf(k: Key, marks: map<Key, Via>): Via { if k in marks then marks[k] else Recovered }

  ghost function OutcomeOf(row: Row, via: Via, price: Option<int>, result: Option<Option<TxHash>>): Outcome
    requires Complete(row)
  {
    if price.None? then Skipped(via)
    else if !InTheMoney(row, price.value) then OutOfTheMoney(via, price.value)
    else if result.Some? && result.value.Some? then Delivered(via, price.value, result.value.value)
    else Undeliverable(via, price.value)
  }

  /** The row fits its outcome, carries every mark of it unless tainted, and the redeem is accounted for. */
  ghost predicate Concluded(before: Row, after: Row, count: nat, count': nat, lost: bool, o: Outcome) {
    && Fits(before, o) && SameTerms(before, after)
    && (lost || after == Finish(before, o))
    && (if o.Delivered? then count' > 0 else lost || count' == count)
  }

  /** A delivery result is what the attempts for the vault gave. */
  ghost predicate AllRetried(results: map<Key, Option<TxHash>>, db: map<Key, Row>, env: Environment) {
    forall k :: k in results ==> k in db && (HasMaker(db[k]) ==> results[k] == Hash(Retries(env, k)))
  }

  lemma RetriedMore(results: map<Key, Option<TxHash>>, db: map<Key, Row>, env: Environment, k: Key, tx: Option<TxHash>)
    requires AllRetried(results, db, env) && k in db && (HasMaker(db[k]) ==> tx == Hash(Retries(env, k)))
    ensures AllRetried(results[k := tx], db, env)
  {}

  /**
   * What an outcome rests on: a row carried into phase 2 or observed is settled on
   * chain; a price is the final one, and skipped is only what has none that can be
   * read; and the delivery of a row with a maker is what its attempts gave.
   */
  ghost predicate Grounded(row: Row, k: Key, o: Outcome, settled: set<Key>, prices: map<Feed, int>, env: Environment) {
    && (o != Left(false) ==> k in settled)
    && (o.Skipped? ==> !(env.readable(FeedOf(row)) && FeedOf(row) in prices))
    && (o.OutOfTheMoney? || o.Undeliverable? || o.Delivered? ==>
          env.readable(FeedOf(row)) && FeedOf(row) in prices && prices[FeedOf(row)] == o.price)
    && (o.Undeliverable? && HasMaker(row) ==> Hash(Retries(env, k)).None?)
    && (o.Delivered? ==> Hash(Retries(env, k)) == Some(o.tx))
  }

  lemma ClassifiedConcludes(before: Row, mid: Row, after: Row, count: nat, count': nat, lost: bool,
                            via: Via, price: Option<int>, result: Option<Option<TxHash>>)
    requires Complete(before) && SameTerms(before, mid) && (via.Recovered? <==> before.isSettled)
    requires lost || mid == SettleMark(before, via)
    requires Classified(mid, after, count, count', lost, true, price, result)
    ensures Concluded(before, after, count, count', lost, OutcomeOf(before, via, price, result))
  {}

  ghost predicate AllConcluded(start: Ledger, now: Ledger, outcomes: map<Key, Outcome>) {
    && now.db.Keys == start.db.Keys
    && forall k :: k in outcomes ==>
         && k in start.db
         && Concluded(start.db[k], now.db[k], start.redeemed[k], now.redeemed[k], k in now.tainted, outcomes[k])
  }

  ghost predicate AllGrounded(db: map<Key, Row>, outcomes: map<Key, Outcome>, settled: set<Key>, prices: map<Feed, int>,
                              env: Environment) {
    forall k :: k in outcomes ==> k in db && Grounded(db[k], k, outcomes[k], settled, prices, env)
  }

  /** The settlement marks of one cycle, where a row observed first may be marked again. */
  ghost predicate MarkedTwice(before: map<Key, Row>, after: map<Key, Row>, settled: set<Key>, lost: set<Key>, marks: map<Key, Via>) {
    && after.Keys == before.Keys
    && (forall k :: k in before ==> SameTerms(before[k], after[k]))
    && (forall k :: k in before && k !in marks ==> after[k] == before[k])
    && (forall k :: k in marks ==>
          k in before && k in settled && !marks[k].Recovered? && (k in lost || after[k] == SettleMark(before[k], marks[k])))
  }

  lemma MarksCombine(before: map<Key, Row>, mid: map<Key, Row>, after: map<Key, Row>, settled1: set<Key>, settled: set<Key>,
                     lost1: set<Key>, lost: set<Key>, observed: map<Key, Via>, via: map<Key, Via>)
    requires Marked(before, mid, settled1, lost1, observed) && AllObserved(observed)
    requires Marked(mid, after, settled, lost, via) && Recovered !in via.Values
    requires settled1 <= settled && lost1 <= lost
    ensures MarkedTwice(before, after, settled, lost, observed + via)
  {
    forall k | k in via ensures !via[k].Recovered? {
      assert via[k] in via.Values;
    }
  }

  /** Everything carried into phase 2 is settled on chain and, unless tainted, marked and never redeemed. */
  lemma ReadyForPhase2(before: map<Key, Row>, after: map<Key, Row>, settled0: set<Key>, settled: set<Key>, prices: map<Feed, int>,
                       prices': map<Feed, int>, attempted: seq<Key>, redeemed: multiset<Key>, lost0: set<Key>, lost: set<Key>,
                       marks: map<Key, Via>, keys: set<Key>, now: int)
    requires Consistent(before, settled0, prices, attempted, redeemed, lost0) && settled0 <= settled && lost0 <= lost
    requires MarkedTwice(before, after, settled, lost, marks)
    requires keys <= SelectedKeys(before, now) && keys <= marks.Keys + PendingKeys(before, now)
    ensures AllComplete(keys, after) && AllReady(keys, after, settled, prices', redeemed, lost)
  {
    forall k | k in keys ensures k in after && Complete(after[k]) && Ready(k, after, settled, prices', redeemed, lost) {
      assert RowConsistent(before[k], k in settled0, redeemed[k], k in lost0);
      assert Selected(before[k], now);
    }
  }

  ghost function OutcomesOf(db: map<Key, Row>, marks: map<Key, Via>, carried: set<Key>, left: set<Key>,
                            cache: map<Feed, Option<int>>, results: map<Key, Option<TxHash>>): map<Key, Outcome>
    requires AllComplete(carried, db)
  {
    map k | k in carried + left ::
      if k in carried then OutcomeOf(db[k], ViaOf(k, marks), CachedPrice(cache, FeedOf(db[k])), Find(results, k))
      else Left(k in marks)
  }

  /** Where phase 2 starts (`mid`) and how far the cycle got before it. */
  ghost predicate Phase1Done(l0: Ledger, mid: Ledger, settled: set<Key>, marks: map<Key, Via>,
                             carried: set<Key>, left: set<Key>, now: int) {
    && MarkedTwice(l0.db, mid.db, settled, mid.tainted, marks) && mid.redeemed == l0.redeemed
    && marks.Keys <= ExpiredKeys(l0.db, now) && Split(carried, left, marks, l0.db, now)
    && (forall k :: k in carried ==> k in settled)
  }

  lemma CarriedConcludes(l0: Ledger, l2: Ledger, l3: Ledger, settled: set<Key>, prices: map<Feed, int>, env: Environment,
                         marks: map<Key, Via>,
                         carried: set<Key>, left: set<Key>, now: int, cache: map<Feed, Option<int>>,
                         results: map<Key, Option<TxHash>>, k: Key)
    requires Phase1Done(l0, l2, settled, marks, carried, left, now) && k in carried
    requires AllClassified(l2, l3, carried, cache, results) && l2.tainted <= l3.tainted && CacheIsTrue(cache, prices, env)
    requires AllRetried(results, l2.db, env)
    ensures k in l0.db && k in l3.db && Complete(l0.db[k])
    ensures var o := OutcomeOf(l0.db[k], ViaOf(k, marks), CachedPrice(cache, FeedOf(l0.db[k])), Find(results, k));
            && Concluded(l0.db[k], l3.db[k], l0.redeemed[k], l3.redeemed[k], k in l3.tainted, o)
            && Grounded(l0.db[k], k, o, settled, prices, env)
  {
    assert k in SelectedKeys(l0.db, now);
    assert Classified(l2.db[k], l3.db[k], l2.redeemed[k], l3.redeemed[k], k in l3.tainted,
                      k in carried, CachedPrice(cache, FeedOf(l2.db[k])), Find(results, k));
    ClassifiedConcludes(l0.db[k], l2.db[k], l3.db[k], l0.redeemed[k], l3.redeemed[k], k in l3.tainted,
                        ViaOf(k, marks), CachedPrice(cache, FeedOf(l0.db[k])), Find(results, k));
  }

  lemma LeftConcludes(l0: Ledger, l2: Ledger, l3: Ledger, settled: set<Key>, prices: map<Feed, int>, env: Environment,
                      marks: map<Key, Via>,
                      carried: set<Key>, left: set<Key>, now: int, cache: map<Feed, Option<int>>,
                      results: map<Key, Option<TxHash>>, k: Key)
    requires Phase1Done(l0, l2, settled, marks, carried, left, now) && k in left
    requires AllClassified(l2, l3, carried, cache, results) && l2.tainted <= l3.tainted
    ensures k in l0.db && k in l3.db && Grounded(l0.db[k], k, Left(k in marks), settled, prices, env)
    ensures Concluded(l0.db[k], l3.db[k], l0.redeemed[k], l3.redeemed[k], k in l3.tainted, Left(k in marks))
  {
    assert k in ExpiredKeys(l0.db, now);
    assert Classified(l2.db[k], l3.db[k], l2.redeemed[k], l3.redeemed[k], k in l3.tainted,
                      k in carried, CachedPrice(cache, FeedOf(l2.db[k])), Find(results, k));
  }

  lemma CycleConcludes(l0: Ledger, l2: Ledger, l3: Ledger, settled: set<Key>, prices: map<Feed, int>, env: Environment,
                       marks: map<Key, Via>,
                       carried: set<Key>, left: set<Key>, now: int, cache: map<Feed, Option<int>>,
                       results: map<Key, Option<TxHash>>)
    requires Phase1Done(l0, l2, settled, marks, carried, left, now)
    requires AllClassified(l2, l3, carried, cache, results) && l2.tainted <= l3.tainted && CacheIsTrue(cache, prices, env)
    requires AllRetried(results, l2.db, env)
    ensures AllComplete(carried, l0.db)
    ensures var outcomes := OutcomesOf(l0.db, marks, carried, left, cache, results);
            AllConcluded(l0, l3, outcomes) && AllGrounded(l0.db, outcomes, settled, prices, env)
  {
    assert forall k :: k in carried ==> k in SelectedKeys(l0.db, now);
    hide Concluded, Grounded, AllClassified, AllRetried, CacheIsTrue, MarkedTwice, ViaOf, OutcomeOf, Find, CachedPrice;
    var outcomes := OutcomesOf(l0.db, marks, carried, left, cache, results);
    forall k | k in outcomes
      ensures k in l0.db && k in l3.db
      ensures Concluded(l0.db[k], l3.db[k], l0.redeemed[k], l3.redeemed[k], k in l3.tainted, outcomes[k])
      ensures Grounded(l0.db[k], k, outcomes[k], settled, prices, env)
    {
      if k in carried {
        CarriedConcludes(l0, l2, l3, settled, prices, env, marks, carried, left, now, cache, results, k);
      } else {
        LeftConcludes(l0, l2, l3, settled, prices, env, marks, carried, left, now, cache, results, k);
      }
    }
  }

  /** The row will be worked on again: it was left unsettled, or it lacks a final price and awaits delivery. */
  predicate Unfinished(row: Row, o: Outcome) {
    (o.Left? && !o.observed) || ((o.Skipped? || o.Left?) && AwaitsDelivery(row))
  }

  /** Convergence: the next cycle at the same clock selects exactly the unfinished rows. */
  ghost predicate Converged(db: map<Key, Row>, tainted: set<Key>, outcomes: map<Key, Outcome>, now: int) {
    forall k :: k in db && k !in tainted ==>
      (Selected(db[k], now) <==> k in outcomes && Unfinished(db[k], outcomes[k]))
  }

  lemma CycleConverges(l0: Ledger, l3: Ledger, now: int, outcomes: map<Key, Outcome>)
    requires AllConcluded(l0, l3, outcomes) && outcomes.Keys == SelectedKeys(l0.db, now)
    requires OutsideUntouched(l0, l3, outcomes.Keys)
    ensures Converged(l3.db, l3.tainted, outcomes, now)
  {
    forall k | k in l3.db && k !in l3.tainted
      ensures Selected(l3.db[k], now) <==> k in outcomes && Unfinished(l3.db[k], outcomes[k])
    {
      if k in outcomes {
        assert Concluded(l0.db[k], l3.db[k], l0.redeemed[k], l3.redeemed[k], false, outcomes[k]);
        SelectedAgainIff(l0.db[k], outcomes[k], now);
      } else {
        assert k !in outcomes.Keys && l3.db[k] == l0.db[k];
      }
    }
  }

  ghost predicate PricesGrow(before: map<Feed, int>, after: map<Feed, int>) {
    forall f :: f in before ==> f in after && after[f] == before[f]
  }

  lemma PricesKeepConsistent(db: map<Key, Row>, settled: set<Key>, prices: map<Feed, int>, prices': map<Feed, int>,
                             attempted: seq<Key>, redeemed: multiset<Key>, tainted: set<Key>)
    requires Consistent(db, settled, prices, attempted, redeemed, tainted) && PricesGrow(prices, prices')
    ensures Consistent(db, settled, prices', attempted, redeemed, tainted)
  {
    forall k | k in attempted ensures Deliverable(k, db, settled, prices') {
      assert Deliverable(k, db, settled, prices);
    }
  }

  /** The selected keys are those carried into phase 2 and those left behind, which were unsettled. */
  ghost predicate Split(carried: set<Key>, left: set<Key>, marks: map<Key, Via>, db: map<Key, Row>, now: int) {
    && carried !! left && carried + left == SelectedKeys(db, now) && left <= ExpiredKeys(db, now)
    && carried <= marks.Keys + PendingKeys(db, now)
    && (forall k :: k in left && k in marks ==> marks[k] == Observed)
  }

  lemma SplitHolds(db: map<Key, Row>, now: int, positions: set<Key>, seed: set<Key>, done: set<Key>, left: set<Key>,
                   observed: map<Key, Via>, via: map<Key, Via>)
    requires positions !! seed && positions + seed == SelectedKeys(db, now) && positions <= ExpiredKeys(db, now)
    requires done <= positions && via.Keys == done && left == positions - done
    requires seed <= observed.Keys + PendingKeys(db, now) && AllObserved(observed)
    ensures Split(seed + done, left, observed + via, db, now)
  {}

  lemma MarkedTouches(l0: Ledger, l1: Ledger, settled: set<Key>, marks: map<Key, Via>, keys: set<Key>)
    requires MarkedTwice(l0.db, l1.db, settled, l1.tainted, marks) && marks.Keys <= keys && l1.redeemed == l0.redeemed
    ensures OutsideUntouched(l0, l1, keys)
  {}

  /** The expiries of the selected rows. */
  ghost function ExpiriesOf(db: map<Key, Row>, keys: set<Key>): set<int> { set k | k in keys && k in db :: db[k].expiry }

  function ExpiriesIn(db: map<Key, Row>, keys: seq<Key>): seq<int>
    requires forall k :: k in keys ==> k in db
  {
    seq(|keys|, i requires 0 <= i < |keys| => db[keys[i]].expiry)
  }

  lemma ExpiriesAreSelected(before: map<Key, Row>, db: map<Key, Row>, positions: seq<Key>, seed: seq<Key>, keys: set<Key>)
    requires KeysOf(positions) + KeysOf(seed) == keys <= before.Keys && before.Keys == db.Keys
    requires forall k :: k in before ==> SameTerms(before[k], db[k])
    ensures forall k :: k in positions + seed ==> k in db
    ensures (set e | e in ExpiriesIn(db, positions + seed)) == ExpiriesOf(before, keys)
  {
    var all := positions + seed;
    forall k | k in all ensures k in keys && k in db {
      assert k in KeysOf(positions) || k in KeysOf(seed);
    }
    var expiries := ExpiriesIn(db, all);
    forall e | e in ExpiriesOf(before, keys) ensures e in expiries {
      var k :| k in keys && k in before && before[k].expiry == e;
      assert k in KeysOf(positions) || k in KeysOf(seed);
      assert k in positions || k in seed;
      assert k in all;
      var i :| 0 <= i < |all| && all[i] == k;
      assert expiries[i] == e;
    }
    forall e | e in expiries ensures e in ExpiriesOf(before, keys) {
      var i :| 0 <= i < |all| && expiries[i] == e;
      assert all[i] in all;
    }
  }

  lemma SetPricesGrow(before: map<Feed, int>, after: map<Feed, int>, expiries: set<int>, env: Environment)
    requires PricesSet(before, after, expiries, env)
    ensures PricesGrow(before, after)
  {}

  lemma ObservedTouches(l0: Ledger, l1: Ledger, settled: set<Key>, marks: map<Key, Via>, keys: set<Key>)
    requires Marked(l0.db, l1.db, settled, l1.tainted, marks) && marks.Keys <= keys && l1.redeemed == l0.redeemed
    ensures OutsideUntouched(l0, l1, keys)
  {}

  lemma TouchesChain(l0: Ledger, l1: Ledger, l2: Ledger, some: set<Key>, keys: set<Key>)
    requires OutsideUntouched(l0, l1, keys) && OutsideUntouched(l1, l2, some) && some <= keys
    ensures OutsideUntouched(l0, l2, keys)
  {}

  ghost predicate CycleEnds(l0: Ledger, l3: Ledger, settled: set<Key>, prices: map<Feed, int>, env: Environment,
                            outcomes: map<Key, Outcome>, now: int) {
    && outcomes.Keys == SelectedKeys(l0.db, now)
    && AllConcluded(l0, l3, outcomes)
    && AllGrounded(l0.db, outcomes, settled, prices, env)
    && Converged(l3.db, l3.tainted, outcomes, now)
  }

  /** The seed is carried on, observed rows of it as observed. */
  ghost predicate SeedCarried(seed: set<Key>, observed: map<Key, Via>, carried: set<Key>, marks: map<Key, Via>) {
    seed <= carried && forall k :: k in seed && k in observed ==> k in marks && marks[k] == observed[k]
  }

  /** The vaults found settled on chain at the start. */
  ghost predicate FoundCarried(found: set<Key>, carried: set<Key>, marks: map<Key, Via>) {
    found <= carried && forall k :: k in found ==> k in marks && marks[k] == Observed
  }

  lemma SeedHoldsFound(found: set<Key>, seed: set<Key>, observed: map<Key, Via>, carried: set<Key>, marks: map<Key, Via>)
    requires SeedCarried(seed, observed, carried, marks) && AllObserved(observed) && found <= seed * observed.Keys
    ensures FoundCarried(found, carried, marks)
  {}

  lemma SeedIsCarried(seed: set<Key>, positions: set<Key>, done: set<Key>, observed: map<Key, Via>, via: map<Key, Via>)
    requires seed !! positions && via.Keys <= positions
    ensures SeedCarried(seed, observed, seed + done, observed + via)
  {}

  /** The vaults found settled on chain at the start are carried on as such. */
  ghost predicate ObservedAre(found: set<Key>, outcomes: map<Key, Outcome>) {
    forall k :: k in found ==> k in outcomes && !outcomes[k].Left? && outcomes[k].via == Observed
  }

  lemma CarriedAreObserved(db: map<Key, Row>, marks: map<Key, Via>, carried: set<Key>, left: set<Key>,
                           cache: map<Feed, Option<int>>, results: map<Key, Option<TxHash>>, found: set<Key>)
    requires AllComplete(carried, db) && FoundCarried(found, carried, marks)
    ensures ObservedAre(found, OutcomesOf(db, marks, carried, left, cache, results))
  {}

  ghost predicate LeftAre(left: set<Key>, outcomes: map<Key, Outcome>) {
    left <= outcomes.Keys && forall k :: k in outcomes ==> (outcomes[k].Left? <==> k in left)
  }

  lemma CycleCloses(l0: Ledger, l2: Ledger, l3: Ledger, settled: set<Key>, prices: map<Feed, int>, env: Environment,
                    marks: map<Key, Via>,
                    carried: set<Key>, left: set<Key>, now: int, cache: map<Feed, Option<int>>,
                    results: map<Key, Option<TxHash>>)
    requires Phase1Done(l0, l2, settled, marks, carried, left, now)
    requires AllClassified(l2, l3, carried, cache, results) && l2.tainted <= l3.tainted && CacheIsTrue(cache, prices, env)
    requires AllRetried(results, l2.db, env)
    requires OutsideUntouched(l0, l3, SelectedKeys(l0.db, now))
    ensures AllComplete(carried, l0.db)
    ensures CycleEnds(l0, l3, settled, prices, env, OutcomesOf(l0.db, marks, carried, left, cache, results), now)
    ensures LeftAre(left, OutcomesOf(l0.db, marks, carried, left, cache, results))
  {
    CycleConcludes(l0, l2, l3, settled, prices, env, marks, carried, left, now, cache, results);
    CycleConverges(l0, l3, now, OutcomesOf(l0.db, marks, carried, left, cache, results));
  }

  class Settler {
    var db: map<Key, Row>
    /** Vaults settled on chain, and the prices finalized in the oracle. */
    var settled: set<Key>
    var prices: map<Feed, int>
    /** physicalRedeem transactions: every one sent, and the ones that landed. */
    var attempted: seq<Key>
    var redeemed: multiset<Key>
    /** Rows a mark did not reach, or whose redeem landed although the call raised. */
    ghost var tainted: set<Key>
    /**
     * Every mark lands, a redeem that raises was not applied, and the process does not
     * die between a redeem and its mark.
     */
    const reliable: bool

    constructor (rows: map<Key, Row>, reliable: bool)
      requires forall k :: k in rows ==> !rows[k].isSettled
      ensures Valid() && db == rows && this.reliable == reliable && tainted == {} && settled == {} && redeemed == multiset{} && attempted == []
    {
      db, settled, prices, attempted, redeemed, tainted := rows, {}, map[], [], multiset{}, {};
      this.reliable := reliable;
    }

    ghost predicate Valid()
      reads this
    {
      Consistent(db, settled, prices, attempted, redeemed, tainted)
    }

    // ── The environment ──

    /** One row update: applied, refused, or applied although it raised. */
    method Update(k: Key, row: Row) returns (raised: bool)
      requires k in db && SameTerms(db[k], row)
      modifies this`db, this`tainted
      ensures || (db == old(db)[k := row] && tainted == old(tainted))
              || (db == old(db) && tainted == old(tainted) + {k} && raised && !reliable)
    {
      var applied: bool := *;
      raised := *;
      if applied || reliable {
        db := db[k := row];
      } else {
        raised := true;
        tainted := tainted + {k};
      }
    }

    /** vaultSettled; None is a failed call. */
    method ReadVaultSettled(k: Key, env: Environment) returns (answer: Option<bool>)
      ensures answer == if env.checkable(k) then Some(k in settled) else None
    {
      answer := if env.checkable(k) then Some(k in settled) else None;
    }

    /** getExpiryPrice; None is a failed call or a price that is not final. */
    method ReadExpiryPrice(feed: Feed, env: Environment) returns (price: Option<int>)
      ensures price == if env.readable(feed) && feed in prices then Some(prices[feed]) else None
    {
      price := if env.readable(feed) && feed in prices then Some(prices[feed]) else None;
    }

    /** The process may die here, or an exception escape. */
    method Interrupted(env: Environment) returns (aborted: bool)
      ensures aborted ==> !env.survives
    {
      aborted := *;
      aborted := aborted && !env.survives;
    }

    /** _ensure_expiry_prices_set: each asset's price, for every expiry that has none yet. */
    method EnsureExpiryPrices(expiries: seq<int>, env: Environment)
      modifies this`prices
      ensures PricesSet(old(prices), prices, (set e | e in expiries), env)
    {
      prices := env.others + prices;
      SetPricesOf(Eth, expiries, env);
      SetPricesOf(Btc, expiries, env);
    }

    /** One asset. */
    method SetPricesOf(asset: Asset, expiries: seq<int>, env: Environment)
      modifies this`prices
      ensures forall f: Feed :: f in prices <==> f in old(prices) || (f.0 == asset && f.1 in expiries && Settable(f, env))
      ensures forall f: Feed :: f in prices ==>
                if f in old(prices) then prices[f] == old(prices)[f] else env.quote(f.0) == Some(prices[f])
    {
      var quote := env.quote(asset);
      if quote.None? { return; }
      for i := 0 to |expiries|
        invariant forall f: Feed :: f in prices <==>
                    f in old(prices) || (f.0 == asset && f.1 in expiries[..i] && Settable(f, env))
        invariant forall f: Feed :: f in prices ==>
                    if f in old(prices) then prices[f] == old(prices)[f] else env.quote(f.0) == Some(prices[f])
      {
        var feed := (asset, expiries[i]);
        if env.checked(feed) && feed !in prices && Lands(env.setPrice(feed)) {
          prices := prices[feed := quote.value];
        }
        assert expiries[..i + 1] == expiries[..i] + [expiries[i]];
      }
      assert expiries[..|expiries|] == expiries;
    }

    // ── The work queries ──

    method GetExpiredUnsettled(now: int) returns (keys: seq<Key>)
      ensures Distinct(keys) && KeysOf(keys) == ExpiredKeys(db, now)
      ensures forall k :: k in keys <==>
                && k in db && !db[k].isSettled && db[k].expiry <= now
                && db[k].strike.Some? && db[k].isPut.Some? && db[k].amount.Some?
    {
      keys := [];
      var rest := db.Keys;
      while rest != {}
        invariant rest <= db.Keys && Distinct(keys)
        invariant KeysOf(keys) == set k | k in db.Keys - rest && ExpiredUnsettled(db[k], now)
      {
        var k :| k in rest;
        rest := rest - {k};
        if ExpiredUnsettled(db[k], now) {
          DistinctSnoc(keys, k);
          keys := keys + [k];
        }
      }
      assert forall k :: k in keys <==> k in KeysOf(keys);
    }

    method GetPendingPhase2(now: int) returns (keys: seq<Key>)
      ensures Distinct(keys) && KeysOf(keys) == PendingKeys(db, now)
      ensures forall k :: k in keys <==>
                && k in db && db[k].isSettled && db[k].expiry <= now
                && db[k].strike.Some? && db[k].isPut.Some? && db[k].amount.Some?
                && db[k].deliveryTx.None? && (db[k].isItm.None? || db[k].isItm.value)
                && db[k].settlementType in {None, Some(Cash)} && db[k].maker.Some?
    {
      keys := [];
      var rest := db.Keys;
      while rest != {}
        invariant rest <= db.Keys && Distinct(keys)
        invariant KeysOf(keys) == set k | k in db.Keys - rest && PendingPhase2(db[k], now)
      {
        var k :| k in rest;
        rest := rest - {k};
        if PendingPhase2(db[k], now) {
          DistinctSnoc(keys, k);
          keys := keys + [k];
        }
      }
      assert forall k :: k in keys <==> k in KeysOf(keys);
    }

    // ── Reconciliation ──

    /** One position of the reconciliation: found settled on chain, the row is marked. */
    method ReconcileOne(k: Key, env: Environment) returns (found: bool)
      requires k in db
      modifies this`db, this`tainted
      ensures k in db && db == old(db)[k := db[k]]
      ensures old(tainted) <= tainted <= old(tainted) + {k}
      ensures reliable ==> tainted == old(tainted)
      ensures found <==> k in settled && env.checkable(k)
      ensures found ==> ObservedMark(old(db)[k], db[k], k in tainted)
      ensures !found ==> db[k] == old(db)[k]
    {
      var answer := ReadVaultSettled(k, env);
      found := answer == Some(true);
      if found {
        var failed := Update(k, db[k].(isSettled := true));
      }
    }

    /** _reconcile_settled_on_chain; `raised` is an exception part of the way. */
    method Reconcile(positions: seq<Key>, env: Environment, mayRaise: bool)
      returns (unsettled: seq<Key>, already: seq<Key>, raised: bool)
      requires Valid() && Distinct(positions) && KeysOf(positions) <= db.Keys
      modifies this`db, this`tainted
      ensures Valid() && Reconciled(old(db), db, settled, tainted, KeysOf(already))
      ensures old(tainted) <= tainted <= old(tainted) + KeysOf(positions)
      ensures reliable ==> tainted == old(tainted)
      ensures KeysOf(already) <= KeysOf(positions)
      ensures Distinct(already)
      ensures raised ==> mayRaise
      ensures !raised ==> KeysOf(already) == FoundSettled(KeysOf(positions), settled, env)
      ensures !raised ==>
                && Distinct(unsettled)
                && KeysOf(unsettled) == KeysOf(positions) - KeysOf(already)
    {
      NothingReconciled(db, settled, tainted, env);
      hide Reconciled, FoundSettled, Consistent;
      unsettled, already, raised := [], [], false;
      ghost var db0, lost0, found, seen := db, tainted, {}, {};
      for i := 0 to |positions|
        invariant Reconciled(db0, db, settled, tainted, found) && db.Keys == db0.Keys
        invariant seen == KeysOf(positions[..i]) && found == KeysOf(already) <= seen
        invariant found == FoundSettled(seen, settled, env)
        invariant lost0 <= tainted <= lost0 + seen
        invariant reliable ==> tainted == lost0
        invariant KeysOf(unsettled) == seen - found && Distinct(unsettled) && Distinct(already)
      {
        var k := positions[i];
        KeysOfNext(positions, i);
        raised := *;
        raised := raised && mayRaise;
        if raised {
          KeysOfPrefix(positions, i);
          ReconciledIsConsistent(db0, db, settled, prices, attempted, redeemed, lost0, tainted, found);
          return;
        }
        ghost var before, lost := db, tainted;
        FoundMore(seen, settled, env, k);
        var isSettled := ReconcileOne(k, env);
        if isSettled {
          ReconciledStep(db0, before, db, settled, lost, tainted, found, k);
          DistinctSnoc(already, k);
          already, found := already + [k], found + {k};
        } else {
          assert db == before;
          ReconciledKept(db0, db, settled, lost, tainted, found);
          DistinctSnoc(unsettled, k);
          unsettled := unsettled + [k];
        }
        seen := seen + {k};
      }
      assert positions[..|positions|] == positions;
      ReconciledIsConsistent(db0, db, settled, prices, attempted, redeemed, lost0, tainted, found);
    }

    // ── Phase 1 ──

    method MarkBatchRow(k: Key)
      requires k in db && k in settled
      modifies this`db, this`tainted
      ensures Marked(old(db), db, settled, tainted, map[k := Batched]) && db.Keys == old(db).Keys
      ensures old(tainted) <= tainted <= old(tainted) + {k}
      ensures reliable ==> tainted == old(tainted)
    {
      var failed := Update(k, SettleMark(db[k], Batched));
    }

    /** _mark_batch_settled: each row of a batch settled by this cycle's transaction, up to where the process dies. */
    method MarkBatchSettled(batch: seq<Key>, env: Environment) returns (ghost via: map<Key, Via>, aborted: bool)
      requires Distinct(batch) && KeysOf(batch) <= db.Keys && KeysOf(batch) <= settled
      modifies this`db, this`tainted
      ensures Marked(old(db), db, settled, tainted, via)
      ensures via.Keys <= KeysOf(batch) && AllBatched(via) && (!aborted ==> via.Keys == KeysOf(batch))
      ensures aborted ==> !env.survives
      ensures old(tainted) <= tainted <= old(tainted) + KeysOf(batch)
      ensures reliable ==> tainted == old(tainted)
    {
      MarkedNothing(db, settled, tainted);
      hide Marked;
      ghost var db0, lost0 := db, tainted;
      via, aborted := map[], false;
      for i := 0 to |batch|
        invariant via.Keys == KeysOf(batch[..i]) && AllBatched(via) && db.Keys == db0.Keys
        invariant Marked(db0, db, settled, tainted, via)
        invariant lost0 <= tainted <= lost0 + via.Keys
        invariant reliable ==> tainted == lost0
      {
        var k := batch[i];
        KeysOfNext(batch, i);
        KeysOfPrefix(batch, i);
        aborted := Interrupted(env);
        if aborted { return; }
        ghost var mid, lost := db, tainted;
        MarkBatchRow(k);
        MarkedTrans(db0, mid, db, settled, settled, lost, tainted, via, map[k := Batched]);
        via := via + map[k := Batched];
      }
      assert batch[..|batch|] == batch;
    }

    /** batchSettleVaults: all of the batch is settled, or nothing. */
    method BatchSettleVaults(batch: seq<Key>, env: Environment) returns (confirmed: bool)
      modifies this`settled
      ensures settled == if Lands(env.batch(batch)) then old(settled) + KeysOf(batch) else old(settled)
      ensures confirmed == env.batch(batch).Confirmed?
    {
      var call := env.batch(batch);
      if Lands(call) {
        settled := settled + KeysOf(batch);
      }
      confirmed := call.Confirmed?;
    }

    /** One batch: the vaults it is known to have settled; `stop` ends the batch loop. */
    method SettleBatch(batch: seq<Key>, env: Environment)
      returns (done: seq<Key>, ghost via: map<Key, Via>, stop: bool, aborted: bool)
      requires Valid() && Distinct(batch) && KeysOf(batch) <= db.Keys
      modifies this`db, this`settled, this`tainted
      ensures Valid() && old(settled) <= settled && Marked(old(db), db, settled, tainted, via)
      ensures old(tainted) <= tainted <= old(tainted) + KeysOf(batch)
      ensures reliable ==> tainted == old(tainted)
      ensures Distinct(done) && KeysOf(done) <= KeysOf(batch) && via.Keys <= KeysOf(batch) && Recovered !in via.Values
      ensures !aborted ==> via.Keys == KeysOf(done)
      ensures aborted ==> !env.survives
      ensures !aborted ==> (stop <==> KeysOf(done) != KeysOf(batch))
      ensures env.batch(batch).Confirmed? ==> !stop
      ensures !Lands(env.batch(batch)) ==> settled == old(settled)
    {
      ghost var db0, settled0, lost0 := db, settled, tainted;
      done, via, stop, aborted := [], map[], false, false;
      var confirmed := BatchSettleVaults(batch, env);
      MarkedIsConsistent(db0, db, settled0, settled, prices, attempted, redeemed, lost0, tainted, via);
      if !confirmed {
        var unsettled, already, raised := Reconcile(batch, env, !env.survives);
        ReconciledIsMarked(db0, db, settled, tainted, KeysOf(already));
        via := map k | k in KeysOf(already) :: Observed;
        done, aborted := already, raised;
        stop := unsettled != [];
        if !raised {
          if unsettled == [] {
            NothingLeft(KeysOf(batch), KeysOf(already));
          } else {
            assert unsettled[0] in KeysOf(unsettled);
          }
        }
        return;
      }
      done := batch;
      aborted := Interrupted(env);
      if !aborted {
        via, aborted := MarkBatchSettled(batch, env);
        MarkedIsConsistent(db0, db, settled0, settled, prices, attempted, redeemed, lost0, tainted, via);
      }
    }

    /** The batch loop of settle_once. */
    method SettleBatches(positions: seq<Key>, env: Environment)
      returns (done: seq<Key>, ghost via: map<Key, Via>, stopped: bool, aborted: bool)
      requires Valid() && Distinct(positions) && KeysOf(positions) <= db.Keys
      modifies this`db, this`settled, this`tainted
      ensures Valid() && old(settled) <= settled && Marked(old(db), db, settled, tainted, via)
      ensures old(tainted) <= tainted <= old(tainted) + KeysOf(positions)
      ensures reliable ==> tainted == old(tainted)
      ensures Distinct(done) && KeysOf(done) <= KeysOf(positions) && via.Keys <= KeysOf(positions) && Recovered !in via.Values
      ensures !aborted ==> via.Keys == KeysOf(done)
      ensures aborted ==> !env.survives
      ensures !aborted ==> (stopped <==> KeysOf(done) != KeysOf(positions))
      ensures AllConfirmed(env) ==> !stopped
      ensures NoneLands(env) ==> settled == old(settled)
    {
      ghost var db0, settled0, lost0 := db, settled, tainted;
      done, via, stopped, aborted := [], map[], false, false;
      var i := 0;
      while i < |positions|
        invariant i <= |positions| && !stopped && !aborted
        invariant Valid() && settled0 <= settled && Marked(db0, db, settled, tainted, via)
        invariant lost0 <= tainted <= lost0 + KeysOf(positions)
        invariant reliable ==> tainted == lost0
        invariant NoneLands(env) ==> settled == settled0
        invariant Distinct(done) && via.Keys == KeysOf(done) == KeysOf(positions[..i]) && Recovered !in via.Values
        decreases |positions| - i
      {
        var end := if i + MAX_BATCH_SIZE <= |positions| then i + MAX_BATCH_SIZE else |positions|;
        var batch := positions[i..end];
        KeysOfSlice(positions, i, end);
        ghost var mid, settled1, lost1 := db, settled, tainted;
        var settledHere;
        ghost var viaHere;
        settledHere, viaHere, stopped, aborted := SettleBatch(batch, env);
        MarkedTrans(db0, mid, db, settled1, settled, lost1, tainted, via, viaHere);
        DistinctAppend(done, settledHere);
        done, via := done + settledHere, via + viaHere;
        if stopped || aborted {
          KeysOfPrefix(positions, end);
          PartMissing(KeysOf(positions), KeysOf(positions[..i]), KeysOf(batch), KeysOf(settledHere));
          return;
        }
        i := end;
      }
      assert positions[..|positions|] == positions;
    }

    // ── Phase 2 ──

    /** identify_itm_positions: one oracle read per feed, kept in the cache. */
    method IdentifyItm(positions: seq<Key>, env: Environment)
      returns (itm: seq<Key>, cache: map<Feed, Option<int>>, skipped: set<Key>)
      requires Distinct(positions) && AllComplete(KeysOf(positions), db)
      ensures CacheIsTrue(cache, prices, env) && CacheCovers(KeysOf(positions), db, cache)
      ensures Distinct(itm) && KeysOf(itm) == ItmKeys(KeysOf(positions), db, cache)
      ensures skipped == SkippedKeys(KeysOf(positions), db, cache)
      ensures forall k :: k in itm <==>
                && k in positions && env.readable((db[k].asset, db[k].expiry)) && (db[k].asset, db[k].expiry) in prices
                && (if db[k].isPut.value then prices[(db[k].asset, db[k].expiry)] < db[k].strike.value
                    else prices[(db[k].asset, db[k].expiry)] > db[k].strike.value)
      ensures forall k :: k in skipped <==>
                k in positions && !(env.readable((db[k].asset, db[k].expiry)) && (db[k].asset, db[k].expiry) in prices)
    {
      itm, cache, skipped := [], map[], {};
      for i := 0 to |positions|
        invariant CacheIsTrue(cache, prices, env) && CacheCovers(KeysOf(positions[..i]), db, cache)
        invariant KeysOf(positions[..i]) <= KeysOf(positions)
        invariant Distinct(itm) && KeysOf(itm) == ItmKeys(KeysOf(positions[..i]), db, cache)
        invariant skipped == SkippedKeys(KeysOf(positions[..i]), db, cache)
      {
        var k := positions[i];
        KeysOfNext(positions, i);
        KeysOfPrefix(positions, i + 1);
        var feed := FeedOf(db[k]);
        ghost var known := cache;
        if feed !in cache {
          var price := ReadExpiryPrice(feed, env);
          cache := cache[feed := price];
        }
        CacheGrows(KeysOf(positions[..i]), db, known, cache);
        if cache[feed].None? {
          skipped := skipped + {k};
        } else if InTheMoney(db[k], cache[feed].value) {
          DistinctSnoc(itm, k);
          itm := itm + [k];
        }
      }
      assert positions[..|positions|] == positions;
      CachedMoneyness(KeysOf(positions), db, prices, env, cache);
      assert forall k :: k in itm <==> k in KeysOf(itm);
    }

    /**
     * _physical_redeem_with_retry: without a positive number of attempts it raises; the
     * slippage may fail before a transaction is sent; a sent one is confirmed, or raises
     * and may have landed all the same.
     */
    method RedeemWithRetry(k: Key, env: Environment) returns (tx: Option<TxHash>)
      requires Deliverable(k, db, settled, prices) && (reliable ==> NothingUnseen(env))
      modifies this`attempted, this`redeemed, this`tainted
      ensures tx == Hash(Retries(env, k))
      ensures Redeemed(old(Now()), Now(), k, Retries(env, k))
      ensures reliable ==> tainted == old(tainted)
    {
      tx := None;
      NotRedeemed(Now(), k);
      if env.maxRetries < 1 {
        return;
      }
      hide Redeemed, Deliverable, RedeemedOnce;
      ghost var start, calls := Now(), [];
      for attempt := 1 to env.maxRetries + 1
        invariant calls == Attempts(env, k, attempt - 1) && !EndsConfirmed(calls)
        invariant Redeemed(start, Now(), k, calls)
        invariant reliable ==> tainted == start.tainted
      {
        ghost var mid := Now();
        var call := env.redeem(k, attempt);
        Redeem(k, call);
        RedeemedStep(start, mid, Now(), k, calls, call);
        UntaintedIfSeen(mid, Now(), k, call);
        calls := calls + [call];
        if call.Confirmed? {
          ConfirmedStays(env, k, attempt, env.maxRetries);
          return Some(call.tx);
        }
      }
    }

    /** One attempt. */
    method Redeem(k: Key, call: Call)
      requires Deliverable(k, db, settled, prices)
      modifies this`attempted, this`redeemed, this`tainted
      ensures RedeemedOnce(old(Now()), Now(), k, call)
    {
      if !call.NotSent? {
        attempted := attempted + [k];
      }
      if Lands(call) {
        redeemed := redeemed + multiset{k};
      }
      if call.LandedUnseen? {
        tainted := tainted + {k};
      }
    }

    ghost function Now(): Ledger
      reads this
    {
      Ledger(db, attempted, redeemed, tainted)
    }

    /** One in-the-money position; None is no delivery (no maker, or retries exhausted). */
    method DeliverOne(k: Key, price: int, env: Environment) returns (tx: Option<TxHash>, aborted: bool)
      requires Valid() && Ready(k, db, settled, prices, redeemed, tainted)
      requires FeedOf(db[k]) in prices && price == prices[FeedOf(db[k])] && InTheMoney(db[k], price)
      requires reliable ==> NothingUnseen(env)
      modifies this`db, this`attempted, this`redeemed, this`tainted
      ensures Valid() && DeliveryStep(old(Now()), Now(), k, price, tx, aborted)
      ensures reliable ==> tainted == old(tainted)
      ensures SentOnlyTo(old(|attempted|), attempted, {k}) && old(attempted) <= attempted
      ensures aborted ==> !env.survives
      ensures !aborted && HasMaker(old(db)[k]) ==> tx == Hash(Retries(env, k))
    {
      tx := None;
      aborted := Interrupted(env);
      if aborted { return; }
      if HasMaker(db[k]) {
        tx, aborted := RedeemAndMark(k, price, env);
        return;
      }
      ghost var db0, lost0 := db, tainted;
      var raised := Update(k, FailMark(db[k], price));
      ConsistentStep(db0, db, settled, prices, attempted, attempted, redeemed, redeemed, lost0, tainted, k);
    }

    /** Redeeming for a position with a maker, and the mark behind it. */
    method RedeemAndMark(k: Key, price: int, env: Environment) returns (tx: Option<TxHash>, aborted: bool)
      requires Valid() && Ready(k, db, settled, prices, redeemed, tainted) && HasMaker(db[k])
      requires FeedOf(db[k]) in prices && price == prices[FeedOf(db[k])] && InTheMoney(db[k], price)
      requires reliable ==> NothingUnseen(env)
      modifies this`db, this`attempted, this`redeemed, this`tainted
      ensures Valid() && DeliveryStep(old(Now()), Now(), k, price, tx, aborted)
      ensures reliable ==> tainted == old(tainted)
      ensures SentOnlyTo(old(|attempted|), attempted, {k}) && old(attempted) <= attempted
      ensures tx == Hash(Retries(env, k)) && (aborted ==> !env.survives)
    {
      ghost var start := Now();
      assert RowConsistent(db[k], k in settled, redeemed[k], k in tainted);
      assert Deliverable(k, db, settled, prices);
      tx := RedeemWithRetry(k, env);
      RedeemedIsAccounted(start, Now(), k, Retries(env, k));
      hide Redeemed, Retries, Hash, Deliverable, SentOnlyTo, Consistent, Accounted, DeliveryStep, RowConsistent, Ready;
      aborted := MarkDelivery(k, price, tx, env);
      DeliveryStepHolds(start, Now(), settled, prices, k, price, tx, aborted);
      ConsistentStep(start.db, db, settled, prices, start.attempted, attempted, start.redeemed, redeemed,
                     start.tainted, tainted, k);
    }

    /** The mark behind the redeems of a vault; dying between a redeem and its mark loses the mark. */
    method MarkDelivery(k: Key, price: int, tx: Option<TxHash>, env: Environment) returns (aborted: bool)
      requires k in db
      modifies this`db, this`tainted
      ensures k in db && db == old(db)[k := db[k]] && SameTerms(old(db)[k], db[k])
      ensures old(tainted) <= tainted <= old(tainted) + {k}
      ensures reliable ==> tainted == old(tainted)
      ensures k in tainted || db[k] == DeliveryResult(old(db)[k], price, tx) || (aborted && tx.None? && db == old(db))
      ensures aborted ==> !env.survives
    {
      aborted := Interrupted(env);
      aborted := aborted && !(reliable && tx.Some?);
      if aborted {
        if tx.Some? { tainted := tainted + {k}; }
      } else {
        var raised := Update(k, DeliveryResult(db[k], price, tx));
      }
    }

    /** The delivery loop of settle_once. */
    method DeliverAll(itm: seq<Key>, cache: map<Feed, Option<int>>, env: Environment)
      returns (results: map<Key, Option<TxHash>>, aborted: bool)
      requires Valid() && Distinct(itm) && AllReady(KeysOf(itm), db, settled, prices, redeemed, tainted)
      requires CacheIsTrue(cache, prices, env) && PricedInTheMoney(KeysOf(itm), db, cache)
      requires reliable ==> NothingUnseen(env)
      modifies this`db, this`attempted, this`redeemed, this`tainted
      ensures Valid() && DeliveryProgress(old(Now()), Now(), cache, results, aborted)
      ensures reliable ==> tainted == old(tainted)
      ensures SentOnlyTo(old(|attempted|), attempted, KeysOf(itm)) && old(attempted) <= attempted
      ensures results.Keys <= KeysOf(itm) && (!aborted ==> results.Keys == KeysOf(itm))
      ensures !aborted ==> AllRetried(results, old(db), env)
      ensures aborted ==> !env.survives
    {
      hide Consistent, DeliveryStep, AllRetried, DeliveryProgress, SentOnlyTo, Ready;
      ghost var start := Now();
      results, aborted := map[], false;
      NoneDelivered(start, cache, env, KeysOf(itm));
      for i := 0 to |itm|
        invariant !aborted && Valid() && results.Keys == KeysOf(itm[..i])
        invariant reliable ==> tainted == start.tainted
        invariant DeliveryProgress(start, Now(), cache, results, false) && AllRetried(results, start.db, env)
        invariant SentOnlyTo(|start.attempted|, attempted, KeysOf(itm)) && start.attempted <= attempted
      {
        var k := itm[i];
        KeysOfNext(itm, i);
        assert Ready(k, start.db, settled, prices, start.redeemed, start.tainted);
        StillReady(k, start, Now(), settled, prices, cache, results);
        ReadyIsComplete(k, start, settled, prices);
        var price := cache[FeedOf(db[k])].value;
        ghost var mid := Now();
        var tx;
        tx, aborted := DeliverOne(k, price, env);
        if !aborted { RetriedMore(results, start.db, env, k, tx); }
        hide AllReady, PricedInTheMoney, Retries, Hash;
        DeliveryProgresses(start, mid, Now(), cache, results, k, price, tx, aborted);
        SentMore(|start.attempted|, mid.attempted, attempted, k, KeysOf(itm));
        results := results[k := tx];
        if aborted {
          KeysOfPrefix(itm, i + 1);
          return;
        }
      }
      assert itm[..|itm|] == itm;
    }

    /** One out-of-the-money position. */
    method MarkOtmOne(k: Key, price: int)
      requires Valid() && k in db
      modifies this`db, this`tainted
      ensures Valid() && k in db && db == old(db)[k := db[k]] && SameTerms(old(db)[k], db[k])
      ensures old(tainted) <= tainted <= old(tainted) + {k}
      ensures reliable ==> tainted == old(tainted)
      ensures k in tainted || db[k] == OtmMark(old(db)[k], price)
    {
      ghost var mid, lost := db, tainted;
      var raised := Update(k, OtmMark(db[k], price));
      ConsistentStep(mid, db, settled, prices, attempted, attempted, redeemed, redeemed, lost, tainted, k);
    }

    /** The out-of-the-money loop of settle_once, up to where the process dies. */
    method MarkOtm(positions: seq<Key>, excluded: set<Key>, cache: map<Feed, Option<int>>, env: Environment)
      returns (ghost marked: set<Key>, aborted: bool)
      requires Valid() && Distinct(positions) && CacheCovers(KeysOf(positions), db, cache)
      requires forall k :: k in positions && k !in excluded ==> cache[FeedOf(db[k])].Some?
      modifies this`db, this`tainted
      ensures Valid() && OtmMarked(old(db), db, tainted, marked, cache)
      ensures marked <= KeysOf(positions) - excluded && (!aborted ==> marked == KeysOf(positions) - excluded)
      ensures aborted ==> !env.survives
      ensures old(tainted) <= tainted <= old(tainted) + marked
      ensures reliable ==> tainted == old(tainted)
    {
      OtmNothing(db, tainted, cache);
      hide Consistent, OtmMarked;
      ghost var db0, lost0 := db, tainted;
      marked, aborted := {}, false;
      for i := 0 to |positions|
        invariant Valid() && marked == KeysOf(positions[..i]) - excluded
        invariant OtmMarked(db0, db, tainted, marked, cache)
        invariant lost0 <= tainted <= lost0 + marked
        invariant reliable ==> tainted == lost0
      {
        var k := positions[i];
        KeysOfNext(positions, i);
        KeysOfPrefix(positions, i);
        aborted := Interrupted(env);
        if aborted { return; }
        if k !in excluded {
          ghost var mid, lost := db, tainted;
          StillUnmarked(db0, db, tainted, marked, cache, k);
          MarkOtmOne(k, cache[FeedOf(db[k])].value);
          OtmStep(db0, mid, db, lost, tainted, marked, cache, k);
          marked := marked + {k};
        }
      }
      assert positions[..|positions|] == positions;
    }

    /** The last part of phase 2: what is neither in the money nor skipped is out of the money. */
    method ClassifyRest(positions: seq<Key>, itm: seq<Key>, skipped: set<Key>, cache: map<Feed, Option<int>>,
                        ghost start: Ledger, ghost results: map<Key, Option<TxHash>>, env: Environment) returns (aborted: bool)
      requires Valid() && Distinct(positions)
      requires AllComplete(KeysOf(positions), start.db) && CacheCovers(KeysOf(positions), start.db, cache)
      requires DeliveryProgress(start, Now(), cache, results, false)
      requires results.Keys == KeysOf(itm) == ItmKeys(KeysOf(positions), start.db, cache)
      requires skipped == SkippedKeys(KeysOf(positions), start.db, cache)
      modifies this`db, this`tainted
      ensures Valid() && OutsideUntouched(start, Now(), KeysOf(positions))
      ensures !aborted ==> AllClassified(start, Now(), KeysOf(positions), cache, results)
      ensures aborted ==> !env.survives
      ensures old(tainted) <= tainted <= old(tainted) + KeysOf(positions)
      ensures reliable ==> tainted == old(tainted)
    {
      hide Consistent, DeliveryProgress, OtmMarked, AllClassified, OutsideUntouched;
      ghost var mid, keys := Now(), KeysOf(positions);
      UntouchedByDelivery(start, mid, cache, results, false);
      SameFeeds(start, mid, keys, cache, results);
      var excluded := (set k | k in itm) + skipped;
      ghost var marked;
      marked, aborted := MarkOtm(positions, excluded, cache, env);
      if aborted {
        OtmUntouched(start, mid, Now(), keys, results.Keys, marked, cache);
      } else {
        assert keys - excluded == keys - results.Keys - skipped;
        ClassifiedByPhases(start, mid, Now(), keys, cache, results);
        ClassifiedUntouched(start, Now(), keys, cache, results);
      }
    }

    /** Phase 2 on the positions known to be settled on chain. */
    method RunPhase2(positions: seq<Key>, env: Environment)
      returns (cache: map<Feed, Option<int>>, results: map<Key, Option<TxHash>>, aborted: bool)
      requires Valid() && Distinct(positions) && AllComplete(KeysOf(positions), db)
      requires AllReady(KeysOf(positions), db, settled, prices, redeemed, tainted)
      requires reliable ==> NothingUnseen(env)
      modifies this`db, this`attempted, this`redeemed, this`tainted
      ensures Valid() && CacheIsTrue(cache, prices, env)
      ensures SentOnlyTo(old(|attempted|), attempted, KeysOf(positions)) && old(attempted) <= attempted
      ensures old(tainted) <= tainted <= old(tainted) + KeysOf(positions)
      ensures reliable ==> tainted == old(tainted)
      ensures OutsideUntouched(old(Now()), Now(), KeysOf(positions))
      ensures !aborted ==> AllClassified(old(Now()), Now(), KeysOf(positions), cache, results)
      ensures !aborted ==> AllRetried(results, old(db), env)
      ensures aborted ==> !env.survives
    {
      hide Consistent, AllClassified;
      ghost var start, keys := Now(), KeysOf(positions);
      var itm, skipped;
      itm, cache, skipped := IdentifyItm(positions, env);
      results, aborted := DeliverAll(itm, cache, env);
      if aborted {
        UntouchedByDelivery(start, Now(), cache, results, aborted);
      } else {
        aborted := ClassifyRest(positions, itm, skipped, cache, start, results, env);
      }
    }

    // ── The cycle ──

    /** The recovered positions behind the reconciled ones, each key once. */
    method MergeSeed(reconciled: seq<Key>, recovery: seq<Key>) returns (seed: seq<Key>)
      requires Distinct(reconciled) && Distinct(recovery)
      ensures Distinct(seed) && KeysOf(seed) == KeysOf(reconciled) + KeysOf(recovery)
    {
      seed := reconciled;
      var seen := set k | k in reconciled;
      for i := 0 to |recovery|
        invariant seen == KeysOf(seed) == KeysOf(reconciled) + KeysOf(recovery[..i]) && Distinct(seed)
      {
        var k := recovery[i];
        KeysOfNext(recovery, i);
        if k !in seen {
          DistinctSnoc(seed, k);
          seed, seen := seed + [k], seen + {k};
        }
      }
      assert recovery[..|recovery|] == recovery;
    }

    /** The first reconciliation; when it raises, the cycle goes on with all positions. */
    method ReconcileExpired(expired: seq<Key>, env: Environment)
      returns (positions: seq<Key>, reconciled: seq<Key>, ghost marks: map<Key, Via>)
      requires Valid() && Distinct(expired) && KeysOf(expired) <= db.Keys
      modifies this`db, this`tainted
      ensures Valid() && Marked(old(db), db, settled, tainted, marks) && AllObserved(marks)
      ensures old(tainted) <= tainted <= old(tainted) + KeysOf(expired)
      ensures reliable ==> tainted == old(tainted)
      ensures Distinct(positions) && Distinct(reconciled) && KeysOf(positions) !! KeysOf(reconciled)
      ensures KeysOf(positions) + KeysOf(reconciled) == KeysOf(expired)
      ensures KeysOf(reconciled) <= marks.Keys <= KeysOf(expired)
      ensures env.reconciles ==> KeysOf(reconciled) == FoundSettled(KeysOf(expired), settled, env)
    {
      positions, reconciled, marks := expired, [], map[];
      if expired != [] {
        ghost var db0 := db;
        var unsettled, already, raised := Reconcile(expired, env, !env.reconciles);
        ReconciledIsMarked(db0, db, settled, tainted, KeysOf(already));
        marks := map k | k in KeysOf(already) :: Observed;
        if !raised {
          SplitUnion(KeysOf(expired), KeysOf(already), KeysOf(unsettled));
          positions, reconciled := unsettled, already;
        }
      }
    }

    /**
     * The work of a cycle: positions to settle, and the seed that is known to be
     * settled on chain already (found so now, or by an earlier cycle).
     */
    method Collect(now: int, env: Environment) returns (positions: seq<Key>, seed: seq<Key>, ghost marks: map<Key, Via>)
      requires Valid()
      modifies this`db, this`tainted
      ensures Valid() && Marked(old(db), db, settled, tainted, marks) && AllObserved(marks)
      ensures old(tainted) <= tainted <= old(tainted) + ExpiredKeys(old(db), now)
      ensures reliable ==> tainted == old(tainted)
      ensures Distinct(positions) && Distinct(seed) && KeysOf(positions) !! KeysOf(seed)
      ensures KeysOf(positions) <= ExpiredKeys(old(db), now)
      ensures KeysOf(positions) + KeysOf(seed) == ExpiredKeys(old(db), now) + PendingKeys(old(db), now)
      ensures marks.Keys <= ExpiredKeys(old(db), now)
      ensures KeysOf(seed) <= marks.Keys + PendingKeys(old(db), now)
      ensures env.reconciles ==> FoundSettled(ExpiredKeys(old(db), now), settled, env) <= KeysOf(seed) * marks.Keys
    {
      ghost var e, p := ExpiredKeys(db, now), PendingKeys(db, now);
      var expired := GetExpiredUnsettled(now);
      var recovery := GetPendingPhase2(now);
      var reconciled;
      positions, reconciled, marks := ReconcileExpired(expired, env);
      seed := MergeSeed(reconciled, recovery);
      assert e !! p;
      assert KeysOf(expired) == e && KeysOf(recovery) == p;
      SeedParts(e, p, KeysOf(positions), KeysOf(reconciled), KeysOf(seed));
    }

    /** Everything before phase 2: collect, reconcile, price, settle in batches. */
    method SettlePhase(now: int, env: Environment)
      returns (carried: seq<Key>, ghost marks: map<Key, Via>, ghost left: set<Key>, stopped: bool, aborted: bool)
      requires Valid()
      modifies this`db, this`settled, this`prices, this`tainted
      ensures Valid() && old(settled) <= settled && PricesGrow(old(prices), prices)
      ensures OutsideUntouched(old(Now()), Now(), SelectedKeys(old(db), now))
      ensures old(tainted) <= tainted <= old(tainted) + SelectedKeys(old(db), now)
      ensures reliable ==> tainted == old(tainted)
      ensures !aborted ==> PricesSet(old(prices), prices, ExpiriesOf(old(db), SelectedKeys(old(db), now)), env)
      ensures !aborted ==> Distinct(carried)
      ensures !aborted ==> Phase1Done(old(Now()), Now(), settled, marks, KeysOf(carried), left, now)
      ensures aborted ==> !env.survives
      ensures !aborted ==> (stopped <==> left != {})
      ensures AllConfirmed(env) ==> !stopped
      ensures NoneLands(env) ==> settled == old(settled)
      ensures !aborted && env.reconciles ==>
                FoundCarried(FoundSettled(ExpiredKeys(old(db), now), old(settled), env), KeysOf(carried), marks)
      ensures !aborted ==> AllComplete(KeysOf(carried), db)
      ensures !aborted ==> AllReady(KeysOf(carried), db, settled, prices, redeemed, tainted)
    {
      hide SeedCarried, FoundCarried, FoundSettled;
      hide Consistent, AllReady, AllComplete, Phase1Done, AllConfirmed, NoneLands, OutsideUntouched, Marked;
      ghost var l0, settled0, prices0 := Now(), settled, prices;
      carried, left, stopped := [], {}, false;
      ghost var observed;
      var positions, seed;
      positions, seed, observed := Collect(now, env);
      marks := observed;
      ghost var l1, settled1 := Now(), settled;
      ObservedTouches(l0, l1, settled, observed, SelectedKeys(l0.db, now));
      aborted := Interrupted(env);
      if aborted { return; }
      ExpiriesAreSelected(l0.db, db, positions, seed, SelectedKeys(l0.db, now));
      var expiries := ExpiriesIn(db, positions + seed);
      EnsureExpiryPrices(expiries, env);
      SetPricesGrow(prices0, prices, (set e | e in expiries), env);
      PricesKeepConsistent(db, settled, prices0, prices, attempted, redeemed, tainted);
      carried, marks, left, stopped, aborted :=
        SettleCollected(positions, seed, observed, l0, settled0, prices0, settled1, now, env);
      if env.reconciles {
        SeedHoldsFound(FoundSettled(ExpiredKeys(l0.db, now), settled0, env), KeysOf(seed), observed, KeysOf(carried), marks);
      }
    }

    /** The batches for the collected positions, joined to the seed. */
    method SettleCollected(positions: seq<Key>, seed: seq<Key>, ghost observed: map<Key, Via>, ghost l0: Ledger,
                           ghost settled0: set<Key>, ghost prices0: map<Feed, int>, ghost settled1: set<Key>, now: int,
                           env: Environment)
      returns (carried: seq<Key>, ghost marks: map<Key, Via>, ghost left: set<Key>, stopped: bool, aborted: bool)
      requires Valid() && settled0 <= settled1 <= settled && l0.redeemed == redeemed && l0.tainted <= tainted
      requires Consistent(l0.db, settled0, prices0, l0.attempted, l0.redeemed, l0.tainted)
      requires Marked(l0.db, db, settled1, tainted, observed) && AllObserved(observed)
      requires Distinct(positions) && Distinct(seed) && KeysOf(positions) !! KeysOf(seed)
      requires KeysOf(positions) + KeysOf(seed) == SelectedKeys(l0.db, now) && KeysOf(positions) <= ExpiredKeys(l0.db, now)
      requires KeysOf(seed) <= observed.Keys + PendingKeys(l0.db, now) && observed.Keys <= ExpiredKeys(l0.db, now)
      modifies this`db, this`settled, this`tainted
      ensures Valid() && old(settled) <= settled
      ensures OutsideUntouched(l0, Now(), SelectedKeys(l0.db, now))
      ensures old(tainted) <= tainted <= old(tainted) + KeysOf(positions)
      ensures reliable ==> tainted == old(tainted)
      ensures !aborted ==> Distinct(carried)
      ensures !aborted ==> Phase1Done(l0, Now(), settled, marks, KeysOf(carried), left, now)
      ensures aborted ==> !env.survives
      ensures !aborted ==> (stopped <==> left != {})
      ensures AllConfirmed(env) ==> !stopped
      ensures NoneLands(env) ==> settled == old(settled)
      ensures SeedCarried(KeysOf(seed), observed, KeysOf(carried), marks)
      ensures !aborted ==> AllComplete(KeysOf(carried), db)
      ensures !aborted ==> AllReady(KeysOf(carried), db, settled, prices, redeemed, tainted)
    {
      ghost var db1, lost1 := db, tainted;
      var done;
      ghost var via;
      done, via, stopped, aborted := SettleBatches(positions, env);
      marks := observed + via;
      MarksCombine(l0.db, db1, db, settled1, settled, lost1, tainted, observed, via);
      MarkedTouches(l0, Now(), settled, marks, SelectedKeys(l0.db, now));
      DistinctAppend(seed, done);
      carried, left := seed + done, KeysOf(positions) - KeysOf(done);
      SeedIsCarried(KeysOf(seed), KeysOf(positions), KeysOf(done), observed, via);
      if left == {} { NothingLeft(KeysOf(positions), KeysOf(done)); }
      if aborted { return; }
      SplitHolds(l0.db, now, KeysOf(positions), KeysOf(seed), KeysOf(done), left, observed, via);
      ReadyForPhase2(l0.db, db, settled0, settled, prices0, prices, l0.attempted, redeemed, l0.tainted, tainted,
                     marks, KeysOf(carried), now);
      assert forall k :: k in KeysOf(carried) ==> Ready(k, db, settled, prices, redeemed, tainted);
    }

    /** Phase 2 of a cycle that reached it; with nothing settled there is none. */
    method DeliverPhase(carried: seq<Key>, ghost l0: Ledger, ghost marks: map<Key, Via>, ghost left: set<Key>, now: int,
                        env: Environment, ghost found: set<Key>)
      returns (ghost outcomes: map<Key, Outcome>, aborted: bool)
      requires Valid() && Distinct(carried) && AllComplete(KeysOf(carried), db)
      requires AllReady(KeysOf(carried), db, settled, prices, redeemed, tainted)
      requires Phase1Done(l0, Now(), settled, marks, KeysOf(carried), left, now)
      requires OutsideUntouched(l0, Now(), SelectedKeys(l0.db, now))
      requires reliable ==> NothingUnseen(env)
      requires FoundCarried(found, KeysOf(carried), marks)
      modifies this`db, this`attempted, this`redeemed, this`tainted
      ensures Valid() && OutsideUntouched(l0, Now(), SelectedKeys(l0.db, now))
      ensures SentOnlyTo(old(|attempted|), attempted, KeysOf(carried)) && old(attempted) <= attempted
      ensures old(tainted) <= tainted <= old(tainted) + KeysOf(carried)
      ensures reliable ==> tainted == old(tainted)
      ensures !aborted ==> CycleEnds(l0, Now(), settled, prices, env, outcomes, now)
      ensures !aborted ==> LeftAre(left, outcomes) && ObservedAre(found, outcomes)
      ensures aborted ==> !env.survives
    {
      hide Consistent, CycleEnds, OutcomesOf, FoundCarried, ObservedAre;
      ghost var l2, keys := Now(), KeysOf(carried);
      var cache: map<Feed, Option<int>>, results: map<Key, Option<TxHash>> := map[], map[];
      outcomes, aborted := map[], false;
      if carried != [] {
        cache, results, aborted := RunPhase2(carried, env);
      }
      TouchesChain(l0, l2, Now(), keys, SelectedKeys(l0.db, now));
      if !aborted {
        CycleCloses(l0, l2, Now(), settled, prices, env, marks, keys, left, now, cache, results);
        CarriedAreObserved(l0.db, marks, keys, left, cache, results, found);
        outcomes := OutcomesOf(l0.db, marks, keys, left, cache, results);
      }
    }

    /**
     * One settlement cycle. Whatever fails, and wherever it stops (`aborted`), the
     * invariant holds, redeems are sent only for selected vaults that are
     * deliverable, and rows that were not selected stand still. A cycle that runs
     * to its end gives every selected row one outcome and converges; it left rows
     * unsettled if and only if it stopped at a batch.
     */
    method SettleOnce(now: int, env: Environment) returns (ghost outcomes: map<Key, Outcome>, stopped: bool, aborted: bool)
      requires Valid() && (reliable ==> NothingUnseen(env))
      modifies this
      ensures Valid() && old(settled) <= settled && PricesGrow(old(prices), prices)
      ensures old(attempted) <= attempted && SentOnlyTo(old(|attempted|), attempted, SelectedKeys(old(db), now))
      ensures OutsideUntouched(old(Now()), Now(), SelectedKeys(old(db), now))
      ensures old(tainted) <= tainted <= old(tainted) + SelectedKeys(old(db), now)
      ensures reliable ==> tainted == old(tainted)
      ensures AllExercised(attempted, db, settled, prices)
      ensures aborted ==> !env.survives
      ensures !aborted ==> PricesSet(old(prices), prices, ExpiriesOf(old(db), SelectedKeys(old(db), now)), env)
      ensures !aborted ==> CycleEnds(old(Now()), Now(), settled, prices, env, outcomes, now)
      ensures !aborted ==> (stopped <==> exists k :: k in outcomes && outcomes[k].Left?)
      ensures AllConfirmed(env) ==> !stopped
      ensures NoneLands(env) ==> settled == old(settled)
      ensures !aborted && env.reconciles ==> ObservedAre(FoundSettled(ExpiredKeys(old(db), now), old(settled), env), outcomes)
    {
      ghost var l0, settled0 := Now(), settled;
      outcomes := map[];
      ghost var marks, left;
      var carried;
      carried, marks, left, stopped, aborted := SettlePhase(now, env);
      if !aborted {
        ghost var found := if env.reconciles then FoundSettled(ExpiredKeys(l0.db, now), settled0, env) else {};
        outcomes, aborted := DeliverPhase(carried, l0, marks, left, now, env, found);
      }
      if !aborted && stopped {
        ghost var k :| k in left;
        assert k in outcomes.Keys && outcomes[k].Left?;
      }
      ConsistentIsExercised(db, settled, prices, attempted, redeemed, tainted);
    }

    /**
     * Any number of cycles at any clocks, with rows added in between: the invariant is
     * all that is known of the state. With a reliable environment no vault at all is redeemed twice.
     */
    method RunCycles(clocks: seq<int>, arrivals: nat -> map<Key, Row>, envs: nat -> Environment)
      requires Valid() && (reliable ==> forall i :: NothingUnseen(envs(i)))
      modifies this
      ensures reliable && old(tainted) == {} ==> tainted == {} && forall k :: k in redeemed ==> redeemed[k] == 1
      ensures Valid() && old(settled) <= settled && PricesGrow(old(prices), prices)
      ensures forall k :: k in redeemed && k !in tainted ==> redeemed[k] == 1
      ensures AllExercised(attempted, db, settled, prices)
      ensures forall k :: k in db && db[k].isSettled ==> k in settled
    {
      for i := 0 to |clocks|
        invariant Valid() && old(settled) <= settled && PricesGrow(old(prices), prices)
        invariant reliable ==> tainted == old(tainted)
      {
        Arrive(arrivals(i));
        ghost var outcomes;
        var stopped, aborted;
        outcomes, stopped, aborted := SettleOnce(clocks[i], envs(i));
      }
      ConsistentIsExercised(db, settled, prices, attempted, redeemed, tainted);
    }

    /** The indexer adds rows, unsettled; of those offered, the ones with a new key. */
    method Arrive(rows: map<Key, Row>)
      requires Valid()
      modifies this`db
      ensures Valid() && forall k :: k in old(db) ==> k in db && db[k] == old(db)[k]
    {
      db := (map k | k in rows && !rows[k].isSettled :: rows[k]) + db;
    }
  }

  // ── What a finished cycle decides ──

  /** The outcome of a row that was not left is decided by its terms, the final price, and the answers to its redeem attempts. */
  lemma OutcomeIsDecided(l0: Ledger, l3: Ledger, settled: set<Key>, prices: map<Feed, int>, env: Environment,
                         outcomes: map<Key, Outcome>, now: int, k: Key)
    requires CycleEnds(l0, l3, settled, prices, env, outcomes, now) && k in outcomes && !outcomes[k].Left?
    ensures k in l0.db && l0.db[k].strike.Some? && l0.db[k].isPut.Some?
    ensures var row, o := l0.db[k], outcomes[k];
            var feed, strike := (row.asset, row.expiry), row.strike.value;
            && (o.Skipped? <==> !(env.readable(feed) && feed in prices))
            && (o.OutOfTheMoney? <==>
                  && env.readable(feed) && feed in prices
                  && if row.isPut.value then prices[feed] >= strike else prices[feed] <= strike)
            && (o.Delivered? <==>
                  && env.readable(feed) && feed in prices && row.maker.Some? && row.maker.value != ""
                  && (if row.isPut.value then prices[feed] < strike else prices[feed] > strike)
                  && exists a :: 1 <= a <= env.maxRetries && env.redeem(k, a).Confirmed?)
            && (o.Delivered? ==> exists a :: FirstConfirmed(env, k, a, o.tx))
  {
    assert k in outcomes.Keys && Selected(l0.db[k], now);
    assert Grounded(l0.db[k], k, outcomes[k], settled, prices, env);
    assert Fits(l0.db[k], outcomes[k]);
    GivesUpIff(env, k, Max(env.maxRetries, 0));
  }

  /** The row of an untainted vault after the cycle, column by column. */
  lemma RowTellsOutcome(l0: Ledger, l3: Ledger, settled: set<Key>, prices: map<Feed, int>, env: Environment,
                        outcomes: map<Key, Outcome>, now: int, k: Key)
    requires CycleEnds(l0, l3, settled, prices, env, outcomes, now) && k in outcomes && k !in l3.tainted
    ensures k in l0.db && k in l3.db
    ensures var b, a, o := l0.db[k], l3.db[k], outcomes[k];
            var feed := (b.asset, b.expiry);
            && a.asset == b.asset && a.expiry == b.expiry && a.strike == b.strike && a.isPut == b.isPut
            && a.amount == b.amount && a.maker == b.maker
            && (o.Left? ==> a == b.(isSettled := o.observed))
            && (!o.Left? ==> a.isSettled && (a.deliveryTx == if o.Delivered? then Some(o.tx) else b.deliveryTx))
            && (o.Skipped? ==> a.isItm == b.isItm && a.expiryPrice == b.expiryPrice)
            && (o.OutOfTheMoney? ==> a.isItm == Some(false))
            && (o.Skipped? || o.OutOfTheMoney? ==> a.settlementType == if o.via.Batched? then Some(Cash) else b.settlementType)
            && (o.Undeliverable? ==> a.isItm == Some(true) && a.settlementType == Some(PhysicalFailed))
            && (o.Delivered? ==> a.isItm == Some(true) && a.settlementType == Some(Physical))
            && (!o.Left? && !o.Skipped? ==> feed in prices && a.expiryPrice == Some(prices[feed]))
  {
    assert Grounded(l0.db[k], k, outcomes[k], settled, prices, env);
    assert Concluded(l0.db[k], l3.db[k], l0.redeemed[k], l3.redeemed[k], false, outcomes[k]);
  }

  /** An expired row whose vault is still unsettled on chain is left, and the next cycle selects it again. */
  lemma UnsettledIsSelectedAgain(l0: Ledger, l3: Ledger, settled: set<Key>, prices: map<Feed, int>, env: Environment,
                                 outcomes: map<Key, Outcome>, now: int, k: Key)
    requires CycleEnds(l0, l3, settled, prices, env, outcomes, now)
    requires k in ExpiredKeys(l0.db, now) && k !in settled && k !in l3.tainted
    ensures k in outcomes && outcomes[k] == Left(false) && k in l3.db && Selected(l3.db[k], now)
  {
    assert k in outcomes.Keys;
    assert Grounded(l0.db[k], k, outcomes[k], settled, prices, env);
    assert Unfinished(l3.db[k], outcomes[k]);
  }

  /** A cycle whose batch transactions are all refused: its one row, price or no price, is selected again. */
  method RefusedBatchIsSelectedAgain() returns (settler: Settler, k: Key, ghost outcomes: map<Key, Outcome>, stopped: bool)
    ensures fresh(settler) && settler.Valid() && stopped
    ensures k in outcomes && outcomes[k] == Left(false) && k in settler.db && Selected(settler.db[k], 0)
  {
    k := ("0xa", 1);
    var row := Row(0, Eth, Some(100), Some(true), Some(1), Some("0xb"), false, None, None, None, None);
    var env := Environment(map[], x => Some(90), f => true, f => Confirmed(1), true, f => true, v => true, b => Refused, (v, a) => NotSent, 3, true);
    settler := new Settler(map[k := row], true);
    ghost var l0 := settler.Now();
    assert k in ExpiredKeys(settler.db, 0);
    var aborted;
    outcomes, stopped, aborted := settler.SettleOnce(0, env);
    UnsettledIsSelectedAgain(l0, settler.Now(), settler.settled, settler.prices, env, outcomes, 0, k);
  }
}
