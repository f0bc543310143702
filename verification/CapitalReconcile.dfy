/**
 * Turning settled out-of-the-money positions back into deployable capital
 * (src/capital_intents/reconcile.py). An empty string stands for a missing or
 * NULL text column: the program treats the two alike.
 */
module CapitalReconcile {
  import opened Wrappers

  type Id = string

  datatype Status = Waiting | Deployed | AssignedRotating | Completed | Retryable | OtherStatus

  datatype Intent = Intent(
    status: Status, rotation: bool, bucket: string, receiver: string,
    sourceChain: string, sourceAccount: string, sourceTx: string,
    selectedChain: string, destinationChain: string, destinationAccount: string, destinationTx: string,
    amount: int, key: string)

  /** An order_events row; `collateral` is what int() makes of the column, if it accepts it. */
  datatype Event = Event(
    chain: string, user: string, isSettled: bool, settledAt: string, settlementTx: string,
    settlementType: string, isItm: bool, collateral: Option<int>)

  /** The two tables; order events are keyed by their tx_hash, which is unique. */
  datatype Db = Db(intents: map<Id, Intent>, events: map<string, Event>)

  datatype Settings = Settings(baseAdapter: string, solanaAccount: string)

  datatype Outcome = NoEvent | Unsettled | MarkedRetryable | MarkedAssigned | Resumed | Created | Unrotatable

  datatype Summary = Summary(inspected: nat, skippedUnsettled: nat, waitingCreated: nat,
                             alreadyReconciled: nat, markedAssigned: nat, markedRetryable: nat)

  // ── Reading one intent and its event ──

  function Or(a: string, b: string): string { if a != "" then a else b }

  predicate Venue(chain: string) { chain == "base" || chain == "solana" }

  predicate Eligible(i: Intent) {
    i.status == Deployed && i.destinationTx != "" && Venue(Or(i.selectedChain, i.destinationChain))
  }

  predicate Settled(e: Event) { e.isSettled || e.settledAt != "" || e.settlementTx != "" }

  predicate Assigned(e: Event) { e.isItm || e.settlementType == "physical" }

  function PositiveAmount(collateral: Option<int>): Option<int> {
    if collateral.Some? && collateral.value > 0 then collateral else None
  }

  function RotationChain(i: Intent, e: Event): string {
    Or(e.chain, Or(i.selectedChain, Or(i.destinationChain, "base")))
  }

  function VenueAccount(chain: string, e: Event, i: Intent, s: Settings): string {
    Or(if chain == "base" then s.baseAdapter else s.solanaAccount, Or(e.user, Or(i.destinationAccount, i.sourceAccount)))
  }

  function RotationRow(i: Intent, e: Event, key: string, s: Settings): Option<Intent> {
    var amount := PositiveAmount(e.collateral);
    var chain := RotationChain(i, e);
    if amount.None? || !Venue(chain) then None
    else
      var account := VenueAccount(chain, e, i, s);
      Some(Intent(Waiting, true, i.bucket, i.receiver, chain, account, Or(e.settlementTx, i.destinationTx),
                  "", "arc", Or(i.destinationAccount, account), "", amount.value, key))
  }

  // ── Idempotency keys ──

  function RotationKey(id: Id, tx: string): string { "rotation:" + id + ":" + tx }

  function SplitAtColon(s: string): Option<(string, string)> {
    if s == "" then None
    else if s[0] == ':' then Some(("", s[1..]))
    else
      match SplitAtColon(s[1..])
      case None => None
      case Some((a, b)) => Some(([s[0]] + a, b))
  }

  /** The intent and the transaction a rotation key names. */
  function ParseKey(key: string): Option<(Id, string)> {
    if "rotation:" <= key then SplitAtColon(key[9..]) else None
  }

  lemma {:induction false} SplitJoined(id: string, rest: string)
    requires ':' !in id
    ensures SplitAtColon(id + ":" + rest) == Some((id, rest))
  {
    var s := id + ":" + rest;
    if id == "" {
      assert s == ":" + rest && s[1..] == rest;
    } else {
      assert s[1..] == id[1..] + ":" + rest;
      SplitJoined(id[1..], rest);
      assert id == [id[0]] + id[1..];
    }
  }

  /** A key can be read back, so different (intent, transaction) pairs never share one. */
  lemma KeyRoundTrip(id: Id, tx: string)
    requires ':' !in id
    ensures ParseKey(RotationKey(id, tx)) == Some((id, tx)) && RotationKey(id, tx) != ""
  {
    assert RotationKey(id, tx)[9..] == id + ":" + tx;
    SplitJoined(id, tx);
  }

  // ── The invariant of the two tables ──

  predicate KeyTaken(db: Db, key: string) { exists r :: r in db.intents && db.intents[r].key == key }

  predicate HasRotation(db: Db, id: Id) {
    id in db.intents && KeyTaken(db, RotationKey(id, db.intents[id].destinationTx))
  }

  /** A row with a rotation key is the successor of a known intent and carries its event's positive collateral. */
  predicate Backed(db: Db, r: Id)
    requires r in db.intents
  {
    var origin := ParseKey(db.intents[r].key);
    origin.Some? ==>
      && origin.value.0 in db.intents
      && db.intents[origin.value.0].destinationTx == origin.value.1 != ""
      && origin.value.1 in db.events
      && db.events[origin.value.1].collateral == Some(db.intents[r].amount)
      && db.intents[r].amount > 0
      && db.intents[r].key == RotationKey(origin.value.0, origin.value.1)
  }

  predicate Inv(db: Db) {
    && (forall id :: id in db.intents ==> ':' !in id)
    && (forall r, q :: r in db.intents && q in db.intents && db.intents[r].key == db.intents[q].key != "" ==> r == q)
    && (forall r :: r in db.intents ==> Backed(db, r))
  }

  /**
   * What any other writer, including another reconcile run, may do meanwhile: rows
   * stay, with their key, amount and (once set) destination transaction; events stay
   * with their collateral. Statuses and all settlement columns are free.
   */
  predicate Persists(a: Db, b: Db) {
    && (forall id :: id in a.intents ==>
          && id in b.intents && b.intents[id].key == a.intents[id].key && b.intents[id].amount == a.intents[id].amount
          && (a.intents[id].destinationTx != "" ==> b.intents[id].destinationTx == a.intents[id].destinationTx))
    && (forall tx :: tx in a.events ==> tx in b.events && b.events[tx].collateral == a.events[tx].collateral)
  }

  /** However the runs interleave, an intent never has two successors. */
  lemma AtMostOneRotation(db: Db, id: Id, r: Id, q: Id)
    requires Inv(db) && r in db.intents && q in db.intents
    requires ParseKey(db.intents[r].key).Some? && ParseKey(db.intents[r].key).value.0 == id
    requires ParseKey(db.intents[q].key).Some? && ParseKey(db.intents[q].key).value.0 == id
    ensures r == q
  {
    assert Backed(db, r) && Backed(db, q);
    KeyRoundTrip(id, db.intents[id].destinationTx);
  }

  lemma RotationPersists(a: Db, b: Db, id: Id)
    requires Persists(a, b) && HasRotation(a, id) && a.intents[id].destinationTx != ""
    ensures HasRotation(b, id)
  {
    var r :| r in a.intents && a.intents[r].key == RotationKey(id, a.intents[id].destinationTx);
    assert r in b.intents;
  }

  lemma PersistsTransitive(a: Db, b: Db, c: Db)
    requires Persists(a, b) && Persists(b, c)
    ensures Persists(a, c)
  {
    forall id | id in a.intents
      ensures
        && id in c.intents && c.intents[id].key == a.intents[id].key && c.intents[id].amount == a.intents[id].amount
        && (a.intents[id].destinationTx != "" ==> c.intents[id].destinationTx == a.intents[id].destinationTx)
    {
      assert id in b.intents;
    }
  }

  /** The insert the unique index admits keeps the invariant. */
  lemma InsertKeepsInv(db: Db, id: Id, tx: string, newId: Id, row: Intent)
    requires Inv(db) && id in db.intents && db.intents[id].destinationTx == tx != "" && tx in db.events
    requires row.key == RotationKey(id, tx) && row.amount > 0 && db.events[tx].collateral == Some(row.amount)
    requires !KeyTaken(db, row.key) && newId !in db.intents && ':' !in newId
    ensures var after := db.(intents := db.intents[newId := row]);
            Inv(after) && Persists(db, after) && HasRotation(after, id)
  {
    var after := db.(intents := db.intents[newId := row]);
    KeyRoundTrip(id, tx);
    forall r | r in after.intents ensures Backed(after, r) {
      assert r != newId ==> Backed(db, r);
    }
    assert after.intents[newId].key == RotationKey(id, tx);
  }

  lemma StatusKeepsInv(db: Db, id: Id, status: Status)
    requires Inv(db) && id in db.intents
    ensures Inv(SetStatus(db, id, status)) && Persists(db, SetStatus(db, id, status))
  {
    var after := SetStatus(db, id, status);
    forall r | r in after.intents ensures Backed(after, r) {
      assert Backed(db, r);
    }
  }

  function SetStatus(db: Db, id: Id, status: Status): Db
    requires id in db.intents
  {
    db.(intents := db.intents[id := db.intents[id].(status := status)])
  }

  // ── What one undisturbed step does ──

  ghost predicate Rotated(a: Db, b: Db, id: Id, i: Intent, e: Event, s: Settings, outcome: Outcome)
    requires id in a.intents
  {
    var key := RotationKey(id, i.destinationTx);
    var row := RotationRow(i, e, key, s);
    if KeyTaken(a, key) then outcome == Resumed && b == SetStatus(a, id, Completed)
    else if row.None? then outcome == Unrotatable && b == a
    else
      && outcome == Created
      && (exists n :: n !in a.intents && b == SetStatus(a.(intents := a.intents[n := row.value]), id, Completed))
  }

  /** The effect of handling one intent, from the event alone. */
  ghost predicate Stepped(a: Db, b: Db, id: Id, i: Intent, s: Settings, outcome: Outcome)
    requires id in a.intents
  {
    var tx := i.destinationTx;
    if tx !in a.events then outcome == NoEvent && b == a
    else if !Settled(a.events[tx]) then outcome == Unsettled && b == a
    else if a.events[tx].settlementType == "physical_failed" then
      outcome == MarkedRetryable && b == SetStatus(a, id, Retryable)
    else if Assigned(a.events[tx]) then
      outcome == MarkedAssigned && b == SetStatus(a, id, AssignedRotating)
    else Rotated(a, b, id, i, a.events[tx], s, outcome)
  }

  // ── The same on the columns ──

  /** The first text that is not empty. */
  ghost function FirstSet(texts: seq<string>): string {
    if texts == [] then "" else if texts[0] != "" then texts[0] else FirstSet(texts[1..])
  }

  ghost predicate IsSettled(e: Event) { e.isSettled == true || e.settledAt != "" || e.settlementTx != "" }

  /** Neither assigned nor failed: the venue holds the collateral again. */
  ghost predicate OutOfTheMoney(e: Event) {
    IsSettled(e) && !e.isItm && e.settlementType != "physical" && e.settlementType != "physical_failed"
  }

  ghost function SourceChain(i: Intent, e: Event): string {
    FirstSet([e.chain, i.selectedChain, i.destinationChain, "base"])
  }

  ghost function SourceAccount(i: Intent, e: Event, s: Settings): string {
    FirstSet([if SourceChain(i, e) == "base" then s.baseAdapter else s.solanaAccount, e.user, i.destinationAccount, i.sourceAccount])
  }

  /** The event's collateral can be deployed again. */
  ghost predicate Rotatable(i: Intent, e: Event) {
    e.collateral.Some? && e.collateral.value > 0 && SourceChain(i, e) in {"base", "solana"}
  }

  /** What became of an intent that was inspected, from its event alone. */
  ghost predicate Reconciled(a: Db, b: Db, id: Id)
    requires id in a.intents && id in b.intents
  {
    var i, now := a.intents[id], b.intents[id];
    if i.destinationTx !in a.events || !IsSettled(a.events[i.destinationTx]) then now == i
    else
      var e := a.events[i.destinationTx];
      if e.settlementType == "physical_failed" then now == i.(status := Retryable)
      else if e.isItm || e.settlementType == "physical" then now == i.(status := AssignedRotating)
      else
        || (now == i && !Rotatable(i, e))
        || (now == i.(status := Completed)
            && exists r :: r in b.intents && b.intents[r].key == "rotation:" + id + ":" + i.destinationTx)
  }

  /** Row r redeploys the collateral of intent id's out-of-the-money event at the same venue, and the intent is completed. */
  ghost predicate Redeploys(a: Db, b: Db, id: Id, row: Intent, s: Settings)
    requires id in a.intents && id in b.intents
  {
    var i := a.intents[id];
    && i.destinationTx in a.events && b.intents[id] == i.(status := Completed)
    && var e := a.events[i.destinationTx];
       && OutOfTheMoney(e) && Rotatable(i, e)
       && row == WaitingRow(i, e, "rotation:" + id + ":" + i.destinationTx, s)
  }

  /** Every row added redeploys the collateral of some intent that was deployed on a venue. */
  ghost predicate OnlyRedeployed(a: Db, b: Db, s: Settings) {
    forall r :: r in b.intents && r !in a.intents ==>
      exists id :: id in a.intents && id in b.intents && OnVenue(a.intents[id]) && Redeploys(a, b, id, b.intents[r], s)
  }

  /** Deployed on a venue under a transaction: what a run reads. */
  ghost predicate OnVenue(i: Intent) {
    i.status == Deployed && i.destinationTx != "" && FirstSet([i.selectedChain, i.destinationChain]) in {"base", "solana"}
  }

  /** Nothing is left to do for the intent until its event changes. */
  ghost predicate Handled(db: Db, id: Id)
    requires id in db.intents
  {
    var i := db.intents[id];
    OnVenue(i) ==>
      || i.destinationTx !in db.events
      || !IsSettled(db.events[i.destinationTx])
      || !Rotatable(i, db.events[i.destinationTx])
  }

  lemma {:induction false} FirstSetIs(a: string, b: string, c: string, d: string)
    ensures FirstSet([a, b]) == Or(a, b)
    ensures FirstSet([a, b, c, d]) == Or(a, Or(b, Or(c, d)))
  {
    assert [a, b][1..] == [b] && [b][1..] == [] && [c, d][1..] == [d] && [d][1..] == [];
    assert FirstSet([b]) == b && FirstSet([d]) == d;
    assert FirstSet([c, d]) == Or(c, d);
    assert [b, c, d][1..] == [c, d];
    assert FirstSet([b, c, d]) == Or(b, Or(c, d));
    assert [a, b, c, d][1..] == [b, c, d];
  }

  lemma OnVenueIs(i: Intent)
    ensures OnVenue(i) <==> Eligible(i)
  {
    FirstSetIs(i.selectedChain, i.destinationChain, "", "");
  }

  /** The row that redeploys the collateral. */
  ghost function WaitingRow(i: Intent, e: Event, key: string, s: Settings): Intent
    requires e.collateral.Some?
  {
    Intent(Waiting, true, i.bucket, i.receiver, SourceChain(i, e), SourceAccount(i, e, s),
           FirstSet([e.settlementTx, i.destinationTx]), "", "arc",
           FirstSet([i.destinationAccount, SourceAccount(i, e, s)]), "", e.collateral.value, key)
  }

  /** The new row the program builds is the one the columns ask for. */
  lemma RotationRowIs(i: Intent, e: Event, key: string, s: Settings)
    ensures RotationRow(i, e, key, s).Some? <==> Rotatable(i, e)
    ensures RotationRow(i, e, key, s).Some? ==> RotationRow(i, e, key, s).value == WaitingRow(i, e, key, s)
  {
    FirstSetIs(e.chain, i.selectedChain, i.destinationChain, "base");
    FirstSetIs(e.settlementTx, i.destinationTx, "", "");
    var account := if SourceChain(i, e) == "base" then s.baseAdapter else s.solanaAccount;
    FirstSetIs(account, e.user, i.destinationAccount, i.sourceAccount);
    FirstSetIs(i.destinationAccount, SourceAccount(i, e, s), "", "");
  }

  /**
   * What a step leaves for the rest of the run: its own row reconciled, others as they
   * were, new rows waiting and backed by this intent.
   */
  ghost predicate StepFrame(a: Db, b: Db, id: Id, s: Settings, added: nat) {
    && id in a.intents && id in b.intents && Reconciled(a, b, id) && b.events == a.events && a.intents.Keys <= b.intents.Keys
    && (forall k :: k in a.intents && k != id ==> b.intents[k] == a.intents[k])
    && (forall k :: k in b.intents && k !in a.intents ==> Redeploys(a, b, id, b.intents[k], s))
    && |b.intents| == |a.intents| + added
  }

  lemma StatusFrame(a: Db, id: Id, status: Status, s: Settings)
    requires id in a.intents && Reconciled(a, SetStatus(a, id, status), id)
    ensures StepFrame(a, SetStatus(a, id, status), id, s, 0)
  {
    assert SetStatus(a, id, status).intents.Keys == a.intents.Keys;
  }

  lemma CreatedFrame(a: Db, id: Id, n: Id, s: Settings)
    requires id in a.intents && n !in a.intents && a.intents[id].destinationTx in a.events
    requires var i := a.intents[id];
             var e := a.events[i.destinationTx];
             OutOfTheMoney(e) && RotationRow(i, e, RotationKey(id, i.destinationTx), s).Some?
    ensures var i := a.intents[id];
            var row := RotationRow(i, a.events[i.destinationTx], RotationKey(id, i.destinationTx), s).value;
            StepFrame(a, SetStatus(a.(intents := a.intents[n := row]), id, Completed), id, s, 1)
  {
    var i := a.intents[id];
    var e := a.events[i.destinationTx];
    RotationRowIs(i, e, RotationKey(id, i.destinationTx), s);
    var row := RotationRow(i, e, RotationKey(id, i.destinationTx), s).value;
    hide RotationRow, FirstSet, IsSettled, SourceChain, SourceAccount;
    var b := SetStatus(a.(intents := a.intents[n := row]), id, Completed);
    assert b.intents.Keys == a.intents.Keys + {n};
    assert b.intents[n].key == "rotation:" + id + ":" + i.destinationTx;
  }

  lemma SteppedHandles(a: Db, b: Db, id: Id, s: Settings, outcome: Outcome)
    requires id in a.intents && Stepped(a, b, id, a.intents[id], s, outcome)
    ensures StepFrame(a, b, id, s, Additions(outcome))
  {
    hide RotationRow, FirstSet;
    var i := a.intents[id];
    if outcome == Created {
      var row := RotationRow(i, a.events[i.destinationTx], RotationKey(id, i.destinationTx), s).value;
      var n :| n !in a.intents && b == SetStatus(a.(intents := a.intents[n := row]), id, Completed);
      CreatedFrame(a, id, n, s);
    } else {
      SteppedReconciles(a, b, id, s, outcome);
      StatusFrame(a, id, b.intents[id].status, s);
    }
  }

  lemma SteppedReconciles(a: Db, b: Db, id: Id, s: Settings, outcome: Outcome)
    requires id in a.intents && Stepped(a, b, id, a.intents[id], s, outcome) && outcome != Created
    ensures id in b.intents && Reconciled(a, b, id) && b == SetStatus(a, id, b.intents[id].status)
  {
    var i := a.intents[id];
    if outcome == Unrotatable {
      RotationRowIs(i, a.events[i.destinationTx], RotationKey(id, i.destinationTx), s);
    }
    hide RotationRow, FirstSet;
    if outcome == Resumed {
      var r :| r in a.intents && a.intents[r].key == RotationKey(id, i.destinationTx);
      assert b.intents[r].key == "rotation:" + id + ":" + i.destinationTx;
    }
    assert outcome in {NoEvent, Unsettled, Unrotatable} ==> SetStatus(a, id, b.intents[id].status) == a;
  }

  /** The database can always name a new row. */
  lemma FreshId(ids: set<Id>)
    ensures exists n: Id :: n !in ids && ':' !in n
  {
    var longest := LongestOf(ids);
    var n: Id := seq(longest + 1, i => 'a');
    assert n !in ids && ':' !in n;
  }

  lemma LongestOf(ids: set<Id>) returns (longest: nat)
    ensures forall id :: id in ids ==> |id| <= longest
  {
    longest := 0;
    if ids != {} {
      var id :| id in ids;
      var rest := LongestOf(ids - {id});
      longest := if |id| > rest then |id| else rest;
    }
  }

  class Reconciler {
    const settings: Settings
    var db: Db
    /** The intents a run has marked completed. */
    ghost var completed: set<Id>

    constructor (db: Db, settings: Settings)
      requires Inv(db)
      ensures Valid() && this.db == db && this.settings == settings && completed == {}
    {
      this.db, this.settings, this.completed := db, settings, {};
    }

    /** Every intent a run completed has a successor, and only one (AtMostOneRotation). */
    ghost predicate Valid()
      reads this
    {
      Inv(db) && forall id :: id in completed ==> HasRotation(db, id) && db.intents[id].destinationTx != ""
    }

    /** Any number of steps of other writers; nothing when the run is alone. */
    method Interfere(alone: bool)
      requires Valid()
      modifies this`db
      ensures Valid() && Persists(old(db), db) && (alone ==> db == old(db))
    {
      var next: Db := *;
      if !alone && Persists(db, next) && Inv(next) {
        forall id | id in completed ensures HasRotation(next, id) {
          RotationPersists(db, next, id);
        }
        db := next;
      }
    }

    /** A status write: it is applied or not, and an applied one may still raise (neither when calm). */
    method UpdateStatus(id: Id, status: Status, calm: bool) returns (raised: bool)
      requires Valid() && id in db.intents
      modifies this`db
      ensures Valid() && Persists(old(db), db)
      ensures !raised ==> db == SetStatus(old(db), id, status)
      ensures db == old(db) || db == SetStatus(old(db), id, status)
      ensures calm ==> !raised
    {
      var applied: bool := *;
      raised := true;
      if applied || calm {
        StatusKeepsInv(db, id, status);
        ghost var after := SetStatus(db, id, status);
        forall k | k in completed ensures HasRotation(after, k) {
          RotationPersists(db, after, k);
        }
        db := SetStatus(db, id, status);
        raised := *;
        raised := raised && !calm;
      }
    }

    method MarkOriginalCompleted(id: Id, calm: bool) returns (raised: bool)
      requires Valid() && HasRotation(db, id) && db.intents[id].destinationTx != ""
      modifies this`db, this`completed
      ensures Valid() && Persists(old(db), db) && old(completed) <= completed <= old(completed) + {id}
      ensures !raised ==> db == SetStatus(old(db), id, Completed) && id in completed
      ensures calm ==> !raised
    {
      raised := UpdateStatus(id, Completed, calm);
      completed := completed + {id};
    }

    /** The insert: the unique index refuses a key that is taken. */
    method InsertRotation(id: Id, tx: string, row: Intent, calm: bool) returns (raised: bool)
      requires Valid() && id in db.intents && db.intents[id].destinationTx == tx != "" && tx in db.events
      requires row.key == RotationKey(id, tx) && row.amount > 0 && db.events[tx].collateral == Some(row.amount)
      modifies this`db
      ensures Valid() && Persists(old(db), db)
      ensures !raised ==> !KeyTaken(old(db), row.key) && HasRotation(db, id)
      ensures calm && !KeyTaken(old(db), row.key) ==> !raised
      ensures !raised ==> exists n :: n !in old(db).intents && db == old(db).(intents := old(db).intents[n := row])
    {
      FreshId(db.intents.Keys);
      var n: Id :| n !in db.intents.Keys && ':' !in n;
      var applied: bool := *;
      if !(applied || calm) || KeyTaken(db, row.key) {
        return true;
      }
      InsertKeepsInv(db, id, tx, n, row);
      ghost var after := db.(intents := db.intents[n := row]);
      forall k | k in completed ensures HasRotation(after, k) {
        RotationPersists(db, after, k);
      }
      db := db.(intents := db.intents[n := row]);
      raised := *;
      raised := raised && !calm;
    }

    /** One pass of the loop body, with other writers between any two database calls, each of which may raise. */
    method Handle(id: Id, i: Intent, alone: bool, calm: bool) returns (outcome: Outcome, raised: bool)
      requires Valid() && id in db.intents && i.destinationTx != "" && db.intents[id].destinationTx == i.destinationTx
      modifies this`db, this`completed
      ensures Valid() && Persists(old(db), db) && old(completed) <= completed <= old(completed) + {id}
      ensures alone && !raised ==> Stepped(old(db), db, id, i, settings, outcome)
      ensures alone && calm ==> !raised
    {
      outcome, raised := NoEvent, *;
      raised := raised && !calm;
      Interfere(alone);
      if raised { return; }
      var tx := i.destinationTx;
      if tx !in db.events { return; }
      var e := db.events[tx];
      Interfere(alone);
      if !Settled(e) {
        outcome := Unsettled;
      } else if e.settlementType == "physical_failed" {
        outcome := MarkedRetryable;
        raised := UpdateStatus(id, Retryable, calm);
      } else if Assigned(e) {
        outcome := MarkedAssigned;
        raised := UpdateStatus(id, AssignedRotating, calm);
      } else {
        outcome, raised := Rotate(id, i, e, alone, calm);
      }
    }

    /** The last part of the loop body: find or create the successor, then complete the original. */
    method Rotate(id: Id, i: Intent, e: Event, alone: bool, calm: bool) returns (outcome: Outcome, raised: bool)
      requires Valid() && id in db.intents && i.destinationTx != "" && db.intents[id].destinationTx == i.destinationTx
      requires i.destinationTx in db.events && db.events[i.destinationTx].collateral == e.collateral
      modifies this`db, this`completed
      ensures Valid() && Persists(old(db), db) && old(completed) <= completed <= old(completed) + {id}
      ensures alone && !raised ==> Rotated(old(db), db, id, i, e, settings, outcome)
      ensures alone && calm ==> !raised
    {
      outcome, raised := Unrotatable, *;
      raised := raised && !calm;
      if raised { return; }
      var key := RotationKey(id, i.destinationTx);
      if KeyTaken(db, key) {
        Interfere(alone);
        raised := MarkOriginalCompleted(id, calm);
        return Resumed, raised;
      }
      Interfere(alone);
      var rotation := RotationRow(i, e, key, settings);
      if rotation.None? { return Unrotatable, false; }
      raised := InsertRotation(id, i.destinationTx, rotation.value, calm);
      if raised { return Created, true; }
      Interfere(alone);
      raised := MarkOriginalCompleted(id, calm);
      outcome := Created;
    }

    /** _read_deployed_intents: at most `limit` deployed rows in any order, then the local filter. */
    method ReadDeployedIntents(limit: nat) returns (rows: seq<Id>)
      requires Valid()
      ensures NoRepeats(rows) && |rows| <= limit
      ensures forall id :: id in rows ==> id in db.intents && OnVenue(db.intents[id])
      ensures |DeployedIds(db)| <= limit ==>
                forall id :: id in db.intents && OnVenue(db.intents[id]) ==> id in rows
    {
      forall id | id in db.intents ensures OnVenue(db.intents[id]) <==> Eligible(db.intents[id]) {
        OnVenueIs(db.intents[id]);
      }
      hide OnVenue;
      rows := [];
      var left, read := set id | id in db.intents && db.intents[id].status == Deployed, 0;
      while left != {} && read < limit
        invariant read + |left| == |DeployedIds(db)| && |rows| <= read <= limit
        invariant left <= DeployedIds(db) && NoRepeats(rows)
        invariant forall id :: id in rows ==> id in db.intents && id !in left && Eligible(db.intents[id])
        invariant forall id :: id in db.intents && Eligible(db.intents[id]) ==> id in rows || id in left
        decreases left
      {
        var id: Id :| id in left;
        left, read := left - {id}, read + 1;
        if Eligible(db.intents[id]) {
          rows := rows + [id];
        }
      }
    }

    /**
     * reconcile_settled_positions. Other writers may act between any two calls and
     * any call may raise, ending the run. Left alone, a run whose calls go well (`calm`)
     * leaves nothing to do, and its count is the number of rows it added.
     */
    method ReconcileSettledPositions(limit: nat, alone: bool, calm: bool)
      returns (summary: Summary, rows: seq<Id>, raised: bool)
      requires Valid()
      modifies this`db, this`completed
      ensures Valid() && Persists(old(db), db) && old(completed) <= completed
      ensures alone && !raised ==> |db.intents| == |old(db).intents| + summary.waitingCreated
      ensures alone && !raised ==> OnlyRedeployed(old(db), db, settings)
      ensures alone && !raised ==> |rows| == summary.inspected && AllReconciled(old(db), db, rows)
      ensures alone && !raised ==> Tallied(old(db), rows, summary)
      ensures |DeployedIds(old(db))| <= limit ==>
                forall id :: id in old(db).intents && OnVenue(old(db).intents[id]) ==> id in rows
      ensures alone && !raised && |DeployedIds(old(db))| <= limit ==>
                forall id :: id in db.intents ==> Handled(db, id)
      ensures alone && calm ==> !raised
      ensures summary.inspected <= limit && Counted(summary) <= summary.inspected
    {
      ghost var start := db;
      rows := ReadDeployedIntents(limit);
      summary, raised := Summary(|rows|, 0, 0, 0, 0, 0), *;
      raised := raised && !calm;
      if !raised {
        summary, raised := HandleRows(rows, alone, calm);
        if alone && !raised {
          AllDone(start, db, rows, settings, summary.waitingCreated);
        }
      }
    }

    /** The loop over the intents read. */
    method HandleRows(rows: seq<Id>, alone: bool, calm: bool) returns (summary: Summary, raised: bool)
      requires Valid() && NoRepeats(rows) && forall k :: 0 <= k < |rows| ==> rows[k] in db.intents && OnVenue(db.intents[rows[k]])
      modifies this`db, this`completed
      ensures Valid() && Persists(old(db), db) && old(completed) <= completed
      ensures alone && !raised ==> Progress(old(db), db, rows, settings, |rows|, summary.waitingCreated)
      ensures alone && !raised ==> Tallied(old(db), rows, summary)
      ensures alone && calm ==> !raised
      ensures summary.inspected == |rows| && Counted(summary) <= |rows|
    {
      ProgressStarts(db, rows, settings);
      hide Progress, OnVenue, Inv, HasRotation, Persists, NoRepeats, Counted, Tallied, Counts, VerdictOf;
      ghost var start := db;
      var seen := db.intents;
      summary, raised := NothingCounted(|rows|), false;
      TalliedNothing(start, rows, summary);
      for k := 0 to |rows|
        invariant Valid() && Persists(start, db) && old(completed) <= completed
        invariant summary.inspected == |rows| && Counted(summary) <= k
        invariant alone ==> Progress(start, db, rows, settings, k, summary.waitingCreated)
        invariant alone ==> Tallied(start, rows[..k], summary)
      {
        var outcome;
        outcome, raised := HandleNext(rows, seen, k, alone, calm, start, summary.waitingCreated);
        if raised { return; }
        if alone { TalliedMore(start, rows, k, summary, outcome); }
        summary := Count(summary, outcome);
      }
      assert rows[..|rows|] == rows;
    }

    /** One row of the list. */
    method HandleNext(rows: seq<Id>, seen: map<Id, Intent>, k: nat, alone: bool, calm: bool, ghost start: Db, ghost added: nat)
      returns (outcome: Outcome, raised: bool)
      requires Valid() && Persists(start, db) && k < |rows| && NoRepeats(rows)
      requires rows[k] in start.intents && seen == start.intents && OnVenue(seen[rows[k]])
      requires alone ==> Progress(start, db, rows, settings, k, added)
      modifies this`db, this`completed
      ensures Valid() && Persists(start, db) && old(completed) <= completed
      ensures alone && !raised ==> Progress(start, db, rows, settings, k + 1, added + Additions(outcome))
      ensures alone && !raised ==> Counts(VerdictOf(start, rows[k]), outcome)
      ensures alone && calm ==> !raised
    {
      ghost var was := db;
      assert rows[k] in db.intents;
      outcome, raised := Handle(rows[k], seen[rows[k]], alone, calm);
      PersistsTransitive(start, was, db);
      if alone && !raised {
        assert rows[k] !in rows[..k];
        SteppedCounts(start, was, db, rows[k], settings, outcome);
        SteppedHandles(was, db, rows[k], settings, outcome);
        ProgressStep(start, was, db, rows, settings, k, added, Additions(outcome));
      }
    }
  }

  // ── One undisturbed run ──

  ghost predicate NoRepeats(rows: seq<Id>) { forall i, j :: 0 <= i < j < |rows| ==> rows[i] != rows[j] }

  ghost function DeployedIds(db: Db): set<Id> { set id | id in db.intents && db.intents[id].status == Deployed }

  function Counted(s: Summary): nat {
    s.skippedUnsettled + s.waitingCreated + s.alreadyReconciled + s.markedAssigned + s.markedRetryable
  }

  function NothingCounted(inspected: nat): (s: Summary)
    ensures s.inspected == inspected && s.waitingCreated == 0 && Counted(s) == 0
  {
    Summary(inspected, 0, 0, 0, 0, 0)
  }

  function Additions(outcome: Outcome): nat { if outcome == Created then 1 else 0 }

  function Count(s: Summary, outcome: Outcome): (r: Summary)
    ensures r.inspected == s.inspected && r.waitingCreated == s.waitingCreated + Additions(outcome)
    ensures Counted(r) == Counted(s) + if outcome == NoEvent || outcome == Unrotatable then 0 else 1
  {
    match outcome
    case NoEvent => s
    case Unrotatable => s
    case Unsettled => s.(skippedUnsettled := s.skippedUnsettled + 1)
    case MarkedRetryable => s.(markedRetryable := s.markedRetryable + 1)
    case MarkedAssigned => s.(markedAssigned := s.markedAssigned + 1)
    case Resumed => s.(alreadyReconciled := s.alreadyReconciled + 1)
    case Created => s.(waitingCreated := s.waitingCreated + 1)
  }

  /** The inspected intents are what their events make of them. */
  ghost predicate AllReconciled(start: Db, db: Db, rows: seq<Id>) {
    forall i :: 0 <= i < |rows| ==> rows[i] in start.intents && rows[i] in db.intents && Reconciled(start, db, rows[i])
  }

  /** What the event of an inspected intent calls for. */
  datatype Verdict = NothingYet | Wait | Retry | Assign | Free

  ghost function VerdictOf(start: Db, id: Id): Verdict
    requires id in start.intents
  {
    var tx := start.intents[id].destinationTx;
    if tx !in start.events then NothingYet
    else
      var e := start.events[tx];
      if !IsSettled(e) then Wait
      else if e.settlementType == "physical_failed" then Retry
      else if e.isItm || e.settlementType == "physical" then Assign
      else Free
  }

  ghost function Tally(start: Db, rows: seq<Id>, v: Verdict): nat {
    if rows == [] then 0
    else
      var last := rows[|rows| - 1];
      Tally(start, rows[..|rows| - 1], v) + if last in start.intents && VerdictOf(start, last) == v then 1 else 0
  }

  /** The summary counts the inspected intents by their events. */
  ghost predicate Tallied(start: Db, rows: seq<Id>, summary: Summary) {
    && summary.skippedUnsettled == Tally(start, rows, Wait)
    && summary.markedRetryable == Tally(start, rows, Retry)
    && summary.markedAssigned == Tally(start, rows, Assign)
    && summary.waitingCreated + summary.alreadyReconciled <= Tally(start, rows, Free)
  }

  ghost predicate Counts(v: Verdict, outcome: Outcome) {
    match v
    case NothingYet => outcome == NoEvent
    case Wait => outcome == Unsettled
    case Retry => outcome == MarkedRetryable
    case Assign => outcome == MarkedAssigned
    case Free => outcome == Resumed || outcome == Created || outcome == Unrotatable
  }

  lemma SteppedCounts(start: Db, a: Db, b: Db, id: Id, s: Settings, outcome: Outcome)
    requires id in start.intents && id in a.intents && a.intents[id] == start.intents[id] && a.events == start.events
    requires Stepped(a, b, id, a.intents[id], s, outcome)
    ensures Counts(VerdictOf(start, id), outcome)
  {}

  lemma TalliedNothing(start: Db, rows: seq<Id>, summary: Summary)
    requires summary == NothingCounted(|rows|)
    ensures Tallied(start, rows[..0], summary)
  {}

  lemma TalliedMore(start: Db, rows: seq<Id>, k: nat, summary: Summary, outcome: Outcome)
    requires k < |rows| && rows[k] in start.intents
    requires Tallied(start, rows[..k], summary) && Counts(VerdictOf(start, rows[k]), outcome)
    ensures Tallied(start, rows[..k + 1], Count(summary, outcome))
  {
    hide VerdictOf;
    assert rows[..k + 1][..k] == rows[..k];
  }

  /** After k of the rows: those are reconciled, the others untouched, and every new row redeploys one of them. */
  ghost predicate Progress(start: Db, db: Db, rows: seq<Id>, s: Settings, k: nat, added: nat)
    requires k <= |rows|
  {
    && start.intents.Keys <= db.intents.Keys && db.events == start.events
    && |db.intents| == |start.intents| + added
    && AllReconciled(start, db, rows[..k])
    && (forall id :: id in start.intents && id !in rows[..k] ==> db.intents[id] == start.intents[id])
    && OnlyRedeployed(start, db, s)
  }

  lemma ProgressStarts(start: Db, rows: seq<Id>, s: Settings)
    ensures Progress(start, start, rows, s, 0, 0) && Persists(start, start)
  {}

  lemma ProgressStep(start: Db, before: Db, after: Db, rows: seq<Id>, s: Settings, k: nat, added: nat, more: nat)
    requires k < |rows| && NoRepeats(rows) && rows[k] in start.intents && OnVenue(start.intents[rows[k]])
    requires Progress(start, before, rows, s, k, added) && StepFrame(before, after, rows[k], s, more)
    ensures Progress(start, after, rows, s, k + 1, added + more)
  {
    assert start.intents[rows[k]].status == Deployed;
    hide OnVenue, FirstSet, Rotatable, IsSettled;
    assert rows[k] !in rows[..k];
    ReconciledStep(start, before, after, rows, k);
    RedeployedStep(start, before, after, rows[k], s, more);
    assert rows[..k + 1] == rows[..k] + [rows[k]];
  }

  lemma ReconciledStep(start: Db, before: Db, after: Db, rows: seq<Id>, k: nat)
    requires k < |rows| && NoRepeats(rows) && rows[k] in start.intents && rows[k] in after.intents
    requires AllReconciled(start, before, rows[..k]) && before.events == start.events
    requires rows[k] in before.intents && before.intents[rows[k]] == start.intents[rows[k]]
    requires Reconciled(before, after, rows[k]) && before.intents.Keys <= after.intents.Keys
    requires forall j :: j in before.intents && j != rows[k] ==> after.intents[j] == before.intents[j]
    ensures AllReconciled(start, after, rows[..k + 1])
  {
    hide FirstSet, Rotatable, IsSettled;
    KeysStay(before, after, rows[k]);
    forall i | 0 <= i < k + 1 ensures rows[i] in start.intents && rows[i] in after.intents && Reconciled(start, after, rows[i]) {
      if i < k {
        assert rows[..k][i] == rows[i] && rows[i] != rows[k];
      }
    }
  }

  lemma KeysStay(before: Db, after: Db, id: Id)
    requires id in before.intents && before.intents.Keys <= after.intents.Keys && Reconciled(before, after, id)
    requires forall j :: j in before.intents && j != id ==> after.intents[j] == before.intents[j]
    ensures forall r :: r in before.intents ==> r in after.intents && after.intents[r].key == before.intents[r].key
  {
    assert after.intents[id].key == before.intents[id].key;
  }

  lemma RedeployedStep(start: Db, before: Db, after: Db, id: Id, s: Settings, more: nat)
    requires OnlyRedeployed(start, before, s) && StepFrame(before, after, id, s, more) && before.events == start.events
    requires start.intents.Keys <= before.intents.Keys
    requires id in start.intents && OnVenue(start.intents[id]) && before.intents[id] == start.intents[id]
    requires start.intents[id].status == Deployed
    ensures OnlyRedeployed(start, after, s)
  {
    hide FirstSet, Rotatable, OutOfTheMoney, OnVenue;
    forall r | r in after.intents && r !in start.intents
      ensures exists q :: q in start.intents && q in after.intents && OnVenue(start.intents[q]) && Redeploys(start, after, q, after.intents[r], s)
    {
      if r in before.intents {
        var q :| q in start.intents && q in before.intents && OnVenue(start.intents[q]) && Redeploys(start, before, q, before.intents[r], s);
        assert q != id && r != id;
        assert Redeploys(start, after, q, after.intents[r], s);
      } else {
        assert Redeploys(start, after, id, after.intents[r], s);
      }
    }
  }

  /** A row that was added waits; so do all that were, and the others were inspected or are not on a venue. */
  lemma AllDone(start: Db, db: Db, rows: seq<Id>, s: Settings, added: nat)
    requires Progress(start, db, rows, s, |rows|, added)
    ensures AllReconciled(start, db, rows) && OnlyRedeployed(start, db, s) && |db.intents| == |start.intents| + added
    ensures (forall id :: id in start.intents && OnVenue(start.intents[id]) ==> id in rows) ==>
              forall id :: id in db.intents ==> Handled(db, id)
  {
    hide FirstSet, Rotatable, IsSettled;
    assert rows[..|rows|] == rows;
    if forall id :: id in start.intents && OnVenue(start.intents[id]) ==> id in rows {
      forall id | id in db.intents ensures Handled(db, id) {
        if id in rows {
          var i :| 0 <= i < |rows| && rows[i] == id;
          assert Reconciled(start, db, id);
        } else if id in start.intents {
          assert db.intents[id] == start.intents[id];
        }
      }
    }
  }
}
