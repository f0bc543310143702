/**
 * The money side of reconciliation: what the successors of settled intents carry,
 * against the collateral of the order events they were made from.
 */
module CapitalConservation {
  import opened Wrappers
  import opened CapitalReconcile

  // ── Sums over finite maps ──

  ghost function Sum(m: map<string, int>): int {
    if m == map[] then 0
    else
      var k :| k in m;
      m[k] + Sum(m - {k})
  }

  lemma {:induction false} SumRemove(m: map<string, int>, k: string)
    requires k in m
    ensures Sum(m) == m[k] + Sum(m - {k})
    decreases |m|
  {
    var j :| j in m && Sum(m) == m[j] + Sum(m - {j});
    if j != k {
      SumRemove(m - {j}, k);
      SumRemove(m - {k}, j);
      assert m - {j} - {k} == m - {k} - {j};
    }
  }

  ghost predicate Along(a: map<string, int>, b: map<string, int>, h: map<string, string>) {
    && h.Keys == a.Keys
    && (forall y :: y in b <==> exists x :: x in h && h[x] == y)
    && (forall x :: x in a ==> a[x] == b[h[x]] > 0)
  }

  ghost predicate Injective(h: map<string, string>) {
    forall x, y :: x in h && y in h && h[x] == h[y] ==> x == y
  }

  /** Leaving out a key whose image another key shares. */
  lemma WithoutShared(a: map<string, int>, b: map<string, int>, h: map<string, string>, x: string, z: string)
    requires Along(a, b, h) && x in a && z in h && z != x && h[z] == h[x]
    ensures Along(a - {x}, b, h - {x}) && !Injective(h)
  {
    var rest := h - {x};
    forall y | y in b ensures exists w :: w in rest && rest[w] == y {
      var w :| w in h && h[w] == y;
      assert (if w == x then z else w) in rest;
    }
  }

  /** Leaving out a key that has its image to itself. */
  lemma WithoutOwn(a: map<string, int>, b: map<string, int>, h: map<string, string>, x: string)
    requires Along(a, b, h) && x in a && forall z :: z in h && z != x ==> h[z] != h[x]
    ensures Along(a - {x}, b - {h[x]}, h - {x}) && (Injective(h - {x}) <==> Injective(h))
  {
    var rest, left := h - {x}, b - {h[x]};
    forall y | y in left ensures exists w :: w in rest && rest[w] == y {
      var w :| w in h && h[w] == y;
      assert w in rest;
    }
    if Injective(h) {
      forall p, q | p in rest && q in rest && rest[p] == rest[q] ensures p == q {
        assert h[p] == h[q];
      }
    }
    if Injective(rest) {
      forall p, q | p in h && q in h && h[p] == h[q] ensures p == q {
        assert p != x && q != x ==> p in rest && q in rest;
      }
    }
  }

  /**
   * Moving a positive map along h: the sum over the image is never larger, and it
   * is the same exactly when h sends no two keys to one place.
   */
  lemma {:induction false} SumAlong(a: map<string, int>, b: map<string, int>, h: map<string, string>)
    requires Along(a, b, h)
    ensures Sum(b) <= Sum(a) && (Sum(a) == Sum(b) <==> Injective(h))
    decreases |a|
  {
    if a == map[] {
      assert h == map[];
      assert b == map[] by {
        assert forall y :: y !in b;
      }
    } else {
      var x :| x in a;
      SumRemove(a, x);
      if z :| z in h && z != x && h[z] == h[x] {
        WithoutShared(a, b, h, x, z);
        SumAlong(a - {x}, b, h - {x});
      } else {
        WithoutOwn(a, b, h, x);
        SumAlong(a - {x}, b - {h[x]}, h - {x});
        SumRemove(b, h[x]);
      }
    }
  }

  // ── Capital ──

  /** A successor made by the reconciler. */
  predicate IsRotation(db: Db, r: Id) { r in db.intents && ParseKey(db.intents[r].key).Some? }

  function OriginOf(db: Db, r: Id): Id
    requires IsRotation(db, r)
  {
    ParseKey(db.intents[r].key).value.0
  }

  function FillOf(db: Db, r: Id): string
    requires IsRotation(db, r)
  {
    ParseKey(db.intents[r].key).value.1
  }

  function Created(db: Db): map<Id, int> {
    map r | r in db.intents && IsRotation(db, r) :: db.intents[r].amount
  }

  function Origins(db: Db): map<Id, Id> { map r | r in db.intents && IsRotation(db, r) :: OriginOf(db, r) }

  function Fills(db: Db): map<Id, string> { map r | r in db.intents && IsRotation(db, r) :: FillOf(db, r) }

  function Collateral(e: Event): int { if e.collateral.Some? then e.collateral.value else 0 }

  /** Per rotated intent, the collateral of its order event. */
  function Released(db: Db): map<Id, int>
    requires Inv(db)
  {
    map id | id in Origins(db).Values && id in db.intents && db.intents[id].destinationTx in db.events
      :: Collateral(db.events[db.intents[id].destinationTx])
  }

  /** Per order event that some rotation names, its collateral, counted once. */
  function Used(db: Db): map<string, int> {
    map tx | tx in Fills(db).Values && tx in db.events :: Collateral(db.events[tx])
  }

  /** No two rotated intents were deployed by the same transaction. */
  ghost predicate NoSharedFill(db: Db) {
    forall r, q :: IsRotation(db, r) && IsRotation(db, q) && FillOf(db, r) == FillOf(db, q) ==> OriginOf(db, r) == OriginOf(db, q)
  }

  lemma OneRotationPerOrigin(db: Db)
    requires Inv(db)
    ensures Injective(Origins(db))
  {
    forall r, q | r in Origins(db) && q in Origins(db) && Origins(db)[r] == Origins(db)[q] ensures r == q {
      AtMostOneRotation(db, OriginOf(db, r), r, q);
    }
  }

  lemma CreatedAlong(db: Db)
    requires Inv(db)
    ensures Along(Created(db), Released(db), Origins(db)) && Along(Created(db), Used(db), Fills(db))
  {
    forall r | r in Created(db)
      ensures Origins(db)[r] in Released(db) && Fills(db)[r] in Used(db)
      ensures Created(db)[r] == Released(db)[Origins(db)[r]] == Used(db)[Fills(db)[r]] > 0
    {
      assert Backed(db, r);
      assert Origins(db)[r] in Origins(db).Values && Fills(db)[r] in Fills(db).Values;
    }
  }

  /**
   * Conservation. The waiting capital the reconciler has created is the summed
   * collateral of the rotated intents. Counting every order event once, it is never
   * less than the collateral of the events used, and equal to it exactly when no
   * two rotated intents name one transaction.
   */
  lemma CapitalIsConservedIff(db: Db)
    requires Inv(db)
    ensures Sum(Created(db)) == Sum(Released(db)) >= Sum(Used(db))
    ensures Sum(Created(db)) == Sum(Used(db)) <==> NoSharedFill(db)
  {
    CreatedAlong(db);
    OneRotationPerOrigin(db);
    SumAlong(Created(db), Released(db), Origins(db));
    SumAlong(Created(db), Used(db), Fills(db));
    if NoSharedFill(db) {
      forall r, q | r in Fills(db) && q in Fills(db) && Fills(db)[r] == Fills(db)[q] ensures r == q {
        AtMostOneRotation(db, OriginOf(db, r), r, q);
      }
    } else {
      var r, q :| IsRotation(db, r) && IsRotation(db, q) && FillOf(db, r) == FillOf(db, q) && OriginOf(db, r) != OriginOf(db, q);
      assert r in Fills(db) && q in Fills(db) && r != q && Fills(db)[r] == Fills(db)[q];
    }
  }

  /** The rotations and the collateral behind them survive any interleaving of writers. */
  lemma CapitalPersists(a: Db, b: Db, r: Id)
    requires Persists(a, b) && IsRotation(a, r)
    ensures IsRotation(b, r) && Created(b)[r] == Created(a)[r] && OriginOf(b, r) == OriginOf(a, r)
  {
    assert r in a.intents;
  }

  // ── The assumptions are needed ──

  function DeployedBy(tx: string): Intent {
    Intent(Deployed, false, "", "", "", "", "", "base", "", "", tx, 5, "")
  }

  function OutOfTheMoney(collateral: int): Event { Event("base", "u", true, "", "", "cash", false, Some(collateral)) }

  /** Two intents deployed by one transaction, and its settled event with a collateral of 5. */
  function SharedFill(): Db {
    Db(map["a" := DeployedBy("t"), "b" := DeployedBy("t")], map["t" := OutOfTheMoney(5)])
  }

  function RotatedRow(id: Id, s: Settings): Intent {
    RotationRow(DeployedBy("t"), OutOfTheMoney(5), RotationKey(id, "t"), s).value
  }

  function Rotate(db: Db, id: Id, n: Id, s: Settings): Db
    requires id in db.intents
  {
    SetStatus(db.(intents := db.intents[n := RotatedRow(id, s)]), id, Completed)
  }

  lemma RotatesFresh(db: Db, id: Id, n: Id, s: Settings)
    requires id in db.intents && n !in db.intents && db.events == map["t" := OutOfTheMoney(5)]
    requires !KeyTaken(db, RotationKey(id, "t"))
    ensures Stepped(db, Rotate(db, id, n, s), id, DeployedBy("t"), s, Outcome.Created)
  {}

  /**
   * Two intents deployed by one transaction: both are rotated with its whole
   * collateral, and the second rotation is not refused.
   */
  lemma SharedFillDoublesCapital(s: Settings)
    ensures var db := SharedFill();
            Inv(db) && db.intents["a"] == db.intents["b"] && Stepped(db, Rotate(db, "a", "x", s), "a", db.intents["a"], s, Outcome.Created)
    ensures var db := Rotate(SharedFill(), "a", "x", s);
            "b" in db.intents && Stepped(db, Rotate(db, "b", "y", s), "b", db.intents["b"], s, Outcome.Created)
    ensures RotatedRow("a", s).amount == RotatedRow("b", s).amount == 5
  {
    var db := SharedFill();
    KeyRoundTrip("a", "t");
    KeyRoundTrip("b", "t");
    RotatesFresh(db, "a", "x", s);
    RotatesFresh(Rotate(db, "a", "x", s), "b", "y", s);
  }

  /**
   * An intent is rotated again exactly when no row holds the key of its present
   * destination transaction; so an intent whose transaction is replaced after a
   * rotation gets a second one.
   */
  lemma RotatedAgainIff(a: Db, b: Db, id: Id, s: Settings, outcome: Outcome)
    requires id in a.intents && Eligible(a.intents[id]) && Stepped(a, b, id, a.intents[id], s, outcome)
    requires a.intents[id].destinationTx in a.events
    requires var e := a.events[a.intents[id].destinationTx];
      && Settled(e) && e.settlementType != "physical_failed" && !Assigned(e)
      && PositiveAmount(e.collateral).Some? && Venue(RotationChain(a.intents[id], e))
    ensures outcome == Outcome.Created <==> !HasRotation(a, id)
    ensures outcome == Outcome.Resumed <==> HasRotation(a, id)
    ensures HasRotation(b, id) && b.intents[id].status == Completed
  {
    var tx := a.intents[id].destinationTx;
    var key := RotationKey(id, tx);
    if KeyTaken(a, key) {
      var r :| r in a.intents && a.intents[r].key == key;
      assert r in b.intents && b.intents[r].key == key;
    } else {
      var row := RotationRow(a.intents[id], a.events[tx], key, s).value;
      var n :| n !in a.intents && b == SetStatus(a.(intents := a.intents[n := row]), id, Completed);
      assert b.intents[n].key == key;
    }
  }
}
