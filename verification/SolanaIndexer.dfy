/**
 * Indexing a Solana program's transactions through a paged, newest-first history
 * that grows while it is read (src/bots/solana_event_indexer.py).
 */
module SolanaIndexer {
  import opened Wrappers

  const PAGE_LIMIT := 100

  type Signature = string

  /** One history entry; `order` is what the transaction's logs decode to, if it fills an order. */
  datatype Item = Item(signature: Signature, slot: int, failed: bool, settledStatus: bool, blockTime: Option<int>, order: Option<int>)

  predicate Accepted(item: Item) { !item.failed && item.settledStatus }

  ghost predicate Unique(chain: seq<Item>) {
    forall i, j :: 0 <= i < j < |chain| ==> chain[i].signature != chain[j].signature
  }

  /** The accepted entries of a stretch of history (oldest first), newest first. */
  function NewestFirst(s: seq<Item>): seq<Item> {
    if s == [] then []
    else (if Accepted(s[|s| - 1]) then [s[|s| - 1]] else []) + NewestFirst(s[..|s| - 1])
  }

  function Reverse(s: seq<Item>): seq<Item> {
    if s == [] then [] else [s[|s| - 1]] + Reverse(s[..|s| - 1])
  }

  function AcceptedOf(page: seq<Item>): seq<Item> {
    if page == [] then []
    else AcceptedOf(page[..|page| - 1]) + if Accepted(page[|page| - 1]) then [page[|page| - 1]] else []
  }

  predicate TooOld(item: Item, since: Option<int>) {
    since.Some? && item.blockTime.Some? && item.blockTime.value < since.value
  }

  /** Without a cursor, collecting stops at the first entry before the cut-off. */
  function UntilOld(s: seq<Item>, since: Option<int>): seq<Item> {
    if s == [] || TooOld(s[0], since) then [] else [s[0]] + UntilOld(s[1..], since)
  }

  // ── Sequences ──

  lemma {:induction false} NewestFirstConcat(a: seq<Item>, b: seq<Item>)
    ensures NewestFirst(a + b) == NewestFirst(b) + NewestFirst(a)
  {
    if b == [] {
      assert a + b == a;
    } else {
      assert (a + b)[..|a + b| - 1] == a + b[..|b| - 1];
      NewestFirstConcat(a, b[..|b| - 1]);
    }
  }

  lemma {:induction false} AcceptedOfConcat(a: seq<Item>, b: seq<Item>)
    ensures AcceptedOf(a + b) == AcceptedOf(a) + AcceptedOf(b)
  {
    if b == [] {
      assert a + b == a;
    } else {
      assert (a + b)[..|a + b| - 1] == a + b[..|b| - 1];
      AcceptedOfConcat(a, b[..|b| - 1]);
    }
  }

  lemma {:induction false} AcceptedOfReverse(s: seq<Item>)
    ensures AcceptedOf(Reverse(s)) == NewestFirst(s) && |Reverse(s)| == |s|
    ensures s != [] ==> Reverse(s)[|s| - 1] == s[0]
  {
    if s != [] {
      AcceptedOfReverse(s[..|s| - 1]);
      AcceptedOfConcat([s[|s| - 1]], Reverse(s[..|s| - 1]));
      assert AcceptedOf([s[|s| - 1]]) == if Accepted(s[|s| - 1]) then [s[|s| - 1]] else [];
    }
  }

  lemma {:induction false} UntilOldPrefix(recent: seq<Item>, rest: seq<Item>, since: Option<int>)
    requires forall i :: 0 <= i < |recent| ==> !TooOld(recent[i], since)
    ensures UntilOld(recent + rest, since) == recent + UntilOld(rest, since)
  {
    if recent == [] {
      assert recent + rest == rest;
    } else {
      assert (recent + rest)[1..] == recent[1..] + rest;
      UntilOldPrefix(recent[1..], rest, since);
    }
  }

  lemma {:induction false} NewestFirstIn(s: seq<Item>)
    ensures forall x :: x in NewestFirst(s) <==> x in s && Accepted(x)
  {
    if s != [] {
      NewestFirstIn(s[..|s| - 1]);
      assert forall x :: x in s <==> x in s[..|s| - 1] || x == s[|s| - 1];
    }
  }

  /** The first collected entry is the newest accepted one: nothing accepted lies above it. */
  lemma {:induction false} HeadIsNewest(s: seq<Item>) returns (m: nat)
    requires NewestFirst(s) != []
    ensures m < |s| && s[m] == NewestFirst(s)[0] && Accepted(s[m])
    ensures forall i :: m < i < |s| ==> !Accepted(s[i])
  {
    if Accepted(s[|s| - 1]) {
      m := |s| - 1;
    } else {
      m := HeadIsNewest(s[..|s| - 1]);
      assert forall i :: 0 <= i < |s| - 1 ==> s[..|s| - 1][i] == s[i];
    }
  }

  // ── Storage ──

  function StoreRows(stored: map<Signature, int>, rows: seq<Item>): map<Signature, int>
    requires forall x :: x in rows ==> x.order.Some?
  {
    if rows == [] then stored
    else
      var init, last := rows[..|rows| - 1], rows[|rows| - 1];
      assert last in rows && forall x :: x in init ==> x in rows;
      StoreRows(stored, init)[last.signature := last.order.value]
  }

  predicate Has(stored: map<Signature, int>, x: Item)
    requires x.order.Some?
  {
    x.signature in stored && stored[x.signature] == x.order.value
  }

  lemma {:induction false} StoredRowsAreHad(stored: map<Signature, int>, rows: seq<Item>, chain: seq<Item>, x: Item)
    requires forall y :: y in rows ==> y.order.Some? && y in chain
    requires Unique(chain) && x in chain && x.order.Some?
    ensures x in rows || Has(stored, x) ==> Has(StoreRows(stored, rows), x)
  {
    if rows != [] {
      var init, last := rows[..|rows| - 1], rows[|rows| - 1];
      assert last in rows && forall y :: y in init ==> y in rows;
      StoredRowsAreHad(stored, init, chain, x);
      if x.signature == last.signature {
        var i :| 0 <= i < |chain| && chain[i] == x;
        var j :| 0 <= j < |chain| && chain[j] == last;
      }
      assert x in rows ==> x in init || x == last;
    }
  }

  /** Every accepted order after the first cursor and up to the current one is stored. */
  ghost predicate GapFree(chain: seq<Item>, lastSignature: Option<Signature>, stored: map<Signature, int>, start: int, cursor: int) {
    && Unique(chain) && -1 <= start <= cursor < |chain|
    && (lastSignature.None? <==> cursor == -1)
    && (lastSignature.Some? ==> chain[cursor].signature == lastSignature.value)
    && (forall i :: start < i <= cursor && !chain[i].failed && chain[i].settledStatus && chain[i].order.Some? ==>
          chain[i].signature in stored && stored[chain[i].signature] == chain[i].order.value)
  }

  lemma GapFreeGrows(chain: seq<Item>, more: seq<Item>, lastSignature: Option<Signature>, stored: map<Signature, int>,
                     start: int, cursor: int)
    requires GapFree(chain, lastSignature, stored, start, cursor) && ExtendsUniquely(chain, more)
    ensures GapFree(chain + more, lastSignature, stored, start, cursor)
  {}

  lemma GapFreeStores(chain: seq<Item>, rows: seq<Item>, lastSignature: Option<Signature>, stored: map<Signature, int>,
                      start: int, cursor: int)
    requires GapFree(chain, lastSignature, stored, start, cursor)
    requires forall y :: y in rows ==> y.order.Some? && y in chain
    ensures GapFree(chain, lastSignature, StoreRows(stored, rows), start, cursor)
  {
    StoreCovers(chain, stored, rows);
    forall i | start < i <= cursor && Accepted(chain[i]) && chain[i].order.Some?
      ensures Has(StoreRows(stored, rows), chain[i])
    {
      assert Has(stored, chain[i]);
    }
  }

  /** The cursor may move up to `to` once all collected orders are stored, and the covered range starts at `from`. */
  lemma CursorAdvances(chain: seq<Item>, lastSignature: Option<Signature>, before: map<Signature, int>,
                       signatures: seq<Item>, rows: seq<Item>, start: int, cursor: int, from: int, to: int)
    requires GapFree(chain, lastSignature, before, start, cursor) && start <= from <= to && cursor < to < |chain|
    requires forall x :: x in rows <==> x.order.Some? && x in signatures
    requires forall x :: x in signatures ==> x in chain
    requires forall i :: from < i <= to && cursor < i && Accepted(chain[i]) ==> chain[i] in signatures
    ensures GapFree(chain, Some(chain[to].signature), StoreRows(before, rows), from, to)
  {
    StoreCovers(chain, before, rows);
    forall i | from < i <= to && Accepted(chain[i]) && chain[i].order.Some?
      ensures Has(StoreRows(before, rows), chain[i])
    {
      assert i <= cursor ==> Has(before, chain[i]);
    }
  }

  /** Everything accepted above the entry that ended the collecting was collected; without a cut-off nothing ends it. */
  lemma {:induction false} CollectedAbove(s: seq<Item>, since: Option<int>) returns (p: int)
    ensures EndsCollecting(s, since, p)
    ensures forall i :: p < i < |s| && Accepted(s[i]) ==> s[i] in UntilOld(NewestFirst(s), since)
  {
    hide NewestFirst, UntilOld;
    p := -1;
    if s != [] {
      var init, last := s[..|s| - 1], s[|s| - 1];
      if Accepted(last) && TooOld(last, since) {
        p := |s| - 1;
      } else {
        p := CollectedAbove(init, since);
        assert forall i :: 0 <= i < |init| ==> init[i] == s[i];
        LastIsFirst(init, last, since);
        assert s == init + [last];
      }
    }
  }

  lemma LastIsFirst(init: seq<Item>, last: Item, since: Option<int>)
    requires Accepted(last) ==> !TooOld(last, since)
    ensures UntilOld(NewestFirst(init + [last]), since)
         == (if Accepted(last) then [last] else []) + UntilOld(NewestFirst(init), since)
  {
    var s := init + [last];
    assert s[..|s| - 1] == init;
    if Accepted(last) {
      assert NewestFirst(s) == [last] + NewestFirst(init);
      assert NewestFirst(s)[1..] == NewestFirst(init);
    } else {
      assert NewestFirst(s) == [] + NewestFirst(init) == NewestFirst(init);
    }
  }

  /** The history's start, or an accepted entry before the cut-off. */
  ghost predicate EndsCollecting(h: seq<Item>, since: Option<int>, p: int) {
    && -1 <= p < |h|
    && (p >= 0 ==> !h[p].failed && h[p].settledStatus && since.Some? && h[p].blockTime.Some? && h[p].blockTime.value < since.value)
  }

  /** Where the cursor and the start of the covered range go when the run's rows are stored. */
  lemma Advance(h: seq<Item>, chain: seq<Item>, lastSignature: Option<Signature>, before: map<Signature, int>,
                signatures: seq<Item>, rows: seq<Item>, start: int, cursor: int, since: Option<int>)
    returns (to: int, from: int)
    requires GapFree(chain, lastSignature, before, start, cursor) && h <= chain && cursor < |h| && signatures != []
    requires signatures == UntilOld(NewestFirst(h[cursor + 1..]), since) && (lastSignature.Some? ==> since.None?)
    requires forall x :: x in rows <==> x.order.Some? && x in signatures
    requires forall x :: x in signatures ==> x in chain
    ensures GapFree(chain, Some(signatures[0].signature), StoreRows(before, rows), from, to)
    ensures cursor < to && NothingAbove(h, to)
    ensures if lastSignature.Some? then from == start else EndsCollecting(h, since, from)
  {
    var p;
    to, p := NewRange(h, chain, cursor + 1, since);
    hide NewestFirst, UntilOld;
    from := if lastSignature.Some? then start else p;
    assert lastSignature.None? ==> h[0..] == h;
    CursorAdvances(chain, lastSignature, before, signatures, rows, start, cursor, from, to);
  }

  /** The newest collected entry, the entry that ended the collecting, and everything accepted between them. */
  lemma NewRange(h: seq<Item>, chain: seq<Item>, lo: nat, since: Option<int>) returns (to: int, p: int)
    requires h <= chain && lo <= |h| && UntilOld(NewestFirst(h[lo..]), since) != []
    ensures lo <= to < |h| && chain[to] == UntilOld(NewestFirst(h[lo..]), since)[0] && NothingAbove(h, to)
    ensures EndsCollecting(h[lo..], since, p) && lo + p <= to && (since.None? ==> p == -1)
    ensures forall i :: lo + p < i <= to && Accepted(chain[i]) ==> chain[i] in UntilOld(NewestFirst(h[lo..]), since)
  {
    var s := h[lo..];
    CollectedIsNewest(s, since);
    hide NewestFirst, UntilOld;
    var m := HeadIsNewest(s);
    p := CollectedAbove(s, since);
    to := lo + m;
    forall i | lo <= i < |h| ensures s[i - lo] == h[i] == chain[i] {}
  }

  class Indexer {
    /** The program's finalized history, oldest first. */
    var chain: seq<Item>
    /** solana_indexer_state.last_signature and the order_events rows. */
    var lastSignature: Option<Signature>
    var stored: map<Signature, int>
    /** Where the stored cursor points, and above which entry everything up to it is covered. */
    ghost var cursor: int
    ghost var start: int

    constructor (chain: seq<Item>)
      requires Unique(chain)
      ensures Valid() && this.chain == chain && lastSignature.None?
    {
      this.chain, this.lastSignature, this.stored, this.cursor, this.start := chain, None, map[], -1, -1;
    }

    ghost predicate Valid()
      reads this
    {
      GapFree(chain, lastSignature, stored, start, cursor)
    }

    method Arrive(more: seq<Item>)
      requires Valid() && ExtendsUniquely(chain, more)
      modifies this`chain
      ensures Valid() && chain == old(chain) + more
    {
      GapFreeGrows(chain, more, lastSignature, stored, start, cursor);
      chain := chain + more;
    }

    method IndexOf(signature: Signature) returns (at: nat)
      requires Unique(chain) && exists i :: 0 <= i < |chain| && chain[i].signature == signature
      ensures at < |chain| && chain[at].signature == signature
    {
      at := 0;
      while chain[at].signature != signature
        invariant at < |chain| && exists i :: at <= i < |chain| && chain[i].signature == signature
        decreases |chain| - at
      {
        at := at + 1;
      }
    }

    /** get_signatures_for_address: entries below `before` and above `until`, newest first, at most a page. */
    method FetchPage(before: Option<Signature>, until: Option<Signature>, ghost lo: nat, ghost hi: nat)
      returns (page: seq<Item>)
      requires Unique(chain) && lo <= hi <= |chain|
      requires if before.None? then hi == |chain| else hi < |chain| && chain[hi].signature == before.value
      requires if until.None? then lo == 0 else lo > 0 && chain[lo - 1].signature == until.value
      ensures page == Reverse(chain[PageStart(lo, hi)..hi])
    {
      var top := |chain|;
      if before.Some? { top := IndexOf(before.value); }
      var bottom := 0;
      if until.Some? {
        var at := IndexOf(until.value);
        bottom := at + 1;
      }
      page := Reverse(chain[PageStart(bottom, top)..top]);
    }

    /** One page of the collecting loop: `finished` when there is nothing more to read. */
    method ReadPage(collected: seq<Item>, before: Option<Signature>, since: Option<int>,
                    ghost h: seq<Item>, ghost lo: nat, ghost hi: nat)
      returns (all: seq<Item>, finished: bool, next: Option<Signature>, ghost from: nat)
      requires Valid() && lo == cursor + 1 <= hi <= |h| && h <= chain
      requires if before.None? then hi == |h| && h == chain else hi < |h| && h[hi].signature == before.value
      requires collected == NewestFirst(h[hi..]) && NoneTooOld(collected, since)
      ensures finished ==> all == UntilOld(NewestFirst(h[lo..]), since)
      ensures !finished ==> lo <= from < hi && next == Some(h[from].signature)
      ensures !finished ==> all == NewestFirst(h[from..]) && NoneTooOld(all, since)
    {
      all, finished, next, from := collected, true, None, PageStart(lo, hi);
      var page := FetchPage(before, lastSignature, lo, hi);
      assert chain[from..hi] == h[from..hi];
      PageIsStretch(h, from, hi);
      if page == [] {
        AllRecent(collected, since);
        return;
      }
      var stop;
      all, stop := ScanPage(collected, page, since);
      if stop {
        StopsInside(h, lo, from, hi, since);
        return;
      }
      if |page| < PAGE_LIMIT {
        AllRecent(all, since);
        return;
      }
      finished, next := false, Some(page[|page| - 1].signature);
    }

    /**
     * _collect_candidate_signatures. New entries may arrive before every page; the
     * result is what the history held when the first page was read.
     */
    method CollectCandidates(dayStart: int, arrivals: nat -> seq<Item>) returns (collected: seq<Item>)
      requires Valid()
      modifies this`chain
      ensures Valid() && old(chain) <= chain
      ensures collected == UntilOld(NewestFirst(old(chain)[cursor + 1..]), Cutoff(lastSignature, dayStart))
    {
      ghost var h, lo, hi := chain, cursor + 1, |chain|;
      var since := Cutoff(lastSignature, dayStart);
      var before: Option<Signature>, pages, finished := None, 0, false;
      collected := [];
      while !finished
        invariant lo <= hi <= |h| && h <= chain && Valid()
        invariant if before.None? then hi == |h| && (h == chain || finished) else hi < |h| && h[hi].signature == before.value
        invariant !finished ==> collected == NewestFirst(h[hi..]) && NoneTooOld(collected, since)
        invariant finished ==> collected == UntilOld(NewestFirst(h[lo..]), since)
        decreases !finished, hi
      {
        if before.Some? && ExtendsUniquely(chain, arrivals(pages)) {
          Arrive(arrivals(pages));
        }
        var next;
        ghost var from;
        collected, finished, next, from := ReadPage(collected, before, since, h, lo, hi);
        if !finished {
          before, hi := next, from;
        }
        pages := pages + 1;
      }
    }

    /** The inner loop over one page. */
    method ScanPage(collected: seq<Item>, page: seq<Item>, since: Option<int>) returns (all: seq<Item>, stop: bool)
      requires NoneTooOld(collected, since)
      ensures all == collected + UntilOld(AcceptedOf(page), since)
      ensures stop <==> exists x :: x in AcceptedOf(page) && TooOld(x, since)
      ensures !stop ==> all == collected + AcceptedOf(page)
      ensures !stop ==> NoneTooOld(all, since)
    {
      all, stop := collected, false;
      for i := 0 to |page|
        invariant all == collected + AcceptedOf(page[..i])
        invariant forall j :: 0 <= j < |all| ==> !TooOld(all[j], since)
      {
        assert page[..i + 1][..i] == page[..i];
        assert page == page[..i + 1] + page[i + 1..];
        if Accepted(page[i]) {
          if TooOld(page[i], since) {
            AcceptedOfConcat(page[..i + 1], page[i + 1..]);
            var taken, rest := AcceptedOf(page[..i]), [page[i]] + AcceptedOf(page[i + 1..]);
            assert AcceptedOf(page) == taken + rest;
            assert forall j :: 0 <= j < |taken| ==> taken[j] == all[|collected| + j];
            UntilOldPrefix(taken, rest, since);
            assert page[i] in AcceptedOf(page);
            return all, true;
          }
          all := all + [page[i]];
        }
      }
      assert page[..|page|] == page;
      var taken := AcceptedOf(page);
      assert forall j :: 0 <= j < |taken| ==> taken[j] == all[|collected| + j];
      UntilOldPrefix(taken, [], since);
      assert taken + [] == taken;
    }

    /**
     * One run of index_once. A failed page, a missing transaction, a failed decode or
     * store, or a failed cursor write ends it (none of them when calm); the cursor only
     * moves when all was stored, and then nothing accepted that the history held at the
     * first page lies above it. The first run covers everything accepted down to the
     * first entry before the day.
     */
    method IndexOnce(dayStart: int, arrivals: nat -> seq<Item>, calm: bool) returns (raised: bool)
      requires Valid()
      modifies this
      ensures Valid() && old(chain) <= chain && old(cursor) <= cursor
      ensures old(lastSignature).Some? ==> start == old(start)
      ensures old(lastSignature).None? && lastSignature.Some? ==> EndsCollecting(old(chain), Some(dayStart), start)
      ensures !raised && lastSignature.Some? ==> NothingAbove(old(chain), cursor)
      ensures !raised && lastSignature.None? ==> UntilOld(NewestFirst(old(chain)), Some(dayStart)) == []
      ensures calm ==> !raised
    {
      hide NewestFirst, UntilOld;
      ghost var h, lo, since := chain, cursor + 1, Cutoff(lastSignature, dayStart);
      var signatures := CollectCandidates(dayStart, arrivals);
      raised := *;
      raised := raised && !calm;
      if raised { return; }
      if signatures == [] {
        assert h[0..] == h;
        NothingCollected(h, lo, since);
        return;
      }
      CollectedFromChain(chain, h, lo, since);
      var rows;
      rows, raised := FetchRows(signatures, calm);
      if !raised {
        raised := StoreAndAdvance(signatures, rows, h, since, calm);
      }
    }

    /** The end of index_once: the rows are upserted, then the cursor is written; each may land although it raises. */
    method StoreAndAdvance(signatures: seq<Item>, rows: seq<Item>, ghost h: seq<Item>, ghost since: Option<int>,
                           calm: bool)
      returns (raised: bool)
      requires Valid() && h <= chain && cursor < |h| && signatures != []
      requires signatures == UntilOld(NewestFirst(h[cursor + 1..]), since) && (lastSignature.Some? ==> since.None?)
      requires forall x :: x in rows <==> x.order.Some? && x in signatures
      requires forall x :: x in signatures ==> x in chain
      modifies this`stored, this`lastSignature, this`cursor, this`start
      ensures Valid() && old(cursor) <= cursor
      ensures old(lastSignature).Some? ==> start == old(start)
      ensures old(lastSignature).None? && lastSignature.Some? ==> EndsCollecting(h, since, start)
      ensures calm ==> !raised
      ensures !raised ==> NothingAbove(h, cursor) && lastSignature == Some(signatures[0].signature)
    {
      GapFreeStores(chain, rows, lastSignature, stored, start, cursor);
      ghost var to, from := Advance(h, chain, lastSignature, stored, signatures, rows, start, cursor, since);
      var stores: bool := *;
      raised := *;
      stores, raised := stores || calm, !calm && (raised || !stores);
      if stores { stored := StoreRows(stored, rows); }
      if raised { return; }
      var moves: bool := *;
      raised := *;
      moves, raised := moves || calm, !calm && (raised || !moves);
      if moves {
        lastSignature, cursor, start := Some(signatures[0].signature), to, from;
      }
    }

    /** Fetching and decoding oldest first: the rows of the transactions that fill an order. */
    method FetchRows(signatures: seq<Item>, calm: bool) returns (rows: seq<Item>, raised: bool)
      ensures calm ==> !raised
      ensures !raised ==> forall x :: x in rows <==> x.order.Some? && x in signatures
    {
      rows, raised := [], false;
      var i := |signatures|;
      while i > 0
        invariant 0 <= i <= |signatures|
        invariant forall x :: x in rows <==> x.order.Some? && x in signatures[i..]
      {
        raised := *;
        raised := raised && !calm;
        if raised { return; }
        i := i - 1;
        assert signatures[i..] == [signatures[i]] + signatures[i + 1..];
        if signatures[i].order.Some? {
          rows := rows + [signatures[i]];
        }
      }
      assert signatures[0..] == signatures;
    }
  }

  /** Storing rows of the chain adds them and disturbs no other entry of the chain. */
  lemma StoreCovers(chain: seq<Item>, stored: map<Signature, int>, rows: seq<Item>)
    requires Unique(chain) && forall y :: y in rows ==> y.order.Some? && y in chain
    ensures forall x :: x in chain && x.order.Some? && (x in rows || Has(stored, x)) ==> Has(StoreRows(stored, rows), x)
  {
    forall x | x in chain && x.order.Some? && (x in rows || Has(stored, x)) ensures Has(StoreRows(stored, rows), x) {
      StoredRowsAreHad(stored, rows, chain, x);
    }
  }

  lemma {:induction false} UntilOldIsPart(s: seq<Item>, since: Option<int>)
    ensures UntilOld(s, since) <= s
    ensures since.None? ==> UntilOld(s, since) == s
  {
    if s != [] && !TooOld(s[0], since) {
      UntilOldIsPart(s[1..], since);
      assert s == [s[0]] + s[1..];
    }
  }

  lemma CollectedIsNewest(s: seq<Item>, since: Option<int>)
    requires UntilOld(NewestFirst(s), since) != []
    ensures NewestFirst(s) != [] && UntilOld(NewestFirst(s), since)[0] == NewestFirst(s)[0]
  {
    UntilOldIsPart(NewestFirst(s), since);
  }

  /** Every accepted entry of the history is at or below the cursor. */
  ghost predicate NothingAbove(h: seq<Item>, cursor: int) {
    forall i :: cursor < i < |h| && 0 <= i ==> h[i].failed || !h[i].settledStatus
  }

  lemma NothingCollected(h: seq<Item>, lo: nat, since: Option<int>)
    requires lo <= |h| && UntilOld(NewestFirst(h[lo..]), since) == []
    ensures since.None? ==> NothingAbove(h, lo - 1)
  {
    UntilOldIsPart(NewestFirst(h[lo..]), since);
    NewestFirstIn(h[lo..]);
    if since.None? {
      forall i | lo <= i < |h| ensures !Accepted(h[i]) {
        assert h[lo..][i - lo] == h[i];
      }
    }
  }

  lemma CollectedFromChain(chain: seq<Item>, h: seq<Item>, lo: nat, since: Option<int>)
    requires h <= chain && lo <= |h|
    ensures forall x :: x in UntilOld(NewestFirst(h[lo..]), since) ==> x in chain
  {
    var all := NewestFirst(h[lo..]);
    var part := UntilOld(all, since);
    UntilOldIsPart(all, since);
    NewestFirstIn(h[lo..]);
    forall x | x in part ensures x in chain {
      var i :| 0 <= i < |part| && part[i] == x;
      assert all[i] == x && x in all && x in h[lo..];
      var j :| 0 <= j < |h[lo..]| && h[lo..][j] == x;
      assert chain[lo + j] == x;
    }
  }

  function Cutoff(lastSignature: Option<Signature>, dayStart: int): Option<int> {
    if lastSignature.Some? then None else Some(dayStart)
  }

  ghost predicate NoneTooOld(s: seq<Item>, since: Option<int>) { forall i :: 0 <= i < |s| ==> !TooOld(s[i], since) }

  lemma SplitHistory(h: seq<Item>, a: nat, b: nat)
    requires a <= b <= |h|
    ensures NewestFirst(h[a..]) == NewestFirst(h[b..]) + NewestFirst(h[a..b])
  {
    NewestFirstConcat(h[a..b], h[b..]);
    assert h[a..b] + h[b..] == h[a..];
  }

  /** A page is the accepted part of its stretch of history, newest first. */
  lemma PageIsStretch(h: seq<Item>, from: nat, hi: nat)
    requires from <= hi <= |h|
    ensures var page := Reverse(h[from..hi]);
            && |page| == hi - from && (from < hi ==> page[|page| - 1] == h[from])
            && NewestFirst(h[from..]) == NewestFirst(h[hi..]) + AcceptedOf(page)
  {
    AcceptedOfReverse(h[from..hi]);
    SplitHistory(h, from, hi);
  }

  lemma AllRecent(s: seq<Item>, since: Option<int>)
    requires NoneTooOld(s, since)
    ensures UntilOld(s, since) == s
  {
    UntilOldPrefix(s, [], since);
    assert s + [] == s;
  }

  lemma {:induction false} StopsWithin(accepted: seq<Item>, rest: seq<Item>, since: Option<int>)
    requires exists x :: x in accepted && TooOld(x, since)
    ensures UntilOld(accepted + rest, since) == UntilOld(accepted, since)
  {
    if !TooOld(accepted[0], since) {
      assert (accepted + rest)[1..] == accepted[1..] + rest;
      var x :| x in accepted && TooOld(x, since);
      assert x in accepted[1..];
      StopsWithin(accepted[1..], rest, since);
    }
  }

  /** Stopping inside a page gives what reading on to the end and cutting would give. */
  lemma StopsInside(h: seq<Item>, lo: nat, from: nat, hi: nat, since: Option<int>)
    requires lo <= from <= hi <= |h|
    requires NoneTooOld(NewestFirst(h[hi..]), since)
    requires exists x :: x in AcceptedOf(Reverse(h[from..hi])) && TooOld(x, since)
    ensures UntilOld(NewestFirst(h[lo..]), since)
         == NewestFirst(h[hi..]) + UntilOld(AcceptedOf(Reverse(h[from..hi])), since)
  {
    var base, accepted, rest := NewestFirst(h[hi..]), AcceptedOf(Reverse(h[from..hi])), NewestFirst(h[lo..from]);
    PageIsStretch(h, from, hi);
    SplitHistory(h, lo, from);
    assert (base + accepted) + rest == base + (accepted + rest);
    UntilOldPrefix(base, accepted + rest, since);
    StopsWithin(accepted, rest, since);
  }

  function PageStart(lo: nat, hi: nat): (from: nat)
    requires lo <= hi
    ensures lo <= from <= hi && (hi - from < PAGE_LIMIT ==> from == lo) && (from == hi ==> lo == hi)
  {
    if hi - lo > PAGE_LIMIT then hi - PAGE_LIMIT else lo
  }

  predicate ExtendsUniquely(chain: seq<Item>, more: seq<Item>) {
    forall i, j :: 0 <= i < j < |chain + more| ==> (chain + more)[i].signature != (chain + more)[j].signature
  }
}
