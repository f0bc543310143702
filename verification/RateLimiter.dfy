/**
 * The per-address sliding-window rate limiters (src/api/routes.py), with their
 * eviction of stale addresses. The clock is monotonic and real-valued; the two
 * limiters of the program differ in the maximum only (5 and 30 per minute).
 */
module RateLimiter {

  const WINDOW := 60.0
  const MAX_TRACKED := 10000

  datatype Request = Request(ip: string, at: real)

  // ── Recent hits ──

  /** The hits that still count at an instant. */
  function Recent(hits: seq<real>, now: real): seq<real> {
    if hits == [] then []
    else Recent(hits[..|hits| - 1], now) + if now - hits[|hits| - 1] < WINDOW then [hits[|hits| - 1]] else []
  }

  ghost predicate SortedUpTo(hits: seq<real>, now: real) {
    && (forall i, j :: 0 <= i < j < |hits| ==> hits[i] <= hits[j])
    && (forall i :: 0 <= i < |hits| ==> hits[i] <= now)
  }

  lemma RecentAppend(hits: seq<real>, t: real, now: real)
    ensures Recent(hits + [t], now) == Recent(hits, now) + if now - t < WINDOW then [t] else []
  {
    assert (hits + [t])[..|hits|] == hits;
  }

  /** Forgetting what no longer counts changes nothing later. */
  lemma {:induction false} RecentOfRecent(hits: seq<real>, earlier: real, now: real)
    requires earlier <= now
    ensures Recent(Recent(hits, earlier), now) == Recent(hits, now)
  {
    if hits != [] {
      var init, t := hits[..|hits| - 1], hits[|hits| - 1];
      RecentOfRecent(init, earlier, now);
      RecentAppend(Recent(init, earlier), t, now);
      assert Recent(init, earlier) + [] == Recent(init, earlier);
    }
  }

  lemma {:induction false} RecentIsSorted(hits: seq<real>, now: real, bound: real)
    requires SortedUpTo(hits, bound)
    ensures SortedUpTo(Recent(hits, now), bound)
  {
    if hits != [] {
      RecentIsSorted(hits[..|hits| - 1], now, hits[|hits| - 1]);
    }
  }

  /** If the newest hit is stale, all are: that is why looking at it is enough to evict. */
  lemma {:induction false} StaleNewest(hits: seq<real>, now: real)
    requires SortedUpTo(hits, now) && (hits == [] || now - hits[|hits| - 1] >= WINDOW)
    ensures Recent(hits, now) == []
  {
    if hits != [] {
      var init := hits[..|hits| - 1];
      assert init != [] ==> init[|init| - 1] <= hits[|hits| - 1];
      StaleNewest(init, now);
    }
  }

  // ── The reference: a limiter that keeps everything ──

  /** The accepted instants of one address. */
  function Accepted(requests: seq<Request>, ip: string, max: nat): seq<real>
    decreases |requests|, 1
  {
    if requests == [] then []
    else
      var init, r := requests[..|requests| - 1], requests[|requests| - 1];
      if r.ip == ip && Allows(init, r, max) then Accepted(init, ip, max) + [r.at] else Accepted(init, ip, max)
  }

  /** Whether a request is let through: fewer than max accepted in the window before it. */
  predicate Allows(before: seq<Request>, r: Request, max: nat)
    decreases |before|, 2
  {
    |Recent(Accepted(before, r.ip, max), r.at)| < max
  }

  ghost predicate Monotonic(requests: seq<Request>) {
    forall i, j :: 0 <= i < j < |requests| ==> requests[i].at <= requests[j].at
  }

  function InWindow(hits: seq<real>, start: real): seq<real> {
    if hits == [] then []
    else
      var t := hits[|hits| - 1];
      InWindow(hits[..|hits| - 1], start) + if start <= t < start + WINDOW then [t] else []
  }

  /** Hits of a window that is still open count at that moment. */
  lemma {:induction false} WindowWithinRecent(hits: seq<real>, start: real, now: real)
    requires now < start + WINDOW
    ensures |InWindow(hits, start)| <= |Recent(hits, now)|
  {
    if hits != [] {
      WindowWithinRecent(hits[..|hits| - 1], start, now);
    }
  }

  /** No address has more than max accepted requests in any half-open window. */
  lemma {:induction false} AtMostMaxPerWindow(requests: seq<Request>, ip: string, max: nat, start: real)
    ensures |InWindow(Accepted(requests, ip, max), start)| <= max
    decreases |requests|
  {
    if requests != [] {
      var init, r := requests[..|requests| - 1], requests[|requests| - 1];
      AtMostMaxPerWindow(init, ip, max, start);
      var before := Accepted(init, ip, max);
      if r.ip == ip && Allows(init, r, max) {
        assert (before + [r.at])[..|before|] == before;
        if start <= r.at < start + WINDOW {
          WindowWithinRecent(before, start, r.at);
        }
      }
    }
  }

  lemma {:induction false} AcceptedIsSorted(requests: seq<Request>, ip: string, max: nat, now: real)
    requires Monotonic(requests) && forall i :: 0 <= i < |requests| ==> requests[i].at <= now
    ensures SortedUpTo(Accepted(requests, ip, max), now)
    decreases |requests|
  {
    if requests != [] {
      AcceptedIsSorted(requests[..|requests| - 1], ip, max, requests[|requests| - 1].at);
    }
  }

  /** Of sorted hits, m or more count exactly when the m-th newest one is less than a minute old. */
  lemma {:induction false} RecentCount(hits: seq<real>, now: real, m: nat)
    requires SortedUpTo(hits, now)
    ensures |Recent(hits, now)| <= |hits|
    ensures |Recent(hits, now)| >= m <==> m == 0 || (|hits| >= m && now - hits[|hits| - m] < 60.0)
  {
    if hits != [] {
      var init, last := hits[..|hits| - 1], hits[|hits| - 1];
      RecentCount(init, now, if m > 0 then m - 1 else 0);
      if now - last >= 60.0 {
        StaleNewest(hits, now);
      }
    }
  }

  /** A request is let through exactly when the max-th newest one let through before it is a minute old or more, or missing. */
  lemma AllowsIff(before: seq<Request>, r: Request, max: nat)
    requires Monotonic(before + [r])
    ensures var hits := Accepted(before, r.ip, max);
            Allows(before, r, max) <==> max > 0 && (|hits| < max || r.at - hits[|hits| - max] >= 60.0)
  {
    hide *;
    AcceptedBefore(before, r, max);
    RecentCount(Accepted(before, r.ip, max), r.at, max);
    CountDecides(before, r, max);
  }

  lemma CountDecides(before: seq<Request>, r: Request, max: nat)
    ensures Allows(before, r, max) <==> !(|Recent(Accepted(before, r.ip, max), r.at)| >= max)
  {}

  lemma AcceptedBefore(before: seq<Request>, r: Request, max: nat)
    requires Monotonic(before + [r])
    ensures SortedUpTo(Accepted(before, r.ip, max), r.at)
  {
    assert forall i :: 0 <= i < |before| ==> before[i] == (before + [r])[i];
    assert (before + [r])[|before|] == r;
    AcceptedIsSorted(before, r.ip, max, r.at);
  }

  /** Any max + 1 requests let through in a row span at least a minute. */
  lemma {:induction false} AcceptedAreSpaced(requests: seq<Request>, ip: string, max: nat, i: nat)
    requires Monotonic(requests) && i + max < |Accepted(requests, ip, max)|
    ensures max > 0 && Accepted(requests, ip, max)[i + max] - Accepted(requests, ip, max)[i] >= 60.0
    decreases |requests|
  {
    var init, r := requests[..|requests| - 1], requests[|requests| - 1];
    var before := Accepted(init, ip, max);
    assert requests == init + [r];
    if i + max < |before| {
      AcceptedAreSpaced(init, ip, max, i);
    } else {
      AllowsIff(init, r, max);
    }
  }

  // ── The limiter ──

  function HitsOf(hits: map<string, seq<real>>, ip: string): seq<real> {
    if ip in hits then hits[ip] else []
  }

  /** What is kept for an address counts the same, from now on, as its whole accepted history. */
  ghost predicate Agrees(kept: seq<real>, requests: seq<Request>, ip: string, max: nat, now: real) {
    SortedUpTo(kept, now) && Recent(kept, now) == Recent(Accepted(requests, ip, max), now)
  }

  ghost predicate AllAgree(hits: map<string, seq<real>>, requests: seq<Request>, max: nat, now: real) {
    forall ip :: Agrees(HitsOf(hits, ip), requests, ip, max, now)
  }

  lemma AgreesLater(kept: seq<real>, requests: seq<Request>, ip: string, max: nat, now: real, later: real)
    requires Agrees(kept, requests, ip, max, now) && now <= later
    ensures Agrees(kept, requests, ip, max, later)
  {
    RecentOfRecent(kept, now, later);
    RecentOfRecent(Accepted(requests, ip, max), now, later);
  }

  lemma AllAgreeLater(hits: map<string, seq<real>>, requests: seq<Request>, max: nat, now: real, later: real)
    requires AllAgree(hits, requests, max, now) && now <= later
    ensures AllAgree(hits, requests, max, later)
  {
    forall ip ensures Agrees(HitsOf(hits, ip), requests, ip, max, later) {
      AgreesLater(HitsOf(hits, ip), requests, ip, max, now, later);
    }
  }

  predicate IsStale(v: seq<real>, now: real) { v == [] || now - v[|v| - 1] >= WINDOW }

  /** Evicting any stale addresses leaves every decision as it was. */
  lemma EvictionAgrees(hits: map<string, seq<real>>, requests: seq<Request>, max: nat, now: real, stale: set<string>)
    requires AllAgree(hits, requests, max, now) && forall k :: k in stale ==> k in hits && IsStale(hits[k], now)
    ensures AllAgree(hits - stale, requests, max, now)
  {
    forall ip ensures Agrees(HitsOf(hits - stale, ip), requests, ip, max, now) {
      assert Agrees(HitsOf(hits, ip), requests, ip, max, now);
      if ip in stale {
        StaleNewest(hits[ip], now);
      }
    }
  }

  /** What is kept for an address after a request: the recent hits and, if it was let through, the new one. */
  function Kept(hits: map<string, seq<real>>, r: Request, max: nat): seq<real> {
    var recent := Recent(HitsOf(hits, r.ip), r.at);
    if |recent| < max then recent + [r.at] else recent
  }

  lemma KeptAgrees(hits: map<string, seq<real>>, requests: seq<Request>, r: Request, max: nat)
    requires Agrees(HitsOf(hits, r.ip), requests, r.ip, max, r.at)
    ensures |Recent(HitsOf(hits, r.ip), r.at)| < max <==> Allows(requests, r, max)
    ensures Agrees(Kept(hits, r, max), requests + [r], r.ip, max, r.at)
  {
    var kept, all := HitsOf(hits, r.ip), Accepted(requests, r.ip, max);
    var recent := Recent(kept, r.at);
    AcceptedAppend(requests, r, max);
    assert SortedUpTo(Kept(hits, r, max), r.at) by {
      RecentIsSorted(kept, r.at, r.at);
    }
    hide Recent, SortedUpTo, Accepted;
    RecentOfRecent(kept, r.at, r.at);
    RecentAppend(recent, r.at, r.at);
    RecentAppend(all, r.at, r.at);
  }

  lemma AcceptedAppend(requests: seq<Request>, r: Request, max: nat)
    ensures Accepted(requests + [r], r.ip, max)
         == if Allows(requests, r, max) then Accepted(requests, r.ip, max) + [r.at] else Accepted(requests, r.ip, max)
  {
    assert (requests + [r])[..|requests|] == requests;
  }

  lemma OthersAgree(kept: seq<real>, requests: seq<Request>, r: Request, ip: string, max: nat)
    requires Agrees(kept, requests, ip, max, r.at) && ip != r.ip
    ensures Agrees(kept, requests + [r], ip, max, r.at)
  {
    assert (requests + [r])[..|requests|] == requests;
  }

  /** One more request, for the address asked about and for the others. */
  lemma RequestAgrees(hits: map<string, seq<real>>, requests: seq<Request>, r: Request, max: nat, after: map<string, seq<real>>)
    requires AllAgree(hits, requests, max, r.at) && after == hits[r.ip := Kept(hits, r, max)]
    ensures |Recent(HitsOf(hits, r.ip), r.at)| < max <==> Allows(requests, r, max)
    ensures AllAgree(after, requests + [r], max, r.at)
  {
    hide Agrees, Recent, Accepted, Allows;
    var requests' := requests + [r];
    assert Agrees(HitsOf(hits, r.ip), requests, r.ip, max, r.at);
    KeptAgrees(hits, requests, r, max);
    forall ip ensures Agrees(HitsOf(after, ip), requests', ip, max, r.at) {
      assert Agrees(HitsOf(hits, ip), requests, ip, max, r.at);
      if ip != r.ip {
        OthersAgree(HitsOf(hits, ip), requests, r, ip, max);
      }
    }
  }

  class Limiter {
    const max: nat
    var hits: map<string, seq<real>>
    /** All requests so far, for the reference limiter, and the latest instant. */
    ghost var requests: seq<Request>
    ghost var now: real

    constructor (max: nat, now: real)
      ensures Valid() && this.max == max && this.now == now && requests == []
    {
      this.max, hits, requests, this.now := max, map[], [], now;
    }

    ghost predicate Valid()
      reads this
    {
      AllAgree(hits, requests, max, now)
    }

    /** Dropping stale addresses once too many are tracked. */
    method Evict(now: real)
      requires AllAgree(hits, requests, max, now)
      modifies this`hits
      ensures AllAgree(hits, requests, max, now) && hits.Keys <= old(hits).Keys
      ensures |old(hits)| > 10000 ==> forall k :: k in hits ==> hits[k] != [] && now - hits[k][|hits[k]| - 1] < 60.0
      ensures |old(hits)| <= 10000 ==> hits == old(hits)
      ensures forall k :: k in hits ==> hits[k] == old(hits)[k]
    {
      if |hits| > MAX_TRACKED {
        var stale := set k | k in hits && IsStale(hits[k], now);
        EvictionAgrees(hits, requests, max, now, stale);
        hits := hits - stale;
      }
    }

    method KeepRecent(v: seq<real>, now: real) returns (recent: seq<real>)
      ensures recent == Recent(v, now)
    {
      recent := [];
      for i := 0 to |v|
        invariant recent == Recent(v[..i], now)
      {
        assert v[..i + 1][..i] == v[..i];
        if now - v[i] < WINDOW {
          recent := recent + [v[i]];
        }
      }
      assert v[..|v|] == v;
    }

    /** _check_rate_limit and _check_read_rate_limit: the decision of the limiter that forgets nothing. */
    method Check(ip: string, now: real) returns (ok: bool)
      requires Valid() && this.now <= now
      modifies this
      ensures Valid() && this.now == now && requests == old(requests) + [Request(ip, now)]
      ensures ok <==> Allows(old(requests), Request(ip, now), max)
    {
      AllAgreeLater(hits, requests, max, this.now, now);
      Evict(now);
      ghost var r := Request(ip, now);
      RequestAgrees(hits, requests, r, max, hits[ip := Kept(hits, r, max)]);
      ghost var kept := hits;
      var recent := KeepRecent(HitsOf(hits, ip), now);
      hits := hits[ip := recent];
      ok := |hits[ip]| < max;
      if ok {
        hits := hits[ip := hits[ip] + [now]];
      }
      assert hits == kept[ip := Kept(kept, r, max)];
      requests, this.now := requests + [Request(ip, now)], now;
    }

    /** A whole run: no address ever gets more than max through in any window. */
    method Serve(incoming: seq<Request>) returns (decisions: seq<bool>)
      requires Valid() && Monotonic(incoming) && (incoming != [] ==> now <= incoming[0].at)
      modifies this
      ensures Valid() && requests == old(requests) + incoming && |decisions| == |incoming|
      ensures forall i :: 0 <= i < |incoming| ==> decisions[i] == Allows(old(requests) + incoming[..i], incoming[i], max)
      ensures forall ip, start :: |InWindow(Accepted(requests, ip, max), start)| <= max
    {
      decisions := [];
      for i := 0 to |incoming|
        invariant Valid() && requests == old(requests) + incoming[..i] && |decisions| == i
        invariant i < |incoming| ==> now <= incoming[i].at
        invariant forall j :: 0 <= j < i ==> decisions[j] == Allows(old(requests) + incoming[..j], incoming[j], max)
      {
        var ok := Check(incoming[i].ip, incoming[i].at);
        decisions := decisions + [ok];
        assert incoming[..i + 1] == incoming[..i] + [incoming[i]];
        assert old(requests) + incoming[..i + 1] == old(requests) + incoming[..i] + [incoming[i]];
      }
      assert incoming[..|incoming|] == incoming;
      forall ip, start ensures |InWindow(Accepted(requests, ip, max), start)| <= max {
        AtMostMaxPerWindow(requests, ip, max, start);
      }
    }
  }
}
