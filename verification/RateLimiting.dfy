/** The gateway's rate limiter: a sliding window over each client's accepted requests, of which only
    a pruned list is kept. */
module RateLimiting {

  datatype Hit = Hit(client: string, now: int)

  datatype Limits = Limits(limit: int, window: int)

  /** The times after a cutoff. */
  function Recent(times: seq<int>, cutoff: int): seq<int> {
    if times == [] then []
    else Recent(times[..|times| - 1], cutoff)
         + if times[|times| - 1] > cutoff then [times[|times| - 1]] else []
  }

  function Kept(requests: map<string, seq<int>>, client: string): seq<int> {
    if client in requests then requests[client] else []
  }

  predicate Allows(l: Limits, times: seq<int>, now: int) {
    |Recent(times, now - l.window)| < l.limit
  }

  /** What a client's list becomes, pruned and unpruned. */
  function KeptAfter(l: Limits, times: seq<int>, now: int): seq<int> {
    if Allows(l, times, now) then Recent(times, now - l.window) + [now] else times
  }

  function AcceptedAfter(l: Limits, times: seq<int>, now: int): seq<int> {
    if Allows(l, times, now) then times + [now] else times
  }

  function Record(l: Limits, requests: map<string, seq<int>>, h: Hit): map<string, seq<int>> {
    var times := Kept(requests, h.client);
    if Allows(l, times, h.now)
    then requests[h.client := KeptAfter(l, times, h.now)]
    else requests
  }

  function Run(l: Limits, hits: seq<Hit>): map<string, seq<int>> {
    if hits == [] then map[] else Record(l, Run(l, hits[..|hits| - 1]), hits[|hits| - 1])
  }

  class RateLimiter {
    var requests: map<string, seq<int>>
    const limits: Limits

    constructor (limit: int, window: int)
      ensures requests == map[] && limits == Limits(limit, window)
    {
      limits := Limits(limit, window);
      requests := map[];
    }

    method Allow(client: string, now: int) returns (ok: bool)
      modifies this`requests
      ensures ok == Allows(limits, Kept(old(requests), client), now)
      ensures requests == Record(limits, old(requests), Hit(client, now))
    {
      var cutoff := now - limits.window;
      var times := if client in requests then requests[client] else [];
      var valid: seq<int> := [];
      for i := 0 to |times|
        invariant valid == Recent(times[..i], cutoff)
      {
        assert times[..i + 1][..i] == times[..i];
        if times[i] > cutoff {
          valid := valid + [times[i]];
        }
      }
      assert times[..|times|] == times;
      if |valid| >= limits.limit {
        return false;
      }
      valid := valid + [now];
      requests := requests[client := valid];
      return true;
    }
  }

  /******* The reference: nothing is ever pruned *******/

  /** All the times at which a client was let through, by the full history alone. */
  function Accepted(l: Limits, hits: seq<Hit>, client: string): seq<int> {
    if hits == [] then []
    else
      var before, h := Accepted(l, hits[..|hits| - 1], client), hits[|hits| - 1];
      if h.client == client then AcceptedAfter(l, before, h.now) else before
  }

  ghost predicate InOrder(hits: seq<Hit>) {
    forall i, j :: 0 <= i < j < |hits| ==> hits[i].now <= hits[j].now
  }

  lemma {:induction false} RecentOfRecent(times: seq<int>, early: int, late: int)
    requires early <= late
    ensures Recent(Recent(times, early), late) == Recent(times, late)
  {
    if times != [] {
      var init, t := times[..|times| - 1], times[|times| - 1];
      RecentOfRecent(init, early, late);
      if t > early {
        assert (Recent(init, early) + [t])[..|Recent(init, early)|] == Recent(init, early);
      } else {
        assert Recent(times, early) == Recent(init, early);
      }
    }
  }

  lemma RecentOfAppend(times: seq<int>, t: int, cutoff: int)
    ensures Recent(times + [t], cutoff) == Recent(times, cutoff) + if t > cutoff then [t] else []
  {
    assert (times + [t])[..|times|] == times;
  }

  lemma StepIsInvisible(l: Limits, kept: seq<int>, all: seq<int>, now: int, cutoff: int)
    requires now - l.window <= cutoff
    requires Recent(kept, now - l.window) == Recent(all, now - l.window)
    requires Recent(kept, cutoff) == Recent(all, cutoff)
    ensures Recent(KeptAfter(l, kept, now), cutoff) == Recent(AcceptedAfter(l, all, now), cutoff)
  {
    var pruned := Recent(kept, now - l.window);
    assert Allows(l, kept, now) <==> Allows(l, all, now);
    assert Recent(pruned + [now], cutoff) == Recent(all + [now], cutoff) by {
      RecentOfAppend(pruned, now, cutoff);
      RecentOfRecent(kept, now - l.window, cutoff);
      RecentOfAppend(all, now, cutoff);
    }
  }

  lemma OrderedPrefix(hits: seq<Hit>)
    requires InOrder(hits) && hits != []
    ensures InOrder(hits[..|hits| - 1])
    ensures |hits| > 1 ==> hits[|hits| - 2].now <= hits[|hits| - 1].now
  {
  }

  /** As far as any cutoff still to come can tell, the pruned list is the full one. */
  lemma {:induction false} PruningIsInvisible(l: Limits, hits: seq<Hit>, client: string, cutoff: int)
    requires InOrder(hits)
    requires hits != [] ==> hits[|hits| - 1].now - l.window <= cutoff
    ensures Recent(Kept(Run(l, hits), client), cutoff) == Recent(Accepted(l, hits, client), cutoff)
  {
    if hits != [] {
      var init, h := hits[..|hits| - 1], hits[|hits| - 1];
      OrderedPrefix(hits);
      PruningIsInvisible(l, init, client, cutoff);
      var kept, all := Kept(Run(l, init), client), Accepted(l, init, client);
      assert Kept(Run(l, hits), client) == (if h.client == client then KeptAfter(l, kept, h.now) else kept);
      assert Accepted(l, hits, client) == (if h.client == client then AcceptedAfter(l, all, h.now) else all);
      if h.client == client {
        PruningIsInvisible(l, init, client, h.now - l.window);
        StepIsInvisible(l, kept, all, h.now, cutoff);
      }
    }
  }

  /** Every decision is the one the full history gives: a request passes exactly when fewer than
      `limit` accepted requests lie in the window ending now. */
  lemma DecisionsMatchHistory(l: Limits, hits: seq<Hit>, client: string, now: int)
    requires InOrder(hits) && forall h :: h in hits ==> h.now <= now
    ensures Allows(l, Kept(Run(l, hits), client), now) <==> Allows(l, Accepted(l, hits, client), now)
  {
    if hits != [] { assert hits[|hits| - 1] in hits; }
    PruningIsInvisible(l, hits, client, now - l.window);
  }

  /** The decision on the i-th request of a run. */
  predicate Passed(l: Limits, hits: seq<Hit>, i: nat) {
    i < |hits| && Allows(l, Kept(Run(l, hits[..i]), hits[i].client), hits[i].now)
  }

  /** The client's requests let through that lie after a time and no later than another. */
  ghost function PassedIn(l: Limits, hits: seq<Hit>, client: string, after: int, upTo: int): set<nat> {
    set i: nat | i < |hits| && hits[i].client == client && after < hits[i].now <= upTo && Passed(l, hits, i)
  }

  lemma PassedPrefix(l: Limits, hits: seq<Hit>, i: nat, n: nat)
    requires i < n <= |hits|
    ensures Passed(l, hits[..n], i) <==> Passed(l, hits, i)
  {
    assert hits[..n][..i] == hits[..i];
  }

  lemma PassedInGrows(l: Limits, hits: seq<Hit>, client: string, after: int, upTo: int)
    requires hits != []
    ensures var n := |hits| - 1;
            PassedIn(l, hits, client, after, upTo)
            == PassedIn(l, hits[..n], client, after, upTo)
               + if hits[n].client == client && after < hits[n].now <= upTo && Passed(l, hits, n) then {n} else {}
  {
    var n := |hits| - 1;
    forall i: nat | i < n
      ensures Passed(l, hits[..n], i) <==> Passed(l, hits, i)
    {
      PassedPrefix(l, hits, i, n);
    }
  }

  lemma {:induction false} RecentCounts(l: Limits, hits: seq<Hit>, client: string, after: int, upTo: int)
    requires InOrder(hits) && forall h :: h in hits ==> h.now <= upTo
    ensures |Recent(Accepted(l, hits, client), after)| == |PassedIn(l, hits, client, after, upTo)|
  {
    if hits != [] {
      var n := |hits| - 1;
      var init, h := hits[..n], hits[n];
      OrderedPrefix(hits);
      RecentCounts(l, init, client, after, upTo);
      PassedInGrows(l, hits, client, after, upTo);
      assert h in hits;
      if h.client == client {
        forall g | g in init ensures g.now <= h.now {
        }
        DecisionsMatchHistory(l, init, client, h.now);
        RecentOfAppend(Accepted(l, init, client), h.now, after);
      }
    }
  }

  /** A request of any run passes if and only if fewer than `limit` of the client's earlier requests that passed
      lie in the window that ends with it. */
  lemma PassesExactly(l: Limits, hits: seq<Hit>, i: nat)
    requires InOrder(hits) && i < |hits|
    ensures Passed(l, hits, i)
            <==> |PassedIn(l, hits[..i], hits[i].client, hits[i].now - l.window, hits[i].now)| < l.limit
  {
    var before, h := hits[..i], hits[i];
    DecisionsMatchHistory(l, before, h.client, h.now);
    RecentCounts(l, before, h.client, h.now - l.window, h.now);
  }

  /******* The bound *******/

  ghost predicate Sorted(times: seq<int>) {
    forall i, j :: 0 <= i < j < |times| ==> times[i] <= times[j]
  }

  /** In an ordered list, one recent time makes all later ones recent. */
  lemma {:induction false} RecentSuffix(times: seq<int>, i: nat, cutoff: int)
    requires Sorted(times) && i < |times| && times[i] > cutoff
    ensures |Recent(times, cutoff)| >= |times| - i
  {
    if i < |times| - 1 {
      RecentSuffix(times[..|times| - 1], i, cutoff);
    }
  }

  lemma {:induction false} AcceptedInOrder(l: Limits, hits: seq<Hit>, client: string)
    requires InOrder(hits)
    ensures Sorted(Accepted(l, hits, client))
    ensures forall t :: t in Accepted(l, hits, client) ==> hits != [] && t <= hits[|hits| - 1].now
  {
    if hits != [] {
      OrderedPrefix(hits);
      AcceptedInOrder(l, hits[..|hits| - 1], client);
      var before := Accepted(l, hits[..|hits| - 1], client);
      assert forall i :: 0 <= i < |before| ==> before[i] in before;
    }
  }

  /** Any limit+1 accepted requests of a client span at least the window. */
  lemma {:induction false} WindowBound(l: Limits, hits: seq<Hit>, client: string, i: nat)
    requires l.limit >= 1 && InOrder(hits)
    requires i + l.limit < |Accepted(l, hits, client)|
    ensures Accepted(l, hits, client)[i + l.limit] - Accepted(l, hits, client)[i] >= l.window
  {
    var init, h := hits[..|hits| - 1], hits[|hits| - 1];
    var before, all := Accepted(l, init, client), Accepted(l, hits, client);
    if i + l.limit < |before| {
      WindowBound(l, init, client, i);
    } else {
      OrderedPrefix(hits);
      AcceptedInOrder(l, init, client);
      if before[i] > h.now - l.window {
        RecentSuffix(before, i, h.now - l.window);
      }
    }
  }

  /******* Clients *******/

  function HitsOf(hits: seq<Hit>, client: string): seq<Hit> {
    if hits == [] then []
    else HitsOf(hits[..|hits| - 1], client)
         + if hits[|hits| - 1].client == client then [hits[|hits| - 1]] else []
  }

  /** What the limiter keeps for a client depends on that client's requests only. */
  lemma {:induction false} ClientsAreIndependent(l: Limits, hits: seq<Hit>, client: string)
    ensures Kept(Run(l, hits), client) == Kept(Run(l, HitsOf(hits, client)), client)
  {
    if hits != [] {
      var init, h := hits[..|hits| - 1], hits[|hits| - 1];
      ClientsAreIndependent(l, init, client);
      if h.client == client {
        assert HitsOf(hits, client)[..|HitsOf(init, client)|] == HitsOf(init, client);
      } else {
        assert HitsOf(hits, client) == HitsOf(init, client);
      }
    }
  }
}
