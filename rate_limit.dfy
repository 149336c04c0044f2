/** The chat endpoint's in-memory, per-client sliding-window rate limiter (main.py:36-58).
    Timestamps are integers: the limiter only subtracts and compares them. */
module RateLimit {
  import opened Sequences

  /** Whether a request made at `t` still counts at time `now`. */
  predicate InWindow(t: int, now: int, period: int)
  {
    now - t < period
  }

  /** The timestamps of `history` still inside the window at `now`: every copy of a timestamp
      less than `period` older than `now` survives, every other one is dropped, and the
      survivors keep their relative order. */
  function Prune(history: seq<int>, now: int, period: int): (kept: seq<int>)
    ensures forall t :: multiset(kept)[t] == if now - t < period then multiset(history)[t] else 0
    ensures forall t :: t in kept <==> t in history && now - t < period
    ensures IsSubsequence(kept, history)
    ensures |kept| <= |history|
  {
    FilterCounts(history, t => InWindow(t, now, period));
    FilterMembership(history, t => InWindow(t, now, period));
    FilterIsSubsequence(history, t => InWindow(t, now, period));
    FilterLength(history, t => InWindow(t, now, period));
    Filter(history, t => InWindow(t, now, period))
  }

  /** The most entries one client's list can hold: the request limit, or none when the
      limit is zero or negative (then every request is refused). */
  function Cap(limit: int): nat
  {
    if limit > 0 then limit else 0
  }

  /** Pruning at an earlier time and again at a later one leaves what pruning once at the later
      time leaves: how often a client's list is cleaned does not change its contents. */
  lemma PruneLater(history: seq<int>, earlier: int, later: int, period: int)
    requires earlier <= later
    ensures Prune(Prune(history, earlier, period), later, period) == Prune(history, later, period)
  {
    FilterNarrowing(history, t => InWindow(t, earlier, period), t => InWindow(t, later, period));
  }

  /** A list whose every timestamp is inside the window is left as it is. */
  lemma {:induction false} PruneAllInside(history: seq<int>, now: int, period: int)
    requires forall t :: t in history ==> now - t < period
    ensures Prune(history, now, period) == history
  {
    if history != [] {
      assert history[0] in history;
      assert forall t :: t in history[1..] ==> t in history;
      PruneAllInside(history[1..], now, period);
      assert history == [history[0]] + history[1..];
    }
  }

  class RateLimiter {
    /** RATE_LIMIT_REQUESTS: how many requests a client may make inside one window. */
    const limit: int
    /** RATE_LIMIT_PERIOD: the window length, in the unit of the timestamps. */
    const period: int
    /** rate_limit_store: each client key's timestamps of accepted requests, oldest first. */
    var store: map<string, seq<int>>

    /** No client ever holds more timestamps than the limit allows. */
    ghost predicate Valid()
      reads this
    {
      forall ip :: ip in store ==> |store[ip]| <= Cap(limit)
    }

    /** The list stored for `ip`; a key never seen reads as the empty list (the store is a defaultdict). */
    function History(ip: string): (h: seq<int>)
      reads this
      ensures ip !in store ==> h == []
      ensures ip in store ==> h == store[ip]
    {
      if ip in store then store[ip] else []
    }

    constructor (limit: int, period: int)
      ensures this.limit == limit && this.period == period
      ensures store == map[]
      ensures Valid()
    {
      this.limit := limit;
      this.period := period;
      store := map[];
    }

    /** check_rate_limit: prune `ip`'s list at time `now`, refuse when the limit is already
        reached, otherwise record `now` and accept. */
    method CheckRateLimit(ip: string, now: int) returns (allowed: bool)
      requires Valid()
      modifies this`store
      ensures Valid()
      ensures allowed <==> |Prune(old(History(ip)), now, period)| < limit
      ensures !allowed ==> store == old(store)[ip := Prune(old(History(ip)), now, period)]
      ensures allowed ==> store == old(store)[ip := Prune(old(History(ip)), now, period) + [now]]
      ensures allowed ==> |store[ip]| == |Prune(old(History(ip)), now, period)| + 1
      ensures forall t :: t in store[ip] ==>
                (t in old(History(ip)) && now - t < period) || (allowed && t == now)
      ensures forall other :: other != ip ==> (other in store <==> other in old(store))
      ensures forall other :: other != ip && other in store ==> store[other] == old(store)[other]
    {
      var kept := Prune(History(ip), now, period);
      store := store[ip := kept];
      if |store[ip]| >= limit {
        return false;
      }
      store := store[ip := store[ip] + [now]];
      return true;
    }
  }
}
