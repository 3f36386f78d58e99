/**
 The public per-client rate limiter (gateway/src/rate_limit_headers.py).

 The limiter drops expired timestamps whenever it can. The specification keeps every allowed
 request for ever; the two always agree, no window of the configured length ever holds more than
 `limit` allowed requests, and the advertised waiting time is exact.
 */
module PublicLimiter {
  import opened Basics

  /** The timestamps after `cutoff` among the first `n`, in order. */
  function Active(ts: seq<real>, n: nat, cutoff: real): (r: seq<real>)
    requires n <= |ts|
    ensures |r| <= n
  {
    if n == 0 then []
    else if ts[n - 1] > cutoff then Active(ts, n - 1, cutoff) + [ts[n - 1]]
    else Active(ts, n - 1, cutoff)
  }

  function Least(ts: seq<real>, n: nat): (t: real)
    requires 0 < n <= |ts|
    ensures exists i :: 0 <= i < n && t == ts[i]
    ensures forall i :: 0 <= i < n ==> t <= ts[i]
  {
    if n == 1 then ts[0] else
      var t := Least(ts, n - 1);
      if ts[n - 1] < t then ts[n - 1] else t
  }

  function Ceil(x: real): (c: int)
    ensures c as real - 1.0 < x <= c as real
  {
    -(-x).Floor
  }

  /** The answer of `record`; with a limit below 1 and no active request, `min` has nothing to choose from. */
  datatype Decision =
    | Allowed(remaining: int)
    | Blocked(retryAfter: int)
    | EmptyMin

  /** The decision on a request at `now` when these requests of its client are active. */
  function Decide(active: seq<real>, now: real, limit: int, window: int): Decision {
    if |active| < limit then Allowed(Max(0, limit - (|active| + 1)))
    else if active == [] then EmptyMin
    else Blocked(Max(1, Ceil(Least(active, |active|) + window as real - now)))
  }

  /** The decision from all the requests allowed so far. */
  function Judge(history: seq<real>, now: real, limit: int, window: int): Decision {
    Decide(Active(history, |history|, now - window as real), now, limit, window)
  }

  // ---------- Pruning ----------

  lemma {:induction false} ActiveFrame(ts: seq<real>, other: seq<real>, n: nat, cutoff: real)
    requires n <= |ts| && n <= |other| && forall i :: 0 <= i < n ==> ts[i] == other[i]
    ensures Active(ts, n, cutoff) == Active(other, n, cutoff)
  {
    if n > 0 {
      ActiveFrame(ts, other, n - 1, cutoff);
    }
  }

  lemma ActiveSnoc(ts: seq<real>, t: real, cutoff: real)
    ensures Active(ts + [t], |ts| + 1, cutoff)
            == if t > cutoff then Active(ts, |ts|, cutoff) + [t] else Active(ts, |ts|, cutoff)
  {
    ActiveFrame(ts + [t], ts, |ts|, cutoff);
  }

  lemma {:induction false} ActiveTwice(ts: seq<real>, n: nat, cutoff: real, later: real)
    requires cutoff <= later && n <= |ts|
    ensures var a := Active(ts, n, cutoff); Active(a, |a|, later) == Active(ts, n, later)
  {
    if n > 0 {
      ActiveTwice(ts, n - 1, cutoff, later);
      var before := Active(ts, n - 1, cutoff);
      if ts[n - 1] > cutoff {
        ActiveSnoc(before, ts[n - 1], later);
        assert Active(ts, n, cutoff) == before + [ts[n - 1]];
      }
    }
  }

  lemma {:induction false} ActiveAll(ts: seq<real>, n: nat, cutoff: real)
    requires n <= |ts| && forall i :: 0 <= i < n ==> ts[i] > cutoff
    ensures |Active(ts, n, cutoff)| == n
  {
    if n > 0 {
      ActiveAll(ts, n - 1, cutoff);
    }
  }

  lemma {:induction false} ActiveDrops(ts: seq<real>, n: nat, cutoff: real, i: nat)
    requires i < n <= |ts| && ts[i] <= cutoff
    ensures |Active(ts, n, cutoff)| < n
  {
    if i < n - 1 {
      ActiveDrops(ts, n - 1, cutoff, i);
    }
  }

  lemma {:induction false} ActiveFewer(ts: seq<real>, n: nat, cutoff: real, later: real)
    requires cutoff <= later && n <= |ts|
    ensures |Active(ts, n, later)| <= |Active(ts, n, cutoff)|
  {
    if n > 0 {
      ActiveFewer(ts, n - 1, cutoff, later);
    }
  }

  lemma {:induction false} ActiveAfter(ts: seq<real>, n: nat, cutoff: real)
    requires n <= |ts|
    ensures forall i :: 0 <= i < |Active(ts, n, cutoff)| ==> Active(ts, n, cutoff)[i] > cutoff
  {
    if n > 0 {
      ActiveAfter(ts, n - 1, cutoff);
    }
  }

  /** Timestamp `i` is after the cutoff. */
  predicate IsActive(ts: seq<real>, i: int, cutoff: real) {
    0 <= i < |ts| && ts[i] > cutoff
  }

  lemma {:induction false} ActiveIsSize(ts: seq<real>, n: nat, cutoff: real)
    requires n <= |ts|
    ensures |Active(ts, n, cutoff)| == |set i | 0 <= i < n && IsActive(ts, i, cutoff)|
  {
    var all := set i | 0 <= i < n && IsActive(ts, i, cutoff);
    if n == 0 {
      assert all == {};
    } else {
      ActiveIsSize(ts, n - 1, cutoff);
      var before := set i | 0 <= i < n - 1 && IsActive(ts, i, cutoff);
      assert all == if IsActive(ts, n - 1, cutoff) then before + {n - 1} else before;
    }
  }

  /** How many requests are in the window that ends now. */
  lemma InWindow(ts: seq<real>, now: real, window: int)
    ensures |Active(ts, |ts|, now - window as real)| == |set i | 0 <= i < |ts| && ts[i] > now - window as real|
  {
    var cutoff := now - window as real;
    ActiveIsSize(ts, |ts|, cutoff);
    assert (set i | 0 <= i < |ts| && IsActive(ts, i, cutoff))
           == (set i | 0 <= i < |ts| && ts[i] > now - window as real);
  }

  /**
   What a decision at `now` should be for a client with these allowed requests: allowed when fewer than
   `limit` of them are in the window that ends now, with what is left when it is counted as well.
   */
  ghost predicate IsDue(d: Decision, history: seq<real>, now: real, limit: int, window: int) {
    var active := |set i | 0 <= i < |history| && history[i] > now - window as real|;
    && (d.Allowed? <==> active < limit)
    && (d.Allowed? ==> d.remaining == limit - active - 1)
    && (d.EmptyMin? <==> active >= limit && active == 0)
  }

  lemma JudgeIsDue(history: seq<real>, now: real, limit: int, window: int)
    ensures IsDue(Judge(history, now, limit, window), history, now, limit, window)
  {
    InWindow(history, now, window);
  }

  // ---------- What the full history satisfies ----------

  /** The requests in the window that ends with request `i`, itself included. */
  function WindowAt(history: seq<real>, i: nat, window: int): nat
    requires i < |history|
  {
    |Active(history, i + 1, history[i] - window as real)|
  }

  /** In order, none later than `clock`, and each allowed with at most `limit` in the window it ends. */
  ghost predicate Proper(history: seq<real>, clock: real, limit: int, window: int) {
    && (forall i :: 0 <= i < |history| ==> history[i] <= clock)
    && (forall i, j :: 0 <= i < j < |history| ==> history[i] <= history[j])
    && (forall i :: 0 <= i < |history| ==> WindowAt(history, i, window) <= limit)
  }

  lemma WindowAtSnoc(history: seq<real>, now: real, i: nat, limit: int, window: int)
    requires i <= |history|
    requires i < |history| ==> WindowAt(history, i, window) <= limit
    requires Judge(history, now, limit, window).Allowed?
    ensures WindowAt(history + [now], i, window) <= limit
  {
    if i < |history| {
      ActiveFrame(history + [now], history, i + 1, history[i] - window as real);
    } else {
      ActiveSnoc(history, now, now - window as real);
    }
  }

  lemma AllowedStaysProper(history: seq<real>, clock: real, now: real, limit: int, window: int)
    requires Proper(history, clock, limit, window) && clock <= now
    requires Judge(history, now, limit, window).Allowed?
    ensures Proper(history + [now], now, limit, window)
  {
    var h := history + [now];
    forall i | 0 <= i < |h| ensures WindowAt(h, i, window) <= limit {
      WindowAtSnoc(history, now, i, limit, window);
    }
  }

  /** Allowed requests of one client with a timestamp in `(from, to]`. */
  function AllowedIn(history: seq<real>, n: nat, from: real, to: real): nat
    requires n <= |history|
  {
    if n == 0 then 0 else
      AllowedIn(history, n - 1, from, to) + if from < history[n - 1] <= to then 1 else 0
  }

  lemma {:induction false} AllowedInActive(history: seq<real>, n: nat, from: real, to: real)
    requires n <= |history|
    ensures AllowedIn(history, n, from, to) <= |Active(history, n, from)|
  {
    if n > 0 {
      AllowedInActive(history, n - 1, from, to);
    }
  }

  /** No window of the configured length ever holds more than `limit` allowed requests. */
  lemma {:induction false} WindowBound(history: seq<real>, n: nat, clock: real, limit: nat, window: int, from: real)
    requires Proper(history, clock, limit, window) && n <= |history|
    ensures AllowedIn(history, n, from, from + window as real) <= limit
  {
    if n > 0 {
      var t := history[n - 1];
      if from < t <= from + window as real {
        AllowedInActive(history, n, from, from + window as real);
        ActiveFewer(history, n, t - window as real, from);
        assert WindowAt(history, n - 1, window) <= limit;
      } else {
        WindowBound(history, n - 1, clock, limit, window, from);
      }
    }
  }

  /** A blocked client has exactly `limit` active requests, never more. */
  lemma BlockedIsFull(history: seq<real>, now: real, limit: int, window: int)
    requires Proper(history, now, limit, window) && limit >= 1
    requires Judge(history, now, limit, window).Blocked?
    ensures |Active(history, |history|, now - window as real)| == limit
  {
    var n := |history|;
    assert WindowAt(history, n - 1, window) <= limit;
    ActiveFewer(history, n, history[n - 1] - window as real, now - window as real);
  }

  /** Some of the timestamps are dropped at a cutoff exactly when the least of them is. */
  lemma LeastDrops(ts: seq<real>, cutoff: real)
    requires ts != []
    ensures |Active(ts, |ts|, cutoff)| < |ts| <==> Least(ts, |ts|) <= cutoff
  {
    if Least(ts, |ts|) <= cutoff {
      var i :| 0 <= i < |ts| && Least(ts, |ts|) == ts[i];
      ActiveDrops(ts, |ts|, cutoff, i);
    } else {
      ActiveAll(ts, |ts|, cutoff);
    }
  }

  /** A retry `k` seconds later is allowed exactly when the oldest active request has left the window. */
  lemma RetryAllowed(history: seq<real>, now: real, limit: int, window: int, k: int)
    requires Proper(history, now, limit, window) && limit >= 1 && k >= 0
    requires Judge(history, now, limit, window).Blocked?
    ensures var active := Active(history, |history|, now - window as real);
            && active != []
            && (Judge(history, now + k as real, limit, window).Allowed?
                <==> Least(active, |active|) <= now + k as real - window as real)
  {
    var active := Active(history, |history|, now - window as real);
    BlockedIsFull(history, now, limit, window);
    ActiveTwice(history, |history|, now - window as real, now + k as real - window as real);
    LeastDrops(active, now + k as real - window as real);
  }

  /**
   The waiting time of a blocked client is exact: a retry after `k >= 1` whole seconds, with no
   other request of the client in between, is allowed if and only if `k` is at least `retryAfter`.
   */
  lemma RetryAfterIsExact(history: seq<real>, now: real, limit: int, window: int, k: int)
    requires Proper(history, now, limit, window) && limit >= 1 && k >= 1
    requires Judge(history, now, limit, window).Blocked?
    ensures Judge(history, now, limit, window).retryAfter >= 1
    ensures Judge(history, now + k as real, limit, window).Allowed?
            <==> k >= Judge(history, now, limit, window).retryAfter
  {
    RetryAllowed(history, now, limit, window, k);
    var active := Active(history, |history|, now - window as real);
    var wait := Least(active, |active|) + window as real - now;
    assert k >= Ceil(wait) <==> k as real >= wait;
  }

  // ---------- The limiter ----------

  function Get(requests: map<string, seq<real>>, ip: string): seq<real> {
    if ip in requests then requests[ip] else []
  }

  /** What the limiter keeps of a client and its full history look the same from `clock` on. */
  ghost predicate ClientOk(kept: seq<real>, history: seq<real>, clock: real, limit: int, window: int) {
    && Proper(history, clock, limit, window)
    && Active(kept, |kept|, clock - window as real) == Active(history, |history|, clock - window as real)
  }

  lemma ProperLater(history: seq<real>, clock: real, now: real, limit: int, window: int)
    requires Proper(history, clock, limit, window) && clock <= now
    ensures Proper(history, now, limit, window)
  {
    forall i | 0 <= i < |history| ensures history[i] <= now && WindowAt(history, i, window) <= limit {
      assert history[i] <= clock && WindowAt(history, i, window) <= limit;
    }
  }

  /** Lists that agree on what is after `cutoff` agree on what is after any later one. */
  lemma ActiveLater(kept: seq<real>, history: seq<real>, cutoff: real, later: real)
    requires cutoff <= later && Active(kept, |kept|, cutoff) == Active(history, |history|, cutoff)
    ensures Active(kept, |kept|, later) == Active(history, |history|, later)
  {
    ActiveTwice(kept, |kept|, cutoff, later);
    ActiveTwice(history, |history|, cutoff, later);
  }

  lemma ClientLater(kept: seq<real>, history: seq<real>, clock: real, now: real, limit: int, window: int)
    requires ClientOk(kept, history, clock, limit, window) && clock <= now
    ensures ClientOk(kept, history, now, limit, window)
    ensures ClientOk(Active(kept, |kept|, now - window as real), history, now, limit, window)
  {
    ProperLater(history, clock, now, limit, window);
    ActiveLater(kept, history, clock - window as real, now - window as real);
    ActiveTwice(kept, |kept|, now - window as real, now - window as real);
  }

  lemma ActiveBoth(kept: seq<real>, history: seq<real>, now: real, cutoff: real)
    requires Active(kept, |kept|, cutoff) == Active(history, |history|, cutoff)
    ensures Active(kept + [now], |kept + [now]|, cutoff) == Active(history + [now], |history + [now]|, cutoff)
  {
    ActiveSnoc(kept, now, cutoff);
    ActiveSnoc(history, now, cutoff);
  }

  lemma ClientAllowed(kept: seq<real>, history: seq<real>, now: real, limit: int, window: int)
    requires ClientOk(kept, history, now, limit, window)
    requires Judge(history, now, limit, window).Allowed?
    ensures ClientOk(kept + [now], history + [now], now, limit, window)
  {
    AllowedStaysProper(history, now, now, limit, window);
    ActiveBoth(kept, history, now, now - window as real);
  }

  /** The pruned list decides as the full history does, and agrees with it after the decision. */
  lemma ClientDecides(kept: seq<real>, history: seq<real>, now: real, limit: int, window: int)
    requires ClientOk(kept, history, now, limit, window)
    ensures var live := Active(kept, |kept|, now - window as real);
            && Decide(live, now, limit, window) == Judge(history, now, limit, window)
            && ClientOk(live, history, now, limit, window)
            && (Judge(history, now, limit, window).Allowed? ==>
                  ClientOk(live + [now], history + [now], now, limit, window))
  {
    ClientLater(kept, history, now, now, limit, window);
    if Judge(history, now, limit, window).Allowed? {
      ClientAllowed(Active(kept, |kept|, now - window as real), history, now, limit, window);
    }
  }

  ghost predicate ClientsOk(
      requests: map<string, seq<real>>, history: map<string, seq<real>>, clock: real, limit: int, window: int) {
    forall ip: string :: ClientOk(Get(requests, ip), Get(history, ip), clock, limit, window)
  }

  /** What happens to one client leaves the others alone. */
  lemma OneClient(requests: map<string, seq<real>>, history: map<string, seq<real>>, ip: string, kept: seq<real>,
                  after: map<string, seq<real>>, now: real, limit: int, window: int)
    requires ClientsOk(requests, history, now, limit, window)
    requires forall other: string :: other != ip ==> Get(after, other) == Get(history, other)
    requires ClientOk(kept, Get(after, ip), now, limit, window)
    ensures ClientsOk(requests[ip := kept], after, now, limit, window)
  {
    forall other: string ensures ClientOk(Get(requests[ip := kept], other), Get(after, other), now, limit, window) {
      assert other != ip ==> ClientOk(Get(requests, other), Get(history, other), now, limit, window);
    }
  }

  lemma AllClientsLater(
      requests: map<string, seq<real>>, history: map<string, seq<real>>,
      clock: real, now: real, limit: int, window: int)
    requires ClientsOk(requests, history, clock, limit, window) && clock <= now
    ensures ClientsOk(requests, history, now, limit, window)
  {
    forall ip: string ensures ClientOk(Get(requests, ip), Get(history, ip), now, limit, window) {
      ClientLater(Get(requests, ip), Get(history, ip), clock, now, limit, window);
    }
  }

  lemma RecordKeeps(requests: map<string, seq<real>>, history: map<string, seq<real>>, ip: string,
                    clock: real, now: real, limit: int, window: int)
    requires ClientsOk(requests, history, clock, limit, window) && clock <= now
    ensures var kept, h := Get(requests, ip), Get(history, ip);
            var live := Active(kept, |kept|, now - window as real);
            && Decide(live, now, limit, window) == Judge(h, now, limit, window)
            && (live == [] && limit <= 0 ==> ClientsOk(requests, history, now, limit, window))
            && (|live| >= limit ==> ClientsOk(requests[ip := live], history, now, limit, window))
            && (|live| < limit ==>
                  ClientsOk(requests[ip := live + [now]], history[ip := h + [now]], now, limit, window))
  {
    var kept, h := Get(requests, ip), Get(history, ip);
    var live := Active(kept, |kept|, now - window as real);
    AllClientsLater(requests, history, clock, now, limit, window);
    ClientDecides(kept, h, now, limit, window);
    if |live| >= limit {
      OneClient(requests, history, ip, live, history, now, limit, window);
    } else {
      OneClient(requests, history, ip, live + [now], history[ip := h + [now]], now, limit, window);
    }
  }

  class PublicRateLimiter {
    const limit: int
    const window: int
    var requests: map<string, seq<real>>

    /** Every request ever allowed, and the latest time at which the limiter was used. */
    ghost var history: map<string, seq<real>>
    ghost var clock: real

    ghost predicate Valid()
      reads this
    {
      ClientsOk(requests, history, clock, limit, window)
    }

    constructor (limit: int, window: int)
      ensures Valid() && this.limit == limit && this.window == window
      ensures history == map[] && clock == 0.0
    {
      this.limit, this.window := limit, window;
      requests, history, clock := map[], map[], 0.0;
    }

    function Live(ts: seq<real>, now: real): seq<real> {
      Active(ts, |ts|, now - window as real)
    }

    lemma AllLater(now: real)
      requires Valid() && clock <= now
      ensures ClientsOk(requests, history, now, limit, window)
      ensures forall ip: string ::
        ClientOk(Live(Get(requests, ip), now), Get(history, ip), now, limit, window)
    {
      forall ip: string
        ensures ClientOk(Get(requests, ip), Get(history, ip), now, limit, window)
        ensures ClientOk(Live(Get(requests, ip), now), Get(history, ip), now, limit, window)
      {
        ClientLater(Get(requests, ip), Get(history, ip), clock, now, limit, window);
      }
    }

    /**
     Every decision is that of a limiter with the full history: a request is allowed exactly when fewer
     than `limit` are in the window that ends now, and what remains does not count it any more.
     */
    method Record(ip: string, now: real) returns (d: Decision)
      requires Valid() && clock <= now
      modifies this
      ensures Valid() && clock == now
      ensures d == Judge(old(Get(history, ip)), now, limit, window)
      ensures IsDue(d, old(Get(history, ip)), now, limit, window)
      ensures history == if d.Allowed? then old(history)[ip := old(Get(history, ip)) + [now]] else old(history)
    {
      RecordKeeps(requests, history, ip, clock, now, limit, window);
      JudgeIsDue(Get(history, ip), now, limit, window);
      var kept := Get(requests, ip);
      var timestamps := Active(kept, |kept|, now - window as real);
      clock := now;
      if |timestamps| < limit {
        requests := requests[ip := timestamps + [now]];
        history := history[ip := Get(history, ip) + [now]];
        assert ClientsOk(requests, history, clock, limit, window);
        d := Allowed(Max(0, limit - |timestamps + [now]|));
      } else if timestamps == [] {
        assert ClientsOk(requests, history, clock, limit, window);
        d := EmptyMin;
      } else {
        var earliest := Least(timestamps, |timestamps|);
        requests := requests[ip := timestamps];
        assert ClientsOk(requests, history, clock, limit, window);
        d := Blocked(Max(1, Ceil(earliest + window as real - now)));
      }
    }

    method Remaining(ip: string, now: real) returns (remaining: int)
      requires Valid() && clock <= now
      ensures var h := Get(history, ip);
              remaining == Max(0, limit - |Active(h, |h|, now - window as real)|)
      ensures var h := Get(history, ip);
              var active := |set i | 0 <= i < |h| && h[i] > now - window as real|;
              remaining == if active < limit then limit - active else 0
    {
      InWindow(Get(history, ip), now, window);
      var kept := Get(requests, ip);
      ClientLater(kept, Get(history, ip), clock, now, limit, window);
      var active := Active(kept, |kept|, now - window as real);
      remaining := Max(0, limit - |active|);
    }

    /** Removes what has expired; no later decision can tell. */
    method Cleanup(now: real)
      requires Valid() && clock <= now
      modifies this
      ensures Valid() && clock == now && history == old(history)
      ensures forall ip :: ip in requests <==> ip in old(requests) && Live(old(requests)[ip], now) != []
      ensures forall ip :: ip in requests ==> requests[ip] == Live(old(requests)[ip], now)
    {
      AllLater(now);
      ghost var before := requests;
      var todo, expired := requests.Keys, {};
      while todo != {}
        invariant todo <= before.Keys && expired !! todo && history == old(history)
        invariant requests.Keys == before.Keys
        invariant forall ip :: ip in todo ==> requests[ip] == before[ip]
        invariant forall ip :: ip in expired ==> ip in before && Live(before[ip], now) == []
        invariant forall ip :: ip in before && ip !in todo && ip !in expired ==>
          requests[ip] == Live(before[ip], now) && Live(before[ip], now) != []
        decreases todo
      {
        var ip :| ip in todo;
        var active := Live(requests[ip], now);
        if active != [] {
          requests := requests[ip := active];
        } else {
          expired := expired + {ip};
        }
        todo := todo - {ip};
      }
      requests := requests - expired;
      clock := now;
      forall ip: string
        ensures ClientOk(Get(requests, ip), Get(history, ip), clock, limit, window)
      {
        assert Live(Get(before, ip), now) == Get(requests, ip);
      }
    }

  }
}
