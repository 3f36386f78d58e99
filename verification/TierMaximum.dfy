/**
 How many calls an hour the per-tier limiter really lets through, and for which tiers its configured
 limit is a bound: runs that reach the bounds of TierLimiter, and the exact conditions.
 */
module TierMaximum {
  import opened Basics
  import opened TierLimiter

  // ---------- Runs that reach the bound ----------

  /** Some run in which every request counts within `lag` of its record ends in `s`. */
  ghost predicate Reached(s: State, lag: real) {
    exists steps: seq<Step> :: Timely(Start, steps, 0, lag) && Run(Start, steps, 0) == s
  }

  lemma {:induction false} RunOneMore(s: State, steps: seq<Step>, k: nat, step: Step, lag: real)
    requires |s.phases| == |s.log| && k <= |steps| && Timely(s, steps, k, lag)
    requires StepTimely(Run(s, steps, k), step, lag)
    ensures Timely(s, steps + [step], k, lag)
    ensures Run(s, steps + [step], k) == Next(Run(s, steps, k), step)
    decreases |steps| - k
  {
    if k < |steps| {
      RunOneMore(Next(s, steps[k]), steps, k + 1, step, lag);
    } else {
      var s' := Next(s, step);
      assert Run(s', steps + [step], k + 1) == s' && Timely(s', steps + [step], k + 1, lag);
    }
  }

  lemma ReachNext(s: State, step: Step, lag: real)
    requires Reached(s, lag) && StepTimely(s, step, lag)
    ensures |s.phases| == |s.log| && Reached(Next(s, step), lag)
  {
    var steps: seq<Step> :| Timely(Start, steps, 0, lag) && Run(Start, steps, 0) == s;
    RunOneMore(Start, steps, 0, step, lag);
  }

  /** A step of the last request, within the lag of its record. */
  lemma ReachLast(log: seq<Event>, phases: seq<Phase>, p: Phase, step: Step, lag: real)
    requires |log| == |phases| + 1 && !step.Record? && step.i == |phases|
    requires log[|phases|].ts <= step.now <= log[|phases|].ts + lag
    requires Reached(State(log, phases + [p]), lag)
    ensures Reached(State(log, phases + [NextPhase(State(log, phases + [p]), step)]), lag)
  {
    var s := State(log, phases + [p]);
    ReachNext(s, step, lag);
    assert Next(s, step) == State(log, phases + [NextPhase(s, step)]);
  }

  lemma CountLast(log: seq<Event>, e: Event, agent: string, since: real)
    ensures Count(log + [e], |log| + 1, agent, since)
            == Count(log, |log|, agent, since) + if e.request.agent == agent && e.ts >= since then 1 else 0
  {
    CountMono(log, log + [e], |log|, |log|, agent, since, since);
    CountMono(log + [e], log, |log|, |log|, agent, since, since);
  }

  /** A request that finds room in its hour or in its minute is accepted. */
  lemma CallPasses(s: State, r: Request, ts: real, now: real, lag: real) returns (s': State)
    requires Reached(s, lag) && |s.phases| == |s.log| && r.toolLimit.None? && ts <= now <= ts + lag
    requires Count(s.log, |s.log|, r.agent, now - HOUR) + 1 < r.tier.ratePerHour
             || Count(s.log, |s.log|, r.agent, now - MINUTE) + 1 < r.tier.BurstLimit()
    ensures Reached(s', lag) && s'.log == s.log + [Event(r, ts)]
    ensures exists rateCount :: s'.phases == s.phases + [Accepted(rateCount)]
  {
    var n, log := |s.log|, s.log + [Event(r, ts)];
    var rateCount := Count(log, n + 1, r.agent, now - HOUR);
    var p := if rateCount < r.tier.ratePerHour then Accepted(rateCount) else OverHourly(rateCount);
    ReachNext(s, Record(r, ts), lag);
    CountLast(s.log, Event(r, ts), r.agent, now - HOUR);
    ReachLast(log, s.phases, Recorded, CountHour(n, now), lag);
    CountLast(s.log, Event(r, ts), r.agent, now - MINUTE);
    ReachLast(log, s.phases, p, CountBurst(n, now), lag);
    s' := State(log, s.phases + [Accepted(rateCount)]);
  }

  /** A reached state in which `r` was sent again and again, at times in order up to `to`, and always accepted. */
  ghost predicate AllAccepted(s: State, r: Request, to: real, lag: real) {
    && Reached(s, lag) && |s.phases| == |s.log|
    && (forall i :: 0 <= i < |s.log| ==> s.log[i].request == r && 0.0 <= s.log[i].ts <= to && s.phases[i].Accepted?)
    && (forall i, j :: 0 <= i < j < |s.log| ==> s.log[i].ts <= s.log[j].ts)
  }

  lemma OneMore(s: State, r: Request, to: real, ts: real, now: real, lag: real) returns (s': State)
    requires AllAccepted(s, r, to, lag) && r.toolLimit.None? && to <= ts && 0.0 <= ts <= now <= ts + lag
    requires Count(s.log, |s.log|, r.agent, now - HOUR) + 1 < r.tier.ratePerHour
             || Count(s.log, |s.log|, r.agent, now - MINUTE) + 1 < r.tier.BurstLimit()
    ensures AllAccepted(s', r, ts, lag) && s'.log == s.log + [Event(r, ts)]
  {
    s' := CallPasses(s, r, ts, now, lag);
  }

  lemma {:induction false} CountAtMost(log: seq<Event>, n: nat, agent: string, since: real)
    requires n <= |log|
    ensures Count(log, n, agent, since) <= n
  {
    if n > 0 {
      CountAtMost(log, n - 1, agent, since);
    }
  }

  /** As many calls as the hourly or the burst limit lets through, all at once. */
  lemma {:induction false} FirstCalls(r: Request, j: nat, lag: real) returns (s: State)
    requires r.toolLimit.None? && j <= Max(Pred(r.tier.ratePerHour), Pred(r.tier.BurstLimit())) && 0.0 <= lag
    ensures AllAccepted(s, r, 0.0, lag) && |s.log| == j
  {
    if j == 0 {
      s := Start;
      assert Timely(Start, [], 0, lag) && Run(Start, [], 0) == Start;
    } else {
      var before := FirstCalls(r, j - 1, lag);
      CountAtMost(before.log, j - 1, r.agent, 0.0 - HOUR);
      CountAtMost(before.log, j - 1, r.agent, 0.0 - MINUTE);
      s := OneMore(before, r, 0.0, 0.0, 0.0, lag);
    }
  }

  /** After a quiet minute, a burst of one call less than the burst limit, all at once. */
  lemma {:induction false} Burst(s: State, r: Request, to: real, now: real, j: nat) returns (s': State)
    requires AllAccepted(s, r, to, 0.0) && r.toolLimit.None? && 0.0 <= to < now - MINUTE
    requires j <= Pred(r.tier.BurstLimit())
    ensures AllAccepted(s', r, now, 0.0) && |s'.log| == |s.log| + j
    ensures Count(s'.log, |s'.log|, r.agent, now - MINUTE) == j
  {
    if j == 0 {
      s' := s;
      CountNone(s.log, |s.log|, r.agent, now - MINUTE);
    } else {
      var before := Burst(s, r, to, now, j - 1);
      s' := OneMore(before, r, now, now, now, 0.0);
      CountLast(before.log, Event(r, now), r.agent, now - MINUTE);
    }
  }

  /** `k` bursts, 61 seconds apart. */
  lemma {:induction false} Bursts(r: Request, k: nat) returns (s: State, to: real)
    requires r.toolLimit.None?
    ensures AllAccepted(s, r, to, 0.0) && 0.0 <= to == End(0.0, 61.0, k)
    ensures |s.log| == Max(Pred(r.tier.ratePerHour), Pred(r.tier.BurstLimit())) + k * Pred(r.tier.BurstLimit())
  {
    if k == 0 {
      s := FirstCalls(r, Max(Pred(r.tier.ratePerHour), Pred(r.tier.BurstLimit())), 0.0);
      to := 0.0;
    } else {
      var before, from := Bursts(r, k - 1);
      to := from + 61.0;
      s := Burst(before, r, from, to, Pred(r.tier.BurstLimit()));
      assert k * Pred(r.tier.BurstLimit()) == (k - 1) * Pred(r.tier.BurstLimit()) + Pred(r.tier.BurstLimit());
    }
  }

  lemma {:induction false} AllCounted(s: State, n: nat, r: Request, to: real, lag: real)
    requires AllAccepted(s, r, to, lag) && n <= |s.log|
    ensures AcceptedIn(s, n, r.agent, 0.0, to) == n
  {
    if n > 0 {
      AllCounted(s, n - 1, r, to, lag);
    }
  }

  /**
   The bound is the maximum: for every tier, calls of any agent to any tool without a limit of its
   own, in the order of time and each checked without interruption, reach it in less than an hour.
   */
  lemma HourlyReached(r: Request) returns (steps: seq<Step>)
    requires r.toolLimit.None?
    ensures Timely(Start, steps, 0, 0.0)
    ensures var s := Run(Start, steps, 0);
            && SameTier(s.log, r.agent, r.tier)
            && (forall i, j :: 0 <= i < j < |s.log| ==> s.log[i].ts <= s.log[j].ts)
            && AcceptedIn(s, |s.log|, r.agent, 0.0, 3599.0) == HourlyMaximum(r.tier)
  {
    var s, to := Bursts(r, 59);
    EndOf(0.0, 61.0, 59);
    AllCounted(s, |s.log|, r, 3599.0, 0.0);
    steps :| Timely(Start, steps, 0, 0.0) && Run(Start, steps, 0) == s;
  }

  // ---------- When the configured limit holds ----------

  /** In this run, the agent is not accepted more often than its tier's hourly limit in the hour from `from` on. */
  ghost predicate WithinLimit(steps: seq<Step>, agent: string, tier: Tier, from: real, lag: real) {
    var s := Run(Start, steps, 0);
    Timely(Start, steps, 0, lag) && SameTier(s.log, agent, tier) ==>
      AcceptedIn(s, |s.log|, agent, from, from + HOUR) <= tier.ratePerHour
  }

  lemma {:induction false} LongerWindow(s: State, n: nat, agent: string, from: real, to: real, later: real)
    requires n <= |s.log| == |s.phases| && to <= later
    ensures AcceptedIn(s, n, agent, from, to) <= AcceptedIn(s, n, agent, from, later)
  {
    if n > 0 {
      LongerWindow(s, n - 1, agent, from, to, later);
    }
  }

  lemma {:induction false} LongerLag(s: State, steps: seq<Step>, k: nat, lag: real)
    requires |s.phases| == |s.log| && k <= |steps| && Timely(s, steps, k, 0.0) && 0.0 <= lag
    ensures Timely(s, steps, k, lag)
    decreases |steps| - k
  {
    if k < |steps| {
      LongerLag(Next(s, steps[k]), steps, k + 1, lag);
    }
  }

  lemma BurstsExceed(tier: Tier, lag: real) returns (steps: seq<Step>)
    requires tier.BurstLimit() >= 2 && 0.0 <= lag
    ensures !WithinLimit(steps, "a", tier, 0.0, lag)
  {
    steps := HourlyReached(Request("a", tier, "t", None));
    var s := Run(Start, steps, 0);
    LongerWindow(s, |s.log|, "a", 0.0, 3599.0, 0.0 + HOUR);
    LongerLag(Start, steps, 0, lag);
  }

  /**
   When each request reads the clock once, the configured limit bounds every hour of every run exactly
   for the tiers whose burst limit is at most one.
   */
  lemma LimitHoldsOneClock(tier: Tier)
    ensures (forall steps: seq<Step>, agent: string, from: real :: WithinLimit(steps, agent, tier, from, 0.0))
            <==> tier.BurstLimit() <= 1
  {
    if tier.BurstLimit() <= 1 {
      forall steps: seq<Step>, agent: string, from: real ensures WithinLimit(steps, agent, tier, from, 0.0) {
        if Timely(Start, steps, 0, 0.0) && SameTier(Run(Start, steps, 0).log, agent, tier) {
          HourlyTotalOneClock(steps, agent, tier, from, from + HOUR);
        }
      }
    } else {
      var steps := BurstsExceed(tier, 0.0);
    }
  }

  // ---------- When the counts read the clock later ----------

  /**
   The hourly limit, less one, recorded half a lag before the end of the hour and counted half a lag
   after it, when the first calls of the hour no longer count.
   */
  lemma {:induction false} SecondCalls(r: Request, lag: real, j: nat) returns (s: State)
    requires r.toolLimit.None? && 0.0 < lag <= HOUR && j <= Pred(r.tier.ratePerHour)
    ensures AllAccepted(s, r, HOUR - lag / 2.0, lag) && |s.log| == Pred(r.tier.ratePerHour) + j
    ensures Count(s.log, |s.log|, r.agent, lag / 2.0) == j
  {
    var ts, now := HOUR - lag / 2.0, HOUR + lag / 2.0;
    if j == 0 {
      s := FirstCalls(r, Pred(r.tier.ratePerHour), lag);
      CountNone(s.log, |s.log|, r.agent, lag / 2.0);
    } else {
      var before := SecondCalls(r, lag, j - 1);
      assert now - HOUR == lag / 2.0;
      s := OneMore(before, r, ts, ts, now, lag);
      CountLast(before.log, Event(r, ts), r.agent, lag / 2.0);
    }
  }

  lemma LateCountsExceed(tier: Tier, lag: real) returns (steps: seq<Step>)
    requires tier.ratePerHour >= 3 && 0.0 < lag <= HOUR
    ensures !WithinLimit(steps, "a", tier, 0.0, lag)
  {
    var r := Request("a", tier, "t", None);
    var s := SecondCalls(r, lag, Pred(tier.ratePerHour));
    AllCounted(s, |s.log|, r, HOUR - lag / 2.0, lag);
    LongerWindow(s, |s.log|, "a", 0.0, HOUR - lag / 2.0, 0.0 + HOUR);
    steps :| Timely(Start, steps, 0, lag) && Run(Start, steps, 0) == s;
  }

  /** Enough stretches of any length cover an hour. */
  lemma Stretches(w: real) returns (k: nat)
    requires w > 0.0
    ensures k > 0 && HOUR <= k as real * w
  {
    k := (HOUR / w).Floor + 1;
    assert HOUR / w < k as real;
    assert HOUR == HOUR / w * w;
  }

  /** Without bursts, two stretches bound a whole hour at any lag below a minute. */
  lemma HourWithoutBursts(steps: seq<Step>, agent: string, tier: Tier, from: real, to: real, lag: real)
    requires tier.BurstLimit() <= 1 && 0.0 <= lag < MINUTE && to - from <= HOUR
    requires Timely(Start, steps, 0, lag) && SameTier(Run(Start, steps, 0).log, agent, tier)
    ensures var s := Run(Start, steps, 0);
            AcceptedIn(s, |s.log|, agent, from, to) <= 2 * Pred(tier.ratePerHour)
  {
    var k := Stretches(MINUTE - lag);
    NoBursts(k, tier);
    WindowTotal(steps, lag, agent, tier, from, to, 2, k);
  }

  lemma NoBursts(k: nat, tier: Tier)
    requires tier.BurstLimit() <= 1
    ensures k * Pred(tier.BurstLimit()) == 0
  {
  }

  lemma LimitHoldsWithoutBursts(steps: seq<Step>, agent: string, tier: Tier, from: real, lag: real)
    requires tier.ratePerHour <= 2 && tier.BurstLimit() <= 1 && 0.0 <= lag < MINUTE
    ensures WithinLimit(steps, agent, tier, from, lag)
  {
    if Timely(Start, steps, 0, lag) && SameTier(Run(Start, steps, 0).log, agent, tier) {
      HourWithoutBursts(steps, agent, tier, from, from + HOUR, lag);
    }
  }

  /**
   When the counts may read the clock later than the record, by however little and by less than a
   minute, the configured limit bounds every hour of every run exactly for the tiers whose burst limit
   is at most one and whose hourly limit is at most two.
   */
  lemma LimitHoldsExactly(tier: Tier, lag: real)
    requires 0.0 < lag < MINUTE
    ensures (forall steps: seq<Step>, agent: string, from: real :: WithinLimit(steps, agent, tier, from, lag))
            <==> tier.ratePerHour <= 2 && tier.BurstLimit() <= 1
  {
    if tier.BurstLimit() > 1 {
      var steps := BurstsExceed(tier, lag);
    } else if tier.ratePerHour > 2 {
      var steps := LateCountsExceed(tier, lag);
    } else {
      forall steps: seq<Step>, agent: string, from: real ensures WithinLimit(steps, agent, tier, from, lag) {
        LimitHoldsWithoutBursts(steps, agent, tier, from, lag);
      }
    }
  }

  const Shipped: seq<Tier> := [Tier(100, 10), Tier(1000, 25), Tier(10000, 100), Tier(100000, 1000)]

  /** For none of the tiers that are sold is the configured limit an hourly bound, at any lag. */
  lemma ShippedTiersExceed(i: nat, lag: real)
    requires i < |Shipped| && 0.0 <= lag
    ensures exists steps: seq<Step>, agent: string, from: real :: !WithinLimit(steps, agent, Shipped[i], from, lag)
  {
    var steps := BurstsExceed(Shipped[i], lag);
  }
}
