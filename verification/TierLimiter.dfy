/**
 The per-tier rate limiter (gateway/src/deps/rate_limit.py) over the sliding-window storage
 (products/paywall/src/storage.py).

 A request records its event first and counts afterwards, with a storage round trip at each
 step, so requests interleave. The counts include the request's own event and those of rejected
 requests. A request over its hourly limit still passes when its last minute is quiet, so the
 hourly total is bounded by the limit and sixty bursts together.

 The storage reads the clock of every step before it queries or inserts, so a count can miss no
 event already stored but may use a clock older than some of them, and events need not be stored
 in the order of their timestamps. `lag` bounds how long after the timestamp of its event a request
 reads the clock for a count; with lag 0 it reads the clock once.
 */
module TierLimiter {
  import opened Basics

  const HOUR: real := 3600.0
  const MINUTE: real := 60.0

  datatype Tier = Tier(ratePerHour: nat, burstAllowance: nat) {
    function BurstLimit(): nat {
      ratePerHour / 60 + burstAllowance
    }
  }

  datatype Request = Request(agent: string, tier: Tier, tool: string, toolLimit: Option<nat>)

  /** A row of `rate_events`, with the request it stands for. */
  datatype Event = Event(request: Request, ts: real)

  // ---------- Counting ----------

  /** The events of an agent among the first `n` with a timestamp of at least `since`. */
  function Count(log: seq<Event>, n: nat, agent: string, since: real): nat
    requires n <= |log|
  {
    if n == 0 then 0 else
      Count(log, n - 1, agent, since)
      + if log[n - 1].request.agent == agent && log[n - 1].ts >= since then 1 else 0
  }

  function CountTool(log: seq<Event>, n: nat, agent: string, tool: string, since: real): nat
    requires n <= |log|
  {
    if n == 0 then 0 else
      CountTool(log, n - 1, agent, tool, since)
      + if log[n - 1].request.agent == agent && log[n - 1].request.tool == tool && log[n - 1].ts >= since
        then 1 else 0
  }

  lemma {:induction false} CountMono(
      log: seq<Event>, longer: seq<Event>, n: nat, k: nat, agent: string, since: real, from: real)
    requires n <= |log| && n <= k <= |longer| && from <= since
    requires forall i :: 0 <= i < n ==> log[i] == longer[i]
    ensures Count(log, n, agent, since) <= Count(longer, k, agent, from)
  {
    if n < k {
      CountMono(log, longer, n, k - 1, agent, since, from);
    } else if n > 0 {
      CountMono(log, longer, n - 1, n - 1, agent, since, from);
    }
  }

  lemma {:induction false} CountToolMono(
      log: seq<Event>, longer: seq<Event>, n: nat, k: nat, agent: string, tool: string, since: real, from: real)
    requires n <= |log| && n <= k <= |longer| && from <= since
    requires forall i :: 0 <= i < n ==> log[i] == longer[i]
    ensures CountTool(log, n, agent, tool, since) <= CountTool(longer, k, agent, tool, from)
  {
    if n < k {
      CountToolMono(log, longer, n, k - 1, agent, tool, since, from);
    } else if n > 0 {
      CountToolMono(log, longer, n - 1, n - 1, agent, tool, since, from);
    }
  }

  /** Event `i` is one of the agent's with a timestamp of at least `since`. */
  predicate IsCounted(log: seq<Event>, i: int, agent: string, since: real) {
    0 <= i < |log| && log[i].request.agent == agent && log[i].ts >= since
  }

  /** The same, and of this tool. */
  predicate IsToolCounted(log: seq<Event>, i: int, agent: string, tool: string, since: real) {
    IsCounted(log, i, agent, since) && log[i].request.tool == tool
  }

  lemma {:induction false} CountIsSize(log: seq<Event>, n: nat, agent: string, since: real)
    requires n <= |log|
    ensures Count(log, n, agent, since) == |set i | 0 <= i < n && IsCounted(log, i, agent, since)|
  {
    var all := set i | 0 <= i < n && IsCounted(log, i, agent, since);
    if n == 0 {
      assert all == {};
    } else {
      CountIsSize(log, n - 1, agent, since);
      var before := set i | 0 <= i < n - 1 && IsCounted(log, i, agent, since);
      assert all == if IsCounted(log, n - 1, agent, since) then before + {n - 1} else before;
    }
  }

  lemma {:induction false} CountToolIsSize(log: seq<Event>, n: nat, agent: string, tool: string, since: real)
    requires n <= |log|
    ensures CountTool(log, n, agent, tool, since) == |set i | 0 <= i < n && IsToolCounted(log, i, agent, tool, since)|
  {
    var all := set i | 0 <= i < n && IsToolCounted(log, i, agent, tool, since);
    if n == 0 {
      assert all == {};
    } else {
      CountToolIsSize(log, n - 1, agent, tool, since);
      var before := set i | 0 <= i < n - 1 && IsToolCounted(log, i, agent, tool, since);
      assert all == if IsToolCounted(log, n - 1, agent, tool, since) then before + {n - 1} else before;
    }
  }

  // ---------- Interleaved requests ----------

  /** Where a request stands after its event was recorded. */
  datatype Phase =
    | Recorded
    | OverHourly(rateCount: nat)
    | TierPassed(rateCount: nat)
    | Accepted(rateCount: nat)
    | RateLimited
    | ToolLimited
    | Unavailable

  /** Request `i` recorded event `i`. */
  datatype State = State(log: seq<Event>, phases: seq<Phase>)

  datatype Step =
    | Record(request: Request, now: real)
    | CountHour(i: nat, now: real)
    | CountBurst(i: nat, now: real)
    | CheckTool(i: nat, now: real)
    | StorageFails(i: nat, now: real)

  const Start := State([], [])

  /** A request past the tier check is accepted at once when its tool has no limit of its own. */
  function PassTier(request: Request, rateCount: nat): Phase {
    if request.toolLimit.None? then Accepted(rateCount) else TierPassed(rateCount)
  }

  /** The next phase of request `i`; a step that does not apply to its phase changes nothing. */
  function NextPhase(s: State, step: Step): Phase
    requires !step.Record? && |s.phases| == |s.log| && step.i < |s.log|
  {
    var n, request, phase := |s.log|, s.log[step.i].request, s.phases[step.i];
    match step
    case CountHour(_, now) =>
      if !phase.Recorded? then phase else
        var rateCount := Count(s.log, n, request.agent, now - HOUR);
        if rateCount >= request.tier.ratePerHour then OverHourly(rateCount) else PassTier(request, rateCount)
    case CountBurst(_, now) =>
      if !phase.OverHourly? then phase
      else if Count(s.log, n, request.agent, now - MINUTE) >= request.tier.BurstLimit() then RateLimited
      else PassTier(request, phase.rateCount)
    case CheckTool(_, now) =>
      if !phase.TierPassed? || request.toolLimit.None? then phase
      else if CountTool(s.log, n, request.agent, request.tool, now - HOUR) >= request.toolLimit.value then ToolLimited
      else Accepted(phase.rateCount)
    case StorageFails(_, now) =>
      if phase.Recorded? || phase.OverHourly? || phase.TierPassed? then Unavailable else phase
  }

  function Next(s: State, step: Step): State
    requires |s.phases| == |s.log|
  {
    match step
    case Record(request, now) => State(s.log + [Event(request, now)], s.phases + [Recorded])
    case _ =>
      if step.i >= |s.log| then s else s.(phases := s.phases[step.i := NextPhase(s, step)])
  }

  /** The state after the steps from number `k` on. */
  function Run(s: State, steps: seq<Step>, k: nat): (end: State)
    requires |s.phases| == |s.log| && k <= |steps|
    ensures |end.phases| == |end.log|
    decreases |steps| - k
  {
    if k == |steps| then s else Run(Next(s, steps[k]), steps, k + 1)
  }

  /** A request counts within `lag` of recording its event, whatever others do meanwhile. */
  predicate StepTimely(s: State, step: Step, lag: real) {
    !step.Record? && step.i < |s.log| ==> s.log[step.i].ts <= step.now <= s.log[step.i].ts + lag
  }

  predicate Timely(s: State, steps: seq<Step>, k: nat, lag: real)
    requires |s.phases| == |s.log| && k <= |steps|
    decreases |steps| - k
  {
    k < |steps| ==> StepTimely(s, steps[k], lag) && Timely(Next(s, steps[k]), steps, k + 1, lag)
  }

  // ---------- What acceptance implies ----------

  /** Request `i` came before its agent had used up the hourly limit. */
  predicate WithinHourly(log: seq<Event>, i: nat, lag: real)
    requires i < |log|
  {
    var e := log[i];
    Count(log, i + 1, e.request.agent, e.ts + lag - HOUR) < e.request.tier.ratePerHour
  }

  /** Request `i` came when its agent had been quiet for a minute. */
  predicate WithinBurst(log: seq<Event>, i: nat, lag: real)
    requires i < |log|
  {
    var e := log[i];
    Count(log, i + 1, e.request.agent, e.ts + lag - MINUTE) < e.request.tier.BurstLimit()
  }

  predicate WithinTool(log: seq<Event>, i: nat, lag: real)
    requires i < |log|
  {
    var e := log[i];
    e.request.toolLimit.Some? ==>
      CountTool(log, i + 1, e.request.agent, e.request.tool, e.ts + lag - HOUR) < e.request.toolLimit.value
  }

  predicate PhaseInv(log: seq<Event>, phase: Phase, i: nat, lag: real)
    requires i < |log|
  {
    match phase
    case TierPassed(rateCount) => WithinHourly(log, i, lag) || WithinBurst(log, i, lag)
    case Accepted(rateCount) =>
      (WithinHourly(log, i, lag) || WithinBurst(log, i, lag)) && WithinTool(log, i, lag)
    case _ => true
  }

  predicate Inv(s: State, lag: real) {
    && |s.phases| == |s.log|
    && (forall i :: 0 <= i < |s.log| ==> PhaseInv(s.log, s.phases[i], i, lag))
  }

  lemma PhaseInvGrows(log: seq<Event>, e: Event, phase: Phase, i: nat, lag: real)
    requires i < |log| && PhaseInv(log, phase, i, lag)
    ensures PhaseInv(log + [e], phase, i, lag)
  {
    var r, ts := log[i].request, log[i].ts;
    CountMono(log + [e], log, i + 1, i + 1, r.agent, ts + lag - HOUR, ts + lag - HOUR);
    CountMono(log + [e], log, i + 1, i + 1, r.agent, ts + lag - MINUTE, ts + lag - MINUTE);
    CountToolMono(log + [e], log, i + 1, i + 1, r.agent, r.tool, ts + lag - HOUR, ts + lag - HOUR);
  }

  lemma NextPhaseInv(s: State, step: Step, lag: real)
    requires Inv(s, lag) && !step.Record? && step.i < |s.log|
    requires step.now <= s.log[step.i].ts + lag
    ensures PhaseInv(s.log, NextPhase(s, step), step.i, lag)
  {
    var i, n := step.i, |s.log|;
    var r, ts := s.log[i].request, s.log[i].ts;
    CountMono(s.log, s.log, i + 1, n, r.agent, ts + lag - HOUR, step.now - HOUR);
    CountMono(s.log, s.log, i + 1, n, r.agent, ts + lag - MINUTE, step.now - MINUTE);
    CountToolMono(s.log, s.log, i + 1, n, r.agent, r.tool, ts + lag - HOUR, step.now - HOUR);
  }

  lemma RecordInv(s: State, e: Event, lag: real)
    requires Inv(s, lag)
    ensures Inv(State(s.log + [e], s.phases + [Recorded]), lag)
  {
    var log, phases := s.log + [e], s.phases + [Recorded];
    forall i | 0 <= i < |log| ensures PhaseInv(log, phases[i], i, lag) {
      if i < |s.log| {
        assert PhaseInv(s.log, s.phases[i], i, lag);
        PhaseInvGrows(s.log, e, s.phases[i], i, lag);
      }
    }
  }

  lemma NextInv(s: State, step: Step, lag: real)
    requires Inv(s, lag) && StepTimely(s, step, lag)
    ensures Inv(Next(s, step), lag)
  {
    if step.Record? {
      RecordInv(s, Event(step.request, step.now), lag);
    } else if step.i < |s.log| {
      NextPhaseInv(s, step, lag);
      var phases := s.phases[step.i := NextPhase(s, step)];
      forall i | 0 <= i < |s.log| ensures PhaseInv(s.log, phases[i], i, lag) {
        assert PhaseInv(s.log, s.phases[i], i, lag);
      }
    }
  }

  lemma {:induction false} RunInv(s: State, steps: seq<Step>, k: nat, lag: real)
    requires k <= |steps| && Inv(s, lag) && Timely(s, steps, k, lag)
    ensures Inv(Run(s, steps, k), lag)
    decreases |steps| - k
  {
    if k < |steps| {
      NextInv(s, steps[k], lag);
      RunInv(Next(s, steps[k]), steps, k + 1, lag);
    }
  }

  // ---------- The hourly bound ----------

  /** Accepted calls of an agent among the first `n`, recorded in the window `[from, to]`. */
  function AcceptedIn(s: State, n: nat, agent: string, from: real, to: real): nat
    requires n <= |s.log| == |s.phases|
  {
    if n == 0 then 0 else
      AcceptedIn(s, n - 1, agent, from, to) + if AcceptedAt(s, n - 1, agent, from, to) then 1 else 0
  }

  predicate AcceptedAt(s: State, i: nat, agent: string, from: real, to: real)
    requires i < |s.log| == |s.phases|
  {
    s.phases[i].Accepted? && s.log[i].request.agent == agent && from <= s.log[i].ts <= to
  }

  /** Those of them that were within the hourly limit. */
  function HourlyIn(s: State, n: nat, agent: string, from: real, to: real, lag: real): nat
    requires n <= |s.log| == |s.phases|
  {
    if n == 0 then 0 else
      HourlyIn(s, n - 1, agent, from, to, lag)
      + if AcceptedAt(s, n - 1, agent, from, to) && WithinHourly(s.log, n - 1, lag) then 1 else 0
  }

  /** Those of them that passed as a burst. */
  function BurstIn(s: State, n: nat, agent: string, from: real, to: real, lag: real): nat
    requires n <= |s.log| == |s.phases|
  {
    if n == 0 then 0 else
      BurstIn(s, n - 1, agent, from, to, lag)
      + if AcceptedAt(s, n - 1, agent, from, to) && !WithinHourly(s.log, n - 1, lag) then 1 else 0
  }

  function Pred(n: nat): nat {
    if n == 0 then 0 else n - 1
  }

  predicate SameTier(log: seq<Event>, agent: string, tier: Tier) {
    forall i :: 0 <= i < |log| && log[i].request.agent == agent ==> log[i].request.tier == tier
  }

  lemma {:induction false} HourlyCounted(s: State, n: nat, agent: string, from: real, to: real, lag: real)
    requires n <= |s.log| == |s.phases|
    ensures HourlyIn(s, n, agent, from, to, lag) <= Count(s.log, n, agent, from)
    ensures BurstIn(s, n, agent, from, to, lag) <= Count(s.log, n, agent, from)
  {
    if n > 0 {
      HourlyCounted(s, n - 1, agent, from, to, lag);
    }
  }

  /** The last of the hourly passes saw all the earlier ones in its own count. */
  lemma {:induction false} HourlyBound(s: State, n: nat, agent: string, tier: Tier, from: real, to: real, lag: real)
    requires Inv(s, lag) && SameTier(s.log, agent, tier) && n <= |s.log|
    requires to - from <= HOUR - lag
    ensures HourlyIn(s, n, agent, from, to, lag) <= Pred(tier.ratePerHour)
  {
    if n > 0 {
      HourlyBound(s, n - 1, agent, tier, from, to, lag);
      var i := n - 1;
      if AcceptedAt(s, i, agent, from, to) && WithinHourly(s.log, i, lag) {
        HourlyCounted(s, n, agent, from, to, lag);
        CountMono(s.log, s.log, n, n, agent, from, s.log[i].ts + lag - HOUR);
      }
    }
  }

  lemma {:induction false} BurstBound(s: State, n: nat, agent: string, tier: Tier, from: real, to: real, lag: real)
    requires Inv(s, lag) && SameTier(s.log, agent, tier) && n <= |s.log|
    requires to - from <= MINUTE - lag
    ensures BurstIn(s, n, agent, from, to, lag) <= Pred(tier.BurstLimit())
  {
    if n > 0 {
      BurstBound(s, n - 1, agent, tier, from, to, lag);
      var i := n - 1;
      if AcceptedAt(s, i, agent, from, to) && !WithinHourly(s.log, i, lag) {
        assert PhaseInv(s.log, s.phases[i], i, lag);
        HourlyCounted(s, n, agent, from, to, lag);
        CountMono(s.log, s.log, n, n, agent, from, s.log[i].ts + lag - MINUTE);
      }
    }
  }

  lemma {:induction false} WindowSplits(s: State, n: nat, agent: string, from: real, mid: real, to: real, lag: real)
    requires n <= |s.log| == |s.phases|
    ensures BurstIn(s, n, agent, from, to, lag)
            <= BurstIn(s, n, agent, from, mid, lag) + BurstIn(s, n, agent, mid, to, lag)
    ensures HourlyIn(s, n, agent, from, to, lag)
            <= HourlyIn(s, n, agent, from, mid, lag) + HourlyIn(s, n, agent, mid, to, lag)
  {
    if n > 0 {
      WindowSplits(s, n - 1, agent, from, mid, to, lag);
    }
  }

  /** The end of `k` stretches of length `w` from `from` on. */
  function End(from: real, w: real, k: nat): real {
    if k == 0 then from else End(from, w, k - 1) + w
  }

  lemma {:induction false} EndOf(from: real, w: real, k: nat)
    ensures End(from, w, k) == from + k as real * w
  {
    if k > 0 {
      EndOf(from, w, k - 1);
      assert k as real * w == (k - 1) as real * w + w;
    }
  }

  lemma {:induction false} HourlyCover(s: State, agent: string, tier: Tier, from: real, lag: real, k: nat)
    requires Inv(s, lag) && SameTier(s.log, agent, tier) && k > 0
    ensures HourlyIn(s, |s.log|, agent, from, End(from, HOUR - lag, k), lag) <= k * Pred(tier.ratePerHour)
  {
    var w := HOUR - lag;
    if k == 1 {
      assert End(from, w, 1) == from + w;
      HourlyBound(s, |s.log|, agent, tier, from, End(from, w, 1), lag);
    } else {
      HourlyCover(s, agent, tier, from, lag, k - 1);
      var mid := End(from, w, k - 1);
      WindowSplits(s, |s.log|, agent, from, mid, mid + w, lag);
      HourlyBound(s, |s.log|, agent, tier, mid, mid + w, lag);
      assert k * Pred(tier.ratePerHour) == (k - 1) * Pred(tier.ratePerHour) + Pred(tier.ratePerHour);
    }
  }

  /** A long window is covered by short ones, each with at most one burst. */
  lemma {:induction false} BurstCover(s: State, agent: string, tier: Tier, from: real, lag: real, k: nat)
    requires Inv(s, lag) && SameTier(s.log, agent, tier) && k > 0
    ensures BurstIn(s, |s.log|, agent, from, End(from, MINUTE - lag, k), lag) <= k * Pred(tier.BurstLimit())
  {
    var w := MINUTE - lag;
    if k == 1 {
      assert End(from, w, 1) == from + w;
      BurstBound(s, |s.log|, agent, tier, from, End(from, w, 1), lag);
    } else {
      BurstCover(s, agent, tier, from, lag, k - 1);
      var mid := End(from, w, k - 1);
      WindowSplits(s, |s.log|, agent, from, mid, mid + w, lag);
      BurstBound(s, |s.log|, agent, tier, mid, mid + w, lag);
      assert k * Pred(tier.BurstLimit()) == (k - 1) * Pred(tier.BurstLimit()) + Pred(tier.BurstLimit());
    }
  }

  lemma {:induction false} AcceptedSplit(
      s: State, n: nat, agent: string, from: real, to: real, hourlyTo: real, burstTo: real, lag: real)
    requires n <= |s.log| == |s.phases| && to <= hourlyTo && to <= burstTo
    ensures AcceptedIn(s, n, agent, from, to)
            <= HourlyIn(s, n, agent, from, hourlyTo, lag) + BurstIn(s, n, agent, from, burstTo, lag)
  {
    if n > 0 {
      AcceptedSplit(s, n - 1, agent, from, to, hourlyTo, burstTo, lag);
    }
  }

  /**
   In every run and every interleaving, for any lag and any window: `h` stretches of an hour less
   the lag and `k` stretches of a minute less the lag that cover the window bound its accepted calls.
   */
  lemma WindowTotal(
      steps: seq<Step>, lag: real, agent: string, tier: Tier, from: real, to: real, h: nat, k: nat)
    requires Timely(Start, steps, 0, lag) && SameTier(Run(Start, steps, 0).log, agent, tier)
    requires h > 0 && to - from <= h as real * (HOUR - lag)
    requires k > 0 && to - from <= k as real * (MINUTE - lag)
    ensures var s := Run(Start, steps, 0);
            AcceptedIn(s, |s.log|, agent, from, to) <= h * Pred(tier.ratePerHour) + k * Pred(tier.BurstLimit())
  {
    var s := Run(Start, steps, 0);
    RunInv(Start, steps, 0, lag);
    HourlyCover(s, agent, tier, from, lag, h);
    BurstCover(s, agent, tier, from, lag, k);
    EndOf(from, HOUR - lag, h);
    EndOf(from, MINUTE - lag, k);
    AcceptedSplit(s, |s.log|, agent, from, to, End(from, HOUR - lag, h), End(from, MINUTE - lag, k), lag);
  }

  /**
   A whole hour, when every count reads its clock within 60/61 of a second of the record: at most
   twice one call less than the hourly limit, and 61 bursts of one call less than the burst limit.
   */
  lemma HourlyTotal(steps: seq<Step>, lag: real, agent: string, tier: Tier, from: real, to: real)
    requires Timely(Start, steps, 0, lag) && 61.0 * lag <= 60.0
    requires SameTier(Run(Start, steps, 0).log, agent, tier) && to - from <= HOUR
    ensures var s := Run(Start, steps, 0);
            AcceptedIn(s, |s.log|, agent, from, to) <= 2 * Pred(tier.ratePerHour) + 61 * Pred(tier.BurstLimit())
  {
    WindowTotal(steps, lag, agent, tier, from, to, 2, 61);
  }

  // ---------- The sharp bound when each request reads the clock once ----------

  /** Accepted calls in the window that passed within the hourly limit, or were recorded by `mid`. */
  function FrontIn(s: State, n: nat, agent: string, from: real, to: real, mid: real): nat
    requires n <= |s.log| == |s.phases|
  {
    if n == 0 then 0 else
      FrontIn(s, n - 1, agent, from, to, mid) + if FrontAt(s, n - 1, agent, from, to, mid) then 1 else 0
  }

  predicate FrontAt(s: State, i: nat, agent: string, from: real, to: real, mid: real)
    requires i < |s.log| == |s.phases|
  {
    AcceptedAt(s, i, agent, from, to) && (WithinHourly(s.log, i, 0.0) || s.log[i].ts <= mid)
  }

  lemma {:induction false} FrontCounted(s: State, n: nat, agent: string, from: real, to: real, mid: real)
    requires n <= |s.log| == |s.phases|
    ensures FrontIn(s, n, agent, from, to, mid) <= Count(s.log, n, agent, from)
  {
    if n > 0 {
      FrontCounted(s, n - 1, agent, from, to, mid);
    }
  }

  /** The last call of the front saw all the earlier ones, in its hour or in its minute. */
  lemma {:induction false} FrontBound(s: State, n: nat, agent: string, tier: Tier, from: real, to: real)
    requires Inv(s, 0.0) && SameTier(s.log, agent, tier) && n <= |s.log| && to - from <= HOUR
    ensures FrontIn(s, n, agent, from, to, from + MINUTE) <= Max(Pred(tier.ratePerHour), Pred(tier.BurstLimit()))
  {
    if n > 0 {
      FrontBound(s, n - 1, agent, tier, from, to);
      var i, mid := n - 1, from + MINUTE;
      if FrontAt(s, i, agent, from, to, mid) {
        assert PhaseInv(s.log, s.phases[i], i, 0.0);
        FrontCounted(s, n, agent, from, to, mid);
        if WithinHourly(s.log, i, 0.0) {
          CountMono(s.log, s.log, n, n, agent, from, s.log[i].ts - HOUR);
        } else {
          CountMono(s.log, s.log, n, n, agent, from, s.log[i].ts - MINUTE);
        }
      }
    }
  }

  lemma {:induction false} FrontSplit(
      s: State, n: nat, agent: string, from: real, to: real, mid: real, burstTo: real)
    requires n <= |s.log| == |s.phases| && to <= burstTo
    ensures AcceptedIn(s, n, agent, from, to)
            <= FrontIn(s, n, agent, from, to, mid) + BurstIn(s, n, agent, mid, burstTo, 0.0)
  {
    if n > 0 {
      FrontSplit(s, n - 1, agent, from, to, mid, burstTo);
    }
  }

  /** The most calls that are accepted in an hour when each request reads the clock once. */
  function HourlyMaximum(tier: Tier): nat {
    Max(Pred(tier.ratePerHour), Pred(tier.BurstLimit())) + 59 * Pred(tier.BurstLimit())
  }

  /** A whole hour, in every interleaving in which each request reads the clock once. */
  lemma HourlyTotalOneClock(steps: seq<Step>, agent: string, tier: Tier, from: real, to: real)
    requires Timely(Start, steps, 0, 0.0) && SameTier(Run(Start, steps, 0).log, agent, tier) && to - from <= HOUR
    ensures var s := Run(Start, steps, 0);
            AcceptedIn(s, |s.log|, agent, from, to) <= HourlyMaximum(tier)
  {
    var s, mid := Run(Start, steps, 0), from + MINUTE;
    RunInv(Start, steps, 0, 0.0);
    FrontBound(s, |s.log|, agent, tier, from, to);
    BurstCover(s, agent, tier, mid, 0.0, 59);
    EndOf(mid, MINUTE - 0.0, 59);
    FrontSplit(s, |s.log|, agent, from, to, mid, End(mid, MINUTE - 0.0, 59));
  }

  /** In terms of limit L and burst allowance a: at most 2 L + 60 a - 61. */
  lemma HourlyTotalInLimits(steps: seq<Step>, agent: string, tier: Tier, from: real, to: real)
    requires Timely(Start, steps, 0, 0.0) && SameTier(Run(Start, steps, 0).log, agent, tier) && to - from <= HOUR
    requires tier.ratePerHour >= 1 && tier.BurstLimit() >= 1
    ensures var s := Run(Start, steps, 0);
            AcceptedIn(s, |s.log|, agent, from, to) <= 2 * tier.ratePerHour + 60 * tier.burstAllowance - 61
  {
    HourlyTotalOneClock(steps, agent, tier, from, to);
  }

  // ---------- The per-tool bound ----------

  /** Accepted calls of one tool by an agent, recorded in the window. */
  function ToolAcceptedIn(s: State, n: nat, agent: string, tool: string, from: real, to: real): nat
    requires n <= |s.log| == |s.phases|
  {
    if n == 0 then 0 else
      ToolAcceptedIn(s, n - 1, agent, tool, from, to)
      + if AcceptedAt(s, n - 1, agent, from, to) && s.log[n - 1].request.tool == tool then 1 else 0
  }

  lemma {:induction false} ToolCounted(s: State, n: nat, agent: string, tool: string, from: real, to: real)
    requires n <= |s.log| == |s.phases|
    ensures ToolAcceptedIn(s, n, agent, tool, from, to) <= CountTool(s.log, n, agent, tool, from)
  {
    if n > 0 {
      ToolCounted(s, n - 1, agent, tool, from, to);
    }
  }

  predicate SameToolLimit(log: seq<Event>, agent: string, tool: string, limit: nat) {
    forall i :: 0 <= i < |log| && log[i].request.agent == agent && log[i].request.tool == tool ==>
      log[i].request.toolLimit == Some(limit)
  }

  lemma {:induction false} ToolBound(
      s: State, n: nat, agent: string, tool: string, limit: nat, from: real, to: real, lag: real)
    requires Inv(s, lag) && SameToolLimit(s.log, agent, tool, limit) && n <= |s.log|
    requires to - from <= HOUR - lag
    ensures ToolAcceptedIn(s, n, agent, tool, from, to) <= Pred(limit)
  {
    if n > 0 {
      ToolBound(s, n - 1, agent, tool, limit, from, to, lag);
      var i := n - 1;
      if AcceptedAt(s, i, agent, from, to) && s.log[i].request.tool == tool {
        assert PhaseInv(s.log, s.phases[i], i, lag);
        ToolCounted(s, n, agent, tool, from, to);
        CountToolMono(s.log, s.log, n, n, agent, tool, from, s.log[i].ts + lag - HOUR);
      }
    }
  }

  /** A tool's own limit has no burst escape: it is a true hourly bound. */
  lemma ToolHourlyTotal(steps: seq<Step>, lag: real, agent: string, tool: string, limit: nat, from: real, to: real)
    requires Timely(Start, steps, 0, lag) && to - from <= HOUR - lag
    requires SameToolLimit(Run(Start, steps, 0).log, agent, tool, limit)
    ensures var s := Run(Start, steps, 0);
            ToolAcceptedIn(s, |s.log|, agent, tool, from, to) <= Pred(limit)
  {
    RunInv(Start, steps, 0, lag);
    ToolBound(Run(Start, steps, 0), |Run(Start, steps, 0).log|, agent, tool, limit, from, to, lag);
  }

  // ---------- Without a bound on the lag ----------

  lemma CountNone(log: seq<Event>, n: nat, agent: string, since: real)
    requires n <= |log| && forall i :: 0 <= i < n ==> log[i].ts < since
    ensures Count(log, n, agent, since) == 0
  {
  }

  /**
   The lag must be bounded: however many requests have recorded, one that counts more than an
   hour after the last of them sees none, and passes any limit of at least one call.
   */
  lemma LateCountsSeeNothing(s: State, i: nat, now: real)
    requires |s.phases| == |s.log| && i < |s.log| && s.phases[i].Recorded?
    requires forall j :: 0 <= j < |s.log| ==> s.log[j].ts < now - HOUR
    requires s.log[i].request.tier.ratePerHour >= 1 && s.log[i].request.toolLimit.None?
    ensures Next(s, CountHour(i, now)).phases[i] == Accepted(0)
  {
    CountNone(s.log, |s.log|, s.log[i].request.agent, now - HOUR);
  }

  // ---------- Refusals are due ----------

  /** The events that a refusal speaks of are there: in the hour and the minute, or of the tool in the hour. */
  predicate RefusalOk(log: seq<Event>, phase: Phase, i: nat)
    requires i < |log|
  {
    var e := log[i];
    match phase
    case OverHourly(_) => Count(log, |log|, e.request.agent, e.ts - HOUR) >= e.request.tier.ratePerHour
    case RateLimited =>
      && Count(log, |log|, e.request.agent, e.ts - HOUR) >= e.request.tier.ratePerHour
      && Count(log, |log|, e.request.agent, e.ts - MINUTE) >= e.request.tier.BurstLimit()
    case ToolLimited =>
      && e.request.toolLimit.Some?
      && CountTool(log, |log|, e.request.agent, e.request.tool, e.ts - HOUR) >= e.request.toolLimit.value
    case _ => true
  }

  predicate RefusalsOk(s: State) {
    |s.phases| == |s.log| && forall i :: 0 <= i < |s.log| ==> RefusalOk(s.log, s.phases[i], i)
  }

  lemma RefusalGrows(log: seq<Event>, e: Event, phase: Phase, i: nat)
    requires i < |log| && RefusalOk(log, phase, i)
    ensures RefusalOk(log + [e], phase, i)
  {
    var r, ts := log[i].request, log[i].ts;
    CountMono(log, log + [e], |log|, |log| + 1, r.agent, ts - HOUR, ts - HOUR);
    CountMono(log, log + [e], |log|, |log| + 1, r.agent, ts - MINUTE, ts - MINUTE);
    CountToolMono(log, log + [e], |log|, |log| + 1, r.agent, r.tool, ts - HOUR, ts - HOUR);
  }

  lemma SteppedRefusal(s: State, step: Step, lag: real)
    requires RefusalsOk(s) && StepTimely(s, step, lag) && !step.Record? && step.i < |s.log|
    ensures RefusalOk(s.log, NextPhase(s, step), step.i)
  {
    var n, r, ts := |s.log|, s.log[step.i].request, s.log[step.i].ts;
    assert RefusalOk(s.log, s.phases[step.i], step.i);
    CountMono(s.log, s.log, n, n, r.agent, step.now - HOUR, ts - HOUR);
    CountMono(s.log, s.log, n, n, r.agent, step.now - MINUTE, ts - MINUTE);
    CountToolMono(s.log, s.log, n, n, r.agent, r.tool, step.now - HOUR, ts - HOUR);
  }

  lemma NextRefusals(s: State, step: Step, lag: real)
    requires RefusalsOk(s) && StepTimely(s, step, lag)
    ensures RefusalsOk(Next(s, step))
  {
    var s' := Next(s, step);
    forall i | 0 <= i < |s'.log| ensures RefusalOk(s'.log, s'.phases[i], i) {
      if step.Record? && i < |s.log| {
        RefusalGrows(s.log, Event(step.request, step.now), s.phases[i], i);
      } else if !step.Record? {
        assert RefusalOk(s.log, s.phases[i], i);
        if step.i == i {
          SteppedRefusal(s, step, lag);
        }
      }
    }
  }

  lemma {:induction false} RunRefusals(s: State, steps: seq<Step>, k: nat, lag: real)
    requires k <= |steps| && RefusalsOk(s) && Timely(s, steps, k, lag)
    ensures RefusalsOk(Run(s, steps, k))
    decreases |steps| - k
  {
    if k < |steps| {
      NextRefusals(s, steps[k], lag);
      RunRefusals(Next(s, steps[k]), steps, k + 1, lag);
    }
  }

  /**
   In every run, an agent is refused only when its own events of the last hour reach the hourly limit and
   those of the last minute the burst limit, or when its events of this very tool in the last hour reach
   the limit of the tool: calls of other tools, or of other agents, never cause a refusal by a tool.
   */
  lemma RefusalsAreDue(steps: seq<Step>, lag: real, i: nat)
    requires Timely(Start, steps, 0, lag) && i < |Run(Start, steps, 0).log|
    ensures var s := Run(Start, steps, 0);
            var r, hourAgo, minuteAgo := s.log[i].request, s.log[i].ts - 3600.0, s.log[i].ts - 60.0;
            && (s.phases[i].RateLimited? ==>
                  && |set j | 0 <= j < |s.log| && s.log[j].request.agent == r.agent && s.log[j].ts >= hourAgo|
                     >= r.tier.ratePerHour
                  && |set j | 0 <= j < |s.log| && s.log[j].request.agent == r.agent && s.log[j].ts >= minuteAgo|
                     >= r.tier.ratePerHour / 60 + r.tier.burstAllowance)
            && (s.phases[i].ToolLimited? ==>
                  && r.toolLimit.Some?
                  && |set j | 0 <= j < |s.log| && s.log[j].request.agent == r.agent
                        && s.log[j].request.tool == r.tool && s.log[j].ts >= hourAgo|
                     >= r.toolLimit.value)
  {
    RunRefusals(Start, steps, 0, lag);
    var s := Run(Start, steps, 0);
    assert RefusalOk(s.log, s.phases[i], i);
    CountsAreSizes(s.log, s.log[i].request, s.log[i].ts, s.log[i].ts, s.log[i].ts);
  }

  // ---------- The dependency itself, run without interruption ----------

  lemma CountsAreSizes(log: seq<Event>, request: Request, t1: real, t2: real, t3: real)
    ensures Count(log, |log|, request.agent, t1 - HOUR)
            == |set i | 0 <= i < |log| && log[i].request.agent == request.agent && log[i].ts >= t1 - 3600.0|
    ensures Count(log, |log|, request.agent, t2 - MINUTE)
            == |set i | 0 <= i < |log| && log[i].request.agent == request.agent && log[i].ts >= t2 - 60.0|
    ensures CountTool(log, |log|, request.agent, request.tool, t3 - HOUR)
            == |set i | 0 <= i < |log| && log[i].request.agent == request.agent
                  && log[i].request.tool == request.tool && log[i].ts >= t3 - 3600.0|
  {
    var hour, minute, tool := t1 - HOUR, t2 - MINUTE, t3 - HOUR;
    CountIsSize(log, |log|, request.agent, hour);
    CountIsSize(log, |log|, request.agent, minute);
    CountToolIsSize(log, |log|, request.agent, request.tool, tool);
    assert (set i | 0 <= i < |log| && IsCounted(log, i, request.agent, hour))
        == (set i | 0 <= i < |log| && log[i].request.agent == request.agent && log[i].ts >= t1 - 3600.0);
    assert (set i | 0 <= i < |log| && IsCounted(log, i, request.agent, minute))
        == (set i | 0 <= i < |log| && log[i].request.agent == request.agent && log[i].ts >= t2 - 60.0);
    assert (set i | 0 <= i < |log| && IsToolCounted(log, i, request.agent, request.tool, tool))
        == (set i | 0 <= i < |log| && log[i].request.agent == request.agent
              && log[i].request.tool == request.tool && log[i].ts >= t3 - 3600.0);
  }

  datatype Denied =
    | InsufficientTier
    | RateLimitError(count: nat, limit: nat)
    | ToolRateLimitError(count: nat, limit: nat)

  class PaywallStorage {
    var rateEvents: seq<Event>

    constructor ()
      ensures rateEvents == []
    {
      rateEvents := [];
    }

    method RecordRateEvent(request: Request, now: real)
      modifies this
      ensures rateEvents == old(rateEvents) + [Event(request, now)]
    {
      rateEvents := rateEvents + [Event(request, now)];
    }

    /**
     `check_rate_limits`: `t0` is the clock when the event is recorded, `t1`, `t2` and `t3` when
     the hourly, the burst and the tool count are taken.
     */
    method CheckRateLimits(request: Request, isAdmin: bool, hasAccess: bool, t0: real, t1: real, t2: real, t3: real)
      returns (r: Result<nat, Denied>)
      modifies this
      ensures isAdmin || !hasAccess ==> rateEvents == old(rateEvents)
      ensures isAdmin ==> r == Ok(0)
      ensures !isAdmin && !hasAccess ==> r == Err(InsufficientTier)
      ensures !isAdmin && hasAccess ==>
        && rateEvents == old(rateEvents) + [Event(request, t0)]
        && r == Verdict(rateEvents, request, t1, t2, t3)
      ensures !isAdmin && hasAccess ==>
        var hour := |set i | 0 <= i < |rateEvents|
                      && rateEvents[i].request.agent == request.agent && rateEvents[i].ts >= t1 - 3600.0|;
        var minute := |set i | 0 <= i < |rateEvents|
                        && rateEvents[i].request.agent == request.agent && rateEvents[i].ts >= t2 - 60.0|;
        var tool := |set i | 0 <= i < |rateEvents|
                      && rateEvents[i].request.agent == request.agent && rateEvents[i].request.tool == request.tool
                      && rateEvents[i].ts >= t3 - 3600.0|;
        var limit := request.tier.ratePerHour;
        if hour >= limit && minute >= limit / 60 + request.tier.burstAllowance then
          r == Err(RateLimitError(hour, limit))
        else if request.toolLimit.Some? && tool >= request.toolLimit.value
        then r == Err(ToolRateLimitError(tool, request.toolLimit.value))
        else r == Ok(hour)
    {
      if isAdmin {
        return Ok(0);
      }
      if !hasAccess {
        return Err(InsufficientTier);
      }
      RecordRateEvent(request, t0);
      var n := |rateEvents|;
      CountsAreSizes(rateEvents, request, t1, t2, t3);
      var rateCount := Count(rateEvents, n, request.agent, t1 - HOUR);
      if rateCount >= request.tier.ratePerHour {
        var burstCount := Count(rateEvents, n, request.agent, t2 - MINUTE);
        if burstCount >= request.tier.BurstLimit() {
          return Err(RateLimitError(rateCount, request.tier.ratePerHour));
        }
      }
      if request.toolLimit.Some? {
        var toolCount := CountTool(rateEvents, n, request.agent, request.tool, t3 - HOUR);
        if toolCount >= request.toolLimit.value {
          return Err(ToolRateLimitError(toolCount, request.toolLimit.value));
        }
      }
      return Ok(rateCount);
    }
  }

  /** The verdict on the request whose event is the last of the log. */
  function Verdict(log: seq<Event>, request: Request, t1: real, t2: real, t3: real): Result<nat, Denied> {
    var n := |log|;
    var rateCount := Count(log, n, request.agent, t1 - HOUR);
    if rateCount >= request.tier.ratePerHour
       && Count(log, n, request.agent, t2 - MINUTE) >= request.tier.BurstLimit()
    then Err(RateLimitError(rateCount, request.tier.ratePerHour))
    else if request.toolLimit.None? then Ok(rateCount)
    else
      var toolCount := CountTool(log, n, request.agent, request.tool, t3 - HOUR);
      if toolCount >= request.toolLimit.value then Err(ToolRateLimitError(toolCount, request.toolLimit.value))
      else Ok(rateCount)
  }

  /** An uninterrupted check is one particular run of the interleaved steps, with the same verdict. */
  lemma CheckIsARun(s: State, request: Request, t0: real, t1: real, t2: real, t3: real)
    requires |s.phases| == |s.log|
    ensures var i := |s.log|;
            var s1 := Next(s, Record(request, t0));
            var s2 := Next(s1, CountHour(i, t1));
            var s3 := if s2.phases[i].OverHourly? then Next(s2, CountBurst(i, t2)) else s2;
            var s4 := if s3.phases[i].TierPassed? then Next(s3, CheckTool(i, t3)) else s3;
            match Verdict(s1.log, request, t1, t2, t3)
            case Ok(rateCount) => s4.phases[i] == Accepted(rateCount)
            case Err(RateLimitError(_, _)) => s4.phases[i] == RateLimited
            case Err(ToolRateLimitError(_, _)) => s4.phases[i] == ToolLimited
            case Err(InsufficientTier) => false
  {
    var i := |s.log|;
    var s1 := Next(s, Record(request, t0));
    assert s1.log[i] == Event(request, t0) && s1.phases[i] == Recorded;
  }
}
