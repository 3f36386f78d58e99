/**
 Budget caps (gateway/src/deps/tool_context.py): a paid call is let through when the spend of the
 past day and of the past 30 days, plus its own cost, stays within the caps of the agent; its cost
 is recorded when it has finished.

 One agent with fixed caps. A call reads its clock once, then sums the usage table for the daily
 cap and again for the monthly cap; its row carries a clock value read later. Everything any other
 call does may come between two of these steps. Costs and caps are in atomic units.
 */
module BudgetCaps {
  import opened Basics

  const DAY: real := 86400.0
  const MONTH: real := 30.0 * 86400.0

  datatype Kind = Daily | Monthly

  datatype Caps = Caps(daily: Option<int>, monthly: Option<int>)

  /** A row of the usage table. */
  datatype Usage = Usage(cost: nat, at: real)

  /** Closed below, and above when `to` is given. */
  datatype Window = Window(from: real, to: Option<real>)

  predicate Inside(at: real, w: Window) {
    w.from <= at && (w.to.Some? ==> at <= w.to.value)
  }

  function Length(kind: Kind): real {
    if kind.Daily? then DAY else MONTH
  }

  function CapOf(caps: Caps, kind: Kind): Option<int> {
    if kind.Daily? then caps.daily else caps.monthly
  }

  function Spent(rows: seq<Usage>, n: nat, w: Window): nat
    requires n <= |rows|
  {
    if n == 0 then 0 else Spent(rows, n - 1, w) + if Inside(rows[n - 1].at, w) then rows[n - 1].cost else 0
  }

  function SumCostSince(rows: seq<Usage>, since: real): nat {
    Spent(rows, |rows|, Window(since, None))
  }

  // ---------- Calls as steps ----------

  /**
   What a call remembers of passing a check: the place of the check among all checks, and
   the cost then in flight, that is, of the other calls that had passed this check and not ended.
   */
  datatype Pass = Pass(order: nat, inFlight: nat)

  datatype Phase = AtDaily | AtMonthly | Running | Refused | Unrecorded | Recorded(at: real)

  datatype Call = Call(cost: nat, now: real, daily: Option<Pass>, monthly: Option<Pass>, phase: Phase)

  datatype State = State(calls: seq<Call>, rows: seq<Usage>, passed: nat)

  /**
   `Arrive` brings a call; one without cost is checked only if its body has an amount. `Check` is
   one comparison with a cap. `Finish` ends a call, and records its cost at the given time unless
   the row is a duplicate or the call failed.
   */
  datatype Step = Arrive(cost: nat, now: real, amount: bool) | Check(i: nat) | Finish(i: nat, at: Option<real>)

  const Start := State([], [], 0)

  function PassOf(c: Call, kind: Kind): Option<Pass> {
    if kind.Daily? then c.daily else c.monthly
  }

  predicate InFlight(c: Call, kind: Kind) {
    PassOf(c, kind).Some? && (c.phase.AtMonthly? || c.phase.Running?)
  }

  function CostInFlight(calls: seq<Call>, n: nat, kind: Kind): nat
    requires n <= |calls|
  {
    if n == 0 then 0
    else CostInFlight(calls, n - 1, kind)
         + if InFlight(calls[n - 1], kind) then calls[n - 1].cost else 0
  }

  predicate Fits(rows: seq<Usage>, c: Call, cap: Option<int>, kind: Kind) {
    cap.None? || SumCostSince(rows, c.now - Length(kind)) + c.cost <= cap.value
  }

  function Passed(s: State, c: Call, cap: Option<int>, kind: Kind): Option<Pass> {
    if cap.None? then None else Some(Pass(s.passed, CostInFlight(s.calls, |s.calls|, kind)))
  }

  function Checked(s: State, c: Call, caps: Caps): Call {
    if c.phase.AtDaily? then
      if !Fits(s.rows, c, caps.daily, Daily) then c.(phase := Refused)
      else c.(phase := AtMonthly, daily := Passed(s, c, caps.daily, Daily))
    else
      if !Fits(s.rows, c, caps.monthly, Monthly) then c.(phase := Refused)
      else c.(phase := Running, monthly := Passed(s, c, caps.monthly, Monthly))
  }

  /** A step that does not fit the phase of its call changes nothing. */
  function Next(s: State, caps: Caps, step: Step): State {
    if step.Arrive? then
      var phase := if step.cost > 0 || step.amount then AtDaily else Running;
      s.(calls := s.calls + [Call(step.cost, step.now, None, None, phase)])
    else if step.i >= |s.calls| then s
    else
      var c := s.calls[step.i];
      match step
      case Arrive(_, _, _) => s
      case Check(i) =>
        if !c.phase.AtDaily? && !c.phase.AtMonthly? then s
        else s.(calls := s.calls[i := Checked(s, c, caps)], passed := s.passed + 1)
      case Finish(i, at) =>
        if !c.phase.Running? || (at.Some? && at.value < c.now) then s
        else if at.None? then s.(calls := s.calls[i := c.(phase := Unrecorded)])
        else s.(calls := s.calls[i := c.(phase := Recorded(at.value))], rows := s.rows + [Usage(c.cost, at.value)])
  }

  function Run(s: State, caps: Caps, steps: seq<Step>, k: nat): State
    requires k <= |steps|
    decreases |steps| - k
  {
    if k == |steps| then s else Run(Next(s, caps, steps[k]), caps, steps, k + 1)
  }

  // ---------- The table holds what the calls recorded ----------

  function Charged(calls: seq<Call>, n: nat, w: Window): nat
    requires n <= |calls|
  {
    if n == 0 then 0
    else Charged(calls, n - 1, w)
         + if calls[n - 1].phase.Recorded? && Inside(calls[n - 1].phase.at, w) then calls[n - 1].cost else 0
  }

  ghost predicate TableInv(s: State) {
    forall w :: Spent(s.rows, |s.rows|, w) == Charged(s.calls, |s.calls|, w)
  }

  lemma {:induction false} SpentFrame(a: seq<Usage>, b: seq<Usage>, n: nat, w: Window)
    requires n <= |a| && n <= |b| && forall i :: 0 <= i < n ==> a[i] == b[i]
    ensures Spent(a, n, w) == Spent(b, n, w)
  {
    if n > 0 {
      SpentFrame(a, b, n - 1, w);
    }
  }

  lemma {:induction false} ChargedFrame(a: seq<Call>, b: seq<Call>, n: nat, w: Window)
    requires n <= |a| && n <= |b|
    requires forall i :: 0 <= i < n ==>
               a[i] == b[i] || (a[i].cost == b[i].cost && !a[i].phase.Recorded? && !b[i].phase.Recorded?)
    ensures Charged(a, n, w) == Charged(b, n, w)
  {
    if n > 0 {
      ChargedFrame(a, b, n - 1, w);
    }
  }

  lemma {:induction false} ChargedOnce(calls: seq<Call>, i: nat, at: real, n: nat, w: Window)
    requires i < n <= |calls| && !calls[i].phase.Recorded?
    ensures var calls' := calls[i := calls[i].(phase := Recorded(at))];
            Charged(calls', n, w) == Charged(calls, n, w) + if Inside(at, w) then calls[i].cost else 0
  {
    var calls' := calls[i := calls[i].(phase := Recorded(at))];
    if n == i + 1 {
      ChargedFrame(calls, calls', i, w);
    } else {
      ChargedOnce(calls, i, at, n - 1, w);
    }
  }

  predicate Records(s: State, step: Step) {
    && step.Finish? && step.at.Some?
    && step.i < |s.calls| && s.calls[step.i].phase.Running? && s.calls[step.i].now <= step.at.value
  }

  lemma NextTableWindow(s: State, caps: Caps, step: Step, w: Window)
    requires Spent(s.rows, |s.rows|, w) == Charged(s.calls, |s.calls|, w)
    ensures var s' := Next(s, caps, step); Spent(s'.rows, |s'.rows|, w) == Charged(s'.calls, |s'.calls|, w)
  {
    var s' := Next(s, caps, step);
    if Records(s, step) {
      SpentFrame(s.rows, s'.rows, |s.rows|, w);
      ChargedOnce(s.calls, step.i, step.at.value, |s.calls|, w);
    } else {
      ChargedFrame(s.calls, s'.calls, |s.calls|, w);
    }
  }

  lemma NextTable(s: State, caps: Caps, step: Step)
    requires TableInv(s)
    ensures TableInv(Next(s, caps, step))
  {
    var s' := Next(s, caps, step);
    forall w ensures Spent(s'.rows, |s'.rows|, w) == Charged(s'.calls, |s'.calls|, w) {
      NextTableWindow(s, caps, step, w);
    }
  }

  // ---------- What a passed check reserves ----------

  /**
   Whether `c` weighs on a check of place `order` over spend from `from`: it passed no later, and may
   still be recorded or was recorded since.
   */
  predicate Weighs(c: Call, kind: Kind, order: nat, from: real) {
    && PassOf(c, kind).Some? && PassOf(c, kind).value.order <= order
    && (c.phase.AtMonthly? || c.phase.Running? || (c.phase.Recorded? && from <= c.phase.at))
  }

  function Weight(calls: seq<Call>, n: nat, kind: Kind, order: nat, from: real): nat
    requires n <= |calls|
  {
    if n == 0 then 0
    else Weight(calls, n - 1, kind, order, from)
         + if Weighs(calls[n - 1], kind, order, from) then calls[n - 1].cost else 0
  }

  predicate CallOk(c: Call, caps: Caps) {
    && (c.phase.AtDaily? ==> c.daily.None?)
    && (c.phase.AtDaily? || c.phase.AtMonthly? ==> c.monthly.None?)
    && (c.daily.Some? ==> caps.daily.Some?)
    && (c.monthly.Some? ==> caps.monthly.Some?)
    && (c.phase.AtMonthly? || c.phase.Running? || c.phase.Recorded? ==>
          c.cost == 0 || caps.daily.None? || c.daily.Some?)
    && (c.phase.Running? || c.phase.Recorded? ==> c.cost == 0 || caps.monthly.None? || c.monthly.Some?)
    && (c.phase.Recorded? ==> c.now <= c.phase.at)
  }

  predicate OrderOk(s: State, c: Call) {
    && (c.daily.Some? ==> c.daily.value.order < s.passed)
    && (c.monthly.Some? ==> c.monthly.value.order < s.passed)
  }

  /** The check of `c` has room for everything that weighs on it, up to what was in flight. */
  predicate Reserved(s: State, c: Call, caps: Caps, kind: Kind) {
    PassOf(c, kind).Some? && CapOf(caps, kind).Some? ==>
      var p := PassOf(c, kind).value;
      Weight(s.calls, |s.calls|, kind, p.order, c.now - Length(kind)) <= CapOf(caps, kind).value + p.inFlight
  }

  predicate AllReserved(s: State, caps: Caps, kind: Kind) {
    forall i :: 0 <= i < |s.calls| ==> Reserved(s, s.calls[i], caps, kind)
  }

  predicate CallsOk(s: State, caps: Caps) {
    forall i :: 0 <= i < |s.calls| ==> CallOk(s.calls[i], caps) && OrderOk(s, s.calls[i])
  }

  ghost predicate Inv(s: State, caps: Caps) {
    TableInv(s) && CallsOk(s, caps) && AllReserved(s, caps, Daily) && AllReserved(s, caps, Monthly)
  }

  lemma NextCallsOk(s: State, caps: Caps, step: Step)
    requires CallsOk(s, caps)
    ensures CallsOk(Next(s, caps, step), caps)
  {
  }

  lemma {:induction false} WeightFalls(a: seq<Call>, b: seq<Call>, n: nat, kind: Kind, order: nat, from: real)
    requires n <= |a| && n <= |b|
    requires forall i :: 0 <= i < n ==>
               a[i].cost == b[i].cost && (Weighs(b[i], kind, order, from) ==> Weighs(a[i], kind, order, from))
    ensures Weight(b, n, kind, order, from) <= Weight(a, n, kind, order, from)
  {
    if n > 0 {
      WeightFalls(a, b, n - 1, kind, order, from);
    }
  }

  /** No step makes a call weigh on a check that was passed before. */
  lemma NextWeight(s: State, caps: Caps, step: Step, kind: Kind, order: nat, from: real)
    requires CallsOk(s, caps) && order < s.passed
    ensures var s' := Next(s, caps, step);
            Weight(s'.calls, |s'.calls|, kind, order, from) <= Weight(s.calls, |s.calls|, kind, order, from)
  {
    var s' := Next(s, caps, step);
    forall i | 0 <= i < |s.calls|
      ensures s.calls[i].cost == s'.calls[i].cost
      ensures Weighs(s'.calls[i], kind, order, from) ==> Weighs(s.calls[i], kind, order, from)
    {
      assert CallOk(s.calls[i], caps);
    }
    WeightFalls(s.calls, s'.calls, |s.calls|, kind, order, from);
  }

  /** What weighs on a check just passed: the spend it read, what was in flight, and the call itself. */
  lemma {:induction false} WeightSplits(a: seq<Call>, b: seq<Call>, q: nat, n: nat, kind: Kind, order: nat, from: real)
    requires n <= |a| == |b| && q < |a|
    requires forall i :: 0 <= i < |a| && i != q ==> a[i] == b[i]
    requires a[q].cost == b[q].cost
    ensures Weight(b, n, kind, order, from)
            <= Charged(a, n, Window(from, None)) + CostInFlight(a, n, kind) + if q < n then a[q].cost else 0
  {
    if n > 0 {
      WeightSplits(a, b, q, n - 1, kind, order, from);
    }
  }

  lemma CheckReserves(s: State, caps: Caps, i: nat, kind: Kind)
    requires TableInv(s) && CallsOk(s, caps) && i < |s.calls|
    requires PassOf(s.calls[i], kind).None? && PassOf(Next(s, caps, Check(i)).calls[i], kind).Some?
    ensures Reserved(Next(s, caps, Check(i)), Next(s, caps, Check(i)).calls[i], caps, kind)
  {
    var s' := Next(s, caps, Check(i));
    var c := s'.calls[i];
    if CapOf(caps, kind).Some? {
      var from := c.now - Length(kind);
      WeightSplits(s.calls, s'.calls, i, |s.calls|, kind, PassOf(c, kind).value.order, from);
      assert Spent(s.rows, |s.rows|, Window(from, None)) == Charged(s.calls, |s.calls|, Window(from, None));
    }
  }

  lemma NextReservedCall(s: State, caps: Caps, step: Step, i: nat, kind: Kind)
    requires Inv(s, caps) && i < |Next(s, caps, step).calls|
    ensures Reserved(Next(s, caps, step), Next(s, caps, step).calls[i], caps, kind)
  {
    var s' := Next(s, caps, step);
    if i < |s.calls| {
      if PassOf(s.calls[i], kind).None? && PassOf(s'.calls[i], kind).Some? {
        CheckReserves(s, caps, i, kind);
      } else if PassOf(s.calls[i], kind).Some? {
        assert CallOk(s.calls[i], caps) && OrderOk(s, s.calls[i]);
        assert Reserved(s, s.calls[i], caps, kind);
        NextWeight(s, caps, step, kind, PassOf(s.calls[i], kind).value.order, s.calls[i].now - Length(kind));
      }
    }
  }

  lemma NextReserved(s: State, caps: Caps, step: Step, kind: Kind)
    requires Inv(s, caps)
    ensures AllReserved(Next(s, caps, step), caps, kind)
  {
    var s' := Next(s, caps, step);
    forall i | 0 <= i < |s'.calls| ensures Reserved(s', s'.calls[i], caps, kind) {
      NextReservedCall(s, caps, step, i, kind);
    }
  }

  lemma NextInv(s: State, caps: Caps, step: Step)
    requires Inv(s, caps)
    ensures Inv(Next(s, caps, step), caps)
  {
    NextTable(s, caps, step);
    NextCallsOk(s, caps, step);
    NextReserved(s, caps, step, Daily);
    NextReserved(s, caps, step, Monthly);
  }

  lemma {:induction false} RunInv(s: State, caps: Caps, steps: seq<Step>, k: nat)
    requires k <= |steps| && Inv(s, caps)
    ensures Inv(Run(s, caps, steps, k), caps)
    decreases |steps| - k
  {
    if k < |steps| {
      NextInv(s, caps, steps[k]);
      RunInv(Next(s, caps, steps[k]), caps, steps, k + 1);
    }
  }

  // ---------- The spend of any window ----------

  /** `c` was checked against the cap of this kind and its cost was recorded inside the window. */
  predicate Counts(c: Call, kind: Kind, w: Window) {
    PassOf(c, kind).Some? && c.phase.Recorded? && Inside(c.phase.at, w)
  }

  /** Of the calls that count, the one whose check came last. */
  function LastChecked(calls: seq<Call>, n: nat, kind: Kind, w: Window): (r: Option<nat>)
    requires n <= |calls|
    ensures r.Some? ==> r.value < n && Counts(calls[r.value], kind, w)
    ensures r.Some? ==>
              forall i :: 0 <= i < n && Counts(calls[i], kind, w) ==>
                PassOf(calls[i], kind).value.order <= PassOf(calls[r.value], kind).value.order
    ensures r.None? ==> forall i :: 0 <= i < n ==> !Counts(calls[i], kind, w)
  {
    if n == 0 then None
    else
      var r := LastChecked(calls, n - 1, kind, w);
      if !Counts(calls[n - 1], kind, w) then r
      else if r.None? || PassOf(calls[r.value], kind).value.order <= PassOf(calls[n - 1], kind).value.order
      then Some(n - 1)
      else r
  }

  lemma {:induction false} ChargedWeighs(calls: seq<Call>, n: nat, kind: Kind, order: nat, from: real, w: Window)
    requires n <= |calls| && from <= w.from
    requires forall i :: 0 <= i < n && calls[i].phase.Recorded? && Inside(calls[i].phase.at, w) ==>
               || calls[i].cost == 0
               || (PassOf(calls[i], kind).Some? && PassOf(calls[i], kind).value.order <= order)
    ensures Charged(calls, n, w) <= Weight(calls, n, kind, order, from)
  {
    if n > 0 {
      ChargedWeighs(calls, n - 1, kind, order, from, w);
    }
  }

  lemma {:induction false} NothingCharged(calls: seq<Call>, n: nat, w: Window)
    requires n <= |calls|
    requires forall i :: 0 <= i < n && calls[i].phase.Recorded? && Inside(calls[i].phase.at, w) ==> calls[i].cost == 0
    ensures Charged(calls, n, w) == 0
  {
    if n > 0 {
      NothingCharged(calls, n - 1, w);
    }
  }

  /** The cost recorded in the closed window of this kind that starts at `t`. */
  function WindowSpend(s: State, kind: Kind, t: real): nat {
    Spent(s.rows, |s.rows|, Window(t, Some(t + Length(kind))))
  }

  function LastInFlight(s: State, kind: Kind, t: real): nat {
    var q := LastChecked(s.calls, |s.calls|, kind, Window(t, Some(t + Length(kind))));
    if q.None? then 0 else PassOf(s.calls[q.value], kind).value.inFlight
  }

  lemma WindowBound(s: State, caps: Caps, kind: Kind, t: real)
    requires Inv(s, caps) && CapOf(caps, kind).Some?
    ensures || WindowSpend(s, kind, t) == 0
            || WindowSpend(s, kind, t) <= CapOf(caps, kind).value + LastInFlight(s, kind, t)
  {
    var w := Window(t, Some(t + Length(kind)));
    var q := LastChecked(s.calls, |s.calls|, kind, w);
    assert forall i :: 0 <= i < |s.calls| ==> CallOk(s.calls[i], caps);
    assert Spent(s.rows, |s.rows|, w) == Charged(s.calls, |s.calls|, w);
    if q.None? {
      forall i | 0 <= i < |s.calls| && s.calls[i].phase.Recorded? && Inside(s.calls[i].phase.at, w)
        ensures s.calls[i].cost == 0
      {
        assert !Counts(s.calls[i], kind, w);
      }
      NothingCharged(s.calls, |s.calls|, w);
    } else {
      var c := s.calls[q.value];
      var order := PassOf(c, kind).value.order;
      forall i | 0 <= i < |s.calls| && s.calls[i].phase.Recorded? && Inside(s.calls[i].phase.at, w)
        ensures || s.calls[i].cost == 0
                || (PassOf(s.calls[i], kind).Some? && PassOf(s.calls[i], kind).value.order <= order)
      {
        assert PassOf(s.calls[i], kind).Some? ==> Counts(s.calls[i], kind, w);
      }
      ChargedWeighs(s.calls, |s.calls|, kind, order, c.now - Length(kind), w);
      assert Reserved(s, c, caps, kind);
    }
  }

  /**
   In every interleaving, the cost recorded in any window of 24 hours or of 30 days exceeds the cap
   by at most the cost that was in flight at the last check of a call recorded in that window.
   */
  lemma CapHoldsUpToInFlight(caps: Caps, steps: seq<Step>, kind: Kind, t: real)
    requires CapOf(caps, kind).Some?
    ensures var s := Run(Start, caps, steps, 0);
            || WindowSpend(s, kind, t) == 0
            || WindowSpend(s, kind, t) <= CapOf(caps, kind).value + LastInFlight(s, kind, t)
  {
    RunInv(Start, caps, steps, 0);
    WindowBound(Run(Start, caps, steps, 0), caps, kind, t);
  }

  // ---------- Calls that do not overlap ----------

  predicate Ended(c: Call) {
    c.phase.Refused? || c.phase.Unrecorded? || c.phase.Recorded?
  }

  /** All calls but possibly the last have ended. */
  predicate OnlyLastOpen(s: State) {
    forall i :: 0 <= i < |s.calls| - 1 ==> Ended(s.calls[i])
  }

  /** A call arrives only when every earlier one has ended. */
  predicate OneAtATime(s: State, caps: Caps, steps: seq<Step>, k: nat)
    requires k <= |steps|
    decreases |steps| - k
  {
    k < |steps| ==>
      && (steps[k].Arrive? ==> forall i :: 0 <= i < |s.calls| ==> Ended(s.calls[i]))
      && OneAtATime(Next(s, caps, steps[k]), caps, steps, k + 1)
  }

  predicate PassedAlone(c: Call) {
    (c.daily.Some? ==> c.daily.value.inFlight == 0) && (c.monthly.Some? ==> c.monthly.value.inFlight == 0)
  }

  predicate AllAlone(s: State) {
    forall i :: 0 <= i < |s.calls| ==> PassedAlone(s.calls[i])
  }

  lemma {:induction false} NoneInFlight(calls: seq<Call>, n: nat, kind: Kind)
    requires n <= |calls| && forall i :: 0 <= i < n ==> !InFlight(calls[i], kind)
    ensures CostInFlight(calls, n, kind) == 0
  {
    if n > 0 {
      NoneInFlight(calls, n - 1, kind);
    }
  }

  lemma NextAlone(s: State, caps: Caps, step: Step)
    requires CallsOk(s, caps) && OnlyLastOpen(s) && AllAlone(s)
    requires step.Arrive? ==> forall i :: 0 <= i < |s.calls| ==> Ended(s.calls[i])
    ensures OnlyLastOpen(Next(s, caps, step)) && AllAlone(Next(s, caps, step))
  {
    if step.Check? && step.i < |s.calls| && !Ended(s.calls[step.i]) && !s.calls[step.i].phase.Running? {
      var kind := if s.calls[step.i].phase.AtDaily? then Daily else Monthly;
      forall i | 0 <= i < |s.calls| ensures !InFlight(s.calls[i], kind) {
        assert i == |s.calls| - 1 || Ended(s.calls[i]);
        assert CallOk(s.calls[i], caps);
      }
      NoneInFlight(s.calls, |s.calls|, kind);
    }
  }

  lemma {:induction false} RunAlone(s: State, caps: Caps, steps: seq<Step>, k: nat)
    requires k <= |steps| && OneAtATime(s, caps, steps, k)
    requires CallsOk(s, caps) && OnlyLastOpen(s) && AllAlone(s)
    ensures AllAlone(Run(s, caps, steps, k))
    decreases |steps| - k
  {
    if k < |steps| {
      NextCallsOk(s, caps, steps[k]);
      NextAlone(s, caps, steps[k]);
      RunAlone(Next(s, caps, steps[k]), caps, steps, k + 1);
    }
  }

  /** Without overlap, no window of 24 hours or of 30 days ever holds more recorded cost than its cap. */
  lemma CapHolds(caps: Caps, steps: seq<Step>, kind: Kind, t: real)
    requires CapOf(caps, kind).Some? && OneAtATime(Start, caps, steps, 0)
    ensures var s := Run(Start, caps, steps, 0);
            WindowSpend(s, kind, t) == 0 || WindowSpend(s, kind, t) <= CapOf(caps, kind).value
  {
    CapHoldsUpToInFlight(caps, steps, kind, t);
    RunAlone(Start, caps, steps, 0);
  }

  /** Calls that overlap do exceed it: two of cost `cap`, checked before either is recorded, spend it twice. */
  lemma OverlapExceedsTheCap(cap: nat)
    ensures var caps := Caps(Some(cap), None);
            var steps := [Arrive(cap, 0.0, true), Arrive(cap, 0.0, true), Check(0), Check(1), Check(0), Check(1),
                          Finish(0, Some(1.0)), Finish(1, Some(1.0))];
            WindowSpend(Run(Start, caps, steps, 0), Daily, 0.0) == cap + cap
  {
    var caps := Caps(Some(cap), None);
    var steps := [Arrive(cap, 0.0, true), Arrive(cap, 0.0, true), Check(0), Check(1), Check(0), Check(1),
                  Finish(0, Some(1.0)), Finish(1, Some(1.0))];
    var fresh0 := Call(cap, 0.0, None, None, AtDaily);
    var s2 := State([fresh0, fresh0], [], 0);
    assert Next(Next(Start, caps, steps[0]), caps, steps[1]) == s2;
    assert Run(Start, caps, steps, 0) == Run(Next(Start, caps, steps[0]), caps, steps, 1) == Run(s2, caps, steps, 2);
    var a := fresh0.(phase := AtMonthly, daily := Some(Pass(0, 0)));
    var b := fresh0.(phase := AtMonthly, daily := Some(Pass(1, cap)));
    var s3 := State([a, fresh0], [], 1);
    assert CostInFlight(s2.calls, 2, Daily) == CostInFlight(s2.calls, 1, Daily) == 0;
    assert Next(s2, caps, steps[2]) == s3;
    var s4 := State([a, b], [], 2);
    assert CostInFlight(s3.calls, 2, Daily) == CostInFlight(s3.calls, 1, Daily) == cap;
    assert Next(s3, caps, steps[3]) == s4;
    assert Run(s2, caps, steps, 2) == Run(s3, caps, steps, 3) == Run(s4, caps, steps, 4);
    var s6 := State([a.(phase := Running), b.(phase := Running)], [], 4);
    assert Next(Next(s4, caps, steps[4]), caps, steps[5]) == s6;
    assert Run(s4, caps, steps, 4) == Run(Next(s4, caps, steps[4]), caps, steps, 5) == Run(s6, caps, steps, 6);
    var s8 := State([a.(phase := Recorded(1.0)), b.(phase := Recorded(1.0))], [Usage(cap, 1.0), Usage(cap, 1.0)], 4);
    assert Next(Next(s6, caps, steps[6]), caps, steps[7]) == s8;
    assert Run(s6, caps, steps, 6) == Run(Next(s6, caps, steps[6]), caps, steps, 7) == Run(s8, caps, steps, 8) == s8;
    assert Spent(s8.rows, 1, Window(0.0, Some(DAY))) == cap;
  }

  // ---------- Caps as requested and as stored ----------

  const SCALE: real := 100000000.0

  /** Rounds toward zero, as a conversion to an integer does. */
  function Truncate(x: real): int {
    if x >= 0.0 then x.Floor else -(-x).Floor
  }

  function ToAtomic(cap: Option<real>): Option<int> {
    if cap.None? then None else Some(Truncate(cap.value * SCALE))
  }

  lemma Truncates(x: real)
    ensures -1.0 < Truncate(x) as real - x < 1.0
    ensures Truncate(x) as real <= x <==> x >= 0.0 || x.Floor as real == x
  {
    if x < 0.0 && x.Floor as real == x {
      assert (-x).Floor == -x.Floor;
    }
  }

  /**
   The stored cap is less than one unit away from the requested one, and it is not above it
   exactly when the cap is not negative or is a whole number of units.
   */
  lemma StoredCap(cap: real)
    ensures var stored := Truncate(cap * SCALE);
            && -1.0 < stored as real - cap * SCALE < 1.0
            && (stored as real <= cap * SCALE <==> cap >= 0.0 || (cap * SCALE).Floor as real == cap * SCALE)
  {
    Truncates(cap * SCALE);
    assert cap >= 0.0 <==> cap * SCALE >= 0.0;
  }

  /** What is stored for a cap: nothing for none, and otherwise the units as `StoredCap` says. */
  predicate StoresCap(cap: Option<real>, stored: Option<int>) {
    && (stored.None? <==> cap.None?)
    && (cap.Some? ==>
          && -1.0 < stored.value as real - cap.value * 100000000.0 < 1.0
          && (stored.value as real <= cap.value * 100000000.0
              <==> cap.value >= 0.0 || (cap.value * 100000000.0).Floor as real == cap.value * 100000000.0))
  }

  lemma CapIsStored(cap: Option<real>)
    ensures StoresCap(cap, ToAtomic(cap))
  {
    if cap.Some? {
      StoredCap(cap.value);
    }
  }

  /** In credits, for a requested cap of either sign: without overlap no window spends more than that. */
  lemma RequestedCapHolds(daily: Option<real>, monthly: Option<real>, steps: seq<Step>, kind: Kind, t: real)
    requires var requested := if kind.Daily? then daily else monthly; requested.Some?
    requires OneAtATime(Start, Caps(ToAtomic(daily), ToAtomic(monthly)), steps, 0)
    ensures var requested := if kind.Daily? then daily.value else monthly.value;
            var spend := WindowSpend(Run(Start, Caps(ToAtomic(daily), ToAtomic(monthly)), steps, 0), kind, t);
            spend == 0 || spend as real / SCALE <= requested
  {
    var requested := if kind.Daily? then daily.value else monthly.value;
    CapHolds(Caps(ToAtomic(daily), ToAtomic(monthly)), steps, kind, t);
    StoredCap(requested);
  }

  // ---------- The gate over its tables ----------

  datatype UsageRow = UsageRow(agent: string, usage: Usage, key: Option<string>)

  /** The rows of one agent, oldest first. */
  function RowsOf(table: seq<UsageRow>, agent: string): seq<Usage> {
    if table == [] then []
    else
      var last := table[|table| - 1];
      RowsOf(table[..|table| - 1], agent) + if last.agent == agent then [last.usage] else []
  }

  predicate Permits(rows: seq<Usage>, caps: Caps, cost: nat, now: real) {
    var c := Call(cost, now, None, None, AtDaily);
    Fits(rows, c, caps.daily, Daily) && Fits(rows, c, caps.monthly, Monthly)
  }

  /** Two checks with nothing in between let a call through exactly when the gate permits it. */
  lemma UninterruptedCheck(s: State, caps: Caps, i: nat)
    requires i < |s.calls| && s.calls[i].phase.AtDaily?
    ensures var s' := Next(Next(s, caps, Check(i)), caps, Check(i));
            && s'.rows == s.rows
            && (s'.calls[i].phase.Running? <==> Permits(s.rows, caps, s.calls[i].cost, s.calls[i].now))
            && (s'.calls[i].phase.Refused? <==> !Permits(s.rows, caps, s.calls[i].cost, s.calls[i].now))
  {
  }

  /** What the rows with these numbers cost together. */
  function Costs(table: seq<UsageRow>, idx: seq<nat>, n: nat): nat
    requires n <= |idx| && forall k :: 0 <= k < |idx| ==> idx[k] < |table|
  {
    if n == 0 then 0 else Costs(table, idx, n - 1) + table[idx[n - 1]].usage.cost
  }

  /** These numbers, in ascending order, are those of the agent's rows since then among the first `n`. */
  ghost predicate AreRecent(idx: seq<nat>, table: seq<UsageRow>, n: nat, agent: string, since: real)
    requires n <= |table|
  {
    && (forall j, k :: 0 <= j < k < |idx| ==> idx[j] < idx[k])
    && (forall k :: 0 <= k < |idx| ==> idx[k] < n)
    && (forall i :: 0 <= i < n ==> (i in idx <==> table[i].agent == agent && table[i].usage.at >= since))
  }

  lemma OneMoreRow(idx: seq<nat>, table: seq<UsageRow>, n: nat, agent: string, since: real, more: seq<nat>)
    requires n < |table| && AreRecent(idx, table, n, agent, since)
    requires more == if table[n].agent == agent && table[n].usage.at >= since then idx + [n] else idx
    ensures AreRecent(more, table, n + 1, agent, since)
  {
    forall i | 0 <= i < n ensures i in more <==> i in idx {
    }
    assert n !in idx;
  }

  lemma {:induction false} CostsFrame(table: seq<UsageRow>, idx: seq<nat>, other: seq<nat>, n: nat)
    requires n <= |idx| && n <= |other| && forall k :: 0 <= k < n ==> idx[k] == other[k]
    requires forall k :: 0 <= k < |idx| ==> idx[k] < |table|
    requires forall k :: 0 <= k < |other| ==> other[k] < |table|
    ensures Costs(table, idx, n) == Costs(table, other, n)
  {
    if n > 0 {
      CostsFrame(table, idx, other, n - 1);
    }
  }

  lemma RowsOfOneMore(table: seq<UsageRow>, n: nat, agent: string)
    requires n < |table|
    ensures RowsOf(table[..n + 1], agent)
            == RowsOf(table[..n], agent) + if table[n].agent == agent then [table[n].usage] else []
  {
    assert table[..n + 1][..n] == table[..n];
  }

  lemma SumOneMore(rows: seq<Usage>, u: Usage, since: real)
    ensures SumCostSince(rows + [u], since) == SumCostSince(rows, since) + if u.at >= since then u.cost else 0
  {
    SpentFrame(rows + [u], rows, |rows|, Window(since, None));
  }

  /** What one more row adds to the sum of an agent. */
  lemma SumOneMoreRow(table: seq<UsageRow>, n: nat, agent: string, since: real)
    requires n < |table|
    ensures SumCostSince(RowsOf(table[..n + 1], agent), since)
            == SumCostSince(RowsOf(table[..n], agent), since)
               + if table[n].agent == agent && table[n].usage.at >= since then table[n].usage.cost else 0
  {
    RowsOfOneMore(table, n, agent);
    if table[n].agent == agent {
      SumOneMore(RowsOf(table[..n], agent), table[n].usage, since);
    } else {
      assert RowsOf(table[..n], agent) + [] == RowsOf(table[..n], agent);
    }
  }

  lemma AddRecent(before: seq<nat>, table: seq<UsageRow>, n: nat, agent: string, since: real) returns (idx: seq<nat>)
    requires n < |table| && AreRecent(before, table, n, agent, since)
    ensures AreRecent(idx, table, n + 1, agent, since)
    ensures Costs(table, idx, |idx|)
            == Costs(table, before, |before|)
               + if table[n].agent == agent && table[n].usage.at >= since then table[n].usage.cost else 0
  {
    idx := if table[n].agent == agent && table[n].usage.at >= since then before + [n] else before;
    OneMoreRow(before, table, n, agent, since, idx);
    CostsFrame(table, idx, before, |before|);
  }

  lemma {:induction false} RecentRows(table: seq<UsageRow>, n: nat, agent: string, since: real) returns (idx: seq<nat>)
    requires n <= |table|
    ensures AreRecent(idx, table, n, agent, since)
    ensures Costs(table, idx, |idx|) == SumCostSince(RowsOf(table[..n], agent), since)
  {
    if n == 0 {
      idx := [];
    } else {
      var before := RecentRows(table, n - 1, agent, since);
      idx := AddRecent(before, table, n - 1, agent, since);
      SumOneMoreRow(table, n - 1, agent, since);
    }
  }

  /** The agent's rows since then leave room for the cost under the cap, if there is one. */
  ghost predicate HasRoom(table: seq<UsageRow>, agent: string, since: real, pending: nat, cap: Option<int>) {
    cap.Some? ==>
      exists idx: seq<nat> ::
        AreRecent(idx, table, |table|, agent, since) && Costs(table, idx, |idx|) + pending <= cap.value
  }

  lemma {:induction false} AtLeastPlace(idx: seq<nat>, k: nat)
    requires k < |idx| && forall i, j :: 0 <= i < j < |idx| ==> idx[i] < idx[j]
    ensures idx[k] >= k
  {
    if k > 0 {
      AtLeastPlace(idx, k - 1);
    }
  }

  lemma AtMostAll(idx: seq<nat>, table: seq<UsageRow>, n: nat, agent: string, since: real)
    requires n <= |table| && AreRecent(idx, table, n, agent, since)
    ensures |idx| <= n
  {
    if idx != [] {
      AtLeastPlace(idx, |idx| - 1);
    }
  }

  lemma {:induction false} SameRecent(
      idx: seq<nat>, other: seq<nat>, table: seq<UsageRow>, n: nat, agent: string, since: real)
    requires n <= |table| && AreRecent(idx, table, n, agent, since) && AreRecent(other, table, n, agent, since)
    ensures idx == other
    decreases n
  {
    if n == 0 {
      AtMostAll(idx, table, n, agent, since);
      AtMostAll(other, table, n, agent, since);
    } else {
      var a := LastOut(idx, table, n, agent, since);
      var b := LastOut(other, table, n, agent, since);
      SameRecent(a, b, table, n - 1, agent, since);
    }
  }

  lemma LastOut(idx: seq<nat>, table: seq<UsageRow>, n: nat, agent: string, since: real) returns (less: seq<nat>)
    requires 0 < n <= |table| && AreRecent(idx, table, n, agent, since)
    ensures AreRecent(less, table, n - 1, agent, since)
    ensures idx == if table[n - 1].agent == agent && table[n - 1].usage.at >= since then less + [n - 1] else less
  {
    if table[n - 1].agent == agent && table[n - 1].usage.at >= since {
      var k :| 0 <= k < |idx| && idx[k] == n - 1;
      assert idx[|idx| - 1] < n;
      assert k == |idx| - 1;
      less := idx[..k];
      forall i | 0 <= i < n - 1 ensures i in less <==> i in idx {
      }
    } else {
      less := idx;
      assert n - 1 !in idx;
    }
  }

  lemma RoomIsFit(table: seq<UsageRow>, agent: string, since: real, pending: nat, cap: Option<int>)
    ensures HasRoom(table, agent, since, pending, cap)
            <==> cap.None? || SumCostSince(RowsOf(table, agent), since) + pending <= cap.value
  {
    var idx := RecentRows(table, |table|, agent, since);
    assert table[..|table|] == table;
    if cap.Some? && HasRoom(table, agent, since, pending, cap) {
      var other: seq<nat> :| AreRecent(other, table, |table|, agent, since)
                             && Costs(table, other, |other|) + pending <= cap.value;
      SameRecent(idx, other, table, |table|, agent, since);
    }
  }

  predicate HasKey(table: seq<UsageRow>, key: string) {
    exists i :: 0 <= i < |table| && table[i].key == Some(key)
  }

  class BudgetGate {
    var caps: map<string, Caps>
    var table: seq<UsageRow>

    /** No two rows share an idempotency key. */
    predicate Valid() reads this {
      forall i, j :: 0 <= i < j < |table| && table[i].key.Some? ==> table[i].key != table[j].key
    }

    constructor ()
      ensures Valid() && caps == map[] && table == []
    {
      caps, table := map[], [];
    }

    method SetBudgetCap(agent: string, daily: Option<real>, monthly: Option<real>)
      modifies this`caps
      ensures caps == old(caps)[agent := Caps(ToAtomic(daily), ToAtomic(monthly))]
      ensures StoresCap(daily, caps[agent].daily) && StoresCap(monthly, caps[agent].monthly)
    {
      CapIsStored(daily);
      CapIsStored(monthly);
      caps := caps[agent := Caps(ToAtomic(daily), ToAtomic(monthly))];
    }

    /**
     Permitted exactly when the agent's rows of the past day, and of the past 30 days, leave room for the
     cost under the caps it has; an agent without caps is never refused.
     */
    method CheckBudgetCaps(agent: string, pending: nat, now: real) returns (permitted: bool)
      ensures permitted <==> agent !in caps || Permits(RowsOf(table, agent), caps[agent], pending, now)
      ensures permitted <==>
                || agent !in caps
                || (&& HasRoom(table, agent, now - 86400.0, pending, caps[agent].daily)
                    && HasRoom(table, agent, now - 2592000.0, pending, caps[agent].monthly))
    {
      if agent in caps {
        RoomIsFit(table, agent, now - DAY, pending, caps[agent].daily);
        RoomIsFit(table, agent, now - MONTH, pending, caps[agent].monthly);
      }
      if agent !in caps {
        return true;
      }
      var row := caps[agent];
      if row.daily.None? && row.monthly.None? {
        return true;
      }
      if row.daily.Some? {
        var spend := SumCostSince(RowsOf(table, agent), now - DAY);
        if spend + pending > row.daily.value {
          return false;
        }
      }
      if row.monthly.Some? {
        var spend := SumCostSince(RowsOf(table, agent), now - MONTH);
        if spend + pending > row.monthly.value {
          return false;
        }
      }
      return true;
    }

    /** A key that was used before adds no row, for this agent or any other. */
    method RecordUsage(agent: string, cost: nat, now: real, key: Option<string>)
      requires Valid()
      modifies this`table
      ensures Valid()
      ensures key.Some? && (exists i :: 0 <= i < |old(table)| && old(table)[i].key == key) ==> table == old(table)
      ensures key.None? || (forall i :: 0 <= i < |old(table)| ==> old(table)[i].key != key) ==>
                && table == old(table) + [UsageRow(agent, Usage(cost, now), key)]
                && RowsOf(table, agent) == RowsOf(old(table), agent) + [Usage(cost, now)]
                && forall other :: other != agent ==> RowsOf(table, other) == RowsOf(old(table), other)
    {
      if key.Some? && HasKey(table, key.value) {
        return;
      }
      ghost var before := table;
      table := table + [UsageRow(agent, Usage(cost, now), key)];
      assert table[..|before|] == before;
    }
  }
}
