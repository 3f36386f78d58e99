/**
 The dispute engine and the payment engine in interleaved runs.

 Every request is cut at its waits: creating an escrow takes the money and then inserts the row;
 ending one reads its status, pays, and then writes the status; resolving a dispute reads its row,
 ends the escrow in those three steps, and then writes its row; opening and responding read first
 and write later. Between any two of these steps other requests run. A request may be cut off at
 any wait, and the process may stop, which cuts off all of them.
 */
module DisputeRuns {
  import opened Basics
  import opened Disputes

  /** Who ends an escrow: a direct call, or the resolution of a dispute. */
  datatype Origin = Direct | For(dispute: nat, resolution: Resolution, resolver: string)

  /** Where a request is: what it has read or done, and so what it does next. */
  datatype Task =
    | Funding(payer: nat, payee: nat, amount: nat)
    | Opening(escrow: nat, opener: nat, now: real)
    | Responding(dispute: nat)
    | Asked(escrow: nat, ending: Ending, origin: Origin)
    | SeenHeld(escrow: nat, ending: Ending, origin: Origin)
    | Paid(escrow: nat, ending: Ending, origin: Origin)
    | Ended(dispute: nat, resolution: Resolution, resolver: string)
    | Done

  /**
   Tasks before number `epoch`, and those in `cut`, never go on. `mover[e]` remembers the dispute, if
   any, for which the status of escrow `e` was written last.
   */
  datatype State = State(world: World, tasks: seq<Task>, epoch: nat, cut: set<nat>, mover: seq<Option<nat>>)

  datatype Step =
    | CreateStep(payer: nat, payee: nat, amount: int)
    | EndStep(escrow: nat, ending: Ending)
    | OpenStep(escrow: nat, opener: nat, now: real)
    | RespondStart(dispute: nat)
    | ResolveStart(dispute: nat, resolution: string, resolver: string)
    | Continue(task: nat)
    | CutOff(task: nat)
    | Crash

  function Start(wallets: seq<nat>): State {
    State(World(wallets, [], [], []), [], 0, {}, [])
  }

  predicate Alive(s: State, t: nat) {
    s.epoch <= t < |s.tasks| && t !in s.cut
  }

  function Began(s: State, task: Task): State {
    s.(tasks := s.tasks + [task])
  }

  function Moved(s: State, t: nat, world: World, task: Task): State
    requires t < |s.tasks|
  {
    s.(world := world, tasks := s.tasks[t := task])
  }

  predicate IsHeld(w: World, escrow: nat) {
    escrow < |w.escrows| && w.escrows[escrow].status == Held
  }

  function MoverOf(origin: Origin): Option<nat> {
    if origin.Direct? then None else Some(origin.dispute)
  }

  /** What follows the write of the escrow's status. */
  function AfterEnding(origin: Origin): Task {
    if origin.Direct? then Done else Ended(origin.dispute, origin.resolution, origin.resolver)
  }

  function Proceed(s: State, t: nat): State
    requires t < |s.tasks|
  {
    var w := s.world;
    match s.tasks[t]
    case Funding(payer, payee, amount) =>
      Moved(s, t, InsertEscrow(w, payer, payee, amount), Done).(mover := s.mover + [None])
    case Opening(e, opener, now) => Moved(s, t, if e < |w.escrows| then InsertDispute(w, e, opener, now) else w, Done)
    case Responding(d) => Moved(s, t, WriteResponse(w, d), Done)
    case Asked(e, ending, origin) => Moved(s, t, w, if IsHeld(w, e) then SeenHeld(e, ending, origin) else Done)
    case SeenHeld(e, ending, origin) =>
      if e >= |w.escrows| then s else Moved(s, t, Deposit(w, e, ending), Paid(e, ending, origin))
    case Paid(e, ending, origin) =>
      if e >= |w.escrows| || e >= |s.mover| then s else
        Moved(s, t, WriteStatus(w, e, ending), AfterEnding(origin)).(mover := s.mover[e := MoverOf(origin)])
    case Ended(d, resolution, resolver) => Moved(s, t, WriteResolution(w, d, resolution, resolver), Done)
    case Done => s
  }

  /** A request that is refused at once leaves no task. */
  function Next(s: State, step: Step): State {
    var w := s.world;
    match step
    case CreateStep(payer, payee, amount) =>
      if CreateEscrow(w, payer, payee, amount).Ok? then
        Began(s.(world := Withdraw(w, payer, amount)), Funding(payer, payee, amount))
      else s
    case EndStep(escrow, ending) => Began(s, Asked(escrow, ending, Direct))
    case OpenStep(escrow, opener, now) => if IsHeld(w, escrow) then Began(s, Opening(escrow, opener, now)) else s
    case RespondStart(dispute) => if ReadForResponse(w, dispute).None? then Began(s, Responding(dispute)) else s
    case ResolveStart(dispute, resolution, resolver) =>
      (match ReadForResolve(w, dispute, resolution)
       case Ok(res) => Began(s, Asked(w.disputes[dispute].escrow, EndingOf(res), For(dispute, res, resolver)))
       case Err(_) => s)
    case Continue(task) => if Alive(s, task) then Proceed(s, task) else s
    case CutOff(task) => if Alive(s, task) then s.(cut := s.cut + {task}) else s
    case Crash => s.(epoch := |s.tasks|)
  }

  function Run(s: State, steps: seq<Step>, k: nat): State
    requires k <= |steps|
    decreases |steps| - k
  {
    if k == |steps| then s else Run(Next(s, steps[k]), steps, k + 1)
  }

  // ---------- What every run keeps ----------

  function PayoutsOf(payouts: seq<Payout>, n: nat, escrow: nat): nat
    requires n <= |payouts|
  {
    if n == 0 then 0 else PayoutsOf(payouts, n - 1, escrow) + if payouts[n - 1].escrow == escrow then 1 else 0
  }

  /** How often an escrow has been paid out. */
  function TimesPaid(w: World, escrow: nat): nat {
    PayoutsOf(w.payouts, |w.payouts|, escrow)
  }

  lemma {:induction false} PayoutsFrame(payouts: seq<Payout>, longer: seq<Payout>, n: nat, escrow: nat)
    requires n <= |payouts| && n <= |longer| && forall i :: 0 <= i < n ==> payouts[i] == longer[i]
    ensures PayoutsOf(payouts, n, escrow) == PayoutsOf(longer, n, escrow)
  {
    if n > 0 {
      PayoutsFrame(payouts, longer, n - 1, escrow);
    }
  }

  /** A deposit is one more payout of its escrow and of no other. */
  lemma DepositCounts(w: World, e: nat, ending: Ending, escrow: nat)
    requires WellFormed(w) && e < |w.escrows|
    ensures TimesPaid(Deposit(w, e, ending), escrow) == TimesPaid(w, escrow) + if escrow == e then 1 else 0
  {
    PayoutsFrame(Deposit(w, e, ending).payouts, w.payouts, |w.payouts|, escrow);
  }

  /** A request to end an escrow that serves a dispute serves one over this escrow. */
  predicate OriginOk(w: World, escrow: nat, ending: Ending, origin: Origin) {
    origin.For? ==>
      && origin.dispute < |w.disputes| && w.disputes[origin.dispute].escrow == escrow
      && ending == EndingOf(origin.resolution)
  }

  predicate TaskOk(w: World, task: Task) {
    match task
    case Funding(payer, payee, amount) => payer < |w.wallets| && payee < |w.wallets|
    case Opening(e, opener, now) => e < |w.escrows|
    case Responding(d) => d < |w.disputes|
    case Asked(e, ending, origin) => OriginOk(w, e, ending, origin)
    case SeenHeld(e, ending, origin) => e < |w.escrows| && OriginOk(w, e, ending, origin)
    case Paid(e, ending, origin) => e < |w.escrows| && OriginOk(w, e, ending, origin) && TimesPaid(w, e) >= 1
    case Ended(d, resolution, resolver) => d < |w.disputes| && !IsHeld(w, w.disputes[d].escrow)
    case Done => true
  }

  predicate DisputeOk(w: World, d: Dispute) {
    && d.escrow < |w.escrows|
    && (d.status == DisputeStatus.Resolved ==> d.resolution.Some?)
    && (d.resolution.Some? ==> !IsHeld(w, d.escrow))
  }

  predicate EscrowOk(w: World, e: nat)
    requires e < |w.escrows|
  {
    w.escrows[e].status != Held ==> TimesPaid(w, e) >= 1
  }

  predicate PartiesOk(w: World) {
    forall e :: 0 <= e < |w.escrows| ==> w.escrows[e].payer < |w.wallets| && w.escrows[e].payee < |w.wallets|
  }

  predicate Inv(s: State) {
    && PartiesOk(s.world) && |s.mover| == |s.world.escrows|
    && s.epoch <= |s.tasks| && (forall t :: t in s.cut ==> t < |s.tasks|)
    && (forall d :: 0 <= d < |s.world.disputes| ==> DisputeOk(s.world, s.world.disputes[d]))
    && (forall e :: 0 <= e < |s.world.escrows| ==> EscrowOk(s.world, e))
    && (forall t :: 0 <= t < |s.tasks| ==> TaskOk(s.world, s.tasks[t]))
  }

  /** Escrows that have ended stay so, and nothing else is forgotten. */
  predicate Shapes(w: World, w': World) {
    && |w'.wallets| == |w.wallets| && |w'.escrows| >= |w.escrows| && |w'.disputes| >= |w.disputes|
    && (forall e :: 0 <= e < |w.escrows| ==>
          && w'.escrows[e].payer == w.escrows[e].payer && w'.escrows[e].payee == w.escrows[e].payee
          && w'.escrows[e].amount == w.escrows[e].amount
          && (w.escrows[e].status != Held ==> w'.escrows[e].status != Held))
    && (forall d :: 0 <= d < |w.disputes| ==> w'.disputes[d].escrow == w.disputes[d].escrow)
  }

  predicate Grows(w: World, w': World) {
    Shapes(w, w') && forall e :: 0 <= e < |w.escrows| ==> TimesPaid(w', e) >= TimesPaid(w, e)
  }

  lemma NextShapes(s: State, step: Step)
    requires Inv(s)
    ensures Shapes(s.world, Next(s, step).world) && PartiesOk(Next(s, step).world)
    ensures |Next(s, step).mover| == |Next(s, step).world.escrows|
  {
    if step.Continue? && Alive(s, step.task) {
      assert TaskOk(s.world, s.tasks[step.task]);
    }
  }

  /** The payouts of an escrow after a step: one more when the step is its deposit. */
  lemma NextTimesPaid(s: State, step: Step, e: nat)
    requires Inv(s)
    ensures var deposit := step.Continue? && Alive(s, step.task) && s.tasks[step.task].SeenHeld?;
            TimesPaid(Next(s, step).world, e)
            == TimesPaid(s.world, e) + if deposit && s.tasks[step.task].escrow == e then 1 else 0
  {
    if step.Continue? && Alive(s, step.task) {
      var task := s.tasks[step.task];
      assert TaskOk(s.world, task);
      if task.SeenHeld? {
        DepositCounts(s.world, task.escrow, task.ending, e);
      } else {
        assert Next(s, step).world.payouts == s.world.payouts;
      }
    } else {
      assert Next(s, step).world.payouts == s.world.payouts;
    }
  }

  lemma NextGrows(s: State, step: Step)
    requires Inv(s)
    ensures Grows(s.world, Next(s, step).world) && PartiesOk(Next(s, step).world)
    ensures |Next(s, step).mover| == |Next(s, step).world.escrows|
  {
    NextShapes(s, step);
    forall e | 0 <= e < |s.world.escrows| ensures TimesPaid(Next(s, step).world, e) >= TimesPaid(s.world, e) {
      NextTimesPaid(s, step, e);
    }
  }

  lemma TaskGrows(w: World, w': World, task: Task)
    requires TaskOk(w, task) && Grows(w, w') && forall d :: 0 <= d < |w.disputes| ==> w.disputes[d].escrow < |w.escrows|
    ensures TaskOk(w', task)
  {
  }

  /** The request that takes the step. */
  lemma SteppedTask(s: State, t: nat)
    requires Inv(s) && Alive(s, t)
    ensures TaskOk(Proceed(s, t).world, Proceed(s, t).tasks[t])
  {
    var task := s.tasks[t];
    assert TaskOk(s.world, task);
    NextGrows(s, Continue(t));
    if task.SeenHeld? {
      DepositCounts(s.world, task.escrow, task.ending, task.escrow);
    }
  }

  lemma BegunTask(s: State, step: Step)
    requires Inv(s) && |Next(s, step).tasks| == |s.tasks| + 1
    ensures TaskOk(Next(s, step).world, Next(s, step).tasks[|s.tasks|])
  {
  }

  lemma NextTask(s: State, step: Step, t: nat)
    requires Inv(s) && t < |Next(s, step).tasks|
    ensures TaskOk(Next(s, step).world, Next(s, step).tasks[t])
  {
    if t >= |s.tasks| {
      BegunTask(s, step);
    } else if step == Continue(t) && Alive(s, t) {
      SteppedTask(s, t);
    } else {
      NextGrows(s, step);
      assert TaskOk(s.world, s.tasks[t]);
      assert forall d :: 0 <= d < |s.world.disputes| ==> DisputeOk(s.world, s.world.disputes[d]);
      TaskGrows(s.world, Next(s, step).world, s.tasks[t]);
    }
  }

  lemma NextDispute(s: State, step: Step, d: nat)
    requires Inv(s) && d < |Next(s, step).world.disputes|
    ensures DisputeOk(Next(s, step).world, Next(s, step).world.disputes[d])
  {
    NextGrows(s, step);
    if d < |s.world.disputes| {
      assert DisputeOk(s.world, s.world.disputes[d]);
    }
    if step.Continue? && Alive(s, step.task) {
      assert TaskOk(s.world, s.tasks[step.task]);
    }
  }

  lemma NextEscrow(s: State, step: Step, e: nat)
    requires Inv(s) && e < |Next(s, step).world.escrows|
    ensures EscrowOk(Next(s, step).world, e)
  {
    NextGrows(s, step);
    if e < |s.world.escrows| {
      assert EscrowOk(s.world, e);
    }
    if step.Continue? && Alive(s, step.task) {
      assert TaskOk(s.world, s.tasks[step.task]);
    }
  }

  lemma NextInv(s: State, step: Step)
    requires Inv(s)
    ensures Inv(Next(s, step))
  {
    var s' := Next(s, step);
    NextGrows(s, step);
    forall d | 0 <= d < |s'.world.disputes| ensures DisputeOk(s'.world, s'.world.disputes[d]) {
      NextDispute(s, step, d);
    }
    forall e | 0 <= e < |s'.world.escrows| ensures EscrowOk(s'.world, e) {
      NextEscrow(s, step, e);
    }
    forall t | 0 <= t < |s'.tasks| ensures TaskOk(s'.world, s'.tasks[t]) {
      NextTask(s, step, t);
    }
  }

  lemma {:induction false} RunInv(s: State, steps: seq<Step>, k: nat)
    requires k <= |steps| && Inv(s)
    ensures Inv(Run(s, steps, k))
    decreases |steps| - k
  {
    if k < |steps| {
      NextInv(s, steps[k]);
      RunInv(Next(s, steps[k]), steps, k + 1);
    }
  }

  // ---------- When an escrow can be paid out once more ----------

  /** A request that has seen the escrow as held and has yet to pay. */
  ghost predicate AboutToPay(s: State, e: nat) {
    exists t: nat :: Alive(s, t) && s.tasks[t].SeenHeld? && s.tasks[t].escrow == e
  }

  /** The escrow has ended, and nobody is about to pay it. */
  ghost predicate Quiet(s: State, e: nat) {
    e < |s.world.escrows| && !IsHeld(s.world, e) && !AboutToPay(s, e)
  }

  lemma NextQuiet(s: State, step: Step, e: nat)
    requires Inv(s) && Quiet(s, e)
    ensures Quiet(Next(s, step), e) && TimesPaid(Next(s, step).world, e) == TimesPaid(s.world, e)
  {
    var s' := Next(s, step);
    NextShapes(s, step);
    NextTimesPaid(s, step, e);
    forall t: nat | Alive(s', t) && s'.tasks[t].SeenHeld? ensures s'.tasks[t].escrow != e {
      assert t < |s.tasks| ==> Alive(s, t);
    }
  }

  lemma {:induction false} RunQuiet(s: State, steps: seq<Step>, k: nat, e: nat)
    requires k <= |steps| && Inv(s) && Quiet(s, e)
    ensures TimesPaid(Run(s, steps, k).world, e) == TimesPaid(s.world, e)
    decreases |steps| - k
  {
    if k < |steps| {
      NextInv(s, steps[k]);
      NextQuiet(s, steps[k], e);
      RunQuiet(Next(s, steps[k]), steps, k + 1, e);
    }
  }

  /** This continuation of the run pays the escrow out once more. */
  predicate PaysMore(s: State, later: seq<Step>, e: nat) {
    TimesPaid(Run(s, later, 0).world, e) > TimesPaid(s.world, e)
  }

  lemma SeenIsPaid(s: State, t: nat)
    requires Inv(s) && Alive(s, t) && s.tasks[t].SeenHeld?
    ensures PaysMore(s, [Continue(t)], s.tasks[t].escrow)
  {
    var task, later := s.tasks[t], [Continue(t)];
    assert TaskOk(s.world, task);
    DepositCounts(s.world, task.escrow, task.ending, task.escrow);
    assert Run(s, later, 0) == Run(Next(s, later[0]), later, 1);
  }

  lemma HeldIsPaid(s: State, e: nat) returns (later: seq<Step>)
    requires Inv(s) && IsHeld(s.world, e)
    ensures PaysMore(s, later, e)
  {
    var t := |s.tasks|;
    later := [EndStep(e, ToPayer), Continue(t), Continue(t)];
    var s1 := Began(s, Asked(e, ToPayer, Direct));
    assert Next(s, later[0]) == s1;
    var s2 := Moved(s1, t, s.world, SeenHeld(e, ToPayer, Direct));
    assert Next(s1, later[1]) == s2;
    var s3 := Next(s2, later[2]);
    assert s3.world == Deposit(s.world, e, ToPayer);
    DepositCounts(s.world, e, ToPayer, e);
    assert Run(s, later, 0) == Run(s1, later, 1) == Run(s2, later, 2) == Run(s3, later, 3);
  }

  /**
   Exactly when an escrow can be paid out, or paid out again: it is held, or some request that has
   seen it as held has yet to pay.
   */
  lemma CanBePaid(s: State, e: nat)
    requires Inv(s) && e < |s.world.escrows|
    ensures (exists later: seq<Step> :: PaysMore(s, later, e)) <==> IsHeld(s.world, e) || AboutToPay(s, e)
  {
    if AboutToPay(s, e) {
      var t: nat :| Alive(s, t) && s.tasks[t].SeenHeld? && s.tasks[t].escrow == e;
      SeenIsPaid(s, t);
    } else if IsHeld(s.world, e) {
      var later := HeldIsPaid(s, e);
    } else {
      forall later: seq<Step> ensures !PaysMore(s, later, e) {
        RunQuiet(s, later, 0, e);
      }
    }
  }

  // ---------- Which disputes can still be resolved ----------

  /** A request to resolve dispute `d` that has seen the escrow as held, and has yet to write the row. */
  predicate Resolving(task: Task, d: nat) {
    || ((task.SeenHeld? || task.Paid?) && task.origin.For? && task.origin.dispute == d)
    || (task.Ended? && task.dispute == d)
  }

  ghost predicate UnderWay(s: State, d: nat) {
    exists t: nat :: Alive(s, t) && Resolving(s.tasks[t], d)
  }

  /** A dispute without a resolution, over an escrow that ended, and nobody on the way to write one. */
  ghost predicate Stuck(s: State, d: nat) {
    var w := s.world;
    && d < |w.disputes| && w.disputes[d].resolution.None?
    && !IsHeld(w, w.disputes[d].escrow) && !UnderWay(s, d)
  }

  /** A step brings no request onto its way to resolve a dispute over an escrow that has ended. */
  lemma NewlyResolving(s: State, t: nat, d: nat)
    requires Inv(s) && Alive(s, t) && Resolving(Proceed(s, t).tasks[t], d) && !Resolving(s.tasks[t], d)
    ensures d < |s.world.disputes| && IsHeld(s.world, s.world.disputes[d].escrow)
  {
    assert TaskOk(s.world, s.tasks[t]);
  }

  lemma NextUnderWay(s: State, step: Step, d: nat)
    requires Inv(s) && Stuck(s, d)
    ensures !UnderWay(Next(s, step), d)
  {
    var s' := Next(s, step);
    forall t: nat | Alive(s', t) ensures !Resolving(s'.tasks[t], d) {
      if t < |s.tasks| {
        assert Alive(s, t) && !Resolving(s.tasks[t], d);
        if step == Continue(t) && Resolving(s'.tasks[t], d) {
          NewlyResolving(s, t, d);
        }
      }
    }
  }

  lemma NextStuck(s: State, step: Step, d: nat)
    requires Inv(s) && Stuck(s, d)
    ensures Stuck(Next(s, step), d)
  {
    NextUnderWay(s, step, d);
    NextGrows(s, step);
    assert DisputeOk(s.world, s.world.disputes[d]);
    if step.Continue? && Alive(s, step.task) {
      assert !Resolving(s.tasks[step.task], d);
    }
  }

  lemma {:induction false} RunStuck(s: State, steps: seq<Step>, k: nat, d: nat)
    requires k <= |steps| && Inv(s) && Stuck(s, d)
    ensures Stuck(Run(s, steps, k), d)
    decreases |steps| - k
  {
    if k < |steps| {
      NextInv(s, steps[k]);
      NextStuck(s, steps[k], d);
      RunStuck(Next(s, steps[k]), steps, k + 1, d);
    }
  }

  predicate HasResolution(s: State, d: nat) {
    d < |s.world.disputes| && s.world.disputes[d].resolution.Some?
  }

  /** This continuation of the run gives dispute `d` a resolution. */
  predicate Resolves(s: State, later: seq<Step>, d: nat) {
    HasResolution(Run(s, later, 0), d)
  }

  lemma EndedIsWritten(s: State, t: nat) returns (later: seq<Step>)
    requires Inv(s) && Alive(s, t) && s.tasks[t].Ended?
    ensures Resolves(s, later, s.tasks[t].dispute)
  {
    assert TaskOk(s.world, s.tasks[t]);
    later := [Continue(t)];
    assert Run(s, later, 0) == Run(Next(s, later[0]), later, 1);
  }

  /** One more step in front of a continuation. */
  lemma StepFirst(s: State, step: Step, later: seq<Step>, d: nat)
    requires Resolves(Next(s, step), later, d)
    ensures Resolves(s, [step] + later, d)
  {
    RunShift(Next(s, step), [step] + later, later, 0);
  }

  lemma {:induction false} RunShift(s: State, steps: seq<Step>, later: seq<Step>, k: nat)
    requires |steps| == |later| + 1 && steps[1..] == later && k <= |later|
    ensures Run(s, steps, k + 1) == Run(s, later, k)
    decreases |later| - k
  {
    if k < |later| {
      assert steps[k + 1] == later[k];
      RunShift(Next(s, later[k]), steps, later, k + 1);
    }
  }

  /** A request on its way to write the row of `d` only has to go on. */
  lemma {:induction false} UnderWayIsWritten(s: State, t: nat, d: nat) returns (later: seq<Step>)
    requires Inv(s) && Alive(s, t) && Resolving(s.tasks[t], d)
    ensures Resolves(s, later, d)
    decreases if s.tasks[t].SeenHeld? then 2 else if s.tasks[t].Paid? then 1 else 0
  {
    if s.tasks[t].Ended? {
      later := EndedIsWritten(s, t);
    } else {
      assert TaskOk(s.world, s.tasks[t]);
      NextInv(s, Continue(t));
      later := UnderWayIsWritten(Next(s, Continue(t)), t, d);
      StepFirst(s, Continue(t), later, d);
      later := [Continue(t)] + later;
    }
  }

  /** While the escrow is held, a refund of the dispute goes through. */
  lemma HeldIsResolved(s: State, d: nat) returns (later: seq<Step>)
    requires Inv(s) && d < |s.world.disputes| && s.world.disputes[d].resolution.None?
    requires IsHeld(s.world, s.world.disputes[d].escrow)
    ensures Resolves(s, later, d)
  {
    assert DisputeOk(s.world, s.world.disputes[d]);
    var t, e := |s.tasks|, s.world.disputes[d].escrow;
    var start := ResolveStart(d, "refund", "");
    var s1 := Began(s, Asked(e, ToPayer, For(d, Refund, "")));
    assert Next(s, start) == s1;
    var s2 := Moved(s1, t, s.world, SeenHeld(e, ToPayer, For(d, Refund, "")));
    assert Next(s1, Continue(t)) == s2;
    NextInv(s, start);
    NextInv(s1, Continue(t));
    later := UnderWayIsWritten(s2, t, d);
    StepFirst(s1, Continue(t), later, d);
    later := [Continue(t)] + later;
    StepFirst(s, start, later, d);
    later := [start] + later;
  }

  /**
   Exactly which disputes can still be resolved: one without a resolution gets one in some
   continuation of the run if and only if its escrow is held, or a request to resolve this very
   dispute that has seen the escrow as held is still under way.
   */
  lemma CanBeResolved(s: State, d: nat)
    requires Inv(s) && d < |s.world.disputes| && s.world.disputes[d].resolution.None?
    ensures (exists later: seq<Step> :: Resolves(s, later, d))
            <==> IsHeld(s.world, s.world.disputes[d].escrow) || UnderWay(s, d)
  {
    if UnderWay(s, d) {
      var t: nat :| Alive(s, t) && Resolving(s.tasks[t], d);
      var later := UnderWayIsWritten(s, t, d);
    } else if IsHeld(s.world, s.world.disputes[d].escrow) {
      var later := HeldIsResolved(s, d);
    } else {
      forall later: seq<Step> ensures !Resolves(s, later, d) {
        RunStuck(s, later, 0, d);
      }
    }
  }

  /** After a crash, every dispute without a resolution over an escrow that has ended stays without one for ever. */
  lemma CrashStrandsDisputes(s: State, d: nat, later: seq<Step>)
    requires Inv(s) && d < |s.world.disputes| && s.world.disputes[d].resolution.None?
    requires !IsHeld(s.world, s.world.disputes[d].escrow)
    ensures Stuck(Run(Next(s, Crash), later, 0), d)
  {
    NextInv(s, Crash);
    RunStuck(Next(s, Crash), later, 0, d);
  }

  // ---------- Runs that go wrong ----------

  /** A request that is cut off after its deposit leaves the escrow held, so that it can be paid out again. */
  lemma CutOffPaysAgain(s: State, t: nat)
    requires Inv(s) && Alive(s, t) && s.tasks[t].Paid? && IsHeld(s.world, s.tasks[t].escrow)
    ensures TimesPaid(s.world, s.tasks[t].escrow) >= 1
    ensures exists later: seq<Step> :: PaysMore(Next(s, CutOff(t)), later, s.tasks[t].escrow)
  {
    assert TaskOk(s.world, s.tasks[t]);
    NextInv(s, CutOff(t));
    CanBePaid(Next(s, CutOff(t)), s.tasks[t].escrow);
  }

  /** `s` with two more requests, in whatever state they have brought the world. */
  function Pair(s: State, w: World, mover: seq<Option<nat>>, a: Task, b: Task): State {
    State(w, s.tasks + [a, b], s.epoch, s.cut, mover)
  }

  lemma PairGoesOn(s: State, w: World, mover: seq<Option<nat>>, a: Task, b: Task)
    requires s.epoch <= |s.tasks| && forall t :: t in s.cut ==> t < |s.tasks|
    ensures var n, p := |s.tasks|, Pair(s, w, mover, a, b);
            && Next(p, Continue(n)) == Proceed(p, n) && Next(p, Continue(n + 1)) == Proceed(p, n + 1)
            && p.tasks[n] == a && p.tasks[n + 1] == b
            && (forall c: Task :: p.tasks[n := c] == s.tasks + [c, b] && p.tasks[n + 1 := c] == s.tasks + [a, c])
  {
  }

  function Both(n: nat): seq<Step> {
    [Continue(n), Continue(n + 1)]
  }

  lemma TwoSteps(s: State, x: Step, y: Step, s1: State, s2: State)
    requires Next(s, x) == s1 && Next(s1, y) == s2
    ensures Run(s, [x, y], 0) == s2
  {
    var steps := [x, y];
    assert Run(s, steps, 0) == Run(s1, steps, 1) == Run(s2, steps, 2);
  }

  lemma {:induction false} RunOnward(s: State, first: seq<Step>, more: seq<Step>, k: nat)
    requires k <= |first|
    ensures Run(s, first + more, k) == Run(Run(s, first, k), more, 0)
    decreases |first| - k
  {
    if k == |first| {
      RunTail(s, first, more, 0);
    } else {
      RunOnward(Next(s, first[k]), first, more, k + 1);
    }
  }

  lemma {:induction false} RunTail(s: State, first: seq<Step>, more: seq<Step>, k: nat)
    requires k <= |more|
    ensures Run(s, first + more, |first| + k) == Run(s, more, k)
    decreases |more| - k
  {
    if k < |more| {
      RunTail(Next(s, more[k]), first, more, k + 1);
    }
  }

  lemma BothSee(s: State, e: nat, x: Ending, p: Origin, y: Ending, q: Origin)
    requires Inv(s) && IsHeld(s.world, e)
    ensures Run(Pair(s, s.world, s.mover, Asked(e, x, p), Asked(e, y, q)), Both(|s.tasks|), 0)
            == Pair(s, s.world, s.mover, SeenHeld(e, x, p), SeenHeld(e, y, q))
  {
    PairGoesOn(s, s.world, s.mover, Asked(e, x, p), Asked(e, y, q));
    PairGoesOn(s, s.world, s.mover, SeenHeld(e, x, p), Asked(e, y, q));
    TwoSteps(Pair(s, s.world, s.mover, Asked(e, x, p), Asked(e, y, q)), Continue(|s.tasks|), Continue(|s.tasks| + 1),
             Pair(s, s.world, s.mover, SeenHeld(e, x, p), Asked(e, y, q)),
             Pair(s, s.world, s.mover, SeenHeld(e, x, p), SeenHeld(e, y, q)));
  }

  /** Two overlapping requests that have both seen the escrow as held both pay. */
  lemma BothPay(s: State, e: nat, x: Ending, p: Origin, y: Ending, q: Origin) returns (w: World)
    requires Inv(s) && IsHeld(s.world, e)
    ensures Run(Pair(s, s.world, s.mover, SeenHeld(e, x, p), SeenHeld(e, y, q)), Both(|s.tasks|), 0)
            == Pair(s, w, s.mover, Paid(e, x, p), Paid(e, y, q))
    ensures w == Deposit(Deposit(s.world, e, x), e, y) && TimesPaid(w, e) == TimesPaid(s.world, e) + 2
  {
    var w1 := Deposit(s.world, e, x);
    w := Deposit(w1, e, y);
    PairGoesOn(s, s.world, s.mover, SeenHeld(e, x, p), SeenHeld(e, y, q));
    PairGoesOn(s, w1, s.mover, Paid(e, x, p), SeenHeld(e, y, q));
    TwoSteps(Pair(s, s.world, s.mover, SeenHeld(e, x, p), SeenHeld(e, y, q)),
             Continue(|s.tasks|), Continue(|s.tasks| + 1),
             Pair(s, w1, s.mover, Paid(e, x, p), SeenHeld(e, y, q)),
             Pair(s, w, s.mover, Paid(e, x, p), Paid(e, y, q)));
    DepositCounts(s.world, e, x, e);
    DepositCounts(w1, e, y, e);
  }

  /** Then both write the status, the later one last. */
  lemma BothWrite(s: State, w: World, e: nat, x: Ending, p: Origin, y: Ending, q: Origin) returns (w': World)
    requires Inv(s) && e < |w.escrows| == |s.mover|
    ensures Run(Pair(s, w, s.mover, Paid(e, x, p), Paid(e, y, q)), Both(|s.tasks|), 0)
            == Pair(s, w', s.mover[e := MoverOf(q)], AfterEnding(p), AfterEnding(q))
    ensures w'.payouts == w.payouts && w'.disputes == w.disputes && w'.wallets == w.wallets
    ensures |w'.escrows| == |w.escrows| && w'.escrows[e].status == FinalStatus(y)
  {
    var w1 := WriteStatus(w, e, x);
    w' := WriteStatus(w1, e, y);
    PairGoesOn(s, w, s.mover, Paid(e, x, p), Paid(e, y, q));
    PairGoesOn(s, w1, s.mover[e := MoverOf(p)], AfterEnding(p), Paid(e, y, q));
    assert s.mover[e := MoverOf(p)][e := MoverOf(q)] == s.mover[e := MoverOf(q)];
    TwoSteps(Pair(s, w, s.mover, Paid(e, x, p), Paid(e, y, q)), Continue(|s.tasks|), Continue(|s.tasks| + 1),
             Pair(s, w1, s.mover[e := MoverOf(p)], AfterEnding(p), Paid(e, y, q)),
             Pair(s, w', s.mover[e := MoverOf(q)], AfterEnding(p), AfterEnding(q)));
  }

  /** From two requests having been made to both having written the status. */
  lemma BothEnd(s: State, e: nat, x: Ending, p: Origin, y: Ending, q: Origin) returns (w: World)
    requires Inv(s) && IsHeld(s.world, e)
    ensures Run(Pair(s, s.world, s.mover, Asked(e, x, p), Asked(e, y, q)),
                Both(|s.tasks|) + (Both(|s.tasks|) + Both(|s.tasks|)), 0)
            == Pair(s, w, s.mover[e := MoverOf(q)], AfterEnding(p), AfterEnding(q))
    ensures w.disputes == s.world.disputes && TimesPaid(w, e) == TimesPaid(s.world, e) + 2
  {
    var n := |s.tasks|;
    BothSee(s, e, x, p, y, q);
    var paid := BothPay(s, e, x, p, y, q);
    w := BothWrite(s, paid, e, x, p, y, q);
    RunOnward(Pair(s, s.world, s.mover, SeenHeld(e, x, p), SeenHeld(e, y, q)), Both(n), Both(n), 0);
    RunOnward(Pair(s, s.world, s.mover, Asked(e, x, p), Asked(e, y, q)), Both(n), Both(n) + Both(n), 0);
  }

  /** Two direct endings of one held escrow that overlap pay it twice. */
  lemma OverlappingEndingsPayTwice(s: State, e: nat, x: Ending, y: Ending)
    requires Inv(s) && IsHeld(s.world, e)
    ensures var n := |s.tasks|;
            var s' := Run(s, [EndStep(e, x), EndStep(e, y)] + (Both(n) + (Both(n) + Both(n))), 0);
            TimesPaid(s'.world, e) == TimesPaid(s.world, e) + 2
  {
    var n := |s.tasks|;
    var s1 := Began(s, Asked(e, x, Direct));
    var s2 := Pair(s, s.world, s.mover, Asked(e, x, Direct), Asked(e, y, Direct));
    assert Began(s1, Asked(e, y, Direct)) == s2;
    TwoSteps(s, EndStep(e, x), EndStep(e, y), s1, s2);
    var w := BothEnd(s, e, x, Direct, y, Direct);
    RunOnward(s, [EndStep(e, x), EndStep(e, y)], Both(n) + (Both(n) + Both(n)), 0);
  }

  function Clash(n: nat, c: nat, d: nat): seq<Step> {
    [ResolveStart(c, "refund", ""), ResolveStart(d, "release", "")] + ((Both(n) + (Both(n) + Both(n))) + Both(n))
  }

  lemma BothRecord(s: State, w: World, mover: seq<Option<nat>>, c: nat, d: nat) returns (w': World)
    requires Inv(s) && c < |w.disputes| && d < |w.disputes| && c != d
    ensures Run(Pair(s, w, mover, Ended(c, Refund, ""), Ended(d, Release, "")), Both(|s.tasks|), 0)
            == Pair(s, w', mover, Done, Done)
    ensures w'.payouts == w.payouts && |w'.disputes| == |w.disputes|
    ensures w'.disputes[c].resolution == Some(Refund) && w'.disputes[d].resolution == Some(Release)
  {
    var w1 := WriteResolution(w, c, Refund, "");
    w' := WriteResolution(w1, d, Release, "");
    PairGoesOn(s, w, mover, Ended(c, Refund, ""), Ended(d, Release, ""));
    PairGoesOn(s, w1, mover, Done, Ended(d, Release, ""));
    TwoSteps(Pair(s, w, mover, Ended(c, Refund, ""), Ended(d, Release, "")),
             Continue(|s.tasks|), Continue(|s.tasks| + 1),
             Pair(s, w1, mover, Done, Ended(d, Release, "")), Pair(s, w', mover, Done, Done));
  }

  /**
   Two disputes over one held escrow that are resolved at the same time, one by refund and one by
   release, both succeed: the escrow is paid twice and the disputes are resolved in opposite ways.
   */
  lemma OverlappingResolutionsClash(s: State, c: nat, d: nat)
    requires Inv(s) && c < |s.world.disputes| && d < |s.world.disputes| && c != d
    requires s.world.disputes[c].resolution.None? && s.world.disputes[d].resolution.None?
    requires s.world.disputes[c].escrow == s.world.disputes[d].escrow && IsHeld(s.world, s.world.disputes[c].escrow)
    ensures var s' := Run(s, Clash(|s.tasks|, c, d), 0);
            && c < |s'.world.disputes| && d < |s'.world.disputes|
            && s'.world.disputes[c].resolution == Some(Refund) && s'.world.disputes[d].resolution == Some(Release)
            && TimesPaid(s'.world, s.world.disputes[c].escrow) == TimesPaid(s.world, s.world.disputes[c].escrow) + 2
  {
    var n, e := |s.tasks|, s.world.disputes[c].escrow;
    assert DisputeOk(s.world, s.world.disputes[c]) && DisputeOk(s.world, s.world.disputes[d]);
    var p, q := For(c, Refund, ""), For(d, Release, "");
    var s1 := Began(s, Asked(e, ToPayer, p));
    var s2 := Pair(s, s.world, s.mover, Asked(e, ToPayer, p), Asked(e, ToPayee, q));
    assert Next(s, ResolveStart(c, "refund", "")) == s1;
    assert Next(s1, ResolveStart(d, "release", "")) == Began(s1, Asked(e, ToPayee, q)) == s2;
    TwoSteps(s, ResolveStart(c, "refund", ""), ResolveStart(d, "release", ""), s1, s2);
    var w := BothEnd(s, e, ToPayer, p, ToPayee, q);
    var w' := BothRecord(s, w, s.mover[e := Some(d)], c, d);
    RunOnward(s2, Both(n) + (Both(n) + Both(n)), Both(n), 0);
    RunOnward(s, [ResolveStart(c, "refund", ""), ResolveStart(d, "release", "")],
              (Both(n) + (Both(n) + Both(n))) + Both(n), 0);
  }

  /** An escrow of five units and two disputes over it, opened by either side. */
  const Opened: seq<Step> :=
    [CreateStep(0, 1, 5), Continue(0), OpenStep(0, 0, 0.0), Continue(1), OpenStep(0, 1, 0.0), Continue(2)]

  lemma OpenedRun() returns (s: State)
    ensures s == Run(Start([5, 0]), Opened, 0) && Inv(s) && TimesPaid(s.world, 0) == 0 && IsHeld(s.world, 0)
    ensures |s.world.disputes| == 2 && |s.tasks| == 3
    ensures forall d :: 0 <= d < 2 ==> s.world.disputes[d].escrow == 0 && s.world.disputes[d].resolution.None?
  {
    var s1 := State(World([0, 0], [], [], []), [Funding(0, 1, 5)], 0, {}, []);
    assert Next(Start([5, 0]), Opened[0]) == s1;
    var s2 := State(World([0, 0], [Escrow(0, 1, 5, Held)], [], []), [Done], 0, {}, [None]);
    assert Next(s1, Opened[1]) == s2;
    var s3 := s2.(tasks := [Done, Opening(0, 0, 0.0)]);
    assert Next(s2, Opened[2]) == s3;
    var x := Dispute(0, 0, 1, SEVEN_DAYS, DisputeStatus.Open, None, "");
    var y := Dispute(0, 1, 0, SEVEN_DAYS, DisputeStatus.Open, None, "");
    var s4 := s2.(world := s2.world.(disputes := [x]), tasks := [Done, Done]);
    assert Next(s3, Opened[3]) == s4;
    var s5 := s4.(tasks := [Done, Done, Opening(0, 1, 0.0)]);
    assert Next(s4, Opened[4]) == s5;
    var s6 := s4.(world := s2.world.(disputes := [x, y]), tasks := [Done, Done, Done]);
    assert Next(s5, Opened[5]) == s6;
    assert Run(Start([5, 0]), Opened, 0) == Run(s1, Opened, 1) == Run(s2, Opened, 2) == Run(s3, Opened, 3)
        == Run(s4, Opened, 4) == Run(s5, Opened, 5) == Run(s6, Opened, 6);
    s := s6;
    RunInv(Start([5, 0]), Opened, 0);
  }

  /** From the start: one escrow, paid to both parties, with its two disputes resolved in opposite ways. */
  lemma DoublePayout()
    ensures var s := Run(Start([5, 0]), Opened + Clash(3, 0, 1), 0);
            && TimesPaid(s.world, 0) == 2 && |s.world.disputes| >= 2
            && s.world.disputes[0].resolution == Some(Refund) && s.world.disputes[1].resolution == Some(Release)
  {
    var s := OpenedRun();
    OverlappingResolutionsClash(s, 0, 1);
    RunOnward(Start([5, 0]), Opened, Clash(3, 0, 1), 0);
  }

  function Strand(n: nat, d: nat): seq<Step> {
    [ResolveStart(d, "refund", ""), Continue(n), Continue(n), Continue(n), Crash]
  }

  /**
   Every dispute that could still be resolved because its escrow is held can be stranded: the process
   only has to stop between the escrow's status and the dispute's row.
   */
  lemma HeldCanBeStranded(s: State, d: nat, later: seq<Step>)
    requires Inv(s) && d < |s.world.disputes| && s.world.disputes[d].resolution.None?
    requires IsHeld(s.world, s.world.disputes[d].escrow)
    ensures Stuck(Run(Run(s, Strand(|s.tasks|, d), 0), later, 0), d)
  {
    var n, e, p, steps := |s.tasks|, s.world.disputes[d].escrow, For(d, Refund, ""), Strand(|s.tasks|, d);
    assert DisputeOk(s.world, s.world.disputes[d]);
    var s1 := Began(s, Asked(e, ToPayer, p));
    assert Next(s, steps[0]) == s1;
    var s2 := Moved(s1, n, s.world, SeenHeld(e, ToPayer, p));
    assert Next(s1, steps[1]) == s2;
    var s3 := Moved(s2, n, Deposit(s.world, e, ToPayer), Paid(e, ToPayer, p));
    assert Next(s2, steps[2]) == s3;
    var s4 := Next(s3, steps[3]);
    assert s4.world == WriteStatus(s3.world, e, ToPayer);
    var s5 := Next(s4, steps[4]);
    assert Run(s, steps, 0) == Run(s1, steps, 1) == Run(s2, steps, 2) == Run(s3, steps, 3) == Run(s4, steps, 4)
        == Run(s5, steps, 5);
    RunInv(s, steps, 0);
    RunStuck(s5, later, 0, d);
  }
}
