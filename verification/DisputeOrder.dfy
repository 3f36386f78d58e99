/**
 Runs of DisputeRuns in which the requests to end an escrow take turns: none sees an escrow as held
 while another one is between seeing it so and writing its status, and none is cut off between its
 deposit and that write. In these runs escrows are paid once, and disputes agree with them.
 */
module DisputeOrder {
  import opened Basics
  import opened Disputes
  import opened DisputeRuns
  import opened DisputeBooks

  /** A request that has seen its escrow as held and has yet to write the status. */
  predicate Active(task: Task) {
    task.SeenHeld? || task.Paid?
  }

  ghost predicate InTurn(s: State, step: Step) {
    match step
    case Continue(t) =>
      Alive(s, t) && s.tasks[t].Asked? && IsHeld(s.world, s.tasks[t].escrow) ==>
        forall u: nat :: Alive(s, u) && Active(s.tasks[u]) ==> s.tasks[u].escrow != s.tasks[t].escrow
    case CutOff(t) => !(Alive(s, t) && s.tasks[t].Paid?)
    case Crash => forall t: nat :: Alive(s, t) ==> !s.tasks[t].Paid?
    case _ => true
  }

  ghost predicate Orderly(s: State, steps: seq<Step>, k: nat)
    requires k <= |steps|
    decreases |steps| - k
  {
    k < |steps| ==> InTurn(s, steps[k]) && Orderly(Next(s, steps[k]), steps, k + 1)
  }

  // ---------- What orderly runs keep ----------

  ghost predicate TurnsOk(s: State) {
    && (forall t: nat :: Alive(s, t) && Active(s.tasks[t]) ==> IsHeld(s.world, s.tasks[t].escrow))
    && (forall t: nat, u: nat :: t < u && Alive(s, t) && Alive(s, u) && Active(s.tasks[t]) && Active(s.tasks[u]) ==>
          s.tasks[t].escrow != s.tasks[u].escrow)
  }

  ghost predicate BeingPaid(s: State, e: nat) {
    exists t: nat :: Alive(s, t) && s.tasks[t].Paid? && s.tasks[t].escrow == e
  }

  /** An escrow was paid once if it has ended, and else only if the status is about to be written. */
  ghost predicate PaidOk(s: State, e: nat)
    requires e < |s.world.escrows|
  {
    TimesPaid(s.world, e) == if !IsHeld(s.world, e) || BeingPaid(s, e) then 1 else 0
  }

  /** Dispute `d` ended its escrow, in the way of this resolution. */
  predicate Settled(s: State, d: nat, resolution: Resolution) {
    var w := s.world;
    && d < |w.disputes| && w.disputes[d].escrow < |w.escrows| && w.disputes[d].escrow < |s.mover|
    && s.mover[w.disputes[d].escrow] == Some(d)
    && w.escrows[w.disputes[d].escrow].status == FinalStatus(EndingOf(resolution))
  }

  predicate ClaimOk(s: State, d: nat)
    requires d < |s.world.disputes|
  {
    s.world.disputes[d].resolution.Some? ==> Settled(s, d, s.world.disputes[d].resolution.value)
  }

  predicate EndedOk(s: State, task: Task) {
    task.Ended? ==> Settled(s, task.dispute, task.resolution)
  }

  function PartyOf(e: Escrow): nat {
    if e.status == EscrowStatus.Settled then e.payee else e.payer
  }

  /** A payout of an ended escrow went to the party its status names, and one of a held escrow to that it will name. */
  ghost predicate ReceiverOk(s: State, p: Payout) {
    var w := s.world;
    && p.escrow < |w.escrows|
    && (w.escrows[p.escrow].status != Held ==> p.to == PartyOf(w.escrows[p.escrow]))
    && (forall t: nat :: Alive(s, t) && s.tasks[t].Paid? && s.tasks[t].escrow == p.escrow ==>
          p.to == Recipient(w.escrows[p.escrow], s.tasks[t].ending))
  }

  ghost predicate OrderInv(s: State) {
    && Inv(s) && AmountsOk(s) && TurnsOk(s)
    && (forall e :: 0 <= e < |s.world.escrows| ==> PaidOk(s, e))
    && (forall d :: 0 <= d < |s.world.disputes| ==> ClaimOk(s, d))
    && (forall t :: 0 <= t < |s.tasks| ==> EndedOk(s, s.tasks[t]))
    && (forall p :: 0 <= p < |s.world.payouts| ==> ReceiverOk(s, s.world.payouts[p]))
  }

  lemma NextTurns(s: State, step: Step)
    requires OrderInv(s) && InTurn(s, step)
    ensures TurnsOk(Next(s, step))
  {
    var s' := Next(s, step);
    NextShapes(s, step);
    forall t: nat | Alive(s', t) && Active(s'.tasks[t]) ensures IsHeld(s'.world, s'.tasks[t].escrow) {
      StillHeld(s, step, t);
    }
    forall t: nat, u: nat | t < u && Alive(s', t) && Alive(s', u) && Active(s'.tasks[t]) && Active(s'.tasks[u])
      ensures s'.tasks[t].escrow != s'.tasks[u].escrow
    {
      StaysActive(s, step, t);
      StaysActive(s, step, u);
    }
  }

  /** An active request was active before, or has just seen its escrow as held. */
  lemma StaysActive(s: State, step: Step, t: nat)
    requires Inv(s) && Alive(Next(s, step), t) && Active(Next(s, step).tasks[t])
    ensures Alive(s, t) && Next(s, step).tasks[t].escrow == s.tasks[t].escrow
    ensures Active(s.tasks[t]) || (step == Continue(t) && s.tasks[t].Asked? && IsHeld(s.world, s.tasks[t].escrow))
  {
  }

  lemma StillHeld(s: State, step: Step, t: nat)
    requires OrderInv(s) && InTurn(s, step) && Alive(Next(s, step), t) && Active(Next(s, step).tasks[t])
    ensures IsHeld(Next(s, step).world, Next(s, step).tasks[t].escrow)
  {
    StaysActive(s, step, t);
    assert IsHeld(s.world, s.tasks[t].escrow);
    if step.Continue? && Alive(s, step.task) && s.tasks[step.task].Paid? {
      assert TaskOk(s.world, s.tasks[step.task]);
      assert step.task < t || t < step.task;
    }
  }

  // ---------- Payouts ----------

  /** Which escrow is between its deposit and its status after a step. */
  lemma NextBeingPaid(s: State, step: Step, e: nat)
    requires OrderInv(s) && InTurn(s, step) && e < |s.world.escrows|
    ensures var moves := step.Continue? && Alive(s, step.task) && Active(s.tasks[step.task])
                         && s.tasks[step.task].escrow == e;
            BeingPaid(Next(s, step), e) <==> if moves then s.tasks[step.task].SeenHeld? else BeingPaid(s, e)
  {
    var s' := Next(s, step);
    if step.Continue? && Alive(s, step.task) {
      PaidElsewhere(s, step.task, e);
    } else {
      if BeingPaid(s, e) {
        var t: nat :| Alive(s, t) && s.tasks[t].Paid? && s.tasks[t].escrow == e;
        assert Alive(s', t) && s'.tasks[t] == s.tasks[t];
      }
      if BeingPaid(s', e) {
        var t: nat :| Alive(s', t) && s'.tasks[t].Paid? && s'.tasks[t].escrow == e;
        assert Alive(s, t) && s'.tasks[t] == s.tasks[t];
      }
    }
  }

  lemma PaidElsewhere(s: State, t: nat, e: nat)
    requires OrderInv(s) && Alive(s, t) && e < |s.world.escrows|
    ensures var moves := Active(s.tasks[t]) && s.tasks[t].escrow == e;
            BeingPaid(Proceed(s, t), e) <==> if moves then s.tasks[t].SeenHeld? else BeingPaid(s, e)
  {
    var s' := Proceed(s, t);
    assert TaskOk(s.world, s.tasks[t]);
    if Active(s.tasks[t]) && s.tasks[t].escrow == e {
      forall u: nat | Alive(s', u) && s'.tasks[u].Paid? && s'.tasks[u].escrow == e ensures u == t {
        if u != t {
          assert Alive(s, u) && Active(s.tasks[u]);
        }
      }
      assert Alive(s', t);
    } else {
      if BeingPaid(s, e) {
        var u: nat :| Alive(s, u) && s.tasks[u].Paid? && s.tasks[u].escrow == e;
        assert Alive(s', u) && s'.tasks[u] == s.tasks[u];
      }
      if BeingPaid(s', e) {
        var u: nat :| Alive(s', u) && s'.tasks[u].Paid? && s'.tasks[u].escrow == e;
        assert u != t && Alive(s, u) && s'.tasks[u] == s.tasks[u];
      }
    }
  }

  lemma NextPaid(s: State, step: Step, e: nat)
    requires OrderInv(s) && InTurn(s, step) && e < |s.world.escrows|
    ensures e < |Next(s, step).world.escrows| && PaidOk(Next(s, step), e)
  {
    NextShapes(s, step);
    NextTimesPaid(s, step, e);
    NextBeingPaid(s, step, e);
    assert PaidOk(s, e);
    if step.Continue? && Alive(s, step.task) {
      var task := s.tasks[step.task];
      assert TaskOk(s.world, task);
      if Active(task) && task.escrow == e && task.SeenHeld? {
        OnlyOnePays(s, step.task);
      }
    }
  }

  lemma OnlyOnePays(s: State, t: nat)
    requires TurnsOk(s) && Alive(s, t) && s.tasks[t].SeenHeld?
    ensures !BeingPaid(s, s.tasks[t].escrow)
  {
    forall u: nat | Alive(s, u) && s.tasks[u].Paid? ensures s.tasks[u].escrow != s.tasks[t].escrow {
      assert u < t || t < u;
    }
  }

  lemma NewEscrowPaid(s: State, step: Step, e: nat)
    requires OrderInv(s) && InTurn(s, step) && |s.world.escrows| <= e < |Next(s, step).world.escrows|
    ensures PaidOk(Next(s, step), e)
  {
    var s' := Next(s, step);
    forall p | 0 <= p < |s.world.payouts| ensures s.world.payouts[p].escrow != e {
      assert PayoutOk(s.world, s.world.payouts[p]);
    }
    NoPayoutYet(s.world.payouts, |s.world.payouts|, e);
    forall t: nat | Alive(s', t) && s'.tasks[t].Paid? ensures s'.tasks[t].escrow != e {
      assert Alive(s, t) && s'.tasks[t] == s.tasks[t];
      assert TaskOk(s.world, s.tasks[t]);
    }
  }

  // ---------- Disputes ----------

  /** What a dispute has settled stays settled: its escrow has ended and nobody writes it again. */
  lemma NextSettled(s: State, step: Step, d: nat, resolution: Resolution)
    requires OrderInv(s) && Settled(s, d, resolution)
    ensures Settled(Next(s, step), d, resolution)
  {
    NextShapes(s, step);
    if step.Continue? && Alive(s, step.task) && s.tasks[step.task].Paid? {
      assert IsHeld(s.world, s.tasks[step.task].escrow);
    }
  }

  lemma NextEnded(s: State, step: Step, t: nat)
    requires OrderInv(s) && t < |Next(s, step).tasks|
    ensures EndedOk(Next(s, step), Next(s, step).tasks[t])
  {
    var s' := Next(s, step);
    if s'.tasks[t].Ended? {
      if s.tasks[t] == s'.tasks[t] {
        assert EndedOk(s, s.tasks[t]);
        NextSettled(s, step, s.tasks[t].dispute, s.tasks[t].resolution);
      } else {
        assert TaskOk(s.world, s.tasks[t]);
      }
    }
  }

  lemma NextClaim(s: State, step: Step, d: nat)
    requires OrderInv(s) && d < |Next(s, step).world.disputes|
    ensures ClaimOk(Next(s, step), d)
  {
    var s' := Next(s, step);
    if d < |s.world.disputes| && s'.world.disputes[d].resolution.Some? {
      assert ClaimOk(s, d);
      if s'.world.disputes[d].resolution == s.world.disputes[d].resolution {
        NextSettled(s, step, d, s.world.disputes[d].resolution.value);
      } else {
        assert EndedOk(s, s.tasks[step.task]);
        NextSettled(s, step, d, s'.world.disputes[d].resolution.value);
      }
    }
  }

  // ---------- Receivers ----------

  lemma {:induction false} SomePayout(payouts: seq<Payout>, n: nat, p: nat, e: nat)
    requires p < n <= |payouts| && payouts[p].escrow == e
    ensures PayoutsOf(payouts, n, e) >= 1
  {
    if p < n - 1 {
      SomePayout(payouts, n - 1, p, e);
    }
  }

  /** A payout that was there before. */
  lemma NextReceiver(s: State, step: Step, p: nat)
    requires OrderInv(s) && InTurn(s, step) && p < |s.world.payouts|
    ensures ReceiverOk(Next(s, step), s.world.payouts[p])
  {
    var s', payout := Next(s, step), s.world.payouts[p];
    assert ReceiverOk(s, payout) && PayoutOk(s.world, payout);
    NextShapes(s, step);
    SomePayout(s.world.payouts, |s.world.payouts|, p, payout.escrow);
    assert PaidOk(s, payout.escrow);
    forall t: nat | Alive(s', t) && s'.tasks[t].Paid? && s'.tasks[t].escrow == payout.escrow
      ensures payout.to == Recipient(s'.world.escrows[payout.escrow], s'.tasks[t].ending)
    {
      StaysActive(s, step, t);
      if s.tasks[t].SeenHeld? {
        OnlyOnePays(s, t);
      }
    }
    EndedReceiver(s, step, payout);
  }

  lemma EndedReceiver(s: State, step: Step, p: Payout)
    requires OrderInv(s) && ReceiverOk(s, p)
    ensures var escrows := Next(s, step).world.escrows;
            && p.escrow < |escrows|
            && (escrows[p.escrow].status != Held ==> p.to == PartyOf(escrows[p.escrow]))
  {
    NextShapes(s, step);
    if step.Continue? && Alive(s, step.task) && s.tasks[step.task].Paid? {
      assert IsHeld(s.world, s.tasks[step.task].escrow);
    }
  }

  /** The payout of a deposit. */
  lemma NewReceiver(s: State, t: nat)
    requires OrderInv(s) && Alive(s, t) && s.tasks[t].SeenHeld?
    ensures |Proceed(s, t).world.payouts| == |s.world.payouts| + 1
    ensures ReceiverOk(Proceed(s, t), Proceed(s, t).world.payouts[|s.world.payouts|])
  {
    var s', e := Proceed(s, t), s.tasks[t].escrow;
    assert TaskOk(s.world, s.tasks[t]) && IsHeld(s.world, e);
    forall u: nat | Alive(s', u) && s'.tasks[u].Paid? && s'.tasks[u].escrow == e ensures u == t {
      if u != t {
        assert Alive(s, u) && Active(s.tasks[u]);
      }
    }
  }

  lemma NextReceivers(s: State, step: Step, p: nat)
    requires OrderInv(s) && InTurn(s, step) && p < |Next(s, step).world.payouts|
    ensures ReceiverOk(Next(s, step), Next(s, step).world.payouts[p])
  {
    if p < |s.world.payouts| {
      NextReceiver(s, step, p);
    } else {
      NewReceiver(s, step.task);
    }
  }

  lemma NextOrder(s: State, step: Step)
    requires OrderInv(s) && InTurn(s, step)
    ensures OrderInv(Next(s, step))
  {
    var s' := Next(s, step);
    NextInv(s, step);
    NextAmounts(s, step);
    NextTurns(s, step);
    forall e | 0 <= e < |s'.world.escrows| ensures PaidOk(s', e) {
      if e < |s.world.escrows| {
        NextPaid(s, step, e);
      } else {
        NewEscrowPaid(s, step, e);
      }
    }
    forall d | 0 <= d < |s'.world.disputes| ensures ClaimOk(s', d) {
      NextClaim(s, step, d);
    }
    forall t | 0 <= t < |s'.tasks| ensures EndedOk(s', s'.tasks[t]) {
      NextEnded(s, step, t);
    }
    forall p | 0 <= p < |s'.world.payouts| ensures ReceiverOk(s', s'.world.payouts[p]) {
      NextReceivers(s, step, p);
    }
  }

  lemma {:induction false} RunOrder(s: State, steps: seq<Step>, k: nat)
    requires k <= |steps| && OrderInv(s) && Orderly(s, steps, k)
    ensures OrderInv(Run(s, steps, k))
    decreases |steps| - k
  {
    if k < |steps| {
      NextOrder(s, steps[k]);
      RunOrder(Next(s, steps[k]), steps, k + 1);
    }
  }

  // ---------- The theorems ----------

  /**
   In every orderly run at most one dispute over an escrow is given a resolution, and that resolution
   is how the escrow ended. A dispute whose status is resolved has one.
   */
  lemma OneDisputeSettles(wallets: seq<nat>, steps: seq<Step>, c: nat, d: nat)
    requires Orderly(Start(wallets), steps, 0)
    requires var w := Run(Start(wallets), steps, 0).world; c < |w.disputes| && d < |w.disputes|
    ensures var w := Run(Start(wallets), steps, 0).world;
            && w.disputes[d].escrow < |w.escrows|
            && (w.disputes[d].status == DisputeStatus.Resolved ==> w.disputes[d].resolution.Some?)
            && (w.disputes[d].resolution == Some(Refund) ==> w.escrows[w.disputes[d].escrow].status == Refunded)
            && (w.disputes[d].resolution == Some(Release) ==>
                  w.escrows[w.disputes[d].escrow].status == EscrowStatus.Settled)
            && (c != d && w.disputes[c].resolution.Some? && w.disputes[d].resolution.Some? ==>
                  w.disputes[c].escrow != w.disputes[d].escrow)
  {
    var s := Run(Start(wallets), steps, 0);
    RunOrder(Start(wallets), steps, 0);
    assert ClaimOk(s, c) && ClaimOk(s, d) && DisputeOk(s.world, s.world.disputes[d]);
  }

  /**
   In every orderly run an escrow is paid out at most once: exactly once when it has ended, and else
   only while its status is about to be written.
   */
  lemma PaidOnce(wallets: seq<nat>, steps: seq<Step>, e: nat)
    requires Orderly(Start(wallets), steps, 0) && e < |Run(Start(wallets), steps, 0).world.escrows|
    ensures var s := Run(Start(wallets), steps, 0);
            TimesPaid(s.world, e) == if !IsHeld(s.world, e) || BeingPaid(s, e) then 1 else 0
  {
    RunOrder(Start(wallets), steps, 0);
    assert PaidOk(Run(Start(wallets), steps, 0), e);
  }

  /** Each payout is the whole amount of its escrow, to the party that the final status names. */
  lemma PaidInFull(wallets: seq<nat>, steps: seq<Step>, p: nat)
    requires Orderly(Start(wallets), steps, 0) && p < |Run(Start(wallets), steps, 0).world.payouts|
    ensures var w := Run(Start(wallets), steps, 0).world;
            var payout := w.payouts[p];
            && payout.escrow < |w.escrows| && payout.amount == w.escrows[payout.escrow].amount
            && (w.escrows[payout.escrow].status != Held ==> payout.to == PartyOf(w.escrows[payout.escrow]))
  {
    var s := Run(Start(wallets), steps, 0);
    RunOrder(Start(wallets), steps, 0);
    assert PayoutOk(s.world, s.world.payouts[p]) && ReceiverOk(s, s.world.payouts[p]);
  }

  /** In every orderly run, and when no status is about to be written, no money has come or gone. */
  lemma MoneyIsConserved(wallets: seq<nat>, steps: seq<Step>)
    requires Orderly(Start(wallets), steps, 0)
    requires forall t: nat :: Alive(Run(Start(wallets), steps, 0), t) ==> !Run(Start(wallets), steps, 0).tasks[t].Paid?
    ensures var s := Run(Start(wallets), steps, 0);
            var w := s.world;
            && Total(w.wallets, |w.wallets|) + HeldTotal(w.escrows, |w.escrows|) + HangingTotal(s.tasks, |s.tasks|)
               == Total(wallets, |wallets|)
            && WalletsBalance(s, wallets)
  {
    var s := Run(Start(wallets), steps, 0);
    RunOrder(Start(wallets), steps, 0);
    BooksOfEveryRun(wallets, steps);
    SumIsRightExactly(wallets, steps);
    forall e | 0 <= e < |s.world.escrows| ensures PaidAsDue(s.world, e) {
      assert PaidOk(s, e);
    }
  }

  /**
   After an orderly run, a dispute over an escrow that ended in any other way than by this dispute
   stays without a resolution for ever, even if later requests overlap or are cut off.
   */
  lemma OthersStayUnresolved(wallets: seq<nat>, steps: seq<Step>, d: nat, later: seq<Step>)
    requires Orderly(Start(wallets), steps, 0)
    requires var s := Run(Start(wallets), steps, 0);
             && d < |s.world.disputes| && s.world.disputes[d].escrow < |s.mover|
             && !IsHeld(s.world, s.world.disputes[d].escrow) && s.mover[s.world.disputes[d].escrow] != Some(d)
    ensures Stuck(Run(Run(Start(wallets), steps, 0), later, 0), d)
  {
    var s := Run(Start(wallets), steps, 0);
    RunOrder(Start(wallets), steps, 0);
    assert ClaimOk(s, d);
    forall t: nat | Alive(s, t) ensures !Resolving(s.tasks[t], d) {
      assert TaskOk(s.world, s.tasks[t]) && EndedOk(s, s.tasks[t]);
      if Active(s.tasks[t]) {
        assert IsHeld(s.world, s.tasks[t].escrow);
      }
    }
    RunStuck(s, later, 0, d);
  }

  /** In particular, when one dispute has a resolution, every other one over the escrow stays without. */
  lemma LosersStayUnresolved(wallets: seq<nat>, steps: seq<Step>, c: nat, d: nat, later: seq<Step>)
    requires Orderly(Start(wallets), steps, 0)
    requires var w := Run(Start(wallets), steps, 0).world;
             && c < |w.disputes| && d < |w.disputes| && c != d
             && w.disputes[c].escrow == w.disputes[d].escrow && w.disputes[d].resolution.Some?
    ensures Stuck(Run(Run(Start(wallets), steps, 0), later, 0), c)
  {
    RunOrder(Start(wallets), steps, 0);
    assert ClaimOk(Run(Start(wallets), steps, 0), d);
    OthersStayUnresolved(wallets, steps, c, later);
  }
}
