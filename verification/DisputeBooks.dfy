/**
 The books of the payment engine over every run of DisputeRuns, with requests that overlap and are
 cut off: no money is lost from sight, and the sum is off by exactly what was paid out too often.
 */
module DisputeBooks {
  import opened Basics
  import opened Disputes
  import opened DisputeRuns

  // ---------- Sums ----------

  /** What an agent was paid by the first `n` payouts. */
  function Received(payouts: seq<Payout>, n: nat, agent: nat): nat
    requires n <= |payouts|
  {
    if n == 0 then 0 else
      Received(payouts, n - 1, agent) + if payouts[n - 1].to == agent then payouts[n - 1].amount else 0
  }

  /** What an agent put into the first `n` escrows. */
  function Funded(escrows: seq<Escrow>, n: nat, agent: nat): nat
    requires n <= |escrows|
  {
    if n == 0 then 0 else
      Funded(escrows, n - 1, agent) + if escrows[n - 1].payer == agent then escrows[n - 1].amount else 0
  }

  /** What the first `n` requests took from an agent for escrows that are not there: under way, or cut off. */
  function Hanging(tasks: seq<Task>, n: nat, agent: nat): nat
    requires n <= |tasks|
  {
    if n == 0 then 0 else
      Hanging(tasks, n - 1, agent)
      + if tasks[n - 1].Funding? && tasks[n - 1].payer == agent then tasks[n - 1].amount else 0
  }

  function HangingTotal(tasks: seq<Task>, n: nat): nat
    requires n <= |tasks|
  {
    if n == 0 then 0 else HangingTotal(tasks, n - 1) + if tasks[n - 1].Funding? then tasks[n - 1].amount else 0
  }

  function Total(wallets: seq<nat>, n: nat): nat
    requires n <= |wallets|
  {
    if n == 0 then 0 else Total(wallets, n - 1) + wallets[n - 1]
  }

  function HeldTotal(escrows: seq<Escrow>, n: nat): nat
    requires n <= |escrows|
  {
    if n == 0 then 0 else
      HeldTotal(escrows, n - 1) + if escrows[n - 1].status == Held then escrows[n - 1].amount else 0
  }

  /** How often an escrow should have been paid out: once when it has ended, and not before. */
  function Due(w: World, e: nat): nat
    requires e < |w.escrows|
  {
    if w.escrows[e].status == Held then 0 else 1
  }

  /** What was paid out of an escrow beyond what was due. */
  function SurplusOf(w: World, e: nat): int
    requires e < |w.escrows|
  {
    (TimesPaid(w, e) - Due(w, e)) * w.escrows[e].amount
  }

  function Surplus(w: World, n: nat): int
    requires n <= |w.escrows|
  {
    if n == 0 then 0 else Surplus(w, n - 1) + SurplusOf(w, n - 1)
  }

  lemma {:induction false} TotalFrame(a: seq<nat>, b: seq<nat>, n: nat)
    requires n <= |a| && n <= |b| && forall i :: 0 <= i < n ==> a[i] == b[i]
    ensures Total(a, n) == Total(b, n)
  {
    if n > 0 {
      TotalFrame(a, b, n - 1);
    }
  }

  lemma {:induction false} TotalUpdate(wallets: seq<nat>, n: nat, k: nat, v: nat)
    requires k < n <= |wallets|
    ensures Total(wallets[k := v], n) + wallets[k] == Total(wallets, n) + v
  {
    if k == n - 1 {
      TotalFrame(wallets[k := v], wallets, k);
    } else {
      TotalUpdate(wallets, n - 1, k, v);
    }
  }

  lemma {:induction false} EscrowSums(escrows: seq<Escrow>, longer: seq<Escrow>, n: nat, agent: nat)
    requires n <= |escrows| && n <= |longer| && forall i :: 0 <= i < n ==> escrows[i] == longer[i]
    ensures Funded(escrows, n, agent) == Funded(longer, n, agent) && HeldTotal(escrows, n) == HeldTotal(longer, n)
  {
    if n > 0 {
      EscrowSums(escrows, longer, n - 1, agent);
    }
  }

  /** Writing a final status leaves what was funded, and takes a held amount away. */
  lemma {:induction false} StatusSums(escrows: seq<Escrow>, n: nat, k: nat, status: EscrowStatus, agent: nat)
    requires k < n <= |escrows| && status != Held
    ensures var after := escrows[k := escrows[k].(status := status)];
            && Funded(after, n, agent) == Funded(escrows, n, agent)
            && HeldTotal(after, n) + (if escrows[k].status == Held then escrows[k].amount else 0)
               == HeldTotal(escrows, n)
  {
    var after := escrows[k := escrows[k].(status := status)];
    if k == n - 1 {
      EscrowSums(after, escrows, k, agent);
    } else {
      StatusSums(escrows, n - 1, k, status, agent);
    }
  }

  lemma {:induction false} ReceivedFrame(payouts: seq<Payout>, longer: seq<Payout>, n: nat, agent: nat)
    requires n <= |payouts| && n <= |longer| && forall i :: 0 <= i < n ==> payouts[i] == longer[i]
    ensures Received(payouts, n, agent) == Received(longer, n, agent)
  {
    if n > 0 {
      ReceivedFrame(payouts, longer, n - 1, agent);
    }
  }

  lemma {:induction false} NoPayoutYet(payouts: seq<Payout>, n: nat, escrow: nat)
    requires n <= |payouts| && forall i :: 0 <= i < n ==> payouts[i].escrow != escrow
    ensures PayoutsOf(payouts, n, escrow) == 0
  {
    if n > 0 {
      NoPayoutYet(payouts, n - 1, escrow);
    }
  }

  /** The money that a task stands for until it has inserted its escrow. */
  function Carried(task: Task): nat {
    if task.Funding? then task.amount else 0
  }

  function CarriedBy(task: Task, agent: nat): nat {
    if task.Funding? && task.payer == agent then task.amount else 0
  }

  lemma {:induction false} HangingFrame(tasks: seq<Task>, other: seq<Task>, n: nat, agent: nat)
    requires n <= |tasks| && n <= |other| && forall i :: 0 <= i < n ==> tasks[i] == other[i]
    ensures Hanging(tasks, n, agent) == Hanging(other, n, agent) && HangingTotal(tasks, n) == HangingTotal(other, n)
  {
    if n > 0 {
      HangingFrame(tasks, other, n - 1, agent);
    }
  }

  lemma {:induction false} HangingUpdate(tasks: seq<Task>, n: nat, t: nat, task: Task, agent: nat)
    requires t < n <= |tasks|
    ensures Hanging(tasks[t := task], n, agent) + CarriedBy(tasks[t], agent)
            == Hanging(tasks, n, agent) + CarriedBy(task, agent)
    ensures HangingTotal(tasks[t := task], n) + Carried(tasks[t]) == HangingTotal(tasks, n) + Carried(task)
  {
    if t == n - 1 {
      HangingFrame(tasks[t := task], tasks, t, agent);
    } else {
      HangingUpdate(tasks, n - 1, t, task, agent);
    }
  }

  lemma {:induction false} SurplusFrame(w: World, w': World, n: nat)
    requires n <= |w.escrows| && n <= |w'.escrows|
    requires forall e :: 0 <= e < n ==> SurplusOf(w', e) == SurplusOf(w, e)
    ensures Surplus(w', n) == Surplus(w, n)
  {
    if n > 0 {
      SurplusFrame(w, w', n - 1);
    }
  }

  lemma {:induction false} SurplusChange(w: World, w': World, n: nat, k: nat)
    requires k < n <= |w.escrows| && n <= |w'.escrows|
    requires forall e :: 0 <= e < n && e != k ==> SurplusOf(w', e) == SurplusOf(w, e)
    ensures Surplus(w', n) - Surplus(w, n) == SurplusOf(w', k) - SurplusOf(w, k)
  {
    if k == n - 1 {
      SurplusFrame(w, w', k);
    } else {
      SurplusChange(w, w', n - 1, k);
    }
  }

  // ---------- The books ----------

  /** A payout is the whole amount of some escrow. */
  predicate PayoutOk(w: World, p: Payout) {
    p.escrow < |w.escrows| && p.amount == w.escrows[p.escrow].amount
  }

  predicate AmountsOk(s: State) {
    && (forall p :: 0 <= p < |s.world.payouts| ==> PayoutOk(s.world, s.world.payouts[p]))
    && (forall e :: 0 <= e < |s.world.escrows| ==> s.world.escrows[e].amount > 0)
    && (forall t :: 0 <= t < |s.tasks| && s.tasks[t].Funding? ==> s.tasks[t].amount > 0)
  }

  /** What each agent has, has put into escrows and has given for some that are not there, it had or was paid. */
  ghost predicate WalletsBalance(s: State, initial: seq<nat>) {
    var w := s.world;
    && |w.wallets| == |initial|
    && forall a :: 0 <= a < |initial| ==>
         w.wallets[a] + Funded(w.escrows, |w.escrows|, a) + Hanging(s.tasks, |s.tasks|, a)
         == initial[a] + Received(w.payouts, |w.payouts|, a)
  }

  /** All money together is what there was at first, and what was paid out beyond what was due. */
  ghost predicate TotalBalances(s: State, initial: seq<nat>) {
    var w := s.world;
    Total(w.wallets, |w.wallets|) + HeldTotal(w.escrows, |w.escrows|) + HangingTotal(s.tasks, |s.tasks|)
    == Total(initial, |initial|) + Surplus(w, |w.escrows|)
  }

  lemma NextAmounts(s: State, step: Step)
    requires Inv(s) && AmountsOk(s)
    ensures AmountsOk(Next(s, step))
  {
    if step.Continue? && Alive(s, step.task) {
      assert TaskOk(s.world, s.tasks[step.task]);
    }
  }

  // ---------- Each kind of step ----------

  lemma BeganHangs(s: State, w: World, task: Task, agent: nat)
    ensures var s' := Began(s.(world := w), task);
            && Hanging(s'.tasks, |s'.tasks|, agent) == Hanging(s.tasks, |s.tasks|, agent) + CarriedBy(task, agent)
            && HangingTotal(s'.tasks, |s'.tasks|) == HangingTotal(s.tasks, |s.tasks|) + Carried(task)
  {
    HangingFrame(s.tasks + [task], s.tasks, |s.tasks|, agent);
  }

  /** Taking the money for an escrow. */
  lemma WithdrawBalances(s: State, payer: nat, payee: nat, amount: nat, initial: seq<nat>)
    requires payer < |s.world.wallets| && amount <= s.world.wallets[payer]
    requires WalletsBalance(s, initial) && TotalBalances(s, initial)
    ensures var s' := Began(s.(world := Withdraw(s.world, payer, amount)), Funding(payer, payee, amount));
            WalletsBalance(s', initial) && TotalBalances(s', initial)
  {
    var w' := Withdraw(s.world, payer, amount);
    var s' := Began(s.(world := w'), Funding(payer, payee, amount));
    forall a | 0 <= a < |initial|
      ensures w'.wallets[a] + Funded(w'.escrows, |w'.escrows|, a) + Hanging(s'.tasks, |s'.tasks|, a)
              == initial[a] + Received(w'.payouts, |w'.payouts|, a)
    {
      BeganHangs(s, w', Funding(payer, payee, amount), a);
    }
    BeganHangs(s, w', Funding(payer, payee, amount), 0);
    TotalUpdate(s.world.wallets, |s.world.wallets|, payer, s.world.wallets[payer] - amount);
    SurplusFrame(s.world, w', |w'.escrows|);
  }

  /** A step that touches no money. */
  lemma SameBooks(s: State, s': State, initial: seq<nat>)
    requires s'.world.wallets == s.world.wallets && s'.world.escrows == s.world.escrows
    requires s'.world.payouts == s.world.payouts
    requires forall a :: 0 <= a < |initial| ==> Hanging(s'.tasks, |s'.tasks|, a) == Hanging(s.tasks, |s.tasks|, a)
    requires HangingTotal(s'.tasks, |s'.tasks|) == HangingTotal(s.tasks, |s.tasks|)
    requires WalletsBalance(s, initial) && TotalBalances(s, initial)
    ensures WalletsBalance(s', initial) && TotalBalances(s', initial)
  {
    SurplusFrame(s.world, s'.world, |s.world.escrows|);
  }

  lemma BeganBalances(s: State, task: Task, initial: seq<nat>)
    requires !task.Funding? && WalletsBalance(s, initial) && TotalBalances(s, initial)
    ensures WalletsBalance(Began(s, task), initial) && TotalBalances(Began(s, task), initial)
  {
    forall a | 0 <= a < |initial|
      ensures Hanging(Began(s, task).tasks, |s.tasks| + 1, a) == Hanging(s.tasks, |s.tasks|, a)
    {
      BeganHangs(s, s.world, task, a);
    }
    BeganHangs(s, s.world, task, 0);
    SameBooks(s, Began(s, task), initial);
  }

  lemma InsertWallets(s: State, t: nat, initial: seq<nat>)
    requires Inv(s) && t < |s.tasks| && s.tasks[t].Funding? && WalletsBalance(s, initial)
    ensures WalletsBalance(Proceed(s, t), initial)
  {
    var w, w', s' := s.world, Proceed(s, t).world, Proceed(s, t);
    forall a | 0 <= a < |initial|
      ensures w'.wallets[a] + Funded(w'.escrows, |w'.escrows|, a) + Hanging(s'.tasks, |s'.tasks|, a)
              == initial[a] + Received(w'.payouts, |w'.payouts|, a)
    {
      EscrowSums(w'.escrows, w.escrows, |w.escrows|, a);
      HangingUpdate(s.tasks, |s.tasks|, t, Done, a);
    }
  }

  lemma InsertSurplus(w: World, payer: nat, payee: nat, amount: nat)
    requires forall p :: 0 <= p < |w.payouts| ==> PayoutOk(w, w.payouts[p])
    ensures Surplus(InsertEscrow(w, payer, payee, amount), |w.escrows| + 1) == Surplus(w, |w.escrows|)
  {
    var w' := InsertEscrow(w, payer, payee, amount);
    forall p | 0 <= p < |w.payouts| ensures w.payouts[p].escrow != |w.escrows| {
      assert PayoutOk(w, w.payouts[p]);
    }
    NoPayoutYet(w.payouts, |w.payouts|, |w.escrows|);
    forall e | 0 <= e < |w.escrows| ensures SurplusOf(w', e) == SurplusOf(w, e) {
      assert w'.escrows[e] == w.escrows[e] && TimesPaid(w', e) == TimesPaid(w, e);
    }
    SurplusFrame(w, w', |w.escrows|);
    assert SurplusOf(w', |w.escrows|) == 0;
  }

  lemma InsertTotal(s: State, t: nat, initial: seq<nat>)
    requires Inv(s) && AmountsOk(s) && t < |s.tasks| && s.tasks[t].Funding? && TotalBalances(s, initial)
    ensures TotalBalances(Proceed(s, t), initial)
  {
    var task := s.tasks[t];
    EscrowSums(Proceed(s, t).world.escrows, s.world.escrows, |s.world.escrows|, 0);
    HangingUpdate(s.tasks, |s.tasks|, t, Done, 0);
    InsertSurplus(s.world, task.payer, task.payee, task.amount);
  }

  lemma OneMoreTime(k: int, m: int)
    ensures (k + 1) * m == k * m + m
  {
  }

  /** A deposit is one payout more than was due so far. */
  lemma DepositSurplusOf(w: World, e: nat, ending: Ending)
    requires WellFormed(w) && e < |w.escrows|
    ensures SurplusOf(Deposit(w, e, ending), e) == SurplusOf(w, e) + w.escrows[e].amount
  {
    DepositCounts(w, e, ending, e);
    OneMoreTime(TimesPaid(w, e) - Due(w, e), w.escrows[e].amount);
  }

  lemma DepositSurplus(w: World, e: nat, ending: Ending)
    requires WellFormed(w) && e < |w.escrows|
    ensures Surplus(Deposit(w, e, ending), |w.escrows|) == Surplus(w, |w.escrows|) + w.escrows[e].amount
  {
    var w' := Deposit(w, e, ending);
    forall x | 0 <= x < |w.escrows| && x != e ensures SurplusOf(w', x) == SurplusOf(w, x) {
      DepositCounts(w, e, ending, x);
    }
    DepositSurplusOf(w, e, ending);
    SurplusChange(w, w', |w.escrows|, e);
  }

  lemma DepositWallets(w: World, e: nat, ending: Ending, a: nat)
    requires WellFormed(w) && e < |w.escrows| && a < |w.wallets|
    ensures var w' := Deposit(w, e, ending);
            w'.wallets[a] + Received(w.payouts, |w.payouts|, a) == w.wallets[a] + Received(w'.payouts, |w'.payouts|, a)
  {
    ReceivedFrame(Deposit(w, e, ending).payouts, w.payouts, |w.payouts|, a);
  }

  lemma PaysBalances(s: State, t: nat, initial: seq<nat>)
    requires Inv(s) && t < |s.tasks| && s.tasks[t].SeenHeld?
    requires WalletsBalance(s, initial) && TotalBalances(s, initial)
    ensures WalletsBalance(Proceed(s, t), initial) && TotalBalances(Proceed(s, t), initial)
  {
    var w, w', s', task := s.world, Proceed(s, t).world, Proceed(s, t), s.tasks[t];
    assert TaskOk(w, task);
    assert forall d :: 0 <= d < |w.disputes| ==> DisputeOk(w, w.disputes[d]);
    forall a | 0 <= a < |initial|
      ensures w'.wallets[a] + Funded(w'.escrows, |w'.escrows|, a) + Hanging(s'.tasks, |s'.tasks|, a)
              == initial[a] + Received(w'.payouts, |w'.payouts|, a)
    {
      DepositWallets(w, task.escrow, task.ending, a);
      HangingUpdate(s.tasks, |s.tasks|, t, s'.tasks[t], a);
    }
    PaysTotal(s, t, initial);
  }

  lemma PaysTotal(s: State, t: nat, initial: seq<nat>)
    requires Inv(s) && WellFormed(s.world) && t < |s.tasks|
    requires s.tasks[t].SeenHeld? && s.tasks[t].escrow < |s.world.escrows|
    requires TotalBalances(s, initial)
    ensures TotalBalances(Proceed(s, t), initial)
  {
    var w, e, ending := s.world, s.tasks[t].escrow, s.tasks[t].ending;
    var to := Recipient(w.escrows[e], ending);
    HangingUpdate(s.tasks, |s.tasks|, t, Proceed(s, t).tasks[t], 0);
    TotalUpdate(w.wallets, |w.wallets|, to, w.wallets[to] + w.escrows[e].amount);
    DepositSurplus(w, e, ending);
  }

  function HeldAmount(e: Escrow): nat {
    if e.status == Held then e.amount else 0
  }

  lemma StatusSurplusOf(w: World, e: nat, ending: Ending)
    requires e < |w.escrows|
    ensures SurplusOf(WriteStatus(w, e, ending), e) + HeldAmount(w.escrows[e]) == SurplusOf(w, e)
  {
    assert TimesPaid(WriteStatus(w, e, ending), e) == TimesPaid(w, e);
    OneMoreTime(TimesPaid(w, e) - 1, w.escrows[e].amount);
  }

  /** Writing the status: a payout of a held amount becomes one that was due. */
  lemma StatusSurplus(w: World, e: nat, ending: Ending)
    requires e < |w.escrows|
    ensures Surplus(WriteStatus(w, e, ending), |w.escrows|) + HeldAmount(w.escrows[e]) == Surplus(w, |w.escrows|)
  {
    var w' := WriteStatus(w, e, ending);
    forall x | 0 <= x < |w.escrows| && x != e ensures SurplusOf(w', x) == SurplusOf(w, x) {
      assert TimesPaid(w', x) == TimesPaid(w, x);
    }
    StatusSurplusOf(w, e, ending);
    SurplusChange(w, w', |w.escrows|, e);
  }

  lemma WritesBalances(s: State, t: nat, initial: seq<nat>)
    requires Inv(s) && t < |s.tasks| && s.tasks[t].Paid? && WalletsBalance(s, initial) && TotalBalances(s, initial)
    ensures WalletsBalance(Proceed(s, t), initial) && TotalBalances(Proceed(s, t), initial)
  {
    var w, w', s', task := s.world, Proceed(s, t).world, Proceed(s, t), s.tasks[t];
    assert TaskOk(w, task);
    var n, status := |w.escrows|, FinalStatus(task.ending);
    forall a | 0 <= a < |initial|
      ensures w'.wallets[a] + Funded(w'.escrows, n, a) + Hanging(s'.tasks, |s'.tasks|, a)
              == initial[a] + Received(w'.payouts, |w'.payouts|, a)
    {
      StatusSums(w.escrows, n, task.escrow, status, a);
      HangingUpdate(s.tasks, |s.tasks|, t, s'.tasks[t], a);
    }
    StatusSums(w.escrows, n, task.escrow, status, 0);
    HangingUpdate(s.tasks, |s.tasks|, t, s'.tasks[t], 0);
    StatusSurplus(w, task.escrow, task.ending);
  }

  lemma OtherBalances(s: State, t: nat, initial: seq<nat>)
    requires Inv(s) && t < |s.tasks| && !s.tasks[t].Funding? && !s.tasks[t].SeenHeld? && !s.tasks[t].Paid?
    requires WalletsBalance(s, initial) && TotalBalances(s, initial)
    ensures WalletsBalance(Proceed(s, t), initial) && TotalBalances(Proceed(s, t), initial)
  {
    var s' := Proceed(s, t);
    forall a | 0 <= a < |initial| ensures Hanging(s'.tasks, |s'.tasks|, a) == Hanging(s.tasks, |s.tasks|, a) {
      HangingUpdate(s.tasks, |s.tasks|, t, s'.tasks[t], a);
    }
    HangingUpdate(s.tasks, |s.tasks|, t, s'.tasks[t], 0);
    SameBooks(s, s', initial);
  }

  lemma ProceedBalances(s: State, t: nat, initial: seq<nat>)
    requires Inv(s) && AmountsOk(s) && t < |s.tasks| && WalletsBalance(s, initial) && TotalBalances(s, initial)
    ensures WalletsBalance(Proceed(s, t), initial) && TotalBalances(Proceed(s, t), initial)
  {
    if s.tasks[t].Funding? {
      InsertWallets(s, t, initial);
      InsertTotal(s, t, initial);
    } else if s.tasks[t].SeenHeld? {
      PaysBalances(s, t, initial);
    } else if s.tasks[t].Paid? {
      WritesBalances(s, t, initial);
    } else {
      OtherBalances(s, t, initial);
    }
  }

  lemma NextBalances(s: State, step: Step, initial: seq<nat>)
    requires Inv(s) && AmountsOk(s) && WalletsBalance(s, initial) && TotalBalances(s, initial)
    ensures WalletsBalance(Next(s, step), initial) && TotalBalances(Next(s, step), initial)
  {
    var s' := Next(s, step);
    if step.Continue? && Alive(s, step.task) {
      ProceedBalances(s, step.task, initial);
    } else if step.CreateStep? && CreateEscrow(s.world, step.payer, step.payee, step.amount).Ok? {
      WithdrawBalances(s, step.payer, step.payee, step.amount, initial);
    } else if |s'.tasks| == |s.tasks| + 1 {
      BeganBalances(s, s'.tasks[|s.tasks|], initial);
    } else {
      SameBooks(s, s', initial);
    }
  }

  lemma {:induction false} RunBalances(s: State, steps: seq<Step>, k: nat, initial: seq<nat>)
    requires k <= |steps| && Inv(s) && AmountsOk(s) && WalletsBalance(s, initial) && TotalBalances(s, initial)
    ensures Inv(Run(s, steps, k)) && AmountsOk(Run(s, steps, k))
    ensures WalletsBalance(Run(s, steps, k), initial) && TotalBalances(Run(s, steps, k), initial)
    decreases |steps| - k
  {
    if k < |steps| {
      NextInv(s, steps[k]);
      NextAmounts(s, steps[k]);
      NextBalances(s, steps[k], initial);
      RunBalances(Next(s, steps[k]), steps, k + 1, initial);
    }
  }

  /**
   In every run, whatever overlaps and wherever requests are cut off: each wallet is accounted for, and
   all money together is off by exactly the payouts that escrows had beyond what was due.
   */
  lemma BooksOfEveryRun(wallets: seq<nat>, steps: seq<Step>)
    ensures var s := Run(Start(wallets), steps, 0);
            WalletsBalance(s, wallets) && TotalBalances(s, wallets)
  {
    RunBalances(Start(wallets), steps, 0, wallets);
  }

  // ---------- When the sum is right ----------

  /** An escrow has been paid out as often as is due. */
  predicate PaidAsDue(w: World, e: nat)
    requires e < |w.escrows|
  {
    TimesPaid(w, e) == Due(w, e)
  }

  lemma Product(k: int, m: int)
    requires k >= 0 && m > 0
    ensures k * m >= 0 && (k * m == 0 <==> k == 0)
  {
  }

  lemma NoSurplusOf(w: World, e: nat)
    requires e < |w.escrows| && EscrowOk(w, e) && w.escrows[e].amount > 0
    ensures SurplusOf(w, e) >= 0 && (SurplusOf(w, e) == 0 <==> PaidAsDue(w, e))
  {
    Product(TimesPaid(w, e) - Due(w, e), w.escrows[e].amount);
  }

  lemma {:induction false} NoSurplus(w: World, n: nat)
    requires n <= |w.escrows|
    requires forall e :: 0 <= e < n ==> EscrowOk(w, e) && w.escrows[e].amount > 0
    ensures Surplus(w, n) >= 0
    ensures Surplus(w, n) == 0 <==> forall e :: 0 <= e < n ==> PaidAsDue(w, e)
  {
    if n > 0 {
      NoSurplus(w, n - 1);
      NoSurplusOf(w, n - 1);
    }
  }

  /** In every run the sum is never too small, and it is right if and only if every escrow was paid out as is due. */
  lemma SumIsRightExactly(wallets: seq<nat>, steps: seq<Step>)
    ensures var s := Run(Start(wallets), steps, 0);
            var w := s.world;
            var held, hanging := HeldTotal(w.escrows, |w.escrows|), HangingTotal(s.tasks, |s.tasks|);
            var sum := Total(w.wallets, |w.wallets|) + held + hanging;
            && sum >= Total(wallets, |wallets|)
            && (sum == Total(wallets, |wallets|) <==> forall e :: 0 <= e < |w.escrows| ==> PaidAsDue(w, e))
  {
    RunBalances(Start(wallets), steps, 0, wallets);
    var w := Run(Start(wallets), steps, 0).world;
    NoSurplus(w, |w.escrows|);
  }
}
