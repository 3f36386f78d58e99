/**
 Disputes over escrows (gateway/src/disputes.py) and the part of the payment engine they drive
 (products/payments/src/engine.py).

 Agents, escrows and disputes are numbered in the order of their creation; amounts are whole
 atomic units. `payouts` is the wallet's log of deposits made by the engine.
 */
module Disputes {
  import opened Basics

  datatype EscrowStatus = Held | Settled | Refunded | Expired

  datatype Escrow = Escrow(payer: nat, payee: nat, amount: nat, status: EscrowStatus)

  datatype Payout = Payout(escrow: nat, to: nat, amount: nat)

  datatype DisputeStatus = Open | Responded | Resolved

  datatype Resolution = Refund | Release

  datatype Dispute = Dispute(
    escrow: nat, opener: nat, respondent: nat, deadline: real,
    status: DisputeStatus, resolution: Option<Resolution>, resolvedBy: string)

  datatype World = World(wallets: seq<nat>, escrows: seq<Escrow>, payouts: seq<Payout>, disputes: seq<Dispute>)

  datatype Error =
    | PaymentRefused
    | EscrowNotFound
    | EscrowNotHeld
    | DisputeNotFound
    | WrongDisputeState
    | InvalidResolution

  const SEVEN_DAYS: real := 604800.0

  // ---------- The payment engine ----------

  /** The two halves of creating an escrow: the payer's money is taken, and the escrow is inserted. */
  function Withdraw(w: World, payer: nat, amount: nat): World
    requires payer < |w.wallets| && amount <= w.wallets[payer]
  {
    w.(wallets := w.wallets[payer := w.wallets[payer] - amount])
  }

  function InsertEscrow(w: World, payer: nat, payee: nat, amount: nat): World {
    w.(escrows := w.escrows + [Escrow(payer, payee, amount, Held)])
  }

  function CreateEscrow(w: World, payer: nat, payee: nat, amount: int): Result<World, Error> {
    if amount <= 0 || payer == payee || payer >= |w.wallets| || payee >= |w.wallets| || w.wallets[payer] < amount
    then Err(PaymentRefused)
    else Ok(InsertEscrow(Withdraw(w, payer, amount), payer, payee, amount))
  }

  /** How a held escrow ends: who is paid, and the status that is left. */
  datatype Ending = ToPayee | ToPayer | OnTimeout

  function Recipient(e: Escrow, ending: Ending): nat {
    if ending == ToPayee then e.payee else e.payer
  }

  function FinalStatus(ending: Ending): EscrowStatus {
    match ending
    case ToPayee => Settled
    case ToPayer => Refunded
    case OnTimeout => Expired
  }

  /** The two halves of ending an escrow: its money is paid out, and its status is written. */
  function Deposit(w: World, escrow: nat, ending: Ending): World
    requires escrow < |w.escrows|
  {
    var e := w.escrows[escrow];
    var to := Recipient(e, ending);
    if to >= |w.wallets| then w else
      w.(wallets := w.wallets[to := w.wallets[to] + e.amount], payouts := w.payouts + [Payout(escrow, to, e.amount)])
  }

  function WriteStatus(w: World, escrow: nat, ending: Ending): World
    requires escrow < |w.escrows|
  {
    w.(escrows := w.escrows[escrow := w.escrows[escrow].(status := FinalStatus(ending))])
  }

  /** `release_escrow`, `refund_escrow` and `expire_escrow` without interruption. */
  function EndEscrow(w: World, escrow: nat, ending: Ending): Result<World, Error> {
    if escrow >= |w.escrows| then Err(EscrowNotFound)
    else if w.escrows[escrow].status != Held then Err(EscrowNotHeld)
    else if Recipient(w.escrows[escrow], ending) >= |w.wallets| then Err(PaymentRefused)
    else Ok(WriteStatus(Deposit(w, escrow, ending), escrow, ending))
  }

  function EndingOf(resolution: Resolution): Ending {
    if resolution == Refund then ToPayer else ToPayee
  }

  // ---------- The dispute engine ----------

  function InsertDispute(w: World, escrow: nat, opener: nat, now: real): World
    requires escrow < |w.escrows|
  {
    var e := w.escrows[escrow];
    var respondent := if opener == e.payer then e.payee else e.payer;
    w.(disputes := w.disputes + [Dispute(escrow, opener, respondent, now + SEVEN_DAYS, Open, None, "")])
  }

  function OpenDispute(w: World, escrow: nat, opener: nat, now: real): Result<World, Error> {
    if escrow >= |w.escrows| then Err(EscrowNotFound)
    else if w.escrows[escrow].status != Held then Err(WrongDisputeState)
    else Ok(InsertDispute(w, escrow, opener, now))
  }

  function ReadForResponse(w: World, dispute: nat): Option<Error> {
    if dispute >= |w.disputes| then Some(DisputeNotFound)
    else if w.disputes[dispute].status != Open then Some(WrongDisputeState)
    else None
  }

  function WriteResponse(w: World, dispute: nat): World {
    if dispute >= |w.disputes| then w else
      w.(disputes := w.disputes[dispute := w.disputes[dispute].(status := Responded)])
  }

  function ParseResolution(resolution: string): Option<Resolution> {
    if resolution == "refund" then Some(Refund) else if resolution == "release" then Some(Release) else None
  }

  /** What `resolve_dispute` checks before it moves any money. */
  function ReadForResolve(w: World, dispute: nat, resolution: string): Result<Resolution, Error> {
    if dispute >= |w.disputes| then Err(DisputeNotFound)
    else if w.disputes[dispute].status == Resolved then Err(WrongDisputeState)
    else if ParseResolution(resolution).None? then Err(InvalidResolution)
    else Ok(ParseResolution(resolution).value)
  }

  function WriteResolution(w: World, dispute: nat, resolution: Resolution, resolver: string): World {
    if dispute >= |w.disputes| then w else
      var d := w.disputes[dispute];
      var resolved := d.(status := Resolved, resolution := Some(resolution), resolvedBy := resolver);
      w.(disputes := w.disputes[dispute := resolved])
  }

  /** `resolve_dispute` without interruption. */
  function Resolve(w: World, dispute: nat, resolution: string, resolver: string): Result<World, Error> {
    match ReadForResolve(w, dispute, resolution)
    case Err(e) => Err(e)
    case Ok(res) =>
      match EndEscrow(w, w.disputes[dispute].escrow, EndingOf(res))
      case Err(e) => Err(e)
      case Ok(moved) => Ok(WriteResolution(moved, dispute, res, resolver))
  }

  // ---------- The expiry sweep ----------

  predicate IsExpired(d: Dispute, now: real) {
    d.status != Resolved && d.deadline <= now
  }

  /** The rows of the query: every expired dispute once, in some order. */
  predicate IsQueryResult(rows: seq<nat>, w: World, now: real) {
    && (forall i :: 0 <= i < |rows| ==> rows[i] < |w.disputes| && IsExpired(w.disputes[rows[i]], now))
    && (forall i, j :: 0 <= i < j < |rows| ==> rows[i] != rows[j])
    && (forall d :: 0 <= d < |w.disputes| && IsExpired(w.disputes[d], now) ==> d in rows)
  }

  /** The world after the sweep has handled the first `n` rows. */
  function Sweep(w: World, rows: seq<nat>, n: nat): World
    requires n <= |rows|
  {
    if n == 0 then w else
      var before := Sweep(w, rows, n - 1);
      match Resolve(before, rows[n - 1], "refund", "system")
      case Ok(after) => after
      case Err(_) => before
  }

  /** The disputes that the sweep reports as resolved. */
  function Swept(w: World, rows: seq<nat>, n: nat): seq<nat>
    requires n <= |rows|
  {
    if n == 0 then []
    else if Resolve(Sweep(w, rows, n - 1), rows[n - 1], "refund", "system").Ok?
    then Swept(w, rows, n - 1) + [rows[n - 1]]
    else Swept(w, rows, n - 1)
  }

  /** Escrows and the parties' wallets exist. */
  predicate WellFormed(w: World) {
    && (forall e :: 0 <= e < |w.escrows| ==> w.escrows[e].payer < |w.wallets| && w.escrows[e].payee < |w.wallets|)
    && (forall d :: 0 <= d < |w.disputes| ==> w.disputes[d].escrow < |w.escrows|)
  }

  /** Some of the first `n` rows disputes the escrow. */
  predicate Disputed(w: World, rows: seq<nat>, n: nat, escrow: nat)
    requires n <= |rows|
  {
    exists i :: 0 <= i < n && rows[i] < |w.disputes| && w.disputes[rows[i]].escrow == escrow
  }

  /** Row `i` is the first to dispute its escrow, and the escrow was held when the sweep began. */
  predicate Wins(w: World, rows: seq<nat>, i: nat)
    requires i < |rows|
  {
    && rows[i] < |w.disputes| && w.disputes[rows[i]].escrow < |w.escrows|
    && w.escrows[w.disputes[rows[i]].escrow].status == Held
    && !Disputed(w, rows, i, w.disputes[rows[i]].escrow)
  }

  function SweptEscrow(w: World, rows: seq<nat>, n: nat, escrow: nat): Escrow
    requires n <= |rows| && escrow < |w.escrows|
  {
    var e := w.escrows[escrow];
    if e.status == Held && Disputed(w, rows, n, escrow) then e.(status := Refunded) else e
  }

  ghost function SweptDispute(w: World, rows: seq<nat>, n: nat, dispute: nat): Dispute
    requires n <= |rows| && dispute < |w.disputes|
  {
    var d := w.disputes[dispute];
    if exists i :: 0 <= i < n && rows[i] == dispute && Wins(w, rows, i)
    then d.(status := Resolved, resolution := Some(Refund), resolvedBy := "system")
    else d
  }

  ghost predicate SweepIs(w: World, rows: seq<nat>, n: nat, after: World)
    requires n <= |rows|
  {
    && |after.wallets| == |w.wallets| && |after.escrows| == |w.escrows| && |after.disputes| == |w.disputes|
    && (forall e :: 0 <= e < |w.escrows| ==> after.escrows[e] == SweptEscrow(w, rows, n, e))
    && (forall d :: 0 <= d < |w.disputes| ==> after.disputes[d] == SweptDispute(w, rows, n, d))
  }

  lemma SweepStep(w: World, rows: seq<nat>, n: nat, now: real, before: World)
    requires WellFormed(w) && IsQueryResult(rows, w, now) && 0 < n <= |rows|
    requires SweepIs(w, rows, n - 1, before)
    ensures var r := Resolve(before, rows[n - 1], "refund", "system");
            && (r.Ok? <==> Wins(w, rows, n - 1))
            && SweepIs(w, rows, n, if r.Ok? then r.value else before)
  {
    var d := rows[n - 1];
    var e := w.disputes[d].escrow;
    assert forall i :: 0 <= i < n - 1 ==> rows[i] != d;
    assert before.disputes[d] == w.disputes[d];
    assert before.escrows[e] == SweptEscrow(w, rows, n - 1, e);
    var r := Resolve(before, d, "refund", "system");
    var after := if r.Ok? then r.value else before;
    forall x | 0 <= x < |w.escrows| ensures after.escrows[x] == SweptEscrow(w, rows, n, x) {
      assert before.escrows[x] == SweptEscrow(w, rows, n - 1, x);
      assert Disputed(w, rows, n, x) <==> Disputed(w, rows, n - 1, x) || x == e;
    }
    forall x | 0 <= x < |w.disputes| ensures after.disputes[x] == SweptDispute(w, rows, n, x) {
      assert before.disputes[x] == SweptDispute(w, rows, n - 1, x);
    }
  }

  /** The sweep by rows: exactly the first row of each held escrow wins, whatever their order. */
  lemma {:induction false} SweepOutcome(w: World, rows: seq<nat>, n: nat, now: real)
    requires WellFormed(w) && IsQueryResult(rows, w, now) && n <= |rows|
    ensures SweepIs(w, rows, n, Sweep(w, rows, n))
  {
    if n > 0 {
      SweepOutcome(w, rows, n - 1, now);
      SweepStep(w, rows, n, now, Sweep(w, rows, n - 1));
    }
  }

  lemma RowResolves(w: World, rows: seq<nat>, n: nat, now: real)
    requires WellFormed(w) && IsQueryResult(rows, w, now) && 0 < n <= |rows|
    ensures Resolve(Sweep(w, rows, n - 1), rows[n - 1], "refund", "system").Ok? <==> Wins(w, rows, n - 1)
  {
    SweepOutcome(w, rows, n - 1, now);
    SweepStep(w, rows, n, now, Sweep(w, rows, n - 1));
  }

  /** Dispute `d` is the winning row of some of the first `n`. */
  predicate Won(w: World, rows: seq<nat>, n: nat, d: nat)
    requires n <= |rows|
  {
    exists i :: 0 <= i < n && rows[i] == d && Wins(w, rows, i)
  }

  lemma WonStep(w: World, rows: seq<nat>, n: nat, d: nat)
    requires 0 < n <= |rows|
    ensures Won(w, rows, n, d) <==> Won(w, rows, n - 1, d) || (rows[n - 1] == d && Wins(w, rows, n - 1))
  {
  }

  /** The report lists the winning rows. */
  lemma {:induction false} SweepReport(w: World, rows: seq<nat>, n: nat, now: real, d: nat)
    requires WellFormed(w) && IsQueryResult(rows, w, now) && n <= |rows|
    ensures d in Swept(w, rows, n) <==> Won(w, rows, n, d)
  {
    if n > 0 {
      SweepReport(w, rows, n - 1, now, d);
      RowResolves(w, rows, n, now);
      WonStep(w, rows, n, d);
    }
  }

  lemma {:induction false} FirstRow(w: World, rows: seq<nat>, n: nat, escrow: nat) returns (i: nat)
    requires n <= |rows| && Disputed(w, rows, n, escrow)
    ensures i < n && rows[i] < |w.disputes| && w.disputes[rows[i]].escrow == escrow && !Disputed(w, rows, i, escrow)
  {
    if Disputed(w, rows, n - 1, escrow) {
      i := FirstRow(w, rows, n - 1, escrow);
    } else {
      i := n - 1;
    }
  }

  /** Some dispute over the escrow is past its deadline and unresolved. */
  predicate HasExpired(w: World, escrow: nat, now: real) {
    exists d :: 0 <= d < |w.disputes| && w.disputes[d].escrow == escrow
                && w.disputes[d].status != Resolved && w.disputes[d].deadline <= now
  }

  /** Among the disputes over the escrow, `d` is the only one the sweep touched, and it was expired. */
  ghost predicate OnlyResolves(w: World, after: World, escrow: nat, d: nat, now: real) {
    && |after.disputes| == |w.disputes| && d < |w.disputes|
    && w.disputes[d].escrow == escrow && w.disputes[d].status != Resolved && w.disputes[d].deadline <= now
    && after.disputes[d] == w.disputes[d].(status := Resolved, resolution := Some(Refund), resolvedBy := "system")
    && forall x :: 0 <= x < |w.disputes| && w.disputes[x].escrow == escrow && x != d ==>
         after.disputes[x] == w.disputes[x]
  }

  /**
   One run of the sweep, whatever the order of the rows: a held escrow with an expired dispute is
   refunded and exactly one of its expired disputes is resolved; nothing else changes.
   */
  lemma SweepSettlesExpired(w: World, rows: seq<nat>, now: real, escrow: nat)
    requires WellFormed(w) && IsQueryResult(rows, w, now) && escrow < |w.escrows|
    ensures var after := Sweep(w, rows, |rows|);
            && |after.escrows| == |w.escrows| && |after.disputes| == |w.disputes|
            && (if w.escrows[escrow].status == Held && HasExpired(w, escrow, now) then
                  && after.escrows[escrow] == w.escrows[escrow].(status := Refunded)
                  && exists d :: OnlyResolves(w, after, escrow, d, now)
                else
                  && after.escrows[escrow] == w.escrows[escrow]
                  && forall d :: 0 <= d < |w.disputes| && w.disputes[d].escrow == escrow ==>
                       after.disputes[d] == w.disputes[d])
  {
    var n := |rows|;
    SweepOutcome(w, rows, n, now);
    var after := Sweep(w, rows, n);
    assert after.escrows[escrow] == SweptEscrow(w, rows, n, escrow);
    if w.escrows[escrow].status == Held && HasExpired(w, escrow, now) {
      var x :| 0 <= x < |w.disputes| && w.disputes[x].escrow == escrow && IsExpired(w.disputes[x], now);
      assert x in rows;
      var k :| 0 <= k < n && rows[k] == x;
      assert Disputed(w, rows, n, escrow);
      var i := FirstRow(w, rows, n, escrow);
      forall y | 0 <= y < |w.disputes| && w.disputes[y].escrow == escrow && y != rows[i]
        ensures after.disputes[y] == w.disputes[y]
      {
        assert forall j :: 0 <= j < n && rows[j] == y && Wins(w, rows, j) ==> j == i;
      }
      assert Wins(w, rows, i);
      assert after.disputes[rows[i]] == SweptDispute(w, rows, n, rows[i]);
      assert OnlyResolves(w, after, escrow, rows[i], now);
    }
  }

  // ---------- The money of a sweep ----------

  /** What an agent was paid by the payouts from number `from` to `to`. */
  function Gained(payouts: seq<Payout>, from: nat, to: nat, agent: nat): nat
    requires from <= to <= |payouts|
  {
    if from == to then 0 else
      Gained(payouts, from, to - 1, agent) + if payouts[to - 1].to == agent then payouts[to - 1].amount else 0
  }

  lemma {:induction false} GainedFrame(payouts: seq<Payout>, other: seq<Payout>, from: nat, to: nat, agent: nat)
    requires from <= to <= |payouts| && to <= |other| && forall k :: from <= k < to ==> payouts[k] == other[k]
    ensures Gained(payouts, from, to, agent) == Gained(other, from, to, agent)
  {
    if from < to {
      GainedFrame(payouts, other, from, to - 1, agent);
    }
  }

  /** A payout of a sweep: an escrow that it refunded, in full, to the payer. */
  predicate RefundOk(w: World, after: World, p: Payout) {
    && p.escrow < |w.escrows| && p.escrow < |after.escrows|
    && w.escrows[p.escrow].status == Held && after.escrows[p.escrow].status == Refunded
    && p.to == w.escrows[p.escrow].payer && p.amount == w.escrows[p.escrow].amount
  }

  /** The payouts since `w` are one refund for each escrow refunded since, and the wallets have got them. */
  ghost predicate RefundsOk(w: World, after: World) {
    && |after.wallets| == |w.wallets| && |after.escrows| == |w.escrows| && w.payouts <= after.payouts
    && (forall k :: |w.payouts| <= k < |after.payouts| ==> RefundOk(w, after, after.payouts[k]))
    && (forall j, k :: |w.payouts| <= j < k < |after.payouts| ==> after.payouts[j].escrow != after.payouts[k].escrow)
    && (forall e :: 0 <= e < |w.escrows| && w.escrows[e].status == Held && after.escrows[e].status == Refunded ==>
          exists k :: |w.payouts| <= k < |after.payouts| && after.payouts[k].escrow == e)
    && (forall a :: 0 <= a < |w.wallets| ==>
          after.wallets[a] == w.wallets[a] + Gained(after.payouts, |w.payouts|, |after.payouts|, a))
  }

  /** `after` is `before` with one more escrow refunded. */
  predicate OneRefund(before: World, e: nat, after: World) {
    && e < |before.escrows| && before.escrows[e].payer < |before.wallets|
    && var f := before.escrows[e];
       && after.wallets == before.wallets[f.payer := before.wallets[f.payer] + f.amount]
       && after.payouts == before.payouts + [Payout(e, f.payer, f.amount)]
       && after.escrows == before.escrows[e := f.(status := Refunded)]
  }

  lemma RefundWallets(w: World, before: World, e: nat, after: World)
    requires RefundsOk(w, before) && OneRefund(before, e, after)
    ensures forall a :: 0 <= a < |w.wallets| ==>
              after.wallets[a] == w.wallets[a] + Gained(after.payouts, |w.payouts|, |after.payouts|, a)
  {
    forall a | 0 <= a < |w.wallets|
      ensures after.wallets[a] == w.wallets[a] + Gained(after.payouts, |w.payouts|, |after.payouts|, a)
    {
      GainedFrame(after.payouts, before.payouts, |w.payouts|, |before.payouts|, a);
    }
  }

  lemma RefundStep(w: World, before: World, e: nat, after: World)
    requires RefundsOk(w, before) && OneRefund(before, e, after)
    requires e < |w.escrows| && w.escrows[e].status == Held && before.escrows[e] == w.escrows[e]
    ensures RefundsOk(w, after)
  {
    var n := |before.payouts|;
    RefundWallets(w, before, e, after);
    forall k | |w.payouts| <= k < n ensures RefundOk(w, after, after.payouts[k]) && after.payouts[k].escrow != e {
      assert RefundOk(w, before, before.payouts[k]);
    }
    assert RefundOk(w, after, after.payouts[n]);
    RefundsCover(w, before, e, after);
  }

  lemma RefundsCover(w: World, before: World, e: nat, after: World)
    requires RefundsOk(w, before) && e < |w.escrows| && |after.escrows| == |w.escrows|
    requires |after.payouts| == |before.payouts| + 1 && before.payouts <= after.payouts
    requires after.payouts[|before.payouts|].escrow == e
    requires forall x :: 0 <= x < |w.escrows| && x != e ==> after.escrows[x] == before.escrows[x]
    ensures forall x :: 0 <= x < |w.escrows| && w.escrows[x].status == Held && after.escrows[x].status == Refunded ==>
              exists k :: |w.payouts| <= k < |after.payouts| && after.payouts[k].escrow == x
  {
    forall x | 0 <= x < |w.escrows| && w.escrows[x].status == Held && after.escrows[x].status == Refunded
      ensures exists k :: |w.payouts| <= k < |after.payouts| && after.payouts[k].escrow == x
    {
      if x != e {
        var k :| |w.payouts| <= k < |before.payouts| && before.payouts[k].escrow == x;
        assert after.payouts[k].escrow == x;
      }
    }
  }

  /** A resolution by refund. */
  lemma RefundResolves(before: World, d: nat)
    requires Resolve(before, d, "refund", "system").Ok?
    ensures d < |before.disputes|
    ensures OneRefund(before, before.disputes[d].escrow, Resolve(before, d, "refund", "system").value)
  {
  }

  lemma WinnerHeld(w: World, rows: seq<nat>, n: nat, now: real)
    requires WellFormed(w) && IsQueryResult(rows, w, now) && 0 < n <= |rows| && Wins(w, rows, n - 1)
    ensures var before, d := Sweep(w, rows, n - 1), rows[n - 1];
            && d < |before.disputes| == |w.disputes| && before.disputes[d] == w.disputes[d]
            && w.disputes[d].escrow < |before.escrows| == |w.escrows|
            && before.escrows[w.disputes[d].escrow] == w.escrows[w.disputes[d].escrow]
            && w.escrows[w.disputes[d].escrow].status == Held
  {
    SweepOutcome(w, rows, n - 1, now);
    var before, d := Sweep(w, rows, n - 1), rows[n - 1];
    assert before.disputes[d] == SweptDispute(w, rows, n - 1, d);
    assert before.escrows[w.disputes[d].escrow] == SweptEscrow(w, rows, n - 1, w.disputes[d].escrow);
  }

  /** A sweep pays each payer whose escrow it refunds, once and in full, and nobody else. */
  lemma {:induction false} SweepRefunds(w: World, rows: seq<nat>, n: nat, now: real)
    requires WellFormed(w) && IsQueryResult(rows, w, now) && n <= |rows|
    ensures RefundsOk(w, Sweep(w, rows, n))
  {
    if n > 0 {
      SweepRefunds(w, rows, n - 1, now);
      RowResolves(w, rows, n, now);
      if Wins(w, rows, n - 1) {
        WinnerHeld(w, rows, n, now);
        RefundResolves(Sweep(w, rows, n - 1), rows[n - 1]);
        RefundStep(w, Sweep(w, rows, n - 1), w.disputes[rows[n - 1]].escrow, Sweep(w, rows, n));
      }
    }
  }

  // ---------- The engines as objects ----------

  class PaymentEngine {
    var wallets: seq<nat>
    var escrows: seq<Escrow>
    var payouts: seq<Payout>

    constructor (wallets: seq<nat>)
      ensures this.wallets == wallets && escrows == [] && payouts == []
    {
      this.wallets, escrows, payouts := wallets, [], [];
    }

    function With(disputes: seq<Dispute>): World
      reads this
    {
      World(wallets, escrows, payouts, disputes)
    }

    /**
     `release_escrow`, `refund_escrow` and `expire_escrow`: a held escrow is paid in full, to the payee
     when it is released and to the payer otherwise, and any other is refused with nothing changed.
     */
    method End(escrow: nat, ending: Ending) returns (r: Option<Error>)
      modifies this
      ensures r == if escrow >= |old(escrows)| then Some(EscrowNotFound)
                   else if old(escrows)[escrow].status != Held then Some(EscrowNotHeld)
                   else if (if ending == ToPayee then old(escrows)[escrow].payee else old(escrows)[escrow].payer)
                           >= |old(wallets)| then Some(PaymentRefused)
                   else None
      ensures r.Some? ==> wallets == old(wallets) && escrows == old(escrows) && payouts == old(payouts)
      ensures r.None? ==>
                var e := old(escrows)[escrow];
                var to := if ending == ToPayee then e.payee else e.payer;
                var status := if ending == ToPayee then EscrowStatus.Settled
                              else if ending == ToPayer then Refunded else Expired;
                && wallets == old(wallets)[to := old(wallets)[to] + e.amount]
                && payouts == old(payouts) + [Payout(escrow, to, e.amount)]
                && escrows == old(escrows)[escrow := e.(status := status)]
      ensures match EndEscrow(old(With([])), escrow, ending)
              case Err(e) => r == Some(e) && With([]) == old(With([]))
              case Ok(w) => r == None && With([]) == w
    {
      if escrow >= |escrows| {
        return Some(EscrowNotFound);
      }
      var e := escrows[escrow];
      if e.status != Held {
        return Some(EscrowNotHeld);
      }
      var to := Recipient(e, ending);
      if to >= |wallets| {
        return Some(PaymentRefused);
      }
      wallets := wallets[to := wallets[to] + e.amount];
      payouts := payouts + [Payout(escrow, to, e.amount)];
      escrows := escrows[escrow := e.(status := FinalStatus(ending))];
      return None;
    }
  }

  class DisputeEngine {
    const payments: PaymentEngine
    var disputes: seq<Dispute>

    constructor (payments: PaymentEngine)
      ensures this.payments == payments && disputes == []
    {
      this.payments, disputes := payments, [];
    }

    function Now(): World
      reads this, payments
    {
      payments.With(disputes)
    }

    /** Opens a dispute over a held escrow; the other party has seven days. */
    method Open(escrow: nat, opener: nat, now: real) returns (r: Result<nat, Error>)
      modifies this
      ensures r == if escrow >= |payments.escrows| then Err(EscrowNotFound)
                   else if payments.escrows[escrow].status != Held then Err(WrongDisputeState)
                   else Ok(|old(disputes)|)
      ensures r.Err? ==> disputes == old(disputes)
      ensures r.Ok? ==>
                var e := payments.escrows[escrow];
                && |disputes| == |old(disputes)| + 1 && disputes[..|old(disputes)|] == old(disputes)
                && disputes[|old(disputes)|].escrow == escrow && disputes[|old(disputes)|].opener == opener
                && (opener == e.payer ==> disputes[|old(disputes)|].respondent == e.payee)
                && (opener != e.payer ==> disputes[|old(disputes)|].respondent == e.payer)
                && disputes[|old(disputes)|].deadline == now + 604800.0
                && disputes[|old(disputes)|].status == DisputeStatus.Open
                && disputes[|old(disputes)|].resolution == None
      ensures match OpenDispute(old(Now()), escrow, opener, now)
              case Err(e) => r == Err(e) && Now() == old(Now())
              case Ok(w) => r == Ok(|old(disputes)|) && Now() == w
    {
      if escrow >= |payments.escrows| {
        return Err(EscrowNotFound);
      }
      var e := payments.escrows[escrow];
      if e.status != Held {
        return Err(WrongDisputeState);
      }
      var respondent := if opener == e.payer then e.payee else e.payer;
      disputes := disputes + [Dispute(escrow, opener, respondent, now + SEVEN_DAYS, DisputeStatus.Open, None, "")];
      return Ok(|disputes| - 1);
    }

    /**
     Accepts one response to an open dispute and no second one; whether and how a dispute can be
     resolved does not depend on it.
     */
    method Respond(dispute: nat) returns (r: Option<Error>)
      modifies this
      ensures r.None? <==> dispute < |old(disputes)| && old(disputes)[dispute].status == DisputeStatus.Open
      ensures r == Some(DisputeNotFound) <==> dispute >= |old(disputes)|
      ensures r == Some(WrongDisputeState) <==>
                dispute < |old(disputes)| && old(disputes)[dispute].status != DisputeStatus.Open
      ensures |disputes| == |old(disputes)|
      ensures forall d :: 0 <= d < |disputes| && (d != dispute || r.Some?) ==> disputes[d] == old(disputes)[d]
      ensures r.None? ==>
                && disputes[dispute] == old(disputes)[dispute].(status := Responded)
                && ReadForResponse(Now(), dispute) == Some(WrongDisputeState)
                && forall text :: ReadForResolve(Now(), dispute, text) == ReadForResolve(old(Now()), dispute, text)
    {
      r := ReadForResponse(Now(), dispute);
      if r.None? {
        disputes := disputes[dispute := disputes[dispute].(status := Responded)];
      }
    }

    /**
     Resolves a dispute that is not resolved yet: "release" pays the payee of its held escrow, "refund"
     the payer, in full; anything else, and any refusal, changes nothing.
     */
    method ResolveDispute(dispute: nat, resolution: string, resolver: string) returns (r: Option<Error>)
      modifies this, payments
      ensures r.None? <==>
                && dispute < |old(disputes)| && old(disputes)[dispute].status != Resolved
                && (resolution == "refund" || resolution == "release")
                && old(disputes)[dispute].escrow < |old(payments.escrows)|
                && old(payments.escrows)[old(disputes)[dispute].escrow].status == Held
                && (resolution == "release" ==>
                      old(payments.escrows)[old(disputes)[dispute].escrow].payee < |old(payments.wallets)|)
                && (resolution == "refund" ==>
                      old(payments.escrows)[old(disputes)[dispute].escrow].payer < |old(payments.wallets)|)
      ensures dispute >= |old(disputes)| ==> r == Some(DisputeNotFound)
      ensures dispute < |old(disputes)| && old(disputes)[dispute].status == Resolved ==> r == Some(WrongDisputeState)
      ensures (dispute < |old(disputes)| && old(disputes)[dispute].status != Resolved
               && resolution != "refund" && resolution != "release") ==> r == Some(InvalidResolution)
      ensures r.Some? ==>
                && disputes == old(disputes) && payments.wallets == old(payments.wallets)
                && payments.escrows == old(payments.escrows) && payments.payouts == old(payments.payouts)
      ensures r.None? && resolution == "release" ==>
                var d := old(disputes)[dispute];
                var e := old(payments.escrows)[d.escrow];
                && payments.wallets == old(payments.wallets)[e.payee := old(payments.wallets)[e.payee] + e.amount]
                && payments.escrows == old(payments.escrows)[d.escrow := e.(status := EscrowStatus.Settled)]
                && payments.payouts == old(payments.payouts) + [Payout(d.escrow, e.payee, e.amount)]
                && disputes == old(disputes)[dispute := d.(
                                 status := Resolved, resolution := Some(Release), resolvedBy := resolver)]
      ensures r.None? && resolution == "refund" ==>
                var d := old(disputes)[dispute];
                var e := old(payments.escrows)[d.escrow];
                && payments.wallets == old(payments.wallets)[e.payer := old(payments.wallets)[e.payer] + e.amount]
                && payments.escrows == old(payments.escrows)[d.escrow := e.(status := Refunded)]
                && payments.payouts == old(payments.payouts) + [Payout(d.escrow, e.payer, e.amount)]
                && disputes == old(disputes)[dispute := d.(
                                 status := Resolved, resolution := Some(Refund), resolvedBy := resolver)]
      ensures match Resolve(old(Now()), dispute, resolution, resolver)
              case Err(e) => r == Some(e) && Now() == old(Now())
              case Ok(w) => r == None && Now() == w
    {
      var checked := ReadForResolve(Now(), dispute, resolution);
      if checked.Err? {
        return Some(checked.error);
      }
      var escrow := disputes[dispute].escrow;
      r := payments.End(escrow, EndingOf(checked.value));
      if r.None? {
        disputes := disputes[dispute := disputes[dispute].(
          status := Resolved, resolution := Some(checked.value), resolvedBy := resolver)];
      }
    }

    /** The sweep over the rows of its query; a row that fails to resolve is skipped. */
    method ProcessExpired(rows: seq<nat>) returns (resolved: seq<nat>)
      modifies this, payments
      ensures Now() == Sweep(old(Now()), rows, |rows|)
      ensures resolved == Swept(old(Now()), rows, |rows|)
    {
      resolved := [];
      for i := 0 to |rows|
        invariant Now() == Sweep(old(Now()), rows, i)
        invariant resolved == Swept(old(Now()), rows, i)
      {
        var failure := ResolveDispute(rows[i], "refund", "system");
        if failure.None? {
          resolved := resolved + [rows[i]];
        }
      }
    }
  }
}
