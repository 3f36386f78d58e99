/**
 The x402 payment verifier (gateway/src/x402.py): one-time nonces kept in memory over a persistent
 table, the local checks of a proof, and the queue of settlements to retry.
 */
module X402 {
  import opened Basics

  // ---------- Nonces, with interleaved checks and restarts ----------

  /**
   A check tests the memory, then inserts into the table, then adds to the memory. `Lost` checks
   were under way when the process stopped; `claimed` says whether their row was already in.
   */
  datatype Phase = Inserting | Inserted | Accepted | Rejected | Lost(claimed: bool)

  datatype Check = Check(nonce: string, phase: Phase)

  datatype State = State(memory: set<string>, table: set<string>, checks: seq<Check>)

  datatype Step =
    | Begin(nonce: string)
    | Insert(i: nat, storageFails: bool)
    | Finish(i: nat)
    | MarkUsed(i: nat)
    | Restart

  const Start := State({}, {}, [])

  function SetPhase(s: State, i: nat, phase: Phase): State
    requires i < |s.checks|
  {
    s.(checks := s.checks[i := s.checks[i].(phase := phase)])
  }

  function LosePhase(phase: Phase): Phase {
    match phase
    case Inserting => Lost(false)
    case Inserted => Lost(true)
    case _ => phase
  }

  function LoseAll(checks: seq<Check>): (r: seq<Check>)
    ensures |r| == |checks|
    ensures forall i :: 0 <= i < |checks| ==> r[i] == Check(checks[i].nonce, LosePhase(checks[i].phase))
  {
    seq(|checks|, i requires 0 <= i < |checks| => Check(checks[i].nonce, LosePhase(checks[i].phase)))
  }

  /** `fast` says whether the memory is consulted before the table. */
  function Next(s: State, step: Step, fast: bool): State {
    match step
    case Begin(nonce) =>
      s.(checks := s.checks + [Check(nonce, if fast && nonce in s.memory then Rejected else Inserting)])
    case Insert(i, storageFails) =>
      if i >= |s.checks| || !s.checks[i].phase.Inserting? then s
      else if storageFails || s.checks[i].nonce in s.table then SetPhase(s, i, Rejected)
      else SetPhase(s, i, Inserted).(table := s.table + {s.checks[i].nonce})
    case Finish(i) =>
      if i >= |s.checks| || !s.checks[i].phase.Inserted? then s
      else SetPhase(s, i, Accepted).(memory := s.memory + {s.checks[i].nonce})
    case MarkUsed(i) =>
      if i >= |s.checks| || !s.checks[i].phase.Accepted? then s
      else s.(memory := s.memory + {s.checks[i].nonce})
    case Restart => State({}, s.table, LoseAll(s.checks))
  }

  function Run(s: State, steps: seq<Step>, k: nat, fast: bool): State
    requires k <= |steps|
    decreases |steps| - k
  {
    if k == |steps| then s else Run(Next(s, steps[k], fast), steps, k + 1, fast)
  }

  /** The check put the nonce into the table. */
  predicate Claimed(c: Check) {
    c.phase.Inserted? || c.phase.Accepted? || (c.phase.Lost? && c.phase.claimed)
  }

  predicate Inv(s: State) {
    && s.memory <= s.table
    && (forall i :: 0 <= i < |s.checks| && Claimed(s.checks[i]) ==> s.checks[i].nonce in s.table)
    && (forall i, j :: 0 <= i < j < |s.checks| && Claimed(s.checks[i]) && Claimed(s.checks[j]) ==>
          s.checks[i].nonce != s.checks[j].nonce)
  }

  lemma NextInv(s: State, step: Step, fast: bool)
    requires Inv(s)
    ensures Inv(Next(s, step, fast))
  {
    if step.Restart? {
      forall i | 0 <= i < |s.checks| ensures Claimed(LoseAll(s.checks)[i]) <==> Claimed(s.checks[i]) {
      }
    }
  }

  lemma {:induction false} RunInv(s: State, steps: seq<Step>, k: nat, fast: bool)
    requires k <= |steps| && Inv(s)
    ensures Inv(Run(s, steps, k, fast))
    decreases |steps| - k
  {
    if k < |steps| {
      NextInv(s, steps[k], fast);
      RunInv(Next(s, steps[k], fast), steps, k + 1, fast);
    }
  }

  /** In every run no nonce is accepted twice, not even across restarts, and the memory is in the table. */
  lemma NonceAcceptedOnce(steps: seq<Step>, i: nat, j: nat)
    requires var s := Run(Start, steps, 0, true);
             i < j < |s.checks| && s.checks[i].phase.Accepted? && s.checks[j].phase.Accepted?
    ensures var s := Run(Start, steps, 0, true);
            s.checks[i].nonce != s.checks[j].nonce && s.memory <= s.table
  {
    RunInv(Start, steps, 0, true);
    var s := Run(Start, steps, 0, true);
    assert Claimed(s.checks[i]) && Claimed(s.checks[j]);
  }

  /**
   A nonce that is in the table for no earlier check is not refused: beginning, inserting and finishing
   in a row, with a storage that works, accept it.
   */
  lemma FreshIsAccepted(s: State, nonce: string)
    requires Inv(s) && nonce !in s.table
    ensures var i := |s.checks|;
            var s' := Next(Next(Next(s, Begin(nonce), true), Insert(i, false), true), Finish(i), true);
            && |s'.checks| == |s.checks| + 1 && s'.checks[i] == Check(nonce, Accepted)
            && s'.table == s.table + {nonce} && s'.memory == s.memory + {nonce}
  {
  }

  /**
   How a check stands with the memory and with the table alone: the same, except that the memory
   may have refused it already where the table still will.
   */
  predicate Agrees(fast: Check, slow: Check, table: set<string>) {
    && fast.nonce == slow.nonce
    && (fast.phase == slow.phase
        || (fast.phase.Rejected?
            && ((slow.phase.Inserting? && slow.nonce in table) || slow.phase == Lost(false))))
  }

  predicate Simulates(fast: State, slow: State) {
    && fast.table == slow.table && |fast.checks| == |slow.checks|
    && forall i :: 0 <= i < |fast.checks| ==> Agrees(fast.checks[i], slow.checks[i], fast.table)
  }

  lemma NextSimulates(fast: State, slow: State, step: Step)
    requires Inv(fast) && Simulates(fast, slow)
    ensures Simulates(Next(fast, step, true), Next(slow, step, false))
  {
    if (step.Insert? || step.Finish? || step.MarkUsed?) && step.i < |fast.checks| {
      assert Agrees(fast.checks[step.i], slow.checks[step.i], fast.table);
    }
    var f, t := Next(fast, step, true), Next(slow, step, false);
    forall i | 0 <= i < |f.checks| ensures Agrees(f.checks[i], t.checks[i], f.table) {
      assert i < |fast.checks| ==> Agrees(fast.checks[i], slow.checks[i], fast.table);
    }
  }

  /** The memory is only a shortcut: a check is accepted with it exactly when the table alone accepts it. */
  lemma {:induction false} FastPathDecidesTheSame(fast: State, slow: State, steps: seq<Step>, k: nat, i: nat)
    requires k <= |steps| && Inv(fast) && Simulates(fast, slow)
    ensures var f, t := Run(fast, steps, k, true), Run(slow, steps, k, false);
            |f.checks| == |t.checks| && (i < |f.checks| ==>
              (f.checks[i].phase.Accepted? <==> t.checks[i].phase.Accepted?))
    decreases |steps| - k
  {
    if k == |steps| {
      assert i < |fast.checks| ==> Agrees(fast.checks[i], slow.checks[i], fast.table);
    } else {
      NextInv(fast, steps[k], true);
      NextSimulates(fast, slow, steps[k]);
      FastPathDecidesTheSame(Next(fast, steps[k], true), Next(slow, steps[k], false), steps, k + 1, i);
    }
  }

  // ---------- The verifier ----------

  datatype Proof = Proof(to: string, value: int, validAfter: real, validBefore: real, network: string, nonce: string)

  datatype Refusal = WrongRecipient | InsufficientValue | Expired | NotYetValid | UnsupportedNetwork | Replay

  /** What one call of the facilitator brings: success or failure, and what was queued while waiting. */
  datatype Call = Call(ok: bool, queued: seq<Proof>)

  function CallAt(calls: seq<Call>, i: nat): Call {
    if i < |calls| then calls[i] else Call(false, [])
  }

  /** Everything queued during the first `n` calls. */
  function QueuedDuring(calls: seq<Call>, n: nat): seq<Proof> {
    if n == 0 then [] else QueuedDuring(calls, n - 1) + CallAt(calls, n - 1).queued
  }

  lemma {:induction false} QueuedStays(calls: seq<Call>, n: nat)
    ensures forall i, p :: 0 <= i < n && i < |calls| && p in calls[i].queued ==> p in QueuedDuring(calls, n)
  {
    if n > 0 {
      QueuedStays(calls, n - 1);
      assert n <= |calls| ==> CallAt(calls, n - 1) == calls[n - 1];
    }
  }

  /** How many proofs are still to be queued from call `i` on. */
  function StillToCome(calls: seq<Call>, i: nat): nat
    decreases |calls| - i
  {
    if i >= |calls| then 0 else |calls[i].queued| + StillToCome(calls, i + 1)
  }

  /** The proofs among the first `n` of the queue whose call failed, in their order. */
  function Failed(queue: seq<Proof>, calls: seq<Call>, n: nat): (r: seq<Proof>)
    requires n <= |queue|
    ensures |r| <= n
  {
    if n == 0 then []
    else if CallAt(calls, n - 1).ok then Failed(queue, calls, n - 1)
    else Failed(queue, calls, n - 1) + [queue[n - 1]]
  }

  function Settled(queue: seq<Proof>, calls: seq<Call>, n: nat): seq<Proof>
    requires n <= |queue|
  {
    if n == 0 then []
    else if CallAt(calls, n - 1).ok then Settled(queue, calls, n - 1) + [queue[n - 1]]
    else Settled(queue, calls, n - 1)
  }

  function Occurrences(s: seq<Proof>, n: nat, p: Proof): nat
    requires n <= |s|
  {
    if n == 0 then 0 else Occurrences(s, n - 1, p) + if s[n - 1] == p then 1 else 0
  }

  lemma {:induction false} OccurrencesFrame(s: seq<Proof>, t: seq<Proof>, n: nat, p: Proof)
    requires n <= |s| && n <= |t| && forall i :: 0 <= i < n ==> s[i] == t[i]
    ensures Occurrences(s, n, p) == Occurrences(t, n, p)
  {
    if n > 0 {
      OccurrencesFrame(s, t, n - 1, p);
    }
  }

  /** Nothing is lost and nothing duplicated: every proof of the queue is settled or kept, as often as it was there. */
  lemma {:induction false} NothingLost(queue: seq<Proof>, calls: seq<Call>, n: nat, p: Proof)
    requires n <= |queue|
    ensures var failed, settled := Failed(queue, calls, n), Settled(queue, calls, n);
            && |failed| + |settled| == n
            && Occurrences(queue, n, p) == Occurrences(failed, |failed|, p) + Occurrences(settled, |settled|, p)
  {
    if n > 0 {
      NothingLost(queue, calls, n - 1, p);
      var f, s := Failed(queue, calls, n - 1), Settled(queue, calls, n - 1);
      OccurrencesFrame(f + [queue[n - 1]], f, |f|, p);
      OccurrencesFrame(s + [queue[n - 1]], s, |s|, p);
    }
  }

  lemma {:induction false} OutcomeFrame(queue: seq<Proof>, longer: seq<Proof>, calls: seq<Call>, n: nat)
    requires n <= |queue| && n <= |longer| && forall i :: 0 <= i < n ==> queue[i] == longer[i]
    ensures Failed(queue, calls, n) == Failed(longer, calls, n) && Settled(queue, calls, n) == Settled(longer, calls, n)
  {
    if n > 0 {
      OutcomeFrame(queue, longer, calls, n - 1);
    }
  }

  /** These indices, in ascending order, are those of the calls that failed among the first `n`. */
  ghost predicate FailedAt(idx: seq<nat>, calls: seq<Call>, n: nat) {
    && (forall j, k :: 0 <= j < k < |idx| ==> idx[j] < idx[k])
    && (forall k :: 0 <= k < |idx| ==> idx[k] < n)
    && (forall i :: 0 <= i < n ==> (i in idx <==> i >= |calls| || !calls[i].ok))
  }

  lemma OneMoreFailed(idx: seq<nat>, calls: seq<Call>, n: nat, more: seq<nat>)
    requires FailedAt(idx, calls, n) && more == if n >= |calls| || !calls[n].ok then idx + [n] else idx
    ensures FailedAt(more, calls, n + 1)
  {
    forall i | 0 <= i < n ensures i in more <==> i in idx {
    }
    assert n !in idx;
  }

  /** These are the proofs of the queue at these indices. */
  ghost predicate PicksOut(kept: seq<Proof>, queue: seq<Proof>, idx: seq<nat>) {
    |kept| == |idx| && forall k :: 0 <= k < |idx| ==> idx[k] < |queue| && kept[k] == queue[idx[k]]
  }

  lemma OneMorePicked(kept: seq<Proof>, queue: seq<Proof>, idx: seq<nat>, n: nat)
    requires PicksOut(kept, queue, idx) && n < |queue|
    ensures PicksOut(kept + [queue[n]], queue, idx + [n])
  {
  }

  lemma {:induction false} FailedIndices(queue: seq<Proof>, calls: seq<Call>, n: nat) returns (idx: seq<nat>)
    requires n <= |queue|
    ensures FailedAt(idx, calls, n) && PicksOut(Failed(queue, calls, n), queue, idx)
  {
    if n == 0 {
      idx := [];
    } else {
      var before := FailedIndices(queue, calls, n - 1);
      if CallAt(calls, n - 1).ok {
        idx := before;
      } else {
        idx := before + [n - 1];
        OneMorePicked(Failed(queue, calls, n - 1), queue, before, n - 1);
      }
      OneMoreFailed(before, calls, n - 1, idx);
    }
  }

  /** The facilitator took the proof of this call. */
  predicate Succeeded(calls: seq<Call>, i: int) {
    0 <= i < |calls| && calls[i].ok
  }

  lemma OneMoreSettled(calls: seq<Call>, n: nat)
    ensures |set i | 0 <= i < n + 1 && Succeeded(calls, i)|
            == |set i | 0 <= i < n && Succeeded(calls, i)| + if n < |calls| && calls[n].ok then 1 else 0
  {
    var before := set i | 0 <= i < n && Succeeded(calls, i);
    var after := set i | 0 <= i < n + 1 && Succeeded(calls, i);
    assert after == if n < |calls| && calls[n].ok then before + {n} else before;
  }

  lemma {:induction false} SettledCounts(queue: seq<Proof>, calls: seq<Call>, n: nat)
    requires n <= |queue|
    ensures |Settled(queue, calls, n)| == |set i | 0 <= i < n && Succeeded(calls, i)|
  {
    if n == 0 {
      assert (set i | 0 <= i < n && Succeeded(calls, i)) == {};
    } else {
      SettledCounts(queue, calls, n - 1);
      OneMoreSettled(calls, n - 1);
    }
  }

  /** What the retry leaves: the proofs whose call failed, in their order, and how many did not. */
  ghost predicate Retried(kept: seq<Proof>, settled: nat, queue: seq<Proof>, calls: seq<Call>) {
    && settled == |set i | 0 <= i < |queue| && Succeeded(calls, i)|
    && exists idx: seq<nat> :: FailedAt(idx, calls, |queue|) && PicksOut(kept, queue, idx)
  }

  lemma RetryOutcome(queue: seq<Proof>, calls: seq<Call>)
    ensures Retried(Failed(queue, calls, |queue|), |Settled(queue, calls, |queue|)|, queue, calls)
    ensures |Failed(queue, calls, |queue|)| + |Settled(queue, calls, |queue|)| == |queue|
  {
    NothingLost(queue, calls, |queue|, Proof("", 0, 0.0, 0.0, "", ""));
    SettledCounts(queue, calls, |queue|);
    var idx := FailedIndices(queue, calls, |queue|);
  }

  /** After `i` calls: the queue as it has grown, what is to stay in it, and the two counts. */
  ghost predicate RetriedSoFar(
      start: seq<Proof>, queue: seq<Proof>, calls: seq<Call>, i: nat, kept: seq<Proof>, settled: nat, failed: nat)
  {
    && i <= |queue| && queue == start + QueuedDuring(calls, i)
    && kept == Failed(queue, calls, i) && settled == |Settled(queue, calls, i)| && failed == |kept|
  }

  lemma RetryStep(
      start: seq<Proof>, queue: seq<Proof>, calls: seq<Call>, i: nat, kept: seq<Proof>, settled: nat, failed: nat)
    requires RetriedSoFar(start, queue, calls, i, kept, settled, failed) && i < |queue|
    ensures var call := CallAt(calls, i);
            if call.ok then RetriedSoFar(start, queue + call.queued, calls, i + 1, kept, settled + 1, failed)
            else RetriedSoFar(start, queue + call.queued, calls, i + 1, kept + [queue[i]], settled, failed + 1)
  {
    OutcomeFrame(queue, queue + CallAt(calls, i).queued, calls, i);
  }

  lemma RetryDone(
      start: seq<Proof>, queue: seq<Proof>, calls: seq<Call>, i: nat, kept: seq<Proof>, settled: nat, failed: nat)
    requires RetriedSoFar(start, queue, calls, i, kept, settled, failed) && i == |queue|
    ensures start <= queue && settled + failed == |queue| && Retried(kept, settled, queue, calls)
    ensures forall j, p :: 0 <= j < i && j < |calls| && p in calls[j].queued ==> p in queue
  {
    RetryOutcome(queue, calls);
    QueuedStays(calls, i);
  }

  class X402Verifier {
    const merchant: string
    const networks: set<string>
    /** The persistent table, if the verifier has one. */
    const persistent: bool
    var table: set<string>
    var usedNonces: set<string>
    var pendingSettlements: seq<Proof>

    constructor (merchant: string, networks: set<string>, persistent: bool, table: set<string>)
      ensures this.merchant == merchant && this.networks == networks && this.persistent == persistent
      ensures this.table == table && usedNonces == {} && pendingSettlements == []
    {
      this.merchant, this.networks, this.persistent, this.table := merchant, networks, persistent, table;
      usedNonces, pendingSettlements := {}, [];
    }

    /** A nonce is fresh if neither the memory nor the table, when there is one, knows it. */
    predicate Fresh(nonce: string)
      reads this
    {
      nonce !in usedNonces && (persistent ==> nonce !in table)
    }

    /** `storageFails` stands for any error of the insertion but the duplicate key. */
    method CheckReplay(nonce: string, storageFails: bool) returns (accepted: bool)
      modifies this`table, this`usedNonces
      ensures accepted <==> nonce !in old(usedNonces) && (persistent ==> nonce !in old(table) && !storageFails)
      ensures accepted == (old(Fresh(nonce)) && !(persistent && storageFails))
      ensures usedNonces == if accepted then old(usedNonces) + {nonce} else old(usedNonces)
      ensures table == if accepted && persistent then old(table) + {nonce} else old(table)
      ensures accepted ==> !Fresh(nonce)
    {
      if nonce in usedNonces {
        return false;
      }
      if persistent {
        if storageFails || nonce in table {
          return false;
        }
        table := table + {nonce};
      }
      usedNonces := usedNonces + {nonce};
      return true;
    }

    /** The checks that need no nonce, in their order. */
    function Objection(proof: Proof, required: int, now: real): Option<Refusal> {
      if proof.to != merchant then Some(WrongRecipient)
      else if proof.value < required then Some(InsufficientValue)
      else if proof.validBefore <= now then Some(Expired)
      else if proof.validAfter > now then Some(NotYetValid)
      else if proof.network !in networks then Some(UnsupportedNetwork)
      else None
    }

    /** A proof uses up its nonce exactly when it is accepted; a refused proof can be corrected and sent again. */
    method ValidateProofLocally(proof: Proof, required: int, now: real, storageFails: bool) returns (r: Option<Refusal>)
      modifies this`table, this`usedNonces
      ensures r == if Objection(proof, required, now).Some? then Objection(proof, required, now)
                   else if old(Fresh(proof.nonce)) && !(persistent && storageFails) then None
                   else Some(Replay)
      ensures r.None? <==>
                && proof.to == merchant && proof.value >= required
                && proof.validAfter <= now < proof.validBefore && proof.network in networks
                && proof.nonce !in old(usedNonces) && (persistent ==> proof.nonce !in old(table) && !storageFails)
      ensures r == Some(Replay) <==>
                && proof.to == merchant && proof.value >= required
                && proof.validAfter <= now < proof.validBefore && proof.network in networks
                && !(proof.nonce !in old(usedNonces) && (persistent ==> proof.nonce !in old(table) && !storageFails))
      ensures r.Some? ==> table == old(table) && usedNonces == old(usedNonces)
      ensures r.None? ==> !Fresh(proof.nonce) && usedNonces == old(usedNonces) + {proof.nonce}
      ensures r.None? ==> table == if persistent then old(table) + {proof.nonce} else old(table)
    {
      if proof.to != merchant {
        return Some(WrongRecipient);
      }
      if proof.value < required {
        return Some(InsufficientValue);
      }
      if proof.validBefore <= now {
        return Some(Expired);
      }
      if proof.validAfter > now {
        return Some(NotYetValid);
      }
      if proof.network !in networks {
        return Some(UnsupportedNetwork);
      }
      var accepted := CheckReplay(proof.nonce, storageFails);
      return if accepted then None else Some(Replay);
    }

    method QueueFailedSettlement(proof: Proof)
      modifies this`pendingSettlements
      ensures pendingSettlements == old(pendingSettlements) + [proof]
    {
      pendingSettlements := pendingSettlements + [proof];
    }

    /**
     Retries every pending settlement, including those queued while the loop waits: the loop reads
     the length of the list anew each time. `queue` is the list as the loop leaves it behind; exactly
     the proofs whose call failed stay in it, in their order. A call that `calls` does not give fails.
     */
    method RetryPendingSettlements(calls: seq<Call>) returns (settled: nat, failed: nat, ghost queue: seq<Proof>)
      modifies this`pendingSettlements
      ensures queue == old(pendingSettlements) + QueuedDuring(calls, |queue|)
      ensures pendingSettlements == Failed(queue, calls, |queue|)
      ensures settled == |Settled(queue, calls, |queue|)| && failed == |pendingSettlements|
      ensures settled + failed == |queue|
      ensures old(pendingSettlements) <= queue
      ensures forall i, p :: 0 <= i < |queue| && i < |calls| && p in calls[i].queued ==> p in queue
      ensures failed == |pendingSettlements| && Retried(pendingSettlements, settled, queue, calls)
    {
      settled, failed := 0, 0;
      var remaining := [];
      var i := 0;
      while i < |pendingSettlements|
        invariant RetriedSoFar(old(pendingSettlements), pendingSettlements, calls, i, remaining, settled, failed)
        decreases |pendingSettlements| - i + StillToCome(calls, i)
      {
        var proof := pendingSettlements[i];
        var call := CallAt(calls, i);
        RetryStep(old(pendingSettlements), pendingSettlements, calls, i, remaining, settled, failed);
        pendingSettlements := pendingSettlements + call.queued;
        if call.ok {
          settled := settled + 1;
        } else {
          remaining := remaining + [proof];
          failed := failed + 1;
        }
        i := i + 1;
      }
      queue := pendingSettlements;
      RetryDone(old(pendingSettlements), queue, calls, i, remaining, settled, failed);
      pendingSettlements := remaining;
    }
  }
}
