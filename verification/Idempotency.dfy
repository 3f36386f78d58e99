/**
 The route-level idempotency gate (gateway/src/deps/idempotency.py), for keys sent in the header.

 A slot is an agent with one of its keys. Checking a slot is an insert-or-ignore, a lookup and, on
 an expired row, a replacement; recording a response is an update of whatever row the slot has by
 then. Bodies enter only through their hashes.
 */
module Idempotency {
  import opened Basics

  const TTL: real := 86400.0

  datatype Slot = Slot(agent: string, key: string)

  /** Status 0 marks a placeholder; a real response has an HTTP status. */
  type HttpStatus = s: nat | 100 <= s < 600 witness 200

  datatype Row = Row(hash: string, status: nat, response: string, created: real)

  /** The answer of the check: run the mutation, refuse with 409, or repeat a stored response. */
  datatype Verdict = Proceed | KeyReused | Replay(status: nat, response: string)

  // ---------- Checking and recording without interruption ----------

  type Table = map<Slot, Row>

  function Reserve(rows: Table, slot: Slot, hash: string, now: real): Table {
    if slot in rows then rows else rows[slot := Row(hash, 0, "", now)]
  }

  predicate IsExpired(row: Row, now: real) {
    row.created < now - TTL
  }

  function Answer(row: Row, hash: string): Verdict {
    if row.hash != hash then KeyReused
    else if row.status == 0 then Proceed
    else Replay(row.status, row.response)
  }

  function Check(rows: Table, slot: Slot, hash: string, now: real): (Table, Verdict) {
    var reserved := Reserve(rows, slot, hash, now);
    if IsExpired(reserved[slot], now) then (reserved[slot := Row(hash, 0, "", now)], Proceed)
    else (reserved, Answer(reserved[slot], hash))
  }

  function Record(rows: Table, slot: Slot, status: HttpStatus, response: string): Table {
    if slot in rows then rows[slot := rows[slot].(status := status, response := response)] else rows
  }

  class IdempotencyCache {
    var rows: Table

    constructor ()
      ensures rows == map[]
    {
      rows := map[];
    }

    /**
     A request without a key is let through and leaves no row. With one, a slot that is free, or whose
     row is more than a day old, is reserved for the request, which goes ahead. A row with another body
     refuses it; one with the same body lets it go ahead until there is a response, and repeats that.
     */
    method CheckIdempotency(agent: string, key: Option<string>, hash: string, now: real) returns (v: Verdict)
      modifies this
      ensures key.Some? && key.value != "" ==>
                var slot := Slot(agent, key.value);
                var free := slot !in old(rows) || now - old(rows)[slot].created > 86400.0;
                && (free ==> v == Proceed && rows == old(rows)[slot := Row(hash, 0, "", now)])
                && (!free ==>
                      && rows == old(rows)
                      && (old(rows)[slot].hash != hash ==> v == KeyReused)
                      && (old(rows)[slot].hash == hash && old(rows)[slot].status == 0 ==> v == Proceed)
                      && (old(rows)[slot].hash == hash && old(rows)[slot].status != 0 ==>
                            v == Replay(old(rows)[slot].status, old(rows)[slot].response)))
      ensures key.None? || key.value == "" ==> v == Proceed && rows == old(rows)
      ensures key.Some? && key.value != "" ==> (rows, v) == Check(old(rows), Slot(agent, key.value), hash, now)
    {
      if key.None? || key.value == "" {
        return Proceed;
      }
      var slot := Slot(agent, key.value);
      if slot !in rows {
        rows := rows[slot := Row(hash, 0, "", now)];
      }
      var row := rows[slot];
      if row.created < now - TTL {
        ghost var reserved := rows;
        rows := rows - {slot};
        rows := rows[slot := Row(hash, 0, "", now)];
        assert rows == reserved[slot := Row(hash, 0, "", now)];
        return Proceed;
      }
      if row.hash != hash {
        return KeyReused;
      }
      if row.status == 0 {
        return Proceed;
      }
      return Replay(row.status, row.response);
    }

    /** Completes the row of the slot, if there is one, and leaves its body and its age. */
    method RecordResponse(agent: string, key: Option<string>, status: HttpStatus, response: string)
      modifies this
      ensures rows.Keys == old(rows).Keys
      ensures forall slot :: slot in rows ==>
                var row := old(rows)[slot];
                rows[slot] == if key.Some? && key.value != "" && slot == Slot(agent, key.value)
                              then Row(row.hash, status, response, row.created) else row
      ensures rows == if key.None? || key.value == "" then old(rows)
                      else Record(old(rows), Slot(agent, key.value), status, response)
    {
      if key.Some? && key.value != "" && Slot(agent, key.value) in rows {
        var slot := Slot(agent, key.value);
        rows := rows[slot := rows[slot].(status := status, response := response)];
      }
    }
  }

  // ---------- Requests that do not overlap ----------

  datatype Response = Response(status: HttpStatus, body: string)

  /** A request on a slot, and what its mutation would return if it ran; `None` when it fails. */
  datatype Attempt = Attempt(slot: Slot, hash: string, now: real, outcome: Option<Response>)

  /** The table after an attempt: a mutation that runs and succeeds has its response recorded. */
  function After(rows: Table, a: Attempt): Table {
    var (checked, verdict) := Check(rows, a.slot, a.hash, a.now);
    if verdict == Proceed && a.outcome.Some? then
      Record(checked, a.slot, a.outcome.value.status, a.outcome.value.body)
    else checked
  }

  predicate Runs(rows: Table, a: Attempt) {
    Check(rows, a.slot, a.hash, a.now).1 == Proceed
  }

  /** An attempt runs exactly on a slot that is free or expired, or that holds its own body without a response. */
  lemma RunsExactly(rows: Table, a: Attempt)
    ensures Runs(rows, a) <==>
              || a.slot !in rows || a.now - rows[a.slot].created > 86400.0
              || (rows[a.slot].hash == a.hash && rows[a.slot].status == 0)
  {
  }

  function Serial(rows: Table, attempts: seq<Attempt>, k: nat, n: nat): Table
    requires k <= n <= |attempts|
    decreases n - k
  {
    if k == n then rows else Serial(After(rows, attempts[k]), attempts, k + 1, n)
  }

  predicate InOrder(attempts: seq<Attempt>) {
    forall i, j :: 0 <= i < j < |attempts| ==> attempts[i].now <= attempts[j].now
  }

  /** A finished slot: its row holds a response. */
  predicate Finished(rows: Table, slot: Slot, row: Row) {
    slot in rows && rows[slot] == row && row.status != 0
  }

  /** Until it expires, a finished slot keeps its row through any attempts. */
  lemma {:induction false} FinishedStays(rows: Table, attempts: seq<Attempt>, k: nat, n: nat, slot: Slot, row: Row)
    requires k <= n <= |attempts| && Finished(rows, slot, row)
    requires forall i :: k <= i < n ==> !IsExpired(row, attempts[i].now)
    ensures Finished(Serial(rows, attempts, k, n), slot, row)
    decreases n - k
  {
    if k < n {
      assert Finished(After(rows, attempts[k]), slot, row);
      FinishedStays(After(rows, attempts[k]), attempts, k + 1, n, slot, row);
    }
  }

  /** The row that a successful attempt leaves. */
  lemma SuccessFinishes(rows: Table, a: Attempt)
    requires Runs(rows, a) && a.outcome.Some?
    ensures a.slot in After(rows, a)
    ensures var row := After(rows, a)[a.slot];
            && Finished(After(rows, a), a.slot, row)
            && row.hash == a.hash && row.status == a.outcome.value.status && row.response == a.outcome.value.body
            && (row.created == a.now
                || (a.slot in rows && row.created == rows[a.slot].created && !IsExpired(rows[a.slot], a.now)))
  {
  }

  /**
   After attempt `i` ran and succeeded, and until the row it left expires, no attempt on its slot
   runs: an equal body gets the response of `i`, and a different body is refused.
   */
  lemma SingleShot(rows: Table, attempts: seq<Attempt>, i: nat, j: nat)
    requires i < j < |attempts| && InOrder(attempts) && attempts[j].slot == attempts[i].slot
    requires Runs(Serial(rows, attempts, 0, i), attempts[i]) && attempts[i].outcome.Some?
    requires var left := Serial(rows, attempts, 0, i + 1);
             attempts[i].slot in left && !IsExpired(left[attempts[i].slot], attempts[j].now)
    ensures var verdict := Check(Serial(rows, attempts, 0, j), attempts[j].slot, attempts[j].hash, attempts[j].now).1;
            verdict == if attempts[j].hash == attempts[i].hash
                       then Replay(attempts[i].outcome.value.status, attempts[i].outcome.value.body)
                       else KeyReused
  {
    var before, a := Serial(rows, attempts, 0, i), attempts[i];
    var left := After(before, a);
    SerialSplit(rows, attempts, 0, i, i + 1);
    assert Serial(before, attempts, i, i + 1) == left;
    SuccessFinishes(before, a);
    FinishedStays(left, attempts, i + 1, j, a.slot, left[a.slot]);
    SerialSplit(rows, attempts, 0, i + 1, j);
  }

  lemma {:induction false} SerialSplit(rows: Table, attempts: seq<Attempt>, k: nat, m: nat, n: nat)
    requires k <= m <= n <= |attempts|
    ensures Serial(rows, attempts, k, n) == Serial(Serial(rows, attempts, k, m), attempts, m, n)
    decreases m - k
  {
    if k < m {
      SerialSplit(After(rows, attempts[k]), attempts, k + 1, m, n);
    }
  }

  // ---------- Exactly when the mutation runs again ----------

  /** When the row that an attempt goes ahead on was reserved: now, or by an earlier attempt that left no response. */
  function Since(rows: Table, a: Attempt): real {
    if a.slot !in rows || IsExpired(rows[a.slot], a.now) then a.now else rows[a.slot].created
  }

  /** A finished slot keeps its row while no attempt on it runs. */
  lemma {:induction false} KeptUntilRun(rows: Table, attempts: seq<Attempt>, k: nat, n: nat, slot: Slot, row: Row)
    requires k <= n <= |attempts| && Finished(rows, slot, row)
    requires forall m :: k <= m < n && attempts[m].slot == slot ==> !Runs(Serial(rows, attempts, k, m), attempts[m])
    ensures Finished(Serial(rows, attempts, k, n), slot, row)
    decreases n - k
  {
    if k < n {
      var next := After(rows, attempts[k]);
      assert Serial(rows, attempts, k, k) == rows;
      assert Finished(next, slot, row);
      forall m | k + 1 <= m < n && attempts[m].slot == slot
        ensures !Runs(Serial(next, attempts, k + 1, m), attempts[m])
      {
        assert Serial(rows, attempts, k, m) == Serial(next, attempts, k + 1, m);
      }
      KeptUntilRun(next, attempts, k + 1, n, slot, row);
    }
  }

  /**
   After attempt `i` ran and succeeded, the mutation runs again at the first attempt on the slot
   that comes more than a TTL after the reservation of the row, and no sooner.
   */
  lemma NextRunExactly(rows: Table, attempts: seq<Attempt>, i: nat, j: nat)
    requires i < j < |attempts| && attempts[j].slot == attempts[i].slot
    requires Runs(Serial(rows, attempts, 0, i), attempts[i]) && attempts[i].outcome.Some?
    requires forall m :: i < m < j && attempts[m].slot == attempts[i].slot ==>
               !Runs(Serial(rows, attempts, 0, m), attempts[m])
    ensures Runs(Serial(rows, attempts, 0, j), attempts[j])
            <==> attempts[j].now - Since(Serial(rows, attempts, 0, i), attempts[i]) > TTL
  {
    var before, a := Serial(rows, attempts, 0, i), attempts[i];
    var left := After(before, a);
    SerialSplit(rows, attempts, 0, i, i + 1);
    assert Serial(before, attempts, i, i + 1) == left;
    SuccessFinishes(before, a);
    forall m | i + 1 <= m < j && attempts[m].slot == a.slot
      ensures !Runs(Serial(left, attempts, i + 1, m), attempts[m])
    {
      SerialSplit(rows, attempts, 0, i + 1, m);
    }
    KeptUntilRun(left, attempts, i + 1, j, a.slot, left[a.slot]);
    SerialSplit(rows, attempts, 0, i + 1, j);
  }

  /**
   A success can be followed by another run within a TTL if and only if an earlier attempt had
   reserved the row: the TTL runs from the reservation, not from the response.
   */
  lemma RunsAgainWithinTtl(rows: Table, a: Attempt)
    requires Runs(rows, a) && a.outcome.Some?
    ensures (exists next: Attempt ::
               next.slot == a.slot && a.now <= next.now <= a.now + TTL && Runs(After(rows, a), next))
            <==> Since(rows, a) < a.now
  {
    SuccessFinishes(rows, a);
    if Since(rows, a) < a.now {
      var next := a.(now := a.now + TTL);
      assert next.slot == a.slot && Runs(After(rows, a), next);
    }
  }

  /**
   If attempt `i` reserved its slot itself, its mutation is the only one to run on the slot for a
   whole TTL from then on.
   */
  lemma OncePerTtl(rows: Table, attempts: seq<Attempt>, i: nat, j: nat)
    requires i < j < |attempts| && InOrder(attempts) && attempts[j].slot == attempts[i].slot
    requires Runs(Serial(rows, attempts, 0, i), attempts[i]) && attempts[i].outcome.Some?
    requires var before := Serial(rows, attempts, 0, i);
             attempts[i].slot !in before || IsExpired(before[attempts[i].slot], attempts[i].now)
    requires Runs(Serial(rows, attempts, 0, j), attempts[j])
    ensures attempts[j].now - attempts[i].now > TTL
  {
    SerialSplit(rows, attempts, 0, i, i + 1);
    var before := Serial(rows, attempts, 0, i);
    assert Serial(before, attempts, i, i + 1) == After(before, attempts[i]);
    SuccessFinishes(before, attempts[i]);
    if attempts[j].now - attempts[i].now <= TTL {
      SingleShot(rows, attempts, i, j);
      assert false;
    }
  }
}
