/**
 Webhook deliveries and their retries (gateway/src/webhooks.py).

 Every delivery is sent once by a task of its own and then, while it is pending and due, by the
 retry worker. A send takes three steps, between which anything else may happen: it reads its
 clock and posts; the answer comes and the attempts so far are read; the row is written. There is
 one worker, and neither it nor a task is cut off. Clocks do not go back.
 */
module Webhooks {
  import opened Basics

  const MAX_ATTEMPTS: nat := 3
  const BASE_DELAY: nat := 10
  const EXPONENTIAL_BASE: nat := 2

  datatype Status = Pending | Delivered | Failed

  datatype Row = Row(status: Status, attempts: nat, nextRetry: Option<real>)

  const Queued := Row(Pending, 0, None)

  function Power(base: nat, e: nat): nat {
    if e == 0 then 1 else base * Power(base, e - 1)
  }

  /** How long after the start of a failed attempt the next one is due. */
  function Delay(attempts: nat): real
    requires attempts > 0
  {
    (BASE_DELAY * Power(EXPONENTIAL_BASE, attempts - 1)) as real
  }

  /** What is written after attempt number `attempts`, which began at `start`. */
  function Written(start: real, attempts: nat, ok: bool): Row
    requires attempts > 0
  {
    if ok then Row(Delivered, attempts, None)
    else if attempts >= MAX_ATTEMPTS then Row(Failed, attempts, None)
    else Row(Pending, attempts, Some(start + Delay(attempts)))
  }

  predicate Due(row: Row, now: real) {
    row.status.Pending? && row.nextRetry.Some? && row.nextRetry.value <= now
  }

  // ---------- Sends as steps ----------

  /** A post that was begun; its outcome is there once the row has been written. */
  datatype Send = Send(start: real, outcome: Option<bool>)

  /** Where a sender is with its send `k` of a delivery; `attempts` counts the send itself. */
  datatype Sender = Waiting | Posting(k: nat) | Answered(k: nat, ok: bool, attempts: nat) | Ended

  datatype Delivery = Delivery(row: Row, sends: seq<Send>, first: Sender)

  /** The worker is at `rows[pos]` of the deliveries it picked; its sender never is `Ended`. */
  datatype Worker = Idle | Batch(picked: real, rows: seq<nat>, pos: nat, sender: Sender)

  datatype State = State(deliveries: seq<Delivery>, worker: Worker, clock: real)

  /** `First` is a step of the first send of delivery `i`, `Retry` one of the worker. */
  datatype Step =
    | Deliver
    | First(i: nat, now: real, ok: bool)
    | Select(picked: real, rows: seq<nat>)
    | Retry(at: real, result: bool)

  const Start := State([], Idle, 0.0)

  predicate Distinct(rows: seq<nat>) {
    forall j, k :: 0 <= j < k < |rows| ==> rows[j] != rows[k]
  }

  /** The rows, in some order, of exactly the deliveries that are due. */
  predicate Picks(deliveries: seq<Delivery>, now: real, rows: seq<nat>) {
    && Distinct(rows)
    && (forall j :: 0 <= j < |rows| ==> rows[j] < |deliveries| && Due(deliveries[rows[j]].row, now))
    && (forall i :: 0 <= i < |deliveries| && Due(deliveries[i].row, now) ==> i in rows)
  }

  /** One step of a sender with delivery `d`, together with where the sender is then. */
  function Advance(d: Delivery, sender: Sender, now: real, ok: bool): (Delivery, Sender) {
    match sender
    case Waiting => (d.(sends := d.sends + [Send(now, None)]), Posting(|d.sends|))
    case Posting(k) => (d, Answered(k, ok, d.row.attempts + 1))
    case Answered(k, success, attempts) =>
      if k < |d.sends| && attempts > 0 then
        var sends := d.sends[k := d.sends[k].(outcome := Some(success))];
        (d.(row := Written(d.sends[k].start, attempts, success), sends := sends), Ended)
      else (d, Ended)
    case Ended => (d, Ended)
  }

  function FirstStep(s: State, i: nat, now: real, ok: bool): State
    requires i < |s.deliveries|
  {
    var (d, sender) := Advance(s.deliveries[i], s.deliveries[i].first, now, ok);
    s.(deliveries := s.deliveries[i := d.(first := sender)], clock := now)
  }

  /** The worker with the batch after its sender has moved. */
  function Moved(w: Worker, sender: Sender): Worker
    requires w.Batch?
  {
    if !sender.Ended? then w.(sender := sender)
    else if w.pos + 1 < |w.rows| then w.(pos := w.pos + 1, sender := Waiting)
    else Idle
  }

  function RetryStep(s: State, now: real, ok: bool): State
    requires s.worker.Batch? && s.worker.pos < |s.worker.rows| && s.worker.rows[s.worker.pos] < |s.deliveries|
  {
    var i := s.worker.rows[s.worker.pos];
    var (d, sender) := Advance(s.deliveries[i], s.worker.sender, now, ok);
    s.(deliveries := s.deliveries[i := d], worker := Moved(s.worker, sender), clock := now)
  }

  predicate CanRetry(s: State, now: real) {
    && s.worker.Batch? && s.worker.pos < |s.worker.rows| && s.worker.rows[s.worker.pos] < |s.deliveries|
    && s.clock <= now
  }

  /** A step that cannot be taken changes nothing. */
  function Next(s: State, step: Step): State {
    match step
    case Deliver => s.(deliveries := s.deliveries + [Delivery(Queued, [], Waiting)])
    case First(i, now, ok) => if i < |s.deliveries| && s.clock <= now then FirstStep(s, i, now, ok) else s
    case Select(picked, rows) =>
      if s.worker.Idle? && s.clock <= picked && Picks(s.deliveries, picked, rows) && rows != [] then
        s.(worker := Batch(picked, rows, 0, Waiting), clock := picked)
      else s
    case Retry(at, result) => if CanRetry(s, at) then RetryStep(s, at, result) else s
  }

  function Run(s: State, steps: seq<Step>, k: nat): State
    requires k <= |steps|
    decreases |steps| - k
  {
    if k == |steps| then s else Run(Next(s, steps[k]), steps, k + 1)
  }

  // ---------- What every run keeps ----------

  predicate Open(d: Delivery) {
    d.sends != [] && d.sends[|d.sends| - 1].outcome.None?
  }

  predicate InFlight(sender: Sender) {
    sender.Posting? || sender.Answered?
  }

  function Closed(d: Delivery): nat {
    if Open(d) then |d.sends| - 1 else |d.sends|
  }

  /** The row says what the first `n` sends came to. */
  predicate Tells(row: Row, sends: seq<Send>, n: nat)
    requires n <= |sends|
  {
    if n == 0 then row == Queued
    else sends[n - 1].outcome.Some? && row == Written(sends[n - 1].start, n, sends[n - 1].outcome.value)
  }

  predicate HistoryOk(d: Delivery) {
    && |d.sends| <= MAX_ATTEMPTS
    && (forall k :: 0 <= k < |d.sends| - 1 ==> d.sends[k].outcome == Some(false))
    && (forall k :: 0 < k < |d.sends| ==> d.sends[k].start >= d.sends[k - 1].start + Delay(k))
    && Tells(d.row, d.sends, Closed(d))
  }

  predicate SenderOk(d: Delivery, sender: Sender) {
    && (InFlight(sender) ==> Open(d) && sender.k == |d.sends| - 1)
    && (sender.Answered? ==> sender.attempts == |d.sends|)
  }

  /** The first send of `d` is the only one until it has ended. */
  predicate FirstOk(d: Delivery) {
    && SenderOk(d, d.first)
    && (d.first.Waiting? ==> |d.sends| == 0)
    && (InFlight(d.first) ==> |d.sends| == 1)
    && (d.first.Ended? ==> |d.sends| > 0 && (Open(d) ==> |d.sends| > 1))
  }

  /** The worker is sending delivery `i`. */
  predicate InRetry(w: Worker, i: nat) {
    w.Batch? && w.pos < |w.rows| && w.rows[w.pos] == i && InFlight(w.sender)
  }

  predicate DeliveryOk(d: Delivery, w: Worker, i: nat) {
    && HistoryOk(d) && FirstOk(d)
    && (Open(d) ==> InFlight(d.first) || InRetry(w, i))
  }

  /** A delivery the worker has picked and not yet come to. */
  predicate Ready(d: Delivery, picked: real) {
    d.first.Ended? && !Open(d) && Due(d.row, picked)
  }

  predicate WorkerOk(s: State) {
    var w := s.worker;
    w.Batch? ==>
      && w.pos < |w.rows| && Distinct(w.rows) && !w.sender.Ended? && w.picked <= s.clock
      && (forall j :: w.pos <= j < |w.rows| ==> w.rows[j] < |s.deliveries|)
      && (forall j :: w.pos < j < |w.rows| ==> Ready(s.deliveries[w.rows[j]], w.picked))
      && (w.sender.Waiting? ==> Ready(s.deliveries[w.rows[w.pos]], w.picked))
      && (InFlight(w.sender) ==>
            s.deliveries[w.rows[w.pos]].first.Ended? && SenderOk(s.deliveries[w.rows[w.pos]], w.sender))
  }

  predicate DeliveriesOk(s: State) {
    forall i :: 0 <= i < |s.deliveries| ==> DeliveryOk(s.deliveries[i], s.worker, i)
  }

  predicate Inv(s: State) {
    DeliveriesOk(s) && WorkerOk(s)
  }

  lemma AdvanceFirst(d: Delivery, w: Worker, i: nat, now: real, ok: bool)
    requires DeliveryOk(d, w, i)
    requires InRetry(w, i) ==> d.first.Ended?
    ensures var (d', sender) := Advance(d, d.first, now, ok); DeliveryOk(d'.(first := sender), w, i)
  {
  }

  lemma NextFirst(s: State, i: nat, now: real, ok: bool)
    requires Inv(s) && i < |s.deliveries| && s.clock <= now
    ensures Inv(FirstStep(s, i, now, ok))
  {
    var s' := FirstStep(s, i, now, ok);
    assert DeliveryOk(s.deliveries[i], s.worker, i);
    AdvanceFirst(s.deliveries[i], s.worker, i, now, ok);
    assert s.deliveries[i].first.Ended? ==> s'.deliveries[i] == s.deliveries[i];
    forall j | 0 <= j < |s'.deliveries| ensures DeliveryOk(s'.deliveries[j], s'.worker, j) {
      assert DeliveryOk(s.deliveries[j], s.worker, j);
    }
  }

  lemma RetryBegins(d: Delivery, picked: real, now: real)
    requires HistoryOk(d) && FirstOk(d) && Ready(d, picked) && picked <= now
    ensures var d' := d.(sends := d.sends + [Send(now, None)]);
            HistoryOk(d') && FirstOk(d') && SenderOk(d', Posting(|d.sends|))
  {
  }

  lemma RetryWrites(d: Delivery, k: nat, success: bool, attempts: nat)
    requires HistoryOk(d) && FirstOk(d) && d.first.Ended? && SenderOk(d, Answered(k, success, attempts))
    ensures var sends := d.sends[k := d.sends[k].(outcome := Some(success))];
            var d' := d.(row := Written(d.sends[k].start, attempts, success), sends := sends);
            HistoryOk(d') && FirstOk(d') && !Open(d')
  {
  }

  /** What a step of the worker makes of the delivery it is at. */
  lemma AdvanceRetry(d: Delivery, sender: Sender, picked: real, now: real, ok: bool)
    requires HistoryOk(d) && FirstOk(d) && d.first.Ended? && SenderOk(d, sender) && !sender.Ended? && picked <= now
    requires sender.Waiting? ==> Ready(d, picked)
    ensures var (d', sender') := Advance(d, sender, now, ok);
            && HistoryOk(d') && FirstOk(d') && d'.first.Ended? && SenderOk(d', sender')
            && !sender'.Waiting? && (Open(d') ==> InFlight(sender'))
  {
    match sender
    case Waiting => RetryBegins(d, picked, now);
    case Posting(k) =>
    case Answered(k, success, attempts) => RetryWrites(d, k, success, attempts);
    case Ended =>
  }

  lemma NextRetryWorker(s: State, now: real, ok: bool)
    requires Inv(s) && CanRetry(s, now)
    ensures WorkerOk(RetryStep(s, now, ok))
  {
    var w := s.worker;
    var i := w.rows[w.pos];
    assert DeliveryOk(s.deliveries[i], w, i);
    AdvanceRetry(s.deliveries[i], w.sender, w.picked, now, ok);
    forall j | w.pos < j < |w.rows|
      ensures w.rows[j] < |s.deliveries| && RetryStep(s, now, ok).deliveries[w.rows[j]] == s.deliveries[w.rows[j]]
    {
      assert w.rows[w.pos] != w.rows[j];
    }
  }

  lemma NextRetryDeliveries(s: State, now: real, ok: bool)
    requires Inv(s) && CanRetry(s, now)
    ensures DeliveriesOk(RetryStep(s, now, ok))
  {
    var s' := RetryStep(s, now, ok);
    var w := s.worker;
    var i := w.rows[w.pos];
    assert DeliveryOk(s.deliveries[i], w, i);
    AdvanceRetry(s.deliveries[i], w.sender, w.picked, now, ok);
    forall j | 0 <= j < |s'.deliveries| ensures DeliveryOk(s'.deliveries[j], s'.worker, j) {
      assert DeliveryOk(s.deliveries[j], s.worker, j);
    }
  }

  lemma NextSelect(s: State, picked: real, rows: seq<nat>)
    requires Inv(s) && s.worker.Idle? && s.clock <= picked && Picks(s.deliveries, picked, rows) && rows != []
    ensures Inv(s.(worker := Batch(picked, rows, 0, Waiting), clock := picked))
  {
    var s' := s.(worker := Batch(picked, rows, 0, Waiting), clock := picked);
    forall i | 0 <= i < |s.deliveries| ensures DeliveryOk(s'.deliveries[i], s'.worker, i) {
      assert DeliveryOk(s.deliveries[i], s.worker, i);
    }
    forall j | 0 <= j < |rows| ensures Ready(s.deliveries[rows[j]], picked) {
      assert DeliveryOk(s.deliveries[rows[j]], s.worker, rows[j]);
    }
  }

  lemma NextInv(s: State, step: Step)
    requires Inv(s)
    ensures Inv(Next(s, step))
  {
    match step
    case Deliver =>
      var s' := Next(s, step);
      forall i | 0 <= i < |s'.deliveries| ensures DeliveryOk(s'.deliveries[i], s'.worker, i) {
        assert i < |s.deliveries| ==> DeliveryOk(s.deliveries[i], s.worker, i);
      }
    case First(i, now, ok) =>
      if i < |s.deliveries| && s.clock <= now {
        NextFirst(s, i, now, ok);
      }
    case Select(picked, rows) =>
      if Next(s, step) != s {
        NextSelect(s, picked, rows);
      }
    case Retry(at, result) =>
      if CanRetry(s, at) {
        NextRetryWorker(s, at, result);
        NextRetryDeliveries(s, at, result);
      }
  }

  lemma {:induction false} RunInv(s: State, steps: seq<Step>, k: nat)
    requires k <= |steps| && Inv(s)
    ensures Inv(Run(s, steps, k))
    decreases |steps| - k
  {
    if k < |steps| {
      NextInv(s, steps[k]);
      RunInv(Next(s, steps[k]), steps, k + 1);
    }
  }

  predicate AllFailed(sends: seq<Send>) {
    forall k :: 0 <= k < |sends| ==> sends[k].outcome == Some(false)
  }

  /**
   In every interleaving, each delivery is sent at most three times, and only after all its earlier
   sends have failed, so never twice at once; its third send begins at least 30 seconds after its
   first. It is delivered exactly when its last send succeeded, failed exactly when three have
   failed, and its row counts the sends that have ended.
   */
  lemma DeliveryHistory(steps: seq<Step>, i: nat)
    requires i < |Run(Start, steps, 0).deliveries|
    ensures var d := Run(Start, steps, 0).deliveries[i];
            && |d.sends| <= 3
            && (forall k :: 0 <= k < |d.sends| - 1 ==> d.sends[k].outcome == Some(false))
            && (|d.sends| == 3 ==> d.sends[2].start >= d.sends[0].start + 30.0)
            && (d.row.status.Delivered? <==> d.sends != [] && d.sends[|d.sends| - 1].outcome == Some(true))
            && (d.row.status.Failed? <==> |d.sends| == 3 && AllFailed(d.sends))
            && d.row.attempts == Closed(d)
  {
    RunInv(Start, steps, 0);
    var s := Run(Start, steps, 0);
    var d := s.deliveries[i];
    assert DeliveryOk(d, s.worker, i);
    if |d.sends| == 3 {
      assert Power(2, 0) == 1 && Power(2, 1) == 2;
      assert d.sends[1].start >= d.sends[0].start + Delay(1);
      assert d.sends[2].start >= d.sends[1].start + Delay(2);
    }
    if d.row.status.Failed? {
      assert |d.sends| == 3 && !Open(d);
    }
  }

  // ---------- Nothing is sent again, nothing is forgotten ----------

  predicate Terminal(d: Delivery) {
    d.row.status.Delivered? || d.row.status.Failed?
  }

  lemma NextTerminal(s: State, step: Step, i: nat)
    requires Inv(s) && i < |s.deliveries| && Terminal(s.deliveries[i])
    ensures i < |Next(s, step).deliveries| && Next(s, step).deliveries[i] == s.deliveries[i]
  {
    assert DeliveryOk(s.deliveries[i], s.worker, i);
  }

  /** Once delivered or failed, a delivery is never sent again and its row never changes. */
  lemma {:induction false} TerminalStays(s: State, steps: seq<Step>, k: nat, i: nat)
    requires k <= |steps| && Inv(s) && i < |s.deliveries| && Terminal(s.deliveries[i])
    ensures i < |Run(s, steps, k).deliveries| && Run(s, steps, k).deliveries[i] == s.deliveries[i]
    decreases |steps| - k
  {
    if k < |steps| {
      NextTerminal(s, steps[k], i);
      NextInv(s, steps[k]);
      TerminalStays(Next(s, steps[k]), steps, k + 1, i);
    }
  }

  /**
   Whatever is still pending after its first send, and not being sent, is picked up by the worker
   exactly when the delay since its last send is over.
   */
  lemma PendingIsPicked(steps: seq<Step>, i: nat, now: real, rows: seq<nat>)
    requires var s := Run(Start, steps, 0);
             && i < |s.deliveries| && s.worker.Idle? && Picks(s.deliveries, now, rows)
             && s.deliveries[i].first.Ended? && !Terminal(s.deliveries[i])
    ensures var sends := Run(Start, steps, 0).deliveries[i].sends;
            && 0 < |sends| < 3
            && (i in rows <==> sends[|sends| - 1].start + (if |sends| == 1 then 10.0 else 20.0) <= now)
  {
    assert Power(2, 0) == 1 && Power(2, 1) == 2;
    RunInv(Start, steps, 0);
    var s := Run(Start, steps, 0);
    assert DeliveryOk(s.deliveries[i], s.worker, i);
  }

  // ---------- The manager without interruption ----------

  /** The identifiers an event names; an empty set stands for an event without any. */
  datatype Event = Event(kind: string, agents: set<string>)

  datatype Webhook = Webhook(kinds: seq<string>, filter: Option<seq<string>>, active: bool)

  predicate MatchesAgentFilter(hook: Webhook, agents: set<string>) {
    || hook.filter.None? || hook.filter.value == []
    || agents == {}
    || exists a :: a in agents && a in hook.filter.value
  }

  predicate Wants(hook: Webhook, event: Event) {
    hook.active && event.kind in hook.kinds && MatchesAgentFilter(hook, event.agents)
  }

  datatype Queue = Queue(hook: nat, event: Event, row: Row)

  predicate Increasing(queue: seq<Queue>, n: nat)
    requires n <= |queue|
  {
    forall j, k :: n <= j < k < |queue| ==> queue[j].hook < queue[k].hook
  }

  class WebhookManager {
    var webhooks: seq<Webhook>
    var queue: seq<Queue>

    /** The rows added are one for each webhook that wants the event, in the order of the webhooks. */
    method Deliver(event: Event)
      modifies this`queue
      ensures |old(queue)| <= |queue| && queue[..|old(queue)|] == old(queue)
      ensures Increasing(queue, |old(queue)|)
      ensures forall j :: |old(queue)| <= j < |queue| ==>
                            && queue[j].hook < |webhooks| && Wants(webhooks[queue[j].hook], event)
                            && queue[j].event == event && queue[j].row == Queued
      ensures forall h :: 0 <= h < |webhooks| && Wants(webhooks[h], event) ==>
                            exists j :: |old(queue)| <= j < |queue| && queue[j].hook == h
      ensures forall h :: 0 <= h < |webhooks| ==>
                var hook := webhooks[h];
                ((exists j :: |old(queue)| <= j < |queue| && queue[j].hook == h)
                 <==>
                 && hook.active && event.kind in hook.kinds
                 && (hook.filter.None? || hook.filter.value == [] || event.agents == {}
                     || exists a :: a in event.agents && a in hook.filter.value))
    {
      ghost var n := |queue|;
      var h := 0;
      while h < |webhooks|
        invariant 0 <= h <= |webhooks|
        invariant n == |old(queue)| <= |queue| && queue[..n] == old(queue)
        invariant Increasing(queue, n)
        invariant forall j :: n <= j < |queue| ==>
                                && queue[j].hook < h && Wants(webhooks[queue[j].hook], event)
                                && queue[j].event == event && queue[j].row == Queued
        invariant forall g :: 0 <= g < h && Wants(webhooks[g], event) ==>
                                exists j :: n <= j < |queue| && queue[j].hook == g
      {
        if Wants(webhooks[h], event) {
          ghost var before := queue;
          queue := queue + [Queue(h, event, Queued)];
          assert queue[|before|].hook == h;
          assert forall j :: 0 <= j < |before| ==> queue[j] == before[j];
        }
        h := h + 1;
      }
    }

    /** One send: its start and its outcome are what the clock and the endpoint gave. */
    method Send(id: nat, start: real, ok: bool)
      requires id < |queue|
      modifies this`queue
      ensures queue == old(queue)[id := old(queue)[id].(row := Written(start, old(queue)[id].row.attempts + 1, ok))]
      ensures var n := old(queue)[id].row.attempts + 1;
              queue[id].row == if ok then Row(Delivered, n, None)
                               else if n >= 3 then Row(Failed, n, None)
                               else Row(Pending, n, Some(start + if n == 1 then 10.0 else 20.0))
    {
      assert Power(2, 0) == 1 && Power(2, 1) == 2;
      var attempts := queue[id].row.attempts + 1;
      var status, nextRetry := Pending, None;
      if ok {
        status := Delivered;
      } else if attempts >= MAX_ATTEMPTS {
        status := Failed;
      } else {
        nextRetry := Some(start + Delay(attempts));
      }
      queue := queue[id := queue[id].(row := Row(status, attempts, nextRetry))];
    }

    /** In whatever order the rows come, every delivery that was due is sent once, and no other. */
    method ProcessRetries(now: real, rows: seq<nat>, starts: seq<real>, oks: seq<bool>)
      requires Distinct(rows) && |starts| == |oks| == |rows|
      requires forall j :: 0 <= j < |rows| ==> rows[j] < |queue| && Due(queue[rows[j]].row, now)
      requires forall i :: 0 <= i < |queue| && Due(queue[i].row, now) ==> i in rows
      modifies this`queue
      ensures |queue| == |old(queue)|
      ensures forall j :: 0 <= j < |rows| ==>
                var before := old(queue)[rows[j]];
                queue[rows[j]] == before.(row := Written(starts[j], before.row.attempts + 1, oks[j]))
      ensures forall i :: 0 <= i < |queue| && !Due(old(queue)[i].row, now) ==> queue[i] == old(queue)[i]
    {
      var j := 0;
      while j < |rows|
        invariant 0 <= j <= |rows| && |queue| == |old(queue)|
        invariant forall k :: 0 <= k < j ==>
                    var before := old(queue)[rows[k]];
                    queue[rows[k]] == before.(row := Written(starts[k], before.row.attempts + 1, oks[k]))
        invariant forall k :: j <= k < |rows| ==> queue[rows[k]] == old(queue)[rows[k]]
        invariant forall i :: 0 <= i < |queue| && i !in rows ==> queue[i] == old(queue)[i]
      {
        assert rows[j] in rows;
        Send(rows[j], starts[j], oks[j]);
        j := j + 1;
      }
    }
  }

  /** The three steps of a retry, with nothing in between, write what an uninterrupted send writes. */
  lemma UninterruptedRetry(s: State, start: real, later: real, last: real, ok: bool)
    requires Inv(s) && s.worker.Batch? && s.worker.sender.Waiting? && s.clock <= start <= later <= last
    ensures var i := s.worker.rows[s.worker.pos];
            var s' := Next(Next(Next(s, Retry(start, ok)), Retry(later, ok)), Retry(last, ok));
            && i < |s.deliveries| && |s'.deliveries| == |s.deliveries|
            && s'.deliveries[i].row == Written(start, s.deliveries[i].row.attempts + 1, ok)
            && forall j :: 0 <= j < |s.deliveries| && j != i ==> s'.deliveries[j] == s.deliveries[j]
  {
  }
}
