/**
 The server-sent event stream (gateway/src/routes/sse.py) over the event bus
 (products/shared/src/event_bus.py).

 The bus is an append-only log with increasing ids. The stream polls it in batches, filters by
 source, and moves a cursor. A stream shows exactly the wanted events of a stretch of ids, and a
 client that reconnects with the last id it saw continues without gap or repeat.
 */
module EventStream {
  import opened Basics
  import Decimal

  datatype Event = Event(id: int, eventType: string, source: string, payload: string)

  datatype Frame = EventFrame(event: Event) | Heartbeat

  /** What a client asked for: a type and a source, each optional. */
  datatype Filter = Filter(eventType: Option<string>, agent: Option<string>)

  datatype Config = Config(heartbeatInterval: real, maxConnection: real)

  /** One turn of the loop: the clock, the connection, and the log at the poll. */
  datatype Tick = Tick(elapsed: real, disconnected: bool, log: seq<Event>, now: real)

  const LIMIT: nat := 100

  predicate Increasing(log: seq<Event>) {
    forall i, j :: 0 <= i < j < |log| ==> log[i].id < log[j].id
  }

  predicate TypeOk(e: Event, filter: Filter) {
    filter.eventType.None? || e.eventType == filter.eventType.value
  }

  predicate SourceOk(e: Event, filter: Filter) {
    filter.agent.None? || e.source == filter.agent.value
  }

  // ---------- The poll ----------

  /** `get_events` on the log from position `k` on. */
  function GetEvents(log: seq<Event>, k: nat, filter: Filter, since: int, limit: nat): seq<Event>
    requires k <= |log|
    decreases |log| - k
  {
    if k == |log| || limit == 0 then []
    else if log[k].id > since && TypeOk(log[k], filter) then
      [log[k]] + GetEvents(log, k + 1, filter, since, limit - 1)
    else GetEvents(log, k + 1, filter, since, limit)
  }

  function Shown(batch: seq<Event>, filter: Filter): seq<Event> {
    if batch == [] then []
    else if SourceOk(batch[0], filter) then [batch[0]] + Shown(batch[1..], filter)
    else Shown(batch[1..], filter)
  }

  /** Every event of the batch moves the cursor, shown or not. */
  function CursorAfter(batch: seq<Event>, cursor: int): int {
    if batch == [] then cursor else CursorAfter(batch[1..], Max(cursor, batch[0].id))
  }

  /** The events of the log that the client wants, with an id in `(lo, hi]`. */
  function Wanted(log: seq<Event>, k: nat, filter: Filter, lo: int, hi: int): seq<Event>
    requires k <= |log|
    decreases |log| - k
  {
    if k == |log| then []
    else if lo < log[k].id <= hi && TypeOk(log[k], filter) && SourceOk(log[k], filter) then
      [log[k]] + Wanted(log, k + 1, filter, lo, hi)
    else Wanted(log, k + 1, filter, lo, hi)
  }

  lemma {:induction false} WantedNone(log: seq<Event>, k: nat, filter: Filter, lo: int, hi: int)
    requires k <= |log| && forall i :: k <= i < |log| ==> hi < log[i].id || hi <= lo
    ensures Wanted(log, k, filter, lo, hi) == []
    decreases |log| - k
  {
    if k < |log| {
      WantedNone(log, k + 1, filter, lo, hi);
    }
  }

  /** The batch is increasing and beyond `since`: the cursor ends on its last event. */
  lemma {:induction false} CursorOnBatch(log: seq<Event>, k: nat, filter: Filter, since: int, limit: nat, cursor: int)
    requires k <= |log| && Increasing(log) && since <= cursor
    requires k < |log| ==> cursor < log[k].id || cursor == since
    ensures var batch := GetEvents(log, k, filter, since, limit);
            var after := CursorAfter(batch, cursor);
            && (batch == [] ==> after == cursor)
            && (batch != [] ==> k < |log| && log[k].id <= after <= log[|log| - 1].id && since < after
                                && after == CursorAfter(batch, since))
    decreases |log| - k
  {
    if k < |log| && limit > 0 {
      var e := log[k];
      assert k + 1 < |log| ==> e.id < log[k + 1].id;
      if e.id > since && TypeOk(e, filter) {
        var rest := GetEvents(log, k + 1, filter, since, limit - 1);
        assert ([e] + rest)[1..] == rest;
        CursorOnBatch(log, k + 1, filter, since, limit - 1, Max(cursor, e.id));
        CursorOnBatch(log, k + 1, filter, since, limit - 1, Max(since, e.id));
      } else {
        CursorOnBatch(log, k + 1, filter, since, limit, cursor);
      }
    }
  }

  /** One poll shows exactly the wanted events up to where it leaves the cursor. */
  lemma {:induction false} PollShowsWanted(log: seq<Event>, k: nat, filter: Filter, since: int, limit: nat)
    requires k <= |log| && Increasing(log)
    ensures var batch := GetEvents(log, k, filter, since, limit);
            Shown(batch, filter) == Wanted(log, k, filter, since, CursorAfter(batch, since))
    decreases |log| - k
  {
    var batch := GetEvents(log, k, filter, since, limit);
    if batch == [] {
      WantedNone(log, k, filter, since, since);
    } else {
      var e := log[k];
      CursorOnBatch(log, k, filter, since, limit, since);
      if e.id > since && TypeOk(e, filter) {
        var rest := GetEvents(log, k + 1, filter, since, limit - 1);
        assert batch[1..] == rest;
        if rest == [] {
          WantedNone(log, k + 1, filter, since, e.id);
        } else {
          CursorOnBatch(log, k + 1, filter, since, limit - 1, e.id);
          PollShowsWanted(log, k + 1, filter, since, limit - 1);
        }
      } else {
        PollShowsWanted(log, k + 1, filter, since, limit);
      }
    }
  }

  /** A poll that returns fewer events than the limit has seen everything wanted there is. */
  lemma {:induction false} ShortPollCatchesUp(log: seq<Event>, k: nat, filter: Filter, since: int, limit: nat, hi: int)
    requires k <= |log| && Increasing(log)
    requires |GetEvents(log, k, filter, since, limit)| < limit
    ensures Wanted(log, k, filter, CursorAfter(GetEvents(log, k, filter, since, limit), since), hi) == []
    decreases |log| - k
  {
    if k < |log| {
      var batch := GetEvents(log, k, filter, since, limit);
      CursorOnBatch(log, k, filter, since, limit, since);
      if log[k].id > since && TypeOk(log[k], filter) {
        var rest := GetEvents(log, k + 1, filter, since, limit - 1);
        assert batch[1..] == rest;
        ShortPollCatchesUp(log, k + 1, filter, since, limit - 1, hi);
        if rest == [] {
          WantedHigher(log, k + 1, filter, since, log[k].id, hi);
        } else {
          CursorOnBatch(log, k + 1, filter, since, limit - 1, log[k].id);
        }
      } else {
        ShortPollCatchesUp(log, k + 1, filter, since, limit, hi);
      }
    }
  }

  /** Raising the lower end of the ids removes events, so nothing stays nothing. */
  lemma {:induction false} WantedHigher(log: seq<Event>, k: nat, filter: Filter, lo: int, mid: int, hi: int)
    requires k <= |log| && lo <= mid && Wanted(log, k, filter, lo, hi) == []
    ensures Wanted(log, k, filter, mid, hi) == []
    decreases |log| - k
  {
    if k < |log| {
      WantedHigher(log, k + 1, filter, lo, mid, hi);
    }
  }

  // ---------- Stretches of ids ----------

  lemma {:induction false} WantedSplit(log: seq<Event>, k: nat, filter: Filter, lo: int, mid: int, hi: int)
    requires k <= |log| && Increasing(log) && lo <= mid <= hi
    ensures Wanted(log, k, filter, lo, hi) == Wanted(log, k, filter, lo, mid) + Wanted(log, k, filter, mid, hi)
    decreases |log| - k
  {
    if k < |log| {
      WantedSplit(log, k + 1, filter, lo, mid, hi);
      if mid < log[k].id {
        WantedNone(log, k + 1, filter, lo, mid);
      }
    }
  }

  /** What was wanted up to `hi` does not change when the log grows beyond `hi`. */
  lemma {:induction false} WantedExtends(log: seq<Event>, longer: seq<Event>, k: nat, filter: Filter, lo: int, hi: int)
    requires k <= |log| && log <= longer && Increasing(longer)
    requires hi <= lo || (log != [] && hi <= log[|log| - 1].id)
    ensures Wanted(longer, k, filter, lo, hi) == Wanted(log, k, filter, lo, hi)
    decreases |log| - k
  {
    if k == |log| {
      WantedNone(longer, k, filter, lo, hi);
    } else {
      assert longer[k] == log[k];
      WantedExtends(log, longer, k + 1, filter, lo, hi);
    }
  }

  /** A cut through the wanted events is again a stretch: up to the last id seen. */
  lemma {:induction false} CutIsStretch(log: seq<Event>, k: nat, filter: Filter, lo: int, hi: int, j: nat)
    requires k <= |log| && Increasing(log) && 0 < j <= |Wanted(log, k, filter, lo, hi)|
    ensures var w := Wanted(log, k, filter, lo, hi);
            var last := w[j - 1].id;
            lo < last <= hi && (k < |log| && log[k].id <= last <= log[|log| - 1].id)
            && Wanted(log, k, filter, lo, last) == w[..j]
    decreases |log| - k
  {
    var w := Wanted(log, k, filter, lo, hi);
    var rest := Wanted(log, k + 1, filter, lo, hi);
    if w == rest {
      CutIsStretch(log, k + 1, filter, lo, hi, j);
    } else if j == 1 {
      WantedNone(log, k + 1, filter, lo, log[k].id);
    } else {
      CutIsStretch(log, k + 1, filter, lo, hi, j - 1);
      assert w[..j] == [log[k]] + rest[..j - 1];
    }
  }

  // ---------- The loop ----------

  datatype State = State(cursor: int, lastHeartbeat: real, frames: seq<Frame>)

  function EventFrames(events: seq<Event>): (frames: seq<Frame>)
    ensures |frames| == |events|
  {
    if events == [] then [] else EventFrames(events[..|events| - 1]) + [EventFrame(events[|events| - 1])]
  }

  /** The events among the first `n` frames, without the heartbeats. */
  function EventsOf(frames: seq<Frame>, n: nat): seq<Event>
    requires n <= |frames|
  {
    if n == 0 then []
    else if frames[n - 1].EventFrame? then EventsOf(frames, n - 1) + [frames[n - 1].event]
    else EventsOf(frames, n - 1)
  }

  /** One turn of the loop that does not end it. */
  function Turn(s: State, tick: Tick, config: Config, filter: Filter): State {
    var batch := GetEvents(tick.log, 0, filter, s.cursor, LIMIT);
    var frames := s.frames + EventFrames(Shown(batch, filter));
    var cursor := CursorAfter(batch, s.cursor);
    if tick.now - s.lastHeartbeat >= config.heartbeatInterval then State(cursor, tick.now, frames + [Heartbeat])
    else State(cursor, s.lastHeartbeat, frames)
  }

  predicate Ends(tick: Tick, config: Config) {
    tick.elapsed >= config.maxConnection || tick.disconnected
  }

  function Stream(s: State, ticks: seq<Tick>, k: nat, config: Config, filter: Filter): State
    requires k <= |ticks|
    decreases |ticks| - k
  {
    if k == |ticks| || Ends(ticks[k], config) then s
    else Stream(Turn(s, ticks[k], config, filter), ticks, k + 1, config, filter)
  }

  lemma ShownStep(events: seq<Event>, j: nat, filter: Filter, shown: seq<Event>, cursor: int)
    requires j < |events|
    ensures CursorAfter(events[j..], cursor) == CursorAfter(events[j + 1..], Max(cursor, events[j].id))
    ensures shown + Shown(events[j..], filter)
            == (if SourceOk(events[j], filter) then shown + [events[j]] else shown) + Shown(events[j + 1..], filter)
  {
    assert events[j..][1..] == events[j + 1..];
  }

  lemma EventFramesSnoc(shown: seq<Event>, e: Event)
    ensures EventFrames(shown + [e]) == EventFrames(shown) + [EventFrame(e)]
  {
    assert (shown + [e])[..|shown|] == shown;
  }

  /** The inner loop: moves the cursor past every event and yields a frame for each one shown. */
  method EmitBatch(events: seq<Event>, filter: Filter, cursor: int) returns (frames: seq<Frame>, after: int)
    ensures after == CursorAfter(events, cursor)
    ensures frames == EventFrames(Shown(events, filter))
  {
    frames, after := [], cursor;
    ghost var shown := [];
    for j := 0 to |events|
      invariant CursorAfter(events[j..], after) == CursorAfter(events, cursor)
      invariant shown + Shown(events[j..], filter) == Shown(events, filter)
      invariant frames == EventFrames(shown)
    {
      ShownStep(events, j, filter, shown, after);
      if filter.agent.Some? && events[j].source != filter.agent.value {
        after := Max(after, events[j].id);
        continue;
      }
      after := Max(after, events[j].id);
      EventFramesSnoc(shown, events[j]);
      frames := frames + [EventFrame(events[j])];
      shown := shown + [events[j]];
    }
    assert shown + [] == shown;
  }

  method SseEvents(ticks: seq<Tick>, config: Config, filter: Filter, sinceId: int, start: real)
    returns (frames: seq<Frame>, cursor: int)
    ensures var end := Stream(State(sinceId, start, []), ticks, 0, config, filter);
            frames == end.frames && cursor == end.cursor
  {
    var lastHeartbeat := start;
    frames, cursor := [], sinceId;
    ghost var end := Stream(State(sinceId, start, []), ticks, 0, config, filter);
    var i := 0;
    while i < |ticks|
      invariant i <= |ticks|
      invariant Stream(State(cursor, lastHeartbeat, frames), ticks, i, config, filter) == end
    {
      if ticks[i].elapsed >= config.maxConnection {
        break;
      }
      if ticks[i].disconnected {
        break;
      }
      ghost var before := State(cursor, lastHeartbeat, frames);
      var events := GetEvents(ticks[i].log, 0, filter, cursor, LIMIT);
      var emitted;
      emitted, cursor := EmitBatch(events, filter, cursor);
      frames := frames + emitted;
      var now := ticks[i].now;
      if now - lastHeartbeat >= config.heartbeatInterval {
        frames := frames + [Heartbeat];
        lastHeartbeat := now;
      }
      assert State(cursor, lastHeartbeat, frames) == Turn(before, ticks[i], config, filter);
      i := i + 1;
    }
  }

  // ---------- The stream shows what was wanted ----------

  /** Every poll sees the log grown from the one before. */
  predicate Growing(ticks: seq<Tick>) {
    && (forall k :: 0 <= k < |ticks| ==> Increasing(ticks[k].log))
    && (forall i, k :: 0 <= i < k < |ticks| ==> ticks[i].log <= ticks[k].log)
  }

  /** The frames so far are the wanted events of `log` from `since` up to the cursor. */
  ghost predicate Faithful(s: State, log: seq<Event>, filter: Filter, since: int) {
    && since <= s.cursor
    && (s.cursor == since || (log != [] && s.cursor <= log[|log| - 1].id))
    && EventsOf(s.frames, |s.frames|) == Wanted(log, 0, filter, since, s.cursor)
  }

  lemma {:induction false} EventsOfAppend(frames: seq<Frame>, more: seq<Frame>, n: nat)
    requires n <= |more|
    ensures EventsOf(frames + more, |frames| + n) == EventsOf(frames, |frames|) + EventsOf(more, n)
  {
    if n == 0 {
      EventsOfFrame(frames + more, frames, |frames|);
    } else {
      EventsOfAppend(frames, more, n - 1);
    }
  }

  lemma {:induction false} EventsOfFrame(frames: seq<Frame>, other: seq<Frame>, n: nat)
    requires n <= |frames| && n <= |other| && forall i :: 0 <= i < n ==> frames[i] == other[i]
    ensures EventsOf(frames, n) == EventsOf(other, n)
  {
    if n > 0 {
      EventsOfFrame(frames, other, n - 1);
    }
  }

  lemma {:induction false} EventsOfEventFrames(events: seq<Event>)
    ensures EventsOf(EventFrames(events), |events|) == events
  {
    if events != [] {
      var front := events[..|events| - 1];
      EventsOfEventFrames(front);
      EventsOfFrame(EventFrames(events), EventFrames(front), |front|);
    }
  }

  /** What a turn adds to the events shown. */
  lemma TurnEvents(s: State, tick: Tick, config: Config, filter: Filter)
    ensures var t := Turn(s, tick, config, filter);
            EventsOf(t.frames, |t.frames|)
            == EventsOf(s.frames, |s.frames|) + Shown(GetEvents(tick.log, 0, filter, s.cursor, LIMIT), filter)
  {
    var shown := Shown(GetEvents(tick.log, 0, filter, s.cursor, LIMIT), filter);
    EventsOfEventFrames(shown);
    EventsOfAppend(s.frames, EventFrames(shown), |shown|);
    var frames := s.frames + EventFrames(shown);
    EventsOfFrame(frames + [Heartbeat], frames, |frames|);
  }

  lemma TurnFaithful(s: State, before: seq<Event>, tick: Tick, config: Config, filter: Filter, since: int)
    requires Faithful(s, before, filter, since) && before <= tick.log && Increasing(tick.log)
    ensures Faithful(Turn(s, tick, config, filter), tick.log, filter, since)
  {
    var log := tick.log;
    var cursor := CursorAfter(GetEvents(log, 0, filter, s.cursor, LIMIT), s.cursor);
    WantedExtends(before, log, 0, filter, since, s.cursor);
    PollShowsWanted(log, 0, filter, s.cursor, LIMIT);
    CursorOnBatch(log, 0, filter, s.cursor, LIMIT, s.cursor);
    WantedSplit(log, 0, filter, since, s.cursor, cursor);
    TurnEvents(s, tick, config, filter);
  }

  /** The log as the stream last saw it. */
  function LastLog(ticks: seq<Tick>, k: nat, config: Config, seen: seq<Event>): seq<Event>
    requires k <= |ticks|
    decreases |ticks| - k
  {
    if k == |ticks| || Ends(ticks[k], config) then seen else LastLog(ticks, k + 1, config, ticks[k].log)
  }

  lemma {:induction false} StreamFaithful(
      s: State, seen: seq<Event>, ticks: seq<Tick>, k: nat, config: Config, filter: Filter, since: int)
    requires k <= |ticks| && Growing(ticks) && Faithful(s, seen, filter, since)
    requires k < |ticks| ==> seen <= ticks[k].log
    ensures Faithful(Stream(s, ticks, k, config, filter), LastLog(ticks, k, config, seen), filter, since)
    decreases |ticks| - k
  {
    if k < |ticks| && !Ends(ticks[k], config) {
      TurnFaithful(s, seen, ticks[k], config, filter, since);
      StreamFaithful(Turn(s, ticks[k], config, filter), ticks[k].log, ticks, k + 1, config, filter, since);
    }
  }

  /**
   For every growing log and every schedule of polls, the events shown are exactly the wanted ones
   from `since` up to the final cursor, in order, each once.
   */
  lemma StreamShowsWanted(ticks: seq<Tick>, config: Config, filter: Filter, since: int, start: real)
    requires Growing(ticks)
    ensures var end := Stream(State(since, start, []), ticks, 0, config, filter);
            && since <= end.cursor
            && EventsOf(end.frames, |end.frames|)
               == Wanted(LastLog(ticks, 0, config, []), 0, filter, since, end.cursor)
  {
    StreamFaithful(State(since, start, []), [], ticks, 0, config, filter, since);
  }

  // ---------- What one turn does ----------

  /** An event is wanted exactly when it is in the log, in the range of ids, and of the type and source asked for. */
  lemma {:induction false} WantedIs(log: seq<Event>, k: nat, filter: Filter, lo: int, hi: int, e: Event)
    requires k <= |log|
    ensures e in Wanted(log, k, filter, lo, hi) <==>
              && e in log[k..] && lo < e.id <= hi
              && (filter.eventType == None || filter.eventType == Some(e.eventType))
              && (filter.agent == None || filter.agent == Some(e.source))
    decreases |log| - k
  {
    if k < |log| {
      WantedIs(log, k + 1, filter, lo, hi, e);
      assert log[k..] == [log[k]] + log[k + 1..];
    }
  }

  /** The events that count toward the limit of a poll: of the type asked for, whatever their source. */
  function AnySource(filter: Filter): Filter {
    filter.(agent := None)
  }

  lemma {:induction false} PolledIs(log: seq<Event>, k: nat, filter: Filter, since: int, limit: nat)
    requires k <= |log|
    ensures |GetEvents(log, k, filter, since, limit)| <= limit
    ensures GetEvents(log, k, AnySource(filter), since, limit) == GetEvents(log, k, filter, since, limit)
    decreases |log| - k
  {
    if k < |log| && limit > 0 {
      PolledIs(log, k + 1, filter, since, if log[k].id > since && TypeOk(log[k], filter) then limit - 1 else limit);
    }
  }

  lemma {:induction false} AllShown(batch: seq<Event>, filter: Filter)
    requires filter.agent.None?
    ensures Shown(batch, filter) == batch
  {
    if batch != [] {
      AllShown(batch[1..], filter);
    }
  }

  /** A poll takes the events of the type beyond the cursor up to where it leaves the cursor, and at most `limit`. */
  lemma PollTakes(log: seq<Event>, filter: Filter, since: int, limit: nat)
    requires Increasing(log)
    ensures var batch := GetEvents(log, 0, filter, since, limit);
            && |batch| <= limit && batch == Wanted(log, 0, AnySource(filter), since, CursorAfter(batch, since))
  {
    PolledIs(log, 0, filter, since, limit);
    PollShowsWanted(log, 0, AnySource(filter), since, limit);
    AllShown(GetEvents(log, 0, filter, since, limit), AnySource(filter));
  }

  /** A poll that takes fewer than it may leaves none of the type beyond its cursor. */
  lemma PollLeavesNone(log: seq<Event>, filter: Filter, since: int, limit: nat, e: Event)
    requires Increasing(log) && |GetEvents(log, 0, filter, since, limit)| < limit
    requires e in log && (filter.eventType == None || filter.eventType == Some(e.eventType))
    ensures e.id <= CursorAfter(GetEvents(log, 0, filter, since, limit), since)
  {
    var cursor := CursorAfter(GetEvents(log, 0, filter, since, limit), since);
    PolledIs(log, 0, filter, since, limit);
    ShortPollCatchesUp(log, 0, AnySource(filter), since, limit, e.id);
    WantedIs(log, 0, AnySource(filter), cursor, e.id, e);
    assert log[0..] == log;
  }

  lemma {:induction false} CursorIsLast(batch: seq<Event>, cursor: int)
    requires forall i, j :: 0 <= i < j < |batch| ==> batch[i].id < batch[j].id
    requires forall i :: 0 <= i < |batch| ==> cursor < batch[i].id
    ensures CursorAfter(batch, cursor) == if batch == [] then cursor else batch[|batch| - 1].id
  {
    if batch != [] {
      CursorIsLast(batch[1..], batch[0].id);
    }
  }

  predicate Ascends(events: seq<Event>, lo: int, hi: int) {
    && (forall i :: 0 <= i < |events| ==> lo < events[i].id <= hi)
    && (forall i, j :: 0 <= i < j < |events| ==> events[i].id < events[j].id)
  }

  lemma AscendsCons(e: Event, rest: seq<Event>, lo: int, hi: int)
    requires lo < e.id <= hi && Ascends(rest, e.id, hi)
    ensures Ascends([e] + rest, lo, hi)
  {
  }

  /** The wanted events of an increasing log are increasing and in their range. */
  lemma {:induction false} WantedInOrder(log: seq<Event>, k: nat, filter: Filter, lo: int, hi: int, floor: int)
    requires k <= |log| && Increasing(log) && lo <= floor
    requires forall x :: k <= x < |log| ==> lo < log[x].id ==> floor < log[x].id
    ensures Ascends(Wanted(log, k, filter, lo, hi), floor, hi)
    decreases |log| - k
  {
    if k < |log| {
      if lo < log[k].id <= hi {
        WantedInOrder(log, k + 1, filter, lo, hi, log[k].id);
        AscendsCons(log[k], Wanted(log, k + 1, filter, lo, hi), floor, hi);
      }
      WantedInOrder(log, k + 1, filter, lo, hi, floor);
    }
  }

  /** One turn of the loop yields the wanted events up to the new cursor, and a heartbeat exactly when one is due. */
  lemma TurnYields(s: State, tick: Tick, config: Config, filter: Filter)
    requires Increasing(tick.log)
    ensures var t := Turn(s, tick, config, filter);
            var shown := s.frames + EventFrames(Wanted(tick.log, 0, filter, s.cursor, t.cursor));
            if tick.now - s.lastHeartbeat >= config.heartbeatInterval
            then t.frames == shown + [Heartbeat] && t.lastHeartbeat == tick.now
            else t.frames == shown && t.lastHeartbeat == s.lastHeartbeat
  {
    PollShowsWanted(tick.log, 0, filter, s.cursor, LIMIT);
  }

  /** A cursor after taking the next `limit` events of the type beyond `since`, or all there are. */
  ghost predicate MovedBy(log: seq<Event>, filter: Filter, since: int, cursor: int, limit: nat) {
    var taken := Wanted(log, 0, AnySource(filter), since, cursor);
    && |taken| <= limit
    && cursor == (if taken == [] then since else taken[|taken| - 1].id)
    && (|taken| < limit ==>
          forall e :: e in log && (filter.eventType == None || filter.eventType == Some(e.eventType)) ==>
            e.id <= cursor)
  }

  lemma CursorOnLast(log: seq<Event>, filter: Filter, since: int, cursor: int, batch: seq<Event>)
    requires Increasing(log) && cursor == CursorAfter(batch, since)
    requires batch == Wanted(log, 0, filter, since, cursor)
    ensures cursor == if batch == [] then since else batch[|batch| - 1].id
  {
    WantedInOrder(log, 0, filter, since, cursor, since);
    CursorIsLast(batch, since);
  }

  lemma PollMoves(log: seq<Event>, filter: Filter, since: int, limit: nat)
    requires Increasing(log)
    ensures MovedBy(log, filter, since, CursorAfter(GetEvents(log, 0, filter, since, limit), since), limit)
  {
    var batch := GetEvents(log, 0, filter, since, limit);
    var cursor := CursorAfter(batch, since);
    PollTakes(log, filter, since, limit);
    CursorOnLast(log, AnySource(filter), since, cursor, batch);
    if |batch| < limit {
      forall e | e in log && (filter.eventType == None || filter.eventType == Some(e.eventType))
        ensures e.id <= cursor
      {
        PollLeavesNone(log, filter, since, limit, e);
      }
    }
  }

  /** A turn takes the next hundred events of the type, or all there are, and leaves its cursor on the last of them. */
  lemma TurnMoves(s: State, tick: Tick, config: Config, filter: Filter)
    requires Increasing(tick.log)
    ensures MovedBy(tick.log, filter, s.cursor, Turn(s, tick, config, filter).cursor, 100)
  {
    PollMoves(tick.log, filter, s.cursor, LIMIT);
  }

  /** Turns for the ticks from `k` up to `n`. */
  function Turns(s: State, ticks: seq<Tick>, k: nat, n: nat, config: Config, filter: Filter): State
    requires k <= n <= |ticks|
    decreases n - k
  {
    if k == n then s else Turns(Turn(s, ticks[k], config, filter), ticks, k + 1, n, config, filter)
  }

  /** The stream takes a turn for each tick until the connection has lasted long enough or the client is gone. */
  lemma {:induction false} StreamEnds(s: State, ticks: seq<Tick>, k: nat, n: nat, config: Config, filter: Filter)
    requires k <= n <= |ticks|
    requires forall i :: k <= i < n ==> ticks[i].elapsed < config.maxConnection && !ticks[i].disconnected
    requires n < |ticks| ==> ticks[n].elapsed >= config.maxConnection || ticks[n].disconnected
    ensures Stream(s, ticks, k, config, filter) == Turns(s, ticks, k, n, config, filter)
    decreases n - k
  {
    if k < n {
      StreamEnds(Turn(s, ticks[k], config, filter), ticks, k + 1, n, config, filter);
    }
  }

  // ---------- Reconnecting ----------

  /** The last id among the first `n` frames; the starting point when there is none. */
  function LastId(frames: seq<Frame>, n: nat, since: int): int
    requires n <= |frames|
  {
    if n == 0 then since
    else if frames[n - 1].EventFrame? then frames[n - 1].event.id
    else LastId(frames, n - 1, since)
  }

  /** The `since_id` that a connection starts from: the header wins if it is a number. */
  function StartId(sinceId: int, lastEventId: Option<string>): int {
    if lastEventId.None? || Decimal.Parse(lastEventId.value).None? then sinceId
    else Decimal.Parse(lastEventId.value).value
  }

  lemma {:induction false} LastIdIsLast(frames: seq<Frame>, n: nat, since: int)
    requires n <= |frames|
    ensures var events := EventsOf(frames, n);
            LastId(frames, n, since) == if events == [] then since else events[|events| - 1].id
  {
    if n > 0 {
      LastIdIsLast(frames, n - 1, since);
    }
  }

  lemma {:induction false} EventsOfPrefix(frames: seq<Frame>, j: nat, n: nat)
    requires j <= n <= |frames|
    ensures EventsOf(frames, j) <= EventsOf(frames, n)
  {
    if j < n {
      EventsOfPrefix(frames, j, n - 1);
    }
  }

  /** What a client has seen after `j` frames is the stretch up to the last id it saw. */
  lemma CutFaithful(end: State, log: seq<Event>, filter: Filter, since: int, j: nat)
    requires Faithful(end, log, filter, since) && Increasing(log) && j <= |end.frames|
    ensures var last := LastId(end.frames, j, since);
            && since <= last && (last == since || (log != [] && last <= log[|log| - 1].id))
            && EventsOf(end.frames, j) == Wanted(log, 0, filter, since, last)
  {
    var events := EventsOf(end.frames, j);
    EventsOfPrefix(end.frames, j, |end.frames|);
    LastIdIsLast(end.frames, j, since);
    if events == [] {
      WantedNone(log, 0, filter, since, since);
    } else {
      CutIsStretch(log, 0, filter, since, end.cursor, |events|);
    }
  }

  lemma StartsAtLastId(sinceId: int, last: int)
    ensures StartId(sinceId, Some(Decimal.Print(last))) == last
  {
    Decimal.ParsePrint(last);
  }

  /** Two stretches that meet make one. */
  lemma Joined(seen: seq<Event>, log: seq<Event>, filter: Filter, since: int, last: int, end: State)
    requires Increasing(log) && seen <= log && Faithful(end, log, filter, last)
    requires since <= last && (last == since || (seen != [] && last <= seen[|seen| - 1].id))
    ensures Wanted(seen, 0, filter, since, last) + EventsOf(end.frames, |end.frames|)
            == Wanted(log, 0, filter, since, end.cursor)
  {
    WantedExtends(seen, log, 0, filter, since, last);
    WantedSplit(log, 0, filter, since, last, end.cursor);
  }

  /**
   A client that is cut off after any number of frames and reconnects with the last id it saw, on a
   log that has grown meanwhile, has in the end seen what one uninterrupted stream up to the same
   cursor shows: no gap and no repeat.
   */
  lemma ResumeIsSeamless(ticks: seq<Tick>, later: seq<Tick>, config: Config, filter: Filter,
      since: int, start: real, restart: real, j: nat)
    requires Growing(ticks) && Growing(later)
    requires forall k :: 0 <= k < |later| ==> LastLog(ticks, 0, config, []) <= later[k].log
    requires j <= |Stream(State(since, start, []), ticks, 0, config, filter).frames|
    ensures var first := Stream(State(since, start, []), ticks, 0, config, filter);
            var header := Decimal.Print(LastId(first.frames, j, since));
            var second := Stream(State(StartId(since, Some(header)), restart, []), later, 0, config, filter);
            var log := LastLog(later, 0, config, LastLog(ticks, 0, config, []));
            EventsOf(first.frames, j) + EventsOf(second.frames, |second.frames|)
            == Wanted(log, 0, filter, since, second.cursor)
  {
    var seen := LastLog(ticks, 0, config, []);
    var first := Stream(State(since, start, []), ticks, 0, config, filter);
    StreamFaithful(State(since, start, []), [], ticks, 0, config, filter, since);
    LastLogIncreasing(ticks, 0, config, []);
    CutFaithful(first, seen, filter, since, j);
    var last := LastId(first.frames, j, since);
    StartsAtLastId(since, last);
    WantedNone(seen, 0, filter, last, last);
    StreamFaithful(State(last, restart, []), seen, later, 0, config, filter, last);
    LastLogIncreasing(later, 0, config, seen);
    var second := Stream(State(last, restart, []), later, 0, config, filter);
    Joined(seen, LastLog(later, 0, config, seen), filter, since, last, second);
  }

  lemma {:induction false} LastLogIncreasing(ticks: seq<Tick>, k: nat, config: Config, seen: seq<Event>)
    requires k <= |ticks| && Growing(ticks) && Increasing(seen)
    requires forall i :: k <= i < |ticks| ==> seen <= ticks[i].log
    ensures Increasing(LastLog(ticks, k, config, seen)) && seen <= LastLog(ticks, k, config, seen)
    decreases |ticks| - k
  {
    if k < |ticks| && !Ends(ticks[k], config) {
      LastLogIncreasing(ticks, k + 1, config, ticks[k].log);
    }
  }
}
