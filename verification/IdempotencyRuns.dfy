/**
 The idempotency gate with requests that overlap: each storage call is a step of its own, and any
 steps of other requests run in between.

 `slots` keeps every row ever inserted; `live` says which of them a slot holds now. A row that is
 replaced stays in `slots` with what it last held.
 */
module IdempotencyRuns {
  import opened Basics
  import opened Idempotency

  datatype Reserved = Reserved(slot: Slot, row: Row)

  datatype Phase =
    | Arrived
    | Inserted
    | SawExpired
    | Going(row: nat)
    | Recorded(row: nat)
    | Refused
    | Answered(row: nat, status: nat, response: string)

  datatype Request = Request(slot: Slot, hash: string, now: real, phase: Phase)

  datatype State = State(slots: seq<Reserved>, live: map<Slot, nat>, requests: seq<Request>)

  datatype Step =
    | Arrive(slot: Slot, hash: string, now: real)
    | Insert(i: nat)
    | Lookup(i: nat)
    | Replace(i: nat)
    | RecordStep(i: nat, status: HttpStatus, response: string)

  const Start := State([], map[], [])

  function SetPhase(s: State, i: nat, phase: Phase): State
    requires i < |s.requests|
  {
    s.(requests := s.requests[i := s.requests[i].(phase := phase)])
  }

  /** A new placeholder row for the slot of request `i`. */
  function NewRow(s: State, i: nat): State
    requires i < |s.requests|
  {
    var r := s.requests[i];
    s.(slots := s.slots + [Reserved(r.slot, Row(r.hash, 0, "", r.now))], live := s.live[r.slot := |s.slots|])
  }

  predicate Holds(s: State, slot: Slot) {
    slot in s.live && s.live[slot] < |s.slots|
  }

  /** The outcome of the lookup; a reserved slot always holds a row, see `Inv`. */
  function LookupPhase(s: State, r: Request): Phase {
    if !Holds(s, r.slot) then r.phase else
      var g := s.live[r.slot];
      var row := s.slots[g].row;
      if IsExpired(row, r.now) then SawExpired
      else
        match Answer(row, r.hash)
        case Proceed => Going(g)
        case KeyReused => Refused
        case Replay(status, response) => Answered(g, status, response)
  }

  /** A step that does not fit the phase of its request changes nothing. */
  function Next(s: State, step: Step): State {
    if step.Arrive? then s.(requests := s.requests + [Request(step.slot, step.hash, step.now, Arrived)])
    else if step.i >= |s.requests| then s
    else
      var r := s.requests[step.i];
      match step
      case Insert(i) =>
        if !r.phase.Arrived? then s
        else SetPhase(if Holds(s, r.slot) then s else NewRow(s, i), i, Inserted)
      case Lookup(i) => if !r.phase.Inserted? then s else SetPhase(s, i, LookupPhase(s, r))
      case Replace(i) => if !r.phase.SawExpired? then s else SetPhase(NewRow(s, i), i, Going(|s.slots|))
      case RecordStep(i, status, response) =>
        if !r.phase.Going? then s else
          var t := SetPhase(s, i, Recorded(r.phase.row));
          if !Holds(s, r.slot) then t else
            var g := s.live[r.slot];
            t.(slots := s.slots[g := s.slots[g].(row := s.slots[g].row.(status := status, response := response))])
      case Arrive(_, _, _) => s
  }

  function Run(s: State, steps: seq<Step>, k: nat): State
    requires k <= |steps|
    decreases |steps| - k
  {
    if k == |steps| then s else Run(Next(s, steps[k]), steps, k + 1)
  }

  /** Request `r` went ahead on row `g`. */
  predicate WentAhead(r: Request, g: nat) {
    (r.phase.Going? || r.phase.Recorded?) && r.phase.row == g
  }

  // ---------- Everyone who goes ahead sent the same body ----------

  predicate RequestOk(s: State, r: Request) {
    && (r.phase.Inserted? ==> Holds(s, r.slot))
    && (r.phase.Going? || r.phase.Recorded? ==>
          r.phase.row < |s.slots| && s.slots[r.phase.row].slot == r.slot && s.slots[r.phase.row].row.hash == r.hash)
  }

  predicate LiveOk(s: State) {
    forall slot :: slot in s.live ==> s.live[slot] < |s.slots| && s.slots[s.live[slot]].slot == slot
  }

  predicate Inv(s: State) {
    LiveOk(s) && forall i :: 0 <= i < |s.requests| ==> RequestOk(s, s.requests[i])
  }

  /** What of a row never changes: its slot, its body, its age, and that it has a response. */
  predicate SameRow(before: Reserved, after: Reserved) {
    && after.slot == before.slot && after.row.hash == before.row.hash && after.row.created == before.row.created
    && (before.row.status != 0 ==> after.row.status != 0)
  }

  predicate RowsKept(s: State, s': State) {
    && |s.slots| <= |s'.slots|
    && (forall g :: 0 <= g < |s.slots| ==> SameRow(s.slots[g], s'.slots[g]))
    && (forall slot :: slot in s.live ==> slot in s'.live)
  }

  lemma NextRows(s: State, step: Step)
    requires Inv(s)
    ensures RowsKept(s, Next(s, step))
  {
  }

  lemma NextLive(s: State, step: Step)
    requires Inv(s)
    ensures LiveOk(Next(s, step))
  {
  }

  lemma NextKeeps(s: State, step: Step)
    requires Inv(s)
    ensures RowsKept(s, Next(s, step)) && LiveOk(Next(s, step))
  {
    NextRows(s, step);
    NextLive(s, step);
  }

  lemma KeptRequest(s: State, s': State, r: Request)
    requires RequestOk(s, r) && RowsKept(s, s') && LiveOk(s')
    ensures RequestOk(s', r)
  {
    if r.phase.Going? || r.phase.Recorded? {
      assert SameRow(s.slots[r.phase.row], s'.slots[r.phase.row]);
    }
  }

  /** The request that takes the step. */
  lemma SteppedRequest(s: State, step: Step)
    requires Inv(s) && !step.Arrive? && step.i < |s.requests|
    ensures RequestOk(Next(s, step), Next(s, step).requests[step.i])
  {
    var r := s.requests[step.i];
    assert RequestOk(s, r);
    NextKeeps(s, step);
    if Next(s, step).requests[step.i] == r {
      KeptRequest(s, Next(s, step), r);
    }
  }

  lemma NextRequest(s: State, step: Step, i: nat)
    requires Inv(s) && i < |Next(s, step).requests|
    ensures RequestOk(Next(s, step), Next(s, step).requests[i])
  {
    if !step.Arrive? && step.i == i && i < |s.requests| {
      SteppedRequest(s, step);
    } else if i < |s.requests| {
      NextKeeps(s, step);
      assert Next(s, step).requests[i] == s.requests[i];
      KeptRequest(s, Next(s, step), s.requests[i]);
    }
  }

  lemma NextInv(s: State, step: Step)
    requires Inv(s)
    ensures Inv(Next(s, step))
  {
    NextKeeps(s, step);
    var s' := Next(s, step);
    forall i | 0 <= i < |s'.requests| ensures RequestOk(s', s'.requests[i]) {
      NextRequest(s, step, i);
    }
  }

  lemma {:induction false} RunInv(s: State, steps: seq<Step>, k: nat)
    requires k <= |steps| && Inv(s)
    ensures Inv(Run(s, steps, k)) && RowsKept(s, Run(s, steps, k))
    decreases |steps| - k
  {
    if k < |steps| {
      NextKeeps(s, steps[k]);
      NextInv(s, steps[k]);
      RunInv(Next(s, steps[k]), steps, k + 1);
    }
  }

  /**
   In every interleaving, from the insertion of a row until it is replaced, all requests that go
   ahead on it are for its slot and carry its body hash: never two different bodies under one key.
   */
  lemma OneBodyPerRow(steps: seq<Step>, i: nat, j: nat, g: nat)
    requires var s := Run(Start, steps, 0);
             && i < |s.requests| && j < |s.requests|
             && WentAhead(s.requests[i], g) && WentAhead(s.requests[j], g)
    ensures var s := Run(Start, steps, 0);
            && g < |s.slots| && s.slots[g].slot == s.requests[i].slot && s.slots[g].row.hash == s.requests[i].hash
            && s.requests[i].slot == s.requests[j].slot && s.requests[i].hash == s.requests[j].hash
  {
    RunInv(Start, steps, 0);
    var s := Run(Start, steps, 0);
    assert RequestOk(s, s.requests[i]) && RequestOk(s, s.requests[j]);
  }

  // ---------- Nobody goes ahead after the response ----------

  /** Row `g` holds a response. */
  predicate HasResponse(s: State, g: nat) {
    g < |s.slots| && s.slots[g].row.status != 0
  }

  lemma NextNoNewcomer(s: State, step: Step, i: nat, g: nat)
    requires Inv(s) && HasResponse(s, g)
    requires i < |Next(s, step).requests| && WentAhead(Next(s, step).requests[i], g)
    ensures i < |s.requests| && WentAhead(s.requests[i], g)
  {
  }

  /**
   In every interleaving, once a row holds a response, no request whose lookup comes later goes
   ahead on it: whoever has gone ahead in the end had done so before the response was recorded.
   */
  lemma {:induction false} NoneAfterResponse(s: State, steps: seq<Step>, k: nat, i: nat, g: nat)
    requires k <= |steps| && Inv(s) && HasResponse(s, g)
    requires i < |Run(s, steps, k).requests| && WentAhead(Run(s, steps, k).requests[i], g)
    ensures i < |s.requests| && WentAhead(s.requests[i], g)
    decreases |steps| - k
  {
    if k < |steps| {
      NextKeeps(s, steps[k]);
      NextInv(s, steps[k]);
      NoneAfterResponse(Next(s, steps[k]), steps, k + 1, i, g);
      NextNoNewcomer(s, steps[k], i, g);
    }
  }

  /**
   The documented single-shot guarantee needs requests that do not overlap: here two requests with
   the same key and body both go ahead, because the second looks up before the first records.
   */
  lemma OverlapRunsTwice()
    ensures var slot := Slot("a", "k");
            var steps := [Arrive(slot, "h", 0.0), Arrive(slot, "h", 1.0), Insert(0), Insert(1), Lookup(0), Lookup(1)];
            var s := Run(Start, steps, 0);
            |s.requests| == 2 && WentAhead(s.requests[0], 0) && WentAhead(s.requests[1], 0)
  {
    var slot := Slot("a", "k");
    var steps := [Arrive(slot, "h", 0.0), Arrive(slot, "h", 1.0), Insert(0), Insert(1), Lookup(0), Lookup(1)];
    var a, b := Request(slot, "h", 0.0, Inserted), Request(slot, "h", 1.0, Inserted);
    var s2 := State([], map[], [a.(phase := Arrived), b.(phase := Arrived)]);
    assert Next(Next(Start, steps[0]), steps[1]) == s2;
    assert Run(Start, steps, 0) == Run(Next(Start, steps[0]), steps, 1) == Run(s2, steps, 2);
    var s4 := State([Reserved(slot, Row("h", 0, "", 0.0))], map[slot := 0], [a, b]);
    assert Next(Next(s2, steps[2]), steps[3]) == s4;
    assert Run(s2, steps, 2) == Run(Next(s2, steps[2]), steps, 3) == Run(s4, steps, 4);
    var s6 := s4.(requests := [a.(phase := Going(0)), b.(phase := Going(0))]);
    assert Next(Next(s4, steps[4]), steps[5]) == s6;
    assert Run(s4, steps, 4) == Run(Next(s4, steps[4]), steps, 5) == Run(s6, steps, 6);
  }
}
