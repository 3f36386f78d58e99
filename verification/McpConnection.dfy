/**
 The stdio connection to an MCP server (gateway/src/mcp_proxy.py): reassembling lines from chunks,
 and matching JSON-RPC responses to requests.

 JSON is a parameter: `parse` says what a stripped, non-empty line is to the reader.
 */
module McpConnection {
  import opened Basics

  newtype byte = b: int | 0 <= b < 256

  const NEWLINE: byte := 10

  /** What the caller of a request gets: a result, or the error member of the response. */
  datatype Reply = Success(payload: string) | Failure(error: string)

  /**
   A line may not be JSON, which is skipped; or be a message, with or without an id; or make the
   reader raise something it does not catch (undecodable bytes, JSON that is not an object, an id
   that cannot be a key).
   */
  datatype Parsed =
    | NotJson
    | Message(id: Option<int>, reply: Reply)
    | Unusable

  // ---------- Lines ----------

  /** The lines completed by the first `n` bytes, without their newlines. */
  function Lines(s: seq<byte>, n: nat): seq<seq<byte>>
    requires n <= |s|
  {
    if n == 0 then []
    else if s[n - 1] == NEWLINE then Lines(s, n - 1) + [Rest(s, n - 1)]
    else Lines(s, n - 1)
  }

  /** The bytes after the last newline among the first `n`. */
  function Rest(s: seq<byte>, n: nat): seq<byte>
    requires n <= |s|
  {
    if n == 0 || s[n - 1] == NEWLINE then [] else Rest(s, n - 1) + [s[n - 1]]
  }

  function AllLines(s: seq<byte>): seq<seq<byte>> {
    Lines(s, |s|)
  }

  function Remainder(s: seq<byte>): seq<byte> {
    Rest(s, |s|)
  }

  lemma {:induction false} LinesFrame(s: seq<byte>, t: seq<byte>, n: nat)
    requires n <= |s| && n <= |t| && forall i :: 0 <= i < n ==> s[i] == t[i]
    ensures Lines(s, n) == Lines(t, n) && Rest(s, n) == Rest(t, n)
  {
    if n > 0 {
      LinesFrame(s, t, n - 1);
    }
  }

  /** Reading `t` after `s` gives the lines of `s` and those of its unfinished line and `t`. */
  lemma AppendChunk(s: seq<byte>, t: seq<byte>)
    ensures AllLines(s + t) == AllLines(s) + AllLines(Remainder(s) + t)
    ensures Remainder(s + t) == Remainder(Remainder(s) + t)
  {
    LinesAppend(s, t, |t|);
  }

  /** Only the unfinished line of what was read before matters for what is read next. */
  lemma {:induction false} LinesAppend(s: seq<byte>, t: seq<byte>, n: nat)
    requires n <= |t|
    ensures var r := Remainder(s);
            && Lines(s + t, |s| + n) == AllLines(s) + Lines(r + t, |r| + n)
            && Rest(s + t, |s| + n) == Rest(r + t, |r| + n)
  {
    var r := Remainder(s);
    if n == 0 {
      LinesFrame(s + t, s, |s|);
      LinesFrame(r + t, r, |r|);
      NoNewlineInRest(s, |s|);
      Unbroken(r, |r|);
    } else {
      LinesAppend(s, t, n - 1);
    }
  }

  lemma {:induction false} NoNewlineInRest(s: seq<byte>, n: nat)
    requires n <= |s|
    ensures forall i :: 0 <= i < |Rest(s, n)| ==> Rest(s, n)[i] != NEWLINE
  {
    if n > 0 {
      NoNewlineInRest(s, n - 1);
    }
  }

  lemma {:induction false} Unbroken(r: seq<byte>, n: nat)
    requires n <= |r| && forall i :: 0 <= i < n ==> r[i] != NEWLINE
    ensures Lines(r, n) == [] && Rest(r, n) == r[..n]
  {
    if n > 0 {
      Unbroken(r, n - 1);
    }
  }

  lemma LineThenNewline(line: seq<byte>)
    requires forall i :: 0 <= i < |line| ==> line[i] != NEWLINE
    ensures AllLines(line + [NEWLINE]) == [line] && Remainder(line + [NEWLINE]) == []
  {
    Unbroken(line, |line|);
    LinesFrame(line + [NEWLINE], line, |line|);
    assert line[..|line|] == line;
  }

  lemma AppendToWhole(s: seq<byte>, t: seq<byte>)
    requires Remainder(s) == []
    ensures AllLines(s + t) == AllLines(s) + AllLines(t) && Remainder(s + t) == Remainder(t)
  {
    assert Remainder(s) + t == t;
    AppendChunk(s, t);
  }

  /** Splitting off the first line. */
  lemma SplitFirst(s: seq<byte>, line: seq<byte>, tail: seq<byte>)
    requires s == line + [NEWLINE] + tail
    requires forall i :: 0 <= i < |line| ==> line[i] != NEWLINE
    ensures AllLines(s) == [line] + AllLines(tail) && Remainder(s) == Remainder(tail)
  {
    LineThenNewline(line);
    AppendToWhole(line + [NEWLINE], tail);
  }

  predicate IsSpace(b: byte) {
    b == 32 || 9 <= b <= 13
  }

  function StripLeft(line: seq<byte>): seq<byte> {
    if line != [] && IsSpace(line[0]) then StripLeft(line[1..]) else line
  }

  function StripRight(line: seq<byte>): seq<byte> {
    if line != [] && IsSpace(line[|line| - 1]) then StripRight(line[..|line| - 1]) else line
  }

  /** The line is nothing but white space. */
  predicate IsBlank(line: seq<byte>) {
    forall k :: 0 <= k < |line| ==> IsSpace(line[k])
  }

  /** Positions `i` and `j` are those of the first and of the last byte of the line that is not white space. */
  predicate IsBody(line: seq<byte>, i: nat, j: nat) {
    && i <= j < |line| && !IsSpace(line[i]) && !IsSpace(line[j])
    && (forall k :: 0 <= k < i ==> IsSpace(line[k]))
    && (forall k :: j < k < |line| ==> IsSpace(line[k]))
  }

  lemma {:induction false} StripLeftIs(line: seq<byte>, i: nat)
    requires i <= |line| && (forall k :: 0 <= k < i ==> IsSpace(line[k])) && (i < |line| ==> !IsSpace(line[i]))
    ensures StripLeft(line) == line[i..]
  {
    if i > 0 {
      StripLeftIs(line[1..], i - 1);
    }
  }

  lemma {:induction false} StripRightIs(line: seq<byte>, j: nat)
    requires j <= |line| && (forall k :: j <= k < |line| ==> IsSpace(line[k])) && (j > 0 ==> !IsSpace(line[j - 1]))
    ensures StripRight(line) == line[..j]
  {
    if j < |line| {
      StripRightIs(line[..|line| - 1], j);
    }
  }

  lemma StripIsBody(line: seq<byte>, i: nat, j: nat)
    requires IsBody(line, i, j)
    ensures StripRight(StripLeft(line)) == line[i..j + 1]
  {
    StripLeftIs(line, i);
    StripRightIs(line[i..], j + 1 - i);
  }

  lemma StripBlank(line: seq<byte>)
    ensures StripRight(StripLeft(line)) == [] <==> IsBlank(line)
  {
    if IsBlank(line) {
      StripLeftIs(line, |line|);
    } else {
      var i := FirstByte(line, 0);
      var j := LastByte(line, |line|);
      StripIsBody(line, i, j);
    }
  }

  lemma FirstByte(line: seq<byte>, from: nat) returns (i: nat)
    requires from <= |line| && !IsBlank(line) && forall k :: 0 <= k < from ==> IsSpace(line[k])
    ensures i < |line| && !IsSpace(line[i]) && forall k :: 0 <= k < i ==> IsSpace(line[k])
    decreases |line| - from
  {
    if from < |line| && !IsSpace(line[from]) {
      i := from;
    } else {
      i := FirstByte(line, from + 1);
    }
  }

  lemma LastByte(line: seq<byte>, to: nat) returns (j: nat)
    requires to <= |line| && !IsBlank(line) && forall k :: to <= k < |line| ==> IsSpace(line[k])
    ensures j < |line| && !IsSpace(line[j]) && forall k :: j < k < |line| ==> IsSpace(line[k])
  {
    if to > 0 && !IsSpace(line[to - 1]) {
      j := to - 1;
    } else {
      j := LastByte(line, to - 1);
    }
  }

  // ---------- Requests and responses ----------

  datatype Completion = Completion(id: int, reply: Reply)

  /** `completed` is the history of futures resolved; a reader that has crashed handles no more lines. */
  datatype Conn = Conn(idCounter: nat, pending: set<int>, completed: seq<Completion>, crashed: bool)

  function Send(c: Conn): Conn {
    c.(idCounter := c.idCounter + 1, pending := c.pending + {c.idCounter + 1})
  }

  function TimeOut(c: Conn, id: int): Conn {
    c.(pending := c.pending - {id})
  }

  function Receive(c: Conn, m: Parsed): Conn {
    match m
    case NotJson => c
    case Unusable => c.(crashed := true)
    case Message(id, reply) =>
      if id.Some? && id.value in c.pending then
        c.(pending := c.pending - {id.value}, completed := c.completed + [Completion(id.value, reply)])
      else c
  }

  function HandleLine(c: Conn, line: seq<byte>, parse: seq<byte> -> Parsed): Conn {
    var stripped := StripRight(StripLeft(line));
    if c.crashed || stripped == [] then c else Receive(c, parse(stripped))
  }

  function HandleLines(c: Conn, lines: seq<seq<byte>>, k: nat, parse: seq<byte> -> Parsed): Conn
    requires k <= |lines|
    decreases |lines| - k
  {
    if k == |lines| then c else HandleLines(HandleLine(c, lines[k], parse), lines, k + 1, parse)
  }

  lemma {:induction false} HandleAppend(
      c: Conn, a: seq<seq<byte>>, b: seq<seq<byte>>, k: nat, parse: seq<byte> -> Parsed)
    requires k <= |a|
    ensures HandleLines(c, a + b, k, parse) == HandleLines(HandleLines(c, a, k, parse), b, 0, parse)
    decreases |a| - k
  {
    if k == |a| {
      HandleShift(c, a, b, 0, parse);
    } else {
      HandleAppend(HandleLine(c, a[k], parse), a, b, k + 1, parse);
    }
  }

  lemma {:induction false} HandleShift(
      c: Conn, a: seq<seq<byte>>, b: seq<seq<byte>>, j: nat, parse: seq<byte> -> Parsed)
    requires j <= |b|
    ensures HandleLines(c, a + b, |a| + j, parse) == HandleLines(c, b, j, parse)
    decreases |b| - j
  {
    if j < |b| {
      HandleShift(HandleLine(c, b[j], parse), a, b, j + 1, parse);
    }
  }

  lemma HandleOneMore(c: Conn, done: seq<seq<byte>>, line: seq<byte>, parse: seq<byte> -> Parsed)
    ensures HandleLines(c, done + [line], 0, parse) == HandleLine(HandleLines(c, done, 0, parse), line, parse)
  {
    HandleAppend(c, done, [line], 0, parse);
    var before := HandleLines(c, done, 0, parse);
    assert HandleLines(before, [line], 0, parse) == HandleLines(HandleLine(before, line, parse), [line], 1, parse);
  }

  lemma {:induction false} CrashedIgnores(c: Conn, lines: seq<seq<byte>>, k: nat, parse: seq<byte> -> Parsed)
    requires k <= |lines| && c.crashed
    ensures HandleLines(c, lines, k, parse) == c
    decreases |lines| - k
  {
    if k < |lines| {
      CrashedIgnores(c, lines, k + 1, parse);
    }
  }

  /** After a crash, the lines that would have followed make no difference. */
  lemma CrashedEarly(c: Conn, handled: seq<seq<byte>>, all: seq<seq<byte>>, parse: seq<byte> -> Parsed)
    requires handled <= all && HandleLines(c, handled, 0, parse).crashed
    ensures HandleLines(c, all, 0, parse) == HandleLines(c, handled, 0, parse)
  {
    var rest := all[|handled|..];
    assert all == handled + rest;
    HandleAppend(c, handled, rest, 0, parse);
    CrashedIgnores(HandleLines(c, handled, 0, parse), rest, 0, parse);
  }

  // ---------- The connection object ----------

  class MCPConnection {
    const parse: seq<byte> -> Parsed
    var idCounter: nat
    var pending: set<int>
    var completed: seq<Completion>
    var crashed: bool
    var buffer: seq<byte>

    /** Every byte read from the server so far, and every line handled. */
    ghost var stream: seq<byte>
    ghost var handled: seq<seq<byte>>

    /**
     However the bytes were cut, the lines handled are the lines of the whole stream, and the buffer
     holds the bytes after its last newline; a crash stops the reader at the line that caused it.
     */
    ghost predicate Valid()
      reads this
    {
      && handled <= AllLines(stream)
      && (!crashed ==> handled == AllLines(stream) && buffer == Remainder(stream))
    }

    constructor (parse: seq<byte> -> Parsed)
      ensures this.parse == parse && Now() == Conn(0, {}, [], false)
      ensures Valid() && stream == [] && handled == []
    {
      this.parse := parse;
      idCounter, pending, completed, crashed := 0, {}, [], false;
      buffer, stream, handled := [], [], [];
    }

    function Now(): Conn
      reads this
    {
      Conn(idCounter, pending, completed, crashed)
    }

    method SendRequest() returns (id: int)
      modifies this`idCounter, this`pending
      ensures id == idCounter == old(idCounter) + 1 && pending == old(pending) + {id}
      ensures Now() == Send(old(Now())) && id == idCounter
    {
      idCounter := idCounter + 1;
      id := idCounter;
      pending := pending + {id};
    }

    method RequestTimedOut(id: int)
      modifies this`pending
      ensures pending == old(pending) - {id}
      ensures Now() == TimeOut(old(Now()), id)
    {
      pending := pending - {id};
    }

    /**
     Parses what is left of a line without the white space around it. A response to a pending request
     completes it; a line that cannot be used stops the reader; anything else changes nothing.
     */
    method Handle(line: seq<byte>)
      requires !crashed
      modifies this`pending, this`completed, this`crashed
      ensures IsBlank(line) ==> pending == old(pending) && completed == old(completed) && !crashed
      ensures forall i: nat, j: nat :: IsBody(line, i, j) ==>
                match parse(line[i..j + 1])
                case NotJson => pending == old(pending) && completed == old(completed) && !crashed
                case Unusable => pending == old(pending) && completed == old(completed) && crashed
                case Message(id, reply) =>
                  && !crashed
                  && (if id.Some? && id.value in old(pending) then
                        && pending == old(pending) - {id.value}
                        && completed == old(completed) + [Completion(id.value, reply)]
                      else pending == old(pending) && completed == old(completed))
      ensures Now() == HandleLine(old(Now()), line, parse)
    {
      var stripped := StripRight(StripLeft(line));
      StripBlank(line);
      forall i: nat, j: nat | IsBody(line, i, j) ensures stripped == line[i..j + 1] {
        StripIsBody(line, i, j);
      }
      if stripped == [] {
        return;
      }
      match parse(stripped) {
        case NotJson =>
        case Unusable => crashed := true;
        case Message(id, reply) =>
          if id.Some? && id.value in pending {
            pending := pending - {id.value};
            completed := completed + [Completion(id.value, reply)];
          }
      }
    }

    /** The lines handled and those still in the buffer are the lines of the stream. */
    ghost predicate Reading()
      reads this
    {
      AllLines(stream) == handled + AllLines(buffer) && Remainder(buffer) == Remainder(stream)
    }

    /** Takes the first line off the buffer and handles it. */
    method TakeLine(p: nat) returns (line: seq<byte>)
      requires Reading() && !crashed
      requires p < |buffer| && buffer[p] == NEWLINE && forall i :: 0 <= i < p ==> buffer[i] != NEWLINE
      modifies this
      ensures Reading() && stream == old(stream) && |buffer| < |old(buffer)|
      ensures handled == old(handled) + [line] && Now() == HandleLine(old(Now()), line, parse)
    {
      line := buffer[..p];
      ghost var tail := buffer[p + 1..];
      assert buffer == line + [NEWLINE] + tail;
      SplitFirst(buffer, line, tail);
      buffer := buffer[p + 1..];
      handled := handled + [line];
      Handle(line);
    }

    /** One turn of the read loop, between two waits for the server; `done` are the lines it handles. */
    method ReadChunk(chunk: seq<byte>) returns (ghost done: seq<seq<byte>>)
      requires Valid() && !crashed
      modifies this
      ensures Valid() && stream == old(stream) + chunk
      ensures handled == old(handled) + done && Now() == HandleLines(old(Now()), done, 0, parse)
    {
      AppendChunk(stream, chunk);
      stream := stream + chunk;
      buffer := buffer + chunk;
      done := [];
      while !crashed && exists i :: 0 <= i < |buffer| && buffer[i] == NEWLINE
        invariant stream == old(stream) + chunk && Reading()
        invariant handled == old(handled) + done
        invariant Now() == HandleLines(old(Now()), done, 0, parse)
        decreases |buffer|
      {
        var p := FirstNewline(buffer);
        var line := TakeLine(p);
        HandleOneMore(old(Now()), done, line, parse);
        done := done + [line];
      }
      if !crashed {
        Unbroken(buffer, |buffer|);
        assert buffer[..|buffer|] == buffer;
      }
    }

    /**
     The whole loop, when nothing else happens meanwhile: however the server's output is cut into
     chunks, its effect is that of handling the lines of the whole output up to its end.
     */
    method ReadLoop(chunks: seq<seq<byte>>)
      requires Valid() && !crashed && stream == []
      modifies this
      ensures Valid()
      ensures var lines := AllLines(Concat(chunks, ReadCount(chunks, 0)));
              && Now() == HandleLines(old(Now()), lines, 0, parse)
              && Now() == Run(old(Now()), Messages(lines, 0, parse), 0)
    {
      var n := 0;
      while n < |chunks| && !crashed && chunks[n] != []
        invariant n <= |chunks| && Valid() && stream == Concat(chunks, n)
        invariant ReadCount(chunks, n) == ReadCount(chunks, 0)
        invariant Now() == HandleLines(old(Now()), handled, 0, parse)
      {
        ghost var before := handled;
        ghost var done := ReadChunk(chunks[n]);
        HandleAppend(old(Now()), before, done, 0, parse);
        n := n + 1;
      }
      LinesAreEvents(old(Now()), AllLines(Concat(chunks, ReadCount(chunks, 0))), 0, parse);
      if crashed {
        ConcatLines(chunks, n, ReadCount(chunks, n));
        CrashedEarly(old(Now()), handled, AllLines(Concat(chunks, ReadCount(chunks, 0))), parse);
      }
    }

    method FirstNewline(s: seq<byte>) returns (p: nat)
      requires exists i :: 0 <= i < |s| && s[i] == NEWLINE
      ensures p < |s| && s[p] == NEWLINE && forall i :: 0 <= i < p ==> s[i] != NEWLINE
    {
      p := 0;
      while s[p] != NEWLINE
        invariant p < |s| && forall i :: 0 <= i < p ==> s[i] != NEWLINE
        invariant exists i :: p <= i < |s| && s[i] == NEWLINE
        decreases |s| - p
      {
        p := p + 1;
      }
    }
  }

  // ---------- Any cut of the stream ----------

  function Concat(chunks: seq<seq<byte>>, n: nat): seq<byte>
    requires n <= |chunks|
  {
    if n == 0 then [] else Concat(chunks, n - 1) + chunks[n - 1]
  }

  /** The number of reads before the server closes its output. */
  function ReadCount(chunks: seq<seq<byte>>, k: nat): (n: nat)
    requires k <= |chunks|
    ensures k <= n <= |chunks| && (n < |chunks| ==> chunks[n] == [])
    ensures forall j :: k <= j < n ==> chunks[j] != []
    decreases |chunks| - k
  {
    if k == |chunks| || chunks[k] == [] then k else ReadCount(chunks, k + 1)
  }

  lemma ConcatOne(chunk: seq<byte>)
    ensures Concat([chunk], 1) == chunk
  {
    assert Concat([chunk], 0) + chunk == chunk;
  }

  lemma OneMoreChunk(all: seq<seq<byte>>, front: seq<byte>, back: seq<byte>, m: nat)
    requires m < |all| && Concat(all, m) == front + back
    ensures Concat(all, m + 1) == front + (back + all[m])
  {
  }

  /** Two lots of chunks are those of the first and then those of the second. */
  lemma {:induction false} ConcatAppends(chunks: seq<seq<byte>>, more: seq<seq<byte>>, n: nat)
    requires n <= |more|
    ensures Concat(chunks + more, |chunks| + n) == Concat(chunks, |chunks|) + Concat(more, n)
  {
    if n == 0 {
      ConcatFrame(chunks + more, chunks, |chunks|);
    } else {
      ConcatAppends(chunks, more, n - 1);
      OneMoreChunk(chunks + more, Concat(chunks, |chunks|), Concat(more, n - 1), |chunks| + n - 1);
    }
  }

  lemma {:induction false} ConcatFrame(chunks: seq<seq<byte>>, other: seq<seq<byte>>, n: nat)
    requires n <= |chunks| && n <= |other| && forall k :: 0 <= k < n ==> chunks[k] == other[k]
    ensures Concat(chunks, n) == Concat(other, n)
  {
    if n > 0 {
      ConcatFrame(chunks, other, n - 1);
    }
  }

  lemma {:induction false} ConcatLines(chunks: seq<seq<byte>>, i: nat, n: nat)
    requires i <= n <= |chunks|
    ensures AllLines(Concat(chunks, i)) <= AllLines(Concat(chunks, n))
    decreases n - i
  {
    if i < n {
      ConcatLines(chunks, i, n - 1);
      AppendChunk(Concat(chunks, n - 1), chunks[n - 1]);
    }
  }

  // ---------- Every request gets its own first answer ----------

  datatype Event = SendEvent | TimeoutEvent(id: int) | MessageEvent(message: Parsed)

  function Step(c: Conn, e: Event): Conn {
    match e
    case SendEvent => Send(c)
    case TimeoutEvent(id) => TimeOut(c, id)
    case MessageEvent(m) => if c.crashed then c else Receive(c, m)
  }

  function Run(c: Conn, events: seq<Event>, k: nat): Conn
    requires k <= |events|
    decreases |events| - k
  {
    if k == |events| then c else Run(Step(c, events[k]), events, k + 1)
  }

  /** What has become of the request with a given id. */
  datatype Fate = Unsent | Waiting | Answered(reply: Reply) | GaveUp

  function Find(completed: seq<Completion>, n: nat, id: int): Option<Reply>
    requires n <= |completed|
  {
    if n == 0 then None
    else if completed[n - 1].id == id then Some(completed[n - 1].reply)
    else Find(completed, n - 1, id)
  }

  function FateIn(c: Conn, id: int): Fate {
    if id < 1 || id > c.idCounter then Unsent
    else if id in c.pending then Waiting
    else
      match Find(c.completed, |c.completed|, id)
      case Some(reply) => Answered(reply)
      case None => GaveUp
  }

  /** A request on its own: sent by the send number `id`, then settled by its own first event. */
  function FateStep(fate: Fate, sent: nat, id: int, crashed: bool, e: Event): Fate {
    match e
    case SendEvent => if sent + 1 == id then Waiting else fate
    case TimeoutEvent(i) => if i == id && fate == Waiting then GaveUp else fate
    case MessageEvent(m) =>
      if !crashed && m.Message? && m.id == Some(id) && fate == Waiting then Answered(m.reply) else fate
  }

  predicate ConnOk(c: Conn) {
    && (forall id :: id in c.pending ==> 1 <= id <= c.idCounter)
    && (forall k :: 0 <= k < |c.completed| ==> 1 <= c.completed[k].id <= c.idCounter && c.completed[k].id !in c.pending)
    && (forall j, k :: 0 <= j < k < |c.completed| ==> c.completed[j].id != c.completed[k].id)
  }

  lemma {:induction false} FindFrame(a: seq<Completion>, b: seq<Completion>, n: nat, id: int)
    requires n <= |a| && n <= |b| && forall i :: 0 <= i < n ==> a[i] == b[i]
    ensures Find(a, n, id) == Find(b, n, id)
  {
    if n > 0 {
      FindFrame(a, b, n - 1, id);
    }
  }

  lemma {:induction false} FindNone(completed: seq<Completion>, n: nat, id: int)
    requires n <= |completed| && forall i :: 0 <= i < n ==> completed[i].id != id
    ensures Find(completed, n, id) == None
  {
    if n > 0 {
      FindNone(completed, n - 1, id);
    }
  }

  lemma SendFate(c: Conn, id: int)
    requires ConnOk(c)
    ensures ConnOk(Send(c))
    ensures FateIn(Send(c), id) == if c.idCounter + 1 == id then Waiting else FateIn(c, id)
  {
  }

  lemma TimeoutFate(c: Conn, i: int, id: int)
    requires ConnOk(c)
    ensures ConnOk(TimeOut(c, i))
    ensures FateIn(TimeOut(c, i), id) == if i == id && FateIn(c, id) == Waiting then GaveUp else FateIn(c, id)
  {
    if id in c.pending {
      FindNone(c.completed, |c.completed|, id);
    }
  }

  lemma ReceiveFate(c: Conn, i: int, reply: Reply, id: int)
    requires ConnOk(c) && i in c.pending
    ensures var c' := Receive(c, Message(Some(i), reply));
            ConnOk(c') && FateIn(c', id) == if i == id then Answered(reply) else FateIn(c, id)
  {
    FindFrame(c.completed + [Completion(i, reply)], c.completed, |c.completed|, id);
  }

  lemma StepFate(c: Conn, e: Event, id: int)
    requires ConnOk(c)
    ensures ConnOk(Step(c, e))
    ensures FateIn(Step(c, e), id) == FateStep(FateIn(c, id), c.idCounter, id, c.crashed, e)
  {
    match e
    case SendEvent => SendFate(c, id);
    case TimeoutEvent(i) => TimeoutFate(c, i, id);
    case MessageEvent(m) =>
      if !c.crashed && m.Message? && m.id.Some? && m.id.value in c.pending {
        ReceiveFate(c, m.id.value, m.reply, id);
      }
  }

  /** The fate of a request by its own events alone, from event `k` on. */
  function FateAlone(fate: Fate, sent: nat, id: int, crashed: bool, events: seq<Event>, k: nat): Fate
    requires k <= |events|
    decreases |events| - k
  {
    if k == |events| then fate else
      var e := events[k];
      FateAlone(FateStep(fate, sent, id, crashed, e), if e.SendEvent? then sent + 1 else sent, id,
                crashed || (e.MessageEvent? && e.message.Unusable?), events, k + 1)
  }

  /**
   In every interleaving of requests, timeouts and responses, whatever their order and however many
   are duplicate, late or unknown: each future is completed at most once, and the fate of every
   request is decided by its own events alone, the first of a response with its id and its timeout.
   */
  lemma {:induction false} FateByOwnEvents(c: Conn, events: seq<Event>, k: nat, id: int)
    requires k <= |events| && ConnOk(c)
    ensures ConnOk(Run(c, events, k))
    ensures FateIn(Run(c, events, k), id) == FateAlone(FateIn(c, id), c.idCounter, id, c.crashed, events, k)
    decreases |events| - k
  {
    if k < |events| {
      StepFate(c, events[k], id);
      FateByOwnEvents(Step(c, events[k]), events, k + 1, id);
    }
  }

  /** The ids of the requests sent from event `k` on, in their order. */
  function Issued(c: Conn, events: seq<Event>, k: nat): seq<int>
    requires k <= |events|
    decreases |events| - k
  {
    if k == |events| then []
    else
      (if events[k].SendEvent? then [Send(c).idCounter] else []) + Issued(Step(c, events[k]), events, k + 1)
  }

  /** In every run no two requests get the same id, nor one that was issued before. */
  lemma {:induction false} IdsAreUnique(c: Conn, events: seq<Event>, k: nat)
    requires k <= |events|
    ensures forall i :: 0 <= i < |Issued(c, events, k)| ==> Issued(c, events, k)[i] > c.idCounter
    ensures forall i, j :: 0 <= i < j < |Issued(c, events, k)| ==> Issued(c, events, k)[i] != Issued(c, events, k)[j]
    decreases |events| - k
  {
    if k < |events| {
      IdsAreUnique(Step(c, events[k]), events, k + 1);
    }
  }

  // ---------- From the bytes read to the fate of a request ----------

  /** The line's body: its bytes without the white space around them. */
  function Body(line: seq<byte>): seq<byte> {
    StripRight(StripLeft(line))
  }

  /** What the reader takes from lines: a message for each that is not blank. */
  function Messages(lines: seq<seq<byte>>, k: nat, parse: seq<byte> -> Parsed): seq<Event>
    requires k <= |lines|
    decreases |lines| - k
  {
    if k == |lines| then []
    else
      (if IsBlank(lines[k]) then [] else [MessageEvent(parse(Body(lines[k])))]) + Messages(lines, k + 1, parse)
  }

  lemma {:induction false} RunShift(c: Conn, first: Event, rest: seq<Event>, k: nat)
    requires k <= |rest|
    ensures Run(c, [first] + rest, k + 1) == Run(c, rest, k)
    decreases |rest| - k
  {
    if k < |rest| {
      RunShift(Step(c, rest[k]), first, rest, k + 1);
    }
  }

  /** Handling lines is a run of the events that their messages are. */
  lemma {:induction false} LinesAreEvents(c: Conn, lines: seq<seq<byte>>, k: nat, parse: seq<byte> -> Parsed)
    requires k <= |lines|
    ensures HandleLines(c, lines, k, parse) == Run(c, Messages(lines, k, parse), 0)
    decreases |lines| - k
  {
    if k < |lines| {
      StripBlank(lines[k]);
      var next, rest := HandleLine(c, lines[k], parse), Messages(lines, k + 1, parse);
      LinesAreEvents(next, lines, k + 1, parse);
      if IsBlank(lines[k]) {
        assert [] + rest == rest;
      } else {
        var event := MessageEvent(parse(Body(lines[k])));
        assert Run(c, [event] + rest, 0) == Run(Step(c, event), [event] + rest, 1);
        RunShift(next, event, rest, 0);
      }
    }
  }

  /**
   Whatever bytes the server sends, the fate of a request after they were read is decided by the
   messages on its lines alone, by the first with its id.
   */
  lemma BytesDecideFate(c: Conn, stream: seq<byte>, parse: seq<byte> -> Parsed, id: int)
    requires ConnOk(c)
    ensures FateIn(HandleLines(c, AllLines(stream), 0, parse), id)
            == FateAlone(FateIn(c, id), c.idCounter, id, c.crashed, Messages(AllLines(stream), 0, parse), 0)
  {
    LinesAreEvents(c, AllLines(stream), 0, parse);
    FateByOwnEvents(c, Messages(AllLines(stream), 0, parse), 0, id);
  }

  /** The lines in their order, each with its newline. */
  function Joined(lines: seq<seq<byte>>, n: nat): seq<byte>
    requires n <= |lines|
  {
    if n == 0 then [] else Joined(lines, n - 1) + lines[n - 1] + [10]
  }

  lemma {:induction false} JoinedFrame(lines: seq<seq<byte>>, other: seq<seq<byte>>, n: nat)
    requires n <= |lines| && n <= |other| && forall i :: 0 <= i < n ==> lines[i] == other[i]
    ensures Joined(lines, n) == Joined(other, n)
  {
    if n > 0 {
      JoinedFrame(lines, other, n - 1);
    }
  }

  /** The lines with their newlines and the rest are the stream again, ... */
  lemma {:induction false} LinesJoin(s: seq<byte>, n: nat)
    requires n <= |s|
    ensures Joined(Lines(s, n), |Lines(s, n)|) + Rest(s, n) == s[..n]
  {
    if n > 0 {
      LinesJoin(s, n - 1);
      var before, rest := Lines(s, n - 1), Rest(s, n - 1);
      assert s[..n] == s[..n - 1] + [s[n - 1]];
      if s[n - 1] == NEWLINE {
        JoinedFrame(before + [rest], before, |before|);
        assert Joined(before + [rest], |before| + 1) == Joined(before, |before|) + rest + [10];
      } else {
        assert Joined(before, |before|) + (rest + [s[n - 1]]) == (Joined(before, |before|) + rest) + [s[n - 1]];
      }
    }
  }

  predicate HasNoNewline(line: seq<byte>) {
    forall i :: 0 <= i < |line| ==> line[i] != 10
  }

  /** ... and neither a line nor the rest holds a newline. */
  lemma {:induction false} LinesAreLines(s: seq<byte>, n: nat)
    requires n <= |s|
    ensures forall l :: 0 <= l < |Lines(s, n)| ==> HasNoNewline(Lines(s, n)[l])
    ensures HasNoNewline(Rest(s, n))
  {
    if n > 0 {
      LinesAreLines(s, n - 1);
    }
  }
}
