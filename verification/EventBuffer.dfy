/**
 * The text buffer of the event client. Events are lines; what has arrived of the next line is the
 * partial tail. Every buffer operation is shown to be one on a queue of lines and a tail.
 */
module EventBuffer {
  import opened Octets

  const NL := '\n'

  // ---- the queue a buffer stands for ----------------------------------------------------------

  function FirstNewline(b: string): (k: nat)
    ensures k <= |b| && (k < |b| ==> b[k] == NL)
    ensures forall i :: 0 <= i < k ==> b[i] != NL
  {
    if b == "" || b[0] == NL then 0 else 1 + FirstNewline(b[1..])
  }

  function Lines(b: string): seq<string>
    decreases |b|
  {
    var k := FirstNewline(b);
    if k == |b| then [] else [b[..k]] + Lines(b[k + 1..])
  }

  function Tail(b: string): string
    decreases |b|
  {
    var k := FirstNewline(b);
    if k == |b| then b else Tail(b[k + 1..])
  }

  function Join(lines: seq<string>): string
  {
    if lines == [] then "" else lines[0] + [NL] + Join(lines[1..])
  }

  predicate OneLine(s: string)
  {
    NL !in s
  }

  ghost predicate AllOneLine(lines: seq<string>)
  {
    forall i :: 0 <= i < |lines| ==> OneLine(lines[i])
  }

  lemma JoinCons(line: string, lines: seq<string>)
    ensures Join([line] + lines) == line + [NL] + Join(lines)
  {
    assert ([line] + lines)[1..] == lines;
  }

  lemma {:induction false} BufferText(b: string)
    ensures b == Join(Lines(b)) + Tail(b)
    decreases |b|
  {
    var k := FirstNewline(b);
    if k < |b| {
      var (line, rest) := (b[..k], b[k + 1..]);
      BufferText(rest);
      SplitAround(b, k);
      Assoc(line + [NL], Join(Lines(rest)), Tail(rest));
      JoinCons(line, Lines(rest));
    } else {
      Units(b);
    }
  }

  lemma {:induction false} BufferLines(b: string)
    ensures AllOneLine(Lines(b)) && OneLine(Tail(b))
    decreases |b|
  {
    var k := FirstNewline(b);
    if k < |b| {
      BufferLines(b[k + 1..]);
    }
  }

  /** A buffer is its complete lines followed by its tail. */
  lemma BufferIsLinesAndTail(b: string)
    ensures b == Join(Lines(b)) + Tail(b) && AllOneLine(Lines(b)) && OneLine(Tail(b))
  {
    BufferText(b);
    BufferLines(b);
  }

  lemma FirstNewlineAfter(line: string, rest: string)
    requires OneLine(line)
    ensures FirstNewline(line + [NL] + rest) == |line|
  {
    var b := line + [NL] + rest;
    assert b[|line|] == NL;
    assert forall i :: 0 <= i < |line| ==> b[i] == line[i];
  }

  /** Lines and tail of a joined buffer are what it was joined from. */
  lemma {:induction false} JoinedBuffer(lines: seq<string>, tail: string)
    requires AllOneLine(lines) && OneLine(tail)
    ensures Lines(Join(lines) + tail) == lines && Tail(Join(lines) + tail) == tail
  {
    if lines == [] {
      Units(tail);
    } else {
      var rest := Join(lines[1..]) + tail;
      JoinedBuffer(lines[1..], tail);
      Assoc(lines[0] + [NL], Join(lines[1..]), tail);
      FirstNewlineAfter(lines[0], rest);
      var b := lines[0] + [NL] + rest;
      assert b[..|lines[0]|] == lines[0] && b[|lines[0]| + 1..] == rest;
      assert [lines[0]] + lines[1..] == lines;
    }
  }

  lemma {:induction false} JoinAppend(a: seq<string>, b: seq<string>)
    ensures Join(a + b) == Join(a) + Join(b)
  {
    if a == [] {
      Units(b);
      Units(Join(b));
    } else {
      TailOfAppend(a, b);
      JoinAppend(a[1..], b);
      Assoc(a[0] + [NL], Join(a[1..]), Join(b));
    }
  }

  lemma JoinOne(line: string)
    ensures Join([line]) == line + [NL]
  {
    assert Join([line]) == line + [NL] + Join([line][1..]);
  }

  // ---- the operations -------------------------------------------------------------------------

  /** Index of the last newline, or -1. */
  function LastNewline(b: string): (r: int)
    ensures -1 <= r < |b| && (r >= 0 ==> b[r] == NL)
    ensures forall i :: r < i < |b| ==> b[i] != NL
  {
    if b == "" then -1 else if b[|b| - 1] == NL then |b| - 1 else LastNewline(b[..|b| - 1])
  }

  /** `_append_event`, on the buffer's text. */
  function Appended(b: string, event: string): string
  {
    var index := LastNewline(b);
    if index == |b| - 1 then b + event + [NL]
    else if index == -1 then event + [NL] + b
    else b[..index] + [NL] + event + b[index..]
  }

  function Prepended(b: string, event: string): string
  {
    event + [NL] + b
  }

  /** The last newline ends the complete lines. */
  lemma LastNewlineSplits(b: string)
    ensures b == Join(Lines(b)) + Tail(b) && LastNewline(b) == |Join(Lines(b))| - 1
    ensures LastNewline(b) >= 0 ==> Join(Lines(b))[LastNewline(b)] == NL
  {
    BufferIsLinesAndTail(b);
    if Lines(b) != [] {
      JoinEndsInNewline(Lines(b));
    }
    LastNewlineBefore(Join(Lines(b)), Tail(b));
  }

  lemma LastNewlineBefore(lines: string, tail: string)
    requires OneLine(tail) && (lines == "" || lines[|lines| - 1] == NL)
    ensures LastNewline(lines + tail) == |lines| - 1
  {
    var b := lines + tail;
    assert forall i :: |lines| <= i < |b| ==> b[i] == tail[i - |lines|];
    assert lines != "" ==> b[|lines| - 1] == NL;
  }

  lemma {:induction false} JoinEndsInNewline(lines: seq<string>)
    requires lines != []
    ensures Join(lines) != "" && Join(lines)[|Join(lines)| - 1] == NL
  {
    if |lines| > 1 {
      JoinEndsInNewline(lines[1..]);
    }
  }

  lemma AppendedText(lines: string, tail: string, event: string, b: string, index: int)
    requires b == lines + tail && index == |lines| - 1 && (lines != "" ==> lines[index] == NL)
    ensures (if index == |b| - 1 then b + event + [NL]
             else if index == -1 then event + [NL] + b
             else b[..index] + [NL] + event + b[index..])
            == (lines + (event + [NL])) + tail
  {
    if index == |b| - 1 {
      assert tail == "" && b == lines;
    } else if index == -1 {
      assert lines == "" && b == tail;
    } else {
      assert b[..index] + [NL] == lines && b[index..] == [NL] + tail;
    }
  }

  lemma AppendedIs(b: string, event: string)
    ensures Appended(b, event) == Join(Lines(b) + [event]) + Tail(b)
  {
    LastNewlineSplits(b);
    JoinAppend(Lines(b), [event]);
    JoinOne(event);
    AppendedText(Join(Lines(b)), Tail(b), event, b, LastNewline(b));
  }

  /** Appending an event puts it behind the complete lines and never into the partial tail. */
  lemma AppendIsEnqueue(b: string, event: string)
    requires OneLine(event)
    ensures Lines(Appended(b, event)) == Lines(b) + [event] && Tail(Appended(b, event)) == Tail(b)
  {
    AppendedIs(b, event);
    BufferIsLinesAndTail(b);
    JoinedBuffer(Lines(b) + [event], Tail(b));
  }

  /** Prepending puts it in front. */
  lemma PrependIsPush(b: string, event: string)
    requires OneLine(event)
    ensures Lines(Prepended(b, event)) == [event] + Lines(b) && Tail(Prepended(b, event)) == Tail(b)
  {
    FirstNewlineAfter(event, b);
    assert Prepended(b, event)[..|event|] == event && Prepended(b, event)[|event| + 1..] == b;
  }

  /** Receiving completes the tail with what came, and touches no complete line. */
  lemma ReceiveExtendsTail(b: string, data: string)
    ensures Lines(b + data) == Lines(b) + Lines(Tail(b) + data)
    ensures Tail(b + data) == Tail(Tail(b) + data)
  {
    var rest := Tail(b) + data;
    BufferIsLinesAndTail(b);
    BufferIsLinesAndTail(rest);
    Assoc(Join(Lines(b)), Tail(b), data);
    Assoc(Join(Lines(b)), Join(Lines(rest)), Tail(rest));
    JoinAppend(Lines(b), Lines(rest));
    JoinedBuffer(Lines(b) + Lines(rest), Tail(rest));
  }

  // ---- reading --------------------------------------------------------------------------------

  /** The lines read from a buffer and the chunks that arrive while it holds no complete line. */
  function Drain(b: string, chunks: seq<string>): seq<string>
    decreases |chunks|, |b|
  {
    var k := FirstNewline(b);
    if k < |b| then [b[..k]] + Drain(b[k + 1..], chunks)
    else if chunks == [] then []
    else Drain(b + chunks[0], chunks[1..])
  }

  /** More data leaves a complete first line alone. */
  lemma FirstLineStays(b: string, more: string)
    requires FirstNewline(b) < |b|
    ensures var k := FirstNewline(b);
            Lines(b + more) == [b[..k]] + Lines(b[k + 1..] + more)
  {
    var k := FirstNewline(b);
    var (line, rest) := (b[..k], b[k + 1..]);
    SplitAround(b, k);
    Assoc(line + [NL], rest, more);
    FirstNewlineAfter(line, rest + more);
    CutAfter(line, rest + more);
  }

  lemma CutAfter(line: string, rest: string)
    ensures (line + [NL] + rest)[..|line|] == line && (line + [NL] + rest)[|line| + 1..] == rest
  {
  }

  /** The lines read do not depend on where the stream was cut into chunks. */
  lemma {:induction false} ReadingIgnoresChunks(b: string, chunks: seq<string>)
    ensures Drain(b, chunks) == Lines(b + Flatten(chunks))
    decreases |chunks|, |b|
  {
    var (k, n) := (FirstNewline(b), |chunks|);
    if k < |b| {
      var rest := b[k + 1..];
      ReadingIgnoresChunks(rest, chunks);
      FirstLineStays(b, Flatten(chunks));
    } else if n == 0 {
      Units(b);
    } else {
      var (first, others) := (chunks[0], chunks[1..]);
      ReadingIgnoresChunks(b + first, others);
      Assoc(b, first, Flatten(others));
      assert Flatten(chunks) == first + Flatten(others);
    }
  }

  // ---- refinement over whole runs -------------------------------------------------------------

  datatype Op = Receive(data: string) | Append(event: string) | Prepend(event: string) | Pop

  /** The abstract event queue: complete lines, and a partial one. */
  datatype Queue = Queue(lines: seq<string>, tail: string)

  function Abstract(b: string): Queue
  {
    Queue(Lines(b), Tail(b))
  }

  predicate Wellformed(op: Op)
  {
    match op case Append(e) => OneLine(e) case Prepend(e) => OneLine(e) case _ => true
  }

  /** One operation on the text: the text after it, and the line it gives. */
  function OnText(b: string, op: Op): (string, Option<string>)
  {
    match op
    case Receive(data) => (b + data, None)
    case Append(event) => (Appended(b, event), None)
    case Prepend(event) => (Prepended(b, event), None)
    case Pop =>
      var k := FirstNewline(b);
      if k == |b| then (b, None) else (b[k + 1..], Some(b[..k]))
  }

  /** The same on the queue; received data goes behind the tail and may complete lines. */
  function OnQueue(q: Queue, op: Op): (Queue, Option<string>)
  {
    match op
    case Receive(data) => (Queue(q.lines + Lines(q.tail + data), Tail(q.tail + data)), None)
    case Append(event) => (q.(lines := q.lines + [event]), None)
    case Prepend(event) => (q.(lines := [event] + q.lines), None)
    case Pop => if q.lines == [] then (q, None) else (q.(lines := q.lines[1..]), Some(q.lines[0]))
  }

  lemma OperationRefines(b: string, op: Op)
    requires Wellformed(op)
    ensures OnQueue(Abstract(b), op) == (Abstract(OnText(b, op).0), OnText(b, op).1)
  {
    match op
    case Receive(data) => ReceiveExtendsTail(b, data);
    case Append(event) => AppendIsEnqueue(b, event);
    case Prepend(event) => PrependIsPush(b, event);
    case Pop =>
  }

  function RunText(b: string, ops: seq<Op>): (string, seq<Option<string>>)
    decreases |ops|
  {
    if ops == [] then (b, [])
    else
      var (next, given) := OnText(b, ops[0]);
      var (last, rest) := RunText(next, ops[1..]);
      (last, [given] + rest)
  }

  function RunQueue(q: Queue, ops: seq<Op>): (Queue, seq<Option<string>>)
    decreases |ops|
  {
    if ops == [] then (q, [])
    else
      var (next, given) := OnQueue(q, ops[0]);
      var (last, rest) := RunQueue(next, ops[1..]);
      (last, [given] + rest)
  }

  /** Any run of operations on the text gives the lines, and ends as, the run on the queue. */
  lemma {:induction false} RunRefines(b: string, ops: seq<Op>)
    requires forall i :: 0 <= i < |ops| ==> Wellformed(ops[i])
    ensures RunQueue(Abstract(b), ops) == (Abstract(RunText(b, ops).0), RunText(b, ops).1)
    decreases |ops|
  {
    if ops != [] {
      OperationRefines(b, ops[0]);
      RunRefines(OnText(b, ops[0]).0, ops[1..]);
    }
  }

  /** The buffer, and the chunks the socket has for it; an empty chunk is a closed socket. */
  class EventStream {
    var buffer: string
    var incoming: seq<string>

    constructor ()
      ensures buffer == "" && incoming == []
    {
      buffer, incoming := "", [];
    }

    method AppendEvent(event: string)
      requires OneLine(event)
      modifies `buffer
      ensures Lines(buffer) == old(Lines(buffer)) + [event] && Tail(buffer) == old(Tail(buffer))
    {
      AppendIsEnqueue(buffer, event);
      var index := LastNewline(buffer);
      if index == |buffer| - 1 {
        buffer := buffer + event + [NL];
      } else if index == -1 {
        buffer := event + [NL] + buffer;
      } else {
        buffer := buffer[..index] + [NL] + event + buffer[index..];
      }
    }

    method PrependEvent(event: string)
      requires OneLine(event)
      modifies `buffer
      ensures Lines(buffer) == [event] + old(Lines(buffer)) && Tail(buffer) == old(Tail(buffer))
    {
      PrependIsPush(buffer, event);
      buffer := event + [NL] + buffer;
    }

    /** Receives until there is a complete line or nothing more to receive; None is a disconnection. */
    method HasEvent() returns (r: Option<bool>)
      modifies this
      ensures buffer + Flatten(incoming) == old(buffer + Flatten(incoming))
      ensures r == Some(true) ==> Lines(buffer) != []
      ensures r == Some(false) ==> Lines(buffer) == [] && incoming == []
      ensures r.None? ==> "" in old(incoming) && Lines(buffer) == []
      ensures forall c <- incoming :: c in old(incoming)
    {
      while true
        invariant buffer + Flatten(incoming) == old(buffer + Flatten(incoming))
        invariant forall c <- incoming :: c in old(incoming)
        decreases |incoming|
      {
        if NL in buffer {
          return Some(true);
        }
        if incoming == [] {
          return Some(false);
        }
        var data := incoming[0];
        Assoc(buffer, data, Flatten(incoming[1..]));
        incoming := incoming[1..];
        if |data| == 0 {
          Units(buffer);
          return None;
        }
        buffer := buffer + data;
      }
    }

    /** The next complete line, of a buffer that has one. */
    method NextLine() returns (line: string)
      requires NL in buffer
      modifies `buffer
      ensures line == old(buffer[..FirstNewline(buffer)]) && buffer == old(buffer[FirstNewline(buffer) + 1..])
      ensures old(Lines(buffer)) == [line] + Lines(buffer) && Tail(buffer) == old(Tail(buffer))
    {
      var k := FirstNewline(buffer);
      line := buffer[..k];
      buffer := buffer[k + 1..];
    }

    /** Reads every line there is to read. */
    method ReadAll() returns (lines: seq<string>)
      requires "" !in incoming
      modifies this
      ensures lines == old(Lines(buffer + Flatten(incoming)))
      ensures Lines(buffer) == [] && incoming == []
    {
      lines := [];
      ghost var rest := buffer + Flatten(incoming);
      var more := HasEvent();
      while more == Some(true)
        invariant more.Some? && "" !in incoming
        invariant more == Some(true) ==> Lines(buffer) != []
        invariant more == Some(false) ==> Lines(buffer) == [] && incoming == []
        invariant rest == buffer + Flatten(incoming)
        invariant lines + Lines(rest) == old(Lines(buffer + Flatten(incoming)))
        decreases |rest|
      {
        LineOfStream(buffer, Flatten(incoming));
        var line := NextLine();
        rest := buffer + Flatten(incoming);
        Assoc(lines, [line], Lines(rest));
        lines := lines + [line];
        more := HasEvent();
      }
      assert !more.value;
      assert incoming == [] && Flatten(incoming) == "" && rest == buffer by {
        Units(buffer);
      }
      Units(lines);
    }
  }

  lemma LineOfStream(b: string, later: string)
    requires Lines(b) != []
    ensures var k := FirstNewline(b);
            k < |b| && Lines(b + later) == [b[..k]] + Lines(b[k + 1..] + later)
  {
    var (k, all) := (FirstNewline(b), b + later);
    assert all[k] == NL && forall i :: 0 <= i < k ==> all[i] == b[i];
    assert FirstNewline(all) == k;
    assert all[..k] == b[..k] && all[k + 1..] == b[k + 1..] + later;
  }
}
