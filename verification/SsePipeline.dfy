/** The CAN-to-SSE delivery pipeline as a machine of atomic steps: the receive thread appends frames, the loop thread
    pumps them into the send buffer (startSse, pumpSse, appendSsePayload), any thread may append a response
    (appendSendBuf), and one writer copies, writes and erases (handleWrite). Each step is one critical section. */
module SsePipeline {
  import opened Wrappers
  import opened CanFrames
  import opened FrameStores
  import opened EventStream

  const PUMP_LIMIT: nat := 100
  const MAX_PENDING: nat := 256 * 1024

  const HEADER := "HTTP/1.1 200 OK\r\n"
    + "Content-Type: text/event-stream; charset=utf-8\r\n"
    + "Cache-Control: no-cache\r\n"
    + "Connection: keep-alive\r\n"
    + "X-Accel-Buffering: no\r\n"
    + "\r\n"
  const PREAMBLE := HEADER + CONNECTED

  // ---------- The send buffer and its writer ----------

  /** handleWrite holds a copy of the buffer, or has written `count` bytes of it and not erased them yet. */
  datatype Writer = Idle | Copied(pending: string) | Written(count: nat)

  /** `wire` and `accepted` are history: the bytes the kernel took, and the texts ever appended. */
  datatype Output = Output(sendBuf: string, writer: Writer, wire: string, accepted: seq<string>)

  function Flatten(texts: seq<string>): string {
    if texts == [] then "" else texts[0] + Flatten(texts[1..])
  }

  function Append(o: Output, text: string): Output {
    if text == "" then o else o.(sendBuf := o.sendBuf + text, accepted := o.accepted + [text])
  }

  /** The test of appendSsePayload. */
  predicate Fits(o: Output, payload: string) {
    |o.sendBuf| + |payload| <= MAX_PENDING
  }

  datatype WriterStep = Copy | Write(n: nat) | GiveUp | Erase

  predicate WriterEnabled(o: Output, w: WriterStep) {
    match w
    case Copy => o.writer.Idle? && o.sendBuf != ""
    case Write(n) => o.writer.Copied? && 0 < n <= |o.writer.pending|
    case GiveUp => o.writer.Copied?
    case Erase => o.writer.Written? && o.writer.count <= |o.sendBuf|
  }

  function WriterApply(o: Output, w: WriterStep): Output
    requires WriterEnabled(o, w)
  {
    match w
    case Copy => o.(writer := Copied(o.sendBuf))
    case Write(n) => o.(writer := Written(n), wire := o.wire + o.writer.pending[..n])
    case GiveUp => o.(writer := Idle)
    case Erase => o.(writer := Idle, sendBuf := o.sendBuf[o.writer.count..])
  }

  /** What is still to be written: bytes written but not erased do not count. */
  function Unwritten(o: Output): string {
    if o.writer.Written? && o.writer.count <= |o.sendBuf| then o.sendBuf[o.writer.count..] else o.sendBuf
  }

  predicate Fifo(o: Output) {
    && o.wire + Unwritten(o) == Flatten(o.accepted)
    && (o.writer.Copied? ==> o.writer.pending <= o.sendBuf)
    && (o.writer.Written? ==> o.writer.count <= |o.sendBuf|)
  }

  lemma {:induction false} FlattenSnoc(texts: seq<string>, text: string)
    ensures Flatten(texts + [text]) == Flatten(texts) + text
  {
    if texts == [] {
      assert texts + [text] == [text];
    } else {
      assert (texts + [text])[1..] == texts[1..] + [text];
      FlattenSnoc(texts[1..], text);
    }
  }

  lemma {:induction false} AppendKeepsFifo(o: Output, text: string)
    requires Fifo(o)
    ensures Fifo(Append(o, text)) && Flatten(Append(o, text).accepted) == Flatten(o.accepted) + text
  {
    FlattenSnoc(o.accepted, text);
    var o' := Append(o, text);
    if text == "" {
      assert Flatten(o.accepted) + text == Flatten(o.accepted);
    } else {
      hide Flatten;
      assert Unwritten(o') == Unwritten(o) + text;
      assert o.wire + Unwritten(o) + text == o.wire + (Unwritten(o) + text);
    }
  }

  lemma {:induction false} WriterKeepsFifo(o: Output, w: WriterStep)
    requires Fifo(o) && WriterEnabled(o, w)
    ensures Fifo(WriterApply(o, w)) && WriterApply(o, w).accepted == o.accepted
  {
    hide Flatten;
    if w.Write? {
      WrittenFromFront(o.wire, o.sendBuf, o.writer.pending, w.n);
    }
  }

  lemma {:induction false} WrittenFromFront(wire: string, buffer: string, pending: string, n: nat)
    requires n <= |pending| && pending <= buffer
    ensures wire + buffer == wire + pending[..n] + buffer[n..]
  {
    assert pending[..n] == buffer[..n];
    assert buffer == buffer[..n] + buffer[n..];
  }

  // ---------- The stream ----------

  /** The stream since its last start; a second start makes a new one, and only the overflow flag stays. `items`
      are the payloads accepted, `skipped` the numbers the cursor jumped over, each with the eviction count of
      the store at that query, `dropped` the frame that met a full buffer, `pumps` the number of frames ever
      stored at each query. */
  datatype Stream = Stream(
    active: bool, start: nat, cursor: nat, overflow: bool,
    items: seq<Item>, skipped: map<nat, nat>, dropped: Option<nat>, pumps: seq<nat>)

  /** pumpSse, between its query (which saw `evicted` frames lost) and its return. */
  datatype Pump = Resting | Appending(rest: seq<CanFrame>, evicted: nat)

  datatype State = State(history: seq<CanFrame>, stream: Stream, pump: Pump, out: Output)

  datatype Action =
    | Arrive(frame: CanFrame)
    | Respond(text: string)
    | StartSse(after: nat)
    | PumpBegin
    | PumpFrame
    | PumpEnd(heartbeatDue: bool)
    | WriterDoes(step: WriterStep)

  predicate Enabled(s: State, a: Action) {
    match a
    case Arrive(frame) => frame.Valid()
    case Respond(_) => true
    case StartSse(_) => s.pump.Resting?
    case PumpBegin => s.stream.active && !s.stream.overflow && s.pump.Resting?
    case PumpFrame => s.pump.Appending? && s.pump.rest != [] && s.pump.rest[0].Valid()
    case PumpEnd(_) => s.pump.Appending? && s.pump.rest == []
    case WriterDoes(w) => WriterEnabled(s.out, w)
  }

  function Apply(s: State, a: Action, capacity: nat): State
    requires Enabled(s, a)
  {
    match a
    case Arrive(frame) => s.(history := s.history + [frame.(sequence := |s.history| + 1)])
    case Respond(text) => s.(out := Append(s.out, text))
    case StartSse(after) =>
      s.(stream := Stream(true, after, after, s.stream.overflow, [], map[], None, []), out := Append(s.out, PREAMBLE))
    case PumpBegin =>
      s.(pump := Appending(
           Select(Retained(s.history, capacity), s.stream.cursor, None, PUMP_LIMIT),
           Overwritten(|s.history|, capacity)),
         stream := s.stream.(pumps := s.stream.pumps + [|s.history|]))
    case PumpFrame => ApplyFrame(s, s.pump.rest[0])
    case PumpEnd(due) =>
      if !due then s.(pump := Resting)
      else if Fits(s.out, HEARTBEAT) then
        s.(pump := Resting, out := Append(s.out, HEARTBEAT), stream := s.stream.(items := s.stream.items + [Heartbeat]))
      else s.(pump := Resting, stream := s.stream.(overflow := true))
    case WriterDoes(w) => s.(out := WriterApply(s.out, w))
  }

  /** The numbers strictly between two. */
  function Between(lo: nat, hi: nat): (r: set<nat>)
    ensures forall k :: k in r <==> lo < k < hi
    ensures |r| == if lo < hi then hi - lo - 1 else 0
    decreases hi
  {
    if hi <= lo + 1 then {} else Between(lo, hi - 1) + {hi - 1}
  }

  /** One round of the pump's loop: the cursor moves first, then the payload is appended or refused. */
  function ApplyFrame(s: State, f: CanFrame): State
    requires f.Valid() && s.pump.Appending? && s.pump.rest != []
  {
    var jumped := map k | k in Between(s.stream.cursor, f.sequence) :: s.pump.evicted;
    var moved := s.stream.(cursor := Max(s.stream.cursor, f.sequence), skipped := s.stream.skipped + jumped);
    if Fits(s.out, FrameSse(f)) then
      s.(stream := moved.(items := moved.items + [Frame(f)]), out := Append(s.out, FrameSse(f)),
         pump := Appending(s.pump.rest[1..], s.pump.evicted))
    else s.(stream := moved.(overflow := true, dropped := Some(f.sequence)), pump := Resting)
  }

  /** A run: disabled actions do nothing. */
  function Exec(s: State, acts: seq<Action>, capacity: nat): State
    decreases |acts|
  {
    if acts == [] then s
    else Exec(if Enabled(s, acts[0]) then Apply(s, acts[0], capacity) else s, acts[1..], capacity)
  }

  /** A fresh connection on a store that already holds `history`. */
  function Fresh(history: seq<CanFrame>): State {
    State(history, Stream(false, 0, 0, false, [], map[], None, []), Resting, Output("", Idle, "", []))
  }

  // ---------- A pump nobody interrupts ----------

  /** What the query of pumpSse returns. */
  function Queried(s: State, capacity: nat): seq<CanFrame> {
    Select(Retained(s.history, capacity), s.stream.cursor, None, PUMP_LIMIT)
  }

  function PumpTail(n: nat, due: bool): seq<Action> {
    if n == 0 then [PumpEnd(due)] else [PumpFrame] + PumpTail(n - 1, due)
  }

  /** All steps of one pumpSse call whose query returns n frames. */
  function WholePump(n: nat, due: bool): seq<Action> {
    [PumpBegin] + PumpTail(n, due)
  }

  lemma {:induction false} ExecStep(s: State, a: Action, rest: seq<Action>, capacity: nat)
    ensures Exec(s, [a] + rest, capacity) == Exec(if Enabled(s, a) then Apply(s, a, capacity) else s, rest, capacity)
  {
    assert ([a] + rest)[1..] == rest;
  }

  lemma {:induction false} ExecConcat(s: State, a: seq<Action>, b: seq<Action>, capacity: nat)
    ensures Exec(s, a + b, capacity) == Exec(Exec(s, a, capacity), b, capacity)
    decreases |a|
  {
    hide Apply, Enabled;
    if a == [] {
      assert a + b == b;
    } else {
      assert (a + b)[1..] == a[1..] + b;
      ExecConcat(if Enabled(s, a[0]) then Apply(s, a[0], capacity) else s, a[1..], b, capacity);
    }
  }

  lemma {:induction false} RestingTail(s: State, n: nat, due: bool, capacity: nat)
    requires s.pump.Resting?
    ensures Exec(s, PumpTail(n, due), capacity) == s
    decreases n
  {
    hide Exec, Apply;
    if n == 0 {
      ExecStep(s, PumpEnd(due), [], capacity);
      assert [PumpEnd(due)] + [] == [PumpEnd(due)];
      NothingLeft(s, capacity);
    } else {
      ExecStep(s, PumpFrame, PumpTail(n - 1, due), capacity);
      RestingTail(s, n - 1, due, capacity);
    }
  }

  lemma {:induction false} NothingLeft(s: State, capacity: nat)
    ensures Exec(s, [], capacity) == s
  {
  }

  lemma {:induction false} PumpDisabled(s: State, n: nat, due: bool, capacity: nat)
    requires s.pump.Resting? && (!s.stream.active || s.stream.overflow)
    ensures Exec(s, WholePump(n, due), capacity) == s
  {
    hide Exec, Apply, PumpTail;
    ExecStep(s, PumpBegin, PumpTail(n, due), capacity);
    RestingTail(s, n, due, capacity);
  }

  lemma {:induction false} PumpStarts(s: State, n: nat, due: bool, capacity: nat)
    requires Enabled(s, PumpBegin)
    ensures Exec(s, WholePump(n, due), capacity) == Exec(Apply(s, PumpBegin, capacity), PumpTail(n, due), capacity)
  {
    hide Exec, Apply, PumpTail;
    ExecStep(s, PumpBegin, PumpTail(n, due), capacity);
  }

  lemma {:induction false} PumpStep(s: State, n: nat, due: bool, capacity: nat)
    requires Enabled(s, PumpFrame) && n > 0
    ensures Exec(s, PumpTail(n, due), capacity) == Exec(ApplyFrame(s, s.pump.rest[0]), PumpTail(n - 1, due), capacity)
  {
    hide Exec, ApplyFrame;
    ExecStep(s, PumpFrame, PumpTail(n - 1, due), capacity);
  }

  lemma {:induction false} PumpStops(s: State, due: bool, capacity: nat)
    requires Enabled(s, PumpEnd(due))
    ensures Exec(s, PumpTail(0, due), capacity) == Apply(s, PumpEnd(due), capacity)
  {
    hide Exec, Apply;
    ExecStep(s, PumpEnd(due), [], capacity);
    assert [PumpEnd(due)] + [] == [PumpEnd(due)];
    NothingLeft(Apply(s, PumpEnd(due), capacity), capacity);
  }

  // ---------- Bytes leave in the order they were accepted ----------

  lemma {:induction false} StepKeepsFifo(s: State, a: Action, capacity: nat)
    requires Fifo(s.out) && Enabled(s, a)
    ensures Fifo(Apply(s, a, capacity).out)
  {
    hide Fifo, Append, FrameSse, Select, Retained;
    match a
    case Respond(text) => AppendKeepsFifo(s.out, text);
    case StartSse(_) => AppendKeepsFifo(s.out, PREAMBLE);
    case PumpFrame => AppendKeepsFifo(s.out, FrameSse(s.pump.rest[0]));
    case PumpEnd(_) => AppendKeepsFifo(s.out, HEARTBEAT);
    case WriterDoes(w) => WriterKeepsFifo(s.out, w);
    case _ =>
  }

  /** In every interleaving of responses, SSE appends and the writer's steps, the bytes written followed by
      those still waiting are the accepted texts in append order. */
  lemma {:induction false} BytesAreFifo(s: State, acts: seq<Action>, capacity: nat)
    requires Fifo(s.out)
    ensures Fifo(Exec(s, acts, capacity).out)
    decreases |acts|
  {
    hide Fifo, Apply;
    if acts != [] {
      if Enabled(s, acts[0]) {
        StepKeepsFifo(s, acts[0], capacity);
      }
      BytesAreFifo(if Enabled(s, acts[0]) then Apply(s, acts[0], capacity) else s, acts[1..], capacity);
    }
  }
}
