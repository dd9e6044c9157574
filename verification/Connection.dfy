/** The connection object (Connection.cpp) with its buffers and flags, one call at a time. Each method is tied
    to the machines whose runs the other modules study: reads to Reassembly, everything that is sent to
    SsePipeline. */
module Connections {
  import opened Wrappers
  import opened Text
  import opened CanFrames
  import opened FrameStores
  import opened FrameCodec
  import opened Numbers
  import opened HttpParsing
  import opened Reassembly
  import opened EventStream
  import opened Routing
  import P = SsePipeline

  const HEARTBEAT_SECONDS: int := 10
  const BAD_REQUEST_RESPONSE := "HTTP/1.1 400 Bad Request\r\n"
    + "Content-Type: text/plain; charset=utf-8\r\n"
    + "Content-Length: 11\r\n"
    + "\r\n"
    + "Bad Request"

  /** How the read loop ends: EAGAIN, end of file, or another error. */
  datatype ReadEnd = Again | EndOfFile | ReadError

  /** How handleWrite ends: the buffer is empty, write would block, or the connection is to be removed. */
  datatype WriteEnd = Drained | Blocked | WriteError

  /** How many of `waiting` bytes successive writes with these results take: until one fails or nothing is left. */
  function Taken(results: seq<int>, waiting: nat): (n: nat)
    ensures n <= waiting
  {
    if waiting == 0 || results == [] || results[0] <= 0 then 0
    else if results[0] >= waiting then waiting
    else results[0] + Taken(results[1..], waiting - results[0])
  }

  /** What one carved text makes the connection do: a 400, the start of a stream, or the response of another branch of
      processRequest. Every branch appends one text. */
  function StepOf(e: Reassembly.Event, answer: string): P.Action {
    if e.BadRequest? then P.Respond(BAD_REQUEST_RESPONSE)
    else if StreamStart(e.request).Some? then P.StartSse(StreamStart(e.request).value)
    else P.Respond(answer)
  }

  /** The same for a list of events; answer(k) is the response to event k. */
  function StepsOf(events: seq<Reassembly.Event>, answer: nat -> string): (steps: seq<P.Action>)
    ensures |steps| == |events|
  {
    seq(|events|, k requires 0 <= k < |events| => StepOf(events[k], answer(k)))
  }

  class Connection {
    var recvBuf: string
    var req: HttpRequest
    /** Requests handed to processRequest and 400 answers, in order. */
    ghost var log: seq<Reassembly.Event>

    var sendBuf: string
    /** Where handleWrite is, in whatever thread, and what the kernel has taken. */
    ghost var writer: P.Writer
    ghost var wire: string
    ghost var accepted: seq<string>

    var sseActive: bool
    var sseOverflow: bool
    var sseAfterSequence: nat
    var sseLastHeartbeat: int
    ghost var stream: P.Stream

    ghost predicate Valid()
      reads this
    {
      stream.active == sseActive && stream.overflow == sseOverflow && stream.cursor == sseAfterSequence
    }

    ghost function Reader(): Input
      reads this, req
    {
      Input(recvBuf, req.Fields(), log)
    }

    ghost function Out(): P.Output
      reads this
    {
      P.Output(sendBuf, writer, wire, accepted)
    }

    /** The state of the pipeline machine between two calls. */
    ghost function Machine(history: seq<CanFrame>): P.State
      reads this
    {
      P.State(history, stream, P.Resting, Out())
    }

    constructor ()
      ensures Valid() && fresh(req) && Reader() == START && forall h :: Machine(h) == P.Fresh(h)
    {
      recvBuf, sendBuf, sseActive, sseOverflow, sseAfterSequence, sseLastHeartbeat := "", "", false, false, 0, 0;
      req := new HttpRequest();
      log, wire, accepted, writer := [], "", [], P.Idle;
      stream := P.Stream(false, 0, 0, false, [], map[], None, []);
    }

    // ---------- Sending ----------

    method AppendSendBuf(data: string)
      modifies this`sendBuf, this`accepted
      ensures Out() == P.Append(old(Out()), data)
    {
      if data == "" { return; }
      sendBuf := sendBuf + data;
      accepted := accepted + [data];
    }

    method AppendSsePayload(payload: string) returns (ok: bool)
      requires Valid()
      modifies this`sendBuf, this`accepted, this`sseOverflow, this`stream
      ensures Valid()
      ensures ok <==> payload != "" && P.Fits(old(Out()), payload)
      ensures ok <==> payload != "" && |old(sendBuf)| + |payload| <= 262144
      ensures |accepted| == |old(accepted)| + (if ok then 1 else 0)
      ensures ok ==> Out() == P.Append(old(Out()), payload) && stream == old(stream)
      ensures !ok ==> Out() == old(Out())
      ensures !ok ==> stream == if payload == "" then old(stream) else old(stream).(overflow := true)
    {
      if payload == "" { return false; }
      if |sendBuf| + |payload| > P.MAX_PENDING {
        sseOverflow := true;
        stream := stream.(overflow := true);
        return false;
      }
      sendBuf := sendBuf + payload;
      accepted := accepted + [payload];
      return true;
    }

    /** startSse; a second call starts the stream anew. */
    method StartSse(after: nat, now: int, ghost history: seq<CanFrame>, ghost capacity: nat)
      requires Valid()
      modifies this`sendBuf, this`accepted, this`sseActive, this`sseAfterSequence, this`sseLastHeartbeat, this`stream
      ensures Valid() && Machine(history) == P.Apply(old(Machine(history)), P.StartSse(after), capacity)
      ensures sseActive && sseAfterSequence == after && sseLastHeartbeat == now
    {
      sseAfterSequence := after;
      sseLastHeartbeat := now;
      AppendSendBuf(P.PREAMBLE);
      sseActive := true;
      stream := P.Stream(true, after, after, sseOverflow, [], map[], None, []);
    }

    /** The first critical section of handleWrite: a copy of the buffer, or None when it is empty. */
    method CopyPending() returns (pending: Option<string>)
      requires writer.Idle?
      modifies this`writer
      ensures pending.None? <==> sendBuf == ""
      ensures Out() == if pending.None? then old(Out()) else P.WriterApply(old(Out()), P.Copy)
      ensures pending.Some? ==> writer == P.Copied(pending.value)
    {
      if sendBuf == "" { return None; }
      writer := P.Copied(sendBuf);
      return Some(sendBuf);
    }

    /** write, outside the lock: the kernel takes n bytes of the copy. */
    ghost method Write(n: nat)
      requires P.WriterEnabled(Out(), P.Write(n))
      modifies this`writer, this`wire
      ensures Out() == P.WriterApply(old(Out()), P.Write(n))
    {
      wire := wire + writer.pending[..n];
      writer := P.Written(n);
    }

    /** The second critical section. */
    method EraseWritten(n: nat)
      requires P.WriterEnabled(Out(), P.Erase) && writer.count == n
      modifies this`sendBuf, this`writer
      ensures Out() == P.WriterApply(old(Out()), P.Erase)
    {
      sendBuf := sendBuf[n..];
      writer := P.Idle;
    }

    /** handleWrite; `results` are the return values of the successive write calls, `retry` whether a failed call is
        EAGAIN. A positive result is the number of bytes taken, at most those offered. */
    method HandleWrite(results: seq<int>, retry: bool) returns (end: WriteEnd)
      requires P.Fifo(Out()) && writer.Idle?
      modifies this`sendBuf, this`writer, this`wire
      ensures P.Fifo(Out()) && writer.Idle? && wire + sendBuf == old(wire + sendBuf)
      ensures |wire| == |old(wire)| + Taken(results, |old(sendBuf)|)
      ensures end.Drained? <==> sendBuf == ""
      ensures !end.Drained? ==> (end.Blocked? <==> retry || forall i :: 0 <= i < |results| ==> results[i] > 0)
    {
      hide P.Flatten;
      var i := 0;
      assert results[0..] == results;
      while sendBuf != ""
        invariant i <= |results| && (forall j :: 0 <= j < i ==> results[j] > 0)
        invariant P.Fifo(Out()) && writer.Idle? && wire + sendBuf == old(wire + sendBuf)
        invariant |wire| + Taken(results[i..], |sendBuf|) == |old(wire)| + Taken(results, |old(sendBuf)|)
        decreases |sendBuf|
      {
        var pending := CopyPending();
        if i == |results| || results[i] <= 0 {
          writer := P.Idle;
          return if i == |results| || retry then Blocked else WriteError;
        }
        var n := if results[i] <= |pending.value| then results[i] else |pending.value|;
        P.WrittenFromFront(wire, sendBuf, pending.value, n);
        Write(n);
        EraseWritten(n);
        assert results[i..][1..] == results[i + 1..];
        i := i + 1;
      }
      return Drained;
    }

    // ---------- Receiving ----------

    /** The first loop of handleRead: what the socket delivers before `end`. */
    method Receive(chunks: seq<string>)
      modifies this`recvBuf
      ensures recvBuf == old(recvBuf) + Concat(chunks)
    {
      var i := 0;
      assert chunks[0..] == chunks;
      while i < |chunks|
        invariant i <= |chunks| && recvBuf + Concat(chunks[i..]) == old(recvBuf) + Concat(chunks)
      {
        assert chunks[i..][1..] == chunks[i + 1..];
        assert recvBuf + (chunks[i] + Concat(chunks[i + 1..])) == recvBuf + chunks[i] + Concat(chunks[i + 1..]);
        recvBuf := recvBuf + chunks[i];
        i := i + 1;
      }
      assert chunks[i..] == [] && recvBuf + "" == recvBuf;
    }

    /** processRequest, as far as it reaches the connection: the stream route starts a stream, every other
        branch appends its response. */
    method ProcessRequest(answer: string, now: int, ghost history: seq<CanFrame>, ghost capacity: nat)
      requires Valid()
      modifies this`sendBuf, this`accepted, this`sseActive, this`sseAfterSequence, this`sseLastHeartbeat, this`stream
      ensures Valid()
      ensures Machine(history) ==
        P.Apply(old(Machine(history)), StepOf(Dispatched(old(req.Fields())), answer), capacity)
    {
      hide P.Append, Query, PathWithoutQuery, ParseUnsigned;
      if req.verb == GET && PathWithoutQuery(req.path) == STREAM_ROUTE {
        var query := ParseQuery(req.path);
        var after := Some(0);
        if AFTER in query {
          after := ParseUnsigned(query[AFTER]);
        }
        if after.Some? {
          StartSse(after.value, now, history, capacity);
          return;
        }
      }
      AppendSendBuf(answer);
    }

    /** One round of the carving loop; false when it leaves the loop. */
    method CarveRound(answer: string, now: int, ghost history: seq<CanFrame>, ghost capacity: nat)
      returns (more: bool)
      requires Valid()
      modifies this`recvBuf, this`req, this`log, req
      modifies this`sendBuf, this`accepted, this`sseActive, this`sseAfterSequence, this`sseLastHeartbeat, this`stream
      ensures Valid() && (req == old(req) || fresh(req))
      ensures more ==> |recvBuf| < |old(recvBuf)| && Carve(Reader()) == Carve(old(Reader()))
      ensures !more ==> Reader() == Carve(old(Reader()))
      ensures |old(log)| <= |log| <= |old(log)| + 1 && log[..|old(log)|] == old(log)
      ensures more ==> |log| == |old(log)| + 1
      ensures Machine(history) ==
        if |log| == |old(log)| then old(Machine(history))
        else P.Apply(old(Machine(history)), StepOf(log[|old(log)|], answer), capacity)
    {
      hide Carve, Malformed, Complete, RequestLength, Parse, P.Append, AddSize, P.Apply, StreamStart;
      hide Find, ContentLength, StepOf;
      CarveStep(Reader());
      var headerEnd := Find(recvBuf, BLANK_LINE);
      if headerEnd.None? { return false; }
      var contentLength := ExtractContentLength(recvBuf);
      var requestLength := AddSize(headerEnd.value + 4, contentLength);
      RequestLengthDef(recvBuf);
      if |recvBuf| < requestLength { return false; }
      var requestText := recvBuf[..requestLength];
      var ok := req.ReadRequest(requestText);
      if !ok {
        Refuse(answer, history, capacity);
        recvBuf := "";
        log := log + [BadRequest];
        return false;
      }
      ghost var dispatched := Dispatched(req.Fields());
      ProcessRequest(answer, now, history, capacity);
      log := log + [dispatched];
      recvBuf := recvBuf[requestLength..];
      req := new HttpRequest();
      return true;
    }

    /** The 400. */
    method Refuse(ghost answer: string, ghost history: seq<CanFrame>, ghost capacity: nat)
      requires Valid()
      modifies this`sendBuf, this`accepted
      ensures Valid() && Machine(history) == P.Apply(old(Machine(history)), StepOf(BadRequest, answer), capacity)
    {
      hide P.Append;
      AppendSendBuf(BAD_REQUEST_RESPONSE);
    }

    /** handleRead; true when it asks the loop to remove the connection. Bytes read in a batch that ends the
        connection are kept in the buffer and never carved. answer(k) is the response to the k-th event of this
        call. */
    method HandleRead(chunks: seq<string>, end: ReadEnd, answer: nat -> string, clock: nat -> int,
                      ghost history: seq<CanFrame>, ghost capacity: nat) returns (removed: bool)
      requires Valid()
      modifies this`recvBuf, this`req, this`log, req
      modifies this`sendBuf, this`accepted, this`sseActive, this`sseAfterSequence, this`sseLastHeartbeat, this`stream
      ensures Valid() && (req == old(req) || fresh(req))
      ensures removed <==> !end.Again?
      ensures removed ==> Reader() == old(Reader()).(buf := old(recvBuf) + Concat(chunks))
      ensures removed ==> Machine(history) == old(Machine(history))
      ensures !removed ==> Reader() == Reassembly.HandleRead(old(Reader()), Concat(chunks))
      ensures !removed ==> |old(log)| <= |log| && log[..|old(log)|] == old(log)
      ensures !removed ==>
        Machine(history) == P.Exec(old(Machine(history)), StepsOf(log[|old(log)|..], answer), capacity)
    {
      hide Carve, Malformed, P.Append, P.Apply, P.Exec, Concat, StepOf, StepsOf;
      Receive(chunks);
      if !end.Again? { return true; }
      ghost var whole, before, first := Reader(), Machine(history), |log|;
      NoSteps(before, answer, capacity);
      assert log[first..] == [];
      var more, round := true, 0;
      while more
        invariant Valid() && (req == old(req) || fresh(req))
        invariant more ==> Carve(Reader()) == Carve(whole)
        invariant !more ==> Reader() == Carve(whole)
        invariant (more ==> |log| == first + round) && first <= |log| && log[..first] == old(log)
        invariant Machine(history) == P.Exec(before, StepsOf(log[first..], answer), capacity)
        decreases more, |recvBuf|
      {
        ghost var done := log;
        more := CarveRound(answer(round), clock(round), history, capacity);
        round := round + 1;
        if |log| > |done| {
          assert log[first..] == done[first..] + [log[|done|]];
          OneMoreStep(before, done[first..], log[|done|], answer, capacity);
        } else {
          assert log == done;
        }
      }
      return false;
    }

    // ---------- The stream ----------

    /** frameToSse. */
    method FrameToSse(frame: CanFrame) returns (text: string)
      requires frame.Valid()
      ensures text == FrameSse(frame)
    {
      var json := FrameToJson(frame);
      text := Line("event", "can_frame") + (Line("id", Digits(frame.sequence, 10)) + (Line("data", json) + "\n"));
    }

    /** pumpSse is the machine's pump without interruption: its query, one step a frame, its end. */
    method PumpSse(store: FrameStore, now: int) returns (appended: bool)
      requires Valid() && store.Valid() && forall i :: 0 <= i < |store.history| ==> store.history[i].Valid()
      modifies this`sendBuf, this`accepted, this`sseOverflow, this`sseAfterSequence, this`sseLastHeartbeat, this`stream
      ensures Valid()
      ensures var n := |P.Queried(old(Machine(store.history)), store.capacity)|;
        Machine(store.history) == P.Exec(old(Machine(store.history)),
          P.WholePump(n, now - old(sseLastHeartbeat) >= HEARTBEAT_SECONDS), store.capacity)
      ensures appended <==> |accepted| > |old(accepted)|
      ensures old(sseActive) && !sseOverflow && now - old(sseLastHeartbeat) >= 10 ==>
        |accepted| > |old(accepted)| && accepted[|accepted| - 1] == HEARTBEAT && sseLastHeartbeat == now
    {
      hide P.Exec, P.Append, P.WholePump, P.PumpTail, P.Fits, Select, Retained, FrameSse, Numbered;
      ghost var before := Machine(store.history);
      ghost var due := now - sseLastHeartbeat >= HEARTBEAT_SECONDS;
      ghost var n := |P.Queried(before, store.capacity)|;
      if !sseActive || sseOverflow {
        P.PumpDisabled(before, n, due, store.capacity);
        return false;
      }
      var frames := store.QueryAfter(sseAfterSequence, None, P.PUMP_LIMIT);
      P.PumpStarts(before, n, due, store.capacity);
      QueriedAreValid(store.history, sseAfterSequence, store.capacity);
      stream := stream.(pumps := stream.pumps + [|store.history|]);
      ghost var evicted := Overwritten(|store.history|, store.capacity);
      var all;
      appended, all := PumpFrames(frames, due, store.history, evicted, store.capacity);
      if all {
        P.PumpStops(During(store.history, [], evicted), due, store.capacity);
        var beat := Beat(now, store.history, evicted, store.capacity);
        appended := beat || appended;
      }
    }

    /** The loop of pumpSse over the frames of its query, left at the first one that meets a full buffer. */
    method PumpFrames(frames: seq<CanFrame>, ghost due: bool, ghost history: seq<CanFrame>, ghost evicted: nat,
                      ghost capacity: nat) returns (appended: bool, all: bool)
      requires Valid() && !sseOverflow && forall i :: 0 <= i < |frames| ==> frames[i].Valid()
      modifies this`sendBuf, this`accepted, this`sseOverflow, this`sseAfterSequence, this`stream
      ensures Valid() && all == !sseOverflow
      ensures P.Exec(old(During(history, frames, evicted)), P.PumpTail(|frames|, due), capacity) ==
        if all then P.Exec(During(history, [], evicted), P.PumpTail(0, due), capacity) else Machine(history)
      ensures |accepted| >= |old(accepted)| && (appended <==> |accepted| > |old(accepted)|)
    {
      hide P.Exec, P.Append, P.PumpTail, P.ApplyFrame, P.Fits, FrameSse;
      appended := false;
      var i := 0;
      assert frames[0..] == frames;
      while i < |frames|
        invariant i <= |frames| && Valid() && !sseOverflow
        invariant P.Exec(old(During(history, frames, evicted)), P.PumpTail(|frames|, due), capacity) ==
          P.Exec(During(history, frames[i..], evicted), P.PumpTail(|frames| - i, due), capacity)
        invariant |accepted| >= |old(accepted)| && (appended <==> |accepted| > |old(accepted)|)
      {
        P.PumpStep(During(history, frames[i..], evicted), |frames| - i, due, capacity);
        assert frames[i..][1..] == frames[i + 1..];
        var ok := PumpFrame(frames[i], history, frames[i..], evicted);
        if !ok {
          P.RestingTail(Machine(history), |frames| - i - 1, due, capacity);
          return appended, false;
        }
        appended := true;
        i := i + 1;
      }
      assert frames[i..] == [];
      all := true;
    }

    /** The heartbeat at the end of pumpSse. */
    method Beat(now: int, ghost history: seq<CanFrame>, ghost evicted: nat, ghost capacity: nat) returns (beat: bool)
      requires Valid()
      modifies this`sendBuf, this`accepted, this`sseOverflow, this`sseLastHeartbeat, this`stream
      ensures Valid() && accepted == old(accepted) + (if beat then [": heartbeat" + "\n" + "\n"] else [])
      ensures var due := now - old(sseLastHeartbeat) >= 10;
        && (beat <==> due && |old(sendBuf)| + |HEARTBEAT| <= 262144)
        && (due && !beat ==> sseOverflow)
        && Machine(history) == P.Apply(old(During(history, [], evicted)), P.PumpEnd(due), capacity)
        && sseLastHeartbeat == if due then now else old(sseLastHeartbeat)
    {
      beat := false;
      if now - sseLastHeartbeat >= HEARTBEAT_SECONDS {
        HeartbeatNotEmpty();
        beat := AppendSsePayload(HEARTBEAT);
        if beat {
          stream := stream.(items := stream.items + [Heartbeat]);
        }
        sseLastHeartbeat := now;
      }
    }

    /** The machine while the pump still has `rest` to append. */
    ghost function During(history: seq<CanFrame>, rest: seq<CanFrame>, evicted: nat): P.State
      reads this
    {
      P.State(history, stream, P.Appending(rest, evicted), Out())
    }

    /** One round of the pump's loop. */
    method PumpFrame(frame: CanFrame, ghost history: seq<CanFrame>, ghost rest: seq<CanFrame>, ghost evicted: nat)
      returns (ok: bool)
      requires Valid() && frame.Valid() && rest != [] && rest[0] == frame && !sseOverflow
      modifies this`sendBuf, this`accepted, this`sseOverflow, this`sseAfterSequence, this`stream
      ensures Valid() && ok == !sseOverflow
      ensures P.ApplyFrame(old(During(history, rest, evicted)), frame) ==
        if ok then During(history, rest[1..], evicted) else Machine(history)
      ensures |accepted| == |old(accepted)| + (if ok then 1 else 0)
    {
      hide FrameSse;
      stream := stream.(
        cursor := Max(stream.cursor, frame.sequence),
        skipped := stream.skipped + map k | k in P.Between(stream.cursor, frame.sequence) :: evicted);
      sseAfterSequence := if sseAfterSequence < frame.sequence then frame.sequence else sseAfterSequence;
      var payload := FrameToSse(frame);
      PayloadNotEmpty(frame);
      ok := AppendSsePayload(payload);
      if ok {
        stream := stream.(items := stream.items + [Frame(frame)]);
      } else {
        stream := stream.(dropped := Some(frame.sequence));
      }
    }
  }

  lemma {:induction false} NoSteps(s: P.State, answer: nat -> string, capacity: nat)
    ensures P.Exec(s, StepsOf([], answer), capacity) == s
  {
  }

  lemma {:induction false} OneMoreStep(s: P.State, events: seq<Reassembly.Event>, e: Reassembly.Event,
      answer: nat -> string, capacity: nat)
    requires P.Exec(s, StepsOf(events, answer), capacity).pump.Resting?
    ensures P.Exec(s, StepsOf(events + [e], answer), capacity) ==
      P.Apply(P.Exec(s, StepsOf(events, answer), capacity), StepOf(e, answer(|events|)), capacity)
  {
    hide P.Exec, P.Apply, StreamStart;
    var before, step := StepsOf(events, answer), StepOf(e, answer(|events|));
    assert StepsOf(events + [e], answer) == before + [step];
    P.ExecConcat(s, before, [step], capacity);
    var s' := P.Exec(s, before, capacity);
    P.ExecStep(s', step, [], capacity);
    assert [step] + [] == [step];
    P.NothingLeft(P.Apply(s', step, capacity), capacity);
  }

  lemma {:induction false} HeartbeatNotEmpty()
    ensures HEARTBEAT != ""
  {
    assert HEARTBEAT[0] == ':';
  }

  lemma {:induction false} PayloadNotEmpty(f: CanFrame)
    requires f.Valid()
    ensures FrameSse(f) != ""
  {
    hide FrameJson, Digits;
    assert Line("event", "can_frame") != "";
  }

  lemma {:induction false} QueriedAreValid(history: seq<CanFrame>, after: nat, capacity: nat)
    requires Numbered(history) && forall i :: 0 <= i < |history| ==> history[i].Valid()
    ensures var r := Select(Retained(history, capacity), after, None, P.PUMP_LIMIT);
      forall k :: 0 <= k < |r| ==> r[k].Valid()
  {
    hide Select;
    UnfilteredIsSlice(history, Overwritten(|history|, capacity), after, P.PUMP_LIMIT);
  }
}
