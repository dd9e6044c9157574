/** A stream from the request to the client: everything is said about the number the client asked for, over
    every run of arrivals, pumps and writes that follows. */
module StreamRequests {
  import opened Wrappers
  import opened Numbers
  import opened CanFrames
  import opened FrameCodec
  import opened FrameStores
  import opened EventStream
  import opened SsePipeline
  import opened SseAccounting
  import opened LossBound
  import opened HttpParsing
  import opened Reassembly
  import opened Pipelining
  import opened Routing
  import opened HttpRoundTrip
  import opened Connections

  // ---------- The start ----------

  lemma {:induction false} StillInactive(s: State, acts: seq<Action>, capacity: nat)
    requires !s.stream.active && s.pump.Resting? && NoStarts(acts)
    ensures Exec(s, acts, capacity).stream == s.stream && Exec(s, acts, capacity).pump.Resting?
    decreases |acts|
  {
    hide Append, WriterApply, WriterEnabled;
    if acts != [] {
      StillInactive(if Enabled(s, acts[0]) then Apply(s, acts[0], capacity) else s, acts[1..], capacity);
    }
  }

  lemma {:induction false} StepKeepsStart(s: State, a: Action, capacity: nat)
    requires Enabled(s, a) && !a.StartSse?
    ensures Apply(s, a, capacity).stream.start == s.stream.start
    ensures Apply(s, a, capacity).stream.active == s.stream.active
  {
    hide Append, WriterApply, WriterEnabled, Select, Retained;
  }

  lemma {:induction false} KeepsStart(s: State, acts: seq<Action>, capacity: nat)
    requires NoStarts(acts)
    ensures Exec(s, acts, capacity).stream.start == s.stream.start
    ensures Exec(s, acts, capacity).stream.active == s.stream.active
    decreases |acts|
  {
    hide Apply, Enabled;
    if acts != [] {
      if Enabled(s, acts[0]) {
        StepKeepsStart(s, acts[0], capacity);
      }
      KeepsStart(if Enabled(s, acts[0]) then Apply(s, acts[0], capacity) else s, acts[1..], capacity);
    }
  }

  /** A stream asked for behind n starts at n, and stays there until another one is asked for. */
  lemma {:induction false} StartsAtRequest(history: seq<CanFrame>, before: seq<Action>, n: nat, behind: seq<Action>,
      capacity: nat)
    requires NoStarts(before) && NoStarts(behind)
    ensures var s := Exec(Fresh(history), before + ([StartSse(n)] + behind), capacity);
      s.stream.active && s.stream.start == n
  {
    hide Exec, Append;
    var s1 := Exec(Fresh(history), before, capacity);
    StillInactive(Fresh(history), before, capacity);
    ExecConcat(Fresh(history), before, [StartSse(n)] + behind, capacity);
    ExecStep(s1, StartSse(n), behind, capacity);
    KeepsStart(Apply(s1, StartSse(n), capacity), behind, capacity);
  }

  // ---------- One answer for every request ----------

  /** What a client of an ordinary connection gets for one carved text. */
  function AnswerText(e: Reassembly.Event, response: string): string {
    if e.BadRequest? then BAD_REQUEST_RESPONSE else if StreamStart(e.request).Some? then PREAMBLE else response
  }

  /** The requests of one batch are answered one by one, in their order: each with its 400, its response, or the
      head of its stream, and nothing else is appended. */
  lemma {:induction false} OneAnswerEach(s: State, events: seq<Reassembly.Event>, answer: nat -> string,
      capacity: nat)
    requires s.pump.Resting? && forall k: nat :: answer(k) != ""
    ensures var s' := Exec(s, StepsOf(events, answer), capacity);
      && s'.pump.Resting? && |s'.out.accepted| == |s.out.accepted| + |events|
      && s'.out.accepted[..|s.out.accepted|] == s.out.accepted
      && forall k :: 0 <= k < |events| ==> s'.out.accepted[|s.out.accepted| + k] == AnswerText(events[k], answer(k))
    decreases |events|
  {
    hide Exec, Apply, StreamStart;
    if events == [] {
      NoSteps(s, answer, capacity);
    } else {
      var n := |events| - 1;
      var s1 := Exec(s, StepsOf(events[..n], answer), capacity);
      OneAnswerEach(s, events[..n], answer, capacity);
      OneMoreStep(s, events[..n], events[n], answer, capacity);
      assert events == events[..n] + [events[n]];
      OneAnswer(s1, events[n], answer(n), capacity);
    }
  }

  lemma {:induction false} OneAnswer(s: State, e: Reassembly.Event, response: string, capacity: nat)
    requires s.pump.Resting? && response != ""
    ensures Enabled(s, StepOf(e, response))
    ensures var s' := Apply(s, StepOf(e, response), capacity);
      s'.pump.Resting? && s'.out.accepted == s.out.accepted + [AnswerText(e, response)]
  {
    hide StreamStart;
    HeaderNotEmpty();
    assert BAD_REQUEST_RESPONSE[0] == 'H';
    assert PREAMBLE[0] == 'H';
  }

  // ---------- What the stream then holds ----------

  /** The frames enqueued are those behind n, in order and unaltered. */
  ghost predicate OnlyBehind(frames: seq<CanFrame>, history: seq<CanFrame>, n: nat) {
    && (forall i, j :: 0 <= i < j < |frames| ==> frames[i].sequence < frames[j].sequence)
    && forall k :: 0 <= k < |frames| ==>
      n < frames[k].sequence <= |history| && frames[k] == history[frames[k].sequence - 1]
  }

  /** Every number from n + 1 to the cursor was enqueued, or evicted before the query that passed it, or is the
      one that met a full buffer; exactly one of these. */
  ghost predicate AllBehind(t: Stream, n: nat, evicted: nat) {
    && n <= t.cursor
    && (forall m :: n < m <= t.cursor ==> Accounted(t, m))
    && (forall m :: m in t.skipped ==> n < m <= t.cursor && m <= t.skipped[m] <= evicted)
    && t.cursor - n == |Frames(t.items)| + |t.skipped| + (if t.dropped.Some? then 1 else 0)
  }

  /** All that was promised to a client that asked for the frames behind n. */
  ghost predicate ServedBehind(s: State, n: nat, capacity: nat) {
    var t := s.stream;
    var frames := Frames(t.items);
    && t.active
    && OnlyBehind(frames, s.history, n)
    && AllBehind(t, n, Overwritten(|s.history|, capacity))
    && (frames != [] ==> exists k: nat :: BeginsAt(frames[0], s.history, capacity, n, t.pumps, k))
    && (!t.overflow && s.pump.Resting? ==> (GapFree(frames, n) <==> WithinBound(Arrivals(n, t.pumps), capacity)))
  }

  /** From a new connection, over every run with one stream request: the stream is the one that was asked for. */
  lemma {:induction false} RequestIsServed(history: seq<CanFrame>, before: seq<Action>, n: nat, behind: seq<Action>,
      capacity: nat)
    requires Numbered(history) && (forall i :: 0 <= i < |history| ==> history[i].Valid()) && capacity > 0
    requires NoStarts(before) && NoStarts(behind)
    ensures ServedBehind(Exec(Fresh(history), before + ([StartSse(n)] + behind), capacity), n, capacity)
  {
    hide Exec, Frames, Accounted, BeginsAt, GapFree, WithinBound, Arrivals;
    var acts := before + ([StartSse(n)] + behind);
    StartsAtRequest(history, before, n, behind, capacity);
    SseConservation(history, acts, capacity);
    StreamIsGapFreeIff(history, acts, capacity);
    var k := StreamBegins(history, acts, capacity);
  }

  // ---------- The request ----------

  /** The one request of the connection, in whatever fragments, is one machine step: a stream behind n. */
  lemma {:induction false} RequestStarts(m: Message, n: nat, batches: seq<string>, answer: nat -> string)
    requires GoodMessage(m) && m.verb == GET && m.path == ResumePath(n) && n < TWO_64
    requires Concat(batches) == StreamOf(PrintAll([m]))
    ensures StepsOf(HandleReads(START, batches).log, answer) == [StartSse(n)]
  {
    hide GoodMessage, Concat, StreamOf, HandleReads, StreamStart, Received;
    MessagesRoundTrip([m], batches);
    assert Answers([m]) == [Dispatched(Received(m))];
    ReceivedAsked(m, n);
    var e := Dispatched(Received(m));
    assert StepOf(e, answer(0)) == StartSse(n);
    assert StepsOf([e], answer)[0] == StepOf(e, answer(0));
  }

  lemma {:induction false} ReceivedAsked(m: Message, n: nat)
    requires m.verb == GET && m.path == ResumePath(n) && n < TWO_64
    ensures StreamStart(Received(m)) == Some(n)
  {
    hide StreamStart;
    ResumesBehind(Received(m), n);
  }

  /** From the bytes of `GET /api/can/stream?after=n`, in any fragments, through arrivals, pumps and writes in
      any order: the connection enqueues exactly what the store still has behind n. */
  lemma {:induction false} ResumedStream(m: Message, n: nat, batches: seq<string>, answer: nat -> string,
      history: seq<CanFrame>, before: seq<Action>, behind: seq<Action>, capacity: nat)
    requires GoodMessage(m) && m.verb == GET && m.path == ResumePath(n) && n < TWO_64
    requires Concat(batches) == StreamOf(PrintAll([m]))
    requires Numbered(history) && (forall i :: 0 <= i < |history| ==> history[i].Valid()) && capacity > 0
    requires NoStarts(before) && NoStarts(behind)
    ensures var steps := StepsOf(HandleReads(START, batches).log, answer);
      ServedBehind(Exec(Fresh(history), before + (steps + behind), capacity), n, capacity)
  {
    hide GoodMessage, Concat, StreamOf, HandleReads, StepsOf, ServedBehind, NoStarts, Exec;
    RequestStarts(m, n, batches, answer);
    RequestIsServed(history, before, n, behind, capacity);
  }

  // ---------- The client ----------

  /** The client's k-th event is a frame behind n: its id reads as the frame's number, and its data is the frame. */
  ghost predicate IsFrameBehind(e: EventStream.Event, frame: CanFrame, n: nat) {
    && frame.Valid() && n < frame.sequence && e.kind == "can_frame" && e.data == FrameJson(frame)
    && (frame.sequence < TWO_64 ==> ParseUnsigned(e.lastId) == Some(frame.sequence))
  }

  /** On a connection that carries nothing else, what the client has read at any moment are the first frames
      enqueued behind the number it asked for. A client that asks again for what lies behind its last event
      misses nothing but what the store has lost. */
  lemma {:induction false} ClientGetsWhatItAsked(history: seq<CanFrame>, before: seq<Action>, n: nat,
      behind: seq<Action>,
      capacity: nat)
    requires Numbered(history) && (forall i :: 0 <= i < |history| ==> history[i].Valid()) && capacity > 0
    requires NoStarts(before) && NoStarts(behind) && NoResponses(before) && NoResponses(behind)
    ensures var s := Exec(Fresh(history), before + ([StartSse(n)] + behind), capacity);
      var frames, events := Frames(s.stream.items), ClientEvents(s);
      && |s.out.sendBuf| <= 262144 && OnlyBehind(frames, s.history, n) && |events| <= |frames|
      && (forall k :: 0 <= k < |events| ==> IsFrameBehind(events[k], frames[k], n))
      && (s.out.sendBuf == "" ==> |events| == |frames|)
  {
    var acts := before + ([StartSse(n)] + behind);
    assert NoResponses(acts) && OneStart(acts) by { OneStartOnly(before, n, behind); }
    RequestIsServed(history, before, n, behind, capacity);
    ClientSeesPrefix(history, acts, capacity);
    hide Exec, Frames, ClientEvents, FrameEvent, NoResponses, OneStart, NoStarts, AllBehind, BeginsAt;
    var s := Exec(Fresh(history), acts, capacity);
    var frames, events := Frames(s.stream.items), ClientEvents(s);
    forall k | 0 <= k < |events| ensures IsFrameBehind(events[k], frames[k], n) {
      EventOfFrame(frames[k], n);
    }
  }

  lemma {:induction false} OneStartOnly(before: seq<Action>, n: nat, behind: seq<Action>)
    requires NoStarts(before) && NoStarts(behind) && NoResponses(before) && NoResponses(behind)
    ensures var acts := before + ([StartSse(n)] + behind); NoResponses(acts) && OneStart(acts)
  {
    var acts := before + ([StartSse(n)] + behind);
    assert forall i :: 0 <= i < |acts| && i != |before| ==>
      acts[i] == if i < |before| then before[i] else behind[i - |before| - 1];
    assert acts[|before|] == StartSse(n);
  }

  lemma {:induction false} EventOfFrame(frame: CanFrame, n: nat)
    requires frame.Valid() && n < frame.sequence
    ensures IsFrameBehind(FrameEvent(frame), frame, n)
  {
    hide FrameJson, ParseUnsigned, Digits;
    if frame.sequence < TWO_64 {
      ParsePrintedDecimal(frame.sequence);
    }
  }
}
