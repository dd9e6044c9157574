/** CanReceiver.cpp: the receive loop that feeds the statistics and the store, and its start/stop lifecycle. */
module Receiver {
  import opened Wrappers
  import opened CanFrames
  import opened CanBus
  import opened FrameStores
  import opened Statistics

  /** One round of the loop, as the kernel answers it: nothing usable (timeout, EINTR, EAGAIN, a short read), an
      error that ends the loop, or a whole kernel frame and the clock. */
  datatype Outcome = Again | Broken | Got(frame: KernelFrame, timestampNs: nat)
  {
    predicate Valid() { Got? ==> |frame.data| == MAX_DATA_LENGTH }
  }

  predicate AllValid(outcomes: seq<Outcome>) {
    forall i :: 0 <= i < |outcomes| ==> outcomes[i].Valid()
  }

  /** The frame of one round, after the discard rules. */
  function Kept(o: Outcome): Option<CanFrame>
    requires o.Valid()
  {
    if o.Got? then Decode(o.frame, o.timestampNs) else None
  }

  /** The frames that reach the store: up to the first error, those that are kept. */
  function Received(outcomes: seq<Outcome>): seq<CanFrame>
    requires AllValid(outcomes)
  {
    if outcomes == [] || outcomes[0].Broken? then []
    else (if Kept(outcomes[0]).Some? then [Kept(outcomes[0]).value] else []) + Received(outcomes[1..])
  }

  /** Frames as the store keeps them, numbered from n + 1. */
  function NumberedFrom(frames: seq<CanFrame>, n: nat): seq<CanFrame> {
    seq(|frames|, i requires 0 <= i < |frames| => frames[i].(sequence := n + i + 1))
  }

  function Records(frames: seq<CanFrame>): seq<Call> {
    seq(|frames|, i requires 0 <= i < |frames| => Record(frames[i]))
  }

  lemma {:induction false} ListsSnoc(frames: seq<CanFrame>, f: CanFrame, n: nat)
    ensures Records(frames + [f]) == Records(frames) + [Record(f)]
    ensures NumberedFrom(frames + [f], n) == NumberedFrom(frames, n) + [f.(sequence := n + |frames| + 1)]
  {
  }

  /** One kept frame: first the statistics, then the store. */
  method Deliver(frame: CanFrame, statistics: CanBusStatistics, store: FrameStore)
    requires statistics.Valid() && store.Valid()
    modifies statistics, store
    ensures statistics.Valid() && store.Valid()
    ensures statistics.calls == old(statistics.calls) + [Record(frame)]
    ensures store.history == old(store.history) + [frame.(sequence := |old(store.history)| + 1)]
  {
    hide FramesOf, Window, PerId, PayloadBytes, SumBits, Retained, Overwritten, Numbered;
    statistics.RecordReceived(frame);
    var number := store.Append(frame);
  }

  /** receiveLoop, from start until it is told to stop or breaks. */
  method ReceiveLoop(outcomes: seq<Outcome>, statistics: CanBusStatistics, store: FrameStore)
    requires AllValid(outcomes) && statistics.Valid() && store.Valid()
    modifies statistics, store
    ensures statistics.Valid() && store.Valid()
    ensures statistics.calls == old(statistics.calls) + Records(Received(outcomes))
    ensures store.history == old(store.history) + NumberedFrom(Received(outcomes), |old(store.history)|)
  {
    hide Received, Decode, Records, NumberedFrom;
    hide FramesOf, Window, PerId, PayloadBytes, SumBits, Retained, Overwritten, Numbered;
    ghost var n := |store.history|;
    var i := 0;
    ghost var done: seq<CanFrame> := [];
    NothingYet(n);
    assert outcomes[0..] == outcomes && done + Received(outcomes) == Received(outcomes);
    while i < |outcomes|
      invariant i <= |outcomes| && statistics.Valid() && store.Valid()
      invariant done + Received(outcomes[i..]) == Received(outcomes)
      invariant statistics.calls == old(statistics.calls) + Records(done)
      invariant store.history == old(store.history) + NumberedFrom(done, n) && |store.history| == n + |done|
    {
      var outcome := outcomes[i];
      ReceivedStep(outcomes[i..], done);
      assert outcomes[i..][1..] == outcomes[i + 1..];
      if outcome.Broken? { return; }
      i := i + 1;
      if outcome.Again? { continue; }
      var frame := DecodeFrame(outcome.frame, outcome.timestampNs);
      if frame.None? { continue; }
      Deliver(frame.value, statistics, store);
      ListsSnoc(done, frame.value, n);
      done := done + [frame.value];
    }
    ReceivedNothing(outcomes[i..]);
    assert done + [] == done;
  }

  lemma {:induction false} NothingYet(n: nat)
    ensures Records([]) == [] && NumberedFrom([], n) == []
  {
  }

  lemma {:induction false} ReceivedStep(outcomes: seq<Outcome>, done: seq<CanFrame>)
    requires outcomes != [] && AllValid(outcomes)
    ensures var o, rest := outcomes[0], outcomes[1..];
      done + Received(outcomes) ==
        if o.Broken? then done
        else if Kept(o).Some? then done + [Kept(o).value] + Received(rest)
        else done + Received(rest)
  {
    hide Kept;
    var o, rest := outcomes[0], outcomes[1..];
    if o.Broken? {
      assert done + [] == done;
    } else if Kept(o).None? {
      assert [] + Received(rest) == Received(rest);
    }
  }

  lemma {:induction false} ReceivedNothing(outcomes: seq<Outcome>)
    requires outcomes == []
    ensures Received(outcomes) == []
  {
  }

  /** Where no error occurs, what is received is what is kept, frame by frame; nothing behind an error is received. */
  lemma {:induction false} ReceivedUpToError(before: seq<Outcome>, behind: seq<Outcome>)
    requires AllValid(before) && AllValid(behind) && forall i :: 0 <= i < |before| ==> !before[i].Broken?
    ensures AllValid(before + behind) && AllValid(before + ([Broken] + behind))
    ensures Received(before + behind) == Received(before) + Received(behind)
    ensures Received(before + ([Broken] + behind)) == Received(before)
    decreases |before|
  {
    hide Kept;
    if before == [] {
      assert before + behind == behind && [] + Received(behind) == Received(behind);
      assert before + ([Broken] + behind) == [Broken] + behind;
    } else {
      var rest := before[1..];
      ReceivedUpToError(rest, behind);
      assert (before + behind)[1..] == rest + behind;
      assert (before + ([Broken] + behind))[1..] == rest + ([Broken] + behind);
      var first := if Kept(before[0]).Some? then [Kept(before[0]).value] else [];
      assert first + (Received(rest) + Received(behind)) == first + Received(rest) + Received(behind);
    }
  }

  lemma {:induction false} KeptIsValid(o: Outcome)
    requires o.Valid()
    ensures Kept(o).Some? ==> Kept(o).value.Valid()
  {
  }

  /** Everything received is a valid frame, the kind the printers and the pipeline require. */
  lemma {:induction false} ReceivedAreValid(outcomes: seq<Outcome>)
    requires AllValid(outcomes)
    ensures forall i :: 0 <= i < |Received(outcomes)| ==> Received(outcomes)[i].Valid()
    decreases |outcomes|
  {
    hide Decode, Kept;
    if outcomes != [] {
      KeptIsValid(outcomes[0]);
      ReceivedAreValid(outcomes[1..]);
    }
  }

  // ---------- Lifecycle, with readers in between ----------

  /** Where the receive thread is: not there, between two rounds, or between recordReceived and append. */
  datatype Thread = Gone | AtTop | InHand(frame: CanFrame)

  /** `running` is the flag of the source; `recorded` and `stored` are what the statistics and the store have seen. */
  datatype State = State(running: bool, thread: Thread, stopping: bool, recorded: seq<CanFrame>, stored: seq<CanFrame>)

  datatype Action = Start | RequestStop | JoinStopped | RecordFrame(frame: CanFrame) | AppendFrame | LeaveLoop

  /** Start and stop exclude each other by the lifecycle mutex; start is refused while the flag is set. */
  predicate Enabled(s: State, a: Action) {
    match a
    case Start => !s.running && !s.stopping
    case RequestStop => !s.stopping
    case JoinStopped => s.stopping && s.thread.Gone?
    case RecordFrame(_) => s.thread.AtTop?
    case AppendFrame => s.thread.InHand?
    case LeaveLoop => s.thread.AtTop?
  }

  function Apply(s: State, a: Action): State
    requires Enabled(s, a)
  {
    match a
    case Start => s.(running := true, thread := AtTop)
    case RequestStop => s.(running := false, stopping := true)
    case JoinStopped => s.(stopping := false)
    case RecordFrame(f) => s.(thread := InHand(f), recorded := s.recorded + [f])
    case AppendFrame => s.(thread := AtTop, stored := s.stored + [s.thread.frame])
    case LeaveLoop => s.(thread := Gone)
  }

  function Exec(s: State, acts: seq<Action>): State
    decreases |acts|
  {
    if acts == [] then s else Exec(if Enabled(s, acts[0]) then Apply(s, acts[0]) else s, acts[1..])
  }

  const IDLE := State(false, Gone, false, [], [])

  /** The statistics have seen what the store has, and the frame in hand. */
  predicate InStep(s: State) {
    && s.recorded == s.stored + (if s.thread.InHand? then [s.thread.frame] else [])
    && (!s.thread.Gone? ==> s.running || s.stopping)
  }

  lemma {:induction false} RunInStep(s: State, acts: seq<Action>)
    requires InStep(s)
    ensures InStep(Exec(s, acts))
    decreases |acts|
  {
    if acts != [] {
      var s' := if Enabled(s, acts[0]) then Apply(s, acts[0]) else s;
      assert s.stored + [] == s.stored && s'.stored + [] == s'.stored;
      RunInStep(s', acts[1..]);
    }
  }

  /** At every moment of every run, whoever reads: there is at most one producer (start never meets a live
      thread), the statistics are ahead of the store by the one frame in hand or not at all, and after stop has
      returned they agree. */
  lemma {:induction false} StatisticsAndStoreInStep(acts: seq<Action>)
    ensures var s := Exec(IDLE, acts);
      && InStep(s) && |s.stored| <= |s.recorded| <= |s.stored| + 1
      && (Enabled(s, Start) ==> s.thread.Gone?)
      && (!s.running && !s.stopping ==> s.recorded == s.stored)
  {
    RunInStep(IDLE, acts);
    hide Exec;
    var s := Exec(IDLE, acts);
    assert s.stored + [] == s.stored;
  }
}
