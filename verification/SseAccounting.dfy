/** What the pipeline does with every sequence number, over all runs. */
module SseAccounting {
  import opened Wrappers
  import opened CanFrames
  import opened FrameStores
  import opened EventStream
  import opened SsePipeline

  function Frames(items: seq<Item>): seq<CanFrame> {
    if items == [] then []
    else (if items[0].Frame? then [items[0].frame] else []) + Frames(items[1..])
  }

  function FrameOf(item: Item): seq<CanFrame> {
    if item.Frame? then [item.frame] else []
  }

  lemma {:induction false} FramesCons(item: Item, rest: seq<Item>)
    ensures Frames([item] + rest) == FrameOf(item) + Frames(rest) && Frames([]) == []
  {
    assert ([item] + rest)[1..] == rest;
  }

  lemma {:induction false} FramesAppend(items: seq<Item>, item: Item)
    ensures Frames(items + [item]) == Frames(items) + FrameOf(item)
  {
    hide Frames, FrameOf;
    FramesCons(item, []);
    if items == [] {
      assert items + [item] == [item] + [] && [] + FrameOf(item) == FrameOf(item) + [] == FrameOf(item);
    } else {
      var first, rest := items[0], items[1..];
      FramesAppend(rest, item);
      FramesCons(first, rest);
      FramesCons(first, rest + [item]);
      assert items == [first] + rest && items + [item] == [first] + (rest + [item]);
      assert FrameOf(first) + (Frames(rest) + FrameOf(item)) == FrameOf(first) + Frames(rest) + FrameOf(item);
    }
  }

  lemma {:induction false} FramesSnoc(items: seq<Item>, item: Item)
    ensures Frames(items + [item]) == Frames(items) + (if item.Frame? then [item.frame] else [])
  {
    hide Frames;
    FramesAppend(items, item);
  }

  /** The frames enqueued so far are unaltered frames of the history, in strictly increasing order, all behind the
      requested start and up to the cursor. */
  ghost predicate EnqueuedInOrder(t: Stream, history: seq<CanFrame>) {
    var frames := Frames(t.items);
    && Increasing(frames)
    && forall k :: 0 <= k < |frames| ==>
      var n := frames[k].sequence;
      t.start < n <= t.cursor && n <= |history| && frames[k] == history[n - 1]
  }

  /** A skipped number had been evicted when the query was made that skipped it. */
  ghost predicate SkippedWereEvicted(t: Stream, evicted: nat) {
    forall n :: n in t.skipped ==> t.start < n <= t.cursor && n <= t.skipped[n] <= evicted
  }

  /** The single dropped frame is the one at the cursor, and the connection has overflowed. */
  ghost predicate DroppedAtCursor(t: Stream) {
    t.dropped.Some? ==> t.overflow && t.dropped.value == t.cursor && t.start < t.cursor
  }

  /** Number `n` was enqueued, skipped or dropped, and only one of these. */
  ghost predicate Accounted(t: Stream, n: nat) {
    if Holds(Frames(t.items), n) then n !in t.skipped && t.dropped != Some(n)
    else (n in t.skipped) != (t.dropped == Some(n))
  }

  ghost predicate AllAccounted(t: Stream) {
    forall n :: t.start < n <= t.cursor ==> Accounted(t, n)
  }

  /** Every number between the start and the cursor is counted once. */
  ghost predicate Conserved(t: Stream) {
    && t.start <= t.cursor
    && t.cursor - t.start == |Frames(t.items)| + |t.skipped| + (if t.dropped.Some? then 1 else 0)
  }

  ghost predicate StreamOk(t: Stream, history: seq<CanFrame>, capacity: nat) {
    && EnqueuedInOrder(t, history) && SkippedWereEvicted(t, Overwritten(|history|, capacity))
    && DroppedAtCursor(t) && AllAccounted(t) && Conserved(t)
  }

  /** The frames a pump still has to append are a slice of the history that starts at the cursor, or behind it
      by frames the store had already lost. */
  ghost predicate PumpOk(s: State, capacity: nat) {
    s.pump.Appending? ==>
      && !s.stream.overflow && s.pump.evicted <= Overwritten(|s.history|, capacity)
      && (s.pump.rest != [] ==>
            var q := s.pump.rest[0].sequence - 1;
            && s.stream.cursor <= q && q + |s.pump.rest| <= |s.history|
            && s.pump.rest == s.history[q..q + |s.pump.rest|]
            && (s.stream.cursor < q ==> q <= s.pump.evicted))
  }

  ghost predicate Inv(s: State, capacity: nat) {
    && Numbered(s.history) && (forall i :: 0 <= i < |s.history| ==> s.history[i].Valid())
    && StreamOk(s.stream, s.history, capacity) && PumpOk(s, capacity)
    && (!s.stream.active ==>
          && s.stream.items == [] && s.stream.skipped == map[] && s.stream.dropped == None && s.stream.pumps == []
          && !s.stream.overflow && s.pump.Resting?)
  }

  lemma {:induction false} StreamOkStays(t: Stream, history: seq<CanFrame>, frame: CanFrame, capacity: nat)
    requires StreamOk(t, history, capacity)
    ensures StreamOk(t, history + [frame], capacity)
  {
    hide Frames, Accounted, Conserved;
    assert Overwritten(|history|, capacity) <= Overwritten(|history + [frame]|, capacity);
  }

  lemma {:induction false} ArriveKeepsPump(s: State, frame: CanFrame, capacity: nat)
    requires PumpOk(s, capacity)
    ensures PumpOk(s.(history := s.history + [frame]), capacity)
  {
    var history' := s.history + [frame];
    assert Overwritten(|s.history|, capacity) <= Overwritten(|history'|, capacity);
    if s.pump.Appending? && s.pump.rest != [] {
      var q := s.pump.rest[0].sequence - 1;
      assert history'[q..q + |s.pump.rest|] == s.history[q..q + |s.pump.rest|];
    }
  }

  lemma {:induction false} ArriveKeeps(s: State, frame: CanFrame, capacity: nat)
    requires Inv(s, capacity) && frame.Valid()
    ensures Inv(Apply(s, Arrive(frame), capacity), capacity)
  {
    var stored := frame.(sequence := |s.history| + 1);
    StreamOkStays(s.stream, s.history, stored, capacity);
    ArriveKeepsPump(s, stored, capacity);
    hide StreamOk, PumpOk;
  }

  lemma {:induction false} StartKeeps(s: State, after: nat, capacity: nat)
    requires Inv(s, capacity) && Enabled(s, StartSse(after))
    ensures Inv(Apply(s, StartSse(after), capacity), capacity)
  {
  }

  lemma {:induction false} PumpBeginKeeps(s: State, capacity: nat)
    requires Inv(s, capacity) && Enabled(s, PumpBegin)
    ensures Inv(Apply(s, PumpBegin, capacity), capacity)
  {
    PumpsDoNotMatter(s.stream, s.stream.pumps + [|s.history|], s.history, capacity);
    QueryIsSlice(s, capacity);
    hide StreamOk, PumpOk, Select, Retained;
  }

  /** The query of a pump is a slice of the history that starts at the cursor, or behind it at the oldest frame
      kept. */
  lemma {:induction false} QueryIsSlice(s: State, capacity: nat)
    requires Numbered(s.history) && Enabled(s, PumpBegin)
    ensures PumpOk(Apply(s, PumpBegin, capacity), capacity)
  {
    hide Select;
    var n, lo, after := |s.history|, Overwritten(|s.history|, capacity), s.stream.cursor;
    UnfilteredIsSlice(s.history, lo, after, PUMP_LIMIT);
    var a, b := SliceStart(lo, after, n), SliceEnd(lo, after, n, PUMP_LIMIT);
    var rest := s.history[a..b];
    if rest != [] {
      assert rest[0] == s.history[a];
      assert rest == s.history[a..a + |rest|];
    }
  }

  lemma {:induction false} PumpsDoNotMatter(t: Stream, pumps: seq<nat>, history: seq<CanFrame>, capacity: nat)
    requires StreamOk(t, history, capacity)
    ensures StreamOk(t.(pumps := pumps), history, capacity)
  {
    hide Frames;
    var t' := t.(pumps := pumps);
    assert forall n :: Accounted(t', n) == Accounted(t, n);
  }

  lemma {:induction false} PumpEndKeeps(s: State, due: bool, capacity: nat)
    requires Inv(s, capacity) && Enabled(s, PumpEnd(due))
    ensures Inv(Apply(s, PumpEnd(due), capacity), capacity)
  {
    FramesSnoc(s.stream.items, Heartbeat);
    hide Frames;
    var t, t' := s.stream, Apply(s, PumpEnd(due), capacity).stream;
    assert Frames(t'.items) == Frames(t.items);
    assert forall n :: Accounted(t', n) == Accounted(t, n);
  }

  /** The cursor moves to the next frame of the slice; the numbers it jumps over are evicted ones. */
  lemma {:induction false} PumpFrameKeeps(s: State, capacity: nat)
    requires Inv(s, capacity) && Enabled(s, PumpFrame)
    ensures Inv(Apply(s, PumpFrame, capacity), capacity)
  {
    hide FrameSse;
    var f := s.pump.rest[0];
    assert f == s.history[f.sequence - 1];
    FramesSnoc(s.stream.items, Frame(f));
    PumpRestShrinks(s, capacity);
    hide Frames, PumpOk;
    var t' := ApplyFrame(s, f).stream;
    assert Frames(s.stream.items) + [] == Frames(s.stream.items);
    CursorMoves(s.stream, t', f, s.pump.evicted, Fits(s.out, FrameSse(f)), s.history, capacity);
    hide StreamOk;
  }

  lemma {:induction false} PumpRestShrinks(s: State, capacity: nat)
    requires Numbered(s.history) && PumpOk(s, capacity) && Enabled(s, PumpFrame)
    ensures PumpOk(ApplyFrame(s, s.pump.rest[0]), capacity)
    ensures s.stream.cursor < s.pump.rest[0].sequence <= |s.history|
    ensures s.pump.rest[0] == s.history[s.pump.rest[0].sequence - 1]
    ensures s.stream.cursor < s.pump.rest[0].sequence - 1 ==> s.pump.rest[0].sequence - 1 <= s.pump.evicted
  {
    hide FrameSse;
    var q := s.pump.rest[0].sequence - 1;
    var s' := ApplyFrame(s, s.pump.rest[0]);
    if s'.pump.Appending? && s'.pump.rest != [] {
      assert s'.pump.rest[0] == s.history[q + 1];
      assert s'.pump.rest == s.history[q + 1..q + 1 + |s'.pump.rest|];
    }
  }

  /** The relation between the stream before and after one round of the pump. */
  ghost predicate Moved(t: Stream, t': Stream, f: CanFrame, evicted: nat, fits: bool) {
    && t'.start == t.start && t'.cursor == f.sequence && t.cursor < f.sequence
    && t'.skipped == t.skipped + (map k | k in Between(t.cursor, f.sequence) :: evicted)
    && Frames(t'.items) == Frames(t.items) + (if fits then [f] else [])
    && t'.dropped == (if fits then None else Some(f.sequence)) && t'.overflow == !fits
  }

  lemma {:induction false} CursorMoves(t: Stream, t': Stream, f: CanFrame, evicted: nat, fits: bool,
      history: seq<CanFrame>, capacity: nat)
    requires StreamOk(t, history, capacity) && !t.overflow && Moved(t, t', f, evicted, fits)
    requires f.sequence <= |history| && f == history[f.sequence - 1]
    requires t.cursor < f.sequence - 1 ==> f.sequence - 1 <= evicted
    requires evicted <= Overwritten(|history|, capacity)
    ensures StreamOk(t', history, capacity)
  {
    MovedConserves(t, t', f, evicted, fits);
    MovedInOrder(t, t', f, evicted, fits, history);
    MovedAccounts(t, t', f, evicted, fits, Overwritten(|history|, capacity));
    MovedSkips(t, t', f, evicted, fits, Overwritten(|history|, capacity));
    hide Frames, AllAccounted, Conserved, EnqueuedInOrder, SkippedWereEvicted, Overwritten;
  }

  lemma {:induction false} MovedSkips(t: Stream, t': Stream, f: CanFrame, evicted: nat, fits: bool, lost: nat)
    requires SkippedWereEvicted(t, lost) && Conserved(t) && Moved(t, t', f, evicted, fits)
    requires evicted <= lost && (t.cursor < f.sequence - 1 ==> f.sequence - 1 <= evicted)
    ensures SkippedWereEvicted(t', lost)
  {
    hide Frames;
  }

  lemma {:induction false} MovedInOrder(t: Stream, t': Stream, f: CanFrame, evicted: nat, fits: bool,
      history: seq<CanFrame>)
    requires EnqueuedInOrder(t, history) && Moved(t, t', f, evicted, fits)
    requires f.sequence <= |history| && f == history[f.sequence - 1] && t.start <= t.cursor
    ensures EnqueuedInOrder(t', history)
  {
    hide Frames;
  }

  lemma {:induction false} MovedConserves(t: Stream, t': Stream, f: CanFrame, evicted: nat, fits: bool)
    requires Conserved(t) && DroppedAtCursor(t) && !t.overflow && Moved(t, t', f, evicted, fits)
    requires forall n :: n in t.skipped ==> n <= t.cursor
    ensures Conserved(t')
  {
    hide Frames;
    assert t'.skipped.Keys == t.skipped.Keys + Between(t.cursor, f.sequence);
    assert t.skipped.Keys !! Between(t.cursor, f.sequence);
    assert |t'.skipped| == |t'.skipped.Keys| && |t.skipped| == |t.skipped.Keys|;
  }

  lemma {:induction false} MovedAccounts(t: Stream, t': Stream, f: CanFrame, evicted: nat, fits: bool, lost: nat)
    requires AllAccounted(t) && DroppedAtCursor(t) && !t.overflow && Moved(t, t', f, evicted, fits)
    requires SkippedWereEvicted(t, lost)
    requires forall k :: 0 <= k < |Frames(t.items)| ==> Frames(t.items)[k].sequence <= t.cursor
    ensures AllAccounted(t')
  {
    forall n | t'.start < n <= t'.cursor ensures Accounted(t', n) {
      MovedAccountsFor(t, t', f, evicted, fits, n);
    }
  }

  lemma {:induction false} MovedAccountsFor(t: Stream, t': Stream, f: CanFrame, evicted: nat, fits: bool, n: nat)
    requires t.dropped == None && Moved(t, t', f, evicted, fits)
    requires n <= t.cursor ==> Accounted(t, n)
    requires n <= t'.cursor && forall k :: k in t.skipped ==> k <= t.cursor
    requires forall k :: 0 <= k < |Frames(t.items)| ==> Frames(t.items)[k].sequence <= t.cursor
    ensures Accounted(t', n)
  {
    hide Frames;
    HoldsSnoc(Frames(t.items), f, n);
    assert Frames(t.items) + [] == Frames(t.items);
    hide Holds;
    if n <= t.cursor {
      assert Accounted(t, n);
    } else {
      assert !Holds(Frames(t.items), n) by { NotHeld(Frames(t.items), n); }
    }
  }

  lemma {:induction false} NotHeld(frames: seq<CanFrame>, n: nat)
    requires forall k :: 0 <= k < |frames| ==> frames[k].sequence < n
    ensures !Holds(frames, n)
  {
  }

  lemma {:induction false} HoldsSnoc(frames: seq<CanFrame>, f: CanFrame, n: nat)
    ensures Holds(frames + [f], n) <==> Holds(frames, n) || n == f.sequence
  {
    if Holds(frames, n) {
      var k :| 0 <= k < |frames| && frames[k].sequence == n;
      assert (frames + [f])[k].sequence == n;
    }
    assert (frames + [f])[|frames|] == f;
  }

  lemma {:induction false} StepKeeps(s: State, a: Action, capacity: nat)
    requires Inv(s, capacity) && Enabled(s, a)
    ensures Inv(Apply(s, a, capacity), capacity)
  {
    hide Inv, Enabled, Apply;
    match a
    case Arrive(frame) => ArriveOnly(s, frame, capacity);
    case StartSse(after) => StartKeeps(s, after, capacity);
    case PumpBegin => PumpBeginKeeps(s, capacity);
    case PumpFrame => PumpFrameKeeps(s, capacity);
    case PumpEnd(due) => PumpEndKeeps(s, due, capacity);
    case _ => SendingKeeps(s, a, capacity);
  }

  lemma {:induction false} ArriveOnly(s: State, frame: CanFrame, capacity: nat)
    requires Inv(s, capacity) && Enabled(s, Arrive(frame))
    ensures Inv(Apply(s, Arrive(frame), capacity), capacity)
  {
    hide Inv, Apply;
    ArriveKeeps(s, frame, capacity);
  }

  lemma {:induction false} SendingKeeps(s: State, a: Action, capacity: nat)
    requires Inv(s, capacity) && Enabled(s, a) && (a.Respond? || a.WriterDoes?)
    ensures Inv(Apply(s, a, capacity), capacity)
  {
    hide StreamOk, Append, WriterApply, WriterEnabled;
  }

  lemma {:induction false} RunKeeps(s: State, acts: seq<Action>, capacity: nat)
    requires Inv(s, capacity)
    ensures Inv(Exec(s, acts, capacity), capacity)
    decreases |acts|
  {
    hide Inv, Apply, Enabled;
    if acts != [] {
      if Enabled(s, acts[0]) {
        StepKeeps(s, acts[0], capacity);
      }
      RunKeeps(if Enabled(s, acts[0]) then Apply(s, acts[0], capacity) else s, acts[1..], capacity);
    }
  }

  lemma {:induction false} FreshIsOk(history: seq<CanFrame>, capacity: nat)
    requires Numbered(history) && forall i :: 0 <= i < |history| ==> history[i].Valid()
    ensures Inv(Fresh(history), capacity)
  {
  }

  lemma {:induction false} SkippedAtMostEvicted(t: Stream, evicted: nat)
    requires SkippedWereEvicted(t, evicted)
    ensures |t.skipped| <= evicted
  {
    SubsetSize(t.skipped.Keys, Between(0, evicted + 1));
    assert |t.skipped| == |t.skipped.Keys|;
  }

  lemma {:induction false} SubsetSize(a: set<nat>, b: set<nat>)
    requires a <= b
    ensures |a| <= |b|
  {
    if a != {} {
      var x :| x in a;
      SubsetSize(a - {x}, b - {x});
    }
  }

  /** Over all runs of arrivals, pumps, responses and partial writes: every number between the requested start and the
      cursor was enqueued, evicted from the store before the query that passed it, or is the one frame at the cursor
      that met a full buffer; each exactly once, so that the counts add up. */
  lemma {:induction false} SseConservation(history: seq<CanFrame>, acts: seq<Action>, capacity: nat)
    requires Numbered(history) && forall i :: 0 <= i < |history| ==> history[i].Valid()
    ensures var s := Exec(Fresh(history), acts, capacity);
      && EnqueuedInOrder(s.stream, s.history)
      && SkippedWereEvicted(s.stream, Overwritten(|s.history|, capacity))
      && |s.stream.skipped| <= Overwritten(|s.history|, capacity)
      && DroppedAtCursor(s.stream) && AllAccounted(s.stream) && Conserved(s.stream)
  {
    hide Exec, Frames, AllAccounted;
    FreshIsOk(history, capacity);
    RunKeeps(Fresh(history), acts, capacity);
    var s := Exec(Fresh(history), acts, capacity);
    SkippedAtMostEvicted(s.stream, Overwritten(|s.history|, capacity));
  }

  // ---------- A pump does its work ----------

  lemma {:induction false} TailDelivers(s: State, due: bool, capacity: nat)
    requires s.pump.Appending? && !s.stream.overflow && forall i :: 0 <= i < |s.pump.rest| ==> s.pump.rest[i].Valid()
    ensures var s' := Exec(s, PumpTail(|s.pump.rest|, due), capacity);
      && s'.pump.Resting? && s'.stream.pumps == s.stream.pumps
      && (s'.stream.overflow || Frames(s'.stream.items) == Frames(s.stream.items) + s.pump.rest)
    decreases |s.pump.rest|
  {
    hide Exec, Frames, FrameSse, Append, Fits, PumpTail;
    var frames, rest := Frames(s.stream.items), s.pump.rest;
    if rest == [] {
      PumpStops(s, due, capacity);
      FramesSnoc(s.stream.items, Heartbeat);
      assert frames + [] == frames;
    } else {
      PumpStep(s, |rest|, due, capacity);
      var s1 := ApplyFrame(s, rest[0]);
      FramesSnoc(s.stream.items, Frame(rest[0]));
      if s1.pump.Resting? {
        RestingTail(s1, |rest| - 1, due, capacity);
      } else {
        TailDelivers(s1, due, capacity);
        assert frames + [rest[0]] + rest[1..] == frames + rest;
      }
    }
  }

  /** A pump of an active stream that nobody interrupts enqueues every frame its query returned, in order,
      unless the buffer overflows. */
  lemma {:induction false} PumpDelivers(s: State, due: bool, capacity: nat)
    requires s.stream.active && !s.stream.overflow && s.pump.Resting?
    requires Numbered(s.history) && forall i :: 0 <= i < |s.history| ==> s.history[i].Valid()
    ensures var r := Select(Retained(s.history, capacity), s.stream.cursor, None, PUMP_LIMIT);
      var t := Exec(s, WholePump(|r|, due), capacity).stream;
      t.pumps == s.stream.pumps + [|s.history|] && (t.overflow || Frames(t.items) == Frames(s.stream.items) + r)
  {
    var r := Select(Retained(s.history, capacity), s.stream.cursor, None, PUMP_LIMIT);
    SelectedAreValid(s.history, s.stream.cursor, capacity, r);
    hide Exec, Frames, WholePump, PumpTail;
    PumpStarts(s, |r|, due, capacity);
    var s1 := Apply(s, PumpBegin, capacity);
    assert s1.pump.rest == r;
    TailDelivers(s1, due, capacity);
  }

  lemma {:induction false} SelectedAreValid(history: seq<CanFrame>, after: nat, capacity: nat, r: seq<CanFrame>)
    requires Numbered(history) && forall i :: 0 <= i < |history| ==> history[i].Valid()
    requires r == Select(Retained(history, capacity), after, None, PUMP_LIMIT)
    ensures forall k :: 0 <= k < |r| ==> r[k].Valid()
  {
    hide Select;
    UnfilteredIsSlice(history, Overwritten(|history|, capacity), after, PUMP_LIMIT);
  }

  /** Once the overflow flag is set nothing is enqueued any more: the stream stays as it is, cursor and all, until the
      client starts another one, and that one stays empty. */
  lemma {:induction false} OverflowIsFinal(s: State, acts: seq<Action>, capacity: nat)
    requires s.stream.overflow && s.stream.active && s.pump.Resting?
    ensures var t := Exec(s, acts, capacity).stream;
      && (t == s.stream || t == Stream(true, t.start, t.start, true, [], map[], None, []))
      && (NoStarts(acts) ==> t == s.stream)
    decreases |acts|
  {
    if acts != [] {
      var s' := if Enabled(s, acts[0]) then Apply(s, acts[0], capacity) else s;
      OverflowIsFinal(s', acts[1..], capacity);
    }
  }

  ghost predicate NoStarts(acts: seq<Action>) {
    forall i :: 0 <= i < |acts| ==> !acts[i].StartSse?
  }

  // ---------- A connection that carries nothing but the stream ----------

  ghost predicate NoResponses(acts: seq<Action>) {
    forall i :: 0 <= i < |acts| ==> !acts[i].Respond?
  }

  ghost predicate OneStart(acts: seq<Action>) {
    forall i, j :: 0 <= i < j < |acts| ==> !(acts[i].StartSse? && acts[j].StartSse?)
  }

  /** All that was ever appended is the preamble and the items, and the buffer never outgrew its limit. */
  ghost predicate OnlyStream(s: State) {
    && AllValid(s.stream.items) && |s.out.sendBuf| <= MAX_PENDING
    && (!s.stream.active ==> s.out == Output("", Idle, "", []) && s.stream.items == [] && s.pump.Resting?)
    && (s.stream.active ==> Flatten(s.out.accepted) == PREAMBLE + StreamText(s.stream.items))
  }

  lemma {:induction false} StreamTextSnoc(items: seq<Item>, item: Item)
    requires AllValid(items) && item.Valid()
    ensures AllValid(items + [item]) && StreamText(items + [item]) == StreamText(items) + item.Bytes()
  {
    hide FrameSse;
    if items == [] {
      assert items + [item] == [item];
    } else {
      assert (items + [item])[1..] == items[1..] + [item];
      StreamTextSnoc(items[1..], item);
    }
  }

  lemma {:induction false} PreambleIsShort()
    ensures PREAMBLE != "" && |PREAMBLE| <= MAX_PENDING
  {
  }

  lemma {:induction false} PayloadAppended(o: Output, items: seq<Item>, item: Item)
    requires AllValid(items) && item.Valid() && Flatten(o.accepted) == PREAMBLE + StreamText(items)
    requires Fits(o, item.Bytes())
    ensures AllValid(items + [item]) && |Append(o, item.Bytes()).sendBuf| <= MAX_PENDING
    ensures Flatten(Append(o, item.Bytes()).accepted) == PREAMBLE + StreamText(items + [item])
  {
    hide FrameSse, StreamText;
    StreamTextSnoc(items, item);
    FlattenSnoc(o.accepted, item.Bytes());
    hide Flatten;
    var all, bytes := StreamText(items), item.Bytes();
    assert PREAMBLE + all + bytes == PREAMBLE + (all + bytes);
    if bytes == "" {
      assert all + bytes == all;
    }
  }

  lemma {:induction false} StepOnlyStream(s: State, a: Action, capacity: nat)
    requires OnlyStream(s) && Enabled(s, a) && !a.Respond? && (a.StartSse? ==> !s.stream.active)
    ensures OnlyStream(Apply(s, a, capacity))
  {
    hide StreamText, FrameSse, Flatten;
    match a
    case StartSse(_) => StartOnlyStream(s, a, capacity);
    case PumpFrame =>
      if s.stream.active && Fits(s.out, FrameSse(s.pump.rest[0])) {
        PayloadAppended(s.out, s.stream.items, Frame(s.pump.rest[0]));
      }
    case PumpEnd(_) =>
      if s.stream.active && Fits(s.out, HEARTBEAT) {
        PayloadAppended(s.out, s.stream.items, Heartbeat);
      }
    case _ =>
  }

  lemma {:induction false} StartOnlyStream(s: State, a: Action, capacity: nat)
    requires OnlyStream(s) && Enabled(s, a) && a.StartSse? && !s.stream.active
    ensures OnlyStream(Apply(s, a, capacity))
  {
    PreambleIsShort();
    hide Append;
    assert Append(s.out, PREAMBLE).accepted == [PREAMBLE] by { AppendToEmpty(PREAMBLE); }
    assert Append(s.out, PREAMBLE).sendBuf == PREAMBLE by { AppendToEmpty(PREAMBLE); }
    assert Flatten([PREAMBLE]) == PREAMBLE + "";
    assert StreamText([]) == "";
  }

  lemma {:induction false} AppendToEmpty(text: string)
    requires text != ""
    ensures Append(Output("", Idle, "", []), text) == Output(text, Idle, "", [text])
  {
  }

  lemma {:induction false} RunOnlyStream(s: State, acts: seq<Action>, capacity: nat)
    requires OnlyStream(s) && Fifo(s.out) && NoResponses(acts)
    requires OneStart(acts) && (s.stream.active ==> NoStarts(acts))
    ensures OnlyStream(Exec(s, acts, capacity)) && Fifo(Exec(s, acts, capacity).out)
    decreases |acts|
  {
    hide OnlyStream, Fifo, Apply;
    if acts != [] {
      if Enabled(s, acts[0]) {
        StepOnlyStream(s, acts[0], capacity);
        StepKeepsFifo(s, acts[0], capacity);
        StartsOnce(s, acts, capacity);
      }
      RunOnlyStream(if Enabled(s, acts[0]) then Apply(s, acts[0], capacity) else s, acts[1..], capacity);
    }
  }

  lemma {:induction false} StartsOnce(s: State, acts: seq<Action>, capacity: nat)
    requires acts != [] && OneStart(acts) && (s.stream.active ==> NoStarts(acts)) && Enabled(s, acts[0])
    ensures Apply(s, acts[0], capacity).stream.active ==> NoStarts(acts[1..])
  {
    hide Append, Select, Retained;
    if acts[0].StartSse? {
      assert forall j :: 0 < j < |acts| ==> !acts[j].StartSse?;
    }
  }

  lemma {:induction false} EventsAreFrames(items: seq<Item>)
    requires AllValid(items)
    ensures |Events(items)| == |Frames(items)|
    ensures forall k :: 0 <= k < |Frames(items)| ==>
      Frames(items)[k].Valid() && Events(items)[k] == FrameEvent(Frames(items)[k])
  {
    hide FrameEvent;
    if items != [] {
      EventsAreFrames(items[1..]);
    }
  }

  /** What the client has read so far: the bytes behind the response header. */
  function ClientEvents(s: State): seq<Event> {
    if |s.out.wire| < |HEADER| then [] else Read(FRESH_READER, s.out.wire[|HEADER|..]).events
  }

  /** In every run that carries only the stream, the buffer stays within its limit, and at every moment the client has
      read a prefix of the enqueued frames: unaltered frames of the history with strictly increasing numbers. When
      the buffer is empty it has read all of them. */
  lemma {:induction false} ClientSeesPrefix(history: seq<CanFrame>, acts: seq<Action>, capacity: nat)
    requires Numbered(history) && forall i :: 0 <= i < |history| ==> history[i].Valid()
    requires NoResponses(acts) && OneStart(acts)
    ensures var s := Exec(Fresh(history), acts, capacity);
      && |s.out.sendBuf| <= MAX_PENDING
      && EnqueuedInOrder(s.stream, s.history)
      && |ClientEvents(s)| <= |Frames(s.stream.items)|
      && (forall k :: 0 <= k < |ClientEvents(s)| ==>
            Frames(s.stream.items)[k].Valid() && ClientEvents(s)[k] == FrameEvent(Frames(s.stream.items)[k]))
      && (s.stream.active && s.out.sendBuf == "" ==> |ClientEvents(s)| == |Frames(s.stream.items)|)
  {
    var first, s := Fresh(history), Exec(Fresh(history), acts, capacity);
    assert OnlyStream(first) && Fifo(first.out);
    RunOnlyStream(first, acts, capacity);
    SseConservation(history, acts, capacity);
    hide Exec;
    EventsAreFrames(s.stream.items);
    WireDecodes(s);
    hide EnqueuedInOrder, OnlyStream, Fifo, ClientEvents, Frames, Events;
  }

  lemma {:induction false} HeaderNotEmpty()
    ensures HEADER != "" && PREAMBLE == HEADER + CONNECTED
  {
    assert HEADER[0] == 'H';
  }

  lemma {:induction false} BehindHead(head: string, rest: string, written: string, waiting: string)
    requires head + rest == written + waiting && |written| >= |head|
    ensures written[|head|..] + waiting == rest
  {
    assert (head + rest)[|head|..] == rest;
    assert (written + waiting)[|head|..] == written[|head|..] + waiting;
  }

  lemma {:induction false} WireSplits(s: State)
    requires OnlyStream(s) && Fifo(s.out) && s.stream.active
    ensures var body := CONNECTED + StreamText(s.stream.items);
      && HEADER + body == s.out.wire + Unwritten(s.out)
      && (|s.out.wire| >= |HEADER| ==> s.out.wire[|HEADER|..] <= body)
      && (s.out.sendBuf == "" ==> |s.out.wire| >= |HEADER| && s.out.wire[|HEADER|..] == body)
  {
    hide Flatten, StreamText;
    HeaderNotEmpty();
    var text := StreamText(s.stream.items);
    var body := CONNECTED + text;
    assert (HEADER + CONNECTED) + text == HEADER + body;
    assert s.out.sendBuf == "" ==> Unwritten(s.out) == "";
    if |s.out.wire| >= |HEADER| {
      BehindHead(HEADER, body, s.out.wire, Unwritten(s.out));
    }
  }

  lemma {:induction false} WireDecodes(s: State)
    requires OnlyStream(s) && Fifo(s.out)
    ensures ClientEvents(s) <= Events(s.stream.items)
    ensures s.stream.active && s.out.sendBuf == "" ==> ClientEvents(s) == Events(s.stream.items)
  {
    hide Flatten, StreamText, Events, Read;
    HeaderNotEmpty();
    var items, wire, waiting := s.stream.items, s.out.wire, Unwritten(s.out);
    if s.stream.active {
      WireSplits(s);
      hide OnlyStream, Fifo, Unwritten;
      if |wire| >= |HEADER| {
        var body := wire[|HEADER|..];
        StreamPrefixDecodes(items, body);
        if s.out.sendBuf == "" {
          StreamDecodes(items);
        }
      }
    }
  }
}
