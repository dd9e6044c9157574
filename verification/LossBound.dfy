/** Exactly when a stream loses frames: the store is a queue of `capacity` frames, drained by PUMP_LIMIT frames
    a pump. */
module LossBound {
  import opened Wrappers
  import opened CanFrames
  import opened FrameStores
  import opened EventStream
  import opened SsePipeline
  import opened SseAccounting

  /** The frames of a sequence of pumps; pump i sees the first cuts[i] frames of the history. The cursor is the
      last number delivered, as in pumpSse. */
  function Delivered(history: seq<CanFrame>, capacity: nat, start: nat, cuts: seq<nat>): seq<CanFrame>
    requires forall i :: 0 <= i < |cuts| ==> cuts[i] <= |history|
  {
    if cuts == [] then []
    else
      var done := Delivered(history, capacity, start, cuts[..|cuts| - 1]);
      var seen := history[..cuts[|cuts| - 1]];
      done + Select(Retained(seen, capacity), Last(done, start), None, PUMP_LIMIT)
  }

  /** start + 1, start + 2, ... without a hole. */
  predicate GapFree(frames: seq<CanFrame>, start: nat) {
    forall k :: 0 <= k < |frames| ==> frames[k].sequence == start + 1 + k
  }

  /** Frames behind `start` among the first n. */
  function Wanted(start: nat, n: nat): nat {
    if n > start then n - start else 0
  }

  /** a_i: the wanted frames that arrive between pump i - 1 and pump i; the backlog at the start counts for pump 0. */
  function Arrivals(start: nat, cuts: seq<nat>): (a: seq<int>)
    ensures |a| == |cuts|
  {
    seq(|cuts|, i requires 0 <= i < |cuts| =>
      Wanted(start, cuts[i]) - (if i == 0 then 0 else Wanted(start, cuts[i - 1])))
  }

  function Sum(a: seq<int>): int {
    if a == [] then 0 else Sum(a[..|a| - 1]) + a[|a| - 1]
  }

  /** The frames that arrive for pumps j..k. */
  function WindowSum(a: seq<int>, j: nat, k: nat): int
    requires j <= k < |a|
  {
    Sum(a[j..k + 1])
  }

  /** Every run of consecutive pumps j..k gets at most capacity + PUMP_LIMIT * (k - j) frames. */
  predicate WithinBound(a: seq<int>, capacity: nat) {
    forall j, k :: 0 <= j <= k < |a| ==> WindowSum(a, j, k) <= capacity + 100 * (k - j)
  }

  predicate Ascending(cuts: seq<nat>) {
    forall i, j :: 0 <= i < j < |cuts| ==> cuts[i] <= cuts[j]
  }

  // ---------- The queue ----------

  /** W: the wanted totals at each pump. Level(W, k): how many a loss-free stream has delivered before pump k. */
  function Level(w: seq<nat>, k: nat): nat
    requires k <= |w|
  {
    if k == 0 then 0 else Min(w[k - 1], Level(w, k - 1) + PUMP_LIMIT)
  }

  function Before(w: seq<nat>, j: nat): nat
    requires j <= |w|
  {
    if j == 0 then 0 else w[j - 1]
  }

  lemma {:induction false} LevelBelow(w: seq<nat>, j: nat, k: nat)
    requires j <= k <= |w|
    ensures Level(w, k) <= Before(w, j) + PUMP_LIMIT * (k - j)
    decreases k - j
  {
    if j < k {
      LevelBelow(w, j, k - 1);
    }
  }

  lemma {:induction false} LevelAttained(w: seq<nat>, k: nat) returns (j: nat)
    requires k <= |w|
    ensures j <= k && Level(w, k) == Before(w, j) + PUMP_LIMIT * (k - j)
    decreases k
  {
    if k == 0 || w[k - 1] <= Level(w, k - 1) + PUMP_LIMIT {
      j := k;
    } else {
      j := LevelAttained(w, k - 1);
    }
  }

  predicate NeverOver(w: seq<nat>, capacity: nat) {
    forall k :: 0 <= k < |w| ==> w[k] - Level(w, k) <= capacity
  }

  predicate PairBound(w: seq<nat>, capacity: nat) {
    forall j, k :: 0 <= j <= k < |w| ==> w[k] - Before(w, j) <= capacity + PUMP_LIMIT * (k - j)
  }

  lemma {:induction false} LevelBound(w: seq<nat>, capacity: nat)
    ensures NeverOver(w, capacity) <==> PairBound(w, capacity)
  {
    hide Level, Before;
    if NeverOver(w, capacity) {
      forall j, k | 0 <= j <= k < |w| ensures w[k] - Before(w, j) <= capacity + PUMP_LIMIT * (k - j) {
        LevelBelow(w, j, k);
      }
    }
    if PairBound(w, capacity) {
      forall k | 0 <= k < |w| ensures w[k] - Level(w, k) <= capacity {
        var j := LevelAttained(w, k);
      }
    }
  }

  // ---------- Pumps against the queue ----------

  function Totals(start: nat, cuts: seq<nat>): (w: seq<nat>)
    ensures |w| == |cuts|
  {
    seq(|cuts|, i requires 0 <= i < |cuts| => Wanted(start, cuts[i]))
  }

  /** One pump, the stream being gap-free so far with d frames delivered. */
  lemma {:induction false} OnePump(seen: seq<CanFrame>, capacity: nat, start: nat, d: nat)
    requires Numbered(seen) && capacity > 0 && d <= Wanted(start, |seen|)
    ensures var r := Select(Retained(seen, capacity), start + d, None, PUMP_LIMIT);
      && (GapFree(r, start + d) <==> Wanted(start, |seen|) - d <= capacity)
      && (GapFree(r, start + d) ==> |r| == Min(Wanted(start, |seen|), d + PUMP_LIMIT) - d)
  {
    hide Select, GapFree;
    var n, after := |seen|, start + d;
    var lo := Overwritten(n, capacity);
    UnfilteredIsSlice(seen, lo, after, PUMP_LIMIT);
    SliceIsGapFree(seen, SliceStart(lo, after, n), SliceEnd(lo, after, n, PUMP_LIMIT), after);
  }

  lemma {:induction false} SliceIsGapFree(seen: seq<CanFrame>, a: nat, b: nat, after: nat)
    requires Numbered(seen) && a <= b <= |seen|
    ensures GapFree(seen[a..b], after) <==> a == b || a == after
  {
    var r := seen[a..b];
    assert forall k :: 0 <= k < |r| ==> r[k].sequence == a + 1 + k;
    if r != [] {
      assert r[0].sequence == a + 1;
    }
  }

  lemma {:induction false} LastOfGapFree(frames: seq<CanFrame>, start: nat)
    requires GapFree(frames, start)
    ensures Last(frames, start) == start + |frames|
  {
  }

  lemma {:induction false} GapFreeConcat(a: seq<CanFrame>, b: seq<CanFrame>, start: nat)
    ensures GapFree(a + b, start) <==> GapFree(a, start) && GapFree(b, start + |a|)
  {
    var c := a + b;
    if GapFree(c, start) {
      assert forall k :: 0 <= k < |a| ==> a[k] == c[k];
      assert forall k :: 0 <= k < |b| ==> b[k] == c[|a| + k];
    }
  }

  lemma {:induction false} NeverOverSnoc(w: seq<nat>, capacity: nat)
    requires w != []
    ensures var m := |w| - 1; NeverOver(w, capacity) <==> NeverOver(w[..m], capacity) && w[m] - Level(w, m) <= capacity
  {
    hide Level;
    var m := |w| - 1;
    var before := w[..m];
    forall k | 0 <= k < m ensures before[k] - Level(before, k) == w[k] - Level(w, k) {
      LevelPrefix(w, m, k);
    }
  }

  /** The induction step: one more pump. */
  lemma {:induction false} LastPump(done: seq<CanFrame>, seen: seq<CanFrame>, capacity: nat, start: nat, w: seq<nat>)
    requires Numbered(seen) && capacity > 0 && w != [] && w[|w| - 1] == Wanted(start, |seen|)
    requires Before(w, |w| - 1) <= w[|w| - 1]
    requires GapFree(done, start) <==> NeverOver(w[..|w| - 1], capacity)
    requires NeverOver(w[..|w| - 1], capacity) ==> |done| == Level(w, |w| - 1)
    ensures var all := done + Select(Retained(seen, capacity), Last(done, start), None, PUMP_LIMIT);
      && (GapFree(all, start) <==> NeverOver(w, capacity))
      && (NeverOver(w, capacity) ==> |all| == Level(w, |w|))
  {
    hide GapFree, NeverOver, Select, Retained, Level, Wanted, Numbered;
    var m := |w| - 1;
    var r := Select(Retained(seen, capacity), Last(done, start), None, PUMP_LIMIT);
    NeverOverSnoc(w, capacity);
    GapFreeConcat(done, r, start);
    if GapFree(done, start) {
      LevelBelow(w, m, m);
      LastOfGapFree(done, start);
      hide Last, Before;
      OnePump(seen, capacity, start, |done|);
      LevelStep(w, m);
    }
  }

  lemma {:induction false} LevelStep(w: seq<nat>, m: nat)
    requires m < |w|
    ensures Level(w, m + 1) == Min(w[m], Level(w, m) + PUMP_LIMIT)
  {
  }

  lemma {:induction false} TotalsPrefix(start: nat, cuts: seq<nat>, m: nat)
    requires m <= |cuts|
    ensures Totals(start, cuts[..m]) == Totals(start, cuts)[..m]
  {
    hide Wanted;
  }

  lemma {:induction false} TotalsAscend(start: nat, cuts: seq<nat>)
    requires Ascending(cuts) && cuts != []
    ensures var w := Totals(start, cuts); Before(w, |w| - 1) <= w[|w| - 1]
  {
  }

  lemma {:induction false} GapFreeIffNeverOver(history: seq<CanFrame>, capacity: nat, start: nat, cuts: seq<nat>)
    requires Numbered(history) && capacity > 0 && Ascending(cuts)
    requires forall i :: 0 <= i < |cuts| ==> cuts[i] <= |history|
    ensures GapFree(Delivered(history, capacity, start, cuts), start) <==> NeverOver(Totals(start, cuts), capacity)
    ensures NeverOver(Totals(start, cuts), capacity) ==>
      |Delivered(history, capacity, start, cuts)| == Level(Totals(start, cuts), |cuts|)
    decreases |cuts|
  {
    var w := Totals(start, cuts);
    if cuts == [] {
      LevelZero(w);
    } else {
      hide Delivered, Select, Level, NeverOver, GapFree, Wanted, Retained, Last, Numbered;
      var m := |cuts| - 1;
      var done := Delivered(history, capacity, start, cuts[..m]);
      DeliveredLast(history, capacity, start, cuts);
      NumberedPrefix(history, cuts[m]);
      GapFreeIffNeverOver(history, capacity, start, cuts[..m]);
      TotalsPrefix(start, cuts, m);
      LevelPrefix(w, m, m);
      TotalsAscend(start, cuts);
      LastPump(done, history[..cuts[m]], capacity, start, w);
    }
  }

  lemma {:induction false} DeliveredLast(history: seq<CanFrame>, capacity: nat, start: nat, cuts: seq<nat>)
    requires cuts != [] && forall i :: 0 <= i < |cuts| ==> cuts[i] <= |history|
    ensures var done := Delivered(history, capacity, start, cuts[..|cuts| - 1]);
      Delivered(history, capacity, start, cuts) ==
        done + Select(Retained(history[..cuts[|cuts| - 1]], capacity), Last(done, start), None, PUMP_LIMIT)
  {
    hide Select, Retained, Last;
  }

  lemma {:induction false} NumberedPrefix(history: seq<CanFrame>, n: nat)
    requires Numbered(history) && n <= |history|
    ensures Numbered(history[..n])
  {
  }

  lemma {:induction false} SumIsDifference(start: nat, cuts: seq<nat>, j: nat, k: nat)
    requires j <= k < |cuts|
    ensures WindowSum(Arrivals(start, cuts), j, k) == Totals(start, cuts)[k] - Before(Totals(start, cuts), j)
    decreases k - j
  {
    var a := Arrivals(start, cuts);
    SumSnoc(a, j, k);
    if j < k {
      SumIsDifference(start, cuts, j, k - 1);
    } else {
      assert a[j..k] == [];
    }
  }

  lemma {:induction false} SumSnoc(a: seq<int>, j: nat, k: nat)
    requires j <= k < |a|
    ensures Sum(a[j..k + 1]) == Sum(a[j..k]) + a[k]
  {
    assert a[j..k + 1][..k - j] == a[j..k];
  }

  /** The exact loss bound: the pumps deliver start + 1, start + 2, ... without a hole if and only if every run
      of pumps j..k gets at most capacity + 100 * (k - j) frames. */
  lemma {:induction false} ExactLossBound(history: seq<CanFrame>, capacity: nat, start: nat, cuts: seq<nat>)
    requires Numbered(history) && capacity > 0 && Ascending(cuts)
    requires forall i :: 0 <= i < |cuts| ==> cuts[i] <= |history|
    ensures GapFree(Delivered(history, capacity, start, cuts), start) <==> WithinBound(Arrivals(start, cuts), capacity)
  {
    hide GapFree, Delivered, Wanted, NeverOver, PairBound, WithinBound;
    var a, w := Arrivals(start, cuts), Totals(start, cuts);
    GapFreeIffNeverOver(history, capacity, start, cuts);
    LevelBound(w, capacity);
    BoundsAgree(start, cuts, capacity);
  }

  lemma {:induction false} BoundsAgree(start: nat, cuts: seq<nat>, capacity: nat)
    ensures PairBound(Totals(start, cuts), capacity) <==> WithinBound(Arrivals(start, cuts), capacity)
  {
    hide Wanted, WindowSum, Before, Arrivals, Totals;
    var a, w := Arrivals(start, cuts), Totals(start, cuts);
    forall j, k | 0 <= j <= k < |cuts|
      ensures WindowSum(a, j, k) == w[k] - Before(w, j)
    {
      SumIsDifference(start, cuts, j, k);
    }
  }

  lemma {:induction false} LevelZero(w: seq<nat>)
    ensures Level(w, 0) == 0
  {
  }

  lemma {:induction false} LevelPrefix(w: seq<nat>, m: nat, k: nat)
    requires k <= m <= |w|
    ensures Level(w[..m], k) == Level(w, k)
    decreases k
  {
    if k > 0 {
      LevelPrefix(w, m, k - 1);
    }
  }

  // ---------- Where a stream begins ----------

  /** The frame the stream begins with: at the first pump that sees more than `start` frames, the oldest one
      wanted that the store still holds. */
  ghost predicate BeginsAt(frame: CanFrame, history: seq<CanFrame>, capacity: nat, start: nat, cuts: seq<nat>,
      k: nat) {
    && k < |cuts| && start < cuts[k] <= |history| && (forall i :: 0 <= i < k ==> cuts[i] <= start)
    && var first := Max(start, Overwritten(cuts[k], capacity)); first < |history| && frame == history[first]
  }

  lemma {:induction false} FirstOfSlice(seen: seq<CanFrame>, capacity: nat, start: nat)
    requires Numbered(seen) && capacity > 0
    ensures var r := Select(Retained(seen, capacity), start, None, PUMP_LIMIT);
      && (r == [] <==> |seen| <= start)
      && (r != [] ==> Max(start, Overwritten(|seen|, capacity)) < |seen|)
      && (r != [] ==> r[0] == seen[Max(start, Overwritten(|seen|, capacity))])
  {
    hide Select;
    UnfilteredIsSlice(seen, Overwritten(|seen|, capacity), start, PUMP_LIMIT);
  }

  lemma {:induction false} NothingYet(history: seq<CanFrame>, capacity: nat, start: nat, cuts: seq<nat>)
    requires Numbered(history) && capacity > 0 && forall i :: 0 <= i < |cuts| ==> cuts[i] <= |history|
    requires Delivered(history, capacity, start, cuts) == []
    ensures forall i :: 0 <= i < |cuts| ==> cuts[i] <= start
    decreases |cuts|
  {
    hide Select, Retained;
    if cuts != [] {
      var m := |cuts| - 1;
      NothingYet(history, capacity, start, cuts[..m]);
      FirstOfSlice(history[..cuts[m]], capacity, start);
    }
  }

  lemma {:induction false} FirstDelivered(history: seq<CanFrame>, capacity: nat, start: nat, cuts: seq<nat>)
    returns (k: nat)
    requires Numbered(history) && capacity > 0 && forall i :: 0 <= i < |cuts| ==> cuts[i] <= |history|
    requires Delivered(history, capacity, start, cuts) != []
    ensures BeginsAt(Delivered(history, capacity, start, cuts)[0], history, capacity, start, cuts, k)
    decreases |cuts|
  {
    hide Select, Retained;
    var m := |cuts| - 1;
    var done := Delivered(history, capacity, start, cuts[..m]);
    if done != [] {
      k := FirstDelivered(history, capacity, start, cuts[..m]);
    } else {
      k := m;
      NothingYet(history, capacity, start, cuts[..m]);
      FirstOfSlice(history[..cuts[m]], capacity, start);
    }
  }

  // ---------- The same bound for every run of the pipeline ----------

  function Remaining(p: Pump): seq<CanFrame> {
    if p.Resting? then [] else p.rest
  }

  /** Until the buffer overflows, the frames enqueued and still to be enqueued are what the pumps so far deliver. */
  ghost predicate FollowsPumps(s: State, capacity: nat) {
    var t := s.stream;
    && Ascending(t.pumps) && (forall i :: 0 <= i < |t.pumps| ==> t.pumps[i] <= |s.history|)
    && (!t.overflow ==>
          && Frames(t.items) + Remaining(s.pump) == Delivered(s.history, capacity, t.start, t.pumps)
          && t.cursor == Last(Frames(t.items), t.start))
    && (t.overflow ==> Frames(t.items) <= Delivered(s.history, capacity, t.start, t.pumps))
  }

  lemma {:induction false} DeliveredStays(history: seq<CanFrame>, f: CanFrame, capacity: nat, start: nat,
      cuts: seq<nat>)
    requires forall i :: 0 <= i < |cuts| ==> cuts[i] <= |history|
    ensures Delivered(history + [f], capacity, start, cuts) == Delivered(history, capacity, start, cuts)
    decreases |cuts|
  {
    hide Select, Retained;
    if cuts != [] {
      var m := |cuts| - 1;
      DeliveredStays(history, f, capacity, start, cuts[..m]);
      assert (history + [f])[..cuts[m]] == history[..cuts[m]];
    }
  }

  lemma {:induction false} DeliveredSnoc(history: seq<CanFrame>, capacity: nat, start: nat, cuts: seq<nat>)
    requires forall i :: 0 <= i < |cuts| ==> cuts[i] <= |history|
    ensures var done := Delivered(history, capacity, start, cuts);
      Delivered(history, capacity, start, cuts + [|history|]) ==
        done + Select(Retained(history, capacity), Last(done, start), None, PUMP_LIMIT)
  {
    hide Select, Retained;
    var all := cuts + [|history|];
    assert all[..|all| - 1] == cuts;
    assert history[..|history|] == history;
  }

  lemma {:induction false} ArriveFollows(s: State, frame: CanFrame, capacity: nat)
    requires FollowsPumps(s, capacity) && frame.Valid()
    ensures FollowsPumps(Apply(s, Arrive(frame), capacity), capacity)
  {
    hide Frames, Last, Delivered;
    DeliveredStays(s.history, frame.(sequence := |s.history| + 1), capacity, s.stream.start, s.stream.pumps);
  }

  lemma {:induction false} PumpBeginFollows(s: State, capacity: nat)
    requires FollowsPumps(s, capacity) && Enabled(s, PumpBegin)
    ensures FollowsPumps(Apply(s, PumpBegin, capacity), capacity)
  {
    hide Frames, Last, Delivered, Select, Retained;
    var t := s.stream;
    DeliveredSnoc(s.history, capacity, t.start, t.pumps);
    assert Frames(t.items) + [] == Frames(t.items);
  }

  lemma {:induction false} PumpFrameFollows(s: State, capacity: nat)
    requires FollowsPumps(s, capacity) && PumpOk(s, capacity) && Enabled(s, PumpFrame)
    ensures FollowsPumps(Apply(s, PumpFrame, capacity), capacity)
  {
    CursorIsNext(s, capacity);
    FrameMoves(s, capacity);
    var s' := Apply(s, PumpFrame, capacity);
    hide FollowsPumps, PumpOk, Apply, Enabled, Max;
    MovedFollows(s, s', s.pump.rest[0], capacity);
  }

  lemma {:induction false} MovedFollows(s: State, s': State, f: CanFrame, capacity: nat)
    requires FollowsPumps(s, capacity) && !s.stream.overflow
    requires s.pump.Appending? && s.pump.rest != [] && s.pump.rest[0] == f
    requires s'.history == s.history && s'.stream.start == s.stream.start && s'.stream.pumps == s.stream.pumps
    requires s'.stream.cursor == f.sequence
    requires !s'.stream.overflow ==>
      s'.stream.items == s.stream.items + [Frame(f)] && Remaining(s'.pump) == s.pump.rest[1..]
    requires s'.stream.overflow ==> s'.stream.items == s.stream.items && s'.pump.Resting?
    ensures FollowsPumps(s', capacity)
  {
    var frames := Frames(s.stream.items);
    FramesSnoc(s.stream.items, Frame(f));
    LastSnoc(frames, f, s.stream.start);
    hide Delivered, Frames, Ascending, Last;
    assert frames + s.pump.rest == (frames + [f]) + s.pump.rest[1..];
    assert frames + [] == frames;
  }

  lemma {:induction false} LastSnoc(frames: seq<CanFrame>, f: CanFrame, start: nat)
    ensures Last(frames + [f], start) == f.sequence
  {
  }

  /** What one round of the pump does to the stream, seen from outside. */
  lemma {:induction false} FrameMoves(s: State, capacity: nat)
    requires Enabled(s, PumpFrame) && !s.stream.overflow
    ensures var s', f := Apply(s, PumpFrame, capacity), s.pump.rest[0]; var t, t' := s.stream, s'.stream;
      && s'.history == s.history && t'.start == t.start && t'.pumps == t.pumps
      && t'.cursor == Max(t.cursor, f.sequence)
      && (if !t'.overflow then t'.items == t.items + [Frame(f)] && Remaining(s'.pump) == s.pump.rest[1..]
          else t'.items == t.items && s'.pump.Resting?)
  {
    hide FrameSse, Append, Fits;
  }

  lemma {:induction false} CursorIsNext(s: State, capacity: nat)
    requires PumpOk(s, capacity) && Enabled(s, PumpFrame)
    ensures Max(s.stream.cursor, s.pump.rest[0].sequence) == s.pump.rest[0].sequence && !s.stream.overflow
  {
  }

  lemma {:induction false} PumpEndFollows(s: State, due: bool, capacity: nat)
    requires FollowsPumps(s, capacity) && Enabled(s, PumpEnd(due))
    ensures FollowsPumps(Apply(s, PumpEnd(due), capacity), capacity)
  {
    hide Delivered;
    FramesSnoc(s.stream.items, Heartbeat);
    hide Frames;
    assert Frames(s.stream.items) + [] == Frames(s.stream.items);
  }

  lemma {:induction false} StartFollows(s: State, after: nat, capacity: nat)
    requires Inv(s, capacity) && Enabled(s, StartSse(after))
    ensures FollowsPumps(Apply(s, StartSse(after), capacity), capacity)
  {
    hide StreamOk, PumpOk;
  }

  lemma {:induction false} StepFollows(s: State, a: Action, capacity: nat)
    requires Inv(s, capacity) && FollowsPumps(s, capacity) && Enabled(s, a)
    ensures FollowsPumps(Apply(s, a, capacity), capacity)
  {
    hide StreamOk, PumpOk, Frames, Delivered;
    match a
    case Arrive(frame) => ArriveFollows(s, frame, capacity);
    case StartSse(after) => StartFollows(s, after, capacity);
    case PumpBegin => PumpBeginFollows(s, capacity);
    case PumpFrame => PumpFrameFollows(s, capacity);
    case PumpEnd(due) => PumpEndFollows(s, due, capacity);
    case Respond(_) =>
    case WriterDoes(_) =>
  }

  lemma {:induction false} RunFollows(s: State, acts: seq<Action>, capacity: nat)
    requires Inv(s, capacity) && FollowsPumps(s, capacity)
    ensures FollowsPumps(Exec(s, acts, capacity), capacity)
    decreases |acts|
  {
    hide Inv, FollowsPumps, Apply, Enabled;
    if acts != [] {
      if Enabled(s, acts[0]) {
        StepKeeps(s, acts[0], capacity);
        StepFollows(s, acts[0], capacity);
      }
      RunFollows(if Enabled(s, acts[0]) then Apply(s, acts[0], capacity) else s, acts[1..], capacity);
    }
  }

  /** In every run that has not overflowed, whatever the interleaving with the writer and other appends, the
      frames enqueued are start + 1, start + 2, ... without a hole if and only if the arrivals between the pumps
      stay within the bound. */
  lemma {:induction false} StreamIsGapFreeIff(history: seq<CanFrame>, acts: seq<Action>, capacity: nat)
    requires Numbered(history) && (forall i :: 0 <= i < |history| ==> history[i].Valid()) && capacity > 0
    ensures var s := Exec(Fresh(history), acts, capacity); var t := s.stream;
      Ascending(t.pumps) &&
      (!t.overflow && s.pump.Resting? ==>
        (GapFree(Frames(t.items), t.start) <==> WithinBound(Arrivals(t.start, t.pumps), capacity)))
  {
    var first, s := Fresh(history), Exec(Fresh(history), acts, capacity);
    FreshIsOk(history, capacity);
    assert FollowsPumps(first, capacity);
    RunFollows(first, acts, capacity);
    RunKeeps(first, acts, capacity);
    hide Exec, Frames, StreamOk, WithinBound, Arrivals, Delivered, GapFree;
    var t := s.stream;
    assert Frames(t.items) + [] == Frames(t.items);
    if !t.overflow && s.pump.Resting? {
      ExactLossBound(s.history, capacity, t.start, t.pumps);
    }
  }

  /** In every run, overflowed or not, the stream begins with the oldest wanted frame that the store still held
      at the first pump that saw one. */
  lemma {:induction false} StreamBegins(history: seq<CanFrame>, acts: seq<Action>, capacity: nat) returns (k: nat)
    requires Numbered(history) && (forall i :: 0 <= i < |history| ==> history[i].Valid()) && capacity > 0
    ensures var s := Exec(Fresh(history), acts, capacity); var frames := Frames(s.stream.items);
      frames != [] ==> BeginsAt(frames[0], s.history, capacity, s.stream.start, s.stream.pumps, k)
  {
    var first, s := Fresh(history), Exec(Fresh(history), acts, capacity);
    FreshIsOk(history, capacity);
    assert FollowsPumps(first, capacity);
    RunFollows(first, acts, capacity);
    RunKeeps(first, acts, capacity);
    hide Exec, Frames, StreamOk, Delivered;
    k := 0;
    if Frames(s.stream.items) != [] {
      k := FirstDelivered(s.history, capacity, s.stream.start, s.stream.pumps);
    }
  }
}
