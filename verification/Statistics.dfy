/** CanBusStatistics.cpp: totals, per-identifier counters, and a sliding window of bit estimates kept
    incrementally. */
module Statistics {
  import opened CanFrames

  datatype WindowSample = WindowSample(timestampNs: nat, estimatedBits: nat)

  datatype IdStatistics = IdStatistics(frameCount: nat, payloadBytes: nat, lastTimestampNs: nat)

  type Key = (bool, bv32)

  /** estimateClassicCanBits: the frame's bits plus the worst case of stuffing, one bit in five. */
  function EstimateBits(f: CanFrame): nat {
    var dataLength := if f.dlc < MAX_DATA_LENGTH then f.dlc else MAX_DATA_LENGTH;
    var unstuffed := (if f.isExtended then 67 else 47) + dataLength * 8;
    unstuffed + (unstuffed + 4) / 5
  }

  // ---------- The frame on the wire ----------

  /** The fields of a classic CAN data frame, up to the intermission behind it. */
  datatype Bits =
    | StartOfFrame | Identifier | IdentifierExtension | Rtr | Srr | Ide | R0 | R1 | Dlc | Data(bytes: nat)
    | Crc | CrcDelimiter | AckSlot | AckDelimiter | EndOfFrame | Intermission
  {
    function Width(): nat {
      match this
      case Identifier => 11
      case IdentifierExtension => 18
      case Dlc => 4
      case Data(bytes) => 8 * bytes
      case Crc => 15
      case EndOfFrame => 7
      case Intermission => 3
      case _ => 1
    }
  }

  const STANDARD_HEAD := [StartOfFrame, Identifier, Rtr, Ide, R0, Dlc]
  const EXTENDED_HEAD := [StartOfFrame, Identifier, Srr, Ide, IdentifierExtension, Rtr, R1, R0, Dlc]
  const TAIL := [Crc, CrcDelimiter, AckSlot, AckDelimiter, EndOfFrame, Intermission]

  function DataLength(f: CanFrame): nat {
    if f.dlc < 8 then f.dlc else 8
  }

  function Layout(f: CanFrame): seq<Bits> {
    (if f.isExtended then EXTENDED_HEAD else STANDARD_HEAD) + ([Data(DataLength(f))] + TAIL)
  }

  function TotalWidth(fields: seq<Bits>): nat {
    if fields == [] then 0 else fields[0].Width() + TotalWidth(fields[1..])
  }

  /** The least number that is not below a fifth of w. */
  function FifthUp(w: nat): (s: nat)
    ensures 5 * s >= w && (s > 0 ==> 5 * (s - 1) < w)
  {
    if w == 0 then 0 else if w < 5 then 1 else 1 + FifthUp(w - 5)
  }

  /** All fields, and a stuff bit for every fifth bit. */
  function OnWireBits(f: CanFrame): nat {
    TotalWidth(Layout(f)) + FifthUp(TotalWidth(Layout(f)))
  }

  lemma {:induction false} WidthConcat(a: seq<Bits>, b: seq<Bits>)
    ensures TotalWidth(a + b) == TotalWidth(a) + TotalWidth(b)
    decreases |a|
  {
    if a == [] {
      assert a + b == b;
    } else {
      assert (a + b)[1..] == a[1..] + b;
      WidthConcat(a[1..], b);
    }
  }

  lemma {:induction false} FixedWidths()
    ensures TotalWidth(STANDARD_HEAD) == 19 && TotalWidth(EXTENDED_HEAD) == 39 && TotalWidth(TAIL) == 28
  {
    ThreeFields(StartOfFrame, Identifier, Rtr, [Ide, R0, Dlc]);
    ThreeFields(Ide, R0, Dlc, []);
    ThreeFields(StartOfFrame, Identifier, Srr, [Ide, IdentifierExtension, Rtr, R1, R0, Dlc]);
    ThreeFields(Ide, IdentifierExtension, Rtr, [R1, R0, Dlc]);
    ThreeFields(R1, R0, Dlc, []);
    ThreeFields(Crc, CrcDelimiter, AckSlot, [AckDelimiter, EndOfFrame, Intermission]);
    ThreeFields(AckDelimiter, EndOfFrame, Intermission, []);
    hide TotalWidth;
    assert STANDARD_HEAD == [StartOfFrame, Identifier, Rtr] + [Ide, R0, Dlc];
    assert [Ide, R0, Dlc] == [Ide, R0, Dlc] + [];
    assert EXTENDED_HEAD == [StartOfFrame, Identifier, Srr] + [Ide, IdentifierExtension, Rtr, R1, R0, Dlc];
    assert [Ide, IdentifierExtension, Rtr, R1, R0, Dlc] == [Ide, IdentifierExtension, Rtr] + [R1, R0, Dlc];
    assert [R1, R0, Dlc] == [R1, R0, Dlc] + [];
    assert TAIL == [Crc, CrcDelimiter, AckSlot] + [AckDelimiter, EndOfFrame, Intermission];
    assert [AckDelimiter, EndOfFrame, Intermission] == [AckDelimiter, EndOfFrame, Intermission] + [];
  }

  lemma {:induction false} ThreeFields(a: Bits, b: Bits, c: Bits, rest: seq<Bits>)
    ensures TotalWidth([a, b, c] + rest) == a.Width() + b.Width() + c.Width() + TotalWidth(rest)
    ensures TotalWidth([]) == 0
  {
    hide Bits.Width;
    var all, two, one := [a, b, c] + rest, [b, c] + rest, [c] + rest;
    assert all[1..] == two && two[1..] == one && one[1..] == rest;
    assert TotalWidth(one) == c.Width() + TotalWidth(rest);
    assert TotalWidth(two) == b.Width() + TotalWidth(one);
  }

  /** The estimate is the frame laid out field by field, with its stuff bits. */
  lemma {:induction false} EstimateIsLayout(f: CanFrame)
    ensures EstimateBits(f) == OnWireBits(f)
  {
    var data := [Data(DataLength(f))];
    OneField(Data(DataLength(f)));
    FixedWidths();
    hide TotalWidth;
    WidthConcat(data, TAIL);
    WidthConcat(if f.isExtended then EXTENDED_HEAD else STANDARD_HEAD, data + TAIL);
  }

  lemma {:induction false} OneField(a: Bits)
    ensures TotalWidth([a]) == a.Width()
  {
    assert [a][1..] == [];
  }

  /** What one frame adds to the window: its bits on the wire. */
  function SampleOf(f: CanFrame): WindowSample {
    WindowSample(f.timestampNs, OnWireBits(f))
  }

  function KeyOf(f: CanFrame): Key {
    (f.isExtended, f.id)
  }

  /** The negation of the loop guard's break: now is not before the sample and at least a window later. */
  predicate Expired(s: WindowSample, now: nat, windowNs: nat) {
    now >= s.timestampNs && now - s.timestampNs >= windowNs
  }

  /** removeExpiredSamplesLocked: drops from the front, and stops at the first sample that is not expired. */
  function Purge(samples: seq<WindowSample>, now: nat, windowNs: nat): seq<WindowSample> {
    if samples != [] && Expired(samples[0], now, windowNs) then Purge(samples[1..], now, windowNs) else samples
  }

  function SumBits(samples: seq<WindowSample>): nat {
    if samples == [] then 0 else samples[0].estimatedBits + SumBits(samples[1..])
  }

  // ---------- The history of calls ----------

  datatype Call = Record(frame: CanFrame) | Snapshot(now: nat)

  function TimeOf(c: Call): nat {
    match c
    case Record(f) => f.timestampNs
    case Snapshot(now) => now
  }

  function NewSamples(c: Call): seq<WindowSample> {
    if c.Record? then [SampleOf(c.frame)] else []
  }

  /** Every sample ever recorded. */
  function Recorded(calls: seq<Call>): seq<WindowSample> {
    if calls == [] then [] else Recorded(calls[..|calls| - 1]) + NewSamples(calls[|calls| - 1])
  }

  /** The deque after the calls. */
  function Window(calls: seq<Call>, windowNs: nat): seq<WindowSample> {
    if calls == [] then []
    else
      var last := calls[|calls| - 1];
      Purge(Window(calls[..|calls| - 1], windowNs) + NewSamples(last), TimeOf(last), windowNs)
  }

  function FramesOf(calls: seq<Call>): seq<CanFrame> {
    if calls == [] then []
    else
      var last := calls[|calls| - 1];
      FramesOf(calls[..|calls| - 1]) + (if last.Record? then [last.frame] else [])
  }

  function PayloadBytes(frames: seq<CanFrame>): nat {
    if frames == [] then 0 else PayloadBytes(frames[..|frames| - 1]) + frames[|frames| - 1].dlc
  }

  function Bump(m: map<Key, IdStatistics>, f: CanFrame): map<Key, IdStatistics> {
    var before := if KeyOf(f) in m then m[KeyOf(f)] else IdStatistics(0, 0, 0);
    m[KeyOf(f) := IdStatistics(before.frameCount + 1, before.payloadBytes + f.dlc, f.timestampNs)]
  }

  function PerId(frames: seq<CanFrame>): map<Key, IdStatistics> {
    if frames == [] then map[] else Bump(PerId(frames[..|frames| - 1]), frames[|frames| - 1])
  }

  const NS_PER_SECOND: real := 1000000000.0

  /** The window in seconds. */
  function Seconds(windowNs: nat): (s: real)
    ensures windowNs > 0 ==> s > 0.0
  {
    windowNs as real / NS_PER_SECOND
  }

  /** The bits the bus can carry in the window. */
  function BitCapacity(nominalBitrate: nat, windowNs: nat): (bits: real)
    ensures nominalBitrate > 0 && windowNs > 0 ==> bits > 0.0
  {
    nominalBitrate as real * Seconds(windowNs)
  }

  predicate IsQuotient(q: real, a: real, b: real) {
    q * b == a
  }

  function Quotient(a: real, b: real): (q: real)
    requires b > 0.0
    ensures IsQuotient(q, a, b)
  {
    a / b
  }

  class CanBusStatistics {
    const nominalBitrate: nat
    const windowNs: nat
    var totalReceivedFrames: nat
    var totalReceivedPayloadBytes: nat
    var perId: map<Key, IdStatistics>
    var windowSamples: seq<WindowSample>
    var windowEstimatedBits: nat
    ghost var calls: seq<Call>

    ghost predicate Valid()
      reads this
    {
      && nominalBitrate > 0 && windowNs > 0
      && totalReceivedFrames == |FramesOf(calls)|
      && totalReceivedPayloadBytes == PayloadBytes(FramesOf(calls))
      && perId == PerId(FramesOf(calls))
      && windowSamples == Window(calls, windowNs)
      && windowEstimatedBits == SumBits(windowSamples)
    }

    constructor (nominalBitrate: nat, windowNs: nat)
      requires nominalBitrate > 0 && windowNs > 0
      ensures Valid() && calls == [] && this.nominalBitrate == nominalBitrate && this.windowNs == windowNs
    {
      this.nominalBitrate := nominalBitrate;
      this.windowNs := windowNs;
      totalReceivedFrames, totalReceivedPayloadBytes, windowEstimatedBits := 0, 0, 0;
      perId, windowSamples, calls := map[], [], [];
    }

    /** removeExpiredSamplesLocked. The subtraction never goes below zero. */
    method RemoveExpired(now: nat)
      requires windowEstimatedBits == SumBits(windowSamples)
      modifies this`windowSamples, this`windowEstimatedBits
      ensures windowSamples == Purge(old(windowSamples), now, windowNs) && windowEstimatedBits == SumBits(windowSamples)
    {
      while windowSamples != []
        invariant Purge(windowSamples, now, windowNs) == Purge(old(windowSamples), now, windowNs)
        invariant windowEstimatedBits == SumBits(windowSamples)
        decreases |windowSamples|
      {
        var oldest := windowSamples[0];
        if now < oldest.timestampNs || now - oldest.timestampNs < windowNs {
          return;
        }
        windowEstimatedBits := windowEstimatedBits - oldest.estimatedBits;
        windowSamples := windowSamples[1..];
      }
    }

    method RecordReceived(frame: CanFrame)
      requires Valid()
      modifies this
      ensures Valid() && calls == old(calls) + [Record(frame)]
    {
      hide SumBits, Purge, EstimateBits, OnWireBits;
      CallsSnoc(calls, Record(frame), windowNs);
      FramesSnoc(FramesOf(calls), frame);
      SumBitsSnoc(windowSamples, SampleOf(frame));
      EstimateIsLayout(frame);
      totalReceivedFrames := totalReceivedFrames + 1;
      totalReceivedPayloadBytes := totalReceivedPayloadBytes + frame.dlc;
      perId := Bump(perId, frame);
      windowSamples := windowSamples + [WindowSample(frame.timestampNs, EstimateBits(frame))];
      windowEstimatedBits := windowEstimatedBits + EstimateBits(frame);
      RemoveExpired(frame.timestampNs);
      calls := calls + [Record(frame)];
    }

    /** The two divisions of snapshot. */
    method Rates() returns (rateFps: real, loadPercent: real)
      requires nominalBitrate > 0 && windowNs > 0
      ensures IsQuotient(rateFps, |windowSamples| as real, Seconds(windowNs))
      ensures IsQuotient(loadPercent, 100.0 * windowEstimatedBits as real, BitCapacity(nominalBitrate, windowNs))
    {
      hide Quotient, IsQuotient, BitCapacity, Seconds;
      rateFps := Quotient(|windowSamples| as real, Seconds(windowNs));
      loadPercent := Quotient(100.0 * windowEstimatedBits as real, BitCapacity(nominalBitrate, windowNs));
    }

    /** snapshot. The rate times the window is the number of frames in it; the load is the percentage of the bits that
        the bus could have carried in the window. The source rounds both to doubles. */
    method TakeSnapshot(now: nat)
      returns (frames: nat, bytes: nat, rateFps: real, loadPercent: real, ids: map<Key, IdStatistics>)
      requires Valid()
      modifies this
      ensures Valid() && calls == old(calls) + [Snapshot(now)]
      ensures frames == |FramesOf(calls)| && bytes == PayloadBytes(FramesOf(calls)) && ids == PerId(FramesOf(calls))
      ensures IsQuotient(rateFps, |Window(calls, windowNs)| as real, Seconds(windowNs))
      ensures IsQuotient(loadPercent, 100.0 * SumBits(Window(calls, windowNs)) as real,
                         BitCapacity(nominalBitrate, windowNs))
    {
      hide SumBits, Purge, Window, FramesOf, PayloadBytes, PerId, Seconds, BitCapacity, IsQuotient;
      SnapshotSnoc(calls, now, windowNs);
      RemoveExpired(now);
      calls := calls + [Snapshot(now)];
      rateFps, loadPercent := Rates();
      frames, bytes, ids := totalReceivedFrames, totalReceivedPayloadBytes, perId;
    }
  }

  lemma {:induction false} CallsSnoc(calls: seq<Call>, c: Call, windowNs: nat)
    ensures Window(calls + [c], windowNs) == Purge(Window(calls, windowNs) + NewSamples(c), TimeOf(c), windowNs)
    ensures FramesOf(calls + [c]) == FramesOf(calls) + (if c.Record? then [c.frame] else [])
    ensures Recorded(calls + [c]) == Recorded(calls) + NewSamples(c)
  {
    assert (calls + [c])[..|calls|] == calls;
  }

  lemma {:induction false} SnapshotSnoc(calls: seq<Call>, now: nat, windowNs: nat)
    ensures Window(calls + [Snapshot(now)], windowNs) == Purge(Window(calls, windowNs), now, windowNs)
    ensures FramesOf(calls + [Snapshot(now)]) == FramesOf(calls)
  {
    hide Window, FramesOf, Purge, Recorded;
    CallsSnoc(calls, Snapshot(now), windowNs);
    assert Window(calls, windowNs) + [] == Window(calls, windowNs) && FramesOf(calls) + [] == FramesOf(calls);
  }

  lemma {:induction false} FramesSnoc(frames: seq<CanFrame>, f: CanFrame)
    ensures PayloadBytes(frames + [f]) == PayloadBytes(frames) + f.dlc
    ensures PerId(frames + [f]) == Bump(PerId(frames), f)
  {
    assert (frames + [f])[..|frames|] == frames;
  }

  lemma {:induction false} SumBitsSnoc(samples: seq<WindowSample>, s: WindowSample)
    ensures SumBits(samples + [s]) == SumBits(samples) + s.estimatedBits
  {
    if samples == [] {
      assert samples + [s] == [s];
    } else {
      assert (samples + [s])[1..] == samples[1..] + [s];
      SumBitsSnoc(samples[1..], s);
    }
  }

  // ---------- The window is a filter of the whole history ----------

  /** The samples younger than the window. */
  function Live(samples: seq<WindowSample>, now: nat, windowNs: nat): seq<WindowSample> {
    if samples == [] then []
    else
      (if now < samples[0].timestampNs + windowNs then [samples[0]] else []) + Live(samples[1..], now, windowNs)
  }

  predicate Sorted(samples: seq<WindowSample>) {
    forall i, j :: 0 <= i < j < |samples| ==> samples[i].timestampNs <= samples[j].timestampNs
  }

  /** The calls come in clock order. */
  predicate InOrder(calls: seq<Call>) {
    forall i, j :: 0 <= i < j < |calls| ==> TimeOf(calls[i]) <= TimeOf(calls[j])
  }

  lemma {:induction false} LiveConcat(a: seq<WindowSample>, b: seq<WindowSample>, now: nat, windowNs: nat)
    ensures Live(a + b, now, windowNs) == Live(a, now, windowNs) + Live(b, now, windowNs)
    decreases |a|
  {
    if a == [] {
      assert a + b == b;
    } else {
      assert (a + b)[1..] == a[1..] + b;
      LiveConcat(a[1..], b, now, windowNs);
    }
  }

  /** What was dropped earlier would be dropped later as well. */
  lemma {:induction false} LiveLater(s: seq<WindowSample>, before: nat, now: nat, windowNs: nat)
    requires before <= now
    ensures Live(Live(s, before, windowNs), now, windowNs) == Live(s, now, windowNs)
    decreases |s|
  {
    if s != [] {
      LiveLater(s[1..], before, now, windowNs);
      var kept := if before < s[0].timestampNs + windowNs then [s[0]] else [];
      LiveConcat(kept, Live(s[1..], before, windowNs), now, windowNs);
      if kept == [s[0]] {
        assert kept[1..] == [];
        var first := if now < s[0].timestampNs + windowNs then [s[0]] else [];
        assert Live(kept, now, windowNs) == first + Live([], now, windowNs);
      }
    }
  }

  /** In order of time the expired samples are all at the front. */
  lemma {:induction false} PurgeIsLive(s: seq<WindowSample>, now: nat, windowNs: nat)
    requires Sorted(s)
    ensures Purge(s, now, windowNs) == Live(s, now, windowNs)
    decreases |s|
  {
    if s != [] {
      if Expired(s[0], now, windowNs) {
        PurgeIsLive(s[1..], now, windowNs);
      } else {
        AllLive(s, now, windowNs);
      }
    }
  }

  lemma {:induction false} AllLive(s: seq<WindowSample>, now: nat, windowNs: nat)
    requires forall i :: 0 <= i < |s| ==> now < s[i].timestampNs + windowNs
    ensures Live(s, now, windowNs) == s
    decreases |s|
  {
    if s != [] {
      AllLive(s[1..], now, windowNs);
    }
  }

  lemma {:induction false} LiveIsSorted(s: seq<WindowSample>, now: nat, windowNs: nat)
    requires Sorted(s)
    ensures Sorted(Live(s, now, windowNs))
    ensures forall x :: x in Live(s, now, windowNs) ==> x in s
    decreases |s|
  {
    if s != [] {
      LiveIsSorted(s[1..], now, windowNs);
      assert s == [s[0]] + s[1..];
    }
  }

  lemma {:induction false} RecordedInOrder(calls: seq<Call>)
    requires InOrder(calls)
    ensures Sorted(Recorded(calls))
    ensures calls != [] ==> forall x :: x in Recorded(calls) ==> x.timestampNs <= TimeOf(calls[|calls| - 1])
    decreases |calls|
  {
    if calls != [] {
      var n := |calls| - 1;
      RecordedInOrder(calls[..n]);
      if n > 0 {
        assert TimeOf(calls[n - 1]) <= TimeOf(calls[n]);
      }
    }
  }

  /** For calls in clock order the deque is exactly the recorded samples younger than the window at the last
      call, oldest first. */
  lemma {:induction false} WindowIsExact(calls: seq<Call>, windowNs: nat)
    requires InOrder(calls) && calls != []
    ensures Window(calls, windowNs) == Live(Recorded(calls), TimeOf(calls[|calls| - 1]), windowNs)
    decreases |calls|
  {
    hide Live, Purge;
    var n := |calls| - 1;
    var before, last := calls[..n], calls[n];
    var now, more := TimeOf(last), NewSamples(last);
    RecordedInOrder(calls);
    var deque := Window(before, windowNs) + more;
    if n == 0 {
      assert Recorded(before) == [] && Window(before, windowNs) == [];
      assert deque == more && Recorded(calls) == more;
      PurgeIsLive(deque, now, windowNs);
    } else {
      var t := TimeOf(before[n - 1]);
      assert t <= now;
      WindowIsExact(before, windowNs);
      RecordedInOrder(before);
      LiveIsSorted(Recorded(before), t, windowNs);
      DequeSorted(Window(before, windowNs), Recorded(before), more, t, now);
      PurgeIsLive(deque, now, windowNs);
      LiveConcat(Window(before, windowNs), more, now, windowNs);
      LiveLater(Recorded(before), t, now, windowNs);
      LiveConcat(Recorded(before), more, now, windowNs);
    }
  }

  lemma {:induction false} DequeSorted(deque: seq<WindowSample>, all: seq<WindowSample>,
      more: seq<WindowSample>, t: nat, now: nat)
    requires Sorted(deque) && (forall x :: x in deque ==> x in all) && (forall x :: x in all ==> x.timestampNs <= t)
    requires t <= now && |more| <= 1 && forall x :: x in more ==> x.timestampNs == now
    ensures Sorted(deque + more)
  {
  }

  // ---------- Arbitrary clocks ----------

  /** Sample i had expired at the time of call j, which is the call that recorded it or a later one. */
  predicate ExpiredAt(calls: seq<Call>, i: nat, j: nat, windowNs: nat) {
    j < |calls| && i < |Recorded(calls[..j + 1])| && i < |Recorded(calls)|
    && Expired(Recorded(calls)[i], TimeOf(calls[j]), windowNs)
  }

  ghost predicate WasExpired(calls: seq<Call>, i: nat, windowNs: nat) {
    exists j: nat :: ExpiredAt(calls, i, j, windowNs)
  }

  /** Whatever the clock does, the deque is a suffix of what was recorded, and every sample that is gone had
      expired at the time of some call made since. */
  lemma {:induction false} RemovedHadExpired(calls: seq<Call>, windowNs: nat) returns (gone: nat)
    ensures gone <= |Recorded(calls)| && Window(calls, windowNs) == Recorded(calls)[gone..]
    ensures forall i :: 0 <= i < gone ==> WasExpired(calls, i, windowNs)
    decreases |calls|
  {
    gone := 0;
    if calls != [] {
      var n := |calls| - 1;
      var g := RemovedHadExpired(calls[..n], windowNs);
      hide WasExpired;
      gone := OneMoreCall(calls[..n], calls, g, windowNs);
    }
  }

  lemma {:induction false} OneMoreCall(before: seq<Call>, calls: seq<Call>, g: nat, windowNs: nat) returns (gone: nat)
    requires calls != [] && before == calls[..|calls| - 1]
    requires g <= |Recorded(before)| && Window(before, windowNs) == Recorded(before)[g..]
    requires forall i :: 0 <= i < g ==> WasExpired(before, i, windowNs)
    ensures gone <= |Recorded(calls)| && Window(calls, windowNs) == Recorded(calls)[gone..]
    ensures forall i :: 0 <= i < gone ==> WasExpired(calls, i, windowNs)
  {
    hide Recorded, Purge, Expired, Window, WasExpired;
    var n := |calls| - 1;
    CallsSnoc(calls[..n], calls[n], windowNs);
    assert calls[..n] + [calls[n]] == calls;
    var all, deque := Recorded(calls), Window(calls[..n], windowNs) + NewSamples(calls[n]);
    assert deque == all[g..];
    var k := PurgedPrefix(deque, TimeOf(calls[n]), windowNs);
    gone := g + k;
    assert deque[k..] == all[gone..];
    forall i | 0 <= i < gone ensures WasExpired(calls, i, windowNs) {
      if i < g {
        OldOneExpired(calls, i, windowNs);
      } else {
        assert all[i] == deque[i - g];
        NewOneExpired(calls, i, windowNs);
      }
    }
  }

  lemma {:induction false} OldOneExpired(calls: seq<Call>, i: nat, windowNs: nat)
    requires calls != [] && WasExpired(calls[..|calls| - 1], i, windowNs)
    ensures WasExpired(calls, i, windowNs)
  {
    hide Expired, ExpiredAt;
    var j: nat :| ExpiredAt(calls[..|calls| - 1], i, j, windowNs);
    StillExpired(calls, i, j, windowNs);
  }

  lemma {:induction false} NewOneExpired(calls: seq<Call>, i: nat, windowNs: nat)
    requires calls != [] && i < |Recorded(calls)| && Expired(Recorded(calls)[i], TimeOf(calls[|calls| - 1]), windowNs)
    ensures WasExpired(calls, i, windowNs)
  {
    hide Expired;
    var n := |calls| - 1;
    assert calls[..n + 1] == calls;
    assert ExpiredAt(calls, i, n, windowNs);
  }

  lemma {:induction false} StillExpired(calls: seq<Call>, i: nat, j: nat, windowNs: nat)
    requires calls != [] && ExpiredAt(calls[..|calls| - 1], i, j, windowNs)
    ensures ExpiredAt(calls, i, j, windowNs)
  {
    hide Expired, Window, FramesOf, Recorded;
    var before := calls[..|calls| - 1];
    CallsSnoc(before, calls[|calls| - 1], windowNs);
    assert before + [calls[|calls| - 1]] == calls;
    assert before[..j + 1] == calls[..j + 1];
  }

  lemma {:induction false} PurgedPrefix(s: seq<WindowSample>, now: nat, windowNs: nat) returns (k: nat)
    ensures k <= |s| && Purge(s, now, windowNs) == s[k..]
    ensures forall i :: 0 <= i < k ==> Expired(s[i], now, windowNs)
    decreases |s|
  {
    if s != [] && Expired(s[0], now, windowNs) {
      k := PurgedPrefix(s[1..], now, windowNs);
      assert s[1..][k..] == s[k + 1..];
      forall i | 0 <= i < k + 1 ensures Expired(s[i], now, windowNs) {
        if i > 0 {
          assert s[i] == s[1..][i - 1];
        }
      }
      k := k + 1;
    } else {
      k := 0;
      assert s[0..] == s;
    }
  }

  // ---------- Counters ----------

  /** The frames of one identifier and format. */
  function WithKey(frames: seq<CanFrame>, key: Key): seq<CanFrame> {
    if frames == [] then []
    else
      var last := frames[|frames| - 1];
      var mine := last.isExtended == key.0 && last.id == key.1;
      WithKey(frames[..|frames| - 1], key) + (if mine then [last] else [])
  }

  /** Each entry holds the counters of exactly its own frames; there is an entry where there is a frame. */
  lemma {:induction false} PerIdIsProjection(frames: seq<CanFrame>, key: Key)
    ensures var own := WithKey(frames, key);
      && (key in PerId(frames) <==> own != [])
      && (own != [] ==> PerId(frames)[key] == IdStatistics(|own|, PayloadBytes(own), own[|own| - 1].timestampNs))
    decreases |frames|
  {
    if frames != [] {
      var n := |frames| - 1;
      var own := WithKey(frames[..n], key);
      PerIdIsProjection(frames[..n], key);
      if KeyOf(frames[n]) == key {
        FramesSnoc(own, frames[n]);
      } else {
        assert own + [] == own;
      }
    }
  }

  ghost function Pick(keys: set<Key>): (key: Key)
    requires keys != {}
    ensures key in keys
  {
    var key :| key in keys;
    key
  }

  ghost function SumCounts(keys: set<Key>, m: map<Key, IdStatistics>): (nat, nat)
    requires keys <= m.Keys
    decreases |keys|
  {
    if keys == {} then (0, 0)
    else
      var key := Pick(keys);
      var rest := SumCounts(keys - {key}, m);
      (m[key].frameCount + rest.0, m[key].payloadBytes + rest.1)
  }

  /** The sum does not depend on the order of the keys. */
  lemma {:induction false} SumTakes(keys: set<Key>, m: map<Key, IdStatistics>, key: Key)
    requires keys <= m.Keys && key in keys
    ensures var rest := SumCounts(keys - {key}, m);
      SumCounts(keys, m) == (m[key].frameCount + rest.0, m[key].payloadBytes + rest.1)
    decreases |keys|
  {
    hide Pick;
    var first := Pick(keys);
    if first != key {
      SumTakes(keys - {first}, m, key);
      SumTakes(keys - {key}, m, first);
      assert keys - {first} - {key} == keys - {key} - {first};
    }
  }

  lemma {:induction false} SumSame(keys: set<Key>, m: map<Key, IdStatistics>, m': map<Key, IdStatistics>)
    requires keys <= m.Keys && keys <= m'.Keys && forall k :: k in keys ==> m[k] == m'[k]
    ensures SumCounts(keys, m) == SumCounts(keys, m')
    decreases |keys|
  {
    if keys != {} {
      var key :| key in keys;
      SumTakes(keys, m, key);
      SumTakes(keys, m', key);
      SumSame(keys - {key}, m, m');
    }
  }

  lemma {:induction false} BumpSum(m: map<Key, IdStatistics>, f: CanFrame)
    ensures var s, s' := SumCounts(m.Keys, m), SumCounts(Bump(m, f).Keys, Bump(m, f));
      s' == (s.0 + 1, s.1 + f.dlc)
  {
    var m', key := Bump(m, f), KeyOf(f);
    SumTakes(m'.Keys, m', key);
    SumSame(m.Keys - {key}, m, m');
    assert m'.Keys - {key} == m.Keys - {key};
    if key in m {
      SumTakes(m.Keys, m, key);
    } else {
      assert m.Keys - {key} == m.Keys;
    }
  }

  /** Conservation: the per-identifier counters add up to the totals. */
  lemma {:induction false} PerIdSumsToTotals(frames: seq<CanFrame>)
    ensures SumCounts(PerId(frames).Keys, PerId(frames)) == (|frames|, PayloadBytes(frames))
    decreases |frames|
  {
    if frames != [] {
      PerIdSumsToTotals(frames[..|frames| - 1]);
      BumpSum(PerId(frames[..|frames| - 1]), frames[|frames| - 1]);
    }
  }
}
