/** The bounded frame store (FrameStore.cpp): a window on the history of everything ever appended. */
module FrameStores {
  import opened Wrappers
  import opened CanFrames

  /** Sequences are assigned 1, 2, 3, ... in append order. */
  predicate Numbered(history: seq<CanFrame>) {
    forall i :: 0 <= i < |history| ==> history[i].sequence == i + 1
  }

  function Overwritten(n: nat, capacity: nat): nat {
    if n > capacity then n - capacity else 0
  }

  /** The last min(n, capacity) frames of the history. */
  function Retained(history: seq<CanFrame>, capacity: nat): seq<CanFrame> {
    history[Overwritten(|history|, capacity)..]
  }

  predicate Matches(f: CanFrame, filter: Option<bv32>) {
    filter.None? || f.id == filter.value
  }

  /** The frames queryAfter returns: the first `limit` of those behind `after` that match the filter. */
  function Select(frames: seq<CanFrame>, after: nat, filter: Option<bv32>, limit: nat): (r: seq<CanFrame>)
    ensures |r| <= limit
  {
    if frames == [] || limit == 0 then []
    else if frames[0].sequence > after && Matches(frames[0], filter) then
      [frames[0]] + Select(frames[1..], after, filter, limit - 1)
    else Select(frames[1..], after, filter, limit)
  }

  class FrameStore {
    const capacity: nat
    var nextSequence: nat
    var totalAppended: nat
    var overwritten: nat
    var frames: seq<CanFrame>
    /** Every frame ever appended, with its sequence number. */
    ghost var history: seq<CanFrame>

    ghost predicate Valid()
      reads this
    {
      && capacity > 0 && Numbered(history)
      && frames == Retained(history, capacity)
      && totalAppended == |history| && nextSequence == |history| + 1
      && overwritten == Overwritten(|history|, capacity)
    }

    constructor (capacity: nat)
      requires capacity > 0
      ensures Valid() && history == [] && this.capacity == capacity
    {
      this.capacity := capacity;
      nextSequence, totalAppended, overwritten, frames := 1, 0, 0, [];
      history := [];
    }

    method Append(frame: CanFrame) returns (number: nat)
      requires Valid()
      modifies this
      ensures Valid()
      ensures number == |old(history)| + 1
      ensures history == old(history) + [frame.(sequence := number)]
    {
      number := nextSequence;
      nextSequence := nextSequence + 1;
      var stored := frame.(sequence := number);
      totalAppended := totalAppended + 1;
      if |frames| >= capacity {
        frames := frames[1..];
        overwritten := overwritten + 1;
      }
      frames := frames + [stored];
      history := history + [stored];
      assert frames == Retained(history, capacity);
    }

    method QueryAfter(after: nat, filter: Option<bv32>, limit: nat) returns (result: seq<CanFrame>)
      requires Valid()
      ensures result == Select(Retained(history, capacity), after, filter, limit)
    {
      hide Select, Matches;
      result := [];
      SelectEnd(frames, after, filter, 0);
      if limit == 0 { return; }
      var i := 0;
      assert frames[0..] == frames;
      while i < |frames|
        invariant i <= |frames| && |result| < limit
        invariant result + Select(frames[i..], after, filter, limit - |result|) == Select(frames, after, filter, limit)
      {
        SelectStep(result, frames, i, after, filter, limit - |result|);
        var frame := frames[i];
        i := i + 1;
        if frame.sequence <= after { continue; }
        if !Matches(frame, filter) { continue; }
        result := result + [frame];
        if |result| >= limit {
          SelectEnd(frames[i..], after, filter, 0);
          return;
        }
      }
      SelectEnd(frames[i..], after, filter, limit - |result|);
    }

    method Stats() returns (appended: nat, lost: nat, buffered: nat)
      requires Valid()
      ensures appended == |history| && appended == lost + buffered && buffered <= capacity
      ensures lost > 0 ==> buffered == capacity
    {
      appended, lost, buffered := totalAppended, overwritten, |frames|;
    }
  }

  lemma {:induction false} SelectStep(done: seq<CanFrame>, frames: seq<CanFrame>, i: nat, after: nat,
      filter: Option<bv32>, limit: nat)
    requires i < |frames| && limit > 0
    ensures var rest := frames[i + 1..];
      done + Select(frames[i..], after, filter, limit) ==
        if frames[i].sequence > after && Matches(frames[i], filter)
        then done + [frames[i]] + Select(rest, after, filter, limit - 1)
        else done + Select(rest, after, filter, limit)
  {
    assert frames[i..][1..] == frames[i + 1..];
  }

  lemma {:induction false} SelectEnd(frames: seq<CanFrame>, after: nat, filter: Option<bv32>, limit: nat)
    requires frames == [] || limit == 0
    ensures Select(frames, after, filter, limit) == []
  {
  }

  /** What the store holds: the last frames of the history, as many as fit, so exactly the numbers above the
      count of those overwritten. */
  lemma {:induction false} RetainedIsLast(history: seq<CanFrame>, capacity: nat)
    requires Numbered(history)
    ensures var r := Retained(history, capacity);
      && |r| == (if |history| <= capacity then |history| else capacity)
      && history == history[..|history| - |r|] + r
      && forall s: nat :: Holds(r, s) <==> |history| - |r| < s <= |history|
    ensures |history| - |Retained(history, capacity)| == Overwritten(|history|, capacity)
  {
    var r := Retained(history, capacity);
    var lost := |history| - |r|;
    forall s: nat | lost < s <= |history| ensures Holds(r, s) {
      assert r[s - lost - 1].sequence == s;
    }
  }

  // ---------- What a query returns, in terms of the history ----------

  predicate Holds(frames: seq<CanFrame>, s: nat) {
    exists k :: 0 <= k < |frames| && frames[k].sequence == s
  }

  predicate Increasing(frames: seq<CanFrame>) {
    forall i, j :: 0 <= i < j < |frames| ==> frames[i].sequence < frames[j].sequence
  }

  /** Number `s` names a frame of the history that the filter lets through. */
  predicate Asked(history: seq<CanFrame>, filter: Option<bv32>, s: nat) {
    0 < s <= |history| && (filter.None? || history[s - 1].id == filter.value)
  }

  function Last(frames: seq<CanFrame>, otherwise: nat): nat {
    if frames == [] then otherwise else frames[|frames| - 1].sequence
  }

  /** The result of a query over the suffix of the history behind `lo`. */
  ghost predicate IsPage(history: seq<CanFrame>, lo: nat, after: nat, filter: Option<bv32>, limit: nat,
      r: seq<CanFrame>) {
    && Increasing(r)
    && (forall k :: 0 <= k < |r| ==>
          var s := r[k].sequence;
          lo < s <= |history| && after < s && r[k] == history[s - 1] && (filter.None? || r[k].id == filter.value))
    && (forall s :: lo < s && after < s && Asked(history, filter, s) && (s <= Last(r, 0) || |r| < limit) ==>
          Holds(r, s))
  }

  lemma {:induction false} SelectIsPage(history: seq<CanFrame>, lo: nat, after: nat, filter: Option<bv32>, limit: nat)
    requires Numbered(history) && lo <= |history|
    ensures IsPage(history, lo, after, filter, limit, Select(history[lo..], after, filter, limit))
    decreases |history| - lo
  {
    hide IsPage;
    if lo == |history| || limit == 0 {
      PageNil(history, lo, after, filter, limit);
    } else {
      assert history[lo..][1..] == history[lo + 1..];
      if history[lo].sequence > after && Matches(history[lo], filter) {
        SelectIsPage(history, lo + 1, after, filter, limit - 1);
        PageCons(history, lo, after, filter, limit, Select(history[lo + 1..], after, filter, limit - 1));
      } else {
        SelectIsPage(history, lo + 1, after, filter, limit);
        PageSkip(history, lo, after, filter, limit, Select(history[lo + 1..], after, filter, limit));
      }
    }
  }

  lemma {:induction false} PageNil(history: seq<CanFrame>, lo: nat, after: nat, filter: Option<bv32>, limit: nat)
    requires lo == |history| || limit == 0
    ensures IsPage(history, lo, after, filter, limit, [])
  {
  }

  lemma {:induction false} PageSkip(history: seq<CanFrame>, lo: nat, after: nat, filter: Option<bv32>,
      limit: nat, r: seq<CanFrame>)
    requires Numbered(history) && lo < |history|
    requires !(history[lo].sequence > after && Matches(history[lo], filter))
    requires IsPage(history, lo + 1, after, filter, limit, r)
    ensures IsPage(history, lo, after, filter, limit, r)
  {
    assert forall s :: lo < s && after < s && Asked(history, filter, s) ==> lo + 1 < s;
  }

  lemma {:induction false} PageCons(history: seq<CanFrame>, lo: nat, after: nat, filter: Option<bv32>,
      limit: nat, tail: seq<CanFrame>)
    requires Numbered(history) && lo < |history| && limit > 0
    requires history[lo].sequence > after && Matches(history[lo], filter)
    requires IsPage(history, lo + 1, after, filter, limit - 1, tail)
    ensures IsPage(history, lo, after, filter, limit, [history[lo]] + tail)
  {
    var r := [history[lo]] + tail;
    forall s | lo < s && after < s && Asked(history, filter, s) && (s <= Last(r, 0) || |r| < limit)
      ensures Holds(r, s)
    {
      if s == lo + 1 {
        assert r[0].sequence == s;
      } else {
        assert tail != [] ==> r[|r| - 1] == tail[|tail| - 1];
        var k :| 0 <= k < |tail| && tail[k].sequence == s;
        assert r[k + 1].sequence == s;
      }
    }
  }

  /** Without a filter the result is one contiguous slice of the history. */
  lemma {:induction false} UnfilteredIsSlice(history: seq<CanFrame>, lo: nat, after: nat, limit: nat)
    requires Numbered(history) && lo <= |history|
    ensures Select(history[lo..], after, None, limit) ==
      history[SliceStart(lo, after, |history|)..SliceEnd(lo, after, |history|, limit)]
    decreases |history| - lo
  {
    hide Select;
    if lo == |history| || limit == 0 {
      SelectEnd(history[lo..], after, None, limit);
    } else {
      assert history[lo..][1..] == history[lo + 1..] && history[lo..][0] == history[lo];
      SelectNext(history[lo..], after, limit);
      if history[lo].sequence > after {
        UnfilteredIsSlice(history, lo + 1, after, limit - 1);
        var end := SliceEnd(lo, after, |history|, limit);
        assert [history[lo]] + history[lo + 1..end] == history[lo..end];
      } else {
        UnfilteredIsSlice(history, lo + 1, after, limit);
      }
    }
  }

  lemma {:induction false} SelectNext(frames: seq<CanFrame>, after: nat, limit: nat)
    requires frames != [] && limit > 0
    ensures Select(frames, after, None, limit) ==
      if frames[0].sequence > after then [frames[0]] + Select(frames[1..], after, None, limit - 1)
      else Select(frames[1..], after, None, limit)
  {
  }

  function Min(a: nat, b: nat): nat { if a < b then a else b }

  function Max(a: nat, b: nat): nat { if a < b then b else a }

  function SliceStart(lo: nat, after: nat, n: nat): nat
    requires lo <= n
  {
    Max(lo, Min(after, n))
  }

  function SliceEnd(lo: nat, after: nat, n: nat, limit: nat): nat
    requires lo <= n
  {
    Min(n, SliceStart(lo, after, n) + limit)
  }
}
