/** Timer.cpp: a heap with lazy deletion and a map from descriptor to deadline. The map alone is the specification. */
module Timers {
  /** One pushed timer. */
  datatype TimerEvent = TimerEvent(fd: int, expireTime: int)

  type Deadlines = map<int, int>

  /** `fired` is an answer of tick at time `now` on these deadlines: each descriptor that is due, once, in
      deadline order. */
  ghost predicate IsTick(deadlines: Deadlines, now: int, fired: seq<int>) {
    && (forall i, j :: 0 <= i < j < |fired| ==> fired[i] != fired[j])
    && (forall i :: 0 <= i < |fired| ==> fired[i] in deadlines && deadlines[fired[i]] <= now)
    && (forall fd :: fd in deadlines && deadlines[fd] <= now ==> fd in fired)
    && (forall i, j :: 0 <= i < j < |fired| ==> deadlines[fired[i]] <= deadlines[fired[j]])
  }

  /** What stays armed. */
  function NotDue(deadlines: Deadlines, now: int): Deadlines {
    map fd | fd in deadlines && deadlines[fd] > now :: deadlines[fd]
  }

  lemma {:induction false} NothingDue(deadlines: Deadlines, now: int)
    requires forall fd :: fd in deadlines ==> deadlines[fd] > now
    ensures NotDue(deadlines, now) == deadlines && IsTick(deadlines, now, [])
  {
    assert forall fd :: fd in deadlines <==> fd in NotDue(deadlines, now);
  }

  // ---------- The deadline map over a whole history ----------

  datatype Op = Arm(fd: int, deadline: int) | Cancel(fd: int) | Fire(now: int)

  function Apply(deadlines: Deadlines, op: Op): Deadlines {
    match op
    case Arm(fd, deadline) => deadlines[fd := deadline]
    case Cancel(fd) => deadlines - {fd}
    case Fire(now) => NotDue(deadlines, now)
  }

  function After(ops: seq<Op>): Deadlines {
    if ops == [] then map[] else Apply(After(ops[..|ops| - 1]), ops[|ops| - 1])
  }

  /** The operation leaves a deadline `d` of `fd` armed. */
  predicate Keeps(op: Op, fd: int, d: int) {
    match op
    case Arm(other, _) => other != fd
    case Cancel(other) => other != fd
    case Fire(now) => d > now
  }

  /** `fd` was armed for `d` by operation i, and nothing since has re-armed, cancelled or fired it. */
  predicate ArmedBy(ops: seq<Op>, i: nat, fd: int, d: int) {
    i < |ops| && ops[i] == Arm(fd, d) && forall j :: i < j < |ops| ==> Keeps(ops[j], fd, d)
  }

  /** A deadline is in the map exactly when it is the latest one set and has not been cancelled or fired since. */
  lemma {:induction false} LatestDeadlineCounts(ops: seq<Op>, fd: int, d: int)
    ensures fd in After(ops) && After(ops)[fd] == d <==> exists i: nat :: ArmedBy(ops, i, fd, d)
    decreases |ops|
  {
    if ops != [] {
      var n := |ops| - 1;
      var before, last := ops[..n], ops[n];
      LatestDeadlineCounts(before, fd, d);
      assert forall i: nat :: i < n ==> (ArmedBy(ops, i, fd, d) <==> ArmedBy(before, i, fd, d) && Keeps(last, fd, d));
      assert ArmedBy(ops, n, fd, d) <==> last == Arm(fd, d);
    }
  }

  lemma {:induction false} AfterSnoc(ops: seq<Op>, op: Op)
    ensures After(ops + [op]) == Apply(After(ops), op)
  {
    assert (ops + [op])[..|ops|] == ops;
  }

  /** Two answers to the same tick differ at most in the order of equal deadlines. */
  lemma {:induction false} TickIsDetermined(deadlines: Deadlines, now: int, a: seq<int>, b: seq<int>)
    requires IsTick(deadlines, now, a) && IsTick(deadlines, now, b)
    ensures multiset(a) == multiset(b)
  {
    forall fd ensures multiset(a)[fd] == multiset(b)[fd] {
      CountDistinct(a, fd);
      CountDistinct(b, fd);
    }
  }

  lemma {:induction false} CountDistinct(s: seq<int>, x: int)
    requires forall i, j :: 0 <= i < j < |s| ==> s[i] != s[j]
    ensures multiset(s)[x] == if x in s then 1 else 0
  {
    if s != [] {
      CountDistinct(s[1..], x);
      assert s == [s[0]] + s[1..];
    }
  }

  class Timer {
    /** Everything done to this timer, in order. */
    ghost var ops: seq<Op>
    /** std::priority_queue with the earliest time on top; equal times come out in any order. */
    var heap: multiset<TimerEvent>
    var deadlines: Deadlines

    /** Every armed deadline has its entry in the heap; stale and repeated entries may lie around it. */
    ghost predicate Valid()
      reads this
    {
      && deadlines == After(ops)
      && forall fd :: fd in deadlines ==> TimerEvent(fd, deadlines[fd]) in heap
    }

    constructor ()
      ensures Valid() && ops == []
    {
      heap, deadlines, ops := multiset{}, map[], [];
    }

    method AddTimer(fd: int, timeoutSec: int, now: int)
      requires Valid()
      modifies this
      ensures Valid() && ops == old(ops) + [Arm(fd, now + timeoutSec)]
      ensures deadlines == old(deadlines)[fd := now + timeoutSec]
    {
      AfterSnoc(ops, Arm(fd, now + timeoutSec));
      ops := ops + [Arm(fd, now + timeoutSec)];
      heap := heap + multiset{TimerEvent(fd, now + timeoutSec)};
      deadlines := deadlines[fd := now + timeoutSec];
    }

    method UpdateTimer(fd: int, timeoutSec: int, now: int)
      requires Valid()
      modifies this
      ensures Valid() && ops == old(ops) + [Arm(fd, now + timeoutSec)]
      ensures deadlines == old(deadlines)[fd := now + timeoutSec]
    {
      AfterSnoc(ops, Arm(fd, now + timeoutSec));
      ops := ops + [Arm(fd, now + timeoutSec)];
      heap := heap + multiset{TimerEvent(fd, now + timeoutSec)};
      deadlines := deadlines[fd := now + timeoutSec];
    }

    /** Erases the deadline; the heap entry stays behind. */
    method RemoveTimer(fd: int)
      requires Valid()
      modifies this
      ensures Valid() && ops == old(ops) + [Cancel(fd)]
      ensures deadlines == old(deadlines) - {fd}
    {
      AfterSnoc(ops, Cancel(fd));
      ops := ops + [Cancel(fd)];
      deadlines := deadlines - {fd};
    }

    /** heap_.top(). */
    method Top() returns (event: TimerEvent)
      requires heap != multiset{}
      ensures event in heap && forall e :: e in heap ==> event.expireTime <= e.expireTime
    {
      ghost var first := Earliest(heap);
      event :| event in heap && forall e :: e in heap ==> event.expireTime <= e.expireTime;
    }

    method Tick(now: int) returns (fired: seq<int>)
      requires Valid()
      modifies this
      ensures Valid() && ops == old(ops) + [Fire(now)] && IsTick(After(old(ops)), now, fired)
      ensures IsTick(old(deadlines), now, fired) && deadlines == NotDue(old(deadlines), now)
    {
      hide After, Between, FiredFirst, IsTick, NotDue;
      fired := [];
      ghost var before := deadlines;
      NothingFired(before, now, heap);
      while heap != multiset{}
        invariant ops == old(ops) && before == After(ops) && Between(before, deadlines, fired, now)
        invariant forall fd :: fd in deadlines ==> TimerEvent(fd, deadlines[fd]) in heap
        invariant FiredFirst(before, fired, heap)
        decreases |heap|
      {
        var event := Top();
        if event.expireTime > now {
          break;
        }
        StaleDropped(before, fired, heap, event);
        heap := heap - multiset{event};
        if event.fd in deadlines && deadlines[event.fd] == event.expireTime {
          OneFires(before, deadlines, fired, heap, event, now);
          fired := fired + [event.fd];
          deadlines := deadlines - {event.fd};
        }
      }
      AllFired(before, deadlines, fired, now);
      AfterSnoc(ops, Fire(now));
      ops := ops + [Fire(now)];
    }
  }

  /** Half-way through tick: the fired descriptors and the armed ones split the deadlines. */
  ghost predicate Between(before: Deadlines, deadlines: Deadlines, fired: seq<int>, now: int) {
    && (forall fd :: fd in deadlines <==> fd in before && fd !in fired)
    && (forall fd :: fd in deadlines ==> deadlines[fd] == before[fd])
    && (forall i :: 0 <= i < |fired| ==> fired[i] in before && before[fired[i]] <= now)
    && (forall i, j :: 0 <= i < j < |fired| ==> fired[i] != fired[j] && before[fired[i]] <= before[fired[j]])
  }

  /** What has fired was due no later than what is still in the heap. */
  ghost predicate FiredFirst(before: Deadlines, fired: seq<int>, heap: multiset<TimerEvent>) {
    forall fd, e :: fd in fired && e in heap ==> fd in before && before[fd] <= e.expireTime
  }

  lemma {:induction false} NothingFired(before: Deadlines, now: int, heap: multiset<TimerEvent>)
    ensures Between(before, before, [], now) && FiredFirst(before, [], heap)
  {
  }

  lemma {:induction false} StaleDropped(before: Deadlines, fired: seq<int>, heap: multiset<TimerEvent>,
      event: TimerEvent)
    requires FiredFirst(before, fired, heap) && event in heap
    ensures FiredFirst(before, fired, heap - multiset{event})
    ensures forall fd :: fd in fired ==> fd in before && before[fd] <= event.expireTime
  {
  }

  lemma {:induction false} OneFires(before: Deadlines, deadlines: Deadlines, fired: seq<int>,
      heap: multiset<TimerEvent>,
      event: TimerEvent, now: int)
    requires Between(before, deadlines, fired, now) && event.expireTime <= now && FiredFirst(before, fired, heap)
    requires event.fd in deadlines && deadlines[event.fd] == event.expireTime
    requires forall fd :: fd in fired ==> fd in before && before[fd] <= event.expireTime
    requires forall e :: e in heap ==> event.expireTime <= e.expireTime
    ensures Between(before, deadlines - {event.fd}, fired + [event.fd], now)
    ensures FiredFirst(before, fired + [event.fd], heap)
  {
    var more := fired + [event.fd];
    assert forall fd :: fd in more <==> fd in fired || fd == event.fd;
  }

  lemma {:induction false} AllFired(before: Deadlines, deadlines: Deadlines, fired: seq<int>, now: int)
    requires Between(before, deadlines, fired, now) && forall fd :: fd in deadlines ==> deadlines[fd] > now
    ensures IsTick(before, now, fired) && deadlines == NotDue(before, now)
  {
    var rest := NotDue(before, now);
    forall fd ensures fd in deadlines <==> fd in rest {
      if fd in before && fd in fired {
        var i :| 0 <= i < |fired| && fired[i] == fd;
        assert before[fd] <= now;
      }
      if fd in deadlines {
        assert fd in before && before[fd] == deadlines[fd];
      }
    }
    assert forall fd :: fd in deadlines ==> deadlines[fd] == rest[fd];
  }

  lemma {:induction false} Earliest(heap: multiset<TimerEvent>) returns (event: TimerEvent)
    requires heap != multiset{}
    ensures event in heap && forall e :: e in heap ==> event.expireTime <= e.expireTime
    decreases |heap|
  {
    var some :| some in heap;
    var rest := heap - multiset{some};
    event := some;
    if rest != multiset{} {
      var first := Earliest(rest);
      event := if some.expireTime <= first.expireTime then some else first;
    }
    forall e | e in heap ensures event.expireTime <= e.expireTime {
      if e != some {
        assert e in rest;
      }
    }
  }
}
