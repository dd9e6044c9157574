/** The EventLoop object as its own thread uses it: the table and the timer updated in place, call by call. */
module ConnectionTables {
  import opened Wrappers
  import opened Timers
  import E = EventLoops

  /** The timeout loop on an unshared table: an SSE connection is armed again, everything else due is removed. The
      clock is read once for each descriptor. */
  function ExpireAll(r: E.Registry, due: seq<int>, sse: set<nat>, clock: int -> int): E.Registry
    decreases |due|
  {
    if due == [] then r
    else ExpireAll(ExpireOne(r, due[0], sse, clock), due[1..], sse, clock)
  }

  predicate IsStream(r: E.Registry, fd: int, sse: set<nat>) {
    fd in r.table && r.table[fd].Client? && r.table[fd].conn in sse
  }

  function ExpireOne(r: E.Registry, fd: int, sse: set<nat>, clock: int -> int): E.Registry {
    if IsStream(r, fd, sse) then E.AddTimer(r, fd, clock(fd)) else E.RemoveEvent(r, fd, None)
  }

  /** The accept loop: each descriptor gets its connection and its timer. */
  function AcceptAll(r: E.Registry, fds: seq<int>, first: nat, clock: nat -> int): E.Registry
    decreases |fds|
  {
    if fds == [] then r else AcceptAll(AcceptOne(r, fds[0], first, clock(first)), fds[1..], first + 1, clock)
  }

  function AcceptOne(r: E.Registry, fd: int, conn: nat, now: int): E.Registry {
    var accepted := r.(kernel := r.kernel[fd := E.Client(conn)]);
    E.AddTimer(E.AddEvent(accepted, fd, E.Client(conn)), fd, now)
  }

  /** One entry of epoll_wait's answer, with what the source asks for while it handles it: the clock, and for
      the listening socket the descriptors that accept returns. */
  datatype Reported = Reported(fd: int, kind: E.EventKind, now: int, accepted: seq<int>)

  /** What handling one event does to the tables. Input or output on a registered descriptor sets its timer anew. */
  function HandleOne(r: E.Registry, e: Reported, listenFd: int, first: nat, clock: nat -> int): E.Registry {
    if e.fd == listenFd then AcceptAll(r, e.accepted, first, clock)
    else if e.kind.Io? then (if e.fd in r.table then E.AddTimer(r, e.fd, e.now) else r)
    else if e.kind.ErrorOnly? then E.RemoveEvent(r, e.fd, None)
    else r
  }

  function NextConn(e: Reported, listenFd: int, first: nat): nat {
    if e.fd == listenFd then first + |e.accepted| else first
  }

  /** Who is handed to the thread pool: the connection registered there. */
  function TaskOf(r: E.Registry, e: Reported, listenFd: int): seq<E.Entry> {
    if e.fd != listenFd && e.kind.Io? && e.fd in r.table then [r.table[e.fd]] else []
  }

  function HandleAll(r: E.Registry, events: seq<Reported>, listenFd: int, first: nat, clock: nat -> int): E.Registry
    decreases |events|
  {
    if events == [] then r
    else
      HandleAll(HandleOne(r, events[0], listenFd, first, clock), events[1..], listenFd,
                NextConn(events[0], listenFd, first), clock)
  }

  function TasksOf(r: E.Registry, events: seq<Reported>, listenFd: int, first: nat, clock: nat -> int): seq<E.Entry>
    decreases |events|
  {
    if events == [] then []
    else
      TaskOf(r, events[0], listenFd) +
      TasksOf(HandleOne(r, events[0], listenFd, first, clock), events[1..], listenFd,
              NextConn(events[0], listenFd, first), clock)
  }

  class EventLoop {
    var connMap: map<int, E.Entry>
    const timer: Timer
    /** The kernel's descriptor table, and the connections closed. */
    ghost var kernel: map<int, E.Entry>
    ghost var closed: seq<nat>

    ghost predicate Valid()
      reads this, timer
    {
      timer.Valid()
    }

    ghost function Reg(): E.Registry
      reads this, timer
    {
      E.Registry(connMap, kernel, closed, timer.deadlines)
    }

    /** A new loop has nothing registered; the listening socket is open already. */
    constructor (ghost listenFd: int)
      ensures Valid() && fresh(timer) && Reg() == E.Registry(map[], map[listenFd := E.Listener], [], map[])
    {
      timer := new Timer();
      connMap := map[];
      kernel, closed := map[listenFd := E.Listener], [];
    }

    method AddEvent(fd: int, entry: E.Entry)
      requires Valid()
      modifies this`connMap
      ensures Valid() && Reg() == E.AddEvent(old(Reg()), fd, entry)
      ensures connMap == if fd in old(connMap) then old(connMap) else old(connMap)[fd := entry]
    {
      if fd !in connMap {
        connMap := connMap[fd := entry];
      }
    }

    method RemoveEvent(fd: int, expected: Option<nat>)
      requires Valid()
      modifies this, timer
      ensures Valid() && Reg() == E.RemoveEvent(old(Reg()), fd, expected)
    {
      if fd !in connMap { return; }
      if expected.Some? && connMap[fd] != E.Client(expected.value) { return; }
      timer.RemoveTimer(fd);
      connMap := connMap - {fd};
      closed := closed + if fd in kernel && kernel[fd].Client? then [kernel[fd].conn] else [];
      kernel := kernel - {fd};
    }

    method IsRegistered(fd: int, expected: Option<nat>) returns (registered: bool)
      ensures registered == E.IsRegistered(Reg(), fd, expected)
      ensures registered <==> fd in connMap && (expected.Some? ==> connMap[fd] == E.Client(expected.value))
    {
      registered := fd in connMap && (expected.None? || connMap[fd] == E.Client(expected.value));
    }

    /** The timeout part of loop(). `now` is the tick's clock reading, `clock` the one of the timers armed again. */
    method ExpireTimers(now: int, sse: set<nat>, clock: int -> int) returns (fired: seq<int>)
      requires Valid()
      modifies this, timer
      ensures Valid() && IsTick(old(timer.deadlines), now, fired)
      ensures Reg() == ExpireAll(old(Reg()).(deadlines := NotDue(old(timer.deadlines), now)), fired, sse, clock)
    {
      hide IsTick, NotDue, E.RemoveEvent;
      fired := timer.Tick(now);
      ghost var r := Reg();
      var i := 0;
      assert fired[0..] == fired;
      while i < |fired|
        invariant i <= |fired| && Valid()
        invariant ExpireAll(Reg(), fired[i..], sse, clock) == ExpireAll(r, fired, sse, clock)
      {
        var fd := fired[i];
        assert fired[i..][1..] == fired[i + 1..];
        if fd in connMap && connMap[fd].Client? && connMap[fd].conn in sse {
          timer.AddTimer(fd, E.TIMEOUT_SEC, clock(fd));
        } else {
          RemoveEvent(fd, None);
        }
        i := i + 1;
      }
    }

    /** One round of the accept loop: accept has returned `fd`. */
    method Welcome(fd: int, conn: nat, now: int)
      requires Valid()
      modifies this, timer
      ensures Valid() && Reg() == AcceptOne(old(Reg()), fd, conn, now)
    {
      kernel := kernel[fd := E.Client(conn)];
      AddEvent(fd, E.Client(conn));
      timer.AddTimer(fd, E.TIMEOUT_SEC, now);
    }

    /** handleNewConnection: `fds` are the descriptors accept returns before EAGAIN, `first` the number of the
        first new connection. */
    method HandleNewConnection(fds: seq<int>, first: nat, clock: nat -> int)
      requires Valid()
      modifies this, timer
      ensures Valid() && Reg() == AcceptAll(old(Reg()), fds, first, clock)
    {
      hide AcceptOne;
      var i := 0;
      assert fds[0..] == fds;
      while i < |fds|
        invariant i <= |fds| && Valid()
        invariant AcceptAll(Reg(), fds[i..], first + i, clock) == AcceptAll(old(Reg()), fds, first, clock)
      {
        assert fds[i..][1..] == fds[i + 1..];
        Welcome(fds[i], first + i, clock(first + i));
        i := i + 1;
      }
    }

    /** One round of the loop of handleEvents; `task` is what it submits. */
    method HandleEvent(e: Reported, listenFd: int, first: nat, clock: nat -> int) returns (task: seq<E.Entry>)
      requires Valid()
      modifies this, timer
      ensures Valid() && Reg() == HandleOne(old(Reg()), e, listenFd, first, clock)
      ensures task == TaskOf(old(Reg()), e, listenFd)
    {
      hide AcceptAll, E.RemoveEvent;
      if e.fd == listenFd {
        HandleNewConnection(e.accepted, first, clock);
      } else if e.kind.Io? {
        if e.fd !in connMap { return []; }
        timer.UpdateTimer(e.fd, E.TIMEOUT_SEC, e.now);
        return [connMap[e.fd]];
      } else if e.kind.ErrorOnly? {
        RemoveEvent(e.fd, None);
      }
      return [];
    }

    /** handleEvents. */
    method HandleEvents(events: seq<Reported>, listenFd: int, first: nat, clock: nat -> int)
      returns (tasks: seq<E.Entry>)
      requires Valid()
      modifies this, timer
      ensures Valid() && Reg() == HandleAll(old(Reg()), events, listenFd, first, clock)
      ensures tasks == TasksOf(old(Reg()), events, listenFd, first, clock)
    {
      hide HandleOne, TaskOf;
      tasks := [];
      var i, next := 0, first;
      assert events[0..] == events;
      while i < |events|
        invariant i <= |events| && Valid()
        invariant HandleAll(Reg(), events[i..], listenFd, next, clock) ==
          HandleAll(old(Reg()), events, listenFd, first, clock)
        invariant tasks + TasksOf(Reg(), events[i..], listenFd, next, clock) ==
          TasksOf(old(Reg()), events, listenFd, first, clock)
      {
        assert events[i..][1..] == events[i + 1..];
        var task := HandleEvent(events[i], listenFd, next, clock);
        tasks := tasks + task;
        next := NextConn(events[i], listenFd, next);
        i := i + 1;
      }
    }
  }

  /** The end of Server.init: a new loop with the listening socket registered, where the machine starts. */
  method InitServer(listenFd: int) returns (eventLoop: EventLoop)
    ensures fresh(eventLoop) && eventLoop.Valid() && eventLoop.Reg() == E.Start(listenFd).reg
  {
    eventLoop := new EventLoop(listenFd);
    eventLoop.AddEvent(listenFd, E.Listener);
  }

  // ---------- What the two loops achieve ----------

  /** A descriptor the loop does not visit keeps its entry, its socket and its deadline. */
  ghost predicate Untouched(r: E.Registry, r': E.Registry, fd: int) {
    && (fd in r'.table <==> fd in r.table) && (fd in r.table ==> r'.table[fd] == r.table[fd])
    && (fd in r'.kernel <==> fd in r.kernel) && (fd in r.kernel ==> r'.kernel[fd] == r.kernel[fd])
    && (fd in r'.deadlines <==> fd in r.deadlines) && (fd in r.deadlines ==> r'.deadlines[fd] == r.deadlines[fd])
  }

  lemma {:induction false} OthersUntouched(r: E.Registry, due: seq<int>, sse: set<nat>, clock: int -> int, fd: int)
    requires fd !in due
    ensures Untouched(r, ExpireAll(r, due, sse, clock), fd)
    decreases |due|
  {
    if due != [] {
      assert due[0] in due && forall d :: d in due[1..] ==> d in due;
      OthersUntouched(ExpireOne(r, due[0], sse, clock), due[1..], sse, clock, fd);
    }
  }

  /** Every due descriptor is settled as the table had it before: a stream is armed again, any other connection
      is closed. */
  lemma {:induction false} EachIsSettled(r: E.Registry, due: seq<int>, sse: set<nat>, clock: int -> int, fd: int)
    requires fd in due && E.Distinct(due)
    ensures var r' := ExpireAll(r, due, sse, clock);
      if IsStream(r, fd, sse) then
        && fd in r'.table && r'.table[fd] == r.table[fd]
        && fd in r'.deadlines && r'.deadlines[fd] == clock(fd) + E.TIMEOUT_SEC
      else fd !in r'.table && (fd in r.table ==> fd !in r'.kernel)
    decreases |due|
  {
    var r1, rest := ExpireOne(r, due[0], sse, clock), due[1..];
    if fd == due[0] {
      assert forall j :: 0 < j < |due| ==> due[j] != due[0];
      assert fd !in rest;
      OthersUntouched(r1, rest, sse, clock, fd);
    } else {
      assert due == [due[0]] + rest;
      assert Untouched(r, r1, fd);
      EachIsSettled(r1, rest, sse, clock, fd);
    }
  }

  /** Every accepted descriptor ends up open, registered for its own connection, and timed. */
  lemma {:induction false} EachIsAccepted(r: E.Registry, fds: seq<int>, first: nat, clock: nat -> int, i: nat)
    requires i < |fds| && E.Distinct(fds) && forall fd :: fd in fds ==> fd !in r.table
    ensures var r' := AcceptAll(r, fds, first, clock); var fd := fds[i];
      && fd in r'.table && r'.table[fd] == E.Client(first + i)
      && fd in r'.kernel && r'.kernel[fd] == E.Client(first + i)
      && fd in r'.deadlines && r'.deadlines[fd] == clock(first + i) + E.TIMEOUT_SEC
    decreases |fds|
  {
    var r1, rest := AcceptOne(r, fds[0], first, clock(first)), fds[1..];
    assert fds == [fds[0]] + rest && fds[0] in fds;
    Welcomed(r, fds[0], first, clock(first));
    hide AcceptOne;
    if i == 0 {
      assert forall j :: 0 < j < |fds| ==> fds[j] != fds[0];
      LaterAccepts(r1, rest, first + 1, clock, fds[0]);
    } else {
      assert forall fd :: fd in rest ==> fd in fds && fd !in r1.table by {
        forall fd | fd in rest ensures fd in fds && fd !in r1.table {
          var j :| 0 <= j < |rest| && rest[j] == fd;
          assert fds[j + 1] == fd;
        }
      }
      EachIsAccepted(r1, rest, first + 1, clock, i - 1);
    }
  }

  lemma {:induction false} Welcomed(r: E.Registry, fd: int, conn: nat, now: int)
    requires fd !in r.table
    ensures var r' := AcceptOne(r, fd, conn, now);
      && r'.table == r.table[fd := E.Client(conn)] && r'.kernel == r.kernel[fd := E.Client(conn)]
      && r'.deadlines == r.deadlines[fd := now + E.TIMEOUT_SEC]
  {
  }

  lemma {:induction false} LaterAccepts(r: E.Registry, fds: seq<int>, first: nat, clock: nat -> int, fd: int)
    requires fd !in fds
    ensures Untouched(r, AcceptAll(r, fds, first, clock), fd)
    decreases |fds|
  {
    if fds != [] {
      assert fds[0] in fds && forall d :: d in fds[1..] ==> d in fds;
      LaterAccepts(AcceptOne(r, fds[0], first, clock(first)), fds[1..], first + 1, clock, fd);
    }
  }

  // ---------- What handleEvents achieves ----------

  /** As epoll answers: each descriptor once; and accept returns descriptors that are not in use. */
  ghost predicate GoodAnswer(r: E.Registry, events: seq<Reported>, listenFd: int) {
    && (forall i, j :: 0 <= i < j < |events| ==> events[i].fd != events[j].fd)
    && (forall i, fd :: 0 <= i < |events| && fd in events[i].accepted ==> fd !in r.table)
  }

  /** Handling an event of another descriptor leaves a registered connection's entry and timer alone. */
  lemma {:induction false} OtherEventLeaves(r: E.Registry, e: Reported, listenFd: int, first: nat, clock: nat -> int,
      fd: int)
    requires e.fd != fd && fd !in e.accepted
    ensures Untouched(r, HandleOne(r, e, listenFd, first, clock), fd)
  {
    if e.fd == listenFd {
      LaterAccepts(r, e.accepted, first, clock, fd);
    }
    hide AcceptAll;
  }

  lemma {:induction false} OtherEventsLeave(r: E.Registry, events: seq<Reported>, listenFd: int, first: nat,
      clock: nat -> int, fd: int)
    requires forall i :: 0 <= i < |events| ==> events[i].fd != fd && fd !in events[i].accepted
    ensures Untouched(r, HandleAll(r, events, listenFd, first, clock), fd)
    decreases |events|
  {
    hide HandleOne;
    if events != [] {
      OtherEventLeaves(r, events[0], listenFd, first, clock, fd);
      OtherEventsLeave(HandleOne(r, events[0], listenFd, first, clock), events[1..], listenFd,
                       NextConn(events[0], listenFd, first), clock, fd);
    }
  }

  /** Every client that is registered when its input or output is reported keeps its place, and has 15 seconds
      from the moment its event was handled; one that reports only an error is gone. */
  lemma {:induction false} EachEventIsHandled(r: E.Registry, events: seq<Reported>, listenFd: int, first: nat,
      clock: nat -> int, i: nat)
    requires i < |events| && events[i].fd in r.table && events[i].fd != listenFd && GoodAnswer(r, events, listenFd)
    ensures var r', e := HandleAll(r, events, listenFd, first, clock), events[i];
      && (e.kind.Io? ==> e.fd in r'.table && r'.table[e.fd] == r.table[e.fd])
      && (e.kind.Io? ==> e.fd in r'.deadlines && r'.deadlines[e.fd] == e.now + 15)
      && (e.kind.Io? ==> r.table[e.fd] in TasksOf(r, events, listenFd, first, clock))
      && (e.kind.ErrorOnly? ==> e.fd !in r'.table && e.fd !in r'.deadlines && e.fd !in r'.kernel)
  {
    FollowEvent(r, r, events, listenFd, first, clock, i);
  }

  /** `r0` is the registry before the round, `r` the one now. */
  lemma {:induction false} FollowEvent(r0: E.Registry, r: E.Registry, events: seq<Reported>, listenFd: int,
      first: nat,
      clock: nat -> int, i: nat)
    requires i < |events| && events[i].fd in r0.table && events[i].fd != listenFd && GoodAnswer(r0, events, listenFd)
    requires Untouched(r0, r, events[i].fd)
    ensures var r', e := HandleAll(r, events, listenFd, first, clock), events[i];
      && (e.kind.Io? ==> e.fd in r'.table && r'.table[e.fd] == r0.table[e.fd])
      && (e.kind.Io? ==> e.fd in r'.deadlines && r'.deadlines[e.fd] == e.now + 15)
      && (e.kind.Io? ==> r0.table[e.fd] in TasksOf(r, events, listenFd, first, clock))
      && (e.kind.ErrorOnly? ==> e.fd !in r'.table && e.fd !in r'.deadlines && e.fd !in r'.kernel)
    decreases |events|
  {
    var fd, rest := events[i].fd, events[1..];
    var r1 := HandleOne(r, events[0], listenFd, first, clock);
    var next := NextConn(events[0], listenFd, first);
    if i == 0 {
      HandledNow(r, events[0], listenFd, first, clock);
      forall j | 0 <= j < |rest| ensures rest[j].fd != fd && fd !in rest[j].accepted {
        assert rest[j] == events[j + 1];
      }
      hide HandleOne;
      OtherEventsLeave(r1, rest, listenFd, next, clock, fd);
    } else {
      hide HandleOne;
      assert events[0].fd != fd && fd !in events[0].accepted;
      OtherEventLeaves(r, events[0], listenFd, first, clock, fd);
      assert GoodAnswer(r0, rest, listenFd) by { AnswerTail(r0, events, listenFd); }
      FollowEvent(r0, r1, rest, listenFd, next, clock, i - 1);
    }
  }

  lemma {:induction false} AnswerTail(r: E.Registry, events: seq<Reported>, listenFd: int)
    requires events != [] && GoodAnswer(r, events, listenFd)
    ensures GoodAnswer(r, events[1..], listenFd)
  {
  }

  lemma {:induction false} HandledNow(r: E.Registry, e: Reported, listenFd: int, first: nat, clock: nat -> int)
    requires e.fd != listenFd && e.fd in r.table
    ensures var r' := HandleOne(r, e, listenFd, first, clock);
      && (e.kind.Io? ==> e.fd in r'.table && r'.table[e.fd] == r.table[e.fd])
      && (e.kind.Io? ==> e.fd in r'.deadlines && r'.deadlines[e.fd] == e.now + 15)
      && (e.kind.Io? ==> TaskOf(r, e, listenFd) == [r.table[e.fd]])
      && (e.kind.ErrorOnly? ==> e.fd !in r'.table && e.fd !in r'.deadlines && e.fd !in r'.kernel)
  {
  }
}
