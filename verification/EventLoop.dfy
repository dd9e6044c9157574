/** EventLoop.cpp: the connection table, the open descriptors and the timers, under every interleaving of the
    loop thread with worker threads and with descriptor reuse by the kernel. */
module EventLoops {
  import opened Wrappers
  import opened Timers

  const TIMEOUT_SEC: int := 15

  type Fd = int

  /** Connections are numbered in accept order; the listening socket has no connection object. */
  datatype Entry = Listener | Client(conn: nat)

  /** The table `conn_map`, the sockets the descriptors refer to, the connections closed so far, and the armed
      deadlines. */
  datatype Registry = Registry(table: map<Fd, Entry>, kernel: map<Fd, Entry>, closed: seq<nat>, deadlines: Deadlines)

  /** isRegistered. */
  predicate IsRegistered(r: Registry, fd: Fd, expected: Option<nat>) {
    fd in r.table && (expected.None? || r.table[fd] == Client(expected.value))
  }

  /** close(fd): the socket goes, whatever it is. */
  function Close(r: Registry, fd: Fd): Registry {
    r.(kernel := r.kernel - {fd},
       closed := r.closed + (if fd in r.kernel && r.kernel[fd].Client? then [r.kernel[fd].conn] else []))
  }

  /** removeEvent. */
  function RemoveEvent(r: Registry, fd: Fd, expected: Option<nat>): Registry {
    if !IsRegistered(r, fd, expected) then r
    else Close(r.(table := r.table - {fd}, deadlines := r.deadlines - {fd}), fd)
  }

  /** addEvent: an existing entry is kept. */
  function AddEvent(r: Registry, fd: Fd, entry: Entry): Registry {
    if fd in r.table then r else r.(table := r.table[fd := entry])
  }

  function AddTimer(r: Registry, fd: Fd, now: int): Registry {
    r.(deadlines := r.deadlines[fd := now + TIMEOUT_SEC])
  }

  // ---------- The machine ----------

  /** What epoll_wait reports; `owner` is who held the descriptor then. */
  datatype EventKind = Io | ErrorOnly | Neither
  datatype PollEvent = PollEvent(fd: Fd, kind: EventKind, owner: Entry)

  /** Where the loop thread is. `reused` collects the descriptors accepted since epoll_wait returned. */
  datatype Phase =
    | Waiting
    | Polled(events: seq<PollEvent>)
    | Expiring(due: seq<Fd>, now: int, events: seq<PollEvent>)
    | Checked(fd: Fd, found: Option<nat>, sse: bool, due: seq<Fd>, now: int, events: seq<PollEvent>)
    | Dropping(overflowed: seq<nat>, events: seq<PollEvent>)
    | Handling(events: seq<PollEvent>, reused: set<Fd>)
    | Looked(fd: Fd, events: seq<PollEvent>, reused: set<Fd>)
    | Accepting(events: seq<PollEvent>, reused: set<Fd>)
    | Accepted(fd: Fd, conn: nat, events: seq<PollEvent>, reused: set<Fd>)
    | Added(fd: Fd, conn: nat, events: seq<PollEvent>, reused: set<Fd>)
    | Closing

  /** A connection closed by timeout: the tick's clock, the clock when it was last armed, whether it was SSE
      when checked. */
  datatype Timeout = Timeout(conn: nat, now: int, armed: int, sse: bool)

  /** `fdOf` is the descriptor each connection was accepted on, `lastArm` the clock reading when its timer was
      last set, `polled` the number of connections at the last epoll_wait. */
  datatype State = State(
    reg: Registry, phase: Phase, sse: set<nat>,
    fdOf: seq<Fd>, lastArm: map<nat, int>, polled: nat, timeouts: seq<Timeout>)

  datatype Action =
    | Poll(events: seq<PollEvent>)
    | Tick(now: int, fired: seq<Fd>)
    | Check
    | Settle(now: int)
    | Dispatch(overflowed: seq<nat>)
    | Drop
    | Handle
    | Arm(now: int)
    | Accept(fd: Fd)
    | Register
    | Loop
    | Shutdown
    | CloseOne(fd: Fd)
    | WorkerRemoves(conn: nat)
    | WorkerStartsSse(conn: nat)

  ghost predicate Enabled(s: State, a: Action, listenFd: Fd)
    ensures Enabled(s, a, listenFd) ==> Applicable(s, a)
  {
    match a
    case Poll(events) =>
      s.phase.Waiting? && forall e :: e in events ==> e.fd in s.reg.table && e.owner == s.reg.table[e.fd]
    case Tick(now, fired) => s.phase.Polled? && IsTick(s.reg.deadlines, now, fired)
    case Check => s.phase.Expiring? && s.phase.due != []
    case Settle(_) => s.phase.Checked?
    case Dispatch(_) => s.phase.Expiring? && s.phase.due == []
    case Drop => s.phase.Dropping?
    case Handle => s.phase.Handling? && s.phase.events != []
    case Arm(_) => s.phase.Looked? || s.phase.Added?
    case Accept(fd) => s.phase.Accepting? && fd !in s.reg.kernel
    case Register => s.phase.Accepted?
    case Loop => (s.phase.Handling? && s.phase.events == []) || s.phase.Accepting?
    case Shutdown => s.phase.Waiting?
    case CloseOne(fd) => s.phase.Closing? && fd in s.reg.table
    case WorkerRemoves(conn) => conn < |s.fdOf|
    case WorkerStartsSse(conn) => conn < |s.fdOf|
  }

  /** Arming a descriptor's timer arms the connection registered there. */
  function ArmFd(s: State, fd: Fd, now: int, phase: Phase): State {
    s.(reg := AddTimer(s.reg, fd, now), phase := phase,
       lastArm := if fd in s.reg.table && s.reg.table[fd].Client? then s.lastArm[s.reg.table[fd].conn := now]
         else s.lastArm)
  }

  /** One event of handleEvents, up to its first unlocked point. */
  function HandleEvent(s: State, e: PollEvent, rest: seq<PollEvent>, reused: set<Fd>, listenFd: Fd): State {
    if e.fd == listenFd then s.(phase := Accepting(rest, reused))
    else if e.kind.Io? then
      if e.fd in s.reg.table then s.(phase := Looked(e.fd, rest, reused)) else s.(phase := Handling(rest, reused))
    else if e.kind.ErrorOnly? then s.(reg := RemoveEvent(s.reg, e.fd, None), phase := Handling(rest, reused))
    else s.(phase := Handling(rest, reused))
  }

  /** The second half of one timeout: an SSE connection is re-armed, anything else removed by descriptor. */
  function SettleTimeout(s: State, now: int): State
    requires s.phase.Checked?
  {
    var p := s.phase;
    var next := Expiring(p.due, p.now, p.events);
    if p.found.Some? && p.sse then ArmFd(s, p.fd, now, next)
    else
      var closes := p.fd in s.reg.table && p.fd in s.reg.kernel && s.reg.kernel[p.fd].Client?;
      var conn := if closes then s.reg.kernel[p.fd].conn else 0;
      s.(reg := RemoveEvent(s.reg, p.fd, None), phase := next,
         timeouts := s.timeouts +
           (if closes then [Timeout(conn, p.now, if conn in s.lastArm then s.lastArm[conn] else p.now, p.sse)] else []))
  }

  function Apply(s: State, a: Action, listenFd: Fd): State
    requires Applicable(s, a)
  {
    match a
    case Poll(events) => s.(phase := Polled(events), polled := |s.fdOf|)
    case Tick(now, fired) =>
      s.(phase := Expiring(fired, now, s.phase.events), reg := s.reg.(deadlines := NotDue(s.reg.deadlines, now)))
    case Check =>
      var fd := s.phase.due[0];
      var found := if fd in s.reg.table && s.reg.table[fd].Client? then Some(s.reg.table[fd].conn) else None;
      var sse := found.Some? && found.value in s.sse;
      s.(phase := Checked(fd, found, sse, s.phase.due[1..], s.phase.now, s.phase.events))
    case Settle(now) => SettleTimeout(s, now)
    case Dispatch(overflowed) => s.(phase := Dropping(overflowed, s.phase.events))
    case Drop =>
      if s.phase.overflowed == [] then s.(phase := Handling(s.phase.events, {}))
      else
        var conn := s.phase.overflowed[0];
        s.(reg := if conn < |s.fdOf| then RemoveEvent(s.reg, s.fdOf[conn], Some(conn)) else s.reg,
           phase := Dropping(s.phase.overflowed[1..], s.phase.events))
    case Handle => HandleEvent(s, s.phase.events[0], s.phase.events[1..], s.phase.reused, listenFd)
    case Arm(now) =>
      ArmFd(s, s.phase.fd, now,
        if s.phase.Looked? then Handling(s.phase.events, s.phase.reused) else Accepting(s.phase.events, s.phase.reused))
    case Accept(fd) =>
      var conn := |s.fdOf|;
      s.(reg := s.reg.(kernel := s.reg.kernel[fd := Client(conn)]), fdOf := s.fdOf + [fd],
         phase := Accepted(fd, conn, s.phase.events, s.phase.reused + {fd}))
    case Register =>
      s.(reg := AddEvent(s.reg, s.phase.fd, Client(s.phase.conn)),
         phase := Added(s.phase.fd, s.phase.conn, s.phase.events, s.phase.reused))
    case Loop => s.(phase := if s.phase.Accepting? then Handling(s.phase.events, s.phase.reused) else Waiting)
    case Shutdown => s.(phase := Closing)
    case CloseOne(fd) => s.(reg := Close(s.reg.(table := s.reg.table - {fd}), fd))
    case WorkerRemoves(conn) => s.(reg := RemoveEvent(s.reg, s.fdOf[conn], Some(conn)))
    case WorkerStartsSse(conn) => s.(sse := s.sse + {conn})
  }

  /** The action fits the phase, so that its arguments exist. */
  predicate Applicable(s: State, a: Action) {
    match a
    case Tick(_, _) => s.phase.Polled?
    case Check => s.phase.Expiring? && s.phase.due != []
    case Settle(_) => s.phase.Checked?
    case Dispatch(_) => s.phase.Expiring?
    case Drop => s.phase.Dropping?
    case Handle => s.phase.Handling? && s.phase.events != []
    case Arm(_) => s.phase.Looked? || s.phase.Added?
    case Accept(_) => s.phase.Accepting?
    case Register => s.phase.Accepted?
    case Loop => s.phase.Handling? || s.phase.Accepting?
    case WorkerRemoves(conn) => conn < |s.fdOf|
    case _ => true
  }

  ghost function Exec(s: State, acts: seq<Action>, listenFd: Fd): State
    decreases |acts|
  {
    if acts == [] then s
    else Exec(if Enabled(s, acts[0], listenFd) then Apply(s, acts[0], listenFd) else s, acts[1..], listenFd)
  }

  /** Server::init has registered the listening socket; no connection exists. */
  function Start(listenFd: Fd): State {
    State(Registry(map[listenFd := Listener], map[listenFd := Listener], [], map[]), Waiting, {}, [], map[], 0, [])
  }

  // ---------- Ownership ----------

  /** Registered descriptors are open and refer to the connection registered for them. */
  ghost predicate TableIsOpen(r: Registry) {
    forall fd :: fd in r.table ==> fd in r.kernel && r.kernel[fd] == r.table[fd]
  }

  /** An open connection sits on the descriptor it was accepted on, and has not been closed. */
  ghost predicate KernelIsOwned(r: Registry, fdOf: seq<Fd>) {
    forall fd :: fd in r.kernel && r.kernel[fd].Client? ==>
      var c := r.kernel[fd].conn; c < |fdOf| && fdOf[c] == fd && c !in r.closed
  }

  ghost predicate ClosedOnce(r: Registry, fdOf: seq<Fd>) {
    && (forall i, j :: 0 <= i < j < |r.closed| ==> r.closed[i] != r.closed[j])
    && (forall c :: c in r.closed ==> c < |fdOf|)
  }

  /** A connection that is not closed is open, and registered unless accept has just returned it. */
  ghost predicate NoneLeaked(s: State) {
    forall c :: 0 <= c < |s.fdOf| && c !in s.reg.closed ==>
      var fd := s.fdOf[c];
      fd in s.reg.kernel && s.reg.kernel[fd] == Client(c) &&
      (fd in s.reg.table || (s.phase.Accepted? && s.phase.conn == c))
  }

  ghost predicate ListenerStays(s: State, listenFd: Fd) {
    && (!s.phase.Closing? ==> listenFd in s.reg.table && s.reg.table[listenFd] == Listener)
    && (forall fd :: fd in s.reg.table && s.reg.table[fd].Listener? ==> fd == listenFd)
    && listenFd !in s.reg.deadlines && HandsOff(s.phase, listenFd)
  }

  /** The listening descriptor is never timed, looked up as a client, or removed. */
  predicate HandsOff(p: Phase, listenFd: Fd) {
    && (p.Looked? || p.Accepted? || p.Added? || p.Checked? ==> p.fd != listenFd)
    && (p.Expiring? || p.Checked? ==> listenFd !in p.due)
  }

  /** Between accept and addEvent the new connection is open and its descriptor is not in the table. */
  ghost predicate AcceptedIsNew(s: State) {
    s.phase.Accepted? ==>
      && s.phase.conn < |s.fdOf| && s.fdOf[s.phase.conn] == s.phase.fd
      && s.phase.fd in s.reg.kernel && s.reg.kernel[s.phase.fd] == Client(s.phase.conn) && s.phase.fd !in s.reg.table
  }

  ghost predicate Owned(s: State, listenFd: Fd) {
    && TableIsOpen(s.reg) && KernelIsOwned(s.reg, s.fdOf) && ClosedOnce(s.reg, s.fdOf)
    && NoneLeaked(s) && ListenerStays(s, listenFd) && AcceptedIsNew(s)
  }

  // ---------- Timers ----------

  /** The loop is about to arm or remove this descriptor. */
  predicate InHand(p: Phase, fd: Fd) {
    (p.Expiring? && fd in p.due) || (p.Checked? && (fd == p.fd || fd in p.due)) || (p.Added? && fd == p.fd)
  }

  /** Every registered connection has an armed timer or is in the loop's hands. */
  ghost predicate Covered(s: State) {
    forall fd :: fd in s.reg.table && s.reg.table[fd].Client? ==> fd in s.reg.deadlines || InHand(s.phase, fd)
  }

  /** Its first timer is the next thing the loop sets. */
  predicate BeingArmed(p: Phase, fd: Fd) {
    p.Added? && p.fd == fd
  }

  /** The deadline of a registered connection is its own last arming plus the timeout, even where the
      descriptor's map entry was left by an earlier owner. */
  ghost predicate DeadlinesOwned(s: State) {
    forall fd :: fd in s.reg.table && s.reg.table[fd].Client? && fd in s.reg.deadlines && !BeingArmed(s.phase, fd) ==>
      var c := s.reg.table[fd].conn; c in s.lastArm && s.reg.deadlines[fd] == s.lastArm[c] + TIMEOUT_SEC
  }

  ghost predicate DueNow(s: State, fd: Fd, now: int) {
    fd in s.reg.table ==>
      && s.reg.table[fd].Client? && s.reg.table[fd].conn in s.lastArm
      && s.lastArm[s.reg.table[fd].conn] + TIMEOUT_SEC <= now
  }

  ghost predicate Distinct(due: seq<Fd>) {
    forall i, j :: 0 <= i < j < |due| ==> due[i] != due[j]
  }

  /** While the timeouts are processed, a descriptor of the tick is gone or still has the connection that timed
      out. */
  ghost predicate ExpiringOwned(s: State) {
    && (s.phase.Expiring? ==> Distinct(s.phase.due) && forall fd :: fd in s.phase.due ==> DueNow(s, fd, s.phase.now))
    && (s.phase.Checked? ==>
          && Distinct(s.phase.due) && s.phase.fd !in s.phase.due
          && (forall fd :: fd in s.phase.due ==> DueNow(s, fd, s.phase.now)) && DueNow(s, s.phase.fd, s.phase.now)
          && (s.phase.fd in s.reg.table ==> s.phase.found == Some(s.reg.table[s.phase.fd].conn)))
  }

  ghost predicate TimeoutsRight(s: State) {
    forall i :: 0 <= i < |s.timeouts| ==> !s.timeouts[i].sse && s.timeouts[i].armed + TIMEOUT_SEC <= s.timeouts[i].now
  }

  ghost predicate Timed(s: State) {
    Covered(s) && DeadlinesOwned(s) && ExpiringOwned(s) && TimeoutsRight(s)
  }

  ghost predicate Inv(s: State, listenFd: Fd) {
    Owned(s, listenFd) && Timed(s)
  }

  // ---------- Removal ----------

  lemma {:induction false} RemoveKeepsOwned(s: State, fd: Fd, expected: Option<nat>, listenFd: Fd)
    requires Owned(s, listenFd) && (expected.Some? || fd != listenFd)
    ensures Owned(s.(reg := RemoveEvent(s.reg, fd, expected)), listenFd)
  {
    if IsRegistered(s.reg, fd, expected) {
      var r, r' := s.reg, RemoveEvent(s.reg, fd, expected);
      var c := r.table[fd].conn;
      assert r.kernel[fd] == Client(c) && c !in r.closed;
      assert r'.closed == r.closed + [c];
    }
  }

  lemma {:induction false} RemoveKeepsTimed(s: State, fd: Fd, expected: Option<nat>)
    requires Timed(s)
    ensures Timed(s.(reg := RemoveEvent(s.reg, fd, expected)))
  {
  }

  lemma {:induction false} RemoveKeeps(s: State, fd: Fd, expected: Option<nat>, listenFd: Fd)
    requires Inv(s, listenFd) && (expected.Some? || fd != listenFd)
    ensures Inv(s.(reg := RemoveEvent(s.reg, fd, expected)), listenFd)
  {
    hide Owned, Timed;
    RemoveKeepsOwned(s, fd, expected, listenFd);
    RemoveKeepsTimed(s, fd, expected);
  }

  lemma {:induction false} CloseOneKeeps(s: State, fd: Fd, listenFd: Fd)
    requires Inv(s, listenFd) && Enabled(s, CloseOne(fd), listenFd)
    ensures Inv(Apply(s, CloseOne(fd), listenFd), listenFd)
  {
    var r' := Apply(s, CloseOne(fd), listenFd).reg;
    if s.reg.table[fd].Client? {
      var c := s.reg.table[fd].conn;
      assert s.reg.kernel[fd] == Client(c) && c !in s.reg.closed;
      assert r'.closed == s.reg.closed + [c];
    } else {
      assert r'.closed == s.reg.closed;
    }
  }

  // ---------- The loop thread ----------

  lemma {:induction false} TickKeeps(s: State, now: int, fired: seq<Fd>, listenFd: Fd)
    requires Inv(s, listenFd) && Enabled(s, Tick(now, fired), listenFd)
    ensures Inv(Apply(s, Tick(now, fired), listenFd), listenFd)
  {
    forall fd | fd in fired ensures fd in s.reg.deadlines && s.reg.deadlines[fd] <= now {
      var i :| 0 <= i < |fired| && fired[i] == fd;
    }
  }

  lemma {:induction false} CheckKeeps(s: State, listenFd: Fd)
    requires Inv(s, listenFd) && Enabled(s, Check, listenFd)
    ensures Inv(Apply(s, Check, listenFd), listenFd)
  {
    var due, rest := s.phase.due, s.phase.due[1..];
    assert due == [due[0]] + rest;
    assert forall fd :: fd in due <==> fd == due[0] || fd in rest;
  }

  /** Arming a descriptor does not touch the other connections' records. */
  lemma {:induction false} ArmKeeps(s: State, fd: Fd, now: int, next: Phase, listenFd: Fd)
    requires Owned(s, listenFd) && DeadlinesOwned(s) && fd != listenFd
    requires !s.phase.Accepted? && !next.Accepted? && !next.Added? && (s.phase.Added? ==> s.phase.fd == fd)
    requires HandsOff(next, listenFd) && (s.phase.Closing? <==> next.Closing?)
    ensures Owned(ArmFd(s, fd, now, next), listenFd) && DeadlinesOwned(ArmFd(s, fd, now, next))
    ensures forall d, t :: d != fd && DueNow(s, d, t) ==> DueNow(ArmFd(s, fd, now, next), d, t)
  {
  }

  lemma {:induction false} SettleKeeps(s: State, now: int, listenFd: Fd)
    requires Inv(s, listenFd) && Enabled(s, Settle(now), listenFd)
    ensures Inv(Apply(s, Settle(now), listenFd), listenFd)
  {
    var p := s.phase;
    var next := Expiring(p.due, p.now, p.events);
    if p.found.Some? && p.sse {
      ArmKeeps(s, p.fd, now, next, listenFd);
      hide Owned;
    } else {
      RemoveKeeps(s, p.fd, None, listenFd);
      SettleRemoves(s, now, listenFd);
    }
  }

  lemma {:induction false} SettleRemoves(s: State, now: int, listenFd: Fd)
    requires Inv(s, listenFd) && Enabled(s, Settle(now), listenFd) && !(s.phase.found.Some? && s.phase.sse)
    requires Inv(s.(reg := RemoveEvent(s.reg, s.phase.fd, None)), listenFd)
    ensures Inv(Apply(s, Settle(now), listenFd), listenFd)
  {
    var p := s.phase;
    var s1 := s.(reg := RemoveEvent(s.reg, p.fd, None));
    var s2 := Apply(s, Settle(now), listenFd);
    assert p.fd !in s1.reg.table;
    CheckedToExpiring(s1, listenFd);
    assert TimeoutsRight(s2);
    hide RemoveEvent, Owned;
    assert s2 == s1.(phase := Expiring(p.due, p.now, p.events), timeouts := s2.timeouts);
    SameButTimeouts(s1.(phase := Expiring(p.due, p.now, p.events)), s2.timeouts, listenFd);
  }

  lemma {:induction false} CheckedToExpiring(s: State, listenFd: Fd)
    requires Inv(s, listenFd) && s.phase.Checked? && s.phase.fd !in s.reg.table
    ensures Inv(s.(phase := Expiring(s.phase.due, s.phase.now, s.phase.events)), listenFd)
  {
  }

  lemma {:induction false} SameButTimeouts(s: State, timeouts: seq<Timeout>, listenFd: Fd)
    requires Inv(s, listenFd) && TimeoutsRight(s.(timeouts := timeouts))
    ensures Inv(s.(timeouts := timeouts), listenFd)
  {
  }

  lemma {:induction false} ArmEventKeeps(s: State, now: int, listenFd: Fd)
    requires Inv(s, listenFd) && Enabled(s, Action.Arm(now), listenFd)
    ensures Inv(Apply(s, Action.Arm(now), listenFd), listenFd)
  {
    var next := if s.phase.Looked? then Handling(s.phase.events, s.phase.reused)
      else Accepting(s.phase.events, s.phase.reused);
    ArmKeeps(s, s.phase.fd, now, next, listenFd);
    hide Owned;
  }

  lemma {:induction false} AcceptKeeps(s: State, fd: Fd, listenFd: Fd)
    requires Inv(s, listenFd) && Enabled(s, Accept(fd), listenFd)
    ensures Inv(Apply(s, Accept(fd), listenFd), listenFd)
  {
    AcceptKeepsOwned(s, fd, listenFd);
    hide Owned;
  }

  lemma {:induction false} AcceptKeepsOwned(s: State, fd: Fd, listenFd: Fd)
    requires Owned(s, listenFd) && Enabled(s, Accept(fd), listenFd)
    ensures Owned(Apply(s, Accept(fd), listenFd), listenFd)
  {
    assert fd !in s.reg.table;
    assert |s.fdOf| !in s.reg.closed;
  }

  lemma {:induction false} RegisterKeeps(s: State, listenFd: Fd)
    requires Inv(s, listenFd) && Enabled(s, Register, listenFd)
    ensures Inv(Apply(s, Register, listenFd), listenFd)
  {
    RegisterKeepsOwned(s, listenFd);
    hide Owned;
  }

  lemma {:induction false} RegisterKeepsOwned(s: State, listenFd: Fd)
    requires Owned(s, listenFd) && Enabled(s, Register, listenFd)
    ensures Owned(Apply(s, Register, listenFd), listenFd)
  {
  }

  lemma {:induction false} HandleKeeps(s: State, listenFd: Fd)
    requires Inv(s, listenFd) && Enabled(s, Handle, listenFd)
    ensures Inv(Apply(s, Handle, listenFd), listenFd)
  {
    var e, rest, reused := s.phase.events[0], s.phase.events[1..], s.phase.reused;
    if e.fd != listenFd && e.kind.ErrorOnly? {
      RemoveKeeps(s, e.fd, None, listenFd);
      var s1 := s.(reg := RemoveEvent(s.reg, e.fd, None));
      hide RemoveEvent;
      HandlingMoves(s1, Handling(rest, reused), listenFd);
    } else {
      HandlingMoves(s, Apply(s, Handle, listenFd).phase, listenFd);
    }
  }

  /** From Handling to another phase in which nothing is in the loop's hands. */
  lemma {:induction false} HandlingMoves(s: State, next: Phase, listenFd: Fd)
    requires Inv(s, listenFd) && s.phase.Handling?
    requires next.Handling? || next.Accepting? || (next.Looked? && next.fd != listenFd)
    ensures Inv(s.(phase := next), listenFd)
  {
  }

  lemma {:induction false} DropKeeps(s: State, listenFd: Fd)
    requires Inv(s, listenFd) && Enabled(s, Drop, listenFd)
    ensures Inv(Apply(s, Drop, listenFd), listenFd)
  {
    var next := Apply(s, Drop, listenFd).phase;
    if s.phase.overflowed != [] && s.phase.overflowed[0] < |s.fdOf| {
      var c := s.phase.overflowed[0];
      RemoveKeeps(s, s.fdOf[c], Some(c), listenFd);
      var s1 := s.(reg := RemoveEvent(s.reg, s.fdOf[c], Some(c)));
      hide RemoveEvent;
      DroppingMoves(s1, next, listenFd);
    } else {
      DroppingMoves(s, next, listenFd);
    }
  }

  lemma {:induction false} DroppingMoves(s: State, next: Phase, listenFd: Fd)
    requires Inv(s, listenFd) && s.phase.Dropping? && (next.Dropping? || next.Handling?)
    ensures Inv(s.(phase := next), listenFd)
  {
  }

  lemma {:induction false} StepKeeps(s: State, a: Action, listenFd: Fd)
    requires Inv(s, listenFd) && Enabled(s, a, listenFd)
    ensures Inv(Apply(s, a, listenFd), listenFd)
  {
    match a
    case Tick(now, fired) => TickKeeps(s, now, fired, listenFd);
    case Check => CheckKeeps(s, listenFd);
    case Settle(now) => SettleKeeps(s, now, listenFd);
    case Drop => DropKeeps(s, listenFd);
    case Handle => HandleKeeps(s, listenFd);
    case Arm(now) => ArmEventKeeps(s, now, listenFd);
    case Accept(fd) => AcceptKeeps(s, fd, listenFd);
    case Register => RegisterKeeps(s, listenFd);
    case CloseOne(fd) => CloseOneKeeps(s, fd, listenFd);
    case WorkerRemoves(conn) => RemoveKeeps(s, s.fdOf[conn], Some(conn), listenFd);
    case _ => OtherKeeps(s, a, listenFd);
  }

  lemma {:induction false} OtherKeeps(s: State, a: Action, listenFd: Fd)
    requires Inv(s, listenFd) && Enabled(s, a, listenFd)
    requires a.Poll? || a.Dispatch? || a.Loop? || a.Shutdown? || a.WorkerStartsSse?
    ensures Inv(Apply(s, a, listenFd), listenFd)
  {
  }

  lemma {:induction false} RunKeeps(s: State, acts: seq<Action>, listenFd: Fd)
    requires Inv(s, listenFd)
    ensures Inv(Exec(s, acts, listenFd), listenFd)
    decreases |acts|
  {
    hide Inv, Enabled, Apply;
    if acts != [] {
      if Enabled(s, acts[0], listenFd) {
        StepKeeps(s, acts[0], listenFd);
      }
      RunKeeps(if Enabled(s, acts[0], listenFd) then Apply(s, acts[0], listenFd) else s, acts[1..], listenFd);
    }
  }

  lemma {:induction false} StartIsOwned(listenFd: Fd)
    ensures Inv(Start(listenFd), listenFd)
  {
  }

  /** In every interleaving of the loop thread and the workers, with descriptors reused at the kernel's will: a
      registered descriptor is open and is the one its connection was accepted on; no connection is closed
      twice; one that is not closed is still open; and when the destructor has emptied the table every accepted
      connection has been closed exactly once. */
  lemma {:induction false} OwnershipHolds(listenFd: Fd, acts: seq<Action>)
    ensures var s := Exec(Start(listenFd), acts, listenFd);
      && TableIsOpen(s.reg) && KernelIsOwned(s.reg, s.fdOf) && ClosedOnce(s.reg, s.fdOf) && NoneLeaked(s)
      && (s.phase.Closing? && s.reg.table == map[] ==> forall c :: 0 <= c < |s.fdOf| ==> c in s.reg.closed)
  {
    StartIsOwned(listenFd);
    RunKeeps(Start(listenFd), acts, listenFd);
    hide Exec;
    var s := Exec(Start(listenFd), acts, listenFd);
    assert Owned(s, listenFd);
  }

  /** A removal that names its connection closes that connection or nothing. */
  lemma {:induction false} RemovalHitsItsConnection(listenFd: Fd, acts: seq<Action>, fd: Fd, conn: nat)
    ensures var r := Exec(Start(listenFd), acts, listenFd).reg;
      var r' := RemoveEvent(r, fd, Some(conn));
      if fd in r.table && r.table[fd] == Client(conn) then
        r' == Registry(r.table - {fd}, r.kernel - {fd}, r.closed + [conn], r.deadlines - {fd})
      else r' == r
  {
    OwnershipHolds(listenFd, acts);
    hide Exec;
    var r := Exec(Start(listenFd), acts, listenFd).reg;
    assert TableIsOpen(r);
  }

  /** At the top of the loop every registered connection has an armed timer, set by its own last activity; and
      every connection the timeouts have closed was not a stream when it was checked and had last been armed at
      least TIMEOUT_SEC before the clock reading of that tick. */
  lemma {:induction false} TimeoutsAreJust(listenFd: Fd, acts: seq<Action>)
    ensures var s := Exec(Start(listenFd), acts, listenFd);
      && TimeoutsRight(s)
      && (s.phase.Waiting? ==> forall fd :: fd in s.reg.table && s.reg.table[fd].Client? ==>
            var c := s.reg.table[fd].conn;
            fd in s.reg.deadlines && c in s.lastArm && s.reg.deadlines[fd] == s.lastArm[c] + TIMEOUT_SEC)
  {
    StartIsOwned(listenFd);
    RunKeeps(Start(listenFd), acts, listenFd);
    hide Exec;
    var s := Exec(Start(listenFd), acts, listenFd);
    assert Timed(s);
  }

  /** The timeout path removes by descriptor only, yet it removes the connection that timed out or nothing: no
      accept can come between the tick and the removal. */
  lemma {:induction false} TimeoutHitsItsConnection(listenFd: Fd, acts: seq<Action>)
    ensures var s := Exec(Start(listenFd), acts, listenFd);
      s.phase.Checked? && s.phase.fd in s.reg.table ==>
        && s.phase.found.Some? && s.reg.table[s.phase.fd] == Client(s.phase.found.value)
        && DueNow(s, s.phase.fd, s.phase.now)
  {
    StartIsOwned(listenFd);
    RunKeeps(Start(listenFd), acts, listenFd);
    hide Exec;
    var s := Exec(Start(listenFd), acts, listenFd);
    assert Timed(s);
  }

  // ---------- The removal by descriptor on an error event ----------

  function Reused(p: Phase): set<Fd> {
    match p
    case Handling(_, reused) => reused
    case Looked(_, _, reused) => reused
    case Accepting(_, reused) => reused
    case Accepted(_, _, _, reused) => reused
    case Added(_, _, _, reused) => reused
    case _ => {}
  }

  function Events(p: Phase): seq<PollEvent> {
    if p.Waiting? || p.Closing? then [] else p.events
  }

  /** An event's descriptor still has the connection the event was raised for, unless accept has handed it out
      again since. */
  ghost predicate EventsOwned(s: State) {
    && s.polled <= |s.fdOf|
    && (forall e :: e in Events(s.phase) ==> e.owner.Client? ==> e.owner.conn < s.polled)
    && (forall e :: e in Events(s.phase) && e.fd in s.reg.table && e.fd !in Reused(s.phase) ==>
          s.reg.table[e.fd] == e.owner)
    && (forall fd :: fd in Reused(s.phase) && fd in s.reg.table ==>
          s.reg.table[fd].Client? && s.reg.table[fd].conn >= s.polled)
    && (s.phase.Accepted? ==> s.phase.conn >= s.polled && s.phase.fd in s.phase.reused)
  }

  lemma {:induction false} StepKeepsEvents(s: State, a: Action, listenFd: Fd)
    requires Inv(s, listenFd) && EventsOwned(s) && Enabled(s, a, listenFd)
    ensures EventsOwned(Apply(s, a, listenFd))
  {
    hide Timed;
    match a
    case Poll(events) => PollEvents(s, events, listenFd);
    case Handle => HandleEvents(s, listenFd);
    case Accept(fd) => AcceptEvents(s, fd, listenFd);
    case Register => RegisterEvents(s, listenFd);
    case _ => OtherEvents(s, a, listenFd);
  }

  lemma {:induction false} PollEvents(s: State, events: seq<PollEvent>, listenFd: Fd)
    requires Owned(s, listenFd) && EventsOwned(s) && Enabled(s, Poll(events), listenFd)
    ensures EventsOwned(Apply(s, Poll(events), listenFd))
  {
  }

  lemma {:induction false} HandleEvents(s: State, listenFd: Fd)
    requires EventsOwned(s) && Enabled(s, Handle, listenFd)
    ensures EventsOwned(Apply(s, Handle, listenFd))
  {
    var e, rest := s.phase.events[0], s.phase.events[1..];
    assert forall x :: x in rest ==> x in s.phase.events;
    var r := if e.fd != listenFd && e.kind.ErrorOnly? then RemoveEvent(s.reg, e.fd, None) else s.reg;
    assert forall fd :: fd in r.table ==> fd in s.reg.table && r.table[fd] == s.reg.table[fd];
    hide RemoveEvent;
  }

  lemma {:induction false} AcceptEvents(s: State, fd: Fd, listenFd: Fd)
    requires Owned(s, listenFd) && EventsOwned(s) && Enabled(s, Accept(fd), listenFd)
    ensures EventsOwned(Apply(s, Accept(fd), listenFd))
  {
    assert fd !in s.reg.table;
  }

  lemma {:induction false} RegisterEvents(s: State, listenFd: Fd)
    requires EventsOwned(s) && Enabled(s, Register, listenFd)
    ensures EventsOwned(Apply(s, Register, listenFd))
  {
  }

  lemma {:induction false} OtherEvents(s: State, a: Action, listenFd: Fd)
    requires EventsOwned(s) && Enabled(s, a, listenFd)
    requires !a.Poll? && !a.Handle? && !a.Accept? && !a.Register?
    ensures EventsOwned(Apply(s, a, listenFd))
  {
  }

  lemma {:induction false} RunKeepsEvents(s: State, acts: seq<Action>, listenFd: Fd)
    requires Inv(s, listenFd) && EventsOwned(s)
    ensures EventsOwned(Exec(s, acts, listenFd))
    decreases |acts|
  {
    hide Inv, EventsOwned, Enabled, Apply;
    if acts != [] {
      if Enabled(s, acts[0], listenFd) {
        StepKeeps(s, acts[0], listenFd);
        StepKeepsEvents(s, acts[0], listenFd);
      }
      RunKeepsEvents(if Enabled(s, acts[0], listenFd) then Apply(s, acts[0], listenFd) else s, acts[1..], listenFd);
    }
  }

  /** The removal on a lone error event names no connection. It closes the connection the event was raised for
      if and only if accept has not handed the descriptor out again since epoll_wait returned; otherwise it
      closes a newer connection. */
  lemma {:induction false} ErrorRemovalIsExact(listenFd: Fd, acts: seq<Action>)
    ensures var s := Exec(Start(listenFd), acts, listenFd);
      s.phase.Handling? && s.phase.events != [] && s.phase.events[0].fd in s.reg.table ==>
        var e := s.phase.events[0];
        (s.reg.table[e.fd] == e.owner <==> e.fd !in s.phase.reused)
  {
    StartIsOwned(listenFd);
    assert EventsOwned(Start(listenFd));
    RunKeepsEvents(Start(listenFd), acts, listenFd);
    hide Exec;
    var s := Exec(Start(listenFd), acts, listenFd);
    if s.phase.Handling? && s.phase.events != [] {
      assert s.phase.events[0] in Events(s.phase);
    }
  }

  // ---------- How the wrong connection gets closed ----------

  lemma {:induction false} ExecStep(s: State, a: Action, rest: seq<Action>, listenFd: Fd)
    requires Enabled(s, a, listenFd)
    ensures Exec(s, [a] + rest, listenFd) == Exec(Apply(s, a, listenFd), rest, listenFd)
  {
    hide Enabled, Apply;
    assert ([a] + rest)[1..] == rest;
  }

  /** From the top of the loop to the event list, when no timer is due. */
  lemma {:induction false} PollQuietly(s: State, events: seq<PollEvent>, now: int, rest: seq<Action>, listenFd: Fd)
    requires Enabled(s, Poll(events), listenFd) && forall fd :: fd in s.reg.deadlines ==> s.reg.deadlines[fd] > now
    ensures Exec(s, [Poll(events)] + ([Tick(now, [])] + ([Dispatch([])] + ([Drop] + rest))), listenFd) ==
      Exec(s.(phase := Handling(events, {}), polled := |s.fdOf|), rest, listenFd)
  {
    hide Exec;
    var s1 := s.(phase := Polled(events), polled := |s.fdOf|);
    var s2 := s1.(phase := Expiring([], now, events));
    var s3 := s1.(phase := Dropping([], events));
    NothingDue(s.reg.deadlines, now);
    ExecStep(s, Poll(events), [Tick(now, [])] + ([Dispatch([])] + ([Drop] + rest)), listenFd);
    ExecStep(s1, Tick(now, []), [Dispatch([])] + ([Drop] + rest), listenFd);
    ExecStep(s2, Dispatch([]), [Drop] + rest, listenFd);
    ExecStep(s3, Drop, rest, listenFd);
  }

  /** The state after one more connection has been accepted, registered and timed. */
  function WithNewcomer(s: State, fd: Fd, now: int): State
    requires s.phase.Accepting?
  {
    var c, r := |s.fdOf|, s.reg;
    s.(reg := Registry(r.table[fd := Client(c)], r.kernel[fd := Client(c)], r.closed,
                       r.deadlines[fd := now + TIMEOUT_SEC]),
       fdOf := s.fdOf + [fd], lastArm := s.lastArm[c := now],
       phase := Handling(s.phase.events, s.phase.reused + {fd}))
  }

  /** One new connection, from accept to the armed timer. */
  lemma {:induction false} AcceptOne(s: State, fd: Fd, now: int, rest: seq<Action>, listenFd: Fd)
    requires s.phase.Accepting? && fd !in s.reg.kernel && fd !in s.reg.table
    ensures Exec(s, [Accept(fd)] + ([Register] + ([Action.Arm(now)] + ([Loop] + rest))), listenFd) ==
      Exec(WithNewcomer(s, fd, now), rest, listenFd)
  {
    hide Exec;
    var s1 := Apply(s, Accept(fd), listenFd);
    var s2 := Apply(s1, Register, listenFd);
    var s3 := Apply(s2, Action.Arm(now), listenFd);
    ExecStep(s, Accept(fd), [Register] + ([Action.Arm(now)] + ([Loop] + rest)), listenFd);
    ExecStep(s1, Register, [Action.Arm(now)] + ([Loop] + rest), listenFd);
    ExecStep(s2, Action.Arm(now), [Loop] + rest, listenFd);
    ExecStep(s3, Loop, rest, listenFd);
  }

  /** From the top of any loop round with a registered connection c and no timer due: an error event for c is
      pending behind the listening socket; a worker closes c; accept reuses the descriptor; the error event then
      closes the newcomer. */
  lemma {:induction false} ErrorClosesNewcomer(s: State, fd: Fd, c: nat, now: int,
      listenFd: Fd) returns (acts: seq<Action>)
    requires Inv(s, listenFd) && s.phase.Waiting? && fd in s.reg.table && s.reg.table[fd] == Client(c)
    requires forall d :: d in s.reg.deadlines ==> s.reg.deadlines[d] > now
    ensures Exec(s, acts, listenFd).reg.closed == s.reg.closed + [c, |s.fdOf|]
    ensures !exists a :: a in acts && a.WorkerRemoves? && a.conn == |s.fdOf|
  {
    hide Exec, Timed;
    var events := [PollEvent(listenFd, Io, Listener), PollEvent(fd, ErrorOnly, Client(c))];
    assert s.reg.kernel[fd] == Client(c) && s.fdOf[c] == fd && fd != listenFd;
    var tail := [Accept(fd)] + ([Register] + ([Action.Arm(now)] + ([Loop] + ([Handle] + []))));
    var mid := [Handle] + ([WorkerRemoves(c)] + tail);
    acts := [Poll(events)] + ([Tick(now, [])] + ([Dispatch([])] + ([Drop] + mid)));
    PollQuietly(s, events, now, mid, listenFd);
    var s1 := s.(phase := Handling(events, {}), polled := |s.fdOf|);
    NewcomerClosed(s1, fd, c, now, listenFd, events, tail);
  }

  lemma {:induction false} NewcomerClosed(s: State, fd: Fd, c: nat, now: int, listenFd: Fd,
      events: seq<PollEvent>, tail: seq<Action>)
    requires s.phase == Handling(events, {}) && fd != listenFd
    requires events == [PollEvent(listenFd, Io, Listener), PollEvent(fd, ErrorOnly, Client(c))]
    requires tail == [Accept(fd)] + ([Register] + ([Action.Arm(now)] + ([Loop] + ([Handle] + []))))
    requires c < |s.fdOf| && s.fdOf[c] == fd && fd in s.reg.table && s.reg.table[fd] == Client(c)
    requires fd in s.reg.kernel && s.reg.kernel[fd] == Client(c)
    ensures Exec(s, [Handle] + ([WorkerRemoves(c)] + tail), listenFd).reg.closed == s.reg.closed + [c, |s.fdOf|]
  {
    hide Exec;
    ExecStep(s, Handle, [WorkerRemoves(c)] + tail, listenFd);
    var error := events[1];
    assert events[1..] == [error];
    var s1 := s.(phase := Accepting([error], {}));
    ExecStep(s1, WorkerRemoves(c), tail, listenFd);
    var s2 := Apply(s1, WorkerRemoves(c), listenFd);
    assert s2.reg.closed == s.reg.closed + [c] && fd !in s2.reg.kernel && fd !in s2.reg.table && s2.phase == s1.phase;
    AcceptOne(s2, fd, now, [Handle] + [], listenFd);
    LastClose(s2, fd, now, error, listenFd);
  }

  lemma {:induction false} LastClose(s: State, fd: Fd, now: int, error: PollEvent, listenFd: Fd)
    requires s.phase == Accepting([error], {}) && error.fd == fd != listenFd && error.kind.ErrorOnly?
    ensures Exec(WithNewcomer(s, fd, now), [Handle] + [], listenFd).reg.closed == s.reg.closed + [|s.fdOf|]
  {
    var s1 := WithNewcomer(s, fd, now);
    ExecStep(s1, Handle, [], listenFd);
    var s2 := Apply(s1, Handle, listenFd);
    assert s2.reg.closed == s.reg.closed + [|s.fdOf|];
    assert Exec(s2, [], listenFd) == s2;
  }

  lemma {:induction false} ExecConcat(s: State, a: seq<Action>, b: seq<Action>, listenFd: Fd)
    ensures Exec(s, a + b, listenFd) == Exec(Exec(s, a, listenFd), b, listenFd)
    decreases |a|
  {
    hide Enabled, Apply;
    if a == [] {
      assert a + b == b;
    } else {
      assert (a + b)[1..] == a[1..] + b;
      ExecConcat(if Enabled(s, a[0], listenFd) then Apply(s, a[0], listenFd) else s, a[1..], b, listenFd);
    }
  }

  /** The first round of a loop: one connection is accepted on `fd`, at time 0. */
  function FirstRound(listenFd: Fd, fd: Fd): seq<Action> {
    var events := [PollEvent(listenFd, Io, Listener)];
    [Poll(events)] + ([Tick(0, [])] + ([Dispatch([])] + ([Drop] +
      ([Handle] + ([Accept(fd)] + ([Register] + ([Action.Arm(0)] + ([Loop] + ([Loop] + [])))))))))
  }

  lemma {:induction false} AfterFirstRound(listenFd: Fd, fd: Fd)
    requires fd != listenFd
    ensures var s := Exec(Start(listenFd), FirstRound(listenFd, fd), listenFd);
      && s.phase.Waiting? && s.fdOf == [fd] && s.reg.closed == [] && fd in s.reg.table && s.reg.table[fd] == Client(0)
      && s.reg.deadlines == map[fd := TIMEOUT_SEC]
  {
    hide Exec;
    var s, events := Start(listenFd), [PollEvent(listenFd, Io, Listener)];
    var last := [Loop] + [];
    var mid := [Handle] + ([Accept(fd)] + ([Register] + ([Action.Arm(0)] + ([Loop] + last))));
    PollQuietly(s, events, 0, mid, listenFd);
    var s1 := s.(phase := Handling(events, {}), polled := |s.fdOf|);
    ExecStep(s1, Handle, [Accept(fd)] + ([Register] + ([Action.Arm(0)] + ([Loop] + last))), listenFd);
    assert events[1..] == [];
    var s2 := s1.(phase := Accepting([], {}));
    AcceptOne(s2, fd, 0, last, listenFd);
    var s3 := WithNewcomer(s2, fd, 0);
    ExecStep(s3, Loop, [], listenFd);
    NoMoreSteps(s3.(phase := Waiting), listenFd);
    assert [] + [fd] == [fd];
  }

  lemma {:induction false} NoMoreSteps(s: State, listenFd: Fd)
    ensures Exec(s, [], listenFd) == s
  {
  }

  /** The whole story from an empty table: connection 0 is accepted, closed by its worker, and its descriptor accepted
      again as connection 1; the old error event then closes connection 1, which no worker asked for. */
  lemma {:induction false} NewcomerClosedFromStart(listenFd: Fd, fd: Fd) returns (acts: seq<Action>)
    requires fd != listenFd
    ensures Exec(Start(listenFd), acts, listenFd).reg.closed == [0, 1]
    ensures !exists a :: a in acts && a.WorkerRemoves? && a.conn == 1
  {
    hide Exec, Inv;
    var first := FirstRound(listenFd, fd);
    AfterFirstRound(listenFd, fd);
    StartIsOwned(listenFd);
    RunKeeps(Start(listenFd), first, listenFd);
    var s := Exec(Start(listenFd), first, listenFd);
    var rest := ErrorClosesNewcomer(s, fd, 0, 0, listenFd);
    ExecConcat(Start(listenFd), first, rest, listenFd);
    assert [] + [0, 1] == [0, 1];
    acts := first + rest;
    NobodyRemovesInFirstRound(listenFd, fd);
  }

  lemma {:induction false} NobodyRemovesInFirstRound(listenFd: Fd, fd: Fd)
    ensures forall a :: a in FirstRound(listenFd, fd) ==> !a.WorkerRemoves?
  {
  }
}
