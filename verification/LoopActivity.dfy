/** What the loop owes to an active connection. A watch beside the machine of EventLoops records what epoll_wait
    reported, what the clock showed, and who was closed; it knows nothing of how the loop arms its timers. */
module LoopActivity {
  import opened Wrappers
  import opened EventLoops

  /** A connection closed by the timeouts of a tick: the tick's clock, and the clock of the last earlier round
      in which epoll_wait had reported input or output for it. */
  datatype Expiry = Expiry(conn: nat, now: int, seen: Option<int>)

  /** `forward`: every clock reading so far was at least the one before. `roundAt`: the reading of this round's
      tick. `ready`: the connections reported in this round; `seen`: those of earlier rounds, with the reading
      of their last one. `overflowed`: the connections that the last dispatch found overflowed. */
  datatype Watch = Watch(
    clock: int, forward: bool, roundAt: int, ready: set<nat>, seen: map<nat, int>, closings: seq<Expiry>,
    overflowed: set<nat>)

  function ReadyIn(events: seq<PollEvent>): set<nat> {
    set e | e in events && e.kind.Io? && e.owner.Client? :: e.owner.conn
  }

  /** The clock as the source reads it: in a tick and when a timer is set. */
  function Reading(s: State, a: Action): Option<int> {
    match a
    case Tick(now, _) => Some(now)
    case Arm(now) => Some(now)
    case Settle(now) => if s.phase.Checked? && s.phase.found.Some? && s.phase.sse then Some(now) else None
    case _ => None
  }

  function ReadClock(w: Watch, reading: Option<int>): Watch {
    if reading.None? then w else w.(clock := reading.value, forward := w.forward && reading.value >= w.clock)
  }

  function SeenBy(w: Watch, conn: nat): Option<int> {
    if conn in w.seen then Some(w.seen[conn]) else None
  }

  /** What the watch records of one step from s to s'. */
  function Note(w: Watch, s: State, a: Action, s': State): Watch {
    var w1 := ReadClock(w, Reading(s, a));
    match a
    case Poll(events) =>
      w1.(seen := w.seen + (map c | c in w.ready :: w.roundAt), ready := ReadyIn(events))
    case Tick(now, _) => w1.(roundAt := now)
    case Settle(_) =>
      if s.phase.Checked? && |s'.reg.closed| > |s.reg.closed| then
        var conn := s'.reg.closed[|s'.reg.closed| - 1];
        w1.(closings := w.closings + [Expiry(conn, s.phase.now, SeenBy(w, conn))])
      else w1
    case Dispatch(overflowed) => w1.(overflowed := set c | c in overflowed && c < |s.fdOf|)
    case _ => w1
  }

  ghost function Watched(s: State, w: Watch, acts: seq<Action>, listenFd: Fd): (State, Watch)
    decreases |acts|
  {
    if acts == [] then (s, w)
    else if !Enabled(s, acts[0], listenFd) then Watched(s, w, acts[1..], listenFd)
    else
      var s' := Apply(s, acts[0], listenFd);
      Watched(s', Note(w, s, acts[0], s'), acts[1..], listenFd)
  }

  /** The watch does not disturb the run. */
  lemma {:induction false} WatchedIsRun(s: State, w: Watch, acts: seq<Action>, listenFd: Fd)
    ensures Watched(s, w, acts, listenFd).0 == Exec(s, acts, listenFd)
    decreases |acts|
  {
    hide Enabled, Apply, Note;
    if acts != [] {
      if Enabled(s, acts[0], listenFd) {
        var s' := Apply(s, acts[0], listenFd);
        WatchedIsRun(s', Note(w, s, acts[0], s'), acts[1..], listenFd);
      } else {
        WatchedIsRun(s, w, acts[1..], listenFd);
      }
    }
  }

  // ---------- The invariant ----------

  predicate Registered(s: State, c: nat) {
    c < |s.fdOf| && s.fdOf[c] in s.reg.table && s.reg.table[s.fdOf[c]] == Client(c)
  }

  /** The loop still has an event of this connection before it. */
  predicate Pending(p: Phase, fd: Fd) {
    (p.Looked? && p.fd == fd) || exists e :: e in Events(p) && e.fd == fd && e.kind.Io?
  }

  predicate ArmedSince(s: State, c: nat, reading: int) {
    c in s.lastArm && s.lastArm[c] >= reading
  }

  /** Of a connection reported in this round: it is closed, or its event is still before the loop, or its timer
      has been set since. */
  predicate Served(s: State, c: nat, roundAt: int) {
    Registered(s, c) ==> Pending(s.phase, s.fdOf[c]) || (!s.phase.Polled? && ArmedSince(s, c, roundAt))
  }

  ghost predicate ReadyIsServed(s: State, w: Watch) {
    s.polled <= |s.fdOf| && forall c :: c in w.ready ==> c < s.polled && Served(s, c, w.roundAt)
  }

  ghost predicate SeenWasServed(s: State, w: Watch) {
    forall c :: c in w.seen ==>
      c < s.polled && w.seen[c] <= w.clock && (Registered(s, c) ==> ArmedSince(s, c, w.seen[c]))
  }

  /** No timer is left that was due at the clock of the round. */
  ghost predicate NoneIsDue(s: State, w: Watch) {
    forall fd :: fd in s.reg.deadlines ==> s.reg.deadlines[fd] > w.roundAt
  }

  ghost predicate ClosingsAreJust(w: Watch) {
    forall i :: 0 <= i < |w.closings| && w.closings[i].seen.Some? ==>
      w.closings[i].seen.value + 15 <= w.closings[i].now
  }

  ghost predicate OverflowedGo(s: State, w: Watch) {
    forall c :: c in w.overflowed && c !in s.reg.closed ==>
      c < |s.fdOf| && s.phase.Dropping? && c in s.phase.overflowed
  }

  ghost predicate WatchOk(s: State, w: Watch) {
    && (w.forward ==> w.roundAt <= w.clock && ReadyIsServed(s, w) && SeenWasServed(s, w) && ClosingsAreJust(w))
    && OverflowedGo(s, w)
  }

  // ---------- Steps that only move events and registrations ----------

  /** The step unregisters at most, keeps the arming records, and keeps every pending event of who stays
      registered. */
  ghost predicate Harmless(s: State, s': State) {
    && s'.fdOf == s.fdOf && s'.lastArm == s.lastArm && s'.polled == s.polled
    && (forall c: nat :: c < |s.fdOf| && Registered(s', c) ==> Registered(s, c))
    && (forall c: nat :: c < |s.fdOf| && Registered(s', c) && Pending(s.phase, s.fdOf[c]) ==>
          Pending(s'.phase, s.fdOf[c]))
    && (s'.phase.Polled? ==> s.phase.Polled?)
  }

  lemma {:induction false} HarmlessKeeps(s: State, s': State, w: Watch)
    requires ReadyIsServed(s, w) && SeenWasServed(s, w) && Harmless(s, s')
    ensures ReadyIsServed(s', w) && SeenWasServed(s', w)
  {
    hide Pending;
  }

  lemma {:induction false} RemovalUnregisters(r: Registry, fd: Fd, expected: Option<nat>)
    ensures var r' := RemoveEvent(r, fd, expected);
      && (forall d :: d in r'.table ==> d in r.table && r'.table[d] == r.table[d])
      && (expected.None? ==> fd !in r'.table)
      && r.closed <= r'.closed
  {
  }

  /** Handling one event: who was reported with input or output and is still registered is looked up next. */
  lemma {:induction false} HandleIsHarmless(s: State, listenFd: Fd)
    requires Owned(s, listenFd) && Enabled(s, Handle, listenFd)
    ensures Harmless(s, Apply(s, Handle, listenFd))
  {
    var e, rest := s.phase.events[0], s.phase.events[1..];
    var s' := Apply(s, Handle, listenFd);
    assert s.phase.events == [e] + rest;
    RemovalUnregisters(s.reg, e.fd, None);
    hide RemoveEvent;
    assert listenFd in s.reg.table && s.reg.table[listenFd] == Listener;
    hide Owned;
    forall c: nat | c < |s.fdOf| && Registered(s', c) && Pending(s.phase, s.fdOf[c])
      ensures Pending(s'.phase, s.fdOf[c])
    {
      var x :| x in Events(s.phase) && x.fd == s.fdOf[c] && x.kind.Io?;
      if x == e {
        assert e.fd in s.reg.table && s'.phase.Looked?;
      } else {
        assert x in rest && rest == Events(s'.phase);
      }
    }
  }

  lemma {:induction false} SameEvents(s: State, s': State)
    requires s'.fdOf == s.fdOf && s'.lastArm == s.lastArm && s'.polled == s.polled
    requires Events(s'.phase) == Events(s.phase)
    requires s.phase.Looked? ==> s'.phase == s.phase
    requires s'.phase.Polled? ==> s.phase.Polled?
    requires forall d :: d in s'.reg.table ==> d in s.reg.table && s'.reg.table[d] == s.reg.table[d]
    ensures Harmless(s, s')
  {
    forall fd | Pending(s.phase, fd) ensures Pending(s'.phase, fd) {
      if !(s.phase.Looked? && s.phase.fd == fd) {
        var e :| e in Events(s.phase) && e.fd == fd && e.kind.Io?;
        assert e in Events(s'.phase);
      }
    }
    hide Pending;
    forall c: nat | c < |s.fdOf| && Registered(s', c) ensures Registered(s, c) {
      var d := s.fdOf[c];
      assert d in s'.reg.table && d in s.reg.table && s'.reg.table[d] == s.reg.table[d];
    }
  }

  lemma {:induction false} QuietStep(s: State, a: Action, listenFd: Fd)
    requires Owned(s, listenFd) && Enabled(s, a, listenFd)
    requires a.Check? || a.Dispatch? || a.Drop? || a.Loop? || a.WorkerRemoves? || a.WorkerStartsSse?
    ensures Harmless(s, Apply(s, a, listenFd))
  {
    hide Owned, Harmless;
    if a.Drop? && s.phase.overflowed != [] && s.phase.overflowed[0] < |s.fdOf| {
      RemovalUnregisters(s.reg, s.fdOf[s.phase.overflowed[0]], Some(s.phase.overflowed[0]));
    } else if a.WorkerRemoves? {
      RemovalUnregisters(s.reg, s.fdOf[a.conn], Some(a.conn));
    }
    hide RemoveEvent;
    SameEvents(s, Apply(s, a, listenFd));
  }

  /** At the end nothing is pending any more, and there is nothing left to owe. */
  lemma {:induction false} ClosingStep(s: State, a: Action, listenFd: Fd)
    requires Owned(s, listenFd) && Enabled(s, a, listenFd) && (a.Shutdown? || a.CloseOne?)
    ensures Harmless(s, Apply(s, a, listenFd))
  {
    hide Owned, Harmless;
    SameEvents(s, Apply(s, a, listenFd));
  }

  // ---------- Steps that arm ----------

  /** Whoever is registered on the descriptor has been armed by this reading. */
  lemma {:induction false} ArmServes(s: State, fd: Fd, now: int, next: Phase, w: Watch)
    requires TableIsOpen(s.reg) && KernelIsOwned(s.reg, s.fdOf)
    requires w.forward && w.roundAt <= w.clock <= now && ReadyIsServed(s, w) && SeenWasServed(s, w)
    requires Events(next) == Events(s.phase) && !s.phase.Polled? && !next.Polled?
    requires s.phase.Looked? ==> s.phase.fd == fd
    ensures var s', w' := ArmFd(s, fd, now, next), w.(clock := now); ReadyIsServed(s', w') && SeenWasServed(s', w')
  {
    var s' := ArmFd(s, fd, now, next);
    forall c: nat | c < |s.fdOf| && Registered(s, c)
      ensures s.fdOf[c] == fd ==> ArmedSince(s', c, now)
      ensures s.fdOf[c] != fd && c in s.lastArm ==> c in s'.lastArm && s'.lastArm[c] >= s.lastArm[c]
      ensures s.fdOf[c] != fd && Pending(s.phase, s.fdOf[c]) ==> Pending(next, s.fdOf[c])
    {
      if s.fdOf[c] != fd && fd in s.reg.table && s.reg.table[fd].Client? {
        assert s.fdOf[s.reg.table[fd].conn] == fd;
      }
    }
    hide Pending;
  }

  lemma {:induction false} PollServes(s: State, events: seq<PollEvent>, w: Watch, listenFd: Fd)
    requires Owned(s, listenFd) && Enabled(s, Poll(events), listenFd)
    requires w.forward && w.roundAt <= w.clock && ReadyIsServed(s, w) && SeenWasServed(s, w)
    ensures var s' := Apply(s, Poll(events), listenFd); var w' := Note(w, s, Poll(events), s');
      ReadyIsServed(s', w') && SeenWasServed(s', w')
  {
    var s' := Apply(s, Poll(events), listenFd);
    NothingPending(s, w);
    assert TableIsOpen(s.reg) && KernelIsOwned(s.reg, s.fdOf);
    hide Owned;
    forall c | c in ReadyIn(events)
      ensures c < |s.fdOf| == s'.polled && (Registered(s', c) ==> Pending(s'.phase, s.fdOf[c]))
    {
      var e :| e in events && e.kind.Io? && e.owner == Client(c);
      assert s.reg.table[e.fd] == Client(c) && s.fdOf[c] == e.fd;
      assert e in Events(s'.phase);
    }
  }

  /** At the loop's top every connection reported in the round that ends has been armed since. */
  lemma {:induction false} NothingPending(s: State, w: Watch)
    requires s.phase.Waiting? && ReadyIsServed(s, w)
    ensures forall c :: c in w.ready ==> c < s.polled && (Registered(s, c) ==> ArmedSince(s, c, w.roundAt))
  {
    forall fd ensures !Pending(s.phase, fd) {
    }
  }

  lemma {:induction false} TickServes(s: State, now: int, fired: seq<Fd>, w: Watch, listenFd: Fd)
    requires Enabled(s, Tick(now, fired), listenFd) && w.forward && w.clock <= now
    requires ReadyIsServed(s, w) && SeenWasServed(s, w)
    ensures var s' := Apply(s, Tick(now, fired), listenFd); var w' := w.(clock := now, roundAt := now);
      ReadyIsServed(s', w') && SeenWasServed(s', w')
  {
    var s' := Apply(s, Tick(now, fired), listenFd);
    forall c: nat | c < |s.fdOf| ensures Pending(s'.phase, s.fdOf[c]) == Pending(s.phase, s.fdOf[c]) {
      assert Events(s'.phase) == Events(s.phase);
    }
    hide Pending, Enabled;
  }

  lemma {:induction false} AcceptServes(s: State, fd: Fd, w: Watch, listenFd: Fd)
    requires Owned(s, listenFd) && Enabled(s, Accept(fd), listenFd) && ReadyIsServed(s, w) && SeenWasServed(s, w)
    ensures var s' := Apply(s, Accept(fd), listenFd); ReadyIsServed(s', w) && SeenWasServed(s', w)
  {
    var s' := Apply(s, Accept(fd), listenFd);
    hide Owned;
    forall c: nat | c < |s.fdOf|
      ensures s'.fdOf[c] == s.fdOf[c] && Registered(s', c) == Registered(s, c)
      ensures Pending(s'.phase, s.fdOf[c]) == Pending(s.phase, s.fdOf[c])
    {
      assert Events(s'.phase) == Events(s.phase);
    }
    hide Pending, Registered;
  }

  lemma {:induction false} RegisterServes(s: State, w: Watch, listenFd: Fd)
    requires Owned(s, listenFd) && Enabled(s, Register, listenFd) && ReadyIsServed(s, w) && SeenWasServed(s, w)
    requires EventsOwned(s)
    ensures var s' := Apply(s, Register, listenFd); ReadyIsServed(s', w) && SeenWasServed(s', w)
  {
    var s' := Apply(s, Register, listenFd);
    assert s.phase.conn >= s.polled;
    hide Owned, EventsOwned;
    forall c: nat | c < s.polled
      ensures Registered(s', c) == Registered(s, c)
      ensures Pending(s'.phase, s.fdOf[c]) == Pending(s.phase, s.fdOf[c])
    {
      assert Events(s'.phase) == Events(s.phase);
    }
    hide Pending, Registered;
  }

  // ---------- Timeouts ----------

  /** A removal by descriptor closes the connection registered there, and only that one. */
  lemma {:induction false} RemovalCloses(r: Registry, fd: Fd)
    requires TableIsOpen(r)
    ensures var r' := RemoveEvent(r, fd, None);
      r'.closed == if fd in r.table && r.table[fd].Client? then r.closed + [r.table[fd].conn] else r.closed
  {
  }

  /** Whoever the timeouts close was last armed 15 seconds before the tick, and so was not seen active since. */
  lemma {:induction false} SettleIsJust(s: State, now: int, w: Watch, listenFd: Fd)
    requires Inv(s, listenFd) && Enabled(s, Settle(now), listenFd) && SeenWasServed(s, w) && ClosingsAreJust(w)
    ensures ClosingsAreJust(Note(w, s, Settle(now), Apply(s, Settle(now), listenFd)))
  {
    var p := s.phase;
    assert TableIsOpen(s.reg) && KernelIsOwned(s.reg, s.fdOf) && DueNow(s, p.fd, p.now);
    RemovalCloses(s.reg, p.fd);
    hide Owned, Timed, RemoveEvent;
  }

  lemma {:induction false} SettleServes(s: State, now: int, w: Watch, listenFd: Fd)
    requires Inv(s, listenFd) && Enabled(s, Settle(now), listenFd)
    requires w.forward && w.roundAt <= w.clock && ReadyIsServed(s, w) && SeenWasServed(s, w)
    ensures var s' := Apply(s, Settle(now), listenFd); var w' := ReadClock(w, Reading(s, Settle(now)));
      w'.forward ==> ReadyIsServed(s', w') && SeenWasServed(s', w')
  {
    var p := s.phase;
    var next := Expiring(p.due, p.now, p.events);
    assert TableIsOpen(s.reg) && KernelIsOwned(s.reg, s.fdOf);
    hide Owned, Timed;
    if p.found.Some? && p.sse {
      if now >= w.clock {
        ArmServes(s, p.fd, now, next, w);
      }
    } else {
      RemovalUnregisters(s.reg, p.fd, None);
      hide RemoveEvent;
      var s' := Apply(s, Settle(now), listenFd);
      SameEvents(s, s');
      HarmlessKeeps(s, s', w);
    }
  }

  lemma {:induction false} ArmEventServes(s: State, now: int, w: Watch, listenFd: Fd)
    requires Owned(s, listenFd) && Enabled(s, Action.Arm(now), listenFd)
    requires w.forward && w.roundAt <= w.clock <= now && ReadyIsServed(s, w) && SeenWasServed(s, w)
    ensures var s', w' := Apply(s, Action.Arm(now), listenFd), w.(clock := now);
      ReadyIsServed(s', w') && SeenWasServed(s', w')
  {
    var next := if s.phase.Looked? then Handling(s.phase.events, s.phase.reused)
      else Accepting(s.phase.events, s.phase.reused);
    assert TableIsOpen(s.reg) && KernelIsOwned(s.reg, s.fdOf);
    hide Owned, Enabled, ReadyIsServed, SeenWasServed;
    ArmServes(s, s.phase.fd, now, next, w);
  }

  // ---------- Overflowed connections ----------

  /** Nothing is ever taken off the list of closed connections, and only dispatch enters the dropping phase. */
  lemma {:induction false} ClosedGrows(s: State, a: Action, listenFd: Fd)
    requires Enabled(s, a, listenFd)
    ensures var s' := Apply(s, a, listenFd);
      && s.reg.closed <= s'.reg.closed && |s.fdOf| <= |s'.fdOf|
      && (s.phase.Dropping? && !a.Drop? ==> s'.phase == s.phase)
  {
    match a
    case Settle(_) => RemovalUnregisters(s.reg, s.phase.fd, None);
    case Drop =>
      if s.phase.overflowed != [] && s.phase.overflowed[0] < |s.fdOf| {
        var c := s.phase.overflowed[0];
        RemovalUnregisters(s.reg, s.fdOf[c], Some(c));
      }
      hide RemoveEvent;
    case Handle => RemovalUnregisters(s.reg, s.phase.events[0].fd, None);
    case WorkerRemoves(conn) => RemovalUnregisters(s.reg, s.fdOf[conn], Some(conn));
    case _ =>
  }

  /** Dropping closes the first one of its list, unless it is closed already. */
  lemma {:induction false} DropCloses(s: State, listenFd: Fd)
    requires Owned(s, listenFd) && Enabled(s, Drop, listenFd) && s.phase.overflowed != []
    requires s.phase.overflowed[0] < |s.fdOf|
    ensures s.phase.overflowed[0] in Apply(s, Drop, listenFd).reg.closed
  {
    var c := s.phase.overflowed[0];
    if c !in s.reg.closed {
      var r, fd := s.reg, s.fdOf[c];
      assert r.kernel[fd] == Client(c) && fd in r.table && r.table[fd] == Client(c);
      assert RemoveEvent(r, fd, Some(c)).closed == r.closed + [c];
    } else {
      ClosedGrows(s, Drop, listenFd);
    }
  }

  lemma {:induction false} StepOverflowed(s: State, w: Watch, a: Action, listenFd: Fd)
    requires Owned(s, listenFd) && Enabled(s, a, listenFd) && OverflowedGo(s, w)
    ensures var s' := Apply(s, a, listenFd); OverflowedGo(s', Note(w, s, a, s'))
  {
    ClosedGrows(s, a, listenFd);
    if a.Drop? {
      if s.phase.overflowed != [] {
        assert s.phase.overflowed == [s.phase.overflowed[0]] + s.phase.overflowed[1..];
        if s.phase.overflowed[0] < |s.fdOf| {
          DropCloses(s, listenFd);
        }
      }
      hide RemoveEvent, Owned;
    } else if a.Dispatch? {
      hide Owned;
    } else {
      hide Owned, Apply, Enabled;
    }
  }

  // ---------- Who is due goes ----------

  lemma {:induction false} StepNoneDue(s: State, w: Watch, a: Action, listenFd: Fd)
    requires Enabled(s, a, listenFd) && w.forward && w.roundAt <= w.clock && NoneIsDue(s, w)
    ensures var s' := Apply(s, a, listenFd); var w' := Note(w, s, a, s'); w'.forward ==> NoneIsDue(s', w')
  {
    DeadlinesMove(s, a, listenFd);
    hide Apply, Enabled;
  }

  /** What a step can do to the deadlines: take some away, keep those after the tick's clock, or set one 15
      seconds ahead of the clock. */
  lemma {:induction false} DeadlinesMove(s: State, a: Action, listenFd: Fd)
    requires Enabled(s, a, listenFd)
    ensures var d, d' := s.reg.deadlines, Apply(s, a, listenFd).reg.deadlines;
      && (forall fd :: fd in d' ==>
            || (fd in d && d'[fd] == d[fd])
            || (Reading(s, a).Some? && !a.Tick? && d'[fd] == Reading(s, a).value + 15))
      && (a.Tick? ==> forall fd :: fd in d' ==> d'[fd] > a.now)
  {
  }

  // ---------- Every run ----------

  lemma {:induction false} StepServes(s: State, w: Watch, a: Action, listenFd: Fd)
    requires Inv(s, listenFd) && EventsOwned(s) && Enabled(s, a, listenFd)
    requires w.forward && w.roundAt <= w.clock && ReadyIsServed(s, w) && SeenWasServed(s, w) && ClosingsAreJust(w)
    ensures var s' := Apply(s, a, listenFd); var w' := Note(w, s, a, s');
      w'.forward ==> w'.roundAt <= w'.clock && ReadyIsServed(s', w') && SeenWasServed(s', w') && ClosingsAreJust(w')
  {
    assert Owned(s, listenFd);
    hide Inv, EventsOwned, ReadyIsServed, SeenWasServed, Owned, ClosingsAreJust;
    match a
    case Poll(events) =>
      hide Apply, Enabled;
      PollServes(s, events, w, listenFd);
      SameClosings(w, Note(w, s, a, Apply(s, a, listenFd)));
    case Tick(now, fired) =>
      if now >= w.clock {
        TickServes(s, now, fired, w, listenFd);
      }
      hide Apply, Enabled;
      SameClosings(w, Note(w, s, a, Apply(s, a, listenFd)));
    case Settle(now) =>
      SettleServes(s, now, w, listenFd);
      SettleIsJust(s, now, w, listenFd);
      hide Apply, Enabled;
      SameButClosings(s, w, a, listenFd);
    case Arm(now) =>
      if now >= w.clock {
        ArmEventServes(s, now, w, listenFd);
      }
      hide Apply, Enabled;
      SameClosings(w, Note(w, s, a, Apply(s, a, listenFd)));
    case Accept(fd) =>
      AcceptServes(s, fd, w, listenFd);
    case Register =>
      RegisterServes(s, w, listenFd);
    case Handle =>
      HandleIsHarmless(s, listenFd);
      hide Apply, Enabled;
      HarmlessKeeps(s, Apply(s, a, listenFd), w);
    case Dispatch(_) =>
      QuietStep(s, a, listenFd);
      hide Apply, Enabled;
      HarmlessKeeps(s, Apply(s, a, listenFd), w);
      OverflowedDoNotMatter(Apply(s, a, listenFd), w, Note(w, s, a, Apply(s, a, listenFd)));
    case Shutdown =>
      ClosingStep(s, a, listenFd);
      hide Apply, Enabled;
      HarmlessKeeps(s, Apply(s, a, listenFd), w);
    case CloseOne(_) =>
      ClosingStep(s, a, listenFd);
      hide Apply, Enabled;
      HarmlessKeeps(s, Apply(s, a, listenFd), w);
    case _ =>
      QuietStep(s, a, listenFd);
      hide Apply, Enabled;
      HarmlessKeeps(s, Apply(s, a, listenFd), w);
  }

  lemma {:induction false} SameClosings(w: Watch, w': Watch)
    requires w'.closings == w.closings && ClosingsAreJust(w)
    ensures ClosingsAreJust(w')
  {
  }

  lemma {:induction false} SameButClosings(s: State, w: Watch, a: Action, listenFd: Fd)
    requires a.Settle? && Enabled(s, a, listenFd)
    ensures var s' := Apply(s, a, listenFd); var w1, w' := ReadClock(w, Reading(s, a)), Note(w, s, a, s');
      && w' == w1.(closings := w'.closings)
      && ReadyIsServed(s', w1) == ReadyIsServed(s', w') && SeenWasServed(s', w1) == SeenWasServed(s', w')
  {
    hide Apply, Enabled;
  }

  lemma {:induction false} OverflowedDoNotMatter(s: State, w: Watch, w': Watch)
    requires w' == w.(overflowed := w'.overflowed)
    ensures ReadyIsServed(s, w) == ReadyIsServed(s, w') && SeenWasServed(s, w) == SeenWasServed(s, w')
    ensures ClosingsAreJust(w) == ClosingsAreJust(w')
  {
  }

  lemma {:induction false} RunNoneDue(s: State, w: Watch, acts: seq<Action>, listenFd: Fd)
    requires w.forward ==> w.roundAt <= w.clock && NoneIsDue(s, w)
    ensures var r := Watched(s, w, acts, listenFd); r.1.forward ==> NoneIsDue(r.0, r.1)
    decreases |acts|
  {
    if acts != [] {
      if Enabled(s, acts[0], listenFd) {
        var s' := Apply(s, acts[0], listenFd);
        ForwardStays(w, s, acts[0], s');
        if w.forward {
          StepNoneDue(s, w, acts[0], listenFd);
        }
        ClockStays(w, s, acts[0], s');
        hide NoneIsDue, Enabled, Apply, Note;
        RunNoneDue(s', Note(w, s, acts[0], s'), acts[1..], listenFd);
      } else {
        hide NoneIsDue, Enabled, Apply, Note;
        RunNoneDue(s, w, acts[1..], listenFd);
      }
    }
  }

  lemma {:induction false} ClockStays(w: Watch, s: State, a: Action, s': State)
    requires w.forward ==> w.roundAt <= w.clock
    ensures var w' := Note(w, s, a, s'); w'.forward ==> w'.roundAt <= w'.clock
  {
  }

  lemma {:induction false} ForwardStays(w: Watch, s: State, a: Action, s': State)
    ensures Note(w, s, a, s').forward ==> w.forward
  {
  }

  lemma {:induction false} RunServes(s: State, w: Watch, acts: seq<Action>, listenFd: Fd)
    requires Inv(s, listenFd) && EventsOwned(s) && WatchOk(s, w)
    ensures var r := Watched(s, w, acts, listenFd); WatchOk(r.0, r.1)
    decreases |acts|
  {
    if acts != [] {
      if Enabled(s, acts[0], listenFd) {
        StepKeepsAll(s, w, acts[0], listenFd);
        hide Inv, EventsOwned, WatchOk, Enabled, Apply, Note;
        var s' := Apply(s, acts[0], listenFd);
        RunServes(s', Note(w, s, acts[0], s'), acts[1..], listenFd);
      } else {
        hide Inv, EventsOwned, WatchOk, Enabled, Apply, Note;
        RunServes(s, w, acts[1..], listenFd);
      }
    }
  }

  lemma {:induction false} StepKeepsAll(s: State, w: Watch, a: Action, listenFd: Fd)
    requires Inv(s, listenFd) && EventsOwned(s) && WatchOk(s, w) && Enabled(s, a, listenFd)
    ensures var s' := Apply(s, a, listenFd); Inv(s', listenFd) && EventsOwned(s') && WatchOk(s', Note(w, s, a, s'))
  {
    assert Owned(s, listenFd);
    hide Inv, EventsOwned, Enabled, Apply, Note, Owned, ReadyIsServed, SeenWasServed, ClosingsAreJust, OverflowedGo;
    StepKeeps(s, a, listenFd);
    StepKeepsEvents(s, a, listenFd);
    StepOverflowed(s, w, a, listenFd);
    ForwardStays(w, s, a, Apply(s, a, listenFd));
    if w.forward {
      StepServes(s, w, a, listenFd);
    }
  }

  /** The watch of a new loop; every later reading is compared with `epoch`. */
  function StartWatch(epoch: int): Watch {
    Watch(epoch, true, epoch, {}, map[], [], {})
  }

  /** Over every interleaving, as long as the clock does not go back. At the top of the loop every connection
      that epoll_wait reported in the round just ended, and that is still registered, has a timer at least 15
      seconds behind that round's clock. And no connection is closed by a timeout within 15 seconds of a round
      that reported it. */
  lemma {:induction false} ActivityKeepsAlive(listenFd: Fd, epoch: int, acts: seq<Action>)
    ensures var r := Watched(Start(listenFd), StartWatch(epoch), acts, listenFd); var s, w := r.0, r.1;
      && s == Exec(Start(listenFd), acts, listenFd)
      && (w.forward && s.phase.Waiting? ==> forall c :: c in w.ready && Registered(s, c) ==>
            var fd := s.fdOf[c]; fd in s.reg.deadlines && s.reg.deadlines[fd] >= w.roundAt + 15)
      && (w.forward ==> forall i :: 0 <= i < |w.closings| && w.closings[i].seen.Some? ==>
            w.closings[i].seen.value + 15 <= w.closings[i].now)
  {
    Watching(listenFd, epoch, acts);
    TimeoutsAreJust(listenFd, acts);
    hide Watched, Exec;
    var r := Watched(Start(listenFd), StartWatch(epoch), acts, listenFd);
    var s, w := r.0, r.1;
    if w.forward && s.phase.Waiting? {
      NothingPending(s, w);
    }
  }

  lemma {:induction false} Watching(listenFd: Fd, epoch: int, acts: seq<Action>)
    ensures var r := Watched(Start(listenFd), StartWatch(epoch), acts, listenFd);
      r.0 == Exec(Start(listenFd), acts, listenFd) && WatchOk(r.0, r.1)
  {
    hide Watched, Exec;
    StartIsOwned(listenFd);
    RunServes(Start(listenFd), StartWatch(epoch), acts, listenFd);
    WatchedIsRun(Start(listenFd), StartWatch(epoch), acts, listenFd);
  }

  /** Whoever a dispatch found overflowed is closed before the loop handles its events. */
  lemma {:induction false} OverflowedAreClosed(listenFd: Fd, epoch: int, acts: seq<Action>)
    ensures var r := Watched(Start(listenFd), StartWatch(epoch), acts, listenFd); var s, w := r.0, r.1;
      !s.phase.Dropping? ==> forall c :: c in w.overflowed ==> c in s.reg.closed
  {
    hide Watched, Exec;
    Watching(listenFd, epoch, acts);
  }

  /** And who is idle goes: at the top of the loop every registered connection was last armed less than 15
      seconds before the clock of the round just ended. Streams have been armed again by their timeout;
      everything else is closed. */
  lemma {:induction false} IdleAreClosed(listenFd: Fd, epoch: int, acts: seq<Action>)
    ensures var r := Watched(Start(listenFd), StartWatch(epoch), acts, listenFd); var s, w := r.0, r.1;
      w.forward && s.phase.Waiting? ==> forall c: nat :: Registered(s, c) ==>
        c in s.lastArm && s.lastArm[c] + 15 > w.roundAt
  {
    RunNoneDue(Start(listenFd), StartWatch(epoch), acts, listenFd);
    WatchedIsRun(Start(listenFd), StartWatch(epoch), acts, listenFd);
    TimeoutsAreJust(listenFd, acts);
    hide Watched, Exec;
    var r := Watched(Start(listenFd), StartWatch(epoch), acts, listenFd);
    var s, w := r.0, r.1;
    if w.forward && s.phase.Waiting? {
      forall c: nat | Registered(s, c) ensures c in s.lastArm && s.lastArm[c] + 15 > w.roundAt {
        var fd := s.fdOf[c];
        assert fd in s.reg.table && s.reg.table[fd].Client?;
        assert s.reg.deadlines[fd] > w.roundAt;
      }
    }
  }
}
