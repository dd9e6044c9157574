/** ThreadPool.cpp as a condition-variable protocol. Every step is one critical section or one notification; the
    scheduler, the choice of the thread notify_one wakes, and spurious wakeups are arbitrary. */
module ThreadPools {
  import opened Wrappers

  type Task = nat

  /** What a worker finds when it holds the mutex: nothing to do, the end, or the front task. */
  datatype Found = Nothing | Quit | Take(task: Task)

  function Look(queue: seq<Task>, stop: bool): Found {
    if !stop && queue == [] then Nothing else if stop && queue == [] then Quit else Take(queue[0])
  }

  // ---------- The protocol ----------

  /** Testing: awake and about to test the predicate. */
  datatype Worker = Testing | Sleeping | Running(task: Task) | Exited

  /** `pendingOne`: notify_one calls still to be made; `pendingAll`: the destructor's notify_all is. The last
      four fields are history; `atStop` is the number of tasks submitted when stop was set. */
  datatype Pool = Pool(
    queue: seq<Task>, stop: bool, workers: seq<Worker>, pendingOne: nat, pendingAll: bool,
    submitted: seq<Task>, started: seq<Task>, finished: seq<Task>, atStop: nat)

  datatype Action =
    | Submit(task: Task)
    | NotifyOne(woken: Option<nat>)
    | Wake(worker: nat)
    | Test(worker: nat)
    | Finish(worker: nat)
    | RequestStop
    | NotifyAll

  datatype Kind = KTesting | KSleeping | KRunning | KExited

  function KindOf(w: Worker): Kind {
    match w
    case Testing => KTesting
    case Sleeping => KSleeping
    case Running(_) => KRunning
    case Exited => KExited
  }

  function One(w: Worker, kind: Kind): nat {
    if KindOf(w) == kind then 1 else 0
  }

  function Count(ws: seq<Worker>, kind: Kind): nat {
    if ws == [] then 0 else One(ws[0], kind) + Count(ws[1..], kind)
  }

  function Task1(w: Worker): multiset<Task> {
    if w.Running? then multiset{w.task} else multiset{}
  }

  function RunningTasks(ws: seq<Worker>): multiset<Task> {
    if ws == [] then multiset{} else Task1(ws[0]) + RunningTasks(ws[1..])
  }

  function WakeAll(ws: seq<Worker>): (r: seq<Worker>)
    ensures |r| == |ws|
  {
    if ws == [] then [] else [if ws[0].Sleeping? then Testing else ws[0]] + WakeAll(ws[1..])
  }

  predicate Is(p: Pool, i: nat, kind: Kind) {
    i < |p.workers| && KindOf(p.workers[i]) == kind
  }

  /** notify_one wakes one sleeper, any one, and nobody only when there is none. */
  predicate Enabled(p: Pool, a: Action) {
    match a
    case Submit(_) => true
    case NotifyOne(None) => p.pendingOne > 0 && Count(p.workers, KSleeping) == 0
    case NotifyOne(Some(i)) => p.pendingOne > 0 && Is(p, i, KSleeping)
    case Wake(i) => Is(p, i, KSleeping)
    case Test(i) => Is(p, i, KTesting)
    case Finish(i) => Is(p, i, KRunning)
    case RequestStop => !p.stop
    case NotifyAll => p.pendingAll
  }

  function Apply(p: Pool, a: Action): Pool
    requires Enabled(p, a)
  {
    match a
    case Submit(task) =>
      p.(queue := p.queue + [task], submitted := p.submitted + [task],
         pendingOne := p.pendingOne + 1)
    case NotifyOne(None) => p.(pendingOne := p.pendingOne - 1)
    case NotifyOne(Some(i)) => p.(pendingOne := p.pendingOne - 1, workers := p.workers[i := Testing])
    case Wake(i) => p.(workers := p.workers[i := Testing])
    case Test(i) =>
      (match Look(p.queue, p.stop)
       case Nothing => p.(workers := p.workers[i := Sleeping])
       case Quit => p.(workers := p.workers[i := Exited])
       case Take(task) =>
         p.(queue := p.queue[1..], started := p.started + [task], workers := p.workers[i := Running(task)]))
    case Finish(i) => p.(finished := p.finished + [p.workers[i].task], workers := p.workers[i := Testing])
    case RequestStop => p.(stop := true, pendingAll := true, atStop := |p.submitted|)
    case NotifyAll => p.(pendingAll := false, workers := WakeAll(p.workers))
  }

  function Exec(p: Pool, acts: seq<Action>): Pool
    decreases |acts|
  {
    if acts == [] then p else Exec(if Enabled(p, acts[0]) then Apply(p, acts[0]) else p, acts[1..])
  }

  /** The constructor starts n threads. */
  function Start(n: nat): Pool {
    Pool([], false, seq(n, _ => Testing), 0, false, [], [], [], 0)
  }

  // ---------- Counting workers ----------

  lemma {:induction false} CountUpdate(ws: seq<Worker>, i: nat, w: Worker, kind: Kind)
    requires i < |ws|
    ensures Count(ws[i := w], kind) + One(ws[i], kind) == Count(ws, kind) + One(w, kind)
    decreases |ws|
  {
    hide KindOf;
    if i > 0 {
      assert ws[i := w][1..] == ws[1..][i - 1 := w];
      CountUpdate(ws[1..], i - 1, w, kind);
    } else {
      assert ws[0 := w][1..] == ws[1..];
    }
  }

  lemma {:induction false} RunningUpdate(ws: seq<Worker>, i: nat, w: Worker)
    requires i < |ws|
    ensures RunningTasks(ws[i := w]) + Task1(ws[i]) == RunningTasks(ws) + Task1(w)
    decreases |ws|
  {
    if i > 0 {
      assert ws[i := w][1..] == ws[1..][i - 1 := w];
      RunningUpdate(ws[1..], i - 1, w);
      var first, before, after := Task1(ws[0]), RunningTasks(ws[1..]), RunningTasks(ws[1..][i - 1 := w]);
      assert first + after + Task1(ws[i]) == first + (after + Task1(ws[i]));
      assert first + before + Task1(w) == first + (before + Task1(w));
    } else {
      var rest := RunningTasks(ws[1..]);
      assert ws[0 := w][1..] == ws[1..];
      assert Task1(w) + rest + Task1(ws[0]) == Task1(ws[0]) + rest + Task1(w);
    }
  }

  lemma {:induction false} WakeAllCounts(ws: seq<Worker>)
    ensures Count(WakeAll(ws), KSleeping) == 0
    ensures Count(WakeAll(ws), KTesting) == Count(ws, KTesting) + Count(ws, KSleeping)
    ensures Count(WakeAll(ws), KRunning) == Count(ws, KRunning) && Count(WakeAll(ws), KExited) == Count(ws, KExited)
    ensures RunningTasks(WakeAll(ws)) == RunningTasks(ws)
  {
    if ws != [] {
      WakeAllCounts(ws[1..]);
      assert WakeAll(ws)[1..] == WakeAll(ws[1..]);
    }
  }

  lemma {:induction false} CountsCover(ws: seq<Worker>)
    ensures Count(ws, KTesting) + Count(ws, KSleeping) + Count(ws, KRunning) + Count(ws, KExited) == |ws|
    ensures Count(ws, KRunning) == 0 ==> RunningTasks(ws) == multiset{}
    ensures forall i :: 0 <= i < |ws| ==> Count(ws, KindOf(ws[i])) > 0
  {
    if ws != [] {
      CountsCover(ws[1..]);
      forall i | 0 <= i < |ws| ensures Count(ws, KindOf(ws[i])) > 0 {
        if i > 0 {
          assert ws[1..][i - 1] == ws[i];
        }
      }
    }
  }

  // ---------- The invariant ----------

  /** A sleeper implies a taker for every queued task: an awake tester or a notification on its way. */
  predicate NoLostWakeup(p: Pool) {
    Count(p.workers, KSleeping) > 0 ==>
      |p.queue| <= Count(p.workers, KTesting) + p.pendingOne && (p.stop ==> p.pendingAll)
  }

  /** Submitted tasks are those dequeued, in this order, and those waiting; the dequeued are running or finished. */
  predicate ExactlyOnce(p: Pool) {
    p.submitted == p.started + p.queue && multiset(p.started) == RunningTasks(p.workers) + multiset(p.finished)
  }

  /** A worker exits only after stop, and when every task submitted before stop has been dequeued. */
  predicate ExitsAtEnd(p: Pool) {
    && (p.pendingAll ==> p.stop) && (p.stop ==> p.atStop <= |p.submitted|)
    && (Count(p.workers, KExited) > 0 ==> p.stop && p.atStop <= |p.started|)
  }

  predicate Inv(p: Pool) {
    NoLostWakeup(p) && ExactlyOnce(p) && ExitsAtEnd(p)
  }

  lemma {:induction false} MoveWorker(p: Pool, i: nat, w: Worker)
    requires i < |p.workers|
    ensures var ws := p.workers[i := w];
      && (forall k :: Count(ws, k) + One(p.workers[i], k) == Count(p.workers, k) + One(w, k))
      && RunningTasks(ws) + Task1(p.workers[i]) == RunningTasks(p.workers) + Task1(w)
  {
    hide KindOf;
    forall k ensures Count(p.workers[i := w], k) + One(p.workers[i], k) == Count(p.workers, k) + One(w, k) {
      CountUpdate(p.workers, i, w, k);
    }
    RunningUpdate(p.workers, i, w);
  }

  /** What a worker brings and takes away when it changes state. */
  lemma {:induction false} RunningMoves(ws: seq<Worker>, i: nat, w: Worker)
    requires i < |ws| && !ws[i].Running?
    ensures RunningTasks(ws[i := w]) == RunningTasks(ws) + Task1(w)
  {
    hide RunningTasks;
    RunningUpdate(ws, i, w);
    assert RunningTasks(ws[i := w]) + multiset{} == RunningTasks(ws[i := w]);
  }

  lemma {:induction false} TaskTaken(started: seq<Task>, queue: seq<Task>, before: multiset<Task>,
      finished: multiset<Task>)
    requires queue != [] && multiset(started) == before + finished
    ensures multiset(started + [queue[0]]) == before + multiset{queue[0]} + finished
    ensures started + queue == (started + [queue[0]]) + queue[1..]
  {
    assert multiset(started + [queue[0]]) == multiset(started) + multiset{queue[0]};
  }

  lemma {:induction false} TestKeepsTasks(p: Pool, i: nat)
    requires ExactlyOnce(p) && Enabled(p, Test(i))
    ensures ExactlyOnce(Apply(p, Test(i)))
  {
    hide RunningTasks;
    var w := Apply(p, Test(i)).workers[i];
    RunningMoves(p.workers, i, w);
    if p.queue != [] {
      TaskTaken(p.started, p.queue, RunningTasks(p.workers), multiset(p.finished));
    } else {
      assert RunningTasks(p.workers) + multiset{} == RunningTasks(p.workers);
    }
  }

  lemma {:induction false} TestKeepsCounts(p: Pool, i: nat)
    requires NoLostWakeup(p) && ExitsAtEnd(p) && |p.submitted| == |p.started| + |p.queue| && Enabled(p, Test(i))
    ensures NoLostWakeup(Apply(p, Test(i))) && ExitsAtEnd(Apply(p, Test(i)))
  {
    hide Count, RunningTasks;
    MoveWorker(p, i, Apply(p, Test(i)).workers[i]);
  }

  lemma {:induction false} TestKeeps(p: Pool, i: nat)
    requires Inv(p) && Enabled(p, Test(i))
    ensures Inv(Apply(p, Test(i)))
  {
    assert |p.submitted| == |p.started| + |p.queue|;
    hide ExactlyOnce, NoLostWakeup, ExitsAtEnd, Apply;
    TestKeepsTasks(p, i);
    TestKeepsCounts(p, i);
  }

  lemma {:induction false} FinishKeeps(p: Pool, i: nat)
    requires Inv(p) && Enabled(p, Finish(i))
    ensures Inv(Apply(p, Finish(i)))
  {
    hide Count, RunningTasks;
    MoveWorker(p, i, Testing);
    var q := Apply(p, Finish(i));
    var before, after, task := RunningTasks(p.workers), RunningTasks(q.workers), p.workers[i].task;
    assert before + multiset{} == before;
    assert multiset(p.finished + [task]) == multiset(p.finished) + multiset{task};
    assert after + (multiset(p.finished) + multiset{task}) == after + multiset{task} + multiset(p.finished);
  }

  lemma {:induction false} WakeKeeps(p: Pool, i: nat, notified: nat)
    requires Inv(p) && Is(p, i, KSleeping) && notified <= 1 && notified <= p.pendingOne
    ensures Inv(p.(pendingOne := p.pendingOne - notified, workers := p.workers[i := Testing]))
  {
    hide Count, RunningTasks;
    MoveWorker(p, i, Testing);
    var after := RunningTasks(p.workers[i := Testing]);
    assert after + multiset{} == after && RunningTasks(p.workers) + multiset{} == RunningTasks(p.workers);
  }

  lemma {:induction false} StepKeeps(p: Pool, a: Action)
    requires Inv(p) && Enabled(p, a)
    ensures Inv(Apply(p, a))
  {
    match a
    case Submit(task) =>
      hide Count, RunningTasks;
      assert p.started + p.queue + [task] == p.started + (p.queue + [task]);
    case NotifyOne(woken) =>
      if woken.Some? {
        WakeKeeps(p, woken.value, 1);
      }
    case Wake(i) => WakeKeeps(p, i, 0);
    case Test(i) => TestKeeps(p, i);
    case Finish(i) => FinishKeeps(p, i);
    case RequestStop => hide Count, RunningTasks;
    case NotifyAll => WakeAllCounts(p.workers);
  }

  lemma {:induction false} RunKeeps(p: Pool, acts: seq<Action>)
    requires Inv(p)
    ensures Inv(Exec(p, acts)) && |Exec(p, acts).workers| == |p.workers|
    decreases |acts|
  {
    hide Inv;
    if acts != [] {
      if Enabled(p, acts[0]) {
        StepKeeps(p, acts[0]);
      }
      RunKeeps(if Enabled(p, acts[0]) then Apply(p, acts[0]) else p, acts[1..]);
    }
  }

  lemma {:induction false} AllTesting(n: nat)
    ensures var ws := seq(n, _ => Testing);
      Count(ws, KSleeping) == 0 && Count(ws, KExited) == 0 && RunningTasks(ws) == multiset{}
  {
    var ws := seq(n, _ => Testing);
    if n > 0 {
      AllTesting(n - 1);
      assert ws[1..] == seq((n - 1) as nat, _ => Testing);
    }
  }

  /** Over every run: no wakeup is lost, every task is queued, running or finished exactly once and in
      submission order, and nobody leaves early. */
  lemma {:induction false} PoolIsSafe(n: nat, acts: seq<Action>)
    ensures var p := Exec(Start(n), acts);
      NoLostWakeup(p) && ExactlyOnce(p) && ExitsAtEnd(p) && |p.workers| == n
  {
    AllTesting(n);
    RunKeeps(Start(n), acts);
  }

  // ---------- The pool makes progress by itself ----------

  /** Steps of the pool's own threads: no submit, no stop request, no spurious wakeup. */
  predicate Internal(a: Action) {
    a.NotifyOne? || a.Test? || a.Finish? || a.NotifyAll?
  }

  function Work(p: Pool): nat {
    3 * |p.queue| + 2 * Count(p.workers, KRunning) + Count(p.workers, KTesting) + 2 * p.pendingOne
    + (if p.pendingAll then |p.workers| + 1 else 0)
  }

  /** Every internal step uses up work, so the pool comes to rest after at most Work(p) of them, whatever the
      scheduler does. */
  lemma {:induction false} WorkDecreases(p: Pool, a: Action)
    requires Enabled(p, a) && Internal(a)
    ensures Work(Apply(p, a)) < Work(p)
  {
    match a
    case NotifyAll =>
      WakeAllCounts(p.workers);
      CountsCover(p.workers);
      hide Count, WakeAll;
    case NotifyOne(woken) =>
      hide Count;
      if woken.Some? {
        MovedWork(p, woken.value, Testing);
      }
    case Test(i) =>
      TestDecreases(p, i);
    case Finish(i) =>
      hide Count;
      MovedWork(p, i, Testing);
  }

  lemma {:induction false} TestDecreases(p: Pool, i: nat)
    requires Is(p, i, KTesting)
    ensures Work(Apply(p, Test(i))) < Work(p)
  {
    hide Count;
    MovedWork(p, i, Apply(p, Test(i)).workers[i]);
  }

  lemma {:induction false} MovedWork(p: Pool, i: nat, w: Worker)
    requires i < |p.workers|
    ensures var ws := p.workers[i := w];
      && Count(ws, KRunning) + One(p.workers[i], KRunning) == Count(p.workers, KRunning) + One(w, KRunning)
      && Count(ws, KTesting) + One(p.workers[i], KTesting) == Count(p.workers, KTesting) + One(w, KTesting)
  {
    hide Count;
    CountUpdate(p.workers, i, w, KRunning);
    CountUpdate(p.workers, i, w, KTesting);
  }

  ghost predicate AtRest(p: Pool) {
    forall a :: Internal(a) ==> !Enabled(p, a)
  }

  lemma {:induction false} RestCounts(p: Pool)
    requires AtRest(p)
    ensures Count(p.workers, KTesting) == 0 && Count(p.workers, KRunning) == 0 && !p.pendingAll && p.pendingOne == 0
  {
    assert !Enabled(p, NotifyAll);
    if Count(p.workers, KTesting) > 0 {
      var i := FindKind(p.workers, KTesting);
      assert Enabled(p, Test(i));
    }
    if Count(p.workers, KRunning) > 0 {
      var i := FindKind(p.workers, KRunning);
      assert Enabled(p, Finish(i));
    }
    if p.pendingOne > 0 {
      if Count(p.workers, KSleeping) > 0 {
        var i := FindKind(p.workers, KSleeping);
        assert Enabled(p, NotifyOne(Some(i)));
      } else {
        assert Enabled(p, NotifyOne(None));
      }
    }
  }

  lemma {:induction false} FindKind(ws: seq<Worker>, kind: Kind) returns (i: nat)
    requires Count(ws, kind) > 0
    ensures i < |ws| && KindOf(ws[i]) == kind
    decreases |ws|
  {
    if KindOf(ws[0]) == kind {
      i := 0;
    } else {
      i := FindKind(ws[1..], kind);
      i := i + 1;
    }
  }

  /** What has finished is exactly the first tasks submitted, as many as were dequeued. */
  predicate FinishedInOrder(p: Pool) {
    |p.started| <= |p.submitted| && multiset(p.finished) == multiset(p.submitted[..|p.started|])
  }

  /** When the pool has come to rest every task it took has finished. Before stop that is every task submitted, so the
      pool never blocks with work queued; after stop every worker has exited, and it is every task submitted before
      stop at least. */
  lemma {:induction false} RestMeansDone(n: nat, acts: seq<Action>)
    requires n > 0 && AtRest(Exec(Start(n), acts))
    ensures var p := Exec(Start(n), acts);
      && FinishedInOrder(p)
      && (!p.stop ==> p.queue == [] && |p.started| == |p.submitted|)
      && (p.stop ==> Count(p.workers, KExited) == n && p.atStop <= |p.started|)
  {
    hide Exec, Count, RunningTasks;
    var p := Exec(Start(n), acts);
    PoolIsSafe(n, acts);
    RestCounts(p);
    CountsCover(p.workers);
    assert p.submitted[..|p.started|] == p.started;
  }

  /** The destructor's join: once every worker has exited, everything submitted before stop has finished, whatever was
      submitted later; and if nothing was, the queue is empty. */
  lemma {:induction false} JoinedMeansDone(n: nat, acts: seq<Action>)
    requires n > 0 && Count(Exec(Start(n), acts).workers, KExited) == n
    ensures var p := Exec(Start(n), acts);
      && p.stop && FinishedInOrder(p) && p.atStop <= |p.started|
      && (|p.submitted| == p.atStop ==> p.queue == [])
  {
    hide Exec, Count, RunningTasks;
    var p := Exec(Start(n), acts);
    PoolIsSafe(n, acts);
    CountsCover(p.workers);
    assert p.submitted[..|p.started|] == p.started;
  }

  // ---------- The object ----------

  /** The state the mutex protects, and the sections that touch it: each is one step of the protocol, so that whatever
      the other threads do in between, the object is always in a state the lemmas above speak of. */
  class ThreadPool {
    var taskQueue: seq<Task>
    var stop: bool
    /** The whole protocol: the workers, the notifications under way, and what was submitted, taken and finished. */
    ghost var pool: Pool

    ghost predicate Valid()
      reads this
    {
      Inv(pool) && taskQueue == pool.queue && stop == pool.stop
    }

    constructor (numThreads: nat)
      ensures Valid() && pool == Start(numThreads)
    {
      taskQueue, stop := [], false;
      pool := Start(numThreads);
      AllTesting(numThreads);
    }

    /** submit, under the lock: the task is behind all submitted so far, and a notification is due. */
    method Push(task: Task)
      requires Valid()
      modifies this
      ensures Valid() && pool == Apply(old(pool), Submit(task))
      ensures pool.submitted == old(pool.submitted) + [task] == pool.started + taskQueue && pool.pendingOne > 0
    {
      StepKeeps(pool, Submit(task));
      taskQueue := taskQueue + [task];
      pool := Apply(pool, Submit(task));
    }

    /** workerLoop, from the test of the wait predicate to the end of the locked block. */
    method Test(ghost worker: nat) returns (found: Found)
      requires Valid() && Is(pool, worker, KTesting)
      modifies this
      ensures Valid() && pool == Apply(old(pool), Action.Test(worker))
      ensures pool.workers[worker] == match found
        case Nothing => Sleeping
        case Quit => Exited
        case Take(task) => Running(task)
    {
      hide Inv;
      StepKeeps(pool, Action.Test(worker));
      pool := Apply(pool, Action.Test(worker));
      if !(stop || taskQueue != []) { return Nothing; }
      if stop && taskQueue == [] { return Quit; }
      found := Take(taskQueue[0]);
      taskQueue := taskQueue[1..];
    }

    /** The destructor, under the lock, once: from here on no new sleeper can be left behind. */
    method Stop()
      requires Valid() && !stop
      modifies this
      ensures Valid() && pool == Apply(old(pool), RequestStop)
      ensures pool.pendingAll && pool.started + taskQueue == pool.submitted && |pool.submitted| == pool.atStop
    {
      StepKeeps(pool, RequestStop);
      stop := true;
      pool := Apply(pool, RequestStop);
    }
  }
}
