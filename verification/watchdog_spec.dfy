/** The client side of the mutual watch, as a state machine over the scheduler: its four tasks,
    the signal handlers and the stop request that may come between any two of its accesses to
    shared variables, and the loop of its thread. Results of kill, fork and waitpid are inputs. */
module WatchdogSpec {
  import opened SchedulerSpec

  // task_idx_ty. A task's callback is named by its index.
  const INCREMENT_COUNTER: nat := 0
  const REVIVE: nat := 1
  const SEND_SIGNAL: nat := 2
  const CHECK_FOR_SIGNAL: nat := 3
  const NUM_OF_TASKS: nat := 4

  /** The target before there is one: INT_MAX. */
  const NO_TARGET: nat := 0x7FFF_FFFF

  type Slots = s: seq<nat> | |s| == NUM_OF_TASKS witness [0, 0, 0, 0]
  const NO_UIDS: Slots := [BAD_UID, BAD_UID, BAD_UID, BAD_UID]

  type Pid = p: nat | 0 < p < NO_TARGET witness 1

  datatype KillResult = Sent | NoProcess | NotPermitted

  datatype ForkResult = ForkFailed | Child(pid: Pid)

  datatype Signal = Probe | Usr1 | Usr2

  /** What the client does to other processes and to the miss count, in order. */
  datatype Event =
    | Killed(pid: nat, signal: Signal, result: KillResult)
    | Forked(child: Pid)
    | NotForked
    | Incremented
    | Reset

  datatype Client = Client(
    sched: State, target: nat, slots: Slots,
    misses: nat, shouldStop: bool,
    interval: Positive, maxMissed: Positive,
    events: seq<Event>)

  /** What the world decides while one task runs. `raise`: DoNotResuscitate has stored its
      request by the time the task looks. `reset0`, `reset1`: SIGUSR1 arrives before the task
      accesses the miss count, and after. */
  datatype BodyInput = BodyInput(
    raise: bool, reset0: bool, reset1: bool,
    stopKill: KillResult, kill: KillResult, waitOk: bool, fork: ForkResult,
    add0: AddInput, add1: AddInput, add2: AddInput)

  /** One pass of the thread: the pass of the scheduler's loop around the task, and the
      insertion of CHECK_FOR_SIGNAL if the run has failed. */
  datatype ClientTurn = ClientTurn(
    head: Reading, naps: seq<nat>, overrun: nat, body: BodyInput,
    requeue: Reading, enqueueOk: bool, tie: nat, recover: AddInput)

  datatype BodyResult = Exit | Result(result: TaskResult)

  datatype Phase = Running | Finished(status: Status) | Dead

  // ---------- Shared variables ----------

  function ResetIf(c: Client, arrives: bool): Client {
    if arrives then c.(misses := 0, events := c.events + [Reset]) else c
  }

  function RaiseIf(c: Client, raise: bool): Client {
    c.(shouldStop := c.shouldStop || raise)
  }

  // ---------- Processes ----------

  /** kill(target, SIGUSR2 * !!target) */
  function KillTarget(c: Client, r: KillResult): Client {
    c.(events := c.events + [Killed(c.target, if c.target == 0 then Probe else Usr2, r)])
  }

  /** ReviveAppIMP, in the parent. */
  function ReviveApp(c: Client, f: ForkResult): Client {
    match f
    case ForkFailed => c.(target := 0, events := c.events + [NotForked])
    case Child(pid) => c.(target := pid, events := c.events + [Forked(pid)])
  }

  /** WatchdogStop. The second result is its return value. */
  function WatchdogStop(c: Client, r: KillResult): (Client, int) {
    if !c.shouldStop then (c, 0)
    else
      var c1 := KillTarget(c, r);
      if r.Sent? then (c1.(sched := c1.sched.(stop := true)), 1) else (c1, -1)
  }

  // ---------- The client's scheduler ----------

  function AddTaskToSched(c: Client, kind: nat, i: AddInput): (Client, bool)
    requires kind < NUM_OF_TASKS
  {
    var (s, uid) := AddTask(c.sched, c.interval, kind, i);
    if uid == BAD_UID then (c.(sched := s), false)
    else (c.(sched := s, slots := c.slots[kind := uid]), true)
  }

  function SetScheduler(c: Client, b: BodyInput): (Client, bool) {
    var (c1, ok1) := AddTaskToSched(c, SEND_SIGNAL, b.add0);
    if !ok1 then (c1, false)
    else
      var (c2, ok2) := AddTaskToSched(c1, REVIVE, b.add1);
      if !ok2 then (c2, false) else AddTaskToSched(c2, INCREMENT_COUNTER, b.add2)
  }

  function ClearSched(c: Client): Client {
    c.(sched := ClearAll(c.sched), slots := NO_UIDS)
  }

  function ChangeToWait(c: Client, i: AddInput): (Client, TaskResult) {
    var (c1, ok) := AddTaskToSched(ClearSched(c), CHECK_FOR_SIGNAL, i);
    (c1, if ok then Done else Fail)
  }

  // ---------- The four tasks ----------

  function ReviveIfNeeded(c: Client, b: BodyInput): (Client, BodyResult) {
    var (c1, stopped) := WatchdogStop(c, b.stopKill);
    if stopped != 0 then (c1, Result(Done))
    else
      var c2 := ResetIf(c1, b.reset0);
      if c2.misses >= c2.maxMissed then
        var c3 := KillTarget(c2, b.kill);
        if b.kill.NotPermitted? then (c3, Exit)
        else
          var (c4, r) := ChangeToWait(ReviveApp(c3, b.fork), b.add0);
          (c4, Result(r))
      else (c2, Result(Again))
  }

  function IncCnt(c: Client, b: BodyInput): (Client, BodyResult) {
    var (c1, stopped) := WatchdogStop(c, b.stopKill);
    if stopped != 0 then (c1, Result(Done))
    else
      var c2 := ResetIf(c1, b.reset0);
      (c2.(misses := c2.misses + 1, events := c2.events + [Incremented]), Result(Again))
  }

  function SendSignal(c: Client, b: BodyInput): (Client, BodyResult) {
    var (c1, stopped) := WatchdogStop(c, b.stopKill);
    if stopped != 0 then (c1, Result(Done))
    else
      var c2 := c1.(events := c1.events + [Killed(c1.target, Usr1, b.kill)]);
      match b.kill
      case Sent => (c2, Result(Again))
      case NotPermitted => (c2, Exit)
      case NoProcess => (ReviveApp(c2, b.fork), Result(Done))
  }

  function WaitForApp(c: Client, b: BodyInput): (Client, BodyResult) {
    if c.shouldStop then
      var (c1, stopped) := WatchdogStop(c, b.stopKill);
      (c1, Result(if stopped == 1 then Again else Fail))
    else
      var c1 := ResetIf(c, b.reset0);
      if c1.misses == 0 then
        var (c2, ok) := SetScheduler(c1, b);
        (c2, if ok then Result(Done) else Exit)
      else
        var c2 := KillTarget(c1, b.kill);
        if b.kill.NotPermitted? then (c2, Exit)
        else if !b.waitOk then (c2, Result(Fail))
        else (ReviveApp(c2, b.fork), Result(Again))
  }

  function Task(c: Client, kind: nat, b: BodyInput): (Client, BodyResult) {
    if kind == INCREMENT_COUNTER then IncCnt(c, b)
    else if kind == REVIVE then ReviveIfNeeded(c, b)
    else if kind == SEND_SIGNAL then SendSignal(c, b)
    else WaitForApp(c, b)
  }

  function Body(c: Client, kind: nat, b: BodyInput): (Client, BodyResult) {
    var (c1, r) := Task(RaiseIf(c, b.raise), kind, b);
    (ResetIf(c1, b.reset1), r)
  }

  // ---------- The thread ----------

  /** After a failed run: clear, add CHECK_FOR_SIGNAL whether or not that succeeds, run again. */
  function Recover(c: Client, i: AddInput): Client {
    var c1 := AddTaskToSched(ClearSched(c), CHECK_FOR_SIGNAL, i).0;
    c1.(sched := EnterRun(c1.sched))
  }

  function AsTurn(t: ClientTurn, result: TaskResult, calls: seq<Call>): Turn {
    Turn(t.head, t.naps, t.overrun, calls, result, t.requeue, t.enqueueOk, t.tie)
  }

  function AfterOutcome(c: Client, o: Outcome, i: AddInput): (Client, Phase) {
    match o
    case Continue => (c, Running)
    case Aborted => (c, Dead)
    case Returned(TaskFail) => (Recover(c, i), Running)
    case Returned(SystemFail) => (Recover(c, i), Running)
    case Returned(status) => (c, Finished(status))
  }

  datatype PassResult = Exited | Ran(outcome: Outcome)

  /** One pass of the scheduler's loop, with the client's task in it. */
  function Pass(c: Client, t: ClientTurn): (Client, PassResult) {
    if !t.head.ok then (c.(sched := Read(c.sched, t.head).(stop := true)), Ran(Returned(SystemFail)))
    else if c.sched.queue == [] then (c.(sched := Read(c.sched, t.head)), Ran(Aborted))
    else
      var c1 := c.(sched := Begin(c.sched, t.head, t.overrun));
      var (c2, r) := Body(c1, c.sched.queue[0].op, t.body);
      if r.Exit? then (c2, Exited)
      else
        var (s, o) := Finish(c2.sched, AsTurn(t, r.result, []));
        (c2.(sched := s), Ran(o))
  }

  /** One pass of the thread, from the head of the scheduler's loop to the next. */
  function ClientStep(c: Client, t: ClientTurn): (Client, Phase) {
    if Empty(c.sched) || c.sched.stop then (c, Finished(Success))
    else
      var (c1, r) := Pass(c, t);
      match r
      case Exited => (c1, Dead)
      case Ran(o) => AfterOutcome(c1, o, t.recover)
  }

  function Thread(c: Client, script: seq<ClientTurn>): (Client, Phase)
    decreases |script|
  {
    if script == [] then (c, Running)
    else
      var (c1, p) := ClientStep(c, script[0]);
      if p.Running? then Thread(c1, script[1..]) else (c1, p)
  }

  /** The thread as it enters its first run: a new scheduler holding the REVIVE task. */
  function StartClient(clock: int, interval: Positive, maxMissed: Positive, i: AddInput): (Client, bool) {
    AddTaskToSched(
      Client(Create(clock), NO_TARGET, NO_UIDS, maxMissed, false, interval, maxMissed, []), REVIVE, i)
  }
}
