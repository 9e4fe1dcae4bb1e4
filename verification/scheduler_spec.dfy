/** The run-to-completion scheduler (scheduler, task and priority queue) as a state machine.

    Everything the outside world decides is an argument: how much the clock advances before a
    reading and whether the reading fails, whether an insertion finds memory, where a task goes
    among equal deadlines, what a running task calls and what it returns. The functions below
    are total; a failed assertion of the source is the outcome `Aborted`. */
module SchedulerSpec {

  datatype Option<+T> = None | Some(value: T)

  type Positive = x: int | 0 < x witness 1

  const TWO_TO_31 := 0x8000_0000
  const TWO_TO_32 := 0x1_0000_0000
  const BAD_UID: nat := 0

  // ---------- Data ----------

  /** A task. `op` stands for the callback and its parameter. */
  datatype TaskRec = TaskRec(uid: nat, interval: Positive, deadline: int, op: nat)

  /** One call of time(NULL): the seconds since the clock was last looked at, and success. */
  datatype Reading = Reading(delay: nat, ok: bool)

  /** The start of one execution: which task, its deadline, and when it started. */
  datatype Start = Start(uid: nat, interval: Positive, deadline: int, at: int)

  /** The four fields of the scheduler, the clock, the UID counter, and three ledgers:
      UIDs of tasks freed, in order; UIDs of tasks no pointer reaches any more; starts. */
  datatype State = State(
    queue: seq<TaskRec>, cur: Option<TaskRec>, removeCur: bool, stop: bool,
    clock: int, nextUid: nat,
    destroyed: seq<nat>, lost: seq<nat>, log: seq<Start>)

  /** What decides a SchedulerAddTask: UIDCreate, the clock reading, the insertion. */
  datatype AddInput = AddInput(uidOk: bool, reading: Reading, enqueueOk: bool, tie: nat)

  /** A call into the scheduler. */
  datatype Call =
    | Add(interval: Positive, op: nat, input: AddInput)
    | Remove(uid: nat)
    | Clear
    | Stop

  datatype TaskResult = Fail | Done | Again

  datatype Status = Success | Stopped | TaskFail | SystemFail

  datatype Outcome = Continue | Returned(status: Status) | Aborted

  /** One pass through the run loop: the reading at its head, what each interrupted sleep had
      left, by how much the last one overran, the calls the task makes and its result, and
      what decides its requeueing. */
  datatype Turn = Turn(
    head: Reading, naps: seq<nat>, overrun: nat,
    calls: seq<Call>, result: TaskResult,
    requeue: Reading, enqueueOk: bool, tie: nat)

  // ---------- The ordered queue ----------

  /** Conversion of a time difference to a 32-bit int. */
  function Narrow(x: int): int {
    (x + TWO_TO_31) % TWO_TO_32 - TWO_TO_31
  }

  function PriorityFunc(a: TaskRec, b: TaskRec): int {
    Narrow(a.deadline - b.deadline)
  }

  /** How many leading tasks go before `t`; with `ties`, equal ones go before it too. */
  function Rank(q: seq<TaskRec>, t: TaskRec, ties: bool): (k: nat)
    ensures k <= |q|
  {
    if q == [] then 0
    else if PriorityFunc(q[0], t) < 0 || (ties && PriorityFunc(q[0], t) == 0) then 1 + Rank(q[1..], t, ties)
    else 0
  }

  /** Where the sorted list puts `t`: anywhere among its equals, as `tie` says. */
  function Position(q: seq<TaskRec>, t: TaskRec, tie: nat): (k: nat)
    ensures k <= |q|
  {
    var first, last := Rank(q, t, false), Rank(q, t, true);
    if first + tie <= last then first + tie else last
  }

  function Insert(q: seq<TaskRec>, t: TaskRec, tie: nat): seq<TaskRec> {
    var k := Position(q, t, tie);
    q[..k] + [t] + q[k..]
  }

  /** Index of the first task with UID `u`, or |q|. */
  function IndexOf(q: seq<TaskRec>, u: nat): (k: nat)
    ensures k <= |q|
    ensures forall i :: 0 <= i < k ==> q[i].uid != u
    ensures k < |q| ==> q[k].uid == u
  {
    if q == [] then 0 else if q[0].uid == u then 0 else 1 + IndexOf(q[1..], u)
  }

  function Uids(q: seq<TaskRec>): (us: seq<nat>)
    ensures |us| == |q| && forall i :: 0 <= i < |q| ==> us[i] == q[i].uid
  {
    seq(|q|, i requires 0 <= i < |q| => q[i].uid)
  }

  // ---------- Calls ----------

  function Read(s: State, r: Reading): State {
    s.(clock := s.clock + r.delay)
  }

  /** SchedulerAddTask. The result is the new UID, or BAD_UID. A failed reading inside
      TaskCreate leaves the fresh task unreachable. */
  function AddTask(s: State, interval: Positive, op: nat, i: AddInput): (State, nat) {
    if !i.uidOk then (s, BAD_UID)
    else
      var s1 := Read(s, i.reading).(nextUid := s.nextUid + 1);
      var t := TaskRec(s.nextUid, interval, s1.clock + interval, op);
      if !i.reading.ok then (s1.(lost := s.lost + [t.uid]), BAD_UID)
      else if !i.enqueueOk then (s1.(destroyed := s.destroyed + [t.uid]), BAD_UID)
      else (s1.(queue := Insert(s.queue, t, i.tie)), t.uid)
  }

  /** SchedulerRemoveTask. The result says whether the call succeeded. */
  function RemoveTask(s: State, u: nat): (State, bool) {
    var k := IndexOf(s.queue, u);
    if k < |s.queue| then
      (s.(queue := s.queue[..k] + s.queue[k + 1..], destroyed := s.destroyed + [u]), true)
    else if s.cur.Some? && s.cur.value.uid == u then (s.(removeCur := true), true)
    else (s, false)
  }

  function ClearAll(s: State): State {
    s.(queue := [], destroyed := s.destroyed + Uids(s.queue), removeCur := s.removeCur || s.cur.Some?)
  }

  function Perform(s: State, c: Call): State {
    match c
    case Add(interval, op, i) => AddTask(s, interval, op, i).0
    case Remove(u) => RemoveTask(s, u).0
    case Clear => ClearAll(s)
    case Stop => s.(stop := true)
  }

  function PerformAll(s: State, cs: seq<Call>): State
    decreases |cs|
  {
    if cs == [] then s else PerformAll(Perform(s, cs[0]), cs[1..])
  }

  // ---------- The run loop ----------

  predicate Empty(s: State) {
    s.queue == [] && s.cur.None?
  }

  /** Seconds slept for a deadline, after the conversion to int. */
  function SleepTime(deadline: int, now: int): nat {
    if deadline > now && Narrow(deadline - now) > 0 then Narrow(deadline - now) else 0
  }

  function UidOf(t: Option<TaskRec>): seq<nat> {
    if t.Some? then [t.value.uid] else []
  }

  /** Dequeue the first task into `cur` (overwriting what is there), sleep, and start it. */
  function Begin(s: State, head: Reading, overrun: nat): State
    requires s.queue != []
  {
    var t := s.queue[0];
    var now := s.clock + head.delay;
    var start := now + SleepTime(t.deadline, now) + overrun;
    s.(queue := s.queue[1..], cur := Some(t), clock := start, lost := s.lost + UidOf(s.cur),
       log := s.log + [Start(t.uid, t.interval, t.deadline, start)])
  }

  function DestroyCur(s: State): State {
    s.(cur := None, destroyed := s.destroyed + UidOf(s.cur))
  }

  function CheckStop(s: State): (State, Outcome) {
    if s.stop then (s.(stop := false), Returned(Stopped)) else (s, Continue)
  }

  /** What the loop does with the task that has just returned. */
  function Finish(s: State, turn: Turn): (State, Outcome) {
    var s1 := if s.removeCur then DestroyCur(s).(removeCur := false) else s;
    match turn.result
    case Fail => (DestroyCur(s1), Returned(TaskFail))
    case Done => CheckStop(DestroyCur(s1))
    case Again =>
      if s1.cur.None? then (s1, Aborted)
      else
        var s2 := Read(s1, turn.requeue);
        if !turn.requeue.ok then (s2, Returned(SystemFail))
        else
          var t := s1.cur.value.(deadline := s2.clock + s1.cur.value.interval);
          if !turn.enqueueOk then (DestroyCur(s2), Returned(SystemFail))
          else CheckStop(s2.(queue := Insert(s2.queue, t, turn.tie), cur := None))
  }

  function Step(s: State, turn: Turn): (State, Outcome) {
    if !turn.head.ok then (Read(s, turn.head).(stop := true), Returned(SystemFail))
    else if s.queue == [] then (Read(s, turn.head), Aborted)
    else Finish(PerformAll(Begin(s, turn.head, turn.overrun), turn.calls), turn)
  }

  /** The loop, for as many passes as the script has; `Continue` means still running. */
  function RunFrom(s: State, script: seq<Turn>): (State, Outcome)
    decreases |script|
  {
    if Empty(s) || s.stop then (s, Returned(Success))
    else if script == [] then (s, Continue)
    else
      var (s1, o) := Step(s, script[0]);
      if o.Continue? then RunFrom(s1, script[1..]) else (s1, o)
  }

  function EnterRun(s: State): State {
    s.(stop := false, removeCur := false)
  }

  function Run(s: State, script: seq<Turn>): (State, Outcome) {
    RunFrom(EnterRun(s), script)
  }

  // ---------- Histories ----------

  /** What an owner of a scheduler does between its creation and its destruction. */
  datatype Action = Api(call: Call) | RunLoop(script: seq<Turn>)

  function Create(clock: int): State {
    State([], None, false, false, clock, 1, [], [], [])
  }

  function Act(s: State, a: Action): State {
    match a
    case Api(c) => Perform(s, c)
    case RunLoop(script) => Run(s, script).0
  }

  function ActAll(s: State, actions: seq<Action>): State
    decreases |actions|
  {
    if actions == [] then s else ActAll(Act(s, actions[0]), actions[1..])
  }
}
