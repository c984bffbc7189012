/**
 Waiting on a QUIC connection (quic.rs): async operations that arm a notification before they check,
 poll operations that register a waker before they check, and the background driver that changes the
 connection and then notifies, and application calls that close the connection and then notify.  Every
 interleaving of their atomic steps is a run.
 */
module QuicWakeups {
  type TaskId = nat
  type CallId = nat
  type StreamId = nat

  /**
   What the waiting code can see of the connection: `deliverable` streams have data, an end or an error to
   read, `writable` ones would take data, `readable` ones were opened by the peer, `credit` is how many
   streams the peer lets us open.
   */
  datatype Conn = Conn(established: bool, closed: bool, draining: bool, acked: nat, credit: nat,
                       readable: set<StreamId>, accepted: set<StreamId>,
                       deliverable: set<StreamId>, writable: set<StreamId>)

  datatype Wait =
    | Handshake
    | Ping(ackedBefore: nat)
    | OpenStream
    | AcceptStream
    | Read(stream: StreamId)

  datatype PollWait = PollRead(stream: StreamId) | PollWrite(stream: StreamId)

  /** The operation has something to return, be it a failure. */
  predicate Ready(w: Wait, c: Conn) {
    match w
    case Handshake => c.established || c.closed
    case Ping(before) => c.acked > before || c.closed || c.draining
    case OpenStream => c.closed || c.credit > 0
    case AcceptStream => c.closed || !(c.readable <= c.accepted)
    case Read(s) => s in c.deliverable || c.closed
  }

  predicate PollReady(w: PollWait, c: Conn) {
    match w
    case PollRead(s) => s in c.deliverable || c.closed
    case PollWrite(s) => s in c.writable
  }

  /** Application calls use up what is there: they make no one ready who was not. */
  ghost predicate Quieter(c: Conn, c': Conn) {
    && (forall w: Wait :: Ready(w, c') ==> Ready(w, c))
    && (forall w: PollWait :: PollReady(w, c') ==> PollReady(w, c))
  }

  /** An async operation after `notified.enable()`: which checks it has passed, and whether the notification fired. */
  datatype Task = Away | Armed(wait: Wait, connChecked: bool, exitChecked: bool, fired: bool)

  /** What a task polls for: between registering its waker and checking, or answered `Pending`. */
  datatype Poll = Registered | Parked

  /** One task may poll for several things, such as both directions of a stream. */
  datatype Interest = Interest(task: TaskId, wait: PollWait)

  /** What the driver does once it has notified. */
  datatype Then = Loop | Break | Finish

  /**
   Where the driver is.  `Announcing`: the connection may have changed and `notify_waiters` is due;
   `Taking`: then the wakers are taken; `Waking`: then woken one by one; `Exiting`: out of the loop, with
   the exit flag not yet set.
   */
  datatype Driver =
    | Running
    | Announcing(next: Then)
    | Taking(next: Then)
    | Waking(next: Then, rest: set<TaskId>)
    | Exiting
    | Dead

  /**
   Where a call of `close_with_error` is: it has changed the connection; it has fired the notifications;
   it has taken the wakers, and wakes them one by one.
   */
  datatype Closer = Closed | Notified | Wakes(rest: set<TaskId>)

  /** `woken` are the tasks woken since they last began to poll. */
  datatype System = System(conn: Conn, exited: bool, driver: Driver, closers: map<CallId, Closer>,
                           tasks: map<TaskId, Task>, polls: map<Interest, Poll>,
                           wakers: set<TaskId>, woken: set<TaskId>)

  datatype Step =
    // the driver
    | ReceivePacket(after: Conn, valid: bool)
    | HandleTimeout(after: Conn)
    | SeeClosed
    | StopLoop
    | NotifyWaiters
    | TakeWakers
    | WakeOne(task: TaskId)
    | NotifyDone
    | SetExited
    // async operations
    | Arm(task: TaskId, wait: Wait)
    | CheckConn(task: TaskId, after: Conn)
    | CheckExit(task: TaskId)
    | Resume(task: TaskId)
    | Leave(task: TaskId)
    // poll operations
    | BeginRound(task: TaskId)
    | Register(interest: Interest)
    | FindLocked(interest: Interest)
    | CheckPoll(interest: Interest, after: Conn)
    // other application calls: reads and writes, and closing the connection
    | UseConnection(after: Conn)
    | Close(call: CallId, after: Conn)
    | NotifyOfClose(call: CallId)
    | TakeForClose(call: CallId)
    | WakeForClose(call: CallId, task: TaskId)

  function Fire(tasks: map<TaskId, Task>): map<TaskId, Task> {
    map t | t in tasks :: if tasks[t].Armed? then tasks[t].(fired := true) else tasks[t]
  }

  function Continue(n: Then): Driver {
    match n
    case Loop => Running
    case Break => Exiting
    case Finish => Dead
  }

  function TaskOf(s: System, t: TaskId): Task {
    if t in s.tasks then s.tasks[t] else Away
  }

  function DriverStep(s: System, step: Step): System {
    match step
    case ReceivePacket(c, valid) =>
      if !s.driver.Running? then s else s.(conn := c, driver := if valid then Announcing(Loop) else Exiting)
    case HandleTimeout(c) => if s.driver.Running? then s.(conn := c, driver := Announcing(Loop)) else s
    case SeeClosed => if s.driver.Running? && s.conn.closed then s.(driver := Announcing(Break)) else s
    case StopLoop => if s.driver.Running? then s.(driver := Exiting) else s
    case NotifyWaiters =>
      if s.driver.Announcing? then s.(tasks := Fire(s.tasks), driver := Taking(s.driver.next)) else s
    case TakeWakers => if s.driver.Taking? then s.(wakers := {}, driver := Waking(s.driver.next, s.wakers)) else s
    case WakeOne(t) =>
      if s.driver.Waking? && t in s.driver.rest then
        s.(woken := s.woken + {t}, driver := Waking(s.driver.next, s.driver.rest - {t}))
      else s
    case NotifyDone => if s.driver.Waking? && s.driver.rest == {} then s.(driver := Continue(s.driver.next)) else s
    case SetExited => if s.driver.Exiting? then s.(exited := true, driver := Announcing(Finish)) else s
    case _ => s
  }

  /** `open_stream` looks at the exit flag before the credit, under one lock; the others look at it last. */
  ghost function TaskStep(s: System, step: Step): System {
    match step
    case Arm(t, w) => if TaskOf(s, t).Away? then s.(tasks := s.tasks[t := Armed(w, false, false, false)]) else s
    case CheckConn(t, c) =>
      var a := TaskOf(s, t);
      if a.Away? || a.connChecked || (a.wait.OpenStream? && !a.exitChecked) then s
      else if !Ready(a.wait, s.conn) then s.(tasks := s.tasks[t := a.(connChecked := true)])
      else if Quieter(s.conn, c) then s.(tasks := s.tasks[t := Away], conn := c)
      else s
    case CheckExit(t) =>
      var a := TaskOf(s, t);
      if a.Away? || a.exitChecked || (!a.wait.OpenStream? && !a.connChecked) then s
      else s.(tasks := s.tasks[t := if s.exited then Away else a.(exitChecked := true)])
    case Resume(t) =>
      var a := TaskOf(s, t);
      if a.Armed? && IsParked(a) && a.fired then s.(tasks := s.tasks[t := Armed(a.wait, false, false, false)]) else s
    case Leave(t) => s.(tasks := s.tasks[t := Away])
    case _ => s
  }

  /** Both checks passed: the operation awaits its notification. */
  predicate IsParked(a: Task) {
    a.Armed? && a.connChecked && a.exitChecked
  }

  /** A task that was woken begins a new round: it polls again for whatever it still wants. */
  ghost function PollStep(s: System, step: Step): System {
    match step
    case BeginRound(t) =>
      if t in s.woken then s.(polls := map k | k in s.polls && k.task != t :: s.polls[k], woken := s.woken - {t}) else s
    case Register(k) =>
      if k in s.polls && s.polls[k].Registered? then s
      else s.(polls := s.polls[k := Registered], wakers := s.wakers + {k.task})
    case FindLocked(k) =>
      if k in s.polls && s.polls[k].Registered? then
        s.(polls := s.polls[k := Parked], woken := s.woken + {k.task})
      else s
    case CheckPoll(k, c) =>
      if !(k in s.polls && s.polls[k].Registered?) then s
      else if !PollReady(k.wait, s.conn) && !s.exited then s.(polls := s.polls[k := Parked])
      else if Quieter(s.conn, c) then s.(polls := s.polls - {k}, conn := c)
      else s
    case _ => s
  }

  ghost function ApplicationStep(s: System, step: Step): System {
    match step
    case UseConnection(c) => if Quieter(s.conn, c) then s.(conn := c) else s
    case Close(a, c) => if a in s.closers then s else s.(conn := c, closers := s.closers[a := Closed])
    case NotifyOfClose(a) =>
      if a in s.closers && s.closers[a].Closed? then
        s.(tasks := Fire(s.tasks), closers := s.closers[a := Notified])
      else s
    case TakeForClose(a) =>
      if a in s.closers && s.closers[a].Notified? then
        s.(closers := s.closers[a := Wakes(s.wakers)], wakers := {})
      else s
    case WakeForClose(a, t) =>
      if a in s.closers && s.closers[a].Wakes? && t in s.closers[a].rest then
        s.(closers := s.closers[a := Wakes(s.closers[a].rest - {t})], woken := s.woken + {t})
      else s
    case _ => s
  }

  ghost function Next(s: System, step: Step): System {
    match step
    case Arm(_, _) => TaskStep(s, step)
    case CheckConn(_, _) => TaskStep(s, step)
    case CheckExit(_) => TaskStep(s, step)
    case Resume(_) => TaskStep(s, step)
    case Leave(_) => TaskStep(s, step)
    case BeginRound(_) => PollStep(s, step)
    case Register(_) => PollStep(s, step)
    case FindLocked(_) => PollStep(s, step)
    case CheckPoll(_, _) => PollStep(s, step)
    case UseConnection(_) => ApplicationStep(s, step)
    case Close(_, _) => ApplicationStep(s, step)
    case NotifyOfClose(_) => ApplicationStep(s, step)
    case TakeForClose(_) => ApplicationStep(s, step)
    case WakeForClose(_, _) => ApplicationStep(s, step)
    case _ => DriverStep(s, step)
  }

  //-- The invariant -------------------------------------------------------------------------------

  /** The driver has yet to notify the async waiters of what it did. */
  predicate OwesTasks(d: Driver) {
    d.Announcing? || d.Exiting?
  }

  /** The driver has yet to wake this poll task for what it did. */
  predicate OwesPoll(d: Driver, t: TaskId) {
    d.Announcing? || d.Exiting? || d.Taking? || (d.Waking? && t in d.rest)
  }

  predicate ExitFlagged(d: Driver) {
    || d == Announcing(Finish) || d == Taking(Finish) || (d.Waking? && d.next == Finish) || d == Dead
  }

  /** Some closing call has yet to notify the async waiters. */
  ghost predicate CloserOwesTasks(s: System) {
    exists a :: a in s.closers && s.closers[a].Closed?
  }

  /** Some closing call has taken this task's waker and has yet to wake it. */
  ghost predicate CloserHolds(s: System, t: TaskId) {
    exists a :: a in s.closers && s.closers[a].Wakes? && t in s.closers[a].rest
  }

  /** Some closing call has yet to wake this poll task. */
  ghost predicate CloserOwesPoll(s: System, t: TaskId) {
    exists a :: a in s.closers && (s.closers[a].Wakes? ==> t in s.closers[a].rest)
  }

  /** An armed notification that has not fired misses nothing that its task has looked at. */
  ghost predicate TaskSafe(s: System, a: Task) {
    a.Armed? && !a.fired ==>
      && (a.connChecked && Ready(a.wait, s.conn) ==> OwesTasks(s.driver) || CloserOwesTasks(s))
      && (a.exitChecked && s.exited ==> OwesTasks(s.driver))
  }

  /**
   The waker of a task that polls and was not woken is in the registry, or taken by a notifier; and a
   parked poll misses nothing.
   */
  ghost predicate PollSafe(s: System, k: Interest, p: Poll) {
    k.task !in s.woken ==>
      && (k.task in s.wakers || (s.driver.Waking? && k.task in s.driver.rest) || CloserHolds(s, k.task))
      && (p.Parked? && PollReady(k.wait, s.conn) ==> OwesPoll(s.driver, k.task) || CloserOwesPoll(s, k.task))
      && (p.Parked? && s.exited ==> OwesPoll(s.driver, k.task) || CloserHolds(s, k.task))
  }

  ghost predicate Safe(s: System) {
    && (s.exited <==> ExitFlagged(s.driver))
    && (forall t | t in s.tasks :: TaskSafe(s, s.tasks[t]))
    && (forall k | k in s.polls :: PollSafe(s, k, s.polls[k]))
  }

  lemma DriverKeepsSafe(s: System, step: Step)
    requires Safe(s)
    ensures Safe(DriverStep(s, step))
  {
    var s' := DriverStep(s, step);
    forall t | t in s'.tasks ensures TaskSafe(s', s'.tasks[t]) {
      DriverKeepsTask(s, step, t);
    }
    hide TaskSafe, Ready;
    forall k | k in s'.polls ensures PollSafe(s', k, s'.polls[k]) {
      assert PollSafe(s, k, s.polls[k]);
    }
  }

  lemma DriverKeepsTask(s: System, step: Step, t: TaskId)
    requires Safe(s) && t in s.tasks
    ensures var s' := DriverStep(s, step); t in s'.tasks && TaskSafe(s', s'.tasks[t])
  {
    hide PollSafe, Ready, PollReady;
    assert TaskSafe(s, s.tasks[t]);
  }

  lemma TaskKeepsSafe(s: System, step: Step)
    requires Safe(s)
    ensures Safe(TaskStep(s, step))
  {
    var s' := TaskStep(s, step);
    forall t | t in s'.tasks ensures TaskSafe(s', s'.tasks[t]) {
      if t in s.tasks { assert TaskSafe(s, s.tasks[t]); }
    }
    forall k | k in s'.polls ensures PollSafe(s', k, s'.polls[k]) {
      TaskKeepsPoll(s, step, k);
    }
  }

  lemma TaskKeepsPoll(s: System, step: Step, k: Interest)
    requires Safe(s) && k in s.polls
    ensures var s' := TaskStep(s, step); k in s'.polls && PollSafe(s', k, s'.polls[k])
  {
    hide TaskSafe;
    assert PollSafe(s, k, s.polls[k]);
  }

  lemma PollKeepsSafe(s: System, step: Step)
    requires Safe(s)
    ensures Safe(PollStep(s, step))
  {
    var s' := PollStep(s, step);
    forall t | t in s'.tasks ensures TaskSafe(s', s'.tasks[t]) {
      assert TaskSafe(s, s.tasks[t]);
    }
    forall k | k in s'.polls ensures PollSafe(s', k, s'.polls[k]) {
      if k in s.polls { assert PollSafe(s, k, s.polls[k]); }
    }
  }

  lemma ApplicationKeepsSafe(s: System, step: Step)
    requires Safe(s)
    ensures Safe(ApplicationStep(s, step))
  {
    var s' := ApplicationStep(s, step);
    forall t | t in s'.tasks ensures TaskSafe(s', s'.tasks[t]) {
      assert TaskSafe(s, s.tasks[t]);
      ClosersMove(s, step, t);
    }
    forall k | k in s'.polls ensures PollSafe(s', k, s'.polls[k]) {
      assert PollSafe(s, k, s.polls[k]);
      ClosersMove(s, step, k.task);
    }
  }

  /** What closing calls owe, they owe until they have done it. */
  lemma ClosersMove(s: System, step: Step, t: TaskId)
    ensures var s' := ApplicationStep(s, step);
            && (CloserOwesTasks(s) && !step.NotifyOfClose? ==> CloserOwesTasks(s'))
            && (CloserHolds(s, t) && t !in s'.woken ==> CloserHolds(s', t))
            && (t in s.wakers && t !in s'.wakers ==> CloserHolds(s', t))
            && (CloserOwesPoll(s, t) && t !in s'.woken ==> CloserOwesPoll(s', t) || t !in s.wakers)
            && (CloserHolds(s', t) ==> CloserOwesPoll(s', t))
            && (s'.conn != s.conn && step.Close? ==> CloserOwesTasks(s') && CloserOwesPoll(s', t))
  {
    var s' := ApplicationStep(s, step);
    if CloserOwesTasks(s) {
      var a :| a in s.closers && s.closers[a].Closed?;
      assert step.NotifyOfClose? || (a in s'.closers && s'.closers[a].Closed?);
    }
    if CloserHolds(s, t) {
      var a :| a in s.closers && s.closers[a].Wakes? && t in s.closers[a].rest;
      assert t in s'.woken || (a in s'.closers && s'.closers[a].Wakes? && t in s'.closers[a].rest);
    }
    if t in s.wakers && t !in s'.wakers {
      assert step.call in s'.closers && s'.closers[step.call].Wakes? && t in s'.closers[step.call].rest;
    }
    if CloserOwesPoll(s, t) {
      var a :| a in s.closers && (s.closers[a].Wakes? ==> t in s.closers[a].rest);
      assert t in s'.woken || t !in s.wakers || (a in s'.closers && (s'.closers[a].Wakes? ==> t in s'.closers[a].rest));
    }
    if s'.conn != s.conn && step.Close? {
      assert s'.closers[step.call].Closed?;
    }
  }

  function Start(c: Conn): System {
    System(c, false, Running, map[], map[], map[], {}, {})
  }

  ghost function Run(c: Conn, steps: seq<Step>): System {
    if steps == [] then Start(c) else Next(Run(c, steps[..|steps| - 1]), steps[|steps| - 1])
  }

  lemma {:induction false} EveryRunIsSafe(c: Conn, steps: seq<Step>)
    ensures Safe(Run(c, steps))
  {
    if steps != [] {
      var s, step := Run(c, steps[..|steps| - 1]), steps[|steps| - 1];
      EveryRunIsSafe(c, steps[..|steps| - 1]);
      DriverKeepsSafe(s, step);
      TaskKeepsSafe(s, step);
      PollKeepsSafe(s, step);
      ApplicationKeepsSafe(s, step);
    }
  }

  /**
   No lost wakeups, in any interleaving: whenever an operation waits on a notification that has not fired
   although it could return, the driver or a closing call is still between what it did and telling it;
   if it could return because the driver is gone, the driver itself is.  Likewise a poll on a waker not
   woken; except that a closing call may have taken its very waker before the driver could.
   */
  lemma NoLostWakeups(c: Conn, steps: seq<Step>, t: TaskId, w: PollWait)
    ensures var s := Run(c, steps);
            && (IsParked(TaskOf(s, t)) && !TaskOf(s, t).fired && Ready(TaskOf(s, t).wait, s.conn) ==>
                  OwesTasks(s.driver) || CloserOwesTasks(s))
            && (IsParked(TaskOf(s, t)) && !TaskOf(s, t).fired && s.exited ==> OwesTasks(s.driver))
            && (Waits(s, t, w) && t !in s.woken && PollReady(w, s.conn) ==>
                  OwesPoll(s.driver, t) || CloserOwesPoll(s, t))
            && (Waits(s, t, w) && t !in s.woken && s.exited ==> OwesPoll(s.driver, t) || CloserHolds(s, t))
  {
    EveryRunIsSafe(c, steps);
    var s := Run(c, steps);
    if t in s.tasks { assert TaskSafe(s, s.tasks[t]); }
    if Waits(s, t, w) { assert PollSafe(s, Interest(t, w), s.polls[Interest(t, w)]); }
  }

  /** The task's poll for `w` answered `Pending`. */
  predicate Waits(s: System, t: TaskId, w: PollWait) {
    Interest(t, w) in s.polls && s.polls[Interest(t, w)].Parked?
  }

  /**
   Once the driver is gone for good, nobody is left waiting on a notification that will not come: every
   armed one has fired, and every parked task is woken, or its waker is in the hands of a closing call that
   has taken it and has yet to wake it.
   */
  lemma NobodyWaitsForTheDead(c: Conn, steps: seq<Step>, t: TaskId, w: PollWait)
    requires Run(c, steps).driver.Dead?
    ensures IsParked(TaskOf(Run(c, steps), t)) ==> TaskOf(Run(c, steps), t).fired
    ensures Waits(Run(c, steps), t, w) ==> t in Run(c, steps).woken || CloserHolds(Run(c, steps), t)
  {
    EveryRunIsSafe(c, steps);
    var s := Run(c, steps);
    if t in s.tasks { assert TaskSafe(s, s.tasks[t]); }
    NoLostWakeups(c, steps, t, w);
  }

  /** A closing call that has woken everyone it took. */
  predicate IsDone(c: Closer) {
    c.Wakes? && c.rest == {}
  }

  /** When the driver is back in its loop and every closing call is through, whoever could go on has been told. */
  lemma QuietMeansTold(c: Conn, steps: seq<Step>, t: TaskId, w: PollWait)
    requires var s := Run(c, steps); s.driver.Running? && forall a | a in s.closers :: IsDone(s.closers[a])
    ensures var s := Run(c, steps);
            && (IsParked(TaskOf(s, t)) && Ready(TaskOf(s, t).wait, s.conn) ==> TaskOf(s, t).fired)
            && (Waits(s, t, w) && PollReady(w, s.conn) ==> t in s.woken)
  {
    NoLostWakeups(c, steps, t, w);
    EveryRunIsSafe(c, steps);
  }

  /** Nobody returns early: an operation leaves only when it can return or the driver has exited, or is dropped. */
  lemma ReturnsJustly(s: System, step: Step, t: TaskId, k: Interest)
    requires step != Leave(t)
    ensures TaskOf(s, t).Armed? && TaskOf(Next(s, step), t).Away? ==> Ready(TaskOf(s, t).wait, s.conn) || s.exited
    ensures k in s.polls && k !in Next(s, step).polls ==>
              PollReady(k.wait, s.conn) || s.exited || (step == BeginRound(k.task) && k.task in s.woken)
  {
    hide Ready, PollReady, Quieter;
  }

  //-- Progress ------------------------------------------------------------------------------------

  ghost function RunFrom(s: System, steps: seq<Step>): System
    decreases |steps|
  {
    if steps == [] then s else RunFrom(Next(s, steps[0]), steps[1..])
  }

  lemma RunFromCons(s: System, step: Step, steps: seq<Step>)
    ensures RunFrom(s, [step] + steps) == RunFrom(Next(s, step), steps)
  {
    hide Next;
    assert ([step] + steps)[1..] == steps;
  }

  /** An operation that was notified starts over and returns. */
  lemma NotifiedReturns(s: System, t: TaskId) returns (steps: seq<Step>)
    requires IsParked(TaskOf(s, t)) && TaskOf(s, t).fired && Ready(TaskOf(s, t).wait, s.conn)
    ensures TaskOf(RunFrom(s, steps), t).Away?
  {
    hide Ready;
    var s1 := Next(s, Resume(t));
    var s2 := Next(s1, CheckExit(t));
    assert TaskOf(s1, t) == Armed(TaskOf(s, t).wait, false, false, false);
    if TaskOf(s, t).wait.OpenStream? {
      if s.exited {
        RunsTwo(s, Resume(t), CheckExit(t));
        return [Resume(t), CheckExit(t)];
      }
      RunsThree(s, Resume(t), CheckExit(t), CheckConn(t, s.conn));
      return [Resume(t), CheckExit(t), CheckConn(t, s.conn)];
    }
    RunsTwo(s, Resume(t), CheckConn(t, s.conn));
    return [Resume(t), CheckConn(t, s.conn)];
  }

  lemma RunsTwo(s: System, a: Step, b: Step)
    ensures RunFrom(s, [a, b]) == Next(Next(s, a), b)
  {
    hide Next;
    assert [a, b] == [a] + [b] && [b] == [b] + [];
    RunFromCons(s, a, [b]);
    RunFromCons(Next(s, a), b, []);
  }

  lemma RunsThree(s: System, a: Step, b: Step, c: Step)
    ensures RunFrom(s, [a, b, c]) == Next(Next(Next(s, a), b), c)
  {
    hide Next;
    assert [a, b, c] == [a] + [b, c];
    RunFromCons(s, a, [b, c]);
    RunsTwo(Next(s, a), b, c);
  }

  /**
   In every run, an operation that waits although it could return can do so without any further event: what
   the driver or a closing call still owes it, and its own next round, let it return.
   */
  lemma WaiterCanReturn(c: Conn, steps: seq<Step>, t: TaskId) returns (more: seq<Step>)
    requires IsParked(TaskOf(Run(c, steps), t)) && Ready(TaskOf(Run(c, steps), t).wait, Run(c, steps).conn)
    ensures TaskOf(RunFrom(Run(c, steps), more), t).Away?
  {
    hide Run, Ready, PollSafe;
    var s := Run(c, steps);
    EveryRunIsSafe(c, steps);
    assert TaskSafe(s, s.tasks[t]);
    if TaskOf(s, t).fired {
      more := NotifiedReturns(s, t);
    } else if s.driver.Announcing? {
      more := NotifiedReturns(Next(s, NotifyWaiters), t);
      RunFromCons(s, NotifyWaiters, more);
      more := [NotifyWaiters] + more;
    } else if s.driver.Exiting? {
      more := NotifiedReturns(Next(Next(s, SetExited), NotifyWaiters), t);
      RunFromCons(Next(s, SetExited), NotifyWaiters, more);
      RunFromCons(s, SetExited, [NotifyWaiters] + more);
      more := [SetExited] + ([NotifyWaiters] + more);
    } else {
      var a :| a in s.closers && s.closers[a].Closed?;
      more := NotifiedReturns(Next(s, NotifyOfClose(a)), t);
      RunFromCons(s, NotifyOfClose(a), more);
      more := [NotifyOfClose(a)] + more;
    }
  }

  /** A task that was woken polls again and gets its answer. */
  lemma WokenReturns(s: System, k: Interest) returns (steps: seq<Step>)
    requires k.task in s.woken && PollReady(k.wait, s.conn)
    ensures k !in RunFrom(s, steps).polls
  {
    hide PollReady;
    var s1 := Next(s, BeginRound(k.task));
    var s2 := Next(s1, Register(k));
    assert k in s2.polls && s2.polls[k].Registered?;
    RunsThree(s, BeginRound(k.task), Register(k), CheckPoll(k, s.conn));
    return [BeginRound(k.task), Register(k), CheckPoll(k, s.conn)];
  }

  /** From here the driver gets to waking this very task. */
  lemma DriverWakes(s: System, t: TaskId) returns (steps: seq<Step>)
    requires OwesPoll(s.driver, t) && (t in s.wakers || (s.driver.Waking? && t in s.driver.rest))
    ensures t in RunFrom(s, steps).woken && RunFrom(s, steps).conn == s.conn
    decreases if s.driver.Exiting? then 3 else if s.driver.Announcing? then 2 else if s.driver.Taking? then 1 else 0
  {
    if s.driver.Waking? && t in s.driver.rest {
      RunFromCons(s, WakeOne(t), []);
      assert [WakeOne(t)] + [] == [WakeOne(t)];
      return [WakeOne(t)];
    }
    var step := if s.driver.Exiting? then SetExited else if s.driver.Announcing? then NotifyWaiters else TakeWakers;
    steps := DriverWakes(Next(s, step), t);
    RunFromCons(s, step, steps);
    steps := [step] + steps;
  }

  /** And likewise a closing call. */
  lemma CloserWakes(s: System, a: CallId, t: TaskId) returns (steps: seq<Step>)
    requires a in s.closers && (if s.closers[a].Wakes? then t in s.closers[a].rest else t in s.wakers)
    ensures t in RunFrom(s, steps).woken && RunFrom(s, steps).conn == s.conn
    decreases if s.closers[a].Closed? then 2 else if s.closers[a].Notified? then 1 else 0
  {
    if s.closers[a].Wakes? {
      RunFromCons(s, WakeForClose(a, t), []);
      assert [WakeForClose(a, t)] + [] == [WakeForClose(a, t)];
      return [WakeForClose(a, t)];
    }
    var step := if s.closers[a].Closed? then NotifyOfClose(a) else TakeForClose(a);
    steps := CloserWakes(Next(s, step), a, t);
    RunFromCons(s, step, steps);
    steps := [step] + steps;
  }

  /** Likewise a task whose poll waits although it could be answered is woken, polls again, and gets its answer. */
  lemma PollerCanReturn(c: Conn, steps: seq<Step>, t: TaskId, w: PollWait) returns (more: seq<Step>)
    requires Waits(Run(c, steps), t, w) && PollReady(w, Run(c, steps).conn)
    ensures Interest(t, w) !in RunFrom(Run(c, steps), more).polls
  {
    hide Run, PollReady, TaskSafe, Next, RunFrom;
    var s, k := Run(c, steps), Interest(t, w);
    EveryRunIsSafe(c, steps);
    assert PollSafe(s, k, s.polls[k]);
    var first: seq<Step> := [];
    if t in s.woken {
      RunFromNil(s);
    } else if CloserHolds(s, t) {
      var a :| a in s.closers && s.closers[a].Wakes? && t in s.closers[a].rest;
      first := CloserWakes(s, a, t);
    } else if OwesPoll(s.driver, t) {
      first := DriverWakes(s, t);
    } else {
      var a :| a in s.closers && (s.closers[a].Wakes? ==> t in s.closers[a].rest);
      first := CloserWakes(s, a, t);
    }
    more := WokenReturns(RunFrom(s, first), k);
    RunFromConcat(s, first, more);
    more := first + more;
  }

  lemma RunFromNil(s: System)
    ensures RunFrom(s, []) == s
  {
  }

  lemma {:induction false} RunFromConcat(s: System, a: seq<Step>, b: seq<Step>)
    ensures RunFrom(s, a + b) == RunFrom(RunFrom(s, a), b)
    decreases |a|
  {
    hide Next;
    if a == [] {
      assert a + b == b;
    } else {
      RunFromConcat(Next(s, a[0]), a[1..], b);
      assert (a + b)[0] == a[0] && (a + b)[1..] == a[1..] + b;
    }
  }

  /** What starts it all: the driver takes in what happens to the connection, while it runs and only then. */
  lemma DriverEvents(s: System, after: Conn, valid: bool)
    ensures s.driver.Running? ==>
              && Next(s, ReceivePacket(after, valid))
                 == s.(conn := after, driver := if valid then Announcing(Loop) else Exiting)
              && Next(s, HandleTimeout(after)) == s.(conn := after, driver := Announcing(Loop))
              && Next(s, StopLoop) == s.(driver := Exiting)
              && (s.conn.closed ==> Next(s, SeeClosed) == s.(driver := Announcing(Break)))
    ensures !s.driver.Running? ==>
              Next(s, ReceivePacket(after, valid)) == s && Next(s, HandleTimeout(after)) == s && Next(s, StopLoop) == s
  {
  }

  lemma RunExtends(c: Conn, steps: seq<Step>, step: Step)
    ensures Run(c, steps + [step]) == Next(Run(c, steps), step)
  {
    hide Next;
    assert (steps + [step])[..|steps|] == steps;
  }

  /** Operations arm themselves, find nothing to return, and wait. */
  lemma OperationsWait(s: System, t: TaskId, w: Wait)
    requires TaskOf(s, t).Away? && !Ready(w, s.conn) && !s.exited
    ensures var s1 := Next(s, Arm(t, w));
            var s2 := if w.OpenStream? then Next(s1, CheckExit(t)) else Next(s1, CheckConn(t, s.conn));
            var s3 := if w.OpenStream? then Next(s2, CheckConn(t, s.conn)) else Next(s2, CheckExit(t));
            TaskOf(s1, t) == Armed(w, false, false, false) && IsParked(TaskOf(s3, t)) && !TaskOf(s3, t).fired
  {
    hide Ready, Quieter;
  }

  /** Polls register, find nothing to answer or the connection locked, and wait. */
  lemma PollsWait(s: System, k: Interest)
    requires k !in s.polls
    ensures var s' := Next(Next(s, Register(k)), CheckPoll(k, s.conn));
            !PollReady(k.wait, s.conn) && !s.exited ==> Waits(s', k.task, k.wait) && k.task in s'.wakers
    ensures var s' := Next(Next(s, Register(k)), FindLocked(k)); Waits(s', k.task, k.wait) && k.task in s'.woken
  {
    hide PollReady, Quieter;
    assert Interest(k.task, k.wait) == k;
  }

  /** A woken task that polls again has used up that wakeup, and starts with no poll of its own under way. */
  lemma RoundsBegin(s: System, t: TaskId, k: Interest)
    requires t in s.woken
    ensures var s' := Next(s, BeginRound(t));
            && s'.woken == s.woken - {t} && s'.wakers == s.wakers
            && (k in s'.polls <==> k in s.polls && k.task != t)
  {
  }

  /** Steps out of turn change nothing: one operation a task, one check a round. */
  lemma OutOfTurn(s: System, t: TaskId, w: Wait, k: Interest)
    ensures !TaskOf(s, t).Away? ==> Next(s, Arm(t, w)) == s
    ensures !IsParked(TaskOf(s, t)) || !TaskOf(s, t).fired ==> Next(s, Resume(t)) == s
    ensures !(k in s.polls && s.polls[k].Registered?) ==>
              Next(s, FindLocked(k)) == s && Next(s, CheckPoll(k, s.conn)) == s
    ensures t !in s.woken ==> Next(s, BeginRound(t)) == s
  {
    hide Ready, PollReady, Quieter;
  }

  /** Application calls change the connection, a closing one once and for all. */
  lemma ApplicationEvents(s: System, after: Conn, a: CallId)
    ensures Quieter(s.conn, after) ==> Next(s, UseConnection(after)) == s.(conn := after)
    ensures Next(s, Close(a, after)) ==
            if a in s.closers then s else s.(conn := after, closers := s.closers[a := Closed])
  {
    hide Quieter;
  }

  //-- Notifying, in place -------------------------------------------------------------------------

  ghost function WakeEach(s: System, order: seq<TaskId>): System
    decreases |order|
  {
    if order == [] then s else WakeEach(Next(s, WakeOne(order[0])), order[1..])
  }

  ghost function TasksIn(order: seq<TaskId>): set<TaskId> {
    set t | t in order
  }

  /** The driver's steps of one notification, in whatever order the wakers are woken. */
  lemma NotificationWakesAll(s: System, order: seq<TaskId>)
    requires s.driver.Announcing? && TasksIn(order) == s.wakers
    requires forall i, j | 0 <= i < j < |order| :: order[i] != order[j]
    ensures Next(WakeEach(Next(Next(s, NotifyWaiters), TakeWakers), order), NotifyDone) ==
            s.(tasks := Fire(s.tasks), wakers := {}, woken := s.woken + s.wakers, driver := Continue(s.driver.next))
  {
    WakingAll(Next(Next(s, NotifyWaiters), TakeWakers), order);
  }

  lemma {:induction false} WakingAll(s: System, order: seq<TaskId>)
    requires s.driver.Waking? && s.driver.rest == TasksIn(order)
    requires forall i, j | 0 <= i < j < |order| :: order[i] != order[j]
    ensures WakeEach(s, order) == s.(woken := s.woken + TasksIn(order), driver := Waking(s.driver.next, {}))
    decreases |order|
  {
    if order == [] {
      assert s.woken + TasksIn(order) == s.woken;
    } else {
      var s' := Next(s, WakeOne(order[0]));
      assert order[0] in TasksIn(order);
      assert TasksIn(order[1..]) == TasksIn(order) - {order[0]};
      WakingAll(s', order[1..]);
      assert s'.woken + TasksIn(order[1..]) == s.woken + TasksIn(order);
    }
  }

  /** The wakers of poll tasks, without duplicates however often a task polls. */
  class WakerRegistry {
    var wakers: seq<TaskId>
    ghost var woken: set<TaskId>

    ghost predicate Valid()
      reads this
    {
      forall i, j | 0 <= i < j < |wakers| :: wakers[i] != wakers[j]
    }

    constructor ()
      ensures Valid() && TasksIn(wakers) == {} && woken == {}
    {
      wakers, woken := [], {};
    }

    /** `register_poll_waker`. */
    method Register(t: TaskId)
      requires Valid()
      modifies this
      ensures Valid() && TasksIn(wakers) == TasksIn(old(wakers)) + {t} && woken == old(woken) - {t}
      ensures |wakers| == |old(wakers)| + if t in old(wakers) then 0 else 1
    {
      woken := woken - {t};
      for i := 0 to |wakers|
        invariant t !in wakers[..i]
      {
        if wakers[i] == t {
          return;
        }
      }
      assert wakers[..|wakers|] == wakers;
      wakers := wakers + [t];
    }

    /** The second half of `notify_state_change`. */
    method WakeAll()
      modifies this
      ensures Valid() && wakers == [] && woken == old(woken) + TasksIn(old(wakers))
    {
      var taken := wakers;
      wakers := [];
      for i := 0 to |taken|
        invariant wakers == [] && woken == old(woken) + TasksIn(taken[..i])
      {
        assert taken[..i + 1] == taken[..i] + [taken[i]];
        woken := woken + {taken[i]};
      }
      assert taken[..|taken|] == taken;
    }
  }
}
