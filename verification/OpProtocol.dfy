/**
  Worker, progress checker, notify poller and cancellers of service/file.go and service/notify.go as a
  transition system over opQueue and FileQueue.

  One step is one critical section of opQueue, one operation on FileQueue, one firing of a context, or the
  start or end of one item's work.  Any number of threads of every kind run, for any id, at any time.
  `born`, `submitted`, `gone` and `ended` are history: the context made for an id, the task it was
  submitted with, the ids for which DequeueOp has run, and the ids whose worker has left its item loop.
*/
module OpProtocol {
  import opened Options
  import opened Fingerprint
  import opened OpQueue

  type Tid = nat

  /** model.FileOperate as far as the protocol reads it. */
  datatype Task = Task(request: Request, total: nat, processed: nat, finished: bool, cancelled: bool)

  /** FileOperate(id). */
  datatype WorkerPC =
    | WorkerLoads
    | WorkerAsks(task: Task)
    | WorkerBegins(task: Task)
    | BetweenItems(task: Task, ctx: Option<Ctx>, next: nat)
    | InItem(task: Task, ctx: Option<Ctx>, next: nat)
    | WorkerStores(task: Task)
    | WorkerLooks(task: Task)
    | WorkerMarks(task: Task)
    | WorkerRetires(task: Task)
    | WorkerDequeues
    | WorkerEnds

  /** CheckFileStatus. */
  datatype CheckerPC =
    | CheckerPeeks
    | Checking(todo: seq<Id>)
    | CheckerWalks(id: Id, task: Task, todo: seq<Id>)
    | CheckerLooks(id: Id, task: Task, todo: seq<Id>)
    | CheckerAsks(id: Id, task: Task, todo: seq<Id>)
    | CheckerStores(id: Id, task: Task, todo: seq<Id>)

  /** SendFileOperateNotify. */
  datatype PollerPC =
    | PollerPeeks
    | Polling(todo: seq<Id>)
    | PollerAsks(id: Id, task: Task, todo: seq<Id>)
    | PollerDeletes(id: Id, todo: seq<Id>)
    | PollerDequeues(id: Id, todo: seq<Id>)

  /** CancelOp(id) and CancelAllOps. */
  datatype CancelPC =
    | CancelLoads(id: Id)
    | CancelAsks(id: Id)
    | CancelLocks(id: Id)
    | CancelFires(id: Id, target: Ctx, executing: bool)
    | CancelDeletes(id: Id)
    | AllFire
    | AllClear
    | AllRelease

  datatype Thread = Off | Worker(id: Id, w: WorkerPC) | Checker(k: CheckerPC) | Poller(p: PollerPC) | Canceller(x: CancelPC)

  datatype State = State(
    q: Queue,
    files: map<Id, Task>,
    threads: map<Tid, Thread>,
    made: nat,
    fired: set<Ctx>,
    used: set<Id>,
    born: map<Id, Ctx>,
    submitted: map<Id, Task>,
    gone: set<Id>,
    ended: set<Id>)
  {
    function At(t: Tid, thread: Thread): State {
      this.(threads := threads[t := thread])
    }
  }

  const InitialState := State(EmptyQueue, map[], map[], 0, {}, {}, map[], map[], {}, {})

  /** What the environment decides: the size a walk finds, and whether an item fails or a loop stops. */
  datatype Choice = Choice(size: nat, bad: bool)

  // ----- the steps

  predicate Cancelled(s: State, ctx: Option<Ctx>) { ctx.Some? && ctx.value in s.fired }

  /** What an action never does: touch another thread, forget history, or undo a cancel. */
  ghost predicate Forward(s: State, s': State, t: Tid) {
    && t in s'.threads && s'.threads == s.threads[t := s'.threads[t]]
    && s'.submitted == s.submitted && s'.used == s.used && s'.born == s.born
    && s.fired <= s'.fired && s.ended <= s'.ended && s.gone <= s'.gone
  }

  /** The item loop is left. */
  function LeaveLoop(s: State, t: Tid, id: Id, task: Task, cancelled: bool): State {
    s.At(t, Worker(id, WorkerStores(task.(finished := true, cancelled := task.cancelled || cancelled)))).(ended := s.ended + {id})
  }

  function WorkerAct(s: State, t: Tid, id: Id, w: WorkerPC, c: Choice): (s': State)
    ensures Forward(s, s', t) && (s'.threads[t].Off? || s'.threads[t].Worker?)
  {
    match w
    case WorkerLoads =>
      if id in s.files && !s.files[id].finished && s.files[id].processed == 0 then s.At(t, Worker(id, WorkerAsks(s.files[id])))
      else s.At(t, Off)
    case WorkerAsks(task) => s.At(t, if id in s.q.finished then Off else Worker(id, WorkerBegins(task)))
    case WorkerBegins(task) =>
      if s.q.running == id then s.At(t, Off)
      else
        var ctx := if id in s.q.ctxOf then Some(s.q.ctxOf[id]) else None;
        s.(q := s.q.(running := id)).At(t, Worker(id, BetweenItems(task, ctx, 0)))
    case BetweenItems(task, ctx, next) =>
      if next >= |task.request.items| then LeaveLoop(s, t, id, task, false)
      else if Cancelled(s, ctx) then LeaveLoop(s, t, id, task, true)
      else s.At(t, Worker(id, InItem(task, ctx, next)))
    case InItem(task, ctx, next) =>
      if c.bad && Cancelled(s, ctx) then LeaveLoop(s, t, id, task, true)
      else s.At(t, Worker(id, BetweenItems(task, ctx, next + 1)))
    case WorkerStores(task) => s.(files := s.files[id := task]).At(t, Worker(id, WorkerLooks(task)))
    case WorkerLooks(task) => s.At(t, Worker(id, if id in s.files then WorkerMarks(task) else WorkerRetires(task)))
    case WorkerMarks(task) => s.(q := s.q.(finished := s.q.finished + {id})).At(t, Worker(id, WorkerRetires(task)))
    case WorkerRetires(task) =>
      if task.cancelled then s.(files := s.files - {id}).At(t, Worker(id, WorkerDequeues)) else s.At(t, Worker(id, WorkerEnds))
    case WorkerDequeues => s.(q := Dequeued(s.q, id), gone := s.gone + {id}).At(t, Worker(id, WorkerEnds))
    case WorkerEnds => s.(q := Ended(s.q, id)).At(t, Off)
  }

  function CheckerAct(s: State, t: Tid, k: CheckerPC, c: Choice): (s': State)
    ensures Forward(s, s', t) && (s'.threads[t].Off? || s'.threads[t].Checker?)
  {
    match k
    case CheckerPeeks => s.At(t, if s.q.ids == [] then Off else Checker(Checking(s.q.ids)))
    case Checking(todo) =>
      if todo == [] then s.At(t, Checker(CheckerPeeks))
      else if todo[0] in s.files then s.At(t, Checker(CheckerWalks(todo[0], s.files[todo[0]], todo[1..])))
      else s.At(t, Checker(Checking(todo[1..])))
    case CheckerWalks(id, task, todo) => s.At(t, Checker(CheckerLooks(id, task.(processed := c.size), todo)))
    case CheckerLooks(id, task, todo) =>
      if id in s.files && !s.files[id].finished && !s.files[id].cancelled then s.At(t, Checker(CheckerAsks(id, task, todo)))
      else s.At(t, Checker(Checking(todo)))
    case CheckerAsks(id, task, todo) =>
      s.At(t, Checker(if id in s.q.finished then Checking(todo) else CheckerStores(id, task, todo)))
    case CheckerStores(id, task, todo) => s.(files := s.files[id := task]).At(t, Checker(Checking(todo)))
  }

  /** The size comparison of buildFileNotifyTask, which a task of size zero can never meet. */
  predicate SizeReached(task: Task) { task.total > 0 && task.processed >= task.total }

  function PollerAct(s: State, t: Tid, p: PollerPC, c: Choice): (s': State)
    ensures Forward(s, s', t) && (s'.threads[t].Off? || s'.threads[t].Poller?)
  {
    match p
    case PollerPeeks => s.At(t, if c.bad then Off else Poller(Polling(s.q.ids)))
    case Polling(todo) =>
      if todo == [] then s.At(t, Poller(PollerPeeks))
      else if todo[0] in s.files then s.At(t, Poller(PollerAsks(todo[0], s.files[todo[0]], todo[1..])))
      else s.At(t, Poller(Polling(todo[1..])))
    case PollerAsks(id, task, todo) =>
      if task.finished || id in s.q.finished || SizeReached(task) then s.At(t, Poller(PollerDeletes(id, todo)))
      else s.At(t, Poller(Polling(todo)))
    case PollerDeletes(id, todo) => s.(files := s.files - {id}).At(t, Poller(PollerDequeues(id, todo)))
    case PollerDequeues(id, todo) => s.(q := Dequeued(s.q, id), gone := s.gone + {id}).At(t, Poller(Polling(todo)))
  }

  function CancelAct(s: State, t: Tid, x: CancelPC): (s': State)
    ensures Forward(s, s', t) && (s'.threads[t].Off? || s'.threads[t].Canceller?)
  {
    match x
    case CancelLoads(id) => s.At(t, if id in s.files && !s.files[id].finished then Canceller(CancelAsks(id)) else Off)
    case CancelAsks(id) => s.At(t, if id in s.q.finished then Off else Canceller(CancelLocks(id)))
    case CancelLocks(id) =>
      if id !in s.q.cancelOf then s.At(t, Off)
      else if s.q.running == id then s.At(t, Canceller(CancelFires(id, s.q.cancelOf[id], true)))
      else s.(q := Released(s.q, id)).At(t, Canceller(CancelFires(id, s.q.cancelOf[id], false)))
    case CancelFires(id, target, executing) =>
      s.(fired := s.fired + {target}).At(t, if executing then Off else Canceller(CancelDeletes(id)))
    case CancelDeletes(id) => s.(files := s.files - {id}).At(t, Off)
    case AllFire => s.(fired := s.fired + s.q.cancelOf.Values).At(t, Canceller(AllClear))
    case AllClear => s.(files := map[]).At(t, Canceller(AllRelease))
    case AllRelease => s.(q := Cleared(s.q)).At(t, Off)
  }

  /** EnqueueOp; its store to FileQueue commutes with the rest of its critical section. */
  function SubmitAct(s: State, id: Id, task: Task): State {
    var batch := FingerprintOf(task.request);
    if batch in s.q.active then s.(used := s.used + {id})
    else
      s.(files := s.files[id := task], q := Enqueued(s.q, id, batch, s.made), made := s.made + 1,
         used := s.used + {id}, born := s.born[id := s.made], submitted := s.submitted[id := task])
  }

  datatype Step = Submit(id: Id, task: Task) | Start(t: Tid, thread: Thread) | Act(t: Tid, choice: Choice)

  /** Ids are fresh and tasks unfinished when submitted; a thread starts at the head of its function. */
  predicate Enabled(s: State, step: Step) {
    match step
    case Submit(id, task) => id !in s.used && id != "" && !task.finished && !task.cancelled
    case Start(t, th) =>
      (t in s.threads ==> s.threads[t].Off?)
      && ((th.Worker? && th.w.WorkerLoads?) || th == Checker(CheckerPeeks) || th == Poller(PollerPeeks)
          || (th.Canceller? && (th.x.CancelLoads? || th.x.AllFire?)))
    case Act(t, _) => t in s.threads
  }

  function ThreadAct(s: State, t: Tid, th: Thread, c: Choice): State {
    match th
    case Off => s
    case Worker(id, w) => WorkerAct(s, t, id, w, c)
    case Checker(k) => CheckerAct(s, t, k, c)
    case Poller(p) => PollerAct(s, t, p, c)
    case Canceller(x) => CancelAct(s, t, x)
  }

  function Take(s: State, step: Step): State
    requires Enabled(s, step)
  {
    match step
    case Submit(id, task) => SubmitAct(s, id, task)
    case Start(t, th) => s.At(t, th)
    case Act(t, c) => ThreadAct(s, t, s.threads[t], c)
  }

  datatype Run = Run(states: seq<State>, steps: seq<Step>)

  ghost predicate StepAt(run: Run, i: nat)
    requires |run.states| == |run.steps| + 1 && i < |run.steps|
  {
    Enabled(run.states[i], run.steps[i]) && run.states[i + 1] == Take(run.states[i], run.steps[i])
  }

  ghost predicate IsRun(run: Run) {
    && |run.states| == |run.steps| + 1
    && run.states[0] == InitialState
    && forall i :: 0 <= i < |run.steps| ==> StepAt(run, i)
  }

  // ----- the invariant

  /** What a snapshot of a task may claim. */
  ghost predicate TaskOk(s: State, id: Id, task: Task) {
    && id in s.submitted && task.total == s.submitted[id].total && task.request == s.submitted[id].request
    && (task.finished ==> id in s.ended) && (task.cancelled ==> task.finished)
  }

  /** Its worker has left the item loop, or it is of positive size. */
  ghost predicate MayRetire(s: State, id: Id) { id in s.ended || (id in s.submitted && s.submitted[id].total > 0) }

  predicate LeftLoop(w: WorkerPC) { w.WorkerStores? || w.WorkerLooks? || w.WorkerMarks? || w.WorkerRetires? }

  ghost predicate WorkerOk(s: State, id: Id, w: WorkerPC) {
    && (!w.WorkerLoads? ==> id in s.submitted)
    && (!w.WorkerLoads? && !w.WorkerDequeues? && !w.WorkerEnds? ==> TaskOk(s, id, w.task))
    && (LeftLoop(w) ==> w.task.finished)
    && (w.WorkerAsks? || w.WorkerBegins? || w.BetweenItems? || w.InItem? ==> !w.task.finished)
  }

  ghost predicate CheckerOk(s: State, k: CheckerPC) {
    !k.CheckerPeeks? && !k.Checking? ==> TaskOk(s, k.id, k.task)
  }

  ghost predicate PollerOk(s: State, p: PollerPC) {
    && (p.PollerAsks? ==> TaskOk(s, p.id, p.task))
    && (p.PollerDeletes? || p.PollerDequeues? ==> MayRetire(s, p.id))
  }

  ghost predicate ThreadOk(s: State, th: Thread) {
    match th
    case Worker(id, w) => WorkerOk(s, id, w)
    case Checker(k) => CheckerOk(s, k)
    case Poller(p) => PollerOk(s, p)
    case _ => true
  }

  ghost predicate ThreadsOk(s: State) { forall t :: t in s.threads ==> ThreadOk(s, s.threads[t]) }

  ghost predicate FilesOk(s: State) { forall id :: id in s.files ==> TaskOk(s, id, s.files[id]) }

  ghost predicate Printed(s: State, id: Id) {
    id in s.submitted && id in s.q.fingerprintOf && s.q.fingerprintOf[id] == FingerprintOf(s.submitted[id].request)
  }

  ghost predicate QueueOk(s: State) {
    && Consistent(s.q)
    && (forall id :: id in s.q.ids ==> Printed(s, id))
    && s.q.finished <= s.ended
    && s.submitted.Keys <= s.used && s.ended <= s.submitted.Keys && s.gone <= s.submitted.Keys
  }

  /** From submission to the first DequeueOp the one context of an id is on file. */
  ghost predicate ContextKept(s: State, id: Id) {
    id in s.born && id in s.q.ctxOf && s.q.ctxOf[id] == s.born[id]
  }

  ghost predicate ContextsOk(s: State) {
    s.born.Keys == s.submitted.Keys && forall id :: id in s.born && id !in s.gone ==> ContextKept(s, id)
  }

  ghost predicate Inv(s: State) { QueueOk(s) && FilesOk(s) && ThreadsOk(s) && ContextsOk(s) }
}
