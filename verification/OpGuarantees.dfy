/** What the file-operation protocol promises over whole runs. */
module OpGuarantees {
  import opened Options
  import opened Fingerprint
  import opened OpQueue
  import opened OpProtocol
  import opened OpRuns

  // ----- steps only add to the history

  ghost predicate Monotone(s: State, s': State) {
    && s.fired <= s'.fired && s.used <= s'.used
    && (forall id :: id in s.born ==> id in s'.born && s'.born[id] == s.born[id])
  }

  lemma StepMonotone(s: State, step: Step)
    requires Inv(s) && Enabled(s, step)
    ensures Monotone(s, Take(s, step))
  {
  }

  lemma {:induction false} RunMonotone(run: Run, i: nat, j: nat)
    requires IsRun(run) && i <= j < |run.states|
    ensures Monotone(run.states[i], run.states[j])
  {
    if i < j {
      RunMonotone(run, i, j - 1);
      RunInv(run, j - 1);
      assert StepAt(run, j - 1);
      StepMonotone(run.states[j - 1], run.steps[j - 1]);
    }
  }

  // ----- finished means that the worker's item loop has ended

  ghost predicate Leaves(s: State, step: Step, s': State, id: Id) {
    && step.Act? && step.t in s.threads && s.threads[step.t].Worker? && s.threads[step.t].id == id
    && (s.threads[step.t].w.BetweenItems? || s.threads[step.t].w.InItem?)
    && step.t in s'.threads && s'.threads[step.t].Worker? && s'.threads[step.t].id == id && s'.threads[step.t].w.WorkerStores?
  }

  /** Step j takes the worker of `id` out of its item loop. */
  ghost predicate LoopEndsAt(run: Run, j: nat, id: Id) {
    |run.states| == |run.steps| + 1 && j < |run.steps| && Leaves(run.states[j], run.steps[j], run.states[j + 1], id)
  }

  lemma EndedStep(s: State, step: Step, id: Id)
    requires Enabled(s, step) && id in Take(s, step).ended && id !in s.ended
    ensures Leaves(s, step, Take(s, step), id)
  {
    if step.Act? && s.threads[step.t].Worker? { EndedByWorker(s, step.t, s.threads[step.t].id, s.threads[step.t].w, step.choice, id); }
  }

  lemma EndedByWorker(s: State, t: Tid, pid: Id, w: WorkerPC, c: Choice, id: Id)
    requires id in WorkerAct(s, t, pid, w, c).ended && id !in s.ended
    ensures id == pid && (w.BetweenItems? || w.InItem?)
    ensures var th := WorkerAct(s, t, pid, w, c).threads[t]; th.Worker? && th.id == id && th.w.WorkerStores?
  {
  }

  lemma {:induction false} EndedWitness(run: Run, i: nat, id: Id)
    requires IsRun(run) && i < |run.states| && id in run.states[i].ended
    ensures exists j: nat :: j < i && LoopEndsAt(run, j, id)
  {
    if i == 0 { return; }
    assert StepAt(run, i - 1);
    if id in run.states[i - 1].ended { EndedWitness(run, i - 1, id); }
    else {
      EndedStep(run.states[i - 1], run.steps[i - 1], id);
      assert LoopEndsAt(run, i - 1, id);
    }
  }

  /** A poller has decided to retire the task. */
  ghost predicate PollerRetires(s: State, id: Id) {
    exists t :: t in s.threads && s.threads[t].Poller? && s.threads[t].p.PollerDeletes? && s.threads[t].p.id == id
  }

  /** A finished flag, a finished mark, or a poller that retires a task of size zero. */
  ghost predicate ShowsFinished(s: State, id: Id) {
    || (id in s.files && s.files[id].finished)
    || id in s.q.finished
    || (PollerRetires(s, id) && (id in s.submitted ==> s.submitted[id].total == 0))
  }

  lemma FinishedMeansEnded(s: State, id: Id)
    requires Inv(s) && ShowsFinished(s, id)
    ensures id in s.ended
  {
    if PollerRetires(s, id) {
      var t :| t in s.threads && s.threads[t].Poller? && s.threads[t].p.PollerDeletes? && s.threads[t].p.id == id;
      assert ThreadOk(s, s.threads[t]);
    }
  }

  // ----- no two queued tasks are the same batch

  lemma QueuedBatchesDiffer(run: Run, i: nat, a: Id, b: Id)
    requires IsRun(run) && i < |run.states| && a in run.states[i].q.ids && b in run.states[i].q.ids && a != b
    ensures a in run.states[i].submitted && b in run.states[i].submitted
    ensures var x, y := run.states[i].submitted[a].request, run.states[i].submitted[b].request;
      NulFree(x) && NulFree(y) && x.items != [] && y.items != [] ==> !SameBatch(x, y)
  {
    RunInv(run, i);
    var s := run.states[i];
    assert Printed(s, a) && Printed(s, b);
    var x, y := s.submitted[a].request, s.submitted[b].request;
    if NulFree(x) && NulFree(y) && x.items != [] && y.items != [] { FingerprintIdentifiesBatch(x, y); }
  }

  // ----- a worker finds the one context of its task

  ghost predicate AcceptedAt(run: Run, i: nat, id: Id) {
    && |run.states| == |run.steps| + 1 && i < |run.steps| && run.steps[i].Submit? && run.steps[i].id == id
    && id in run.states[i + 1].born
  }

  ghost predicate Dequeues(s: State, step: Step, id: Id) {
    step.Act? && step.t in s.threads &&
    match s.threads[step.t]
    case Worker(x, w) => x == id && w.WorkerDequeues?
    case Poller(p) => p.PollerDequeues? && p.id == id
    case _ => false
  }

  /** No DequeueOp(id) between the two points. */
  ghost predicate InSpan(run: Run, i: nat, j: nat, id: Id) {
    && |run.states| == |run.steps| + 1 && i < j <= |run.steps|
    && forall k :: i < k < j ==> !Dequeues(run.states[k], run.steps[k], id)
  }

  lemma GoneStep(s: State, step: Step, id: Id)
    requires Inv(s) && Enabled(s, step) && id in Take(s, step).gone && id !in s.gone
    ensures Dequeues(s, step, id)
  {
    if step.Act? {
      match s.threads[step.t] {
        case Worker(pid, w) => GoneByWorker(s, step.t, pid, w, step.choice, id);
        case Poller(p) => GoneByPoller(s, step.t, p, step.choice, id);
        case _ =>
      }
    }
  }

  lemma GoneByWorker(s: State, t: Tid, pid: Id, w: WorkerPC, c: Choice, id: Id)
    requires id in WorkerAct(s, t, pid, w, c).gone && id !in s.gone
    ensures id == pid && w.WorkerDequeues?
  {
  }

  lemma GoneByPoller(s: State, t: Tid, p: PollerPC, c: Choice, id: Id)
    requires id in PollerAct(s, t, p, c).gone && id !in s.gone
    ensures p.PollerDequeues? && p.id == id
  {
  }

  lemma AcceptedStep(s: State, step: Step)
    requires Inv(s) && Enabled(s, step) && step.Submit? && step.id in Take(s, step).born
    ensures Take(s, step).born[step.id] == s.made && step.id !in Take(s, step).gone
  {
  }

  lemma {:induction false} NotGone(run: Run, i: nat, j: nat, id: Id)
    requires IsRun(run) && AcceptedAt(run, i, id) && InSpan(run, i, j, id)
    ensures id !in run.states[j].gone
    decreases j
  {
    RunInv(run, j - 1);
    assert StepAt(run, j - 1);
    if i == j - 1 { AcceptedStep(run.states[i], run.steps[i]); }
    else {
      NotGone(run, i, j - 1, id);
      if id in run.states[j].gone { GoneStep(run.states[j - 1], run.steps[j - 1], id); }
    }
  }

  lemma SpanContext(run: Run, i: nat, j: nat, id: Id)
    requires IsRun(run) && AcceptedAt(run, i, id) && InSpan(run, i, j, id)
    ensures id in run.states[j].q.ctxOf && run.states[j].q.ctxOf[id] == run.states[i].made
    ensures run.states[j].q.cancelOf == run.states[j].q.ctxOf
  {
    RunInv(run, i);
    RunInv(run, j);
    assert StepAt(run, i);
    AcceptedStep(run.states[i], run.steps[i]);
    RunMonotone(run, i + 1, j);
    NotGone(run, i, j, id);
    assert ContextKept(run.states[j], id);
  }

  ghost predicate ActsAt(run: Run, j: nat, t: Tid, th: Thread) {
    && |run.states| == |run.steps| + 1 && j < |run.steps| && run.steps[j].Act? && run.steps[j].t == t
    && t in run.states[j].threads && run.states[j].threads[t] == th
  }

  /** Whatever cancels and clears lie between, beginRun hands out the context made at submission, or refuses a second run. */
  lemma BeginFindsItsContext(run: Run, i: nat, j: nat, t: Tid, id: Id, task: Task)
    requires IsRun(run) && AcceptedAt(run, i, id) && InSpan(run, i, j, id)
    requires ActsAt(run, j, t, Worker(id, WorkerBegins(task)))
    ensures t in run.states[j + 1].threads
    ensures run.states[j + 1].threads[t] ==
      if run.states[j].q.running == id then Off else Worker(id, BetweenItems(task, Some(run.states[i].made), 0))
  {
    SpanContext(run, i, j, id);
    assert StepAt(run, j);
  }

  /** CancelOp in the span always knows the task and will fire that same context; CancelAllOps fires it at once. */
  lemma CancelFindsTheContext(run: Run, i: nat, j: nat, t: Tid, id: Id, x: CancelPC)
    requires IsRun(run) && AcceptedAt(run, i, id) && InSpan(run, i, j, id) && ActsAt(run, j, t, Canceller(x))
    ensures t in run.states[j + 1].threads
    ensures x == CancelLocks(id) ==>
      run.states[j + 1].threads[t] == Canceller(CancelFires(id, run.states[i].made, run.states[j].q.running == id))
    ensures x == AllFire ==> run.states[i].made in run.states[j + 1].fired
  {
    SpanContext(run, i, j, id);
    assert StepAt(run, j);
    if x == AllFire { assert run.states[j].q.cancelOf[id] in run.states[j].q.cancelOf.Values; }
  }

  // ----- no item starts after the cancel

  predicate InLoop(s: State, t: Tid, id: Id, ctx: Ctx) {
    t in s.threads && s.threads[t].Worker? && s.threads[t].id == id
    && (s.threads[t].w.BetweenItems? || s.threads[t].w.InItem?) && s.threads[t].w.ctx == Some(ctx)
  }

  lemma OthersStay(s: State, step: Step, t: Tid)
    requires Enabled(s, step) && t in s.threads && !s.threads[t].Off? && (step.Act? ==> step.t != t)
    ensures t in Take(s, step).threads && Take(s, step).threads[t] == s.threads[t]
  {
  }

  lemma LoopAct(s: State, t: Tid, id: Id, w: WorkerPC, c: Choice)
    requires w.BetweenItems? || w.InItem?
    ensures var th := WorkerAct(s, t, id, w, c).threads[t];
      th.Worker? && th.id == id && (th.w.WorkerStores? || ((th.w.BetweenItems? || th.w.InItem?) && th.w.ctx == w.ctx))
  {
  }

  /** A worker in its loop never changes its context. */
  lemma LoopStep(s: State, step: Step, t: Tid, id: Id, ctx: Ctx)
    requires Enabled(s, step) && InLoop(s, t, id, ctx)
    ensures var s' := Take(s, step);
      InLoop(s', t, id, ctx) || (t in s'.threads && s'.threads[t].Worker? && s'.threads[t].w.WorkerStores?)
  {
    if step.Act? && step.t == t { LoopAct(s, t, id, s.threads[t].w, step.choice); } else { OthersStay(s, step, t); }
  }

  ghost predicate Looping(run: Run, b: nat, j: nat, t: Tid) {
    j < |run.states| && forall k :: b <= k <= j ==>
      t in run.states[k].threads && run.states[k].threads[t].Worker?
      && (run.states[k].threads[t].w.BetweenItems? || run.states[k].threads[t].w.InItem?)
  }

  lemma {:induction false} ContextFixed(run: Run, b: nat, j: nat, t: Tid, id: Id, ctx: Ctx)
    requires IsRun(run) && b <= j && Looping(run, b, j, t) && InLoop(run.states[b], t, id, ctx)
    ensures InLoop(run.states[j], t, id, ctx)
  {
    if b < j {
      ContextFixed(run, b, j - 1, t, id, ctx);
      assert StepAt(run, j - 1);
      LoopStep(run.states[j - 1], run.steps[j - 1], t, id, ctx);
    }
  }

  /** Step k fires the context of `id`: as CancelOp, having locked in the span at step l, or as CancelAllOps in the span. */
  ghost predicate CancelledAt(run: Run, i: nat, l: nat, k: nat, x: Tid, id: Id) {
    || (InSpan(run, i, k, id) && ActsAt(run, k, x, Canceller(AllFire)))
    || (InSpan(run, i, l, id) && ActsAt(run, l, x, Canceller(CancelLocks(id))) && l < k
        && x in run.states[l + 1].threads && ActsAt(run, k, x, run.states[l + 1].threads[x]))
  }

  lemma CancelHasFired(run: Run, i: nat, l: nat, k: nat, x: Tid, id: Id)
    requires IsRun(run) && AcceptedAt(run, i, id) && CancelledAt(run, i, l, k, x, id)
    ensures k < |run.steps| && run.states[i].made in run.states[k + 1].fired
  {
    if InSpan(run, i, k, id) && ActsAt(run, k, x, Canceller(AllFire)) {
      CancelFindsTheContext(run, i, k, x, id, AllFire);
    } else {
      CancelFindsTheContext(run, i, l, x, id, CancelLocks(id));
      assert StepAt(run, k);
    }
  }

  /**
    A worker that began before the first DequeueOp of its task, and a CancelOp or CancelAllOps that reached the task before it:
    once the cancel has fired, the worker starts no further item.
  */
  lemma NoItemAfterCancel(run: Run, i: nat, b: nat, l: nat, k: nat, j: nat, t: Tid, x: Tid, id: Id, task: Task)
    requires IsRun(run) && AcceptedAt(run, i, id) && CancelledAt(run, i, l, k, x, id)
    requires InSpan(run, i, b, id) && ActsAt(run, b, t, Worker(id, WorkerBegins(task))) && run.states[b].q.running != id
    requires b < j && k < j && Looping(run, b + 1, j, t) && j < |run.steps| && run.steps[j].Act? && run.steps[j].t == t
    requires run.states[j].threads[t].w.BetweenItems?
    ensures t in run.states[j + 1].threads && run.states[j + 1].threads[t].Worker?
    ensures run.states[j + 1].threads[t].w.WorkerStores?
  {
    BeginFindsItsContext(run, i, b, t, id, task);
    CancelHasFired(run, i, l, k, x, id);
    var ctx := run.states[i].made;
    RunMonotone(run, k + 1, j);
    ContextFixed(run, b + 1, j, t, id, ctx);
    assert StepAt(run, j);
    LeavesWhenFired(run.states[j], run.steps[j], t, id, ctx);
  }

  lemma LeavesWhenFired(s: State, step: Step, t: Tid, id: Id, ctx: Ctx)
    requires Enabled(s, step) && InLoop(s, t, id, ctx) && ctx in s.fired && s.threads[t].w.BetweenItems? && step.Act? && step.t == t
    ensures t in Take(s, step).threads && Take(s, step).threads[t].Worker? && Take(s, step).threads[t].w.WorkerStores?
  {
  }

  // ----- a marked task is retired by the next pass of a poller

  /** Actions only take ids out, together with their marks. */
  ghost predicate Shrinks(s: State, s': State) {
    && (forall id :: id in s'.q.ids ==> id in s.q.ids)
    && (forall id :: id in s'.q.ids && id in s.q.finished ==> id in s'.q.finished)
    && (forall id :: id in s'.q.ctxOf ==> id in s.q.ctxOf)
  }

  lemma WorkerShrinks(s: State, t: Tid, id: Id, w: WorkerPC, c: Choice)
    ensures Shrinks(s, WorkerAct(s, t, id, w, c))
  {
    WithoutKeeps(s.q.ids, id);
  }

  lemma PollerShrinks(s: State, t: Tid, p: PollerPC, c: Choice)
    ensures Shrinks(s, PollerAct(s, t, p, c))
  {
    if p.PollerDequeues? { WithoutKeeps(s.q.ids, p.id); }
  }

  lemma CancelShrinks(s: State, t: Tid, x: CancelPC)
    ensures Shrinks(s, CancelAct(s, t, x))
  {
    if x.CancelLocks? { WithoutKeeps(s.q.ids, x.id); }
  }

  lemma ActShrinks(s: State, t: Tid, th: Thread, c: Choice)
    ensures Shrinks(s, ThreadAct(s, t, th, c))
  {
    match th
    case Worker(id, w) => WorkerShrinks(s, t, id, w, c);
    case Checker(k) =>
    case Poller(p) => PollerShrinks(s, t, p, c);
    case Canceller(x) => CancelShrinks(s, t, x);
    case Off =>
  }

  /** A CancelOp that found its task not executing has already taken the id out. */
  ghost predicate CancelOk(s: State, th: Thread) {
    th.Canceller? && (th.x.CancelDeletes? || (th.x.CancelFires? && !th.x.executing)) ==> th.x.id in s.used && th.x.id !in s.q.ids
  }

  ghost predicate CancelsOk(s: State) {
    && (forall t :: t in s.threads ==> CancelOk(s, s.threads[t]))
    && (forall id :: id in s.q.ctxOf ==> id in s.used)
  }

  lemma CancelOwn(s: State, t: Tid, x: CancelPC)
    requires CancelOk(s, Canceller(x)) && (forall id :: id in s.q.ctxOf ==> id in s.used) && s.q.ctxOf == s.q.cancelOf
    ensures CancelOk(CancelAct(s, t, x), CancelAct(s, t, x).threads[t])
  {
    if x.CancelLocks? { WithoutKeeps(s.q.ids, x.id); }
  }

  lemma CancelsKept(s: State, step: Step)
    requires Inv(s) && CancelsOk(s) && Enabled(s, step)
    ensures CancelsOk(Take(s, step))
  {
    var s' := Take(s, step);
    if step.Act? {
      ActShrinks(s, step.t, s.threads[step.t], step.choice);
      if s.threads[step.t].Canceller? { CancelOwn(s, step.t, s.threads[step.t].x); }
    }
    forall t | t in s'.threads ensures CancelOk(s', s'.threads[t]) {
      if t in s.threads { assert CancelOk(s, s.threads[t]); }
    }
  }

  lemma {:induction false} RunCancels(run: Run, i: nat)
    requires IsRun(run) && i < |run.states|
    ensures CancelsOk(run.states[i])
  {
    if i > 0 {
      RunCancels(run, i - 1);
      RunInv(run, i - 1);
      assert StepAt(run, i - 1);
      CancelsKept(run.states[i - 1], run.steps[i - 1]);
    }
  }

  /** The thread has taken the task out of FileQueue and takes it out of opQueue in its next step. */
  predicate Retires(th: Thread, id: Id) {
    match th
    case Worker(x, w) => x == id && w.WorkerDequeues?
    case Poller(p) => p.PollerDequeues? && p.id == id
    case Canceller(x) => x.AllRelease?
    case _ => false
  }

  ghost predicate BeingRetired(s: State, id: Id) { exists t :: t in s.threads && Retires(s.threads[t], id) }

  /** The poller's pass has the task still before it, or in hand. */
  predicate Visits(p: PollerPC, id: Id) {
    !p.PollerPeeks? && (id in p.todo || (!p.Polling? && p.id == id))
  }

  ghost predicate Ahead(s: State, t: Tid, id: Id) {
    && id in s.q.finished && id in s.files
    && t in s.threads && s.threads[t].Poller? && Visits(s.threads[t].p, id)
  }

  ghost predicate Pending(s: State, t: Tid, id: Id) {
    id in s.used && (id !in s.q.ids || BeingRetired(s, id) || Ahead(s, t, id))
  }

  lemma RetiringStep(s: State, step: Step, t: Tid, id: Id)
    requires Enabled(s, step) && t in s.threads && Retires(s.threads[t], id)
    ensures id !in Take(s, step).q.ids || BeingRetired(Take(s, step), id) || (step.Submit? && step.id == id)
  {
    if step.Act? && step.t == t { WithoutKeeps(s.q.ids, id); } else { OthersStay(s, step, t); }
  }

  lemma WorkerFilesStep(s: State, t: Tid, pid: Id, w: WorkerPC, c: Choice, id: Id)
    requires id in s.files
    ensures var s' := WorkerAct(s, t, pid, w, c); id in s'.files || Retires(s'.threads[t], id)
  {
  }

  lemma CancelFilesStep(s: State, t: Tid, x: CancelPC, id: Id)
    requires CancelOk(s, Canceller(x)) && id in s.files && id in s.q.ids
    ensures var s' := CancelAct(s, t, x); id in s'.files || Retires(s'.threads[t], id)
  {
  }

  /** The only ways out of FileQueue. */
  lemma FilesStep(s: State, t: Tid, c: Choice, id: Id)
    requires CancelsOk(s) && t in s.threads && id in s.files && id in s.q.ids
    ensures var s' := ThreadAct(s, t, s.threads[t], c); id in s'.files || (t in s'.threads && Retires(s'.threads[t], id))
  {
    assert CancelOk(s, s.threads[t]);
    match s.threads[t]
    case Worker(pid, w) => WorkerFilesStep(s, t, pid, w, c, id);
    case Checker(k) =>
    case Poller(p) =>
    case Canceller(x) => CancelFilesStep(s, t, x, id);
    case Off =>
  }

  /** The poller's own step, on a marked task in both queues. */
  lemma VisitStep(s: State, t: Tid, p: PollerPC, c: Choice, id: Id)
    requires Visits(p, id) && id in s.q.finished && id in s.files
    ensures var s' := PollerAct(s, t, p, c);
      id !in s'.q.ids || Retires(s'.threads[t], id) || (s'.threads[t].Poller? && Visits(s'.threads[t].p, id))
  {
    if p.PollerDequeues? { WithoutKeeps(s.q.ids, p.id); }
    if p.Polling? { assert p.todo == [p.todo[0]] + p.todo[1..]; }
  }

  lemma AheadAct(s: State, u: Tid, c: Choice, t: Tid, id: Id)
    requires CancelsOk(s) && u in s.threads && id in s.q.ids && id in s.used && Ahead(s, t, id)
    ensures Pending(ThreadAct(s, u, s.threads[u], c), t, id)
  {
    var s' := ThreadAct(s, u, s.threads[u], c);
    ActShrinks(s, u, s.threads[u], c);
    FilesStep(s, u, c, id);
    if u == t { VisitStep(s, t, s.threads[t].p, c, id); }
    if id in s'.q.ids && !BeingRetired(s', id) {
      assert u in s'.threads ==> !Retires(s'.threads[u], id);
    }
  }

  lemma PendingStep(s: State, step: Step, t: Tid, id: Id)
    requires Inv(s) && CancelsOk(s) && Enabled(s, step) && Pending(s, t, id)
    ensures Pending(Take(s, step), t, id)
  {
    if id in s.q.ids && BeingRetired(s, id) {
      var u :| u in s.threads && Retires(s.threads[u], id);
      RetiringStep(s, step, u, id);
    } else if step.Act? {
      if id in s.q.ids { AheadAct(s, step.t, step.choice, t, id); } else { ActShrinks(s, step.t, s.threads[step.t], step.choice); }
    }
  }

  lemma {:induction false} PendingRun(run: Run, i: nat, j: nat, t: Tid, id: Id)
    requires IsRun(run) && i <= j < |run.states| && Pending(run.states[i], t, id)
    ensures Pending(run.states[j], t, id)
  {
    if i < j {
      PendingRun(run, i, j - 1, t, id);
      RunInv(run, j - 1);
      RunCancels(run, j - 1);
      assert StepAt(run, j - 1);
      PendingStep(run.states[j - 1], run.steps[j - 1], t, id);
    }
  }

  /**
    A poller takes its list when a task is marked finished and stands in both queues.  When that pass has
    the task behind it, the task is out of opQueue, or some thread takes it out in its next step,
    whatever the progress checkers have written back meanwhile.
  */
  lemma MarkedTaskIsRetired(run: Run, i: nat, j: nat, t: Tid, id: Id)
    requires IsRun(run) && i < j < |run.states| && ActsAt(run, i, t, Poller(PollerPeeks)) && !run.steps[i].choice.bad
    requires id in run.states[i].q.ids && id in run.states[i].q.finished && id in run.states[i].files
    requires t in run.states[j].threads && (run.states[j].threads[t].Poller? ==> !Visits(run.states[j].threads[t].p, id))
    ensures id !in run.states[j].q.ids || BeingRetired(run.states[j], id)
  {
    RunInv(run, i);
    assert Printed(run.states[i], id);
    assert StepAt(run, i);
    assert Ahead(run.states[i + 1], t, id);
    PendingRun(run, i + 1, j, t, id);
  }

  // ----- no finished task is left behind

  /** A queued task is in FileQueue, or a thread takes it out of opQueue in its next step. */
  ghost predicate Backed(s: State, id: Id) { id !in s.q.ids || id in s.files || BeingRetired(s, id) }

  /** A task whose worker is through is marked, or out of opQueue, or about to be. */
  ghost predicate Done(s: State, id: Id) { id !in s.q.ids || id in s.q.finished || BeingRetired(s, id) }

  predicate PastMark(w: WorkerPC) { w.WorkerRetires? || w.WorkerDequeues? || w.WorkerEnds? }

  ghost predicate Settled(s: State) {
    && (forall id :: id in s.q.ids ==> Backed(s, id))
    && (forall t :: t in s.threads && s.threads[t].Worker? && PastMark(s.threads[t].w) ==> Done(s, s.threads[t].id))
  }

  lemma BackedStep(s: State, step: Step, id: Id)
    requires Inv(s) && CancelsOk(s) && Enabled(s, step) && id in s.used && Backed(s, id)
    ensures Backed(Take(s, step), id)
  {
    if id in s.q.ids && BeingRetired(s, id) {
      var u :| u in s.threads && Retires(s.threads[u], id);
      RetiringStep(s, step, u, id);
    } else if step.Act? {
      ActShrinks(s, step.t, s.threads[step.t], step.choice);
      if id in s.q.ids { FilesStep(s, step.t, step.choice, id); }
    }
  }

  lemma DoneStep(s: State, step: Step, id: Id)
    requires Inv(s) && Enabled(s, step) && id in s.used && Done(s, id)
    ensures Done(Take(s, step), id)
  {
    if id in s.q.ids && BeingRetired(s, id) {
      var u :| u in s.threads && Retires(s.threads[u], id);
      RetiringStep(s, step, u, id);
    } else if step.Act? {
      ActShrinks(s, step.t, s.threads[step.t], step.choice);
    }
  }

  /** A worker only gets past its mark with the task marked, or taken out by somebody else. */
  lemma MarkedOrGone(s: State, t: Tid, id: Id, w: WorkerPC, c: Choice)
    requires t in s.threads && s.threads[t] == Worker(id, w) && !PastMark(w) && Backed(s, id)
    ensures var s' := WorkerAct(s, t, id, w, c);
      s'.threads[t].Worker? && PastMark(s'.threads[t].w) ==> s'.threads[t].id == id && Done(s', id)
  {
    var s' := WorkerAct(s, t, id, w, c);
    if w.WorkerLooks? && id !in s.files && id in s.q.ids {
      var u :| u in s.threads && Retires(s.threads[u], id);
      assert u != t && s'.threads[u] == s.threads[u];
    }
  }

  lemma SameWorker(s: State, t: Tid, id: Id, w: WorkerPC, c: Choice)
    ensures var th := WorkerAct(s, t, id, w, c).threads[t]; th.Worker? ==> th.id == id
  {
  }

  lemma SettledThread(s: State, step: Step, t: Tid)
    requires Inv(s) && CancelsOk(s) && Settled(s) && Enabled(s, step) && t in Take(s, step).threads
    requires Take(s, step).threads[t].Worker? && PastMark(Take(s, step).threads[t].w)
    ensures Done(Take(s, step), Take(s, step).threads[t].id)
  {
    if t in s.threads && s.threads[t].Worker? {
      var id, w := s.threads[t].id, s.threads[t].w;
      assert ThreadOk(s, s.threads[t]);
      if step.Act? && step.t == t { SameWorker(s, t, id, w, step.choice); } else { OthersStay(s, step, t); }
      if PastMark(w) { DoneStep(s, step, id); } else { MarkedOrGone(s, t, id, w, step.choice); }
    }
  }

  lemma SettledStep(s: State, step: Step)
    requires Inv(s) && CancelsOk(s) && Settled(s) && Enabled(s, step)
    ensures Settled(Take(s, step))
  {
    var s' := Take(s, step);
    forall id | id in s'.q.ids ensures Backed(s', id) {
      if id in s.q.ids {
        assert Printed(s, id);
        BackedStep(s, step, id);
      } else if step.Act? {
        ActShrinks(s, step.t, s.threads[step.t], step.choice);
      }
    }
    forall t | t in s'.threads && s'.threads[t].Worker? && PastMark(s'.threads[t].w) ensures Done(s', s'.threads[t].id) {
      SettledThread(s, step, t);
    }
  }

  lemma {:induction false} RunSettled(run: Run, i: nat)
    requires IsRun(run) && i < |run.states|
    ensures Settled(run.states[i])
  {
    if i > 0 {
      RunSettled(run, i - 1);
      RunInv(run, i - 1);
      RunCancels(run, i - 1);
      assert StepAt(run, i - 1);
      SettledStep(run.states[i - 1], run.steps[i - 1]);
    }
  }

  lemma {:induction false} DoneRun(run: Run, i: nat, j: nat, id: Id)
    requires IsRun(run) && i <= j < |run.states| && id in run.states[i].used && Done(run.states[i], id)
    ensures Done(run.states[j], id)
  {
    if i < j {
      DoneRun(run, i, j - 1, id);
      RunMonotone(run, i, j - 1);
      RunInv(run, j - 1);
      assert StepAt(run, j - 1);
      DoneStep(run.states[j - 1], run.steps[j - 1], id);
    }
  }

  /**
    Once a worker is past its mark, the next full pass of any poller leaves its task out of opQueue, or in the
    hands of a thread that takes it out in its next step.  No finished task stays and blocks the queue.
  */
  lemma FinishedTaskIsRetired(run: Run, i: nat, k: nat, j: nat, w: Tid, t: Tid)
    requires IsRun(run) && i <= k < j < |run.states|
    requires w in run.states[i].threads && run.states[i].threads[w].Worker? && PastMark(run.states[i].threads[w].w)
    requires ActsAt(run, k, t, Poller(PollerPeeks)) && !run.steps[k].choice.bad
    requires t in run.states[j].threads
    requires run.states[j].threads[t].Poller? ==> !Visits(run.states[j].threads[t].p, run.states[i].threads[w].id)
    ensures var id := run.states[i].threads[w].id; id !in run.states[j].q.ids || BeingRetired(run.states[j], id)
  {
    var id := run.states[i].threads[w].id;
    RunInv(run, i);
    assert ThreadOk(run.states[i], run.states[i].threads[w]);
    RunSettled(run, i);
    DoneRun(run, i, k, id);
    RunSettled(run, k);
    RunMonotone(run, i, k);
    if id in run.states[k].q.ids && !BeingRetired(run.states[k], id) {
      assert Backed(run.states[k], id);
      MarkedTaskIsRetired(run, k, j, t, id);
    } else {
      PendingRun(run, k, j, t, id);
    }
  }

  // ----- a finished run has started every item

  /** Step k begins item n of the worker. */
  ghost predicate StartsAt(run: Run, k: nat, t: Tid, n: nat) {
    && |run.states| == |run.steps| + 1 && k < |run.steps| && run.steps[k].Act? && run.steps[k].t == t
    && t in run.states[k].threads && run.states[k].threads[t].Worker? && run.states[k].threads[t].w.BetweenItems?
    && run.states[k].threads[t].w.next == n
    && t in run.states[k + 1].threads && run.states[k + 1].threads[t].Worker? && run.states[k + 1].threads[t].w.InItem?
    && run.states[k + 1].threads[t].w.next == n
  }

  /** How many items a worker in its loop has begun. */
  function Begun(w: WorkerPC): nat
    requires w.BetweenItems? || w.InItem?
  {
    if w.InItem? then w.next + 1 else w.next
  }

  /** The steps `ks` begin the items 0, 1, 2, .. in this order, and no other step before m begins an item. */
  ghost predicate Begins(run: Run, b: nat, m: nat, t: Tid, ks: seq<nat>) {
    && (forall n :: 0 <= n < |ks| ==> b < ks[n] < m && StartsAt(run, ks[n], t, n))
    && (forall i, j :: 0 <= i < j < |ks| ==> ks[i] < ks[j])
    && (forall k: nat, n: nat :: b < k < m && StartsAt(run, k, t, n) ==> n < |ks| && ks[n] == k)
  }

  /** One action of a worker in its loop: the next item begins or ends, or the loop is left. */
  lemma LoopActCounts(s: State, t: Tid, id: Id, w: WorkerPC, c: Choice)
    requires w.BetweenItems? || (w.InItem? && w.next < |w.task.request.items|)
    requires w.BetweenItems? ==> w.next <= |w.task.request.items|
    ensures var th := WorkerAct(s, t, id, w, c).threads[t];
      && th.Worker? && th.id == id
      && (th.w.BetweenItems? || th.w.InItem? ==> th.w.task == w.task && th.w.ctx == w.ctx)
      && (th.w.InItem? ==> w.BetweenItems? && th.w.next == w.next < |w.task.request.items|)
      && (th.w.BetweenItems? ==> w.InItem? && th.w.next == w.next + 1)
      && (th.w.InItem? || th.w.BetweenItems? || th.w.WorkerStores?)
      && (th.w.WorkerStores? ==> th.w.task == w.task.(finished := true, cancelled := th.w.task.cancelled))
      && (th.w.WorkerStores? && !th.w.task.cancelled ==> w.BetweenItems? && w.next == |w.task.request.items|)
      && (th.w.WorkerStores? && th.w.task.cancelled ==> w.task.cancelled || Cancelled(s, w.ctx))
  {
  }

  /** Where the worker's loop stands at m: its task and context are those it began with, and it has begun the items so far. */
  ghost predicate LoopAt(run: Run, b: nat, m: nat, t: Tid, id: Id, task: Task, ctx: Option<Ctx>, ks: seq<nat>) {
    && m < |run.states| && t in run.states[m].threads && run.states[m].threads[t].Worker? && run.states[m].threads[t].id == id
    && var w := run.states[m].threads[t].w;
    && (w.BetweenItems? || w.InItem?) && w.task == task && w.ctx == ctx && Begun(w) == |ks| <= |task.request.items|
    && (w.InItem? ==> w.next < |task.request.items|)
    && Begins(run, b, m, t, ks)
  }

  lemma LoopAdvances(run: Run, b: nat, m: nat, t: Tid, id: Id, task: Task, ctx: Option<Ctx>, ks: seq<nat>) returns (more: seq<nat>)
    requires IsRun(run) && b < m < |run.steps| && LoopAt(run, b, m, t, id, task, ctx, ks)
    requires t in run.states[m + 1].threads && run.states[m + 1].threads[t].Worker?
    requires run.states[m + 1].threads[t].w.BetweenItems? || run.states[m + 1].threads[t].w.InItem?
    ensures LoopAt(run, b, m + 1, t, id, task, ctx, more)
  {
    assert StepAt(run, m);
    var s, step := run.states[m], run.steps[m];
    var w := s.threads[t].w;
    more := ks;
    if step.Act? && step.t == t {
      LoopActCounts(s, t, id, w, step.choice);
      if w.BetweenItems? {
        assert StartsAt(run, m, t, |ks|);
        more := ks + [m];
      }
    } else {
      OthersStay(s, step, t);
    }
  }

  lemma {:induction false} LoopHistory(run: Run, b: nat, m: nat, t: Tid, id: Id, task: Task) returns (ctx: Option<Ctx>, ks: seq<nat>)
    requires IsRun(run) && b < m && ActsAt(run, b, t, Worker(id, WorkerBegins(task))) && Looping(run, b + 1, m, t)
    ensures LoopAt(run, b, m, t, id, task, ctx, ks)
  {
    if m == b + 1 {
      assert StepAt(run, b);
      ctx, ks := run.states[m].threads[t].w.ctx, [];
    } else {
      ctx, ks := LoopHistory(run, b, m - 1, t, id, task);
      ks := LoopAdvances(run, b, m - 1, t, id, task, ctx, ks);
    }
  }

  /**
    A worker begins a run of its task at step b and leaves the item loop at step j.  If the task is not labelled cancelled, every item
    was begun, each once and in order, between the two; and it is labelled cancelled only if its context had fired.
  */
  lemma FinishedRunBeganEveryItem(run: Run, b: nat, j: nat, t: Tid, id: Id, task: Task) returns (ctx: Option<Ctx>, ks: seq<nat>)
    requires IsRun(run) && b < j < |run.steps| && ActsAt(run, b, t, Worker(id, WorkerBegins(task))) && !task.cancelled
    requires Looping(run, b + 1, j, t) && t in run.states[j + 1].threads && run.states[j + 1].threads[t].Worker?
    requires run.states[j + 1].threads[t].w.WorkerStores?
    ensures Begins(run, b, j, t, ks) && run.states[j + 1].threads[t].w.task.finished && run.states[j + 1].threads[t].w.task.request == task.request
    ensures !run.states[j + 1].threads[t].w.task.cancelled ==> |ks| == |task.request.items|
    ensures run.states[j + 1].threads[t].w.task.cancelled ==> Cancelled(run.states[j], ctx) && run.states[j].threads[t].w.ctx == ctx
  {
    ctx, ks := LoopHistory(run, b, j, t, id, task);
    assert StepAt(run, j);
    var s, step := run.states[j], run.steps[j];
    if step.Act? && step.t == t { LoopActCounts(s, t, id, s.threads[t].w, step.choice); } else { OthersStay(s, step, t); }
  }

  /** A worker in its loop began a run at some step and has been in the loop since. */
  lemma {:induction false} LoopBegan(run: Run, m: nat, t: Tid) returns (b: nat, task: Task)
    requires IsRun(run) && m < |run.states| && t in run.states[m].threads && run.states[m].threads[t].Worker?
    requires run.states[m].threads[t].w.BetweenItems? || run.states[m].threads[t].w.InItem?
    ensures b < m && ActsAt(run, b, t, Worker(run.states[m].threads[t].id, WorkerBegins(task))) && Looping(run, b + 1, m, t)
  {
    assert m > 0;
    assert StepAt(run, m - 1);
    BeforeLoop(run.states[m - 1], run.steps[m - 1], t);
    var th := run.states[m - 1].threads[t];
    if th.w.WorkerBegins? { b, task := m - 1, th.w.task; } else { b, task := LoopBegan(run, m - 1, t); }
  }

  lemma BeforeLoop(s: State, step: Step, t: Tid)
    requires Enabled(s, step) && t in Take(s, step).threads && Take(s, step).threads[t].Worker?
    requires Take(s, step).threads[t].w.BetweenItems? || Take(s, step).threads[t].w.InItem?
    ensures t in s.threads && s.threads[t].Worker? && s.threads[t].id == Take(s, step).threads[t].id
    ensures s.threads[t].w.BetweenItems? || s.threads[t].w.InItem? || (s.threads[t].w.WorkerBegins? && step.Act? && step.t == t)
  {
    if step.Act? && step.t == t && s.threads[t].Worker? { BeforeLoopAct(s, t, s.threads[t].id, s.threads[t].w, step.choice); }
  }

  lemma BeforeLoopAct(s: State, t: Tid, id: Id, w: WorkerPC, c: Choice)
    requires var th := WorkerAct(s, t, id, w, c).threads[t]; th.Worker? && (th.w.BetweenItems? || th.w.InItem?)
    ensures WorkerAct(s, t, id, w, c).threads[t].id == id && (w.BetweenItems? || w.InItem? || w.WorkerBegins?)
  {
  }

  /** A whole run of the task's worker, from beginRun at b to the end of its item loop at j. */
  ghost predicate WholeRun(run: Run, b: nat, j: nat, t: Tid, id: Id, task: Task, ks: seq<nat>) {
    && b < j && ActsAt(run, b, t, Worker(id, WorkerBegins(task))) && Looping(run, b + 1, j, t) && LoopEndsAt(run, j, id)
    && run.steps[j].t == t && Begins(run, b, j, t, ks)
    && var end := run.states[j + 1].threads[t].w.task;
    && end.finished && end.request == task.request
    && (if end.cancelled then Cancelled(run.states[j], run.states[j].threads[t].w.ctx) else |ks| == |task.request.items|)
  }

  /**
    A task shows as finished only after a whole run of its worker on the request it was submitted with: every item was
    begun, each once and in order, unless the run was labelled cancelled, and then its context had fired.
  */
  lemma FinishedOnlyAfterTheLoop(run: Run, i: nat, id: Id) returns (b: nat, j: nat, t: Tid, task: Task, ks: seq<nat>)
    requires IsRun(run) && i < |run.states| && ShowsFinished(run.states[i], id)
    ensures j < i && WholeRun(run, b, j, t, id, task, ks)
    ensures id in run.states[b].submitted && task.request == run.states[b].submitted[id].request
  {
    RunInv(run, i);
    FinishedMeansEnded(run.states[i], id);
    EndedWitness(run, i, id);
    j :| j < i && LoopEndsAt(run, j, id);
    t := run.steps[j].t;
    b, task := LoopBegan(run, j, t);
    RunInv(run, b);
    assert ThreadOk(run.states[b], run.states[b].threads[t]);
    var ctx;
    ctx, ks := FinishedRunBeganEveryItem(run, b, j, t, id, task);
  }
}
