/** What holds in every run of the file-operation protocol. */
module OpRuns {
  import opened Options
  import opened Fingerprint
  import opened OpQueue
  import opened OpProtocol

  // ----- the invariant is kept

  ghost predicate Grows(s: State, s': State) {
    s.ended <= s'.ended && (forall id :: id in s.submitted ==> id in s'.submitted && s'.submitted[id] == s.submitted[id])
  }

  lemma ThreadsStayOk(s: State, s': State, t: Tid)
    requires ThreadsOk(s) && Grows(s, s') && t in s'.threads && ThreadOk(s', s'.threads[t])
    requires forall u :: u in s'.threads && u != t ==> u in s.threads && s.threads[u] == s'.threads[u]
    ensures ThreadsOk(s')
  {
    forall u | u in s'.threads ensures ThreadOk(s', s'.threads[u]) {
      if u != t { assert ThreadOk(s, s.threads[u]); }
    }
  }

  lemma FilesStayOk(s: State, s': State)
    requires FilesOk(s) && Grows(s, s')
    requires forall id :: id in s'.files ==> (id in s.files && s'.files[id] == s.files[id]) || TaskOk(s', id, s'.files[id])
    ensures FilesOk(s')
  {
  }

  /** Steps that leave the slots and the contexts alone. */
  lemma QueueSame(s: State, s': State)
    requires QueueOk(s) && ContextsOk(s) && s'.submitted == s.submitted && s'.used == s.used && s'.born == s.born && s'.gone == s.gone
    requires s'.q.finished <= s'.ended <= s'.submitted.Keys
    requires s'.q.(finished := {}, running := "") == s.q.(finished := {}, running := "")
    ensures QueueOk(s') && ContextsOk(s')
  {
    assert s'.q.ids == s.q.ids && s'.q.fingerprintOf == s.q.fingerprintOf && s'.q.active == s.q.active;
    assert s'.q.ctxOf == s.q.ctxOf && s'.q.cancelOf == s.q.cancelOf;
    forall id | id in s'.q.ids ensures Printed(s', id) { assert Printed(s, id); }
    forall id | id in s'.born && id !in s'.gone ensures ContextKept(s', id) { assert ContextKept(s, id); }
  }

  /** Steps that take an id out, with its context or without. */
  lemma QueueWithout(s: State, s': State, id: Id)
    requires QueueOk(s) && ContextsOk(s) && s'.submitted == s.submitted && s'.used == s.used && s'.born == s.born && s'.ended == s.ended
    requires (s'.q == Released(s.q, id) && s'.gone == s.gone) || (s'.q == Dequeued(s.q, id) && s'.gone == s.gone + {id} && id in s.submitted)
    ensures QueueOk(s') && ContextsOk(s')
  {
    ReleasedConsistent(s.q, id);
    assert s'.q.ids == Released(s.q, id).ids;
    forall x | x in s'.q.ids ensures Printed(s', x) { assert Printed(s, x); }
    forall x | x in s'.born && x !in s'.gone ensures ContextKept(s', x) { assert ContextKept(s, x); }
  }

  lemma QueueCleared(s: State, s': State)
    requires QueueOk(s) && ContextsOk(s) && s'.submitted == s.submitted && s'.used == s.used && s'.born == s.born && s'.ended == s.ended
    requires s'.q == Cleared(s.q) && s'.gone == s.gone
    ensures QueueOk(s') && ContextsOk(s')
  {
    forall x | x in s'.born && x !in s'.gone ensures ContextKept(s', x) { assert ContextKept(s, x); }
  }

  lemma WorkerQueue(s: State, t: Tid, id: Id, w: WorkerPC, c: Choice)
    requires QueueOk(s) && ContextsOk(s) && WorkerOk(s, id, w)
    ensures QueueOk(WorkerAct(s, t, id, w, c)) && ContextsOk(WorkerAct(s, t, id, w, c))
  {
    var s' := WorkerAct(s, t, id, w, c);
    if w.WorkerDequeues? { QueueWithout(s, s', id); } else { QueueSame(s, s'); }
  }

  lemma WorkerOwnEarly(s: State, t: Tid, id: Id, w: WorkerPC, c: Choice)
    requires FilesOk(s) && WorkerOk(s, id, w) && s.q.finished <= s.ended
    requires w.WorkerLoads? || w.WorkerAsks? || w.WorkerBegins?
    ensures t in WorkerAct(s, t, id, w, c).threads && ThreadOk(WorkerAct(s, t, id, w, c), WorkerAct(s, t, id, w, c).threads[t])
  {
  }

  lemma WorkerOwnLoop(s: State, t: Tid, id: Id, w: WorkerPC, c: Choice)
    requires FilesOk(s) && WorkerOk(s, id, w) && s.q.finished <= s.ended
    requires w.BetweenItems? || w.InItem?
    ensures t in WorkerAct(s, t, id, w, c).threads && ThreadOk(WorkerAct(s, t, id, w, c), WorkerAct(s, t, id, w, c).threads[t])
  {
  }

  lemma WorkerOwnLate(s: State, t: Tid, id: Id, w: WorkerPC, c: Choice)
    requires FilesOk(s) && WorkerOk(s, id, w) && s.q.finished <= s.ended
    requires LeftLoop(w) || w.WorkerDequeues? || w.WorkerEnds?
    ensures t in WorkerAct(s, t, id, w, c).threads && ThreadOk(WorkerAct(s, t, id, w, c), WorkerAct(s, t, id, w, c).threads[t])
  {
  }

  lemma WorkerOwn(s: State, t: Tid, id: Id, w: WorkerPC, c: Choice)
    requires FilesOk(s) && WorkerOk(s, id, w) && s.q.finished <= s.ended
    ensures t in WorkerAct(s, t, id, w, c).threads && ThreadOk(WorkerAct(s, t, id, w, c), WorkerAct(s, t, id, w, c).threads[t])
  {
    if w.BetweenItems? || w.InItem? { WorkerOwnLoop(s, t, id, w, c); }
    else if LeftLoop(w) || w.WorkerDequeues? || w.WorkerEnds? { WorkerOwnLate(s, t, id, w, c); }
    else { WorkerOwnEarly(s, t, id, w, c); }
  }

  lemma WorkerFiles(s: State, t: Tid, id: Id, w: WorkerPC, c: Choice)
    requires FilesOk(s) && WorkerOk(s, id, w) && s.q.finished <= s.ended
    ensures Grows(s, WorkerAct(s, t, id, w, c)) && FilesOk(WorkerAct(s, t, id, w, c))
  {
    FilesStayOk(s, WorkerAct(s, t, id, w, c));
  }

  lemma WorkerThreads(s: State, t: Tid, id: Id, w: WorkerPC, c: Choice)
    requires FilesOk(s) && ThreadsOk(s) && WorkerOk(s, id, w) && s.q.finished <= s.ended
    ensures FilesOk(WorkerAct(s, t, id, w, c)) && ThreadsOk(WorkerAct(s, t, id, w, c))
  {
    WorkerOwn(s, t, id, w, c);
    WorkerFiles(s, t, id, w, c);
    ThreadsStayOk(s, WorkerAct(s, t, id, w, c), t);
  }

  lemma CheckerQueue(s: State, t: Tid, k: CheckerPC, c: Choice)
    requires QueueOk(s) && ContextsOk(s) && CheckerOk(s, k)
    ensures QueueOk(CheckerAct(s, t, k, c)) && ContextsOk(CheckerAct(s, t, k, c))
  {
    var s' := CheckerAct(s, t, k, c);
    QueueSame(s, s');
  }

  lemma CheckerOwn(s: State, t: Tid, k: CheckerPC, c: Choice)
    requires FilesOk(s) && CheckerOk(s, k) && s.q.finished <= s.ended
    ensures t in CheckerAct(s, t, k, c).threads && ThreadOk(CheckerAct(s, t, k, c), CheckerAct(s, t, k, c).threads[t])
  {
  }

  lemma CheckerFiles(s: State, t: Tid, k: CheckerPC, c: Choice)
    requires FilesOk(s) && CheckerOk(s, k) && s.q.finished <= s.ended
    ensures Grows(s, CheckerAct(s, t, k, c)) && FilesOk(CheckerAct(s, t, k, c))
  {
    FilesStayOk(s, CheckerAct(s, t, k, c));
  }

  lemma CheckerThreads(s: State, t: Tid, k: CheckerPC, c: Choice)
    requires FilesOk(s) && ThreadsOk(s) && CheckerOk(s, k) && s.q.finished <= s.ended
    ensures FilesOk(CheckerAct(s, t, k, c)) && ThreadsOk(CheckerAct(s, t, k, c))
  {
    CheckerOwn(s, t, k, c);
    CheckerFiles(s, t, k, c);
    ThreadsStayOk(s, CheckerAct(s, t, k, c), t);
  }

  lemma PollerQueue(s: State, t: Tid, p: PollerPC, c: Choice)
    requires QueueOk(s) && ContextsOk(s) && PollerOk(s, p)
    ensures QueueOk(PollerAct(s, t, p, c)) && ContextsOk(PollerAct(s, t, p, c))
  {
    var s' := PollerAct(s, t, p, c);
    if p.PollerDequeues? { QueueWithout(s, s', p.id); } else { QueueSame(s, s'); }
  }

  lemma PollerOwn(s: State, t: Tid, p: PollerPC, c: Choice)
    requires FilesOk(s) && PollerOk(s, p) && s.q.finished <= s.ended
    ensures t in PollerAct(s, t, p, c).threads && ThreadOk(PollerAct(s, t, p, c), PollerAct(s, t, p, c).threads[t])
  {
  }

  lemma PollerFiles(s: State, t: Tid, p: PollerPC, c: Choice)
    requires FilesOk(s) && PollerOk(s, p) && s.q.finished <= s.ended
    ensures Grows(s, PollerAct(s, t, p, c)) && FilesOk(PollerAct(s, t, p, c))
  {
    FilesStayOk(s, PollerAct(s, t, p, c));
  }

  lemma PollerThreads(s: State, t: Tid, p: PollerPC, c: Choice)
    requires FilesOk(s) && ThreadsOk(s) && PollerOk(s, p) && s.q.finished <= s.ended
    ensures FilesOk(PollerAct(s, t, p, c)) && ThreadsOk(PollerAct(s, t, p, c))
  {
    PollerOwn(s, t, p, c);
    PollerFiles(s, t, p, c);
    ThreadsStayOk(s, PollerAct(s, t, p, c), t);
  }

  lemma CancelQueue(s: State, t: Tid, x: CancelPC)
    requires QueueOk(s) && ContextsOk(s)
    ensures QueueOk(CancelAct(s, t, x)) && ContextsOk(CancelAct(s, t, x))
  {
    var s' := CancelAct(s, t, x);
    if x.AllRelease? { QueueCleared(s, s'); }
    else if x.CancelLocks? && s'.q != s.q { QueueWithout(s, s', x.id); } else { QueueSame(s, s'); }
  }

  lemma CancelOwn(s: State, t: Tid, x: CancelPC)
    requires FilesOk(s) && s.q.finished <= s.ended
    ensures t in CancelAct(s, t, x).threads && ThreadOk(CancelAct(s, t, x), CancelAct(s, t, x).threads[t])
  {
  }

  lemma CancelFiles(s: State, t: Tid, x: CancelPC)
    requires FilesOk(s) && s.q.finished <= s.ended
    ensures Grows(s, CancelAct(s, t, x)) && FilesOk(CancelAct(s, t, x))
  {
    FilesStayOk(s, CancelAct(s, t, x));
  }

  lemma CancelThreads(s: State, t: Tid, x: CancelPC)
    requires FilesOk(s) && ThreadsOk(s) && s.q.finished <= s.ended
    ensures FilesOk(CancelAct(s, t, x)) && ThreadsOk(CancelAct(s, t, x))
  {
    CancelOwn(s, t, x);
    CancelFiles(s, t, x);
    ThreadsStayOk(s, CancelAct(s, t, x), t);
  }

  lemma SubmitQueue(s: State, id: Id, task: Task)
    requires Inv(s) && Enabled(s, Submit(id, task))
    ensures QueueOk(SubmitAct(s, id, task)) && ContextsOk(SubmitAct(s, id, task))
  {
    var s' := SubmitAct(s, id, task);
    var batch := FingerprintOf(task.request);
    if batch !in s.q.active {
      assert id !in s.q.ids by { assert id in s.q.ids ==> Printed(s, id); }
      EnqueuedConsistent(s.q, id, batch, s.made);
    }
    forall x | x in s'.q.ids ensures Printed(s', x) {
      if x in s.q.ids { assert Printed(s, x); }
    }
    forall x | x in s'.born && x !in s'.gone ensures ContextKept(s', x) {
      if x in s.born { assert ContextKept(s, x); }
    }
  }

  lemma SubmitThreads(s: State, id: Id, task: Task)
    requires Inv(s) && Enabled(s, Submit(id, task))
    ensures FilesOk(SubmitAct(s, id, task)) && ThreadsOk(SubmitAct(s, id, task))
  {
    var s' := SubmitAct(s, id, task);
    FilesStayOk(s, s');
    forall u | u in s'.threads ensures ThreadOk(s', s'.threads[u]) { assert ThreadOk(s, s.threads[u]); }
  }

  lemma TakeKeeps(s: State, step: Step)
    requires Inv(s) && Enabled(s, step)
    ensures Inv(Take(s, step))
  {
    match step
    case Submit(id, task) => SubmitQueue(s, id, task); SubmitThreads(s, id, task);
    case Start(t, th) => ThreadsStayOk(s, s.At(t, th), t);
    case Act(t, c) =>
      assert ThreadOk(s, s.threads[t]);
      match s.threads[t] {
        case Off =>
        case Worker(id, w) => WorkerQueue(s, t, id, w, c); WorkerThreads(s, t, id, w, c);
        case Checker(k) => CheckerQueue(s, t, k, c); CheckerThreads(s, t, k, c);
        case Poller(p) => PollerQueue(s, t, p, c); PollerThreads(s, t, p, c);
        case Canceller(x) => CancelQueue(s, t, x); CancelThreads(s, t, x);
      }
  }

  lemma StepKeeps(run: Run, i: nat)
    requires |run.states| == |run.steps| + 1 && i < |run.steps| && StepAt(run, i) && Inv(run.states[i])
    ensures Inv(run.states[i + 1])
  {
    TakeKeeps(run.states[i], run.steps[i]);
  }

  lemma {:induction false} RunInv(run: Run, i: nat)
    requires IsRun(run) && i < |run.states|
    ensures Inv(run.states[i])
  {
    if i > 0 {
      RunInv(run, i - 1);
      StepKeeps(run, i - 1);
    }
  }
}
