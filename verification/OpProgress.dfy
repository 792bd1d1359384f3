/** What each thread of the file-operation protocol gets done when no other thread interferes. */
module OpProgress {
  import opened Options
  import opened Fingerprint
  import opened OpQueue
  import opened OpProtocol
  import opened OpRuns

  /** One action of the thread. */
  function One(s: State, t: Tid, c: Choice): State {
    if t in s.threads then ThreadAct(s, t, s.threads[t], c) else s
  }

  /** The state after n actions of the thread and of no other. */
  function Alone(s: State, t: Tid, c: Choice, n: nat): State
    decreases n
  {
    if n == 0 then s else One(Alone(s, t, c, n - 1), t, c)
  }

  /** Acting alone, the thread gets from one state to the other. */
  ghost predicate Leads(s: State, s': State, t: Tid, c: Choice) { exists n: nat :: Alone(s, t, c, n) == s' }

  lemma LeadsHere(s: State, t: Tid, c: Choice)
    ensures Leads(s, s, t, c)
  {
    assert Alone(s, t, c, 0) == s;
  }

  lemma LeadsOn(s: State, mid: State, s': State, t: Tid, c: Choice)
    requires Leads(s, mid, t, c) && s' == One(mid, t, c)
    ensures Leads(s, s', t, c)
  {
    var n: nat :| Alone(s, t, c, n) == mid;
    assert Alone(s, t, c, n + 1) == s';
  }

  lemma {:induction false} AloneMore(s: State, t: Tid, c: Choice, m: nat, n: nat)
    ensures Alone(s, t, c, m + n) == Alone(Alone(s, t, c, m), t, c, n)
    decreases n
  {
    if n > 0 { AloneMore(s, t, c, m, n - 1); }
  }

  lemma LeadsThrough(s: State, mid: State, s': State, t: Tid, c: Choice)
    requires Leads(s, mid, t, c) && Leads(mid, s', t, c)
    ensures Leads(s, s', t, c)
  {
    var m: nat :| Alone(s, t, c, m) == mid;
    var n: nat :| Alone(mid, t, c, n) == s';
    AloneMore(s, t, c, m, n);
  }

  // ----- the worker

  /** No item fails. */
  const Fine := Choice(0, false)

  /** The item loop, from item k to the last. */
  lemma {:induction false} LoopAlone(s: State, t: Tid, id: Id, task: Task, ctx: Option<Ctx>, k: nat)
    requires t in s.threads && s.threads[t] == Worker(id, BetweenItems(task, ctx, k)) && k <= |task.request.items| && !Cancelled(s, ctx)
    ensures Leads(s, s.At(t, Worker(id, BetweenItems(task, ctx, |task.request.items|))), t, Fine)
    decreases |task.request.items| - k
  {
    var last := s.At(t, Worker(id, BetweenItems(task, ctx, |task.request.items|)));
    if k == |task.request.items| {
      LeadsHere(s, t, Fine);
      assert last.threads == s.threads;
    } else {
      var s2 := s.At(t, Worker(id, BetweenItems(task, ctx, k + 1)));
      ItemAlone(s, t, id, task, ctx, k);
      LoopAlone(s2, t, id, task, ctx, k + 1);
      assert last.threads == s2.At(t, Worker(id, BetweenItems(task, ctx, |task.request.items|))).threads;
      LeadsThrough(s, s2, last, t, Fine);
    }
  }

  /** One item. */
  lemma ItemAlone(s: State, t: Tid, id: Id, task: Task, ctx: Option<Ctx>, k: nat)
    requires t in s.threads && s.threads[t] == Worker(id, BetweenItems(task, ctx, k)) && k < |task.request.items| && !Cancelled(s, ctx)
    ensures Leads(s, s.At(t, Worker(id, BetweenItems(task, ctx, k + 1))), t, Fine)
  {
    var s1, s2 := s.At(t, Worker(id, InItem(task, ctx, k))), s.At(t, Worker(id, BetweenItems(task, ctx, k + 1)));
    LeadsHere(s, t, Fine);
    LeadsOn(s, s, s1, t, Fine);
    assert s2.threads == s1.threads[t := Worker(id, BetweenItems(task, ctx, k + 1))];
    LeadsOn(s, s1, s2, t, Fine);
  }

  function Begun(s: State, t: Tid, id: Id): State
    requires id in s.files
  {
    s.(q := s.q.(running := id)).At(t, Worker(id, BetweenItems(s.files[id], if id in s.q.ctxOf then Some(s.q.ctxOf[id]) else None, 0)))
  }

  /** A stored task that is neither finished nor marked, and does not run. */
  predicate Fresh(s: State, id: Id) {
    id in s.files && !s.files[id].finished && !s.files[id].cancelled && s.files[id].processed == 0 && id !in s.q.finished && s.q.running != id
  }

  /** From the head of FileOperate to the item loop. */
  lemma BeginAlone(s: State, t: Tid, id: Id)
    requires t in s.threads && s.threads[t] == Worker(id, WorkerLoads) && Fresh(s, id)
    ensures Leads(s, Begun(s, t, id), t, Fine)
  {
    var s1, s2 := s.At(t, Worker(id, WorkerAsks(s.files[id]))), s.At(t, Worker(id, WorkerBegins(s.files[id])));
    LeadsHere(s, t, Fine);
    LeadsOn(s, s, s1, t, Fine);
    assert s2 == s1.At(t, Worker(id, WorkerBegins(s.files[id])));
    LeadsOn(s, s1, s2, t, Fine);
    BeginStep(s2, t, id, s.files[id]);
    assert Begun(s2, t, id) == Begun(s, t, id);
    LeadsOn(s, s2, Begun(s, t, id), t, Fine);
  }

  lemma BeginStep(s: State, t: Tid, id: Id, task: Task)
    requires t in s.threads && s.threads[t] == Worker(id, WorkerBegins(task)) && s.q.running != id && id in s.files && s.files[id] == task
    ensures One(s, t, Fine) == Begun(s, t, id)
  {
  }

  /** The result is stored. */
  lemma StoreAlone(s: State, t: Tid, id: Id, task: Task, ctx: Option<Ctx>)
    requires t in s.threads && s.threads[t] == Worker(id, BetweenItems(task, ctx, |task.request.items|)) && !task.cancelled
    ensures var done := task.(finished := true);
      Leads(s, s.(ended := s.ended + {id}, files := s.files[id := done]).At(t, Worker(id, WorkerLooks(done))), t, Fine)
  {
    var done := task.(finished := true);
    var s1 := s.At(t, Worker(id, WorkerStores(done))).(ended := s.ended + {id});
    var s2 := s.(ended := s.ended + {id}, files := s.files[id := done]).At(t, Worker(id, WorkerLooks(done)));
    LeadsHere(s, t, Fine);
    LeadsOn(s, s, s1, t, Fine);
    assert s2.threads == s1.threads[t := Worker(id, WorkerLooks(done))];
    LeadsOn(s, s1, s2, t, Fine);
  }

  /** Then it is marked. */
  lemma MarkAlone(s: State, t: Tid, id: Id, done: Task)
    requires t in s.threads && s.threads[t] == Worker(id, WorkerLooks(done)) && id in s.files
    ensures Leads(s, s.(q := s.q.(finished := s.q.finished + {id})).At(t, Worker(id, WorkerRetires(done))), t, Fine)
  {
    var s1 := s.At(t, Worker(id, WorkerMarks(done)));
    var s2 := s.(q := s.q.(finished := s.q.finished + {id})).At(t, Worker(id, WorkerRetires(done)));
    LeadsHere(s, t, Fine);
    LeadsOn(s, s, s1, t, Fine);
    assert s2.threads == s1.threads[t := Worker(id, WorkerRetires(done))];
    LeadsOn(s, s1, s2, t, Fine);
  }

  /** And the worker is through. */
  lemma LeaveAlone(s: State, t: Tid, id: Id, done: Task)
    requires t in s.threads && s.threads[t] == Worker(id, WorkerRetires(done)) && !done.cancelled && s.q.running == id
    ensures Leads(s, s.(q := s.q.(running := "")).At(t, Off), t, Fine)
  {
    var s1, s2 := s.At(t, Worker(id, WorkerEnds)), s.(q := s.q.(running := "")).At(t, Off);
    LeadsHere(s, t, Fine);
    LeadsOn(s, s, s1, t, Fine);
    assert s2.threads == s1.threads[t := Off];
    LeadsOn(s, s1, s2, t, Fine);
  }

  /** The task is stored as finished and not cancelled, marked, and the running slot free. */
  function Finished(s: State, t: Tid, id: Id, task: Task): State {
    s.(files := s.files[id := task.(finished := true)], q := s.q.(finished := s.q.finished + {id}, running := ""), ended := s.ended + {id}).At(t, Off)
  }

  lemma EndAlone(s: State, t: Tid, id: Id, task: Task, ctx: Option<Ctx>)
    requires t in s.threads && s.threads[t] == Worker(id, BetweenItems(task, ctx, |task.request.items|)) && !task.cancelled && s.q.running == id
    ensures Leads(s, Finished(s, t, id, task), t, Fine)
  {
    var done := task.(finished := true);
    var s2 := s.(ended := s.ended + {id}, files := s.files[id := done]).At(t, Worker(id, WorkerLooks(done)));
    StoreAlone(s, t, id, task, ctx);
    MarkAlone(s2, t, id, done);
    var s4 := s2.(q := s.q.(finished := s.q.finished + {id})).At(t, Worker(id, WorkerRetires(done)));
    LeadsThrough(s, s2, s4, t, Fine);
    LeaveAlone(s4, t, id, done);
    assert Finished(s, t, id, task) == s4.(q := s4.q.(running := "")).At(t, Off);
    LeadsThrough(s, s4, Finished(s, t, id, task), t, Fine);
  }

  lemma RestAlone(s: State, t: Tid, id: Id, task: Task, ctx: Option<Ctx>)
    requires t in s.threads && s.threads[t] == Worker(id, BetweenItems(task, ctx, 0)) && !Cancelled(s, ctx) && !task.cancelled && s.q.running == id
    ensures Leads(s, Finished(s, t, id, task), t, Fine)
  {
    var s1 := s.At(t, Worker(id, BetweenItems(task, ctx, |task.request.items|)));
    LoopAlone(s, t, id, task, ctx, 0);
    EndAlone(s1, t, id, task, ctx);
    assert Finished(s1, t, id, task) == Finished(s, t, id, task);
    LeadsThrough(s, s1, Finished(s, t, id, task), t, Fine);
  }

  /**
    A worker that is dispatched for a stored, unfinished and unmarked task whose context has not fired, and that nobody disturbs, runs
    through all items and leaves the task stored as finished and not cancelled, marked, and the running slot free.
  */
  lemma WorkerFinishesAlone(s: State, t: Tid, id: Id)
    requires t in s.threads && s.threads[t] == Worker(id, WorkerLoads) && Fresh(s, id) && (id in s.q.ctxOf ==> s.q.ctxOf[id] !in s.fired)
    ensures Leads(s, Finished(s, t, id, s.files[id]), t, Fine)
  {
    var s1 := Begun(s, t, id);
    BeginAlone(s, t, id);
    RestAlone(s1, t, id, s.files[id], if id in s.q.ctxOf then Some(s.q.ctxOf[id]) else None);
    assert Finished(s1, t, id, s.files[id]) == Finished(s, t, id, s.files[id]);
    LeadsThrough(s, s1, Finished(s, t, id, s.files[id]), t, Fine);
  }

  // ----- the canceller

  /** CancelOp on a queued task that does not run takes it out of both queues and fires its context, which stays on file. */
  lemma CancelAlone(s: State, t: Tid, id: Id, c: Choice)
    requires t in s.threads && s.threads[t] == Canceller(CancelLoads(id))
    requires id in s.files && !s.files[id].finished && id !in s.q.finished && id in s.q.cancelOf && s.q.running != id
    ensures Leads(s, CancelResult(s, t, id), t, c)
    ensures id !in Released(s.q, id).ids
  {
    var s1, s2 := s.At(t, Canceller(CancelAsks(id))), s.At(t, Canceller(CancelLocks(id)));
    LeadsHere(s, t, c);
    LeadsOn(s, s, s1, t, c);
    assert s2.threads == s1.threads[t := Canceller(CancelLocks(id))];
    LeadsOn(s, s1, s2, t, c);
    CancelRest(s2, t, id, c);
    assert CancelResult(s2, t, id) == CancelResult(s, t, id);
    LeadsThrough(s, s2, CancelResult(s, t, id), t, c);
    WithoutKeeps(s.q.ids, id);
  }

  function CancelResult(s: State, t: Tid, id: Id): State
    requires id in s.q.cancelOf
  {
    s.(q := Released(s.q, id), fired := s.fired + {s.q.cancelOf[id]}, files := s.files - {id}).At(t, Off)
  }

  lemma CancelRest(s: State, t: Tid, id: Id, c: Choice)
    requires t in s.threads && s.threads[t] == Canceller(CancelLocks(id)) && id in s.q.cancelOf && s.q.running != id
    ensures Leads(s, CancelResult(s, t, id), t, c)
  {
    var ctx := s.q.cancelOf[id];
    var s3 := s.(q := Released(s.q, id)).At(t, Canceller(CancelFires(id, ctx, false)));
    var s4 := s.(q := Released(s.q, id), fired := s.fired + {ctx}).At(t, Canceller(CancelDeletes(id)));
    LeadsHere(s, t, c);
    LeadsOn(s, s, s3, t, c);
    assert s4.threads == s3.threads[t := Canceller(CancelDeletes(id))];
    LeadsOn(s, s3, s4, t, c);
    assert CancelResult(s, t, id).threads == s4.threads[t := Off];
    LeadsOn(s, s4, CancelResult(s, t, id), t, c);
  }

  // ----- the poller

  /** A poller that comes to a stored task which is finished, marked, or of positive size and fully processed takes it out of both queues. */
  lemma PollerAlone(s: State, t: Tid, id: Id, todo: seq<Id>, c: Choice)
    requires t in s.threads && s.threads[t] == Poller(Polling([id] + todo)) && id in s.files
    requires s.files[id].finished || id in s.q.finished || SizeReached(s.files[id])
    ensures Leads(s, s.(q := Dequeued(s.q, id), files := s.files - {id}, gone := s.gone + {id}).At(t, Poller(Polling(todo))), t, c)
    ensures id !in Dequeued(s.q, id).ids
  {
    assert ([id] + todo)[1..] == todo;
    var s1, s2 := s.At(t, Poller(PollerAsks(id, s.files[id], todo))), s.At(t, Poller(PollerDeletes(id, todo)));
    var s4 := s.(q := Dequeued(s.q, id), files := s.files - {id}, gone := s.gone + {id}).At(t, Poller(Polling(todo)));
    LeadsHere(s, t, c);
    LeadsOn(s, s, s1, t, c);
    assert s2.threads == s1.threads[t := Poller(PollerDeletes(id, todo))];
    LeadsOn(s, s1, s2, t, c);
    TakeOutAlone(s2, t, id, todo, c);
    assert s4.threads == s2.threads[t := Poller(Polling(todo))];
    LeadsThrough(s, s2, s4, t, c);
    WithoutKeeps(s.q.ids, id);
  }

  lemma TakeOutAlone(s: State, t: Tid, id: Id, todo: seq<Id>, c: Choice)
    requires t in s.threads && s.threads[t] == Poller(PollerDeletes(id, todo))
    ensures Leads(s, s.(q := Dequeued(s.q, id), files := s.files - {id}, gone := s.gone + {id}).At(t, Poller(Polling(todo))), t, c)
  {
    var s1 := s.(files := s.files - {id}).At(t, Poller(PollerDequeues(id, todo)));
    var s2 := s.(q := Dequeued(s.q, id), files := s.files - {id}, gone := s.gone + {id}).At(t, Poller(Polling(todo)));
    LeadsHere(s, t, c);
    LeadsOn(s, s, s1, t, c);
    assert s2.threads == s1.threads[t := Poller(Polling(todo))];
    LeadsOn(s, s1, s2, t, c);
  }

  /** Any other stored task it leaves alone. */
  lemma PollerPasses(s: State, t: Tid, id: Id, todo: seq<Id>, c: Choice)
    requires t in s.threads && s.threads[t] == Poller(Polling([id] + todo)) && id in s.files
    requires !s.files[id].finished && id !in s.q.finished && !SizeReached(s.files[id])
    ensures Leads(s, s.At(t, Poller(Polling(todo))), t, c)
  {
    assert ([id] + todo)[1..] == todo;
    var s1, s2 := s.At(t, Poller(PollerAsks(id, s.files[id], todo))), s.At(t, Poller(Polling(todo)));
    LeadsHere(s, t, c);
    LeadsOn(s, s, s1, t, c);
    assert s2.threads == s1.threads[t := Poller(Polling(todo))];
    LeadsOn(s, s1, s2, t, c);
  }

  // ----- the progress checker

  /** It writes the size it found into a live task, and changes nothing else. */
  lemma CheckerAlone(s: State, t: Tid, id: Id, todo: seq<Id>, c: Choice)
    requires t in s.threads && s.threads[t] == Checker(Checking([id] + todo)) && id in s.files
    requires !s.files[id].finished && !s.files[id].cancelled && id !in s.q.finished
    ensures Leads(s, s.(files := s.files[id := s.files[id].(processed := c.size)]).At(t, Checker(Checking(todo))), t, c)
  {
    var task := s.files[id].(processed := c.size);
    assert ([id] + todo)[1..] == todo;
    var s1, s2 := s.At(t, Checker(CheckerWalks(id, s.files[id], todo))), s.At(t, Checker(CheckerLooks(id, task, todo)));
    var last := s.(files := s.files[id := task]).At(t, Checker(Checking(todo)));
    LeadsHere(s, t, c);
    LeadsOn(s, s, s1, t, c);
    assert s2.threads == s1.threads[t := Checker(CheckerLooks(id, task, todo))];
    LeadsOn(s, s1, s2, t, c);
    StoreProgressAlone(s2, t, id, task, todo, c);
    assert last.threads == s2.threads[t := Checker(Checking(todo))];
    LeadsThrough(s, s2, last, t, c);
  }

  /** storeFileProgress on a live task. */
  lemma StoreProgressAlone(s: State, t: Tid, id: Id, task: Task, todo: seq<Id>, c: Choice)
    requires t in s.threads && s.threads[t] == Checker(CheckerLooks(id, task, todo)) && id in s.files
    requires !s.files[id].finished && !s.files[id].cancelled && id !in s.q.finished
    ensures Leads(s, s.(files := s.files[id := task]).At(t, Checker(Checking(todo))), t, c)
  {
    var s3, s4 := s.At(t, Checker(CheckerAsks(id, task, todo))), s.At(t, Checker(CheckerStores(id, task, todo)));
    var s5 := s.(files := s.files[id := task]).At(t, Checker(Checking(todo)));
    LeadsHere(s, t, c);
    LeadsOn(s, s, s3, t, c);
    assert s4.threads == s3.threads[t := Checker(CheckerStores(id, task, todo))];
    LeadsOn(s, s3, s4, t, c);
    assert s5.threads == s4.threads[t := Checker(Checking(todo))];
    LeadsOn(s, s4, s5, t, c);
  }

  /** A task that has meanwhile finished, been marked or gone is not written back. */
  lemma CheckerDropsStale(s: State, t: Tid, id: Id, task: Task, todo: seq<Id>, c: Choice)
    requires t in s.threads && s.threads[t] == Checker(CheckerLooks(id, task, todo))
    requires id !in s.files || s.files[id].finished || s.files[id].cancelled || id in s.q.finished
    ensures Leads(s, s.At(t, Checker(Checking(todo))), t, c)
  {
    var s1, s2 := s.At(t, Checker(CheckerAsks(id, task, todo))), s.At(t, Checker(Checking(todo)));
    LeadsHere(s, t, c);
    if id !in s.files || s.files[id].finished || s.files[id].cancelled {
      LeadsOn(s, s, s2, t, c);
    } else {
      LeadsOn(s, s, s1, t, c);
      assert s2.threads == s1.threads[t := Checker(Checking(todo))];
      LeadsOn(s, s1, s2, t, c);
    }
  }

  /** A task that has gone from FileQueue is passed over. */
  lemma PollerSkips(s: State, t: Tid, id: Id, todo: seq<Id>, c: Choice)
    requires t in s.threads && s.threads[t] == Poller(Polling([id] + todo)) && id !in s.files
    ensures Leads(s, s.At(t, Poller(Polling(todo))), t, c)
  {
    assert ([id] + todo)[1..] == todo;
    LeadsHere(s, t, c);
    LeadsOn(s, s, s.At(t, Poller(Polling(todo))), t, c);
  }

  // ----- a whole pass of the poller

  /** The poller takes the task out when it comes to it. */
  predicate Due(s: State, id: Id) { id in s.files && (s.files[id].finished || id in s.q.finished || SizeReached(s.files[id])) }

  /** The pass took out the tasks that were due, and nothing else. */
  ghost predicate PassedOver(s: State, todo: seq<Id>, s': State) {
    && (forall x :: x in s'.files <==> x in s.files && !(x in todo && Due(s, x)))
    && (forall x :: x in s'.files ==> s'.files[x] == s.files[x])
    && (forall x :: x in s'.q.ids <==> x in s.q.ids && !(x in todo && Due(s, x)))
    && (forall x :: x in s'.q.finished <==> x in s.q.finished && !(x in todo && Due(s, x)))
    && s'.gone == s.gone + (set x | x in todo && Due(s, x)) && s'.fired == s.fired && s'.ended == s.ended
  }

  lemma PassStep(s: State, id: Id, todo: seq<Id>, mid: State, s': State)
    requires id !in todo && PassedOver(mid, todo, s')
    requires if Due(s, id) then mid.files == s.files - {id} && mid.q == Dequeued(s.q, id) && mid.gone == s.gone + {id}
             else mid.files == s.files && mid.q == s.q && mid.gone == s.gone
    requires mid.fired == s.fired && mid.ended == s.ended
    ensures PassedOver(s, [id] + todo, s')
  {
    WithoutKeeps(s.q.ids, id);
    assert forall x :: x in todo ==> Due(mid, x) == Due(s, x);
    assert forall x :: x in [id] + todo <==> x == id || x in todo;
    assert (set x | x in [id] + todo && Due(s, x)) == (set x | x in todo && Due(mid, x)) + (if Due(s, id) then {id} else {});
  }

  lemma {:induction false} PassAlone(s: State, t: Tid, todo: seq<Id>, c: Choice) returns (s': State)
    requires t in s.threads && s.threads[t] == Poller(Polling(todo)) && Distinct(todo)
    ensures Leads(s, s', t, c) && t in s'.threads && s'.threads[t] == Poller(PollerPeeks) && PassedOver(s, todo, s')
    decreases |todo|
  {
    LeadsHere(s, t, c);
    if todo == [] {
      s' := s.At(t, Poller(PollerPeeks));
      LeadsOn(s, s, s', t, c);
    } else {
      var id, rest := todo[0], todo[1..];
      assert todo == [id] + rest && id !in rest;
      var mid := if Due(s, id) then s.(q := Dequeued(s.q, id), files := s.files - {id}, gone := s.gone + {id}).At(t, Poller(Polling(rest)))
                 else s.At(t, Poller(Polling(rest)));
      if Due(s, id) { PollerAlone(s, t, id, rest, c); }
      else if id in s.files { PollerPasses(s, t, id, rest, c); }
      else { PollerSkips(s, t, id, rest, c); }
      s' := PassAlone(mid, t, rest, c);
      LeadsThrough(s, mid, s', t, c);
      PassStep(s, id, rest, mid, s');
    }
  }

  /** A pass that nobody disturbs takes out exactly the queued tasks that are finished, marked or fully processed. */
  lemma PollAlone(s: State, t: Tid) returns (s': State)
    requires Consistent(s.q) && t in s.threads && s.threads[t] == Poller(PollerPeeks)
    ensures Leads(s, s', t, Fine) && t in s'.threads && s'.threads[t] == Poller(PollerPeeks) && PassedOver(s, s.q.ids, s')
  {
    var s1 := s.At(t, Poller(Polling(s.q.ids)));
    LeadsHere(s, t, Fine);
    LeadsOn(s, s, s1, t, Fine);
    s' := PassAlone(s1, t, s.q.ids, Fine);
    LeadsThrough(s, s1, s', t, Fine);
    assert forall x :: Due(s1, x) == Due(s, x);
  }

  // ----- cancelling everything

  /** CancelAllOps fires every registered context and leaves both queues empty, with the contexts on file. */
  lemma CancelAllAlone(s: State, t: Tid, c: Choice)
    requires t in s.threads && s.threads[t] == Canceller(AllFire)
    ensures Leads(s, s.(fired := s.fired + s.q.cancelOf.Values, files := map[], q := EmptyQueue.(ctxOf := s.q.ctxOf, cancelOf := s.q.cancelOf)).At(t, Off), t, c)
  {
    var s1 := s.(fired := s.fired + s.q.cancelOf.Values).At(t, Canceller(AllClear));
    var s2 := s1.(files := map[]).At(t, Canceller(AllRelease));
    var s3 := s2.(q := Cleared(s.q)).At(t, Off);
    LeadsHere(s, t, c);
    LeadsOn(s, s, s1, t, c);
    LeadsOn(s, s1, s2, t, c);
    LeadsOn(s, s2, s3, t, c);
    assert s3.threads == s.threads[t := Off];
  }

  // ----- submission

  /** A batch is refused exactly if a queued task has its fingerprint; else it is stored and queued last, with a new context. */
  lemma SubmitDecides(s: State, id: Id, task: Task)
    requires Inv(s) && Enabled(s, Submit(id, task))
    ensures var s' := Take(s, Submit(id, task));
      if exists x :: x in s.q.ids && x in s.submitted && FingerprintOf(s.submitted[x].request) == FingerprintOf(task.request)
      then s'.files == s.files && s'.q == s.q && s'.made == s.made
      else s'.files == s.files[id := task] && s'.q.ids == s.q.ids + [id] && s'.q.ctxOf == s.q.ctxOf[id := s.made] && s'.made == s.made + 1
           && s'.q.finished == s.q.finished && s'.q.running == s.q.running && s'.threads == s.threads && s'.fired == s.fired
  {
    var batch := FingerprintOf(task.request);
    if batch in s.q.active {
      assert batch in s.q.fingerprintOf.Values;
      var x :| x in s.q.fingerprintOf && s.q.fingerprintOf[x] == batch;
      assert Printed(s, x);
    } else {
      forall x | x in s.q.ids && x in s.submitted ensures FingerprintOf(s.submitted[x].request) != batch {
        assert Printed(s, x);
        assert s.q.fingerprintOf[x] in s.q.fingerprintOf.Values;
      }
    }
  }

  /** No context has fired before it was made, and only a submitted task runs. */
  ghost predicate MadeFirst(s: State) {
    && (forall c :: c in s.fired ==> c < s.made)
    && (forall id :: id in s.q.cancelOf ==> s.q.cancelOf[id] < s.made)
    && (forall t :: t in s.threads && s.threads[t].Canceller? && s.threads[t].x.CancelFires? ==> s.threads[t].x.target < s.made)
    && (s.q.running == "" || s.q.running in s.submitted)
  }

  lemma MadeFirstCancel(s: State, t: Tid, x: CancelPC)
    requires MadeFirst(s) && (x.CancelFires? ==> x.target < s.made)
    ensures MadeFirst(CancelAct(s, t, x))
  {
    var s' := CancelAct(s, t, x);
    assert forall c :: c in s'.fired ==> c in s.fired || c in s.q.cancelOf.Values || (x.CancelFires? && c == x.target);
  }

  lemma MadeFirstWorker(s: State, t: Tid, id: Id, w: WorkerPC, c: Choice)
    requires MadeFirst(s) && WorkerOk(s, id, w)
    ensures MadeFirst(WorkerAct(s, t, id, w, c))
  {
  }

  lemma MadeFirstSame(s: State, s': State, t: Tid)
    requires MadeFirst(s) && Forward(s, s', t) && !s'.threads[t].Canceller? && s'.fired == s.fired && s'.made == s.made
    requires s'.q.running in {s.q.running, ""} && forall id :: id in s'.q.cancelOf ==> id in s.q.cancelOf && s'.q.cancelOf[id] == s.q.cancelOf[id]
    ensures MadeFirst(s')
  {
  }

  lemma MadeFirstAct(s: State, t: Tid, th: Thread, c: Choice)
    requires MadeFirst(s) && ThreadOk(s, th) && (th.Canceller? && th.x.CancelFires? ==> th.x.target < s.made)
    ensures MadeFirst(ThreadAct(s, t, th, c))
  {
    match th
    case Off =>
    case Worker(id, w) => MadeFirstWorker(s, t, id, w, c);
    case Checker(k) => MadeFirstSame(s, CheckerAct(s, t, k, c), t);
    case Poller(p) => MadeFirstSame(s, PollerAct(s, t, p, c), t);
    case Canceller(x) => MadeFirstCancel(s, t, x);
  }

  lemma MadeFirstStep(s: State, step: Step)
    requires Inv(s) && MadeFirst(s) && Enabled(s, step)
    ensures MadeFirst(Take(s, step))
  {
    if step.Act? {
      assert ThreadOk(s, s.threads[step.t]);
      MadeFirstAct(s, step.t, s.threads[step.t], step.choice);
    }
  }

  lemma {:induction false} RunMadeFirst(run: Run, i: nat)
    requires IsRun(run) && i < |run.states|
    ensures MadeFirst(run.states[i])
  {
    if i > 0 {
      RunMadeFirst(run, i - 1);
      RunInv(run, i - 1);
      assert StepAt(run, i - 1);
      MadeFirstStep(run.states[i - 1], run.steps[i - 1]);
    }
  }

  /**
    In any reachable state: a task that is admitted then, and whose worker starts at once on a free thread and is left alone, is carried
    through all its items and ends finished, not cancelled, and marked.
  */
  lemma AdmittedTaskFinishes(run: Run, i: nat, id: Id, task: Task, t: Tid)
    requires IsRun(run) && i < |run.states| && Enabled(run.states[i], Submit(id, task)) && task.processed == 0
    requires FingerprintOf(task.request) !in run.states[i].q.active
    requires t in run.states[i].threads ==> run.states[i].threads[t].Off?
    ensures var s1 := Take(run.states[i], Submit(id, task));
      && Enabled(s1, Start(t, Worker(id, WorkerLoads)))
      && Leads(Take(s1, Start(t, Worker(id, WorkerLoads))), Finished(s1, t, id, task), t, Fine)
  {
    RunInv(run, i);
    RunMadeFirst(run, i);
    var s1 := Take(run.states[i], Submit(id, task));
    var s2 := Take(s1, Start(t, Worker(id, WorkerLoads)));
    assert s2.q.ctxOf[id] == run.states[i].made && run.states[i].made !in s2.fired;
    WorkerFinishesAlone(s2, t, id);
    assert Finished(s2, t, id, task) == Finished(s1, t, id, task);
  }
}
