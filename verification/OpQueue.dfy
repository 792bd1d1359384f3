/**
  The queue of file operations (opQueue in service/file.go): which tasks are admitted, under which
  fingerprint, with which context, and which of them have finished.
*/
module OpQueue {
  import opened Options

  type Id = string
  /** Contexts are numbered in the order in which they are made. */
  type Ctx = nat

  datatype Queue = Queue(
    ids: seq<Id>,
    fingerprintOf: map<Id, string>,
    active: set<string>,
    ctxOf: map<Id, Ctx>,
    cancelOf: map<Id, Ctx>,
    running: Id,
    finished: set<Id>)

  const EmptyQueue := Queue([], map[], {}, map[], map[], "", {})

  function Without(ids: seq<Id>, id: Id): seq<Id> {
    if ids == [] then []
    else Without(ids[..|ids| - 1], id) + if ids[|ids| - 1] == id then [] else [ids[|ids| - 1]]
  }

  // ----- what each critical section does

  function Enqueued(q: Queue, id: Id, batch: string, c: Ctx): Queue {
    q.(ids := q.ids + [id], fingerprintOf := q.fingerprintOf[id := batch], active := q.active + {batch},
       ctxOf := q.ctxOf[id := c], cancelOf := q.cancelOf[id := c])
  }

  /** The slot, the fingerprint and the finished mark go; the context stays for a worker on its way to beginRun. */
  function Released(q: Queue, id: Id): Queue {
    q.(ids := Without(q.ids, id), fingerprintOf := q.fingerprintOf - {id},
       active := if id in q.fingerprintOf then q.active - {q.fingerprintOf[id]} else q.active,
       finished := q.finished - {id})
  }

  function Dequeued(q: Queue, id: Id): Queue {
    Released(q, id).(ctxOf := q.ctxOf - {id}, cancelOf := q.cancelOf - {id},
                     running := if q.running == id then "" else q.running)
  }

  function Cleared(q: Queue): Queue {
    q.(ids := [], fingerprintOf := map[], active := {}, finished := {}, running := "")
  }

  function Ended(q: Queue, id: Id): Queue {
    if q.running == id then q.(running := "") else q
  }

  // ----- the invariant

  ghost predicate Distinct(ids: seq<Id>) { forall i, j :: 0 <= i < j < |ids| ==> ids[i] != ids[j] }

  ghost predicate Injective(m: map<Id, string>) { forall a, b :: a in m && b in m && m[a] == m[b] ==> a == b }

  /** One queued task per fingerprint, and every fingerprint in use is that of a queued task. */
  ghost predicate Consistent(q: Queue) {
    && Distinct(q.ids)
    && (forall id :: id in q.fingerprintOf <==> id in q.ids)
    && (forall batch :: batch in q.active <==> batch in q.fingerprintOf.Values)
    && Injective(q.fingerprintOf)
    && q.ctxOf == q.cancelOf
  }

  lemma {:induction false} WithoutKeeps(ids: seq<Id>, id: Id)
    ensures forall x :: x in Without(ids, id) <==> x in ids && x != id
    ensures Distinct(ids) ==> Distinct(Without(ids, id))
  {
    if ids != [] {
      var init := ids[..|ids| - 1];
      WithoutKeeps(init, id);
      assert ids == init + [ids[|ids| - 1]];
      assert Distinct(ids) ==> Distinct(init);
      assert Distinct(ids) ==> ids[|ids| - 1] !in init;
    }
  }

  /** The id leaves its place, the others keep their order. */
  ghost predicate CutOut(ids: seq<Id>, id: Id, out: seq<Id>) {
    && (id !in ids ==> out == ids)
    && forall i :: 0 <= i < |ids| && ids[i] == id ==> out == ids[..i] + ids[i + 1..]
  }

  lemma {:induction false} WithoutCuts(ids: seq<Id>, id: Id)
    requires Distinct(ids)
    ensures CutOut(ids, id, Without(ids, id))
  {
    if ids != [] {
      var n := |ids| - 1;
      WithoutCuts(ids[..n], id);
      assert ids == ids[..n] + [ids[n]];
      if id !in ids { assert id !in ids[..n]; }
      forall i | 0 <= i < |ids| && ids[i] == id ensures Without(ids, id) == ids[..i] + ids[i + 1..] {
        if i == n { assert id !in ids[..n]; }
        else { assert ids[..n][i] == id && ids[i + 1..] == ids[..n][i + 1..] + [ids[n]] && ids[..n][..i] == ids[..i]; }
      }
    }
  }

  lemma EnqueuedConsistent(q: Queue, id: Id, batch: string, c: Ctx)
    requires Consistent(q) && id !in q.ids && batch !in q.active
    ensures Consistent(Enqueued(q, id, batch, c))
  {
    var q' := Enqueued(q, id, batch, c);
    forall p ensures p in q'.active <==> p in q'.fingerprintOf.Values {
      if p in q'.active {
        if p == batch { assert q'.fingerprintOf[id] == p; }
        else {
          var a :| a in q.fingerprintOf && q.fingerprintOf[a] == p;
          assert q'.fingerprintOf[a] == p;
        }
      }
    }
  }

  lemma ReleasedConsistent(q: Queue, id: Id)
    requires Consistent(q)
    ensures Consistent(Released(q, id)) && Consistent(Dequeued(q, id))
    ensures forall x :: x in Released(q, id).ids <==> x in q.ids && x != id
  {
    WithoutKeeps(q.ids, id);
    var q' := Released(q, id);
    forall p ensures p in q'.active <==> p in q'.fingerprintOf.Values {
      if p in q'.active {
        var a :| a in q.fingerprintOf && q.fingerprintOf[a] == p;
        assert a in q'.fingerprintOf && q'.fingerprintOf[a] == p;
      }
    }
    assert Consistent(q');
    var q'' := Dequeued(q, id);
    assert q''.ids == q'.ids && q''.fingerprintOf == q'.fingerprintOf && q''.active == q'.active;
  }

  /** The loop that takes an id out of the slice. */
  method KeepOthers(ids: seq<Id>, id: Id) returns (out: seq<Id>)
    ensures out == Without(ids, id)
  {
    out := [];
    for i := 0 to |ids|
      invariant out == Without(ids[..i], id)
    {
      assert ids[..i + 1][..i] == ids[..i];
      if ids[i] != id { out := out + [ids[i]]; }
    }
    assert ids[..|ids|] == ids;
  }

  // ----- the queue as the program holds it; every method is one critical section

  class SharedQueue {
    var ids: seq<Id>
    var fingerprintOf: map<Id, string>
    var active: set<string>
    var ctxOf: map<Id, Ctx>
    var cancelOf: map<Id, Ctx>
    var running: Id
    var finished: set<Id>
    /** How many contexts have been made. */
    var made: nat
    /** The contexts that have been cancelled. */
    var fired: set<Ctx>

    ghost function State(): Queue
      reads this
    {
      Queue(ids, fingerprintOf, active, ctxOf, cancelOf, running, finished)
    }

    constructor ()
      ensures State() == EmptyQueue && made == 0 && fired == {}
    {
      ids, fingerprintOf, active, ctxOf, cancelOf := [], map[], {}, map[], map[];
      running, finished, made, fired := "", {}, 0, {};
    }

    /** Admits a task with a context of its own, or refuses it because the same batch is queued. */
    method EnqueueOp(id: Id, batch: string) returns (isFirst: bool, duplicate: bool)
      requires Consistent(State()) && id !in ids
      modifies this
      ensures Consistent(State()) && fired == old(fired)
      ensures duplicate <==> exists x :: x in old(fingerprintOf) && old(fingerprintOf)[x] == batch
      ensures duplicate ==> State() == old(State()) && made == old(made)
      ensures !duplicate ==> State() == Enqueued(old(State()), id, batch, old(made)) && made == old(made) + 1
      ensures !duplicate ==> ids == old(ids) + [id] && fingerprintOf == old(fingerprintOf)[id := batch]
      ensures !duplicate ==> ctxOf == old(ctxOf)[id := old(made)] && running == old(running) && finished == old(finished)
      ensures isFirst <==> !duplicate && old(ids) == []
    {
      if batch in active { return false, true; }
      EnqueuedConsistent(State(), id, batch, made);
      ids := ids + [id];
      fingerprintOf := fingerprintOf[id := batch];
      active := active + {batch};
      ctxOf := ctxOf[id := made];
      cancelOf := cancelOf[id := made];
      made := made + 1;
      return |ids| == 1, false;
    }

    /** releaseQueueSlotLocked. */
    method ReleaseQueueSlot(id: Id)
      requires Consistent(State())
      modifies this`ids, this`fingerprintOf, this`active, this`finished
      ensures Consistent(State()) && State() == Released(old(State()), id)
      ensures CutOut(old(ids), id, ids) && fingerprintOf == old(fingerprintOf) - {id} && finished == old(finished) - {id}
    {
      ReleasedConsistent(State(), id);
      WithoutCuts(ids, id);
      TakeOut(id);
    }

    method TakeOut(id: Id)
      modifies this`ids, this`fingerprintOf, this`active, this`finished
      ensures State() == Released(old(State()), id)
    {
      ids := KeepOthers(ids, id);
      if id in fingerprintOf {
        active := active - {fingerprintOf[id]};
        fingerprintOf := fingerprintOf - {id};
      }
      finished := finished - {id};
    }

    method DequeueOp(id: Id)
      requires Consistent(State())
      modifies this`ids, this`fingerprintOf, this`active, this`finished, this`ctxOf, this`cancelOf, this`running
      ensures Consistent(State()) && State() == Dequeued(old(State()), id)
      ensures CutOut(old(ids), id, ids) && fingerprintOf == old(fingerprintOf) - {id} && finished == old(finished) - {id}
      ensures ctxOf == old(ctxOf) - {id} && running == if old(running) == id then "" else old(running)
    {
      ReleasedConsistent(State(), id);
      ReleaseQueueSlot(id);
      ctxOf := ctxOf - {id};
      cancelOf := cancelOf - {id};
      if running == id { running := ""; }
    }

    method ClearOps()
      requires Consistent(State())
      modifies this`ids, this`fingerprintOf, this`active, this`finished, this`running
      ensures Consistent(State()) && State() == Cleared(old(State()))
      ensures ids == [] && fingerprintOf == map[] && finished == {} && running == ""
    {
      ids, fingerprintOf, active, finished, running := [], map[], {}, {}, "";
    }

    /** Refuses a task that runs already; else hands out its context, or None for the background context. */
    method BeginRun(id: Id) returns (ctx: Option<Ctx>, alreadyRunning: bool)
      modifies this`running
      ensures alreadyRunning <==> old(running) == id
      ensures running == id
      ensures !alreadyRunning ==> ctx == if id in ctxOf then Some(ctxOf[id]) else None
    {
      if running == id { return None, true; }
      running := id;
      return if id in ctxOf then Some(ctxOf[id]) else None, false;
    }

    method EndRun(id: Id)
      modifies this`running
      ensures State() == Ended(old(State()), id)
      ensures running == if old(running) == id then "" else old(running)
    {
      if running == id { running := ""; }
    }

    /** The critical section of CancelOp: the context to cancel, and whether the task is executing. */
    method CancelLocked(id: Id) returns (ctx: Option<Ctx>, executing: bool)
      requires Consistent(State())
      modifies this`ids, this`fingerprintOf, this`active, this`finished
      ensures Consistent(State())
      ensures ctx == (if id in old(cancelOf) then Some(old(cancelOf)[id]) else None) && executing == (running == id)
      ensures State() == if ctx.Some? && !executing then Released(old(State()), id) else old(State())
      ensures ctx.Some? && !executing ==> CutOut(old(ids), id, ids) && id !in fingerprintOf && id !in finished
    {
      ctx := if id in cancelOf then Some(cancelOf[id]) else None;
      executing := running == id;
      if ctx.Some? && !executing { ReleaseQueueSlot(id); }
    }

    /** The critical section of CancelAllOps: every registered context is cancelled. */
    method CancelEvery()
      modifies this`fired
      ensures fired == old(fired) + cancelOf.Values
    {
      var todo := cancelOf.Keys;
      while todo != {}
        invariant todo <= cancelOf.Keys
        invariant fired == old(fired) + set id | id in cancelOf && id !in todo :: cancelOf[id]
        decreases todo
      {
        var id :| id in todo;
        ghost var rest := todo - {id};
        assert forall x :: x in cancelOf && x !in rest <==> (x in cancelOf && x !in todo) || x == id;
        fired := fired + {cancelOf[id]};
        todo := todo - {id};
      }
    }

    /** The critical section of markOpFinished. */
    method MarkFinished(id: Id)
      modifies this`finished
      ensures finished == old(finished) + {id}
    {
      finished := finished + {id};
    }
  }
}
