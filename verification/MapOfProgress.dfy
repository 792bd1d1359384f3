/** A call of the MapOf protocol that no other thread disturbs always has a step to take and comes to its end. */
module MapOfProgress {
  import opened Options
  import opened MapOfProtocol
  import opened MapOfInvariant
  import opened MapOfLinearizable

  // ----- how many steps are left

  function Late(path: Path): nat {
    match path
    case Fast => 0
    case ViaRead => 1
    case ViaDirty => 2
  }

  /** Steps left from the wait for the lock. */
  function Slow(s: State): nat { 11 + 4 * |s.read| + |DirtyMap(s)| }

  function PtrAt(s: State, e: Ref): Ptr { if e in s.ptr then s.ptr[e] else Nil }

  /** Steps left after the lock has been given back. */
  function Tail(pc: PC): nat {
    match pc
    case EntryLoad(_) => 1
    case DelLoad(_) => 2
    case RangeIter(todo, _) => 1 + |todo|
    case _ => 0
  }

  /** Steps left in the methods of an entry. */
  function EntryRank(s: State, pc: PC): nat {
    match pc
    case EntryLoad(_) => 1
    case DelLoad(_) => 2
    case DelCas(e, p) => if PtrAt(s, e) == p then 1 else 3
    case TryStoreLoad(e) => if PtrAt(s, e).Expunged? then 1 + Slow(s) else 2
    case TryStoreCas(e, p) => if PtrAt(s, e) == p then 1 else if PtrAt(s, e).Expunged? then 2 + Slow(s) else 3
    case TryLos(e, path) => if PtrAt(s, e).Expunged? then 1 + Slow(s) else 2 + Late(path)
    case LosCas(e, path) =>
      if PtrAt(s, e).Nil? then 1 + Late(path) else if PtrAt(s, e).Expunged? then 2 + Slow(s) else 3 + Late(path)
    case StoreLocked(_) => 2
    case AddDirty(_) => 4
    case _ => 5
  }

  predicate AtEntry(pc: PC) {
    pc.EntryLoad? || pc.TryStoreLoad? || pc.TryStoreCas? || pc.TryLos? || pc.LosCas? || pc.DelLoad? || pc.DelCas?
    || pc.Unexpunge? || pc.AddDirty? || pc.StoreLocked?
  }

  /** Steps left in building the dirty map. */
  function DirtyRank(s: State, pc: PC): nat {
    match pc
    case DirtyLoop(left) => 4 + 4 * |left|
    case DirtyLoad(_, left) => 4 * |left| + 2
    case DirtyCas(k, left) => if k in s.read && PtrAt(s, s.read[k]).Nil? then 4 * |left| + 1 else 4 * |left| + 3
    case DirtyStart => 5 + 4 * |s.read|
    case Amend => 3
    case _ => 2
  }

  predicate AtDirty(pc: PC) { pc.DirtyLoop? || pc.DirtyLoad? || pc.DirtyCas? || pc.DirtyStart? || pc.Amend? || pc.NewEntry? }

  /** An upper bound on the steps a thread alone needs to finish its call. */
  function Rank(s: State, pc: PC): nat {
    if AtEntry(pc) then EntryRank(s, pc)
    else if AtDirty(pc) then DirtyRank(s, pc)
    else if pc.Unlock? then 1 + Tail(pc.next)
    else if pc.Miss? then 2 + Tail(pc.next)
    else if pc.RangeIter? then 1 + |pc.todo|
    else if pc.RangePromote? then 3 + |DirtyMap(s)|
    else if pc.ReadLocked? then 10 + 4 * |s.read| + |DirtyMap(s)|
    else if pc.WantLock? then Slow(s)
    else if pc.ReadFast? then 2 + Slow(s)
    else 0
  }

  /** The thread is still in the call, and nearer to its end. */
  ghost predicate Nearer(s: State, t: Tid, s': State) {
    && t in s.threads && s.threads[t].Busy? && t in s'.threads && s'.threads[t].Busy?
    && Rank(s', s'.threads[t].pc) < Rank(s, s.threads[t].pc)
  }

  ghost predicate In(s: State, t: Tid, op: Op, pc: PC) { t in s.threads && s.threads[t].Busy? && s.threads[t].op == op && s.threads[t].pc == pc }

  lemma FastEntryNearer(s: State, t: Tid, op: Op)
    requires In(s, t, op, ReadFast) && !op.Range? && op.key in s.read
    ensures Nearer(s, t, StepReadFast(s, t))
  {
    var s' := StepReadFast(s, t);
    assert s'.read == s.read && s'.dirty == s.dirty && s'.ptr == s.ptr;
    assert EntryRank(s', OnEntry(op, s.read[op.key])) <= 1 + Slow(s);
  }

  lemma FastRangeNearer(s: State, t: Tid, op: Op)
    requires In(s, t, op, ReadFast) && op.Range?
    ensures Nearer(s, t, StepReadFast(s, t))
  {
  }

  lemma ReadFastNearer(s: State, t: Tid, op: Op)
    requires In(s, t, op, ReadFast)
    ensures Nearer(s, t, StepReadFast(s, t))
  {
    if op.Range? { FastRangeNearer(s, t, op); }
    else if op.key in s.read { FastEntryNearer(s, t, op); }
  }

  lemma LoadLockedNearer(s: State, t: Tid, op: Op)
    requires In(s, t, op, ReadLocked) && op.Load?
    ensures Nearer(s, t, StepReadLocked(s, t))
  {
  }

  lemma DeleteLockedNearer(s: State, t: Tid, op: Op)
    requires In(s, t, op, ReadLocked) && op.Delete?
    ensures Nearer(s, t, StepReadLocked(s, t))
  {
  }

  lemma RangeLockedNearer(s: State, t: Tid, op: Op)
    requires In(s, t, op, ReadLocked) && op.Range?
    ensures Nearer(s, t, StepReadLocked(s, t))
  {
  }

  lemma WritersNearer(s: State, t: Tid, op: Op)
    requires In(s, t, op, ReadLocked) && (op.Store? || op.LoadOrStore?)
    requires op.key in DirtyMap(s) && op.key !in s.read ==> !PtrAt(s, DirtyMap(s)[op.key]).Expunged?
    ensures Nearer(s, t, StepReadLocked(s, t))
  {
    var s' := StepReadLocked(s, t);
    assert s'.read == s.read && s'.ptr == s.ptr;
  }

  lemma LoadNearer(s: State, t: Tid, op: Op, pc: PC)
    requires In(s, t, op, pc) && HasEntry(s, pc) && (pc.EntryLoad? || pc.DelLoad? || pc.DelCas?)
    ensures Nearer(s, t, StepEntry(s, t))
  {
  }

  lemma StoreNearer(s: State, t: Tid, op: Op, pc: PC)
    requires In(s, t, op, pc) && HasEntry(s, pc) && (pc.TryStoreLoad? || pc.TryStoreCas?) && op.Store?
    ensures Nearer(s, t, StepEntry(s, t))
  {
    var s' := StepEntry(s, t);
    assert s'.read == s.read && s'.dirty == s.dirty;
  }

  lemma LosNearer(s: State, t: Tid, op: Op, pc: PC)
    requires In(s, t, op, pc) && HasEntry(s, pc) && (pc.TryLos? || pc.LosCas?) && op.LoadOrStore?
    ensures Nearer(s, t, StepEntry(s, t))
  {
    var s' := StepEntry(s, t);
    assert s'.read == s.read && s'.dirty == s.dirty;
  }

  lemma LockedNearer(s: State, t: Tid, op: Op, pc: PC)
    requires In(s, t, op, pc) && HasEntry(s, pc) && (op.Store? || op.LoadOrStore?) && (pc.Unexpunge? || pc.AddDirty? || pc.StoreLocked?)
    requires (pc.StoreLocked? ==> op.Store?) && (pc.AddDirty? ==> !s.ptr[pc.e].Expunged?)
    ensures Nearer(s, t, StepEntry(s, t))
  {
    var s' := StepEntry(s, t);
    assert pc.e in s'.ptr;
  }

  lemma MissNearer(s: State, t: Tid, op: Op, next: PC)
    requires In(s, t, op, Miss(next))
    ensures Nearer(s, t, StepMiss(s, t))
  {
  }

  lemma UnlockNearer(s: State, t: Tid, op: Op, next: PC)
    requires In(s, t, op, Unlock(next)) && (next.Done? || next.EntryLoad? || next.DelLoad? || next.RangeIter?)
    ensures Nearer(s, t, Goto(s, t, next).(lock := None))
  {
  }

  lemma Fewer(left: set<Key>, k: Key)
    requires k in left
    ensures |left - {k}| == |left| - 1
  {
  }

  lemma DirtyStartNearer(s: State, t: Tid, op: Op, pc: PC, s': State)
    requires In(s, t, op, pc) && StepDirty(s, t, s') && (pc.DirtyStart? || pc.DirtyLoop? || pc.Amend?)
    ensures Nearer(s, t, s')
  {
    assert |s.read.Keys| == |s.read|;
  }

  lemma DirtyKeyNearer(s: State, t: Tid, op: Op, pc: PC, s': State)
    requires In(s, t, op, pc) && StepDirty(s, t, s') && (pc.DirtyLoad? || pc.DirtyCas?) && pc.k in pc.left
    ensures Nearer(s, t, s')
  {
    Fewer(pc.left, pc.k);
    assert s'.read == s.read;
  }

  lemma FewerKeys(todo: map<Key, Ref>, k: Key)
    requires k in todo
    ensures |todo - {k}| == |todo| - 1
  {
    assert (todo - {k}).Keys == todo.Keys - {k};
    assert |todo.Keys| == |todo| && |(todo - {k}).Keys| == |todo - {k}|;
  }

  lemma VisitNearer(s: State, t: Tid, op: Op, todo: map<Key, Ref>, out: Contents, k: Key)
    requires In(s, t, op, RangeIter(todo, out)) && k in todo && todo[k] in s.ptr
    ensures Nearer(s, t, Goto(s, t, AfterVisit(s, todo, out, k)))
  {
    FewerKeys(todo, k);
  }

  lemma EndNearer(s: State, t: Tid, op: Op, todo: map<Key, Ref>, out: Contents, all: bool)
    requires In(s, t, op, RangeIter(todo, out))
    ensures Nearer(s, t, Goto(s, t, Done(Visited(out, all))))
  {
  }

  lemma RangeNearer(s: State, t: Tid, op: Op, todo: map<Key, Ref>, out: Contents, s': State)
    requires In(s, t, op, RangeIter(todo, out)) && StepRange(s, t, s')
    ensures Nearer(s, t, s')
  {
    if exists k :: k in todo && todo[k] in s.ptr && s' == Goto(s, t, AfterVisit(s, todo, out, k)) {
      var k :| k in todo && todo[k] in s.ptr && s' == Goto(s, t, AfterVisit(s, todo, out, k));
      VisitNearer(s, t, op, todo, out, k);
    } else if s' == Goto(s, t, Done(Visited(out, false))) {
      EndNearer(s, t, op, todo, out, false);
    } else {
      EndNearer(s, t, op, todo, out, true);
    }
  }

  lemma ReadLockedNearer(s: State, t: Tid, op: Op)
    requires In(s, t, op, ReadLocked) && DirtyInv(s)
    ensures Nearer(s, t, StepReadLocked(s, t))
  {
    match op
    case Load(_) => LoadLockedNearer(s, t, op);
    case Delete(_) => DeleteLockedNearer(s, t, op);
    case Range => RangeLockedNearer(s, t, op);
    case _ => WritersNearer(s, t, op);
  }

  lemma LockNearer(s: State, t: Tid, op: Op)
    requires In(s, t, op, WantLock)
    ensures Nearer(s, t, Goto(s, t, ReadLocked).(lock := Some(t)))
  {
  }

  lemma PromoteNearer(s: State, t: Tid, op: Op)
    requires In(s, t, op, RangePromote)
    ensures Nearer(s, t, Promote(Goto(s, t, Unlock(RangeIter(DirtyMap(s), map[])))))
  {
  }

  lemma NewEntryNearer(s: State, t: Tid, op: Op, s': State)
    requires In(s, t, op, NewEntry) && StepNewEntry(s, t, s')
    ensures Nearer(s, t, s')
  {
  }

  lemma EntryNearer(s: State, t: Tid, op: Op, pc: PC)
    requires In(s, t, op, pc) && HasEntry(s, pc) && PcOk(s, op, pc, s.threads[t].hist, s.threads[t].acted)
    ensures Nearer(s, t, StepEntry(s, t))
  {
    if pc.EntryLoad? || pc.DelLoad? || pc.DelCas? { LoadNearer(s, t, op, pc); }
    else if pc.TryStoreLoad? || pc.TryStoreCas? { StoreNearer(s, t, op, pc); }
    else if pc.TryLos? || pc.LosCas? { LosNearer(s, t, op, pc); }
    else { LockedNearer(s, t, op, pc); }
  }

  lemma DirtyNearer(s: State, t: Tid, op: Op, pc: PC, s': State)
    requires In(s, t, op, pc) && PcOk(s, op, pc, s.threads[t].hist, s.threads[t].acted) && StepDirty(s, t, s')
    ensures Nearer(s, t, s')
  {
    if pc.DirtyLoad? || pc.DirtyCas? { DirtyKeyNearer(s, t, op, pc, s'); } else { DirtyStartNearer(s, t, op, pc, s'); }
  }

  /** Every step of a thread in a call brings it nearer to the end, whichever step it takes. */
  lemma StepNearer(s: State, t: Tid, op: Op, pc: PC, s': State)
    requires DirtyInv(s) && In(s, t, op, pc) && !pc.Done? && PcOk(s, op, pc, s.threads[t].hist, s.threads[t].acted) && Step(s, t, s')
    ensures Nearer(s, t, s')
  {
    if AtEntry(pc) { EntryNearer(s, t, op, pc); }
    else if pc.NewEntry? { NewEntryNearer(s, t, op, s'); }
    else if AtDirty(pc) { DirtyNearer(s, t, op, pc, s'); }
    else if pc.ReadFast? { ReadFastNearer(s, t, op); }
    else if pc.WantLock? { LockNearer(s, t, op); }
    else if pc.ReadLocked? { ReadLockedNearer(s, t, op); }
    else if pc.Miss? { MissNearer(s, t, op, pc.next); }
    else if pc.RangePromote? { PromoteNearer(s, t, op); }
    else if pc.Unlock? { UnlockNearer(s, t, op, pc.next); }
    else { RangeNearer(s, t, op, pc.todo, pc.out, s'); }
  }

  // ----- there always is a step

  lemma {:induction false} FreshId(k: Key, refs: set<Ref>) returns (id: nat)
    ensures forall n: nat :: n >= id ==> Ref(k, n) !in refs
    decreases |refs|
  {
    if refs == {} { id := 0; }
    else {
      var r :| r in refs;
      id := FreshId(k, refs - {r});
      if r.key == k && r.id >= id { id := r.id + 1; }
      forall n: nat | n >= id ensures Ref(k, n) !in refs { assert Ref(k, n) !in refs - {r}; }
    }
  }

  ghost predicate CanStep(s: State, t: Tid) { exists s' :: Step(s, t, s') }

  lemma NewEntryStep(s: State, t: Tid, op: Op)
    requires In(s, t, op, NewEntry) && s.dirty.Some? && (op.Store? || op.LoadOrStore?)
    ensures CanStep(s, t)
  {
    var id := FreshId(op.key, s.ptr.Keys);
    assert StepNewEntry(s, t, WithNewEntry(s, t, id));
    assert Step(s, t, WithNewEntry(s, t, id));
  }

  lemma DirtyStep(s: State, t: Tid, op: Op, pc: PC)
    requires In(s, t, op, pc) && (pc.DirtyLoop? || pc.DirtyLoad? || pc.DirtyCas? || pc.DirtyStart? || pc.Amend?)
    requires pc.DirtyLoad? || pc.DirtyCas? ==> pc.k in s.read && s.read[pc.k] in s.ptr
    ensures CanStep(s, t)
  {
    var s' :=
      if pc.DirtyStart? then (if s.dirty.Some? then Goto(s, t, Amend) else Goto(s, t, DirtyLoop(s.read.Keys)).(dirty := Some(map[])))
      else if pc.DirtyLoop? then (if pc.left == {} then Goto(s, t, Amend) else var k :| k in pc.left; Goto(s, t, DirtyLoad(k, pc.left)))
      else if pc.DirtyLoad? then
        (match s.ptr[s.read[pc.k]]
         case Nil => Goto(s, t, DirtyCas(pc.k, pc.left))
         case Expunged => Goto(s, t, DirtyLoop(pc.left - {pc.k}))
         case Val(_, _) => Goto(s, t, DirtyLoop(pc.left - {pc.k})).(dirty := Some(DirtyMap(s)[pc.k := s.read[pc.k]])))
      else if pc.DirtyCas? then
        (if s.ptr[s.read[pc.k]].Nil? then SetPtr(Goto(s, t, DirtyLoop(pc.left - {pc.k})), s.read[pc.k], Expunged) else Goto(s, t, DirtyLoad(pc.k, pc.left)))
      else Goto(s, t, NewEntry).(amended := true);
    assert StepDirty(s, t, s');
    assert Step(s, t, s');
  }

  lemma PlainStep(s: State, t: Tid, op: Op, pc: PC)
    requires In(s, t, op, pc) && !AtDirty(pc) && !AtEntry(pc) && (pc.WantLock? ==> s.lock.None?)
    ensures CanStep(s, t)
  {
    var s' :=
      if pc.Done? then s.(threads := s.threads[t := Idle])
      else if pc.ReadFast? then StepReadFast(s, t)
      else if pc.WantLock? then Goto(s, t, ReadLocked).(lock := Some(t))
      else if pc.ReadLocked? then StepReadLocked(s, t)
      else if pc.Miss? then StepMiss(s, t)
      else if pc.RangePromote? then Promote(Goto(s, t, Unlock(RangeIter(DirtyMap(s), map[]))))
      else if pc.Unlock? then Goto(s, t, pc.next).(lock := None)
      else Goto(s, t, Done(Visited(pc.out, false)));
    assert Step(s, t, s');
  }

  lemma EntryStep(s: State, t: Tid, op: Op, pc: PC)
    requires In(s, t, op, pc) && HasEntry(s, pc) && (pc.AddDirty? ==> s.dirty.Some?)
    ensures CanStep(s, t)
  {
    assert Step(s, t, StepEntry(s, t));
  }

  /** The entry a thread is at exists. */
  lemma EntryThere(s: State, op: Op, pc: PC, hist: set<Contents>, acted: bool)
    requires Shared(s) && PcOk(s, op, pc, hist, acted) && AtEntry(pc)
    ensures HasEntry(s, pc)
  {
  }

  /**
    In every run a thread in a call can always take a step, unless it waits for the lock and another thread in a call holds it; and
    each step it takes brings it nearer to the end of the call as long as it is alone.
  */
  lemma NobodyIsStuck(run: seq<State>, i: nat, t: Tid)
    requires IsRun(run) && i < |run| && t in run[i].threads && run[i].threads[t].Busy?
    ensures CanStep(run[i], t) || (run[i].threads[t].pc.WantLock? && run[i].lock.Some? && run[i].lock.value != t
      && run[i].lock.value in run[i].threads && run[i].threads[run[i].lock.value].Busy?)
    ensures !run[i].threads[t].pc.Done? ==> forall s' :: Step(run[i], t, s') ==> Nearer(run[i], t, s')
  {
    RunInv(run, i);
    var s := run[i];
    var op, pc := s.threads[t].op, s.threads[t].pc;
    assert ThreadOk(s, t);
    if AtEntry(pc) { EntryThere(s, op, pc, s.threads[t].hist, s.threads[t].acted); EntryStep(s, t, op, pc); }
    else if pc.NewEntry? { NewEntryStep(s, t, op); }
    else if AtDirty(pc) { DirtyStep(s, t, op, pc); }
    else if !(pc.WantLock? && s.lock.Some?) { PlainStep(s, t, op, pc); }
    if !pc.Done? {
      forall s' | Step(s, t, s') ensures Nearer(s, t, s') { StepNearer(s, t, op, pc, s'); }
    }
  }
}
