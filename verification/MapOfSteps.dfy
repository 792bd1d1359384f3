/** Every atomic step of the MapOf protocol keeps the invariant and writes the plain map at most once. */
module MapOfSteps {
  import opened Options
  import opened MapOfProtocol
  import opened MapOfInvariant

  lemma SeenNow(s: State, hist: set<Contents>, k: Key)
    requires Abs(s) in hist
    ensures Seen(hist, k, CurVal(s, k))
  {
    AbsLookup(s, k);
    assert Abs(s) in hist && Lookup(Abs(s), k) == CurVal(s, k);
  }

  /** Outside `read` nothing is present unless `amended` says that `dirty` holds more. */
  lemma UnamendedIsAll(s: State, k: Key)
    requires Shared(s) && !s.amended && k !in s.read
    ensures Cur(s, k) == None
  {
  }

  lemma NotHolder(s: State, t: Tid)
    requires At(s, t) && !Locked(s.threads[t].pc)
    ensures s.lock != Some(t)
  {
  }

  lemma LockGood(s: State, t: Tid)
    requires At(s, t) && s.threads[t].pc.WantLock? && s.lock.None?
    ensures Good(s, t, Goto(s, t, ReadLocked).(lock := Some(t)))
  {
    assert ThreadOk(s, t);
    QuietStep(s, t, Goto(s, t, ReadLocked).(lock := Some(t)));
  }

  lemma UnlockGood(s: State, t: Tid)
    requires At(s, t) && s.threads[t].pc.Unlock?
    ensures Good(s, t, Goto(s, t, s.threads[t].pc.next).(lock := None))
  {
    assert ThreadOk(s, t);
    var next := s.threads[t].pc.next;
    var s' := Goto(s, t, next).(lock := None);
    QuietStep(s, t, s');
    PcShared(s, s', s.threads[t].op, next, s.threads[t].hist, s.threads[t].acted);
  }

  /** Steps that only move the pc of `t`, with or without the lock. */
  lemma MoveTo(s: State, t: Tid, pc: PC, s': State)
    requires At(s, t) && Locked(pc) == Locked(s.threads[t].pc)
    requires s.lock == Some(t) ==> MovingAt(s.threads[t].pc) <= MovingAt(pc)
    requires s.lock == Some(t) && Amending(s.threads[t].pc) ==> Amending(pc)
    requires PcOk(s, s.threads[t].op, pc, s.threads[t].hist, s.threads[t].acted)
    requires exists n: nat :: s' == Goto(s, t, pc).(misses := n)
    ensures Good(s, t, s')
  {
    assert ThreadOk(s, t);
    if s.lock != Some(t) { assert HolderPc(s') == HolderPc(s); }
    QuietStep(s, t, s');
    PcShared(s, s', s.threads[t].op, pc, s.threads[t].hist, s.threads[t].acted);
  }

  lemma MovePc(s: State, t: Tid, pc: PC)
    requires At(s, t) && Locked(pc) == Locked(s.threads[t].pc)
    requires s.lock == Some(t) ==> MovingAt(s.threads[t].pc) <= MovingAt(pc)
    requires s.lock == Some(t) && Amending(s.threads[t].pc) ==> Amending(pc)
    requires PcOk(s, s.threads[t].op, pc, s.threads[t].hist, s.threads[t].acted)
    ensures Good(s, t, Goto(s, t, pc))
  {
    assert Goto(s, t, pc) == Goto(s, t, pc).(misses := s.misses);
    MoveTo(s, t, pc, Goto(s, t, pc));
  }

  lemma ReadFastRange(s: State, t: Tid)
    requires At(s, t) && s.threads[t].pc.ReadFast? && s.threads[t].op.Range?
    ensures Good(s, t, StepReadFast(s, t))
  {
    assert ThreadOk(s, t);
    NotHolder(s, t);
    if s.amended {
      MovePc(s, t, WantLock);
    } else {
      forall k | k !in s.read ensures Seen(s.threads[t].hist, k, None) {
        UnamendedIsAll(s, k);
        SeenNow(s, s.threads[t].hist, k);
      }
      MovePc(s, t, RangeIter(s.read, map[]));
    }
  }

  lemma ReadFastHit(s: State, t: Tid)
    requires At(s, t) && s.threads[t].pc.ReadFast? && !s.threads[t].op.Range? && s.threads[t].op.key in s.read
    ensures Good(s, t, StepReadFast(s, t))
  {
    assert ThreadOk(s, t);
    NotHolder(s, t);
    var op := s.threads[t].op;
    MovePc(s, t, OnEntry(op, s.read[op.key]));
  }

  lemma ReadFastMiss(s: State, t: Tid)
    requires At(s, t) && s.threads[t].pc.ReadFast? && !s.threads[t].op.Range? && s.threads[t].op.key !in s.read
    ensures Good(s, t, StepReadFast(s, t))
  {
    assert ThreadOk(s, t);
    NotHolder(s, t);
    var op := s.threads[t].op;
    if op.Store? || op.LoadOrStore? || s.amended {
      MovePc(s, t, WantLock);
    } else {
      UnamendedIsAll(s, op.key);
      SeenNow(s, s.threads[t].hist, op.key);
      MovePc(s, t, Done(if op.Load? then Loaded(None) else Deleted));
    }
  }

  /** Replacing a live pointer of a current entry is a good step once the pc after it is. */
  lemma WriteGood(s: State, t: Tid, p: Ptr, pc: PC, s': State)
    requires At(s, t) && HasEntry(s, s.threads[t].pc) && !s.threads[t].acted
    requires Locked(pc) == Locked(s.threads[t].pc)
    requires s.lock == Some(t) ==> MovingAt(s.threads[t].pc) == {} && !Amending(s.threads[t].pc)
    requires Cur(s, s.threads[t].pc.e.key) == Some(s.threads[t].pc.e) && !s.ptr[s.threads[t].pc.e].Expunged?
    requires !s.threads[t].op.Range? && !s.threads[t].op.Load? && s.threads[t].pc.e.key == s.threads[t].op.key
    requires s' == SetPtr(Act(s, t, pc), s.threads[t].pc.e, p)
    requires s.threads[t].op.Delete? ==> p.Nil?
    requires s.threads[t].op.Store? ==> p == Val(s.threads[t].op.v, s.threads[t].op.addr)
    requires s.threads[t].op.LoadOrStore? ==> p == Val(s.threads[t].op.v, s.threads[t].op.addr) && s.ptr[s.threads[t].pc.e].Nil?
    requires PcOk(s', s.threads[t].op, pc, s.threads[t].hist, true)
    ensures Good(s, t, s')
  {
    assert ThreadOk(s, t);
    AbsLookup(s, s.threads[t].op.key);
    WritePtr(s, t, s.threads[t].pc.e, p, s');
  }

  lemma EntryLoadGood(s: State, t: Tid)
    requires At(s, t) && s.threads[t].pc.EntryLoad? && HasEntry(s, s.threads[t].pc)
    ensures Good(s, t, StepEntry(s, t))
  {
    assert ThreadOk(s, t);
    var th := s.threads[t];
    if Cur(s, th.op.key) == Some(th.pc.e) { SeenNow(s, th.hist, th.op.key); }
    MovePc(s, t, Done(Loaded(PtrVal(s.ptr[th.pc.e]))));
  }

  lemma TryStoreGood(s: State, t: Tid)
    requires At(s, t) && (s.threads[t].pc.TryStoreLoad? || s.threads[t].pc.TryStoreCas?)
    requires HasEntry(s, s.threads[t].pc)
    ensures Good(s, t, StepEntry(s, t))
  {
    assert ThreadOk(s, t);
    NotHolder(s, t);
    var th := s.threads[t];
    var e := th.pc.e;
    if th.pc.TryStoreLoad? {
      MovePc(s, t, if s.ptr[e].Expunged? then WantLock else TryStoreCas(e, s.ptr[e]));
    } else if s.ptr[e] == th.pc.p {
      PublishedCurrent(s, e);
      WriteGood(s, t, Val(th.op.v, th.op.addr), Done(Stored), StepEntry(s, t));
    } else {
      MovePc(s, t, TryStoreLoad(e));
    }
  }

  lemma LosOnCurrent(s: State, t: Tid)
    requires At(s, t) && (s.threads[t].pc.TryLos? || s.threads[t].pc.LosCas?) && HasEntry(s, s.threads[t].pc)
    ensures s.threads[t].op.LoadOrStore? && s.threads[t].pc.e.key == s.threads[t].op.key
    ensures !s.ptr[s.threads[t].pc.e].Expunged? ==> Cur(s, s.threads[t].op.key) == Some(s.threads[t].pc.e)
    ensures s.ptr[s.threads[t].pc.e].Expunged? ==> s.threads[t].pc.path.Fast?
  {
    assert ThreadOk(s, t);
  }

  lemma LosLoadValue(s: State, t: Tid)
    requires At(s, t) && s.threads[t].pc.TryLos? && HasEntry(s, s.threads[t].pc) && s.ptr[s.threads[t].pc.e].Val?
    ensures Good(s, t, StepEntry(s, t))
  {
    assert ThreadOk(s, t);
    LosOnCurrent(s, t);
    var th := s.threads[t];
    SeenNow(s, th.hist, th.op.key);
    MovePc(s, t, AfterLos(th.pc.path, Got(s.ptr[th.pc.e].v, true)));
  }

  lemma LosLoadNone(s: State, t: Tid)
    requires At(s, t) && s.threads[t].pc.TryLos? && HasEntry(s, s.threads[t].pc) && !s.ptr[s.threads[t].pc.e].Val?
    ensures Good(s, t, StepEntry(s, t))
  {
    assert ThreadOk(s, t);
    LosOnCurrent(s, t);
    var th := s.threads[t];
    MovePc(s, t, if s.ptr[th.pc.e].Expunged? then WantLock else LosCas(th.pc.e, th.pc.path));
  }

  lemma LosCasGood(s: State, t: Tid)
    requires At(s, t) && s.threads[t].pc.LosCas? && HasEntry(s, s.threads[t].pc)
    ensures Good(s, t, StepEntry(s, t))
  {
    assert ThreadOk(s, t);
    LosOnCurrent(s, t);
    var th := s.threads[t];
    var e, path := th.pc.e, th.pc.path;
    if s.ptr[e].Nil? {
      WriteGood(s, t, Val(th.op.v, th.op.addr), AfterLos(path, Got(th.op.v, false)), StepEntry(s, t));
    } else {
      MovePc(s, t, TryLos(e, path));
    }
  }

  lemma DeleteEntryGood(s: State, t: Tid)
    requires At(s, t) && (s.threads[t].pc.DelLoad? || s.threads[t].pc.DelCas?) && HasEntry(s, s.threads[t].pc)
    ensures Good(s, t, StepEntry(s, t))
  {
    assert ThreadOk(s, t);
    NotHolder(s, t);
    var th := s.threads[t];
    var e := th.pc.e;
    var p := s.ptr[e];
    if th.pc.DelLoad? {
      if p.Val? { MovePc(s, t, DelCas(e, p)); }
      else {
        if Cur(s, th.op.key) == Some(e) { SeenNow(s, th.hist, th.op.key); }
        MovePc(s, t, Done(Deleted));
      }
    } else if p == th.pc.p {
      PublishedCurrent(s, e);
      WriteGood(s, t, Nil, Done(Deleted), StepEntry(s, t));
    } else {
      MovePc(s, t, DelLoad(e));
    }
  }

  lemma UnexpungeGood(s: State, t: Tid)
    requires At(s, t) && s.threads[t].pc.Unexpunge? && HasEntry(s, s.threads[t].pc)
    ensures Good(s, t, StepEntry(s, t))
  {
    assert ThreadOk(s, t);
    var th := s.threads[t];
    var e := th.pc.e;
    if s.ptr[e].Expunged? {
      var s' := StepEntry(s, t);
      CurOwn(s);
      forall k ensures CurVal(s', k) == CurVal(s, k) { assert Cur(s', k) == Cur(s, k); }
      AbsSame(s, s');
    } else {
      MovePc(s, t, if th.op.Store? then StoreLocked(e) else TryLos(e, ViaRead));
    }
  }

  lemma AddDirtyGood(s: State, t: Tid)
    requires At(s, t) && s.threads[t].pc.AddDirty? && HasEntry(s, s.threads[t].pc)
    ensures Good(s, t, StepEntry(s, t))
  {
    assert ThreadOk(s, t);
    var s' := StepEntry(s, t);
    forall k ensures Cur(s', k) == Cur(s, k) { }
    AbsSame(s, s');
  }

  lemma StoreLockedGood(s: State, t: Tid)
    requires At(s, t) && s.threads[t].pc.StoreLocked? && HasEntry(s, s.threads[t].pc)
    ensures Good(s, t, StepEntry(s, t))
  {
    assert ThreadOk(s, t);
    CurOwn(s);
    var th := s.threads[t];
    WriteGood(s, t, Val(th.op.v, th.op.addr), Unlock(Done(Stored)), StepEntry(s, t));
  }

  lemma DeleteLockedAbs(s: State, t: Tid)
    requires At(s, t) && s.threads[t].pc.ReadLocked? && s.threads[t].op.Delete?
    requires s.threads[t].op.key !in s.read && s.amended
    ensures Abs(StepReadLocked(s, t)) == Abs(s) - {s.threads[t].op.key}
  {
    var s', k := StepReadLocked(s, t), s.threads[t].op.key;
    forall j | j != k ensures CurVal(s', j) == CurVal(s, j) { assert Cur(s', j) == Cur(s, j); }
    AbsRemove(s, s', k);
  }

  lemma DeleteLockedGood(s: State, t: Tid)
    requires At(s, t) && s.threads[t].pc.ReadLocked? && s.threads[t].op.Delete?
    requires s.threads[t].op.key !in s.read && s.amended
    ensures Good(s, t, StepReadLocked(s, t))
  {
    assert ThreadOk(s, t);
    DeleteLockedAbs(s, t);
  }

  lemma ReadLockedRange(s: State, t: Tid)
    requires At(s, t) && s.threads[t].pc.ReadLocked? && s.threads[t].op.Range?
    ensures Good(s, t, StepReadLocked(s, t))
  {
    assert ThreadOk(s, t);
    if s.amended {
      MovePc(s, t, RangePromote);
    } else {
      forall k | k !in s.read ensures Seen(s.threads[t].hist, k, None) {
        UnamendedIsAll(s, k);
        SeenNow(s, s.threads[t].hist, k);
      }
      MovePc(s, t, Unlock(RangeIter(s.read, map[])));
    }
  }

  lemma ReadLockedLoad(s: State, t: Tid)
    requires At(s, t) && s.threads[t].pc.ReadLocked? && s.threads[t].op.Load?
    ensures Good(s, t, StepReadLocked(s, t))
  {
    assert ThreadOk(s, t);
    var k, d := s.threads[t].op.key, DirtyMap(s);
    SeenNow(s, s.threads[t].hist, k);
    MovePc(s, t, if k in s.read then Unlock(EntryLoad(s.read[k]))
                 else if s.amended then Miss(if k in d then EntryLoad(d[k]) else Done(Loaded(None)))
                 else Unlock(Done(Loaded(None))));
  }

  lemma ReadLockedDelete(s: State, t: Tid)
    requires At(s, t) && s.threads[t].pc.ReadLocked? && s.threads[t].op.Delete?
    ensures Good(s, t, StepReadLocked(s, t))
  {
    assert ThreadOk(s, t);
    var k := s.threads[t].op.key;
    if k !in s.read && s.amended {
      DeleteLockedGood(s, t);
    } else {
      SeenNow(s, s.threads[t].hist, k);
      MovePc(s, t, Unlock(if k in s.read then DelLoad(s.read[k]) else Done(Deleted)));
    }
  }

  lemma ReadLockedStore(s: State, t: Tid)
    requires At(s, t) && s.threads[t].pc.ReadLocked? && (s.threads[t].op.Store? || s.threads[t].op.LoadOrStore?)
    ensures Good(s, t, StepReadLocked(s, t))
  {
    assert ThreadOk(s, t);
    var k, d := s.threads[t].op.key, DirtyMap(s);
    MovePc(s, t, if k in s.read then Unexpunge(s.read[k])
                 else if k in d then (if s.threads[t].op.Store? then StoreLocked(d[k]) else TryLos(d[k], ViaDirty))
                 else if s.amended then NewEntry else DirtyStart);
  }

  /** Promotion publishes `dirty` as the read map and changes no key's value. */
  lemma PromoteGood(s: State, t: Tid, next: PC)
    requires At(s, t) && s.lock == Some(t) && s.dirty.Some? && s.amended
    requires MovingAt(s.threads[t].pc) == {}
    requires next.Done? || next.EntryLoad?
    requires PcOk(s, s.threads[t].op, next, s.threads[t].hist, s.threads[t].acted)
    ensures Good(s, t, Promote(Goto(s, t, Unlock(next))))
    ensures Abs(Promote(Goto(s, t, Unlock(next)))) == Abs(s)
  {
    var s' := Promote(Goto(s, t, Unlock(next)));
    PromoteShared(s, t, s');
    OtherKeeps(s, s', s.threads[t].op, next, s.threads[t].hist, s.threads[t].acted);
  }

  lemma PromoteShared(s: State, t: Tid, s': State)
    requires At(s, t) && s.lock == Some(t) && s.dirty.Some? && s.amended
    requires MovingAt(s.threads[t].pc) == {}
    requires OthersSame(s, t, s') && s'.threads[t].Busy? && s'.threads[t].pc.Unlock? && s'.lock == s.lock
    requires s'.ptr == s.ptr && s'.read == s.dirty.value && !s'.amended && s'.dirty == None
    requires s'.published == s.published + s.dirty.value.Values
    ensures Shared(s') && Frame(s, s') && Abs(s') == Abs(s)
    ensures Abs(s) in s.threads[t].hist
  {
    assert ThreadOk(s, t);
    var d := s.dirty.value;
    assert forall k :: k in d ==> d[k] in d.Values;
    assert Moving(s) == {};
    forall k ensures CurVal(s', k) == CurVal(s, k) {
      if k in s.read && k !in d { assert s.ptr[s.read[k]].Expunged?; }
    }
    AbsSame(s, s');
    forall e | e in s'.published && e !in s.published
      ensures e in s.ptr && !s.ptr[e].Expunged? && e.key in d && d[e.key] == e
    {
      var k :| k in d && d[k] == e;
    }
  }

  lemma MissCountGood(s: State, t: Tid)
    requires At(s, t) && s.threads[t].pc.Miss? && s.misses + 1 < |DirtyMap(s)|
    ensures Good(s, t, StepMiss(s, t))
  {
    assert ThreadOk(s, t);
    var pc, s' := Unlock(s.threads[t].pc.next), StepMiss(s, t);
    assert PcOk(s, s.threads[t].op, pc, s.threads[t].hist, s.threads[t].acted);
    assert s' == Goto(s, t, pc).(misses := s.misses + 1);
    MoveTo(s, t, pc, s');
  }

  lemma MissPromoteGood(s: State, t: Tid)
    requires At(s, t) && s.threads[t].pc.Miss? && s.misses + 1 >= |DirtyMap(s)|
    ensures Good(s, t, StepMiss(s, t))
  {
    assert ThreadOk(s, t);
    PromoteGood(s, t, s.threads[t].pc.next);
  }

  lemma RangePromoteGood(s: State, t: Tid)
    requires At(s, t) && s.threads[t].pc.RangePromote?
    ensures Good(s, t, Promote(Goto(s, t, Unlock(RangeIter(DirtyMap(s), map[])))))
  {
    assert ThreadOk(s, t);
    var th := s.threads[t];
    var s' := Promote(Goto(s, t, Unlock(RangeIter(DirtyMap(s), map[]))));
    PromoteShared(s, t, s');
    forall k | k !in DirtyMap(s) ensures Seen(th.hist, k, None) {
      SeenNow(s, th.hist, k);
      AbsLookup(s, k);
      AbsLookup(s', k);
    }
  }

  lemma DirtyStartGood(s: State, t: Tid, s': State)
    requires At(s, t) && s.threads[t].pc.DirtyStart? && StepDirty(s, t, s')
    ensures Good(s, t, s')
  {
    assert ThreadOk(s, t);
    forall k ensures Cur(s', k) == Cur(s, k) { }
    AbsSame(s, s');
  }

  lemma DirtyLoopGood(s: State, t: Tid, s': State)
    requires At(s, t) && s.threads[t].pc.DirtyLoop? && StepDirty(s, t, s')
    ensures Good(s, t, s')
  {
    assert ThreadOk(s, t);
    var left := s.threads[t].pc.left;
    if left == {} {
      MovePc(s, t, Amend);
    } else {
      var pick :| pick in left && s' == Goto(s, t, DirtyLoad(pick, left));
      MovePc(s, t, DirtyLoad(pick, left));
    }
  }

  lemma DirtyLoadGood(s: State, t: Tid, s': State)
    requires At(s, t) && s.threads[t].pc.DirtyLoad? && StepDirty(s, t, s')
    ensures Good(s, t, s')
  {
    assert ThreadOk(s, t);
    var k, left := s.threads[t].pc.k, s.threads[t].pc.left;
    var e := s.read[k];
    if s.ptr[e].Nil? {
      MovePc(s, t, DirtyCas(k, left));
    } else {
      assert HolderPc(s') == DirtyLoop(left - {k});
      forall j ensures Cur(s', j) == Cur(s, j) { }
      AbsSame(s, s');
    }
  }

  lemma DirtyCasGood(s: State, t: Tid, s': State)
    requires At(s, t) && s.threads[t].pc.DirtyCas? && StepDirty(s, t, s')
    ensures Good(s, t, s')
  {
    assert ThreadOk(s, t);
    var k, left := s.threads[t].pc.k, s.threads[t].pc.left;
    var e := s.read[k];
    if s.ptr[e].Nil? {
      assert HolderPc(s') == DirtyLoop(left - {k});
      CurOwn(s);
      forall j ensures CurVal(s', j) == CurVal(s, j) { assert Cur(s', j) == Cur(s, j); }
      AbsSame(s, s');
    } else {
      MovePc(s, t, DirtyLoad(k, left));
    }
  }

  lemma AmendGood(s: State, t: Tid, s': State)
    requires At(s, t) && s.threads[t].pc.Amend? && StepDirty(s, t, s')
    ensures Good(s, t, s')
  {
    assert ThreadOk(s, t);
    forall j ensures Cur(s', j) == Cur(s, j) { }
    AbsSame(s, s');
  }

  lemma NewEntryShared(s: State, t: Tid, id: nat)
    requires At(s, t) && s.threads[t].pc.NewEntry? && ThreadOk(s, t) && s.dirty.Some?
    requires s.threads[t].op.Store? || s.threads[t].op.LoadOrStore?
    requires Ref(s.threads[t].op.key, id) !in s.ptr
    ensures Shared(WithNewEntry(s, t, id)) && Frame(s, WithNewEntry(s, t, id))
  {
  }

  lemma NewEntryAbs(s: State, t: Tid, id: nat)
    requires At(s, t) && s.threads[t].pc.NewEntry? && ThreadOk(s, t) && s.dirty.Some?
    requires s.threads[t].op.Store? || s.threads[t].op.LoadOrStore?
    requires Ref(s.threads[t].op.key, id) !in s.ptr
    ensures s.threads[t].op.key !in Abs(s)
    ensures Abs(WithNewEntry(s, t, id)) == Abs(s)[s.threads[t].op.key := s.threads[t].op.v]
  {
    var s', op := WithNewEntry(s, t, id), s.threads[t].op;
    CurOwn(s);
    forall j | j != op.key ensures CurVal(s', j) == CurVal(s, j) { assert Cur(s', j) == Cur(s, j); }
    AbsLookup(s, op.key);
    AbsUpdate(s, s', op.key, op.v);
  }

  lemma NewEntryOwn(s: State, t: Tid, id: nat)
    requires At(s, t) && s.threads[t].pc.NewEntry? && ThreadOk(s, t) && s.dirty.Some?
    requires s.threads[t].op.Store? || s.threads[t].op.LoadOrStore?
    ensures OthersSame(s, t, WithNewEntry(s, t, id)) && s.lock == Some(t) && WithNewEntry(s, t, id).lock == s.lock
    ensures WithNewEntry(s, t, id).threads[t].Busy? && WithNewEntry(s, t, id).threads[t].op == s.threads[t].op
    ensures WithNewEntry(s, t, id).threads[t].hist == s.threads[t].hist && WithNewEntry(s, t, id).threads[t].acted
    ensures PcOk(WithNewEntry(s, t, id), s.threads[t].op, WithNewEntry(s, t, id).threads[t].pc, s.threads[t].hist, true)
  {
  }

  lemma NewEntryAt(s: State, t: Tid, id: nat)
    requires At(s, t) && s.threads[t].pc.NewEntry? && s.dirty.Some?
    requires s.threads[t].op.Store? || s.threads[t].op.LoadOrStore?
    requires Ref(s.threads[t].op.key, id) !in s.ptr
    ensures Good(s, t, WithNewEntry(s, t, id))
  {
    assert ThreadOk(s, t);
    NewEntryOwn(s, t, id);
    NewEntryShared(s, t, id);
    NewEntryAbs(s, t, id);
    var s' := WithNewEntry(s, t, id);
    assert Linear(s, t, s');
  }

  lemma NewEntryGood(s: State, t: Tid, s': State)
    requires At(s, t) && s.threads[t].pc.NewEntry? && StepNewEntry(s, t, s')
    ensures Good(s, t, s')
  {
    var id: nat :| Ref(s.threads[t].op.key, id) !in s.ptr && s' == WithNewEntry(s, t, id);
    NewEntryAt(s, t, id);
  }

  lemma VisitGood(s: State, t: Tid, k: Key)
    requires At(s, t) && s.threads[t].pc.RangeIter?
    requires k in s.threads[t].pc.todo && s.threads[t].pc.todo[k] in s.ptr
    ensures Good(s, t, Goto(s, t, AfterVisit(s, s.threads[t].pc.todo, s.threads[t].pc.out, k)))
  {
    assert ThreadOk(s, t);
    NotHolder(s, t);
    var th := s.threads[t];
    var e := th.pc.todo[k];
    assert Tracks(s, th.hist, k, e);
    if Cur(s, k) == Some(e) { SeenNow(s, th.hist, k); }
    MovePc(s, t, AfterVisit(s, th.pc.todo, th.pc.out, k));
  }

  lemma RangeGood(s: State, t: Tid, s': State)
    requires At(s, t) && s.threads[t].pc.RangeIter? && StepRange(s, t, s')
    ensures Good(s, t, s')
  {
    assert ThreadOk(s, t);
    NotHolder(s, t);
    var todo, out := s.threads[t].pc.todo, s.threads[t].pc.out;
    if todo == map[] && s' == Goto(s, t, Done(Visited(out, true))) {
      MovePc(s, t, Done(Visited(out, true)));
    } else if s' == Goto(s, t, Done(Visited(out, false))) {
      MovePc(s, t, Done(Visited(out, false)));
    } else {
      var k :| k in todo && todo[k] in s.ptr && s' == Goto(s, t, AfterVisit(s, todo, out, k));
      VisitGood(s, t, k);
    }
  }
}
