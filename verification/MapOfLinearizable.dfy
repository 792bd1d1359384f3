/** The main results about every run of the MapOf protocol. */
module MapOfLinearizable {
  import opened Options
  import opened MapOfProtocol
  import opened MapOfInvariant
  import opened MapOfSteps

  lemma EntryGood(s: State, t: Tid)
    requires At(s, t) && HasEntry(s, s.threads[t].pc)
    ensures Good(s, t, StepEntry(s, t))
  {
    match s.threads[t].pc
    case EntryLoad(_) => EntryLoadGood(s, t);
    case TryStoreLoad(_) => TryStoreGood(s, t);
    case TryStoreCas(_, _) => TryStoreGood(s, t);
    case TryLos(e, _) => if s.ptr[e].Val? { LosLoadValue(s, t); } else { LosLoadNone(s, t); }
    case LosCas(_, _) => LosCasGood(s, t);
    case DelLoad(_) => DeleteEntryGood(s, t);
    case DelCas(_, _) => DeleteEntryGood(s, t);
    case Unexpunge(_) => UnexpungeGood(s, t);
    case AddDirty(_) => AddDirtyGood(s, t);
    case StoreLocked(_) => StoreLockedGood(s, t);
  }

  lemma ReadGood(s: State, t: Tid)
    requires At(s, t)
    ensures s.threads[t].pc.ReadFast? ==> Good(s, t, StepReadFast(s, t))
    ensures s.threads[t].pc.ReadLocked? ==> Good(s, t, StepReadLocked(s, t))
  {
    var op := s.threads[t].op;
    if s.threads[t].pc.ReadFast? {
      if op.Range? { ReadFastRange(s, t); }
      else if op.key in s.read { ReadFastHit(s, t); }
      else { ReadFastMiss(s, t); }
    } else if s.threads[t].pc.ReadLocked? {
      match op
      case Range => ReadLockedRange(s, t);
      case Load(_) => ReadLockedLoad(s, t);
      case Delete(_) => ReadLockedDelete(s, t);
      case Store(_, _, _) => ReadLockedStore(s, t);
      case LoadOrStore(_, _, _) => ReadLockedStore(s, t);
    }
  }

  lemma DirtyGood(s: State, t: Tid, s': State)
    requires At(s, t) && StepDirty(s, t, s')
    ensures Good(s, t, s')
  {
    match s.threads[t].pc
    case DirtyStart => DirtyStartGood(s, t, s');
    case DirtyLoop(_) => DirtyLoopGood(s, t, s');
    case DirtyLoad(_, _) => DirtyLoadGood(s, t, s');
    case DirtyCas(_, _) => DirtyCasGood(s, t, s');
    case Amend => AmendGood(s, t, s');
  }

  /** One step inside a call keeps the shared invariant, tells other threads nothing false, and writes at most once. */
  lemma StepGood(s: State, t: Tid, s': State)
    requires At(s, t) && Step(s, t, s') && !s.threads[t].pc.Done?
    ensures Good(s, t, s')
  {
    match s.threads[t].pc
    case ReadFast => ReadGood(s, t);
    case ReadLocked => ReadGood(s, t);
    case WantLock => LockGood(s, t);
    case Unlock(_) => UnlockGood(s, t);
    case Miss(_) => if s.misses + 1 < |DirtyMap(s)| { MissCountGood(s, t); } else { MissPromoteGood(s, t); }
    case RangePromote => RangePromoteGood(s, t);
    case NewEntry => NewEntryGood(s, t, s');
    case RangeIter(_, _) => RangeGood(s, t, s');
    case DirtyStart => DirtyGood(s, t, s');
    case DirtyLoop(_) => DirtyGood(s, t, s');
    case DirtyLoad(_, _) => DirtyGood(s, t, s');
    case DirtyCas(_, _) => DirtyGood(s, t, s');
    case Amend => DirtyGood(s, t, s');
    case _ => EntryGood(s, t);
  }

  /** What every thread still has after a step, before it records the new contents. */
  ghost predicate Almost(s: State) {
    && Shared(s)
    && forall t :: t in s.threads && s.threads[t].Busy? ==>
         && (Locked(s.threads[t].pc) ==> s.lock == Some(t))
         && PcOk(s, s.threads[t].op, s.threads[t].pc, s.threads[t].hist, s.threads[t].acted)
  }

  lemma ObserveKeeps(s: State)
    requires Almost(s)
    ensures Inv(Observe(s)) && Abs(Observe(s)) == Abs(s)
  {
    var s' := Observe(s);
    AbsSame(s, s');
    assert HolderPc(s') == HolderPc(s);
    forall t ensures ThreadOk(s', t) {
      if t in s.threads && s.threads[t].Busy? {
        var th := s.threads[t];
        HistGrows(s, th.op, th.pc, th.hist, th.hist + {Abs(s)}, th.acted);
        PcShared(s, s', th.op, th.pc, th.hist + {Abs(s)}, th.acted);
      }
    }
  }

  lemma GoodAlmost(s: State, t: Tid, s': State)
    requires At(s, t) && Good(s, t, s')
    ensures Almost(s')
  {
    forall u | u in s'.threads && s'.threads[u].Busy?
      ensures Locked(s'.threads[u].pc) ==> s'.lock == Some(u)
      ensures PcOk(s', s'.threads[u].op, s'.threads[u].pc, s'.threads[u].hist, s'.threads[u].acted)
    {
      if u != t {
        assert ThreadOk(s, u);
        var th := s.threads[u];
        OtherKeeps(s, s', th.op, th.pc, th.hist, th.acted);
      }
    }
  }

  /** Only the entry of `t` in the thread table changes, and `t` does not hold the lock. */
  ghost predicate BorderShape(s: State, t: Tid, s': State) {
    && SameShared(s, s') && s'.lock == s.lock && s.lock != Some(t)
    && t in s'.threads && (forall u :: u != t ==> (u in s'.threads <==> u in s.threads))
    && (forall u :: u != t && u in s.threads ==> s'.threads[u] == s.threads[u])
  }

  lemma BorderShared(s: State, t: Tid, s': State)
    requires Shared(s) && BorderShape(s, t, s')
    ensures Shared(s') && Abs(s') == Abs(s)
  {
    AbsSame(s, s');
    assert HolderPc(s') == HolderPc(s);
  }

  lemma BorderOther(s: State, t: Tid, s': State, u: Tid)
    requires Inv(s) && BorderShape(s, t, s') && u != t && u in s'.threads && s'.threads[u].Busy?
    ensures Locked(s'.threads[u].pc) ==> s'.lock == Some(u)
    ensures PcOk(s', s'.threads[u].op, s'.threads[u].pc, s'.threads[u].hist, s'.threads[u].acted)
  {
    assert ThreadOk(s, u);
    PcShared(s, s', s.threads[u].op, s.threads[u].pc, s.threads[u].hist, s.threads[u].acted);
  }

  predicate AtBorder(s: State, t: Tid) {
    t !in s.threads || s.threads[t].Idle? || s.threads[t].pc.Done?
  }

  /** A call begins or returns. */
  lemma BorderStep(s: State, t: Tid, s': State)
    requires Inv(s) && Step(s, t, s') && AtBorder(s, t)
    ensures BorderShape(s, t, s') && Almost(s') && Abs(s') == Abs(s)
  {
    assert LockInv(s);
    assert BorderShape(s, t, s');
    BorderShared(s, t, s');
    forall u | u in s'.threads && s'.threads[u].Busy? && u != t
      ensures Locked(s'.threads[u].pc) ==> s'.lock == Some(u)
      ensures PcOk(s', s'.threads[u].op, s'.threads[u].pc, s'.threads[u].hist, s'.threads[u].acted)
    {
      BorderOther(s, t, s', u);
    }
  }

  lemma StepAlmost(s: State, t: Tid, s': State)
    requires Inv(s) && Step(s, t, s')
    ensures Almost(s')
  {
    if AtBorder(s, t) {
      BorderStep(s, t, s');
    } else {
      StepGood(s, t, s');
      GoodAlmost(s, t, s');
    }
  }

  lemma InitInv(s: State)
    requires Init(s)
    ensures Inv(s)
  {
  }

  lemma NextInv(s: State, s': State)
    requires Inv(s) && Next(s, s')
    ensures Inv(s')
  {
    var t, mid :| Step(s, t, mid) && s' == Observe(mid);
    StepAlmost(s, t, mid);
    ObserveKeeps(mid);
  }

  lemma {:induction false} RunInv(run: seq<State>, i: nat)
    requires IsRun(run) && i < |run|
    ensures Inv(run[i])
  {
    if i == 0 {
      InitInv(run[0]);
    } else {
      RunInv(run, i - 1);
      assert StepAt(run, i - 1);
      NextInv(run[i - 1], run[i]);
    }
  }

  // ----- entries are never lost

  lemma NextPublished(s: State, s': State)
    requires Inv(s) && Next(s, s')
    ensures s.published <= s'.published
  {
    var t, mid :| Step(s, t, mid) && s' == Observe(mid);
    if AtBorder(s, t) { BorderStep(s, t, mid); } else { StepGood(s, t, mid); }
  }

  lemma {:induction false} ReadEntryPublished(run: seq<State>, j: nat, i: nat, k: Key)
    requires IsRun(run) && j <= i < |run| && k in run[j].read
    ensures run[j].read[k] in run[i].published
    decreases i
  {
    if i == j {
      RunInv(run, i);
    } else {
      ReadEntryPublished(run, j, i - 1, k);
      RunInv(run, i - 1);
      assert StepAt(run, i - 1);
      NextPublished(run[i - 1], run[i]);
    }
  }

  /**
    An entry that a read map ever held and that is not expunged is still its key's entry in the
    read map, and in `dirty` too when there is one, unless the lock holder is moving that very key.
  */
  lemma PublishedEntryStaysCurrent(run: seq<State>, j: nat, i: nat, k: Key)
    requires IsRun(run) && j <= i < |run| && k in run[j].read
    ensures run[j].read[k] in run[i].ptr
    ensures !run[i].ptr[run[j].read[k]].Expunged? ==>
      && k in run[i].read && run[i].read[k] == run[j].read[k]
      && (run[i].dirty.Some? && k !in Moving(run[i]) ==>
          k in run[i].dirty.value && run[i].dirty.value[k] == run[j].read[k])
  {
    RunInv(run, j);
    RunInv(run, i);
    ReadEntryPublished(run, j, i, k);
  }

  // ----- linearizability

  /** Thread `t` is inside one and the same call of `op` at every state from `n` to `j`. */
  ghost predicate InCall(run: seq<State>, t: Tid, op: Op, n: nat, j: nat) {
    n <= j < |run| && forall q :: n <= q <= j ==> Calling(run[q], t, op)
  }

  predicate Calling(s: State, t: Tid, op: Op) {
    t in s.threads && s.threads[t].Busy? && s.threads[t].op == op
  }

  predicate Effect(op: Op, before: Contents, after: Contents) {
    match op
    case Store(k, v, _) => after == before[k := v]
    case LoadOrStore(k, v, _) => k !in before && after == before[k := v]
    case Delete(k) => after == before - {k}
    case _ => false
  }

  /** How a thread inside a call at `s'` relates to the state before. */
  ghost predicate CallStep(s: State, u: Tid, s': State)
    requires u in s'.threads && s'.threads[u].Busy?
  {
    var th' := s'.threads[u];
    if u in s.threads && s.threads[u].Busy? then
      var th := s.threads[u];
      && th'.op == th.op && th'.hist == th.hist + {Abs(s')}
      && (th.acted ==> th'.acted)
      && (th'.acted != th.acted ==> Effect(th.op, Abs(s), Abs(s')))
    else th'.hist == {Abs(s')} && !th'.acted
  }

  /** `CallStep` before the step's result has been recorded. */
  ghost predicate MidStep(s: State, u: Tid, mid: State)
    requires u in mid.threads && mid.threads[u].Busy?
  {
    var th' := mid.threads[u];
    if u in s.threads && s.threads[u].Busy? then
      var th := s.threads[u];
      && th'.op == th.op && th'.hist == th.hist && (th.acted ==> th'.acted)
      && (th'.acted != th.acted ==> Effect(th.op, Abs(s), Abs(mid)))
    else th'.hist == {Abs(mid)} && !th'.acted
  }

  lemma GoodMid(s: State, t: Tid, mid: State, u: Tid)
    requires At(s, t) && Good(s, t, mid) && u in mid.threads && mid.threads[u].Busy?
    ensures MidStep(s, u, mid)
  {
    assert Linear(s, t, mid);
  }

  lemma StepMid(s: State, t: Tid, mid: State, u: Tid)
    requires Inv(s) && Step(s, t, mid) && u in mid.threads && mid.threads[u].Busy?
    ensures MidStep(s, u, mid)
  {
    if AtBorder(s, t) {
      BorderStep(s, t, mid);
    } else {
      StepGood(s, t, mid);
      GoodMid(s, t, mid, u);
    }
  }

  lemma NextCall(s: State, s': State, u: Tid)
    requires Inv(s) && Next(s, s') && u in s'.threads && s'.threads[u].Busy?
    ensures CallStep(s, u, s')
  {
    var t, mid :| Step(s, t, mid) && s' == Observe(mid);
    StepAlmost(s, t, mid);
    ObserveKeeps(mid);
    StepMid(s, t, mid, u);
  }

  /** The contents change only when some call in progress makes its one write. */
  lemma OnlyCallsWrite(s: State, s': State) returns (t: Tid)
    requires Inv(s) && Next(s, s')
    ensures Abs(s') != Abs(s) ==>
      && t in s.threads && s.threads[t].Busy? && t in s'.threads && s'.threads[t].Busy?
      && s'.threads[t].op == s.threads[t].op && !s.threads[t].acted && s'.threads[t].acted
      && Effect(s.threads[t].op, Abs(s), Abs(s'))
  {
    var u, mid :| Step(s, u, mid) && s' == Observe(mid);
    t := u;
    StepAlmost(s, t, mid);
    ObserveKeeps(mid);
    if AtBorder(s, t) {
      BorderStep(s, t, mid);
    } else {
      StepGood(s, t, mid);
    }
  }

  lemma GrownHist(s: State, s': State, u: Tid, m: Contents)
    requires u in s'.threads && s'.threads[u].Busy? && CallStep(s, u, s')
    requires m in s'.threads[u].hist && m != Abs(s')
    ensures Calling(s, u, s'.threads[u].op) && m in s.threads[u].hist
  {
  }

  lemma RunCall(run: seq<State>, t: Tid, op: Op, j: nat)
    requires IsRun(run) && 0 < j < |run| && Calling(run[j], t, op)
    ensures CallStep(run[j - 1], t, run[j])
  {
    RunInv(run, j - 1);
    assert StepAt(run, j - 1);
    NextCall(run[j - 1], run[j], t);
  }

  lemma {:induction false} HistWitness(run: seq<State>, t: Tid, op: Op, j: nat, m: Contents) returns (n: nat)
    requires IsRun(run) && j < |run| && Calling(run[j], t, op) && m in run[j].threads[t].hist
    ensures InCall(run, t, op, n, j) && Abs(run[n]) == m
    decreases j
  {
    if m == Abs(run[j]) {
      n := j;
    } else {
      assert j > 0;
      RunCall(run, t, op, j);
      GrownHist(run[j - 1], run[j], t, m);
      n := HistWitness(run, t, op, j - 1, m);
    }
  }

  lemma ActedBefore(run: seq<State>, t: Tid, op: Op, j: nat)
    requires IsRun(run) && InCall(run, t, op, j, j) && run[j].threads[t].acted
    ensures j > 0 && InCall(run, t, op, j - 1, j - 1)
    ensures run[j - 1].threads[t].acted || Effect(op, Abs(run[j - 1]), Abs(run[j]))
  {
    assert j > 0;
    RunCall(run, t, op, j);
  }

  lemma {:induction false} WriteWitness(run: seq<State>, t: Tid, op: Op, j: nat) returns (n: nat)
    requires IsRun(run) && InCall(run, t, op, j, j) && run[j].threads[t].acted
    ensures n < j && InCall(run, t, op, n, j) && Effect(op, Abs(run[n]), Abs(run[n + 1]))
    ensures !run[n].threads[t].acted && forall q :: n < q <= j ==> Calling(run[q], t, op) && run[q].threads[t].acted
    decreases j
  {
    ActedBefore(run, t, op, j);
    if run[j - 1].threads[t].acted {
      n := WriteWitness(run, t, op, j - 1);
    } else {
      n := j - 1;
    }
  }

  /** A returned Load gave a value its key had at some moment of the call. */
  lemma LoadLinearizes(run: seq<State>, t: Tid, k: Key, j: nat) returns (n: nat)
    requires IsRun(run) && InCall(run, t, Load(k), j, j) && run[j].threads[t].pc.Done?
    ensures run[j].threads[t].pc.res.Loaded?
    ensures InCall(run, t, Load(k), n, j) && Lookup(Abs(run[n]), k) == run[j].threads[t].pc.res.found
  {
    RunInv(run, j);
    assert ThreadOk(run[j], t);
    var th := run[j].threads[t];
    var m :| m in th.hist && Lookup(m, k) == th.pc.res.found;
    n := HistWitness(run, t, Load(k), j, m);
  }

  /** A returned Store put its value in the map at exactly one step of the call. */
  lemma StoreLinearizes(run: seq<State>, t: Tid, k: Key, v: Value, a: nat, j: nat) returns (n: nat)
    requires IsRun(run) && InCall(run, t, Store(k, v, a), j, j) && run[j].threads[t].pc.Done?
    ensures n < j && InCall(run, t, Store(k, v, a), n, j) && Abs(run[n + 1]) == Abs(run[n])[k := v]
    ensures !run[n].threads[t].acted && run[n + 1].threads[t].acted
  {
    RunInv(run, j);
    assert ThreadOk(run[j], t);
    n := WriteWitness(run, t, Store(k, v, a), j);
  }

  /** A returned Delete removed its key at one step of the call, or the key was absent at some moment of it. */
  lemma DeleteLinearizes(run: seq<State>, t: Tid, k: Key, j: nat) returns (n: nat)
    requires IsRun(run) && InCall(run, t, Delete(k), j, j) && run[j].threads[t].pc.Done?
    ensures InCall(run, t, Delete(k), n, j)
    ensures k !in Abs(run[n]) || (n < j && Abs(run[n + 1]) == Abs(run[n]) - {k})
  {
    RunInv(run, j);
    assert ThreadOk(run[j], t);
    var th := run[j].threads[t];
    if th.acted {
      n := WriteWitness(run, t, Delete(k), j);
    } else {
      var m :| m in th.hist && Lookup(m, k) == None;
      n := HistWitness(run, t, Delete(k), j, m);
    }
  }

  /** A returned LoadOrStore found the value present at some moment of the call, or stored its own into an absent key. */
  lemma LoadOrStoreLinearizes(run: seq<State>, t: Tid, k: Key, v: Value, a: nat, j: nat) returns (n: nat)
    requires IsRun(run) && InCall(run, t, LoadOrStore(k, v, a), j, j) && run[j].threads[t].pc.Done?
    ensures run[j].threads[t].pc.res.Got? && InCall(run, t, LoadOrStore(k, v, a), n, j)
    ensures run[j].threads[t].pc.res.loaded ==>
      Lookup(Abs(run[n]), k) == Some(run[j].threads[t].pc.res.actual) && !run[j].threads[t].acted
    ensures !run[j].threads[t].pc.res.loaded ==>
      run[j].threads[t].pc.res.actual == v && n < j && k !in Abs(run[n]) && Abs(run[n + 1]) == Abs(run[n])[k := v]
  {
    RunInv(run, j);
    assert ThreadOk(run[j], t);
    var th := run[j].threads[t];
    if th.pc.res.loaded {
      var m :| m in th.hist && Lookup(m, k) == Some(th.pc.res.actual);
      n := HistWitness(run, t, LoadOrStore(k, v, a), j, m);
    } else {
      n := WriteWitness(run, t, LoadOrStore(k, v, a), j);
    }
  }

  /** Range reports for each key a value, or if it ran to the end an absence, that held at some moment of the call. */
  lemma RangeReflectsTheCall(run: seq<State>, t: Tid, k: Key, j: nat) returns (n: nat)
    requires IsRun(run) && InCall(run, t, Range, j, j) && run[j].threads[t].pc.Done?
    ensures run[j].threads[t].pc.res.Visited?
    ensures k in run[j].threads[t].pc.res.out || run[j].threads[t].pc.res.complete ==>
      InCall(run, t, Range, n, j) && Lookup(Abs(run[n]), k) == Lookup(run[j].threads[t].pc.res.out, k)
  {
    RunInv(run, j);
    assert ThreadOk(run[j], t);
    var th := run[j].threads[t];
    n := j;
    if k in th.pc.res.out {
      assert Seen(th.hist, k, Some(th.pc.res.out[k]));
      var m :| m in th.hist && Lookup(m, k) == Some(th.pc.res.out[k]);
      n := HistWitness(run, t, Range, j, m);
    } else if th.pc.res.complete {
      assert Seen(th.hist, k, None);
      var m :| m in th.hist && Lookup(m, k) == None;
      n := HistWitness(run, t, Range, j, m);
    }
  }

  /** The write to `dirty` after an unexpunge, and the insertion of a new entry, never meet a nil map. */
  lemma DirtyNeverNilOnWrite(run: seq<State>, i: nat, t: Tid)
    requires IsRun(run) && i < |run| && t in run[i].threads && run[i].threads[t].Busy?
    requires run[i].threads[t].pc.AddDirty? || run[i].threads[t].pc.NewEntry?
    ensures run[i].dirty.Some?
  {
    RunInv(run, i);
    assert ThreadOk(run[i], t);
  }

  /** The locked `tryLoadOrStore` calls, whose `ok` result the source drops, never meet an expunged entry. */
  lemma LockedLoadOrStoreAlwaysOk(run: seq<State>, i: nat, t: Tid)
    requires IsRun(run) && i < |run| && t in run[i].threads && run[i].threads[t].Busy?
    requires run[i].threads[t].pc.TryLos? && !run[i].threads[t].pc.path.Fast?
    ensures run[i].threads[t].pc.e in run[i].ptr && !run[i].ptr[run[i].threads[t].pc.e].Expunged?
  {
    RunInv(run, i);
    assert ThreadOk(run[i], t);
  }
}
