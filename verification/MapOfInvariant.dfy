/** The invariant of the MapOf protocol and the proof that every step of every thread keeps it. */
module MapOfInvariant {
  import opened Options
  import opened MapOfProtocol

  // ----- the invariant

  predicate Locked(pc: PC) {
    || pc.ReadLocked? || pc.Unexpunge? || pc.AddDirty? || pc.StoreLocked? || pc.DirtyStart? || pc.DirtyLoop?
    || pc.DirtyLoad? || pc.DirtyCas? || pc.Amend? || pc.NewEntry? || pc.Miss? || pc.RangePromote? || pc.Unlock?
    || ((pc.TryLos? || pc.LosCas?) && !pc.path.Fast?)
  }

  function HolderPc(s: State): PC {
    if s.lock.Some? && s.lock.value in s.threads && s.threads[s.lock.value].Busy?
    then s.threads[s.lock.value].pc else ReadFast
  }

  /** Keys the lock holder is part-way through moving into `dirty`. */
  function MovingAt(pc: PC): set<Key> {
    match pc
    case DirtyLoop(left) => left
    case DirtyLoad(_, left) => left
    case DirtyCas(_, left) => left
    case AddDirty(e) => {e.key}
    case _ => {}
  }

  function Moving(s: State): set<Key> { MovingAt(HolderPc(s)) }

  /** The holder has built `dirty` but not yet published `amended`. */
  predicate Amending(pc: PC) {
    pc.DirtyLoop? || pc.DirtyLoad? || pc.DirtyCas? || pc.Amend?
  }

  ghost predicate ReadInv(s: State) {
    forall k :: k in s.read ==> s.read[k].key == k && s.read[k] in s.ptr && s.read[k] in s.published
  }

  ghost predicate DirtyInv(s: State) {
    s.dirty.Some? ==> forall k :: k in s.dirty.value ==>
      var e := s.dirty.value[k];
      && e.key == k && e in s.ptr && !s.ptr[e].Expunged?
      && (if k in s.read then e == s.read[k] else e !in s.published)
  }

  /** A published entry that is not expunged is its key's entry in `read`, and in `dirty` when there is one. */
  ghost predicate PublishedInv(s: State) {
    forall e :: e in s.published ==>
      && e in s.ptr
      && (!s.ptr[e].Expunged? ==>
          && e.key in s.read && s.read[e.key] == e
          && (s.dirty.Some? ==> e.key in Moving(s) || (e.key in s.dirty.value && s.dirty.value[e.key] == e)))
  }

  ghost predicate ExpungedInv(s: State) {
    && (forall e :: e in s.ptr && s.ptr[e].Expunged? ==> e in s.published)
    && (forall k :: k in s.read && s.read[k] in s.ptr && s.ptr[s.read[k]].Expunged? ==> s.dirty.Some?)
  }

  predicate AmendedInv(s: State) {
    && (s.amended ==> s.dirty.Some?)
    && (s.dirty.Some? && !Amending(HolderPc(s)) ==> s.amended)
    && (s.dirty.Some? && !s.amended ==> s.dirty.value.Keys <= s.read.Keys)
  }

  predicate LockInv(s: State) {
    s.lock.Some? ==>
      s.lock.value in s.threads && s.threads[s.lock.value].Busy? && Locked(s.threads[s.lock.value].pc)
  }

  ghost predicate Shared(s: State) {
    ReadInv(s) && DirtyInv(s) && PublishedInv(s) && ExpungedInv(s) && AmendedInv(s) && LockInv(s)
  }

  ghost predicate Seen(hist: set<Contents>, k: Key, o: Option<Value>) {
    exists m :: m in hist && Lookup(m, k) == o
  }

  /** `e` is still its key's entry, or it is dead and its final value was the key's value during the call. */
  ghost predicate Tracks(s: State, hist: set<Contents>, k: Key, e: Ref) {
    && e.key == k && e in s.ptr
    && (Cur(s, k) == Some(e) || Seen(hist, k, EntryVal(s, e)))
  }

  ghost predicate ResultOk(op: Op, r: Result, hist: set<Contents>, acted: bool) {
    match op
    case Load(k) => r.Loaded? && !acted && Seen(hist, k, r.found)
    case Store(_, _, _) => r.Stored? && acted
    case LoadOrStore(k, v, _) =>
      r.Got? && (if r.loaded then !acted && Seen(hist, k, Some(r.actual)) else acted && r.actual == v)
    case Delete(k) => r.Deleted? && (acted || Seen(hist, k, None))
    case Range =>
      && r.Visited? && !acted
      && (forall k :: k in r.out ==> Seen(hist, k, Some(r.out[k])))
      && (r.complete ==> forall k :: k !in r.out ==> Seen(hist, k, None))
  }

  ghost predicate RangeOk(s: State, todo: map<Key, Ref>, out: Contents, hist: set<Contents>) {
    && (forall k :: k in todo ==> Tracks(s, hist, k, todo[k]))
    && (forall k :: k in out ==> Seen(hist, k, Some(out[k])))
    && (forall k :: k !in todo && k !in out ==> Seen(hist, k, None))
  }

  ghost predicate DirtyLoopOk(s: State, op: Op, left: set<Key>) {
    && (op.Store? || op.LoadOrStore?) && op.key !in s.read
    && s.dirty.Some? && !s.amended && left <= s.read.Keys && left !! s.dirty.value.Keys
  }

  /** What a thread relies on at each program point. */
  ghost predicate PcOk(s: State, op: Op, pc: PC, hist: set<Contents>, acted: bool)
    decreases pc
  {
    match pc
    case Done(r) => ResultOk(op, r, hist, acted)
    case Unlock(next) =>
      && (next.Done? || next.EntryLoad? || next.DelLoad? || next.RangeIter?)
      && PcOk(s, op, next, hist, acted)
    case Miss(next) => s.dirty.Some? && (next.Done? || next.EntryLoad?) && PcOk(s, op, next, hist, acted)
    case ReadFast => !acted
    case WantLock => !acted
    case ReadLocked => !acted
    case EntryLoad(e) => !acted && op.Load? && Tracks(s, hist, op.key, e)
    case TryStoreLoad(e) => !acted && op.Store? && e.key == op.key && e in s.published
    case TryStoreCas(e, p) => !acted && op.Store? && e.key == op.key && e in s.published && !p.Expunged?
    case TryLos(e, path) => !acted && op.LoadOrStore? && e.key == op.key && LosEntryOk(s, e, path)
    case LosCas(e, path) => !acted && op.LoadOrStore? && e.key == op.key && LosEntryOk(s, e, path)
    case DelLoad(e) => !acted && op.Delete? && e in s.published && Tracks(s, hist, op.key, e)
    case DelCas(e, p) => !acted && op.Delete? && e in s.published && p.Val? && Tracks(s, hist, op.key, e)
    case RangeIter(todo, out) => !acted && op.Range? && RangeOk(s, todo, out, hist)
    case Unexpunge(e) => !acted && (op.Store? || op.LoadOrStore?) && op.key in s.read && s.read[op.key] == e
    case AddDirty(e) =>
      && !acted && (op.Store? || op.LoadOrStore?) && op.key in s.read && s.read[op.key] == e
      && s.dirty.Some? && e in s.ptr && !s.ptr[e].Expunged?
    case StoreLocked(e) =>
      !acted && op.Store? && Cur(s, op.key) == Some(e) && e in s.ptr && !s.ptr[e].Expunged?
    case DirtyStart => !acted && (op.Store? || op.LoadOrStore?) && op.key !in s.read && !s.amended && s.dirty.None?
    case DirtyLoop(left) => !acted && DirtyLoopOk(s, op, left)
    case DirtyLoad(k, left) => !acted && DirtyLoopOk(s, op, left) && k in left
    case DirtyCas(k, left) => !acted && DirtyLoopOk(s, op, left) && k in left
    case Amend => !acted && DirtyLoopOk(s, op, {})
    case NewEntry =>
      !acted && (op.Store? || op.LoadOrStore?) && op.key !in s.read && s.amended && op.key !in DirtyMap(s)
    case RangePromote => !acted && op.Range? && s.amended
  }

  ghost predicate LosEntryOk(s: State, e: Ref, path: Path) {
    match path
    case Fast => e in s.published
    case ViaRead => Cur(s, e.key) == Some(e) && e in s.ptr && !s.ptr[e].Expunged?
    case ViaDirty => s.dirty.Some? && Cur(s, e.key) == Some(e) && e in s.ptr && !s.ptr[e].Expunged?
  }

  ghost predicate ThreadOk(s: State, t: Tid) {
    t in s.threads && s.threads[t].Busy? ==>
      && Abs(s) in s.threads[t].hist
      && (Locked(s.threads[t].pc) ==> s.lock == Some(t))
      && PcOk(s, s.threads[t].op, s.threads[t].pc, s.threads[t].hist, s.threads[t].acted)
  }

  ghost predicate Inv(s: State) {
    Shared(s) && forall t :: ThreadOk(s, t)
  }

  // ----- what one step may do to the other threads

  /** An entry that is not its key's entry after the step was left alone by the step. */
  ghost predicate Frame(s: State, s': State) {
    && s.published <= s'.published
    && (forall e :: e in s.ptr ==> e in s'.ptr && (Cur(s', e.key) == Some(e) || s'.ptr[e] == s.ptr[e]))
  }

  /** What the lock holder sees of a step made without the lock. */
  ghost predicate HolderFrame(s: State, s': State) {
    && s'.read == s.read && s'.dirty == s.dirty && s'.amended == s.amended
    && (forall e :: e in s.ptr && !s.ptr[e].Expunged? ==> e in s'.ptr && !s'.ptr[e].Expunged?)
  }

  lemma TracksFrame(s: State, s': State, hist: set<Contents>, k: Key, e: Ref)
    requires Frame(s, s') && Abs(s) in hist && Tracks(s, hist, k, e)
    ensures Tracks(s', hist, k, e)
  {
    if Cur(s', k) != Some(e) && Cur(s, k) == Some(e) {
      AbsLookup(s, k);
      assert Lookup(Abs(s), k) == EntryVal(s, e);
    }
  }

  lemma OtherKeeps(s: State, s': State, op: Op, pc: PC, hist: set<Contents>, acted: bool)
    requires Frame(s, s') && Abs(s) in hist && PcOk(s, op, pc, hist, acted)
    requires Locked(pc) ==> HolderFrame(s, s')
    ensures PcOk(s', op, pc, hist, acted)
    decreases pc
  {
    match pc
    case EntryLoad(e) => TracksFrame(s, s', hist, op.key, e);
    case DelLoad(e) => TracksFrame(s, s', hist, op.key, e);
    case DelCas(e, _) => TracksFrame(s, s', hist, op.key, e);
    case RangeIter(todo, out) =>
      forall k | k in todo ensures Tracks(s', hist, k, todo[k]) { TracksFrame(s, s', hist, k, todo[k]); }
    case Unlock(next) => OtherKeeps(s, s', op, next, hist, acted);
    case Miss(next) => OtherKeeps(s, s', op, next, hist, acted);
    case _ =>
  }

  lemma HistGrows(s: State, op: Op, pc: PC, hist: set<Contents>, hist': set<Contents>, acted: bool)
    requires PcOk(s, op, pc, hist, acted) && hist <= hist'
    ensures PcOk(s, op, pc, hist', acted)
    decreases pc
  {
    assert forall k, o :: Seen(hist, k, o) ==> Seen(hist', k, o);
    match pc
    case Unlock(next) => HistGrows(s, op, next, hist, hist', acted);
    case Miss(next) => HistGrows(s, op, next, hist, hist', acted);
    case _ =>
  }

  predicate SameShared(s: State, s': State) {
    && s'.ptr == s.ptr && s'.read == s.read && s'.dirty == s.dirty && s'.amended == s.amended
    && s'.published == s.published
  }

  lemma PcShared(s: State, s': State, op: Op, pc: PC, hist: set<Contents>, acted: bool)
    requires PcOk(s, op, pc, hist, acted) && SameShared(s, s')
    ensures PcOk(s', op, pc, hist, acted)
    decreases pc
  {
    assert forall k :: Cur(s', k) == Cur(s, k);
    assert forall e :: EntryVal(s', e) == EntryVal(s, e);
    match pc
    case Unlock(next) => PcShared(s, s', op, next, hist, acted);
    case Miss(next) => PcShared(s, s', op, next, hist, acted);
    case _ =>
  }

  // ----- what a step must establish

  /** The effect of one step on the plain map: nothing, or exactly the write of the call that makes it. */
  ghost predicate Linear(s: State, t: Tid, s': State)
    requires t in s.threads && s.threads[t].Busy? && t in s'.threads && s'.threads[t].Busy?
  {
    var op := s.threads[t].op;
    if s'.threads[t].acted == s.threads[t].acted then Abs(s') == Abs(s)
    else
      && s'.threads[t].acted
      && match op
         case Store(k, v, _) => Abs(s') == Abs(s)[k := v]
         case LoadOrStore(k, v, _) => k !in Abs(s) && Abs(s') == Abs(s)[k := v]
         case Delete(k) => Abs(s') == Abs(s) - {k}
         case _ => false
  }

  predicate OthersSame(s: State, t: Tid, s': State) {
    && s'.threads.Keys == s.threads.Keys + {t}
    && (forall u :: u in s.threads && u != t ==> s'.threads[u] == s.threads[u])
    && (s'.lock == s.lock || (s.lock == Some(t) && s'.lock.None?) || (s.lock.None? && s'.lock == Some(t)))
  }

  ghost predicate Good(s: State, t: Tid, s': State)
    requires t in s.threads && s.threads[t].Busy?
  {
    && OthersSame(s, t, s')
    && Shared(s') && Frame(s, s') && (s.lock != Some(t) ==> HolderFrame(s, s'))
    && s'.threads[t].Busy? && s'.threads[t].op == s.threads[t].op && s'.threads[t].hist == s.threads[t].hist
    && (Locked(s'.threads[t].pc) ==> s'.lock == Some(t))
    && PcOk(s', s.threads[t].op, s'.threads[t].pc, s.threads[t].hist, s'.threads[t].acted)
    && Linear(s, t, s')
  }

  ghost predicate At(s: State, t: Tid) {
    Inv(s) && t in s.threads && s.threads[t].Busy?
  }

  /** Fields untouched: only the pc of `t` and perhaps the lock moved. */
  lemma QuietStep(s: State, t: Tid, s': State)
    requires At(s, t) && OthersSame(s, t, s') && SameShared(s, s') && LockInv(s')
    requires s'.threads[t].Busy? && s'.threads[t].acted == s.threads[t].acted
    requires s'.lock.Some? ==> Moving(s) <= Moving(s') && (Amending(HolderPc(s)) ==> Amending(HolderPc(s')))
    requires s'.lock.None? ==> Moving(s) == {} && !Amending(HolderPc(s))
    ensures Shared(s') && Frame(s, s') && HolderFrame(s, s') && Linear(s, t, s')
  {
    AbsSame(s, s');
  }

  /** A live pointer of a current entry is replaced by another live pointer. */
  lemma WritePtr(s: State, t: Tid, e: Ref, p: Ptr, s': State)
    requires At(s, t) && OthersSame(s, t, s') && LockInv(s') && s'.lock == s.lock
    requires e in s.ptr && Cur(s, e.key) == Some(e) && !s.ptr[e].Expunged? && !p.Expunged?
    requires s'.ptr == s.ptr[e := p] && s'.read == s.read && s'.dirty == s.dirty && s'.amended == s.amended
    requires s'.published == s.published
    requires s.lock == Some(t) ==>
      && s'.threads[t].Busy? && Moving(s) == {} && !Amending(HolderPc(s))
    ensures Shared(s') && Frame(s, s') && HolderFrame(s, s')
    ensures p.Val? ==> Abs(s') == Abs(s)[e.key := p.v]
    ensures p.Nil? ==> Abs(s') == Abs(s) - {e.key}
  {
    if s.lock != Some(t) { assert HolderPc(s') == HolderPc(s); }
    CurOwn(s);
    assert forall k :: Cur(s', k) == Cur(s, k);
    forall k | k != e.key ensures CurVal(s', k) == CurVal(s, k) { }
    if p.Val? { AbsUpdate(s, s', e.key, p.v); } else { AbsRemove(s, s', e.key); }
  }

  lemma CurOwn(s: State)
    requires ReadInv(s) && DirtyInv(s)
    ensures forall k :: Cur(s, k).Some? ==> Cur(s, k).value.key == k && Cur(s, k).value in s.ptr
  {
  }

  /** A published entry that is not expunged is current. */
  lemma PublishedCurrent(s: State, e: Ref)
    requires Shared(s) && e in s.published && e in s.ptr && !s.ptr[e].Expunged?
    ensures Cur(s, e.key) == Some(e)
  {
  }
}
