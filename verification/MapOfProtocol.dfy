/**
  The atomic steps of `MapOf` (pkg/generic_sync/generic_sync.go) as a transition system.

  Any number of threads run Load, Store, LoadOrStore, Delete and Range.  One step is one
  atomic action of the source: a load or swap of the `read` field, a load or
  compare-and-swap of an entry pointer, or taking or leaving `mu`.  The fields `dirty` and
  `misses` are only touched while `mu` is held, so their updates ride on the step beside them.
*/
module MapOfProtocol {
  import opened Options

  type Key(==, !new)
  type Value(==, !new)
  type Tid = nat


  /** An entry object; `key` is the key it was allocated for. */
  datatype Ref = Ref(key: Key, id: nat)

  /** The pointer `p` of an entry.  Equal values at different addresses are different pointers. */
  datatype Ptr = Nil | Expunged | Val(v: Value, addr: nat)

  type Contents = map<Key, Value>

  datatype Op =
    | Load(key: Key)
    | Store(key: Key, v: Value, addr: nat)
    | LoadOrStore(key: Key, v: Value, addr: nat)
    | Delete(key: Key)
    | Range

  datatype Result =
    | Loaded(found: Option<Value>)
    | Stored
    | Got(actual: Value, loaded: bool)
    | Deleted
    | Visited(out: Contents, complete: bool)

  /** Which call of `tryLoadOrStore` a thread is in: the lock-free one, or one of the two locked ones. */
  datatype Path = Fast | ViaRead | ViaDirty

  datatype PC =
    | ReadFast
    | EntryLoad(e: Ref)
    | TryStoreLoad(e: Ref)
    | TryStoreCas(e: Ref, p: Ptr)
    | TryLos(e: Ref, path: Path)
    | LosCas(e: Ref, path: Path)
    | DelLoad(e: Ref)
    | DelCas(e: Ref, p: Ptr)
    | RangeIter(todo: map<Key, Ref>, out: Contents)
    | WantLock
    | ReadLocked
    | Unexpunge(e: Ref)
    | AddDirty(e: Ref)
    | StoreLocked(e: Ref)
    | DirtyStart
    | DirtyLoop(left: set<Key>)
    | DirtyLoad(k: Key, left: set<Key>)
    | DirtyCas(k: Key, left: set<Key>)
    | Amend
    | NewEntry
    | Miss(next: PC)
    | RangePromote
    | Unlock(next: PC)
    | Done(res: Result)

  /** `hist` collects the abstract contents seen since the call began; `acted` says the call's write happened. */
  datatype Thread = Idle | Busy(op: Op, pc: PC, hist: set<Contents>, acted: bool)

  datatype State = State(
    ptr: map<Ref, Ptr>,
    read: map<Key, Ref>,
    amended: bool,
    dirty: Option<map<Key, Ref>>,
    misses: nat,
    lock: Option<Tid>,
    threads: map<Tid, Thread>,
    published: set<Ref>)

  // ----- the plain map a state stands for

  /** The entry that lookups of `k` reach: through `read`, else through `dirty`. */
  function Cur(s: State, k: Key): Option<Ref> {
    if k in s.read then Some(s.read[k])
    else if s.dirty.Some? && k in s.dirty.value then Some(s.dirty.value[k])
    else None
  }

  function PtrVal(p: Ptr): Option<Value> {
    if p.Val? then Some(p.v) else None
  }

  function EntryVal(s: State, e: Ref): Option<Value> {
    if e in s.ptr then PtrVal(s.ptr[e]) else None
  }

  function CurVal(s: State, k: Key): Option<Value> {
    match Cur(s, k)
    case None => None
    case Some(e) => EntryVal(s, e)
  }

  function Keys(s: State): set<Key> {
    s.read.Keys + (if s.dirty.Some? then s.dirty.value.Keys else {})
  }

  function Abs(s: State): Contents {
    map k | k in Keys(s) && CurVal(s, k).Some? :: CurVal(s, k).value
  }

  function Lookup(m: Contents, k: Key): Option<Value> {
    if k in m then Some(m[k]) else None
  }

  lemma AbsLookup(s: State, k: Key)
    ensures Lookup(Abs(s), k) == CurVal(s, k)
  {
  }

  lemma AbsSame(s: State, s': State)
    requires forall k :: CurVal(s', k) == CurVal(s, k)
    ensures Abs(s') == Abs(s)
  {
    forall k ensures Lookup(Abs(s'), k) == Lookup(Abs(s), k) {
      AbsLookup(s, k);
      AbsLookup(s', k);
    }
    LookupExt(Abs(s'), Abs(s));
  }

  lemma AbsUpdate(s: State, s': State, k: Key, v: Value)
    requires CurVal(s', k) == Some(v)
    requires forall j :: j != k ==> CurVal(s', j) == CurVal(s, j)
    ensures Abs(s') == Abs(s)[k := v]
  {
    forall j ensures Lookup(Abs(s'), j) == Lookup(Abs(s)[k := v], j) {
      AbsLookup(s, j);
      AbsLookup(s', j);
    }
    LookupExt(Abs(s'), Abs(s)[k := v]);
  }

  lemma AbsRemove(s: State, s': State, k: Key)
    requires CurVal(s', k) == None
    requires forall j :: j != k ==> CurVal(s', j) == CurVal(s, j)
    ensures Abs(s') == Abs(s) - {k}
  {
    forall j ensures Lookup(Abs(s'), j) == Lookup(Abs(s) - {k}, j) {
      AbsLookup(s, j);
      AbsLookup(s', j);
    }
    LookupExt(Abs(s'), Abs(s) - {k});
  }

  lemma LookupExt(m: Contents, n: Contents)
    requires forall k :: Lookup(m, k) == Lookup(n, k)
    ensures m == n
  {
    assert forall k :: k in m <==> Lookup(m, k).Some?;
    assert forall k :: k in n <==> Lookup(n, k).Some?;
    assert forall k | k in m :: m[k] == Lookup(m, k).value;
    assert forall k | k in n :: n[k] == Lookup(n, k).value;
  }

  // ----- the steps

  function Goto(s: State, t: Tid, pc: PC): State
    requires t in s.threads && s.threads[t].Busy?
  {
    s.(threads := s.threads[t := s.threads[t].(pc := pc)])
  }

  function Act(s: State, t: Tid, pc: PC): State
    requires t in s.threads && s.threads[t].Busy?
  {
    s.(threads := s.threads[t := s.threads[t].(pc := pc, acted := true)])
  }

  function SetPtr(s: State, e: Ref, p: Ptr): State {
    s.(ptr := s.ptr[e := p])
  }

  function DirtyMap(s: State): map<Key, Ref> {
    if s.dirty.Some? then s.dirty.value else map[]
  }

  /** The dirty map becomes the read map, and there is no dirty map and no miss any more. */
  function Promote(s: State): State {
    s.(read := DirtyMap(s), amended := false, dirty := None, misses := 0,
       published := s.published + DirtyMap(s).Values)
  }

  /** The pc after `tryLoadOrStore` has produced `r`. */
  function AfterLos(path: Path, r: Result): PC {
    match path
    case Fast => Done(r)
    case ViaRead => Unlock(Done(r))
    case ViaDirty => Miss(Done(r))
  }

  function OnEntry(op: Op, e: Ref): PC {
    match op
    case Load(_) => EntryLoad(e)
    case Store(_, _, _) => TryStoreLoad(e)
    case LoadOrStore(_, _, _) => TryLos(e, Fast)
    case Delete(_) => DelLoad(e)
    case Range => ReadFast
  }

  function StepReadFast(s: State, t: Tid): State
    requires t in s.threads && s.threads[t].Busy?
  {
    var op := s.threads[t].op;
    if op.Range? then Goto(s, t, if s.amended then WantLock else RangeIter(s.read, map[]))
    else if op.key in s.read then Goto(s, t, OnEntry(op, s.read[op.key]))
    else if op.Store? || op.LoadOrStore? || s.amended then Goto(s, t, WantLock)
    else Goto(s, t, Done(if op.Load? then Loaded(None) else Deleted))
  }

  predicate HasEntry(s: State, pc: PC) {
    (pc.EntryLoad? || pc.TryStoreLoad? || pc.TryStoreCas? || pc.TryLos? || pc.LosCas? || pc.DelLoad? || pc.DelCas?
     || pc.Unexpunge? || pc.AddDirty? || pc.StoreLocked?)
    && pc.e in s.ptr
  }

  /** The steps of the methods on `*entry`: load, tryStore, tryLoadOrStore, delete, unexpungeLocked, storeLocked. */
  function StepEntry(s: State, t: Tid): State
    requires t in s.threads && s.threads[t].Busy? && HasEntry(s, s.threads[t].pc)
  {
    var op, pc := s.threads[t].op, s.threads[t].pc;
    var e := pc.e;
    var p := s.ptr[e];
    match pc
    case EntryLoad(_) => Goto(s, t, Done(Loaded(PtrVal(p))))
    case TryStoreLoad(_) => Goto(s, t, if p.Expunged? then WantLock else TryStoreCas(e, p))
    case TryStoreCas(_, was) =>
      if p == was && op.Store? then SetPtr(Act(s, t, Done(Stored)), e, Val(op.v, op.addr))
      else Goto(s, t, TryStoreLoad(e))
    case TryLos(_, path) =>
      Goto(s, t, match p
                 case Expunged => WantLock
                 case Val(v, _) => AfterLos(path, Got(v, true))
                 case Nil => LosCas(e, path))
    case LosCas(_, path) =>
      if p.Nil? && op.LoadOrStore? then SetPtr(Act(s, t, AfterLos(path, Got(op.v, false))), e, Val(op.v, op.addr))
      else Goto(s, t, TryLos(e, path))
    case DelLoad(_) => Goto(s, t, if p.Val? then DelCas(e, p) else Done(Deleted))
    case DelCas(_, was) =>
      if p == was then SetPtr(Act(s, t, Done(Deleted)), e, Nil) else Goto(s, t, DelLoad(e))
    case Unexpunge(_) =>
      if p.Expunged? then SetPtr(Goto(s, t, AddDirty(e)), e, Nil)
      else Goto(s, t, if op.Store? then StoreLocked(e) else TryLos(e, ViaRead))
    case AddDirty(_) =>
      Goto(s, t, if op.Store? then StoreLocked(e) else TryLos(e, ViaRead))
        .(dirty := Some(DirtyMap(s)[e.key := e]))
    case StoreLocked(_) =>
      if op.Store? then SetPtr(Act(s, t, Unlock(Done(Stored))), e, Val(op.v, op.addr)) else s
  }

  /** The second `m.read.Load()`, made under `mu`, with the lookups in `dirty` that follow it. */
  function StepReadLocked(s: State, t: Tid): State
    requires t in s.threads && s.threads[t].Busy?
  {
    var op := s.threads[t].op;
    var d := DirtyMap(s);
    match op
    case Range => Goto(s, t, if s.amended then RangePromote else Unlock(RangeIter(s.read, map[])))
    case Load(k) =>
      if k in s.read then Goto(s, t, Unlock(EntryLoad(s.read[k])))
      else if s.amended then Goto(s, t, Miss(if k in d then EntryLoad(d[k]) else Done(Loaded(None))))
      else Goto(s, t, Unlock(Done(Loaded(None))))
    case Delete(k) =>
      if k in s.read then Goto(s, t, Unlock(DelLoad(s.read[k])))
      else if s.amended then Act(s, t, Unlock(Done(Deleted))).(dirty := if s.dirty.Some? then Some(d - {k}) else None)
      else Goto(s, t, Unlock(Done(Deleted)))
    case Store(k, _, _) =>
      Goto(s, t, if k in s.read then Unexpunge(s.read[k])
                 else if k in d then StoreLocked(d[k])
                 else if s.amended then NewEntry else DirtyStart)
    case LoadOrStore(k, _, _) =>
      Goto(s, t, if k in s.read then Unexpunge(s.read[k])
                 else if k in d then TryLos(d[k], ViaDirty)
                 else if s.amended then NewEntry else DirtyStart)
  }

  function StepMiss(s: State, t: Tid): State
    requires t in s.threads && s.threads[t].Busy? && s.threads[t].pc.Miss?
  {
    var next := Unlock(s.threads[t].pc.next);
    if s.misses + 1 < |DirtyMap(s)| then Goto(s, t, next).(misses := s.misses + 1)
    else Promote(Goto(s, t, next))
  }

  /** Steps of `dirtyLocked`; `pick` is the key the map iteration yields next. */
  predicate StepDirty(s: State, t: Tid, s': State)
    requires t in s.threads && s.threads[t].Busy?
  {
    match s.threads[t].pc
    case DirtyStart =>
      s' == if s.dirty.Some? then Goto(s, t, Amend) else Goto(s, t, DirtyLoop(s.read.Keys)).(dirty := Some(map[]))
    case DirtyLoop(left) =>
      if left == {} then s' == Goto(s, t, Amend)
      else exists pick :: pick in left && s' == Goto(s, t, DirtyLoad(pick, left))
    case DirtyLoad(k, left) =>
      k in s.read && s.read[k] in s.ptr &&
      var e := s.read[k];
      s' == (match s.ptr[e]
             case Nil => Goto(s, t, DirtyCas(k, left))
             case Expunged => Goto(s, t, DirtyLoop(left - {k}))
             case Val(_, _) => Goto(s, t, DirtyLoop(left - {k})).(dirty := Some(DirtyMap(s)[k := e])))
    case DirtyCas(k, left) =>
      k in s.read && s.read[k] in s.ptr &&
      var e := s.read[k];
      s' == if s.ptr[e].Nil? then SetPtr(Goto(s, t, DirtyLoop(left - {k})), e, Expunged)
            else Goto(s, t, DirtyLoad(k, left))
    case Amend => s' == Goto(s, t, NewEntry).(amended := true)
    case _ => false
  }

  /** `m.dirty[key] = newEntry(value)`; a nil `dirty` would panic, so the step needs one. */
  ghost predicate StepNewEntry(s: State, t: Tid, s': State)
    requires t in s.threads && s.threads[t].Busy?
  {
    var op := s.threads[t].op;
    (op.Store? || op.LoadOrStore?) && s.dirty.Some? &&
    exists id: nat :: Ref(op.key, id) !in s.ptr && s' == WithNewEntry(s, t, id)
  }

  function WithNewEntry(s: State, t: Tid, id: nat): State
    requires t in s.threads && s.threads[t].Busy?
    requires s.threads[t].op.Store? || s.threads[t].op.LoadOrStore?
  {
    var op := s.threads[t].op;
    var e := Ref(op.key, id);
    SetPtr(Act(s, t, Unlock(Done(if op.Store? then Stored else Got(op.v, false)))), e, Val(op.v, op.addr))
      .(dirty := Some(DirtyMap(s)[op.key := e]))
  }

  predicate StepRange(s: State, t: Tid, s': State)
    requires t in s.threads && s.threads[t].Busy? && s.threads[t].pc.RangeIter?
  {
    var todo, out := s.threads[t].pc.todo, s.threads[t].pc.out;
    || (todo == map[] && s' == Goto(s, t, Done(Visited(out, true))))
    || s' == Goto(s, t, Done(Visited(out, false)))
    || exists k :: k in todo && todo[k] in s.ptr && s' == Goto(s, t, AfterVisit(s, todo, out, k))
  }

  function AfterVisit(s: State, todo: map<Key, Ref>, out: Contents, k: Key): PC
    requires k in todo && todo[k] in s.ptr
  {
    RangeIter(todo - {k}, match s.ptr[todo[k]]
                          case Val(v, _) => out[k := v]
                          case _ => out)
  }

  ghost predicate Step(s: State, t: Tid, s': State) {
    if t !in s.threads || s.threads[t].Idle? then
      exists op :: s' == s.(threads := s.threads[t := Busy(op, ReadFast, {Abs(s)}, false)])
    else match s.threads[t].pc
      case Done(_) => s' == s.(threads := s.threads[t := Idle])
      case ReadFast => s' == StepReadFast(s, t)
      case WantLock => s.lock.None? && s' == Goto(s, t, ReadLocked).(lock := Some(t))
      case ReadLocked => s' == StepReadLocked(s, t)
      case Miss(_) => s' == StepMiss(s, t)
      case RangePromote => s' == Promote(Goto(s, t, Unlock(RangeIter(DirtyMap(s), map[]))))
      case Unlock(next) => s' == Goto(s, t, next).(lock := None)
      case NewEntry => StepNewEntry(s, t, s')
      case RangeIter(_, _) => StepRange(s, t, s')
      case DirtyStart => StepDirty(s, t, s')
      case DirtyLoop(_) => StepDirty(s, t, s')
      case DirtyLoad(_, _) => StepDirty(s, t, s')
      case DirtyCas(_, _) => StepDirty(s, t, s')
      case Amend => StepDirty(s, t, s')
      case AddDirty(_) => s.dirty.Some? && HasEntry(s, s.threads[t].pc) && s' == StepEntry(s, t)
      case _ => HasEntry(s, s.threads[t].pc) && s' == StepEntry(s, t)
  }

  /** Every call in progress records the contents the step has produced. */
  function Observe(s: State): State {
    s.(threads := map t | t in s.threads ::
         if s.threads[t].Busy? then s.threads[t].(hist := s.threads[t].hist + {Abs(s)}) else s.threads[t])
  }

  ghost predicate Next(s: State, s': State) {
    exists t, mid :: Step(s, t, mid) && s' == Observe(mid)
  }

  predicate Init(s: State) {
    && s.ptr == map[] && s.read == map[] && !s.amended && s.dirty == None
    && s.lock == None && s.threads == map[] && s.published == {}
  }

  ghost predicate IsRun(run: seq<State>) {
    && |run| > 0 && Init(run[0])
    && forall i :: 0 <= i < |run| - 1 ==> StepAt(run, i)
  }

  ghost predicate StepAt(run: seq<State>, i: nat)
    requires i < |run| - 1
  {
    Next(run[i], run[i + 1])
  }
}
