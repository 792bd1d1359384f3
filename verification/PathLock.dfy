/**
  The per-path lock manager (service/pathlock/pathlock.go).  Entries are made on demand and dropped when
  nobody holds or waits for them.  `Manager` is the object with its critical sections; the transition
  system below it interleaves any number of LockWrite and LockRead calls and their unlocks.
*/
module PathLock {
  import opened Paths

  // ----- the table, as the number of claims on each cleaned path

  function CountedUp(counts: map<string, int>, p: string): map<string, int> {
    counts[p := if p in counts then counts[p] + 1 else 1]
  }

  function CountedDown(counts: map<string, int>, p: string): map<string, int> {
    if p !in counts then counts else if counts[p] == 1 then counts - {p} else counts[p := counts[p] - 1]
  }

  class Entry {
    var waiters: int

    constructor ()
      ensures waiters == 0
    {
      waiters := 0;
    }
  }

  class Manager {
    var locks: map<string, Entry>

    /** Listed entries are in use, and no two paths share one. */
    ghost predicate Valid()
      reads this, locks.Values
    {
      && (forall p :: p in locks ==> locks[p].waiters > 0)
      && (forall p, q :: p in locks && q in locks && locks[p] == locks[q] ==> p == q)
    }

    ghost function Counts(): map<string, int>
      reads this, locks.Values
    {
      map p | p in locks :: locks[p].waiters
    }

    constructor ()
      ensures Valid() && locks == map[]
    {
      locks := map[];
    }

    method Acquire(path: string) returns (e: Entry)
      requires Valid()
      modifies this, locks.Values
      ensures Valid() && Counts() == CountedUp(old(Counts()), Clean(path))
      ensures Clean(path) in locks && locks[Clean(path)] == e
      ensures Clean(path) in old(locks) ==> e == old(locks)[Clean(path)]
      ensures Clean(path) !in old(locks) ==> fresh(e)
      ensures forall p :: p in old(locks) ==> p in locks && locks[p] == old(locks)[p]
    {
      var p := Clean(path);
      if p in locks {
        e := locks[p];
      } else {
        e := new Entry();
        locks := locks[p := e];
      }
      e.waiters := e.waiters + 1;
    }

    method Release(path: string, e: Entry)
      requires Valid() && Clean(path) in locks && locks[Clean(path)] == e
      modifies this, e
      ensures Valid() && Counts() == CountedDown(old(Counts()), Clean(path))
      ensures forall p :: p in locks ==> p in old(locks) && locks[p] == old(locks)[p]
    {
      e.waiters := e.waiters - 1;
      if e.waiters == 0 { locks := locks - {Clean(path)}; }
    }
  }

  // ----- runs

  type Ref = nat
  type Cid = nat

  /** An entry with its read-write mutex. */
  datatype Lock = Lock(waiters: int, writing: bool, readers: int)

  /** One LockWrite or LockRead call, until its unlock function has returned. */
  datatype Phase = Waiting | Holding | Leaving
  datatype Claim = Claim(path: string, entry: Ref, write: bool, phase: Phase)

  datatype State = State(table: map<string, Ref>, heap: seq<Lock>, claims: map<Cid, Claim>)

  const InitialState := State(map[], [], map[])

  datatype Step = Acquire(c: Cid, path: string, write: bool) | Enter(c: Cid) | Unlock(c: Cid) | Release(c: Cid)

  predicate Enabled(s: State, step: Step) {
    match step
    case Acquire(c, _, _) => c !in s.claims
    case Enter(c) =>
      c in s.claims && s.claims[c].phase.Waiting? && s.claims[c].entry < |s.heap| &&
      var k := s.heap[s.claims[c].entry];
      !k.writing && (s.claims[c].write ==> k.readers == 0)
    case Unlock(c) => c in s.claims && s.claims[c].phase.Holding? && s.claims[c].entry < |s.heap|
    case Release(c) => c in s.claims && s.claims[c].phase.Leaving? && s.claims[c].entry < |s.heap|
  }

  function Take(s: State, step: Step): State
    requires Enabled(s, step)
  {
    match step
    case Acquire(c, path, write) =>
      var p := Clean(path);
      if p in s.table && s.table[p] < |s.heap| then
        var e := s.table[p];
        State(s.table, s.heap[e := s.heap[e].(waiters := s.heap[e].waiters + 1)], s.claims[c := Claim(path, e, write, Waiting)])
      else
        State(s.table[p := |s.heap|], s.heap + [Lock(1, false, 0)], s.claims[c := Claim(path, |s.heap|, write, Waiting)])
    case Enter(c) =>
      var e := s.claims[c].entry;
      var k := if s.claims[c].write then s.heap[e].(writing := true) else s.heap[e].(readers := s.heap[e].readers + 1);
      s.(heap := s.heap[e := k], claims := s.claims[c := s.claims[c].(phase := Holding)])
    case Unlock(c) =>
      var e := s.claims[c].entry;
      var k := if s.claims[c].write then s.heap[e].(writing := false) else s.heap[e].(readers := s.heap[e].readers - 1);
      s.(heap := s.heap[e := k], claims := s.claims[c := s.claims[c].(phase := Leaving)])
    case Release(c) =>
      var e := s.claims[c].entry;
      var k := s.heap[e].(waiters := s.heap[e].waiters - 1);
      State(if k.waiters == 0 then s.table - {Clean(s.claims[c].path)} else s.table, s.heap[e := k], s.claims - {c})
  }

  datatype Run = Run(states: seq<State>, steps: seq<Step>)

  ghost predicate StepAt(run: Run, i: nat)
    requires |run.states| == |run.steps| + 1 && i < |run.steps|
  {
    Enabled(run.states[i], run.steps[i]) && run.states[i + 1] == Take(run.states[i], run.steps[i])
  }

  ghost predicate IsRun(run: Run) {
    && |run.states| == |run.steps| + 1 && run.states[0] == InitialState
    && forall i :: 0 <= i < |run.steps| ==> StepAt(run, i)
  }

  // ----- the invariant

  function Claims(s: State, e: Ref): set<Cid> { set c | c in s.claims && s.claims[c].entry == e }

  function Holders(s: State, e: Ref, write: bool): set<Cid> {
    set c | c in s.claims && s.claims[c].entry == e && s.claims[c].phase.Holding? && s.claims[c].write == write
  }

  /** A claim's entry is the one its path has in the table. */
  ghost predicate ClaimOk(s: State, c: Cid) {
    c in s.claims && Clean(s.claims[c].path) in s.table && s.table[Clean(s.claims[c].path)] == s.claims[c].entry
  }

  /** The waiter count is the number of claims, and the mutex state is that of its holders. */
  ghost predicate EntryOk(s: State, e: Ref) {
    e < |s.heap| &&
    var k := s.heap[e];
    && k.waiters == |Claims(s, e)|
    && |Holders(s, e, true)| == (if k.writing then 1 else 0)
    && k.readers == |Holders(s, e, false)|
    && (k.writing ==> k.readers == 0)
  }

  ghost predicate TableOk(s: State) {
    && (forall p :: p in s.table ==> EntryOk(s, s.table[p]) && Claims(s, s.table[p]) != {})
    && (forall p, q :: p in s.table && q in s.table && s.table[p] == s.table[q] ==> p == q)
  }

  ghost predicate Inv(s: State) {
    TableOk(s) && forall c :: c in s.claims ==> ClaimOk(s, c)
  }

  /** The steps differ on one claim, and that claim is on entry `e`. */
  ghost predicate Only(s: State, s': State, c: Cid, e: Ref) {
    && (forall d :: d != c ==> (d in s'.claims <==> d in s.claims) && (d in s.claims ==> s'.claims[d] == s.claims[d]))
    && (c in s.claims ==> s.claims[c].entry == e) && (c in s'.claims ==> s'.claims[c].entry == e)
    && |s.heap| <= |s'.heap| && (forall x :: 0 <= x < |s.heap| && x != e ==> s'.heap[x] == s.heap[x])
  }

  lemma OthersOk(s: State, s': State, c: Cid, e: Ref, x: Ref)
    requires Only(s, s', c, e) && x != e && EntryOk(s, x)
    ensures EntryOk(s', x) && Claims(s', x) == Claims(s, x)
  {
    assert Holders(s', x, true) == Holders(s, x, true);
    assert Holders(s', x, false) == Holders(s, x, false);
    assert Claims(s', x) == Claims(s, x);
  }

  /** If the one entry is fine and listed as before, all is fine. */
  lemma InvFrom(s: State, s': State, c: Cid, e: Ref)
    requires Inv(s) && Only(s, s', c, e) && s'.table == s.table && EntryOk(s', e) && Claims(s', e) != {}
    requires c in s'.claims ==> ClaimOk(s', c)
    ensures Inv(s')
  {
    forall p | p in s'.table ensures EntryOk(s', s'.table[p]) && Claims(s', s'.table[p]) != {} {
      if s.table[p] != e { OthersOk(s, s', c, e, s.table[p]); }
    }
    forall d | d in s'.claims ensures ClaimOk(s', d) {
      if d != c { assert ClaimOk(s, d); }
    }
  }

  lemma NoClaims(s: State, e: Ref)
    requires Inv(s) && forall p :: p in s.table ==> s.table[p] != e
    ensures Claims(s, e) == {}
  {
    forall c | c in s.claims ensures s.claims[c].entry != e { assert ClaimOk(s, c); }
  }

  lemma AcquireOldEntry(s: State, c: Cid, path: string, write: bool, s': State, e: Ref)
    requires c !in s.claims && Clean(path) in s.table && e == s.table[Clean(path)] && EntryOk(s, e)
    requires s' == Take(s, Acquire(c, path, write))
    ensures EntryOk(s', e) && Claims(s', e) != {} && Only(s, s', c, e) && s'.table == s.table && ClaimOk(s', c)
  {
    assert s'.claims == s.claims[c := Claim(path, e, write, Waiting)];
    assert s'.heap == s.heap[e := s.heap[e].(waiters := s.heap[e].waiters + 1)];
    assert Claims(s', e) == Claims(s, e) + {c};
    assert Holders(s', e, true) == Holders(s, e, true);
    assert Holders(s', e, false) == Holders(s, e, false);
  }

  lemma AcquireOld(s: State, c: Cid, path: string, write: bool)
    requires Inv(s) && c !in s.claims && Clean(path) in s.table
    ensures Inv(Take(s, Acquire(c, path, write)))
  {
    AcquireOldEntry(s, c, path, write, Take(s, Acquire(c, path, write)), s.table[Clean(path)]);
    InvFrom(s, Take(s, Acquire(c, path, write)), c, s.table[Clean(path)]);
  }

  lemma AcquireNewEntry(s: State, c: Cid, path: string, write: bool, s': State, e: Ref)
    requires c !in s.claims && Clean(path) !in s.table && e == |s.heap| && Claims(s, e) == {}
    requires s' == Take(s, Acquire(c, path, write))
    ensures EntryOk(s', e) && Claims(s', e) != {} && Only(s, s', c, e) && s'.table == s.table[Clean(path) := e] && ClaimOk(s', c)
  {
    assert Claims(s', e) == Claims(s, e) + {c};
    assert Holders(s', e, true) <= Claims(s, e) && Holders(s', e, false) <= Claims(s, e);
  }

  /** A new entry under a free path. */
  lemma TableFromNew(s: State, s': State, c: Cid, e: Ref, p: string)
    requires TableOk(s) && Only(s, s', c, e) && p !in s.table && s'.table == s.table[p := e] && e == |s.heap|
    requires EntryOk(s', e) && Claims(s', e) != {}
    ensures TableOk(s')
  {
    forall q | q in s.table ensures s.table[q] != e && EntryOk(s', s.table[q]) && Claims(s', s.table[q]) != {} {
      assert EntryOk(s, s.table[q]);
      OthersOk(s, s', c, e, s.table[q]);
    }
  }

  lemma ClaimsFromNew(s: State, s': State, c: Cid, e: Ref, p: string)
    requires Inv(s) && Only(s, s', c, e) && p !in s.table && s'.table == s.table[p := e] && e == |s.heap|
    requires EntryOk(s', e) && Claims(s', e) != {} && ClaimOk(s', c)
    ensures forall d :: d in s'.claims ==> ClaimOk(s', d)
  {
    forall d | d in s'.claims && d != c ensures ClaimOk(s', d) {
      assert ClaimOk(s, d);
      assert Clean(s.claims[d].path) != p;
    }
  }

  lemma AcquireNew(s: State, c: Cid, path: string, write: bool)
    requires Inv(s) && c !in s.claims && Clean(path) !in s.table
    ensures Inv(Take(s, Acquire(c, path, write)))
  {
    forall q | q in s.table ensures s.table[q] != |s.heap| { assert EntryOk(s, s.table[q]); }
    NoClaims(s, |s.heap|);
    AcquireNewEntry(s, c, path, write, Take(s, Acquire(c, path, write)), |s.heap|);
    TableFromNew(s, Take(s, Acquire(c, path, write)), c, |s.heap|, Clean(path));
    ClaimsFromNew(s, Take(s, Acquire(c, path, write)), c, |s.heap|, Clean(path));
  }

  lemma EnterEntry(s: State, c: Cid, s': State, e: Ref)
    requires Enabled(s, Enter(c)) && s' == Take(s, Enter(c)) && e == s.claims[c].entry && EntryOk(s, e)
    ensures EntryOk(s', e) && Claims(s', e) != {} && Only(s, s', c, e)
  {
    var w := s.claims[c].write;
    assert Claims(s', e) == Claims(s, e) && c in Claims(s', e);
    assert Holders(s', e, w) == Holders(s, e, w) + {c} && c !in Holders(s, e, w);
    assert Holders(s', e, !w) == Holders(s, e, !w);
  }

  lemma EnterKeeps(s: State, c: Cid)
    requires Inv(s) && Enabled(s, Enter(c))
    ensures Inv(Take(s, Enter(c)))
  {
    assert ClaimOk(s, c);
    EnterEntry(s, c, Take(s, Enter(c)), s.claims[c].entry);
    InvFrom(s, Take(s, Enter(c)), c, s.claims[c].entry);
  }

  lemma UnlockEntry(s: State, c: Cid, s': State, e: Ref)
    requires Enabled(s, Unlock(c)) && s' == Take(s, Unlock(c)) && e == s.claims[c].entry && EntryOk(s, e)
    ensures EntryOk(s', e) && Claims(s', e) != {} && Only(s, s', c, e)
  {
    var w := s.claims[c].write;
    assert Claims(s', e) == Claims(s, e) && c in Claims(s', e);
    assert Holders(s', e, w) == Holders(s, e, w) - {c} && c in Holders(s, e, w);
    assert Holders(s', e, !w) == Holders(s, e, !w);
  }

  lemma UnlockKeeps(s: State, c: Cid)
    requires Inv(s) && Enabled(s, Unlock(c))
    ensures Inv(Take(s, Unlock(c)))
  {
    assert ClaimOk(s, c);
    UnlockEntry(s, c, Take(s, Unlock(c)), s.claims[c].entry);
    InvFrom(s, Take(s, Unlock(c)), c, s.claims[c].entry);
  }

  lemma ReleaseEntry(s: State, c: Cid, s': State, e: Ref)
    requires Enabled(s, Release(c)) && s' == Take(s, Release(c)) && e == s.claims[c].entry && EntryOk(s, e)
    ensures EntryOk(s', e) && Only(s, s', c, e) && c !in s'.claims
    ensures s'.table == if Claims(s', e) == {} then s.table - {Clean(s.claims[c].path)} else s.table
  {
    assert Claims(s', e) == Claims(s, e) - {c} && c in Claims(s, e);
    assert Holders(s', e, true) == Holders(s, e, true) && Holders(s', e, false) == Holders(s, e, false);
  }

  /** The last claim on an entry takes it out of the table. */
  lemma InvFromLast(s: State, s': State, c: Cid, e: Ref, p: string)
    requires Inv(s) && Only(s, s', c, e) && p in s.table && s.table[p] == e && s'.table == s.table - {p}
    requires Claims(s', e) == {} && c !in s'.claims
    ensures Inv(s')
  {
    forall q | q in s'.table ensures EntryOk(s', s'.table[q]) && Claims(s', s'.table[q]) != {} {
      OthersOk(s, s', c, e, s.table[q]);
    }
    forall d | d in s'.claims ensures ClaimOk(s', d) { ClaimStays(s, s', c, e, p, d); }
  }

  lemma ClaimStays(s: State, s': State, c: Cid, e: Ref, p: string, d: Cid)
    requires Inv(s) && Only(s, s', c, e) && p in s.table && s.table[p] == e && s'.table == s.table - {p}
    requires Claims(s', e) == {} && c !in s'.claims && d in s'.claims
    ensures ClaimOk(s', d)
  {
    assert ClaimOk(s, d);
    assert d !in Claims(s', e);
  }

  lemma ReleaseKeeps(s: State, c: Cid)
    requires Inv(s) && Enabled(s, Release(c))
    ensures Inv(Take(s, Release(c)))
  {
    assert ClaimOk(s, c);
    var s', e := Take(s, Release(c)), s.claims[c].entry;
    ReleaseEntry(s, c, s', e);
    if Claims(s', e) == {} { InvFromLast(s, s', c, e, Clean(s.claims[c].path)); } else { InvFrom(s, s', c, e); }
  }

  lemma TakeKeeps(s: State, step: Step)
    requires Inv(s) && Enabled(s, step)
    ensures Inv(Take(s, step))
  {
    match step
    case Acquire(c, path, write) => if Clean(path) in s.table { AcquireOld(s, c, path, write); } else { AcquireNew(s, c, path, write); }
    case Enter(c) => EnterKeeps(s, c);
    case Unlock(c) => UnlockKeeps(s, c);
    case Release(c) => ReleaseKeeps(s, c);
  }

  lemma {:induction false} RunInv(run: Run, i: nat)
    requires IsRun(run) && i < |run.states|
    ensures Inv(run.states[i])
  {
    if i > 0 {
      RunInv(run, i - 1);
      assert StepAt(run, i - 1);
      TakeKeeps(run.states[i - 1], run.steps[i - 1]);
    }
  }

  // ----- what it gives

  /** Claims on spellings of one path share one entry, claims on different paths never do. */
  lemma OneEntryPerPath(run: Run, i: nat, c: Cid, d: Cid)
    requires IsRun(run) && i < |run.states| && c in run.states[i].claims && d in run.states[i].claims
    ensures var x, y := run.states[i].claims[c], run.states[i].claims[d];
      x.entry == y.entry <==> Clean(x.path) == Clean(y.path)
  {
    RunInv(run, i);
    assert ClaimOk(run.states[i], c) && ClaimOk(run.states[i], d);
  }

  /** A path is in the table exactly while somebody holds or waits for it, and its count is their number. */
  lemma ListedWhileClaimed(run: Run, i: nat, p: string)
    requires IsRun(run) && i < |run.states|
    ensures var s := run.states[i];
      p in s.table <==> exists c :: c in s.claims && Clean(s.claims[c].path) == p
    ensures var s := run.states[i];
      p in s.table ==>
        s.table[p] < |s.heap| && s.heap[s.table[p]].waiters > 0
        && s.heap[s.table[p]].waiters == |set c | c in s.claims && Clean(s.claims[c].path) == p|
  {
    RunInv(run, i);
    var s := run.states[i];
    if c :| c in s.claims && Clean(s.claims[c].path) == p { assert ClaimOk(s, c); }
    if p in s.table {
      assert EntryOk(s, s.table[p]);
      var c :| c in Claims(s, s.table[p]);
      assert ClaimOk(s, c);
      forall d | d in s.claims ensures s.claims[d].entry == s.table[p] <==> Clean(s.claims[d].path) == p { assert ClaimOk(s, d); }
      assert Claims(s, s.table[p]) == set d | d in s.claims && Clean(s.claims[d].path) == p;
    }
  }

  /** While one claim holds a path for writing, no other claim holds it in any way. */
  lemma WriterExcludes(run: Run, i: nat, c: Cid, d: Cid)
    requires IsRun(run) && i < |run.states| && c in run.states[i].claims && d in run.states[i].claims
    requires run.states[i].claims[c].phase.Holding? && run.states[i].claims[d].phase.Holding? && run.states[i].claims[c].write
    requires Clean(run.states[i].claims[c].path) == Clean(run.states[i].claims[d].path)
    ensures c == d
  {
    RunInv(run, i);
    var s := run.states[i];
    assert ClaimOk(s, c) && ClaimOk(s, d);
    var e := s.claims[c].entry;
    assert EntryOk(s, e);
    assert c in Holders(s, e, true) && d in Holders(s, e, s.claims[d].write);
    if c != d && s.claims[d].write { MoreThanOne(Holders(s, e, true), c, d); }
  }

  lemma MoreThanOne(cs: set<Cid>, c: Cid, d: Cid)
    requires c in cs && d in cs && c != d
    ensures |cs| > 1
  {
    assert |cs - {c}| == |cs| - 1 && d in cs - {c};
  }

  /** A waiting claim may enter exactly when nobody holds its path, or when it and all holders only read. */
  lemma MayEnterExactly(run: Run, i: nat, c: Cid)
    requires IsRun(run) && i < |run.states| && c in run.states[i].claims && run.states[i].claims[c].phase.Waiting?
    ensures var s := run.states[i];
      Enabled(s, Enter(c)) <==> forall d :: d in s.claims && s.claims[d].phase.Holding? && Clean(s.claims[d].path) == Clean(s.claims[c].path) ==>
        !s.claims[c].write && !s.claims[d].write
  {
    RunInv(run, i);
    var s := run.states[i];
    assert ClaimOk(s, c);
    var e := s.claims[c].entry;
    assert EntryOk(s, e);
    forall d | d in s.claims ensures Clean(s.claims[d].path) == Clean(s.claims[c].path) <==> s.claims[d].entry == e { assert ClaimOk(s, d); }
    if s.heap[e].writing { var d :| d in Holders(s, e, true); }
    if s.heap[e].readers > 0 { var d :| d in Holders(s, e, false); }
    forall d | d in s.claims && s.claims[d].phase.Holding? && s.claims[d].entry == e
      ensures if s.claims[d].write then s.heap[e].writing else s.heap[e].readers > 0
    {
      assert d in Holders(s, e, s.claims[d].write);
    }
  }

  /** A holder can always unlock, and a claim that has unlocked can always be released. */
  lemma MayLeave(run: Run, i: nat, c: Cid)
    requires IsRun(run) && i < |run.states| && c in run.states[i].claims
    ensures run.states[i].claims[c].phase.Holding? ==> Enabled(run.states[i], Unlock(c))
    ensures run.states[i].claims[c].phase.Leaving? ==> Enabled(run.states[i], Release(c)) && c !in Take(run.states[i], Release(c)).claims
  {
    RunInv(run, i);
    assert ClaimOk(run.states[i], c);
    assert EntryOk(run.states[i], run.states[i].claims[c].entry);
  }

  /** When nobody holds or waits, nothing is left behind in the table. */
  lemma EmptyWhenIdle(run: Run, i: nat)
    requires IsRun(run) && i < |run.states|
    ensures run.states[i].claims == map[] <==> run.states[i].table == map[]
  {
    RunInv(run, i);
    var s := run.states[i];
    if p :| p in s.table { ListedWhileClaimed(run, i, p); }
    if c :| c in s.claims { assert ClaimOk(s, c); }
  }

  // ----- the steps are the manager's critical sections

  ghost function Tally(s: State): map<string, int> {
    map p | p in s.table && s.table[p] < |s.heap| :: s.heap[s.table[p]].waiters
  }

  ghost predicate Wired(s: State) {
    && (forall p :: p in s.table ==> s.table[p] < |s.heap|)
    && (forall p, q :: p in s.table && q in s.table && s.table[p] == s.table[q] ==> p == q)
  }

  lemma InvWired(s: State)
    requires TableOk(s)
    ensures Wired(s)
  {
    forall p | p in s.table ensures s.table[p] < |s.heap| { assert EntryOk(s, s.table[p]); }
  }

  lemma TallyOne(s: State, s': State, p: string, k: Lock)
    requires Wired(s) && p in s.table && s'.table == s.table && s'.heap == s.heap[s.table[p] := k]
    ensures Tally(s') == Tally(s)[p := k.waiters]
  {
  }

  lemma TallyNew(s: State, s': State, p: string, k: Lock)
    requires Wired(s) && p !in s.table && s'.table == s.table[p := |s.heap|] && s'.heap == s.heap + [k]
    ensures Tally(s') == Tally(s)[p := k.waiters]
  {
  }

  lemma TallyLast(s: State, s': State, p: string, k: Lock)
    requires Wired(s) && p in s.table && s'.table == s.table - {p} && s'.heap == s.heap[s.table[p] := k]
    ensures Tally(s') == Tally(s) - {p}
  {
  }

  lemma AcquireTallyAt(s: State, c: Cid, path: string, write: bool, p: string, s': State)
    requires Wired(s) && c !in s.claims && p == Clean(path) && s' == Take(s, Acquire(c, path, write))
    ensures Tally(s') == CountedUp(Tally(s), p)
  {
    if p in s.table { TallyOne(s, s', p, s.heap[s.table[p]].(waiters := s.heap[s.table[p]].waiters + 1)); }
    else { TallyNew(s, s', p, Lock(1, false, 0)); }
  }

  lemma AcquireTally(s: State, c: Cid, path: string, write: bool)
    requires Inv(s) && c !in s.claims
    ensures Tally(Take(s, Acquire(c, path, write))) == CountedUp(Tally(s), Clean(path))
  {
    InvWired(s);
    AcquireTallyAt(s, c, path, write, Clean(path), Take(s, Acquire(c, path, write)));
  }

  lemma ReleaseTallyAt(s: State, c: Cid, p: string, s': State)
    requires Wired(s) && Enabled(s, Release(c)) && p == Clean(s.claims[c].path) && s' == Take(s, Release(c))
    requires p in s.table && s.table[p] == s.claims[c].entry
    ensures Tally(s') == CountedDown(Tally(s), p)
  {
    var k := s.heap[s.table[p]].(waiters := s.heap[s.table[p]].waiters - 1);
    if k.waiters == 0 { TallyLast(s, s', p, k); } else { TallyOne(s, s', p, k); }
  }

  lemma ReleaseTally(s: State, c: Cid)
    requires Inv(s) && Enabled(s, Release(c))
    ensures Tally(Take(s, Release(c))) == CountedDown(Tally(s), Clean(s.claims[c].path))
  {
    assert ClaimOk(s, c);
    InvWired(s);
    ReleaseTallyAt(s, c, Clean(s.claims[c].path), Take(s, Release(c)));
  }
}
