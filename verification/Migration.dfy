/**
  The path migration transaction of `executeMigration` (service/migrate.go): copy every unit to a
  staging path, promote it, swap every anchor for a symlink, delete the old data, and undo all of
  it in reverse order when a step fails.  A schedule decides which filesystem operations fail and
  what a failed removal or copy leaves behind.
*/
module Migration {
  import opened Options
  import PathNames = Paths

  type Path = string
  /** The files of a directory tree: relative path to content. */
  type Tree = map<string, string>
  datatype Node = Dir(tree: Tree) | Link(target: Path)
  type Fs = map<Path, Node>

  // ----- the filesystem

  ghost predicate Same(a: Fs, b: Fs, p: Path) {
    (p in a <==> p in b) && (p in a ==> a[p] == b[p])
  }

  ghost predicate SameBut(a: Fs, b: Fs, ps: set<Path>) {
    forall p {:trigger Same(a, b, p)} :: p !in ps ==> Same(a, b, p)
  }

  /** `filepath.EvalSymlinks` for a directory or a link to one. */
  function Resolve(s: Fs, p: Path): Option<Path> {
    if p !in s then None
    else match s[p]
      case Dir(_) => Some(p)
      case Link(q) => if q in s && s[q].Dir? then Some(q) else None
  }

  /** The tree a path leads to. */
  function Data(s: Fs, p: Path): Option<Tree> {
    match Resolve(s, p)
    case None => None
    case Some(q) => if q in s && s[q].Dir? then Some(s[q].tree) else None
  }

  ghost predicate Contains(t: Tree, d: Tree) {
    forall k :: k in d ==> k in t && t[k] == d[k]
  }

  /** What an operation does: succeed, or fail leaving the named files of the tree it worked on. */
  datatype Outcome = Good | Bad(keep: set<string>)

  function Part(t: Tree, keep: set<string>): Tree {
    map k | k in t && k in keep :: t[k]
  }

  /** Operations beyond the schedule work. */
  function At(schedule: seq<Outcome>, i: nat): Outcome { if i < |schedule| then schedule[i] else Good }

  /** From the i-th operation on nothing fails. */
  ghost predicate Calm(schedule: seq<Outcome>, i: nat) { forall k: nat :: k >= i ==> At(schedule, k).Good? }

  /** No operation from the i-th to before the j-th fails. */
  ghost predicate Quiet(schedule: seq<Outcome>, i: nat, j: nat) { forall k: nat :: i <= k < j ==> At(schedule, k).Good? }

  /** From the i-th operation on at most one fails. */
  ghost predicate Once(schedule: seq<Outcome>, i: nat) {
    forall j: nat, k: nat :: i <= j && i <= k && At(schedule, j).Bad? && At(schedule, k).Bad? ==> j == k
  }

  /** Once the one failure is behind, nothing fails any more. */
  lemma Spent(schedule: seq<Outcome>, i: nat, j: nat)
    requires Once(schedule, i) && !Quiet(schedule, i, j)
    ensures Calm(schedule, j)
  {
  }

  class FileSystem {
    var nodes: Fs
    var clock: nat
    const schedule: seq<Outcome>
    /** The property watched at every step, and whether a step has ever broken it. */
    ghost const watch: Fs -> bool
    ghost var breached: bool
    /** A rollback operation has failed. */
    var rollbackFailed: bool
    /** A leftover of an earlier run could not be cleared away before it was in the way. */
    var cleanupFailed: bool
    /** Superseded data could not be removed at the end. */
    var deletionFailed: bool

    constructor (nodes: Fs, schedule: seq<Outcome>, ghost watch: Fs -> bool)
      ensures this.nodes == nodes && this.watch == watch && breached == !watch(nodes)
      ensures !rollbackFailed && !cleanupFailed && !deletionFailed && clock == 0 && this.schedule == schedule
    {
      this.nodes, this.schedule, clock := nodes, schedule, 0;
      this.watch, breached, rollbackFailed, cleanupFailed, deletionFailed := watch, !watch(nodes), false, false, false;
    }

    /** What happens to the next operation. */
    function Peek(): Outcome
      reads this
    {
      At(schedule, clock)
    }

    method Tick() returns (o: Outcome)
      modifies `clock
      ensures clock == old(clock) + 1 && o == old(Peek())
    {
      o := At(schedule, clock);
      clock := clock + 1;
    }

    method Set(now: Fs)
      modifies `nodes, `breached
      ensures nodes == now && breached == (old(breached) || !watch(now))
    {
      nodes := now;
      breached := breached || !watch(now);
    }

    /** `os.RemoveAll`: on failure part of the tree may be left. */
    method RemoveAll(p: Path) returns (ok: bool)
      modifies `nodes, `breached, `clock
      ensures breached == (old(breached) || !watch(nodes))
      ensures ok ==> nodes == old(nodes) - {p}
      ensures !ok ==> p in old(nodes) && p in nodes && nodes == old(nodes)[p := nodes[p]]
      ensures clock == old(clock) + 1 && (ok <==> old(Peek()).Good? || p !in old(nodes))
      ensures !ok ==> nodes[p] == if old(nodes)[p].Dir? then Dir(Part(old(nodes)[p].tree, old(Peek()).keep)) else old(nodes)[p]
    {
      var o := Tick();
      ok := o.Good? || p !in nodes;
      if ok { Set(nodes - {p}); }
      else { Set(nodes[p := if nodes[p].Dir? then Dir(Part(nodes[p].tree, o.keep)) else nodes[p]]); }
    }

    /** `os.Rename`: Go refuses to replace a directory, even an empty one; a link replaces a link. */
    method Rename(from: Path, to: Path) returns (ok: bool)
      requires from != to
      modifies `nodes, `breached, `clock
      ensures breached == (old(breached) || !watch(nodes))
      ensures ok ==> from in old(nodes) && nodes == (old(nodes) - {from})[to := old(nodes)[from]]
      ensures !ok ==> nodes == old(nodes)
      ensures clock == old(clock) + 1
      ensures old(Peek()).Bad? ==> !ok
      ensures old(Peek()).Good? && from in old(nodes) && to !in old(nodes) ==> ok
    {
      var o := Tick();
      ok := o.Good? && from in nodes && (to !in nodes || (nodes[from].Link? && nodes[to].Link?));
      Set(if ok then (nodes - {from})[to := nodes[from]] else nodes);
    }

    method Symlink(target: Path, p: Path) returns (ok: bool)
      modifies `nodes, `breached, `clock
      ensures breached == (old(breached) || !watch(nodes))
      ensures if ok then p !in old(nodes) && nodes == old(nodes)[p := Link(target)] else nodes == old(nodes)
      ensures clock == old(clock) + 1 && (ok <==> old(Peek()).Good? && p !in old(nodes))
    {
      var o := Tick();
      ok := o.Good? && p !in nodes;
      Set(if ok then nodes[p := Link(target)] else nodes);
    }

    /** `os.Remove`: a link or an empty directory. */
    method Remove(p: Path) returns (ok: bool)
      modifies `nodes, `breached, `clock
      ensures breached == (old(breached) || !watch(nodes))
      ensures if ok then p in old(nodes) && nodes == old(nodes) - {p} && (old(nodes)[p].Link? || old(nodes)[p].tree == map[])
              else nodes == old(nodes)
      ensures clock == old(clock) + 1 && (old(Peek()).Good? && p in old(nodes) && old(nodes)[p].Link? ==> ok)
    {
      var o := Tick();
      ok := o.Good? && p in nodes && (nodes[p].Link? || nodes[p].tree == map[]);
      Set(if ok then nodes - {p} else nodes);
    }

    method MkdirAll(p: Path) returns (ok: bool)
      modifies `nodes, `breached, `clock
      ensures breached == (old(breached) || !watch(nodes))
      ensures ok ==> p in nodes && nodes[p].Dir? && nodes == old(nodes)[p := nodes[p]]
      ensures ok && p !in old(nodes) ==> nodes[p] == Dir(map[])
      ensures !ok ==> nodes == old(nodes)
      ensures clock == old(clock) + 1 && (ok <==> old(Peek()).Good? && (p !in old(nodes) || old(nodes)[p].Dir?))
    {
      var o := Tick();
      ok := o.Good? && (p !in nodes || nodes[p].Dir?);
      Set(if ok && p !in nodes then nodes[p := Dir(map[])] else nodes);
      assert ok ==> nodes == old(nodes)[p := nodes[p]];
    }

    /** `rsync -a src/ to/`: completes, or delivers part of the files. */
    method Rsync(src: Path, to: Path) returns (ok: bool)
      requires src in nodes && nodes[src].Dir? && to in nodes && nodes[to].Dir? && src != to
      modifies `nodes, `breached, `clock
      ensures breached == (old(breached) || !watch(nodes))
      ensures to in nodes && nodes[to].Dir? && nodes == old(nodes)[to := nodes[to]]
      ensures ok ==> nodes[to].tree == old(nodes)[to].tree + old(nodes)[src].tree
      ensures clock == old(clock) + 1 && (ok <==> old(Peek()).Good?)
    {
      var o := Tick();
      ok := o.Good?;
      Set(nodes[to := Dir(nodes[to].tree + (if ok then nodes[src].tree else Part(nodes[src].tree, o.keep)))]);
    }
  }

  // ----- units

  /** A unit with the three paths the source derives: the staging and `.old` siblings of dst and the anchor's backup. */
  datatype Unit = Unit(anchor: Path, src: Path, dst: Path, staging: Path, old_: Path, bak: Path)

  function NewUnit(anchor: Path, src: Path, dst: Path): Unit {
    Unit(anchor, src, dst, dst + ".migrating", dst + ".old", anchor + ".bak")
  }

  function Paths(u: Unit): set<Path> {
    {u.anchor, u.src, u.dst, u.staging, u.old_, u.bak}
  }

  /** Nothing to move: the destination is the source or lies inside it. */
  predicate Skip(u: Unit) {
    u.src == u.dst || PathNames.TrimSlashes(u.src) + "/" <= u.dst
  }

  /** The paths of one unit are told apart; only the anchor may coincide with the source, or in a restore with the destination. */
  predicate Apart(u: Unit, restore: bool) {
    && (restore <==> u.dst == u.anchor)
    && u.staging != u.dst && u.old_ != u.dst && u.staging != u.old_ && u.bak != u.anchor
    && u.src != u.staging && u.src != u.old_ && u.src != u.bak && u.anchor != u.staging && u.anchor != u.old_
    && u.dst != u.bak && u.bak != u.staging && u.bak != u.old_
  }

  ghost predicate Disjoint(units: seq<Unit>, restore: bool) {
    && (forall i :: 0 <= i < |units| ==> Apart(units[i], restore))
    && (forall i, j :: 0 <= i < j < |units| ==> Paths(units[i]) !! Paths(units[j]))
  }

  /** The anchor leads to the source, and no link is in the way of the destination. */
  predicate Ready(s0: Fs, u: Unit) {
    && !Skip(u)
    && u.src in s0 && s0[u.src].Dir?
    && u.anchor in s0 && (u.anchor == u.src || s0[u.anchor] == Link(u.src))
    && (u.dst == u.anchor || u.dst !in s0 || s0[u.dst].Dir?)
  }

  function Orig(s0: Fs, u: Unit): Tree
    requires Ready(s0, u)
  {
    s0[u.src].tree
  }

  ghost predicate Holds(s: Fs, p: Path, t: Tree) {
    p in s && s[p].Dir? && Contains(s[p].tree, t)
  }

  /** The unit's original data is still at its source or at the backed-up anchor. */
  ghost predicate OldHeld(s0: Fs, s: Fs, u: Unit) {
    Ready(s0, u) ==> Holds(s, u.src, Orig(s0, u)) || Holds(s, u.bak, Orig(s0, u))
  }

  /** The unit's anchor resolves to a complete copy at the destination. */
  ghost predicate Landed(s0: Fs, s: Fs, u: Unit) {
    Ready(s0, u) ==>
      && Holds(s, u.dst, Orig(s0, u))
      && (u.anchor == u.dst || (u.anchor in s && s[u.anchor] == Link(u.dst)))
  }

  ghost predicate AllHeld(s0: Fs, s: Fs, units: seq<Unit>) {
    forall i :: 0 <= i < |units| ==> OldHeld(s0, s, units[i])
  }

  ghost predicate AllLanded(s0: Fs, s: Fs, units: seq<Unit>) {
    forall i :: 0 <= i < |units| ==> Landed(s0, s, units[i])
  }

  /** What the new copy supersedes is gone: the backed-up anchor, the old destination, and an external source. */
  ghost predicate Deleted(s0: Fs, s: Fs, u: Unit) {
    Ready(s0, u) ==> (u.src != u.anchor ==> u.src !in s) && (u.dst != u.anchor ==> u.bak !in s && u.old_ !in s)
  }

  /** The safety property of every moment of a run. */
  ghost predicate Safe(s0: Fs, s: Fs, units: seq<Unit>) {
    AllHeld(s0, s, units) || AllLanded(s0, s, units)
  }

  /** No stale `.old` sibling can be taken for the destination: there was a destination, or no such sibling, or it was cleared away. */
  predicate DstSafe(s0: Fs, u: Unit, clean: bool) { u.dst in s0 || u.old_ !in s0 || clean }

  /** No stale files can get into the copy. */
  predicate CopySafe(s0: Fs, u: Unit, clean: bool) { u.staging !in s0 || clean }

  /** The anchor leads to the original data again and the destination is what it was. */
  ghost predicate Restored(s0: Fs, s: Fs, u: Unit, clean: bool) {
    Ready(s0, u) ==>
      && Same(s0, s, u.src) && u.anchor in s && (u.anchor == u.src || s[u.anchor] == Link(u.src))
      && (u.dst != u.anchor ==> Same(s0, s, u.anchor) && (DstSafe(s0, u, clean) ==> Same(s0, s, u.dst)))
  }

  ghost predicate Untouched(s0: Fs, s: Fs, u: Unit) {
    forall p :: p in Paths(u) ==> Same(s0, s, p)
  }

  /** A unit whose copy has been promoted to its destination. */
  ghost predicate Copied(s0: Fs, s: Fs, u: Unit, clean: bool) {
    Ready(s0, u) ==>
      && Same(s0, s, u.src) && Holds(s, u.dst, Orig(s0, u))
      && (CopySafe(s0, u, clean) ==> s[u.dst].tree == Orig(s0, u))
      && (u.dst != u.anchor ==>
          && Same(s0, s, u.anchor)
          && (if u.dst in s0 then u.old_ in s && s[u.old_] == s0[u.dst] else DstSafe(s0, u, clean) ==> u.old_ !in s))
  }

  /** A promoted unit whose anchor is now a link to the copy. */
  ghost predicate Swapped(s0: Fs, s: Fs, u: Unit, clean: bool) {
    Ready(s0, u) ==>
      && (u.src != u.anchor ==> Same(s0, s, u.src)) && Holds(s, u.dst, Orig(s0, u))
      && (CopySafe(s0, u, clean) ==> s[u.dst].tree == Orig(s0, u))
      && u.anchor in s && s[u.anchor] == Link(u.dst)
      && u.bak in s && s[u.bak] == s0[u.anchor]
      && (if u.dst in s0 then u.old_ in s && s[u.old_] == s0[u.dst] else DstSafe(s0, u, clean) ==> u.old_ !in s)
  }

  /** Work on `u` alone that keeps its old data cannot break the watched property. */
  ghost predicate Free(watch: Fs -> bool, s0: Fs, was: Fs, u: Unit) {
    forall s :: SameBut(was, s, Paths(u)) && OldHeld(s0, s, u) ==> watch(s)
  }

  /** The run since `was` has worked on `u` alone. */
  ghost predicate Within(fs: FileSystem, s0: Fs, was: Fs, u: Unit)
    reads fs
  {
    SameBut(was, fs.nodes, Paths(u)) && Free(fs.watch, s0, was, u)
  }

  /** The old data sits at `home`. */
  ghost predicate AtHome(s0: Fs, s: Fs, u: Unit, home: Path) {
    Ready(s0, u) ==> (home == u.src || home == u.bak) && Holds(s, home, Orig(s0, u))
  }

  lemma OneMore(was: Fs, s: Fs, s': Fs, u: Unit, touched: set<Path>)
    requires SameBut(was, s, Paths(u)) && touched <= Paths(u)
    requires forall p :: p !in touched ==> Same(s, s', p)
    ensures SameBut(was, s', Paths(u))
  {
    forall p | p !in Paths(u) ensures Same(was, s', p) {
      assert Same(was, s, p);
      assert Same(s, s', p);
    }
  }

  // ----- filesystem operations on the paths of one unit

  method Wipe(fs: FileSystem, p: Path, u: Unit, ghost s0: Fs, ghost was: Fs, ghost home: Path) returns (ok: bool)
    requires Within(fs, s0, was, u) && p in Paths(u) && AtHome(s0, fs.nodes, u, home) && home != p
    modifies fs`nodes, fs`breached, fs`clock
    ensures Within(fs, s0, was, u) && fs.breached == old(fs.breached)
    ensures ok ==> fs.nodes == old(fs.nodes) - {p}
    ensures !ok ==> p in old(fs.nodes) && p in fs.nodes && fs.nodes == old(fs.nodes)[p := fs.nodes[p]]
    ensures fs.clock == old(fs.clock) + 1 && (ok <==> old(fs.Peek()).Good? || p !in old(fs.nodes))
    ensures !ok ==> fs.nodes[p] == if old(fs.nodes)[p].Dir? then Dir(Part(old(fs.nodes)[p].tree, old(fs.Peek()).keep)) else old(fs.nodes)[p]
  {
    ok := fs.RemoveAll(p);
    OneMore(was, old(fs.nodes), fs.nodes, u, {p});
  }

  /** A rename that leaves the home of the old data alone, or moves it between the source and the backup. */
  method Move(fs: FileSystem, from: Path, to: Path, u: Unit, ghost s0: Fs, ghost was: Fs, ghost home: Path) returns (ok: bool)
    requires Within(fs, s0, was, u) && from in Paths(u) && to in Paths(u) && from != to && AtHome(s0, fs.nodes, u, home)
    requires Ready(s0, u) ==> home != to && (home == from ==> to == u.bak || to == u.src)
    modifies fs`nodes, fs`breached, fs`clock
    ensures Within(fs, s0, was, u) && fs.breached == old(fs.breached)
    ensures ok ==> from in old(fs.nodes) && fs.nodes == (old(fs.nodes) - {from})[to := old(fs.nodes)[from]]
    ensures !ok ==> fs.nodes == old(fs.nodes)
    ensures fs.clock == old(fs.clock) + 1 && (old(fs.Peek()).Bad? ==> !ok)
    ensures old(fs.Peek()).Good? && from in old(fs.nodes) && to !in old(fs.nodes) ==> ok
  {
    ok := fs.Rename(from, to);
    OneMore(was, old(fs.nodes), fs.nodes, u, {from, to});
  }

  method PutLink(fs: FileSystem, target: Path, p: Path, u: Unit, ghost s0: Fs, ghost was: Fs, ghost home: Path) returns (ok: bool)
    requires Within(fs, s0, was, u) && p in Paths(u) && AtHome(s0, fs.nodes, u, home)
    modifies fs`nodes, fs`breached, fs`clock
    ensures Within(fs, s0, was, u) && fs.breached == old(fs.breached)
    ensures if ok then p !in old(fs.nodes) && fs.nodes == old(fs.nodes)[p := Link(target)] else fs.nodes == old(fs.nodes)
    ensures fs.clock == old(fs.clock) + 1 && (ok <==> old(fs.Peek()).Good? && p !in old(fs.nodes))
  {
    ok := fs.Symlink(target, p);
    OneMore(was, old(fs.nodes), fs.nodes, u, {p});
  }

  method Unlink(fs: FileSystem, p: Path, u: Unit, ghost s0: Fs, ghost was: Fs, ghost home: Path) returns (ok: bool)
    requires Within(fs, s0, was, u) && p in Paths(u) && AtHome(s0, fs.nodes, u, home) && home != p
    modifies fs`nodes, fs`breached, fs`clock
    ensures Within(fs, s0, was, u) && fs.breached == old(fs.breached)
    ensures if ok then p in old(fs.nodes) && fs.nodes == old(fs.nodes) - {p} else fs.nodes == old(fs.nodes)
    ensures fs.clock == old(fs.clock) + 1 && (old(fs.Peek()).Good? && p in old(fs.nodes) && old(fs.nodes)[p].Link? ==> ok)
  {
    ok := fs.Remove(p);
    OneMore(was, old(fs.nodes), fs.nodes, u, {p});
  }

  /** The staging directory is made and the source copied into it; `ok` says the copy completed. */
  method Stage(fs: FileSystem, u: Unit, ghost s0: Fs, ghost was: Fs) returns (made: bool, ok: bool)
    requires Within(fs, s0, was, u) && AtHome(s0, fs.nodes, u, u.src) && u.src != u.staging
    requires u.src in fs.nodes && fs.nodes[u.src].Dir?
    modifies fs`nodes, fs`breached, fs`clock
    ensures Within(fs, s0, was, u) && fs.breached == old(fs.breached)
    ensures fs.nodes == old(fs.nodes) || (u.staging in fs.nodes && fs.nodes == old(fs.nodes)[u.staging := fs.nodes[u.staging]])
    ensures ok ==> made && u.staging in fs.nodes && fs.nodes[u.staging].Dir? && Contains(fs.nodes[u.staging].tree, old(fs.nodes)[u.src].tree)
    ensures ok && u.staging !in old(fs.nodes) ==> fs.nodes[u.staging].tree == old(fs.nodes)[u.src].tree
    ensures fs.clock >= old(fs.clock) && (u.staging !in old(fs.nodes) && Quiet(fs.schedule, old(fs.clock), fs.clock) ==> ok)
    ensures u.staging !in old(fs.nodes) && old(fs.Peek()).Good? && At(fs.schedule, old(fs.clock) + 1).Good? ==> ok && fs.clock == old(fs.clock) + 2
  {
    made := fs.MkdirAll(u.staging);
    OneMore(was, old(fs.nodes), fs.nodes, u, {u.staging});
    if !made { return false, false; }
    ghost var mid := fs.nodes;
    ok := fs.Rsync(u.src, u.staging);
    OneMore(was, mid, fs.nodes, u, {u.staging});
  }

  // ----- a stale `.old` sibling

  /** There is no destination but something under its `.old` name, left by an earlier run. */
  predicate StaleOld(s: Fs, u: Unit) {
    u.dst !in s && u.old_ in s
  }

  /** The operation that is to clear the stale sibling `n` fails, and so does the promotion after it; what follows works. */
  predicate Faults(schedule: seq<Outcome>, i: nat, n: Node) {
    At(schedule, i).Bad? && (n.Dir? ==> n.tree.Keys <= At(schedule, i).keep) && At(schedule, i + 1).Bad? && At(schedule, i + 2).Good?
  }

  /** The copy goes well, the promotion does not. */
  predicate StaleFaults(s: Fs, u: Unit, schedule: seq<Outcome>, i: nat) {
    && StaleOld(s, u) && Faults(schedule, i + 3, s[u.old_])
    && At(schedule, i).Good? && At(schedule, i + 1).Good? && At(schedule, i + 2).Good?
  }

  lemma PartAll(t: Tree, keep: set<string>)
    requires t.Keys <= keep
    ensures Part(t, keep) == t
  {
  }

  /** The run has failed without a failing rollback step, and the stale directory is the destination. */
  ghost predicate StaleInstalled(s0: Fs, s: Fs, u: Unit) {
    StaleOld(s0, u) && u.dst in s && s[u.dst] == s0[u.old_]
  }

  // ----- one unit

  /** A leftover staging directory is cleared away and the source copied into a new one; a failed copy is cleared away again. */
  method StageUnit(fs: FileSystem, u: Unit, ghost s0: Fs, ghost was: Fs) returns (ok: bool)
    requires u.src != u.staging && u.src in fs.nodes && fs.nodes[u.src].Dir? && was == fs.nodes
    requires Untouched(s0, fs.nodes, u) && Free(fs.watch, s0, fs.nodes, u)
    modifies fs`nodes, fs`breached, fs`clock, fs`cleanupFailed
    ensures Within(fs, s0, was, u) && fs.breached == old(fs.breached)
    ensures old(fs.cleanupFailed) ==> fs.cleanupFailed
    ensures forall p :: p in Paths(u) && p != u.staging ==> Same(s0, fs.nodes, p)
    ensures ok && Ready(s0, u) ==> Holds(fs.nodes, u.staging, Orig(s0, u))
    ensures ok && Ready(s0, u) && CopySafe(s0, u, !fs.cleanupFailed) ==> fs.nodes[u.staging].tree == Orig(s0, u)
    ensures StaleFaults(s0, u, fs.schedule, old(fs.clock)) ==> ok && fs.clock == old(fs.clock) + 3
    ensures fs.clock >= old(fs.clock) && (Quiet(fs.schedule, old(fs.clock), fs.clock) ==> ok && fs.cleanupFailed == old(fs.cleanupFailed))
  {
    assert Same(s0, fs.nodes, u.src) && Same(s0, fs.nodes, u.staging);
    var r := Wipe(fs, u.staging, u, s0, was, u.src);
    if !r { fs.cleanupFailed := true; }
    var made, staged := Stage(fs, u, s0, was);
    if !staged && made { r := Wipe(fs, u.staging, u, s0, was, u.src); }
    return staged;
  }

  /** The copy of one unit to another disk. */
  method CopyExternal(fs: FileSystem, u: Unit, ghost s0: Fs) returns (ok: bool)
    requires Apart(u, false) && !Skip(u) && u.src in fs.nodes && fs.nodes[u.src].Dir?
    requires Untouched(s0, fs.nodes, u) && Free(fs.watch, s0, fs.nodes, u)
    modifies fs`nodes, fs`breached, fs`clock, fs`rollbackFailed, fs`cleanupFailed
    ensures SameBut(old(fs.nodes), fs.nodes, Paths(u)) && fs.breached == old(fs.breached)
    ensures old(fs.rollbackFailed) ==> fs.rollbackFailed
    ensures old(fs.cleanupFailed) ==> fs.cleanupFailed
    ensures Ready(s0, u) ==> Same(s0, fs.nodes, u.src)
    ensures ok ==> Copied(s0, fs.nodes, u, !fs.cleanupFailed) && fs.rollbackFailed == old(fs.rollbackFailed)
    ensures !ok && !fs.rollbackFailed ==> Restored(s0, fs.nodes, u, !fs.cleanupFailed)
    ensures fs.clock >= old(fs.clock) && (Quiet(fs.schedule, old(fs.clock), fs.clock) && Ready(s0, u) ==> ok && fs.cleanupFailed == old(fs.cleanupFailed))
    ensures StaleFaults(s0, u, fs.schedule, old(fs.clock)) ==>
      !ok && fs.rollbackFailed == old(fs.rollbackFailed) && StaleInstalled(s0, fs.nodes, u)
    ensures Once(fs.schedule, old(fs.clock)) && Ready(s0, u) && !ok ==> fs.rollbackFailed == old(fs.rollbackFailed) && Calm(fs.schedule, fs.clock)
  {
    ghost var was := fs.nodes;
    var staged := StageUnit(fs, u, s0, was);
    if !staged {
      if Once(fs.schedule, old(fs.clock)) { Spent(fs.schedule, old(fs.clock), fs.clock); }
      return false;
    }
    ok := PromoteExternal(fs, u, s0, was);
  }

  /** Clears a stale `.old` sibling and moves a pre-existing destination there. */
  method MoveAside(fs: FileSystem, u: Unit, ghost s0: Fs, ghost was: Fs) returns (aside: bool, ok: bool)
    requires Apart(u, false) && !Skip(u) && Within(fs, s0, was, u)
    requires Same(s0, fs.nodes, u.src) && Same(s0, fs.nodes, u.anchor) && Same(s0, fs.nodes, u.dst) && Same(s0, fs.nodes, u.old_)
    modifies fs`nodes, fs`breached, fs`clock, fs`rollbackFailed, fs`cleanupFailed
    ensures Within(fs, s0, was, u) && fs.breached == old(fs.breached) && fs.rollbackFailed == old(fs.rollbackFailed)
    ensures old(fs.cleanupFailed) ==> fs.cleanupFailed
    ensures Same(s0, fs.nodes, u.src) && Same(s0, fs.nodes, u.anchor) && Same(old(fs.nodes), fs.nodes, u.staging)
    ensures !ok ==> aside && Same(s0, fs.nodes, u.dst)
    ensures Ready(s0, u) ==> aside == (u.dst in s0)
    ensures ok && aside ==> u.dst in s0 && u.dst !in fs.nodes && u.old_ in fs.nodes && fs.nodes[u.old_] == s0[u.dst]
    ensures fs.clock >= old(fs.clock) && (Quiet(fs.schedule, old(fs.clock), fs.clock) && Ready(s0, u) ==> ok && fs.cleanupFailed == old(fs.cleanupFailed))
    ensures StaleOld(s0, u) && Faults(fs.schedule, old(fs.clock), s0[u.old_]) ==> ok && !aside && fs.nodes == old(fs.nodes) && fs.clock == old(fs.clock) + 1
    ensures ok && !aside ==> Same(s0, fs.nodes, u.dst) && (u.dst !in s0 && DstSafe(s0, u, !fs.cleanupFailed) ==> u.old_ !in fs.nodes)
  {
    var r := Wipe(fs, u.old_, u, s0, was, u.src);
    if !r { fs.cleanupFailed := true; }
    if StaleOld(s0, u) && Faults(fs.schedule, old(fs.clock), s0[u.old_]) {
      if s0[u.old_].Dir? { PartAll(s0[u.old_].tree, At(fs.schedule, old(fs.clock)).keep); }
    }
    aside, ok := Data(fs.nodes, u.dst).Some?, true;
    if aside {
      ok := Move(fs, u.dst, u.old_, u, s0, was, u.src);
    }
  }

  /** Moves a pre-existing destination aside and the staged copy into its place. */
  method PromoteExternal(fs: FileSystem, u: Unit, ghost s0: Fs, ghost was: Fs) returns (ok: bool)
    requires Apart(u, false) && !Skip(u) && Within(fs, s0, was, u)
    requires Ready(s0, u) ==> Holds(fs.nodes, u.staging, Orig(s0, u))
    requires Ready(s0, u) && CopySafe(s0, u, !fs.cleanupFailed) ==> fs.nodes[u.staging].tree == Orig(s0, u)
    requires Same(s0, fs.nodes, u.src) && Same(s0, fs.nodes, u.anchor) && Same(s0, fs.nodes, u.dst) && Same(s0, fs.nodes, u.old_)
    modifies fs`nodes, fs`breached, fs`clock, fs`rollbackFailed, fs`cleanupFailed
    ensures Within(fs, s0, was, u) && fs.breached == old(fs.breached)
    ensures old(fs.rollbackFailed) ==> fs.rollbackFailed
    ensures old(fs.cleanupFailed) ==> fs.cleanupFailed
    ensures Ready(s0, u) ==> Same(s0, fs.nodes, u.src)
    ensures ok ==> Copied(s0, fs.nodes, u, !fs.cleanupFailed) && fs.rollbackFailed == old(fs.rollbackFailed)
    ensures !ok && !fs.rollbackFailed ==> Restored(s0, fs.nodes, u, !fs.cleanupFailed)
    ensures fs.clock >= old(fs.clock) && (Quiet(fs.schedule, old(fs.clock), fs.clock) && Ready(s0, u) ==> ok && fs.cleanupFailed == old(fs.cleanupFailed))
    ensures StaleOld(s0, u) && Faults(fs.schedule, old(fs.clock), s0[u.old_]) ==>
      !ok && fs.rollbackFailed == old(fs.rollbackFailed) && StaleInstalled(s0, fs.nodes, u)
    ensures Once(fs.schedule, old(fs.clock)) && Ready(s0, u) && !ok ==> fs.rollbackFailed == old(fs.rollbackFailed) && Calm(fs.schedule, fs.clock)
  {
    var r: bool;
    var aside, moved := MoveAside(fs, u, s0, was);
    if !moved {
      if Once(fs.schedule, old(fs.clock)) && Ready(s0, u) { Spent(fs.schedule, old(fs.clock), fs.clock); }
      r := Wipe(fs, u.staging, u, s0, was, u.src);
      return false;
    }
    ok := Move(fs, u.staging, u.dst, u, s0, was, u.src);
    if !ok {
      if Once(fs.schedule, old(fs.clock)) && Ready(s0, u) { Spent(fs.schedule, old(fs.clock), fs.clock); }
      PutBack(fs, u, s0, was, aside);
    }
  }

  /** After a failed promotion: what is under the `.old` name goes to the destination, and the staged copy is cleared away. */
  method PutBack(fs: FileSystem, u: Unit, ghost s0: Fs, ghost was: Fs, aside: bool)
    requires Apart(u, false) && !Skip(u) && Within(fs, s0, was, u)
    requires Same(s0, fs.nodes, u.src) && Same(s0, fs.nodes, u.anchor) && (Ready(s0, u) ==> aside == (u.dst in s0))
    requires aside ==> u.dst in s0 && u.dst !in fs.nodes && u.old_ in fs.nodes && fs.nodes[u.old_] == s0[u.dst]
    requires !aside ==> Same(s0, fs.nodes, u.dst) && (u.dst !in s0 && DstSafe(s0, u, !fs.cleanupFailed) ==> u.old_ !in fs.nodes)
    modifies fs`nodes, fs`breached, fs`clock, fs`rollbackFailed
    ensures Within(fs, s0, was, u) && fs.breached == old(fs.breached) && fs.clock >= old(fs.clock)
    ensures old(fs.rollbackFailed) ==> fs.rollbackFailed
    ensures Same(s0, fs.nodes, u.src) && (!fs.rollbackFailed ==> Restored(s0, fs.nodes, u, !fs.cleanupFailed))
    ensures !aside && u.dst !in old(fs.nodes) && u.old_ in old(fs.nodes) && old(fs.Peek()).Good? ==>
      fs.rollbackFailed == old(fs.rollbackFailed) && u.dst in fs.nodes && fs.nodes[u.dst] == old(fs.nodes)[u.old_]
    ensures Calm(fs.schedule, old(fs.clock)) && (aside ==> u.dst !in old(fs.nodes)) ==> fs.rollbackFailed == old(fs.rollbackFailed)
  {
    var r := Move(fs, u.old_, u.dst, u, s0, was, u.src);
    if aside && !r { fs.rollbackFailed := true; }
    r := Wipe(fs, u.staging, u, s0, was, u.src);
  }

  /** The copy of one unit back to the system disk, into the place of its anchor link. */
  method CopyRestore(fs: FileSystem, u: Unit, ghost s0: Fs) returns (ok: bool)
    requires Apart(u, true) && !Skip(u) && u.src in fs.nodes && fs.nodes[u.src].Dir?
    requires Untouched(s0, fs.nodes, u) && Free(fs.watch, s0, fs.nodes, u)
    modifies fs`nodes, fs`breached, fs`clock, fs`rollbackFailed, fs`cleanupFailed
    ensures SameBut(old(fs.nodes), fs.nodes, Paths(u)) && fs.breached == old(fs.breached)
    ensures old(fs.rollbackFailed) ==> fs.rollbackFailed
    ensures old(fs.cleanupFailed) ==> fs.cleanupFailed
    ensures Ready(s0, u) ==> Same(s0, fs.nodes, u.src)
    ensures ok ==> Copied(s0, fs.nodes, u, !fs.cleanupFailed) && fs.rollbackFailed == old(fs.rollbackFailed)
    ensures !ok && !fs.rollbackFailed ==> Restored(s0, fs.nodes, u, !fs.cleanupFailed)
    ensures fs.clock >= old(fs.clock) && (Quiet(fs.schedule, old(fs.clock), fs.clock) && Ready(s0, u) ==> ok && fs.cleanupFailed == old(fs.cleanupFailed))
    ensures Once(fs.schedule, old(fs.clock)) && Ready(s0, u) && !ok ==> fs.rollbackFailed == old(fs.rollbackFailed) && Calm(fs.schedule, fs.clock)
  {
    ghost var was := fs.nodes;
    var staged := StageUnit(fs, u, s0, was);
    if !staged {
      if Once(fs.schedule, old(fs.clock)) { Spent(fs.schedule, old(fs.clock), fs.clock); }
      return false;
    }
    ok := PromoteRestore(fs, u, s0, was);
  }

  method PromoteRestore(fs: FileSystem, u: Unit, ghost s0: Fs, ghost was: Fs) returns (ok: bool)
    requires Apart(u, true) && !Skip(u) && Within(fs, s0, was, u)
    requires Ready(s0, u) ==> Holds(fs.nodes, u.staging, Orig(s0, u))
    requires Ready(s0, u) && CopySafe(s0, u, !fs.cleanupFailed) ==> fs.nodes[u.staging].tree == Orig(s0, u)
    requires Same(s0, fs.nodes, u.src) && Same(s0, fs.nodes, u.anchor)
    modifies fs`nodes, fs`breached, fs`clock, fs`rollbackFailed, fs`cleanupFailed
    ensures Within(fs, s0, was, u) && fs.breached == old(fs.breached) && fs.cleanupFailed == old(fs.cleanupFailed)
    ensures old(fs.rollbackFailed) ==> fs.rollbackFailed
    ensures Ready(s0, u) ==> Same(s0, fs.nodes, u.src)
    ensures ok ==> Copied(s0, fs.nodes, u, !fs.cleanupFailed) && fs.rollbackFailed == old(fs.rollbackFailed)
    ensures !ok && !fs.rollbackFailed ==> Restored(s0, fs.nodes, u, !fs.cleanupFailed)
    ensures fs.clock >= old(fs.clock) && (Quiet(fs.schedule, old(fs.clock), fs.clock) && Ready(s0, u) ==> ok && fs.cleanupFailed == old(fs.cleanupFailed))
    ensures Once(fs.schedule, old(fs.clock)) && Ready(s0, u) && !ok ==> fs.rollbackFailed == old(fs.rollbackFailed) && Calm(fs.schedule, fs.clock)
  {
    var r := Unlink(fs, u.anchor, u, s0, was, u.src);
    if !r {
      if Once(fs.schedule, old(fs.clock)) && Ready(s0, u) { Spent(fs.schedule, old(fs.clock), fs.clock); }
      r := Wipe(fs, u.staging, u, s0, was, u.src);
      return false;
    }
    ok := Move(fs, u.staging, u.anchor, u, s0, was, u.src);
    if !ok {
      if Once(fs.schedule, old(fs.clock)) && Ready(s0, u) { Spent(fs.schedule, old(fs.clock), fs.clock); }
      r := PutLink(fs, u.src, u.anchor, u, s0, was, u.src);
      if !r { fs.rollbackFailed := true; }
      r := Wipe(fs, u.staging, u, s0, was, u.src);
    }
  }

  /** One round of `rollbackCopies`. */
  method RollbackCopy(fs: FileSystem, u: Unit, restore: bool, ghost s0: Fs)
    requires Apart(u, restore) && !Skip(u) && Free(fs.watch, s0, fs.nodes, u)
    requires Copied(s0, fs.nodes, u, !fs.cleanupFailed) || (fs.rollbackFailed && !restore && OldHeld(s0, fs.nodes, u))
    modifies fs`nodes, fs`breached, fs`clock, fs`rollbackFailed
    ensures SameBut(old(fs.nodes), fs.nodes, Paths(u)) && fs.breached == old(fs.breached)
    ensures fs.cleanupFailed == old(fs.cleanupFailed)
    ensures old(fs.rollbackFailed) ==> fs.rollbackFailed
    ensures OldHeld(s0, fs.nodes, u)
    ensures !fs.rollbackFailed ==> Restored(s0, fs.nodes, u, !fs.cleanupFailed)
    ensures fs.clock >= old(fs.clock)
    ensures Calm(fs.schedule, old(fs.clock)) && Ready(s0, u) && !old(fs.rollbackFailed) ==> !fs.rollbackFailed
  {
    ghost var was := fs.nodes;
    ghost var home := if Ready(s0, u) && !Holds(fs.nodes, u.src, Orig(s0, u)) then u.bak else u.src;
    var r := Wipe(fs, u.dst, u, s0, was, home);
    if !r {
      fs.rollbackFailed := true;
      return;
    }
    if restore {
      r := PutLink(fs, u.src, u.anchor, u, s0, was, home);
      if !r { fs.rollbackFailed := true; }
    } else if Data(fs.nodes, u.old_).Some? {
      r := Move(fs, u.old_, u.dst, u, s0, was, home);
      if !r { fs.rollbackFailed := true; }
    }
  }

  /** One round of the anchor swap loop. */
  method SwapAnchor(fs: FileSystem, u: Unit, ghost s0: Fs) returns (ok: bool)
    requires Apart(u, false) && !Skip(u) && Free(fs.watch, s0, fs.nodes, u)
    requires Copied(s0, fs.nodes, u, !fs.cleanupFailed)
    modifies fs`nodes, fs`breached, fs`clock, fs`rollbackFailed
    ensures SameBut(old(fs.nodes), fs.nodes, Paths(u)) && fs.breached == old(fs.breached)
    ensures fs.cleanupFailed == old(fs.cleanupFailed)
    ensures old(fs.rollbackFailed) ==> fs.rollbackFailed
    ensures OldHeld(s0, fs.nodes, u)
    ensures ok ==> Swapped(s0, fs.nodes, u, !fs.cleanupFailed) && fs.rollbackFailed == old(fs.rollbackFailed)
    ensures !ok && !fs.rollbackFailed ==> Copied(s0, fs.nodes, u, !fs.cleanupFailed)
    ensures fs.clock >= old(fs.clock) && (Quiet(fs.schedule, old(fs.clock), fs.clock) && Ready(s0, u) ==> ok)
    ensures Once(fs.schedule, old(fs.clock)) && Ready(s0, u) && !ok ==> fs.rollbackFailed == old(fs.rollbackFailed) && Calm(fs.schedule, fs.clock)
  {
    ghost var was := fs.nodes;
    ok := BackupAnchor(fs, u, s0, was);
    if Once(fs.schedule, old(fs.clock)) && Ready(s0, u) && !ok { Spent(fs.schedule, old(fs.clock), fs.clock); }
    if ok { ok := LinkAnchor(fs, u, s0, was); }
  }

  /** The link takes the anchor's place, or the backed-up anchor goes back. */
  method LinkAnchor(fs: FileSystem, u: Unit, ghost s0: Fs, ghost was: Fs) returns (ok: bool)
    requires Apart(u, false) && !Skip(u) && Within(fs, s0, was, u) && BackedUp(s0, fs.nodes, u, !fs.cleanupFailed)
    modifies fs`nodes, fs`breached, fs`clock, fs`rollbackFailed
    ensures Within(fs, s0, was, u) && fs.breached == old(fs.breached) && OldHeld(s0, fs.nodes, u)
    ensures old(fs.rollbackFailed) ==> fs.rollbackFailed
    ensures ok ==> Swapped(s0, fs.nodes, u, !fs.cleanupFailed) && fs.rollbackFailed == old(fs.rollbackFailed)
    ensures !ok && !fs.rollbackFailed ==> Copied(s0, fs.nodes, u, !fs.cleanupFailed)
    ensures fs.clock >= old(fs.clock) && (Quiet(fs.schedule, old(fs.clock), fs.clock) && Ready(s0, u) ==> ok)
    ensures Once(fs.schedule, old(fs.clock)) && Ready(s0, u) && !ok ==> fs.rollbackFailed == old(fs.rollbackFailed) && Calm(fs.schedule, fs.clock)
  {
    ghost var home := if u.src == u.anchor then u.bak else u.src;
    ok := PutLink(fs, u.dst, u.anchor, u, s0, was, home);
    if !ok {
      if Once(fs.schedule, old(fs.clock)) && Ready(s0, u) { Spent(fs.schedule, old(fs.clock), fs.clock); }
      var r := Move(fs, u.bak, u.anchor, u, s0, was, home);
      if !r { fs.rollbackFailed := true; }
    }
  }

  /** A promoted unit whose anchor has been renamed to its backup. */
  ghost predicate BackedUp(s0: Fs, s: Fs, u: Unit, clean: bool) {
    Ready(s0, u) ==>
      && u.anchor !in s && u.bak in s && s[u.bak] == s0[u.anchor]
      && (u.src != u.anchor ==> Same(s0, s, u.src)) && Holds(s, u.dst, Orig(s0, u))
      && (CopySafe(s0, u, clean) ==> s[u.dst].tree == Orig(s0, u))
      && (if u.dst in s0 then u.old_ in s && s[u.old_] == s0[u.dst] else DstSafe(s0, u, clean) ==> u.old_ !in s)
  }

  /** Clears a stale backup and renames the anchor there. */
  method BackupAnchor(fs: FileSystem, u: Unit, ghost s0: Fs, ghost was: Fs) returns (ok: bool)
    requires Apart(u, false) && !Skip(u) && Within(fs, s0, was, u) && Copied(s0, fs.nodes, u, !fs.cleanupFailed)
    modifies fs`nodes, fs`breached, fs`clock
    ensures Within(fs, s0, was, u) && fs.breached == old(fs.breached)
    ensures !ok ==> Copied(s0, fs.nodes, u, !fs.cleanupFailed)
    ensures ok ==> BackedUp(s0, fs.nodes, u, !fs.cleanupFailed)
    ensures Same(old(fs.nodes), fs.nodes, u.dst) && Same(old(fs.nodes), fs.nodes, u.old_)
    ensures u.src != u.anchor ==> Same(old(fs.nodes), fs.nodes, u.src)
    ensures fs.clock >= old(fs.clock) && (Quiet(fs.schedule, old(fs.clock), fs.clock) && Ready(s0, u) ==> ok)
  {
    var r := Wipe(fs, u.bak, u, s0, was, u.src);
    ok := Move(fs, u.anchor, u.bak, u, s0, was, u.src);
  }

  /** One round of `rollbackSwaps`. */
  method UndoSwap(fs: FileSystem, u: Unit, ghost s0: Fs)
    requires Apart(u, false) && !Skip(u) && Free(fs.watch, s0, fs.nodes, u)
    requires Swapped(s0, fs.nodes, u, !fs.cleanupFailed)
    modifies fs`nodes, fs`breached, fs`clock, fs`rollbackFailed
    ensures SameBut(old(fs.nodes), fs.nodes, Paths(u)) && fs.breached == old(fs.breached)
    ensures fs.cleanupFailed == old(fs.cleanupFailed)
    ensures old(fs.rollbackFailed) ==> fs.rollbackFailed
    ensures OldHeld(s0, fs.nodes, u)
    ensures !fs.rollbackFailed ==> Copied(s0, fs.nodes, u, !fs.cleanupFailed)
    ensures fs.clock >= old(fs.clock)
    ensures Calm(fs.schedule, old(fs.clock)) && Ready(s0, u) && !old(fs.rollbackFailed) ==> !fs.rollbackFailed
  {
    ghost var was := fs.nodes;
    ghost var home := if u.src == u.anchor then u.bak else u.src;
    var r := Unlink(fs, u.anchor, u, s0, was, home);
    if !r { fs.rollbackFailed := true; }
    r := Move(fs, u.bak, u.anchor, u, s0, was, home);
    if !r { fs.rollbackFailed := true; }
  }

  // ----- deleting old data

  /** Work on `u` alone that keeps its anchor on the copy cannot break the watched property. */
  ghost predicate FreeLanded(watch: Fs -> bool, s0: Fs, was: Fs, u: Unit) {
    forall s :: SameBut(was, s, Paths(u)) && Landed(s0, s, u) ==> watch(s)
  }

  method Discard(fs: FileSystem, p: Path, u: Unit, ghost s0: Fs, ghost was: Fs)
    requires SameBut(was, fs.nodes, Paths(u)) && FreeLanded(fs.watch, s0, was, u) && Landed(s0, fs.nodes, u)
    requires p in Paths(u) && (Ready(s0, u) ==> p != u.dst && p != u.anchor)
    modifies fs`nodes, fs`breached, fs`clock, fs`deletionFailed
    ensures SameBut(was, fs.nodes, Paths(u)) && fs.breached == old(fs.breached) && Landed(s0, fs.nodes, u)
    ensures forall q :: q in Paths(u) && q != p ==> Same(old(fs.nodes), fs.nodes, q)
    ensures fs.clock == old(fs.clock) + 1 && (old(fs.deletionFailed) ==> fs.deletionFailed) && (!fs.deletionFailed ==> p !in fs.nodes)
    ensures Calm(fs.schedule, old(fs.clock)) ==> fs.deletionFailed == old(fs.deletionFailed)
  {
    var ok := fs.RemoveAll(p);
    if !ok { fs.deletionFailed := true; }
    OneMore(was, old(fs.nodes), fs.nodes, u, {p});
  }

  /** One round of the deletion of superseded data, after every anchor has been swapped. */
  method DeleteOld(fs: FileSystem, u: Unit, ghost s0: Fs)
    requires Apart(u, false) && FreeLanded(fs.watch, s0, fs.nodes, u)
    requires Ready(s0, u) ==> Swapped(s0, fs.nodes, u, false)
    modifies fs`nodes, fs`breached, fs`clock, fs`deletionFailed
    ensures SameBut(old(fs.nodes), fs.nodes, Paths(u)) && fs.breached == old(fs.breached) && Landed(s0, fs.nodes, u)
    ensures fs.clock >= old(fs.clock) && (old(fs.deletionFailed) ==> fs.deletionFailed) && (!fs.deletionFailed ==> Deleted(s0, fs.nodes, u))
    ensures Calm(fs.schedule, old(fs.clock)) ==> fs.deletionFailed == old(fs.deletionFailed)
    ensures Same(old(fs.nodes), fs.nodes, u.dst) || !Ready(s0, u)
  {
    ghost var was := fs.nodes;
    var wasSymlink := u.bak in fs.nodes && fs.nodes[u.bak].Link?;
    if wasSymlink {
      Discard(fs, u.src, u, s0, was);
    }
    Discard(fs, u.bak, u, s0, was);
    Discard(fs, u.old_, u, s0, was);
  }

  // ----- all units

  lemma Frames(s0: Fs, a: Fs, b: Fs, u: Unit, v: Unit)
    requires SameBut(a, b, Paths(v)) && Paths(u) !! Paths(v)
    ensures OldHeld(s0, a, u) ==> OldHeld(s0, b, u)
    ensures Landed(s0, a, u) ==> Landed(s0, b, u)
    ensures forall clean :: Restored(s0, a, u, clean) ==> Restored(s0, b, u, clean)
    ensures Untouched(s0, a, u) ==> Untouched(s0, b, u)
    ensures Deleted(s0, a, u) ==> Deleted(s0, b, u)
  {
    assert forall p :: p in Paths(u) ==> p !in Paths(v);
    assert Same(a, b, u.anchor) && Same(a, b, u.src) && Same(a, b, u.dst);
    assert Same(a, b, u.staging) && Same(a, b, u.old_) && Same(a, b, u.bak);
  }

  lemma FramesCopied(s0: Fs, a: Fs, b: Fs, u: Unit, v: Unit, clean: bool)
    requires SameBut(a, b, Paths(v)) && Paths(u) !! Paths(v)
    ensures Copied(s0, a, u, clean) ==> Copied(s0, b, u, clean)
    ensures Swapped(s0, a, u, clean) ==> Swapped(s0, b, u, clean)
  {
    assert forall p :: p in Paths(u) ==> p !in Paths(v);
    assert Same(a, b, u.anchor) && Same(a, b, u.src) && Same(a, b, u.dst);
    assert Same(a, b, u.old_) && Same(a, b, u.bak);
  }

  ghost predicate Watching(fs: FileSystem, s0: Fs, units: seq<Unit>) {
    forall s :: fs.watch(s) == Safe(s0, s, units)
  }

  lemma HeldIsFree(fs: FileSystem, s0: Fs, was: Fs, units: seq<Unit>, restore: bool, i: nat)
    requires Disjoint(units, restore) && Watching(fs, s0, units) && i < |units| && AllHeld(s0, was, units)
    ensures Free(fs.watch, s0, was, units[i])
  {
    forall s | SameBut(was, s, Paths(units[i])) && OldHeld(s0, s, units[i]) ensures fs.watch(s) {
      forall j | 0 <= j < |units| ensures OldHeld(s0, s, units[j]) {
        if j != i { Frames(s0, was, s, units[j], units[i]); }
      }
      assert AllHeld(s0, s, units);
    }
  }

  lemma LandedIsFree(fs: FileSystem, s0: Fs, was: Fs, units: seq<Unit>, restore: bool, i: nat)
    requires Disjoint(units, restore) && Watching(fs, s0, units) && i < |units| && AllLanded(s0, was, units)
    ensures FreeLanded(fs.watch, s0, was, units[i])
  {
    forall s | SameBut(was, s, Paths(units[i])) && Landed(s0, s, units[i]) ensures fs.watch(s) {
      forall j | 0 <= j < |units| ensures Landed(s0, s, units[j]) {
        if j != i { Frames(s0, was, s, units[j], units[i]); }
      }
      assert AllLanded(s0, s, units);
    }
  }

  /** After work on unit `i` alone the other units keep what they had. */
  lemma OthersKeep(s0: Fs, a: Fs, b: Fs, units: seq<Unit>, restore: bool, i: nat)
    requires Disjoint(units, restore) && i < |units| && SameBut(a, b, Paths(units[i]))
    ensures forall j :: 0 <= j < |units| && j != i ==>
      && (OldHeld(s0, a, units[j]) ==> OldHeld(s0, b, units[j]))
      && (Landed(s0, a, units[j]) ==> Landed(s0, b, units[j]))
      && (Untouched(s0, a, units[j]) ==> Untouched(s0, b, units[j]))
      && (Deleted(s0, a, units[j]) ==> Deleted(s0, b, units[j]))
    ensures forall j, clean :: 0 <= j < |units| && j != i ==>
      && (Copied(s0, a, units[j], clean) ==> Copied(s0, b, units[j], clean))
      && (Swapped(s0, a, units[j], clean) ==> Swapped(s0, b, units[j], clean))
      && (Restored(s0, a, units[j], clean) ==> Restored(s0, b, units[j], clean))
  {
    forall j | 0 <= j < |units| && j != i
      ensures OldHeld(s0, a, units[j]) ==> OldHeld(s0, b, units[j])
      ensures Landed(s0, a, units[j]) ==> Landed(s0, b, units[j])
      ensures Untouched(s0, a, units[j]) ==> Untouched(s0, b, units[j])
      ensures Deleted(s0, a, units[j]) ==> Deleted(s0, b, units[j])
    {
      Frames(s0, a, b, units[j], units[i]);
    }
    forall j, clean | 0 <= j < |units| && j != i
      ensures Copied(s0, a, units[j], clean) ==> Copied(s0, b, units[j], clean)
      ensures Swapped(s0, a, units[j], clean) ==> Swapped(s0, b, units[j], clean)
      ensures Restored(s0, a, units[j], clean) ==> Restored(s0, b, units[j], clean)
    {
      Frames(s0, a, b, units[j], units[i]);
      FramesCopied(s0, a, b, units[j], units[i], clean);
    }
  }

  /** The loop's record of finished units: increasing positions, in step with how far it has come. */
  ghost predicate Positions(done: seq<nat>, n: nat) {
    && (forall k :: 0 <= k < |done| ==> done[k] < n)
    && (forall j, k :: 0 <= j < k < |done| ==> done[j] < done[k])
  }

  /** Everything promoted so far is undone, last first. */
  method RollbackCopies(fs: FileSystem, units: seq<Unit>, restore: bool, done: seq<nat>, ghost s0: Fs)
    requires Disjoint(units, restore) && Watching(fs, s0, units) && Positions(done, |units|) && AllHeld(s0, fs.nodes, units)
    requires forall k :: 0 <= k < |done| ==> !Skip(units[done[k]])
    requires forall k :: 0 <= k < |done| ==>
      Copied(s0, fs.nodes, units[done[k]], !fs.cleanupFailed) || (fs.rollbackFailed && !restore)
    modifies fs`nodes, fs`breached, fs`clock, fs`rollbackFailed
    ensures AllHeld(s0, fs.nodes, units) && fs.breached == old(fs.breached) && fs.cleanupFailed == old(fs.cleanupFailed)
    ensures old(fs.rollbackFailed) ==> fs.rollbackFailed
    ensures done == [] ==> fs.nodes == old(fs.nodes) && fs.rollbackFailed == old(fs.rollbackFailed)
    ensures !fs.rollbackFailed ==>
      (forall k :: 0 <= k < |done| ==> Restored(s0, fs.nodes, units[done[k]], !fs.cleanupFailed))
    ensures forall i :: 0 <= i < |units| && i !in done && Restored(s0, old(fs.nodes), units[i], !fs.cleanupFailed) ==>
      Restored(s0, fs.nodes, units[i], !fs.cleanupFailed)
    ensures fs.clock >= old(fs.clock)
    ensures Calm(fs.schedule, old(fs.clock)) && AllReady(s0, units) && !old(fs.rollbackFailed) ==> !fs.rollbackFailed
  {
    var n := |done|;
    while n > 0
      invariant 0 <= n <= |done| && AllHeld(s0, fs.nodes, units) && fs.clock >= old(fs.clock)
      invariant Calm(fs.schedule, old(fs.clock)) && AllReady(s0, units) && !old(fs.rollbackFailed) ==> !fs.rollbackFailed
      invariant done == [] ==> fs.nodes == old(fs.nodes) && fs.rollbackFailed == old(fs.rollbackFailed)
      invariant fs.breached == old(fs.breached) && fs.cleanupFailed == old(fs.cleanupFailed)
      invariant old(fs.rollbackFailed) ==> fs.rollbackFailed
      invariant forall k :: 0 <= k < n ==>
        Copied(s0, fs.nodes, units[done[k]], !fs.cleanupFailed) || (fs.rollbackFailed && !restore)
      invariant !fs.rollbackFailed ==>
        (forall k :: n <= k < |done| ==> Restored(s0, fs.nodes, units[done[k]], !fs.cleanupFailed))
      invariant forall i :: 0 <= i < |units| && i !in done && Restored(s0, old(fs.nodes), units[i], !fs.cleanupFailed) ==>
      Restored(s0, fs.nodes, units[i], !fs.cleanupFailed)
    {
      n := n - 1;
      ghost var was := fs.nodes;
      HeldIsFree(fs, s0, was, units, restore, done[n]);
      RollbackCopy(fs, units[done[n]], restore, s0);
      OthersKeep(s0, was, fs.nodes, units, restore, done[n]);
    }
  }

  /** Every unit is either left alone by design or ready to be moved. */
  ghost predicate AllReady(s0: Fs, units: seq<Unit>) {
    forall i :: 0 <= i < |units| ==> Skip(units[i]) || Ready(s0, units[i])
  }

  ghost predicate AllRestored(s0: Fs, s: Fs, units: seq<Unit>, clean: bool) {
    forall i :: 0 <= i < |units| ==> Restored(s0, s, units[i], clean)
  }

  /** Where the copy loop stands after `n` units: `done` are promoted, all others as they were. */
  ghost predicate CopyState(s0: Fs, s: Fs, units: seq<Unit>, done: seq<nat>, n: nat, clean: bool) {
    && n <= |units| && Positions(done, n)
    && (forall k :: 0 <= k < |done| ==> !Skip(units[done[k]]) && Copied(s0, s, units[done[k]], clean))
    && (forall i :: 0 <= i < |units| && i !in done ==> Untouched(s0, s, units[i]))
    && (forall i :: 0 <= i < n && Ready(s0, units[i]) ==> i in done)
    && AllHeld(s0, s, units)
  }

  lemma UntouchedHeld(s0: Fs, s: Fs, u: Unit)
    requires Untouched(s0, s, u)
    ensures OldHeld(s0, s, u) && forall clean :: Restored(s0, s, u, clean)
    ensures Ready(s0, u) ==> u.src in s && s[u.src].Dir? && Resolve(s, u.anchor) == Some(u.src)
  {
    assert Same(s0, s, u.anchor) && Same(s0, s, u.src) && Same(s0, s, u.dst);
  }

  /** Copying unit `n` extends the state of the loop. */
  lemma CopyAdvances(s0: Fs, a: Fs, b: Fs, units: seq<Unit>, restore: bool, done: seq<nat>, n: nat, clean: bool, clean': bool)
    requires Disjoint(units, restore) && CopyState(s0, a, units, done, n, clean) && n < |units|
    requires SameBut(a, b, Paths(units[n])) && !Skip(units[n]) && Copied(s0, b, units[n], clean') && (clean' ==> clean)
    ensures CopyState(s0, b, units, done + [n], n + 1, clean')
  {
    OthersKeep(s0, a, b, units, restore, n);
    var next := done + [n];
    forall k | 0 <= k < |next| ensures Copied(s0, b, units[next[k]], clean') {
      if k < |done| { assert Copied(s0, b, units[done[k]], clean); }
    }
    forall i | 0 <= i < n + 1 && Ready(s0, units[i]) ensures i in next { }
  }

  lemma CopySkips(s0: Fs, s: Fs, units: seq<Unit>, done: seq<nat>, n: nat, clean: bool)
    requires CopyState(s0, s, units, done, n, clean) && n < |units| && !Ready(s0, units[n])
    ensures CopyState(s0, s, units, done, n + 1, clean)
  {
  }

  datatype CopyEnd = AllCopied | CopyFailed | SourceMissing

  /** One round of the copy loop; a failure undoes the rounds before it. */
  method CopyOne(fs: FileSystem, units: seq<Unit>, restore: bool, done: seq<nat>, n: nat, ghost s0: Fs) returns (ok: bool)
    requires Disjoint(units, restore) && Watching(fs, s0, units) && n < |units| && !Skip(units[n])
    requires CopyState(s0, fs.nodes, units, done, n, !fs.cleanupFailed) && !fs.rollbackFailed
    requires units[n].src in fs.nodes && fs.nodes[units[n].src].Dir?
    modifies fs`nodes, fs`breached, fs`clock, fs`rollbackFailed, fs`cleanupFailed
    ensures fs.breached == old(fs.breached)
    ensures ok ==> CopyState(s0, fs.nodes, units, done + [n], n + 1, !fs.cleanupFailed) && !fs.rollbackFailed
    ensures !ok && !fs.rollbackFailed ==> AllRestored(s0, fs.nodes, units, !fs.cleanupFailed)
    ensures done == [] && !restore && StaleFaults(s0, units[n], fs.schedule, old(fs.clock)) ==>
      !ok && !fs.rollbackFailed && StaleInstalled(s0, fs.nodes, units[n])
    ensures fs.clock >= old(fs.clock)
    ensures Quiet(fs.schedule, old(fs.clock), fs.clock) && Ready(s0, units[n]) ==> ok && fs.cleanupFailed == old(fs.cleanupFailed)
    ensures Once(fs.schedule, old(fs.clock)) && AllReady(s0, units) && !ok ==> !fs.rollbackFailed
  {
    ghost var was, wasClean := fs.nodes, !fs.cleanupFailed;
    HeldIsFree(fs, s0, was, units, restore, n);
    if restore { ok := CopyRestore(fs, units[n], s0); } else { ok := CopyExternal(fs, units[n], s0); }
    if ok {
      CopyAdvances(s0, was, fs.nodes, units, restore, done, n, wasClean, !fs.cleanupFailed);
    } else {
      FailedCopy(s0, was, fs.nodes, units, restore, done, n, wasClean);
      CopiedWeakens(s0, fs.nodes, units, done, wasClean, !fs.cleanupFailed);
      RollbackCopies(fs, units, restore, done, s0);
      if !fs.rollbackFailed {
        RestoredAll(s0, fs.nodes, units, done, !fs.cleanupFailed);
      }
    }
  }

  lemma RestoredAll(s0: Fs, s: Fs, units: seq<Unit>, done: seq<nat>, clean: bool)
    requires Positions(done, |units|)
    requires forall k :: 0 <= k < |done| ==> Restored(s0, s, units[done[k]], clean)
    requires forall i :: 0 <= i < |units| && i !in done ==> Restored(s0, s, units[i], clean)
    ensures AllRestored(s0, s, units, clean)
  {
    forall i | 0 <= i < |units| ensures Restored(s0, s, units[i], clean) {
      if i in done { var k :| 0 <= k < |done| && done[k] == i; }
    }
  }

  /** A migration of which the first unit is ready and has a stale `.old` sibling. */
  predicate StaleRun(s0: Fs, units: seq<Unit>, restore: bool, schedule: seq<Outcome>, i: nat) {
    !restore && units != [] && Ready(s0, units[0]) && StaleFaults(s0, units[0], schedule, i)
  }

  /** One unit of the copy loop: left alone, copied, or the end of the run; `AllCopied` says that the loop goes on. */
  method CopyNext(fs: FileSystem, units: seq<Unit>, restore: bool, done: seq<nat>, n: nat, ghost s0: Fs) returns (more: seq<nat>, end: CopyEnd)
    requires Disjoint(units, restore) && Watching(fs, s0, units) && n < |units|
    requires CopyState(s0, fs.nodes, units, done, n, !fs.cleanupFailed) && !fs.rollbackFailed
    modifies fs`nodes, fs`breached, fs`clock, fs`rollbackFailed, fs`cleanupFailed
    ensures fs.breached == old(fs.breached) && fs.clock >= old(fs.clock)
    ensures end.AllCopied? ==> CopyState(s0, fs.nodes, units, more, n + 1, !fs.cleanupFailed) && !fs.rollbackFailed
    ensures end.CopyFailed? && !fs.rollbackFailed ==> AllRestored(s0, fs.nodes, units, !fs.cleanupFailed)
    ensures end.SourceMissing? ==> restore && !AllReady(s0, units)
    ensures done == [] && !restore && Ready(s0, units[n]) && StaleFaults(s0, units[n], fs.schedule, old(fs.clock)) ==>
      end.CopyFailed? && !fs.rollbackFailed && StaleInstalled(s0, fs.nodes, units[n])
    ensures Quiet(fs.schedule, old(fs.clock), fs.clock) && AllReady(s0, units) ==> end.AllCopied? && fs.cleanupFailed == old(fs.cleanupFailed)
    ensures Once(fs.schedule, old(fs.clock)) && AllReady(s0, units) ==> !fs.rollbackFailed
  {
    var u := units[n];
    UntouchedHeld(s0, fs.nodes, u);
    if Skip(u) || Resolve(fs.nodes, u.anchor) == Some(u.dst) {
      CopySkips(s0, fs.nodes, units, done, n, !fs.cleanupFailed);
      return done, AllCopied;
    }
    if !(u.src in fs.nodes && fs.nodes[u.src].Dir?) {
      if restore { return done, SourceMissing; }
      CopySkips(s0, fs.nodes, units, done, n, !fs.cleanupFailed);
      return done, AllCopied;
    }
    var ok := CopyOne(fs, units, restore, done, n, s0);
    return done + [n], if ok then AllCopied else CopyFailed;
  }

  /** The copy loop, with `failCopy` on an error. */
  method CopyAll(fs: FileSystem, units: seq<Unit>, restore: bool) returns (done: seq<nat>, end: CopyEnd)
    requires Disjoint(units, restore) && Watching(fs, fs.nodes, units)
    requires !fs.rollbackFailed && !fs.cleanupFailed
    modifies fs`nodes, fs`breached, fs`clock, fs`rollbackFailed, fs`cleanupFailed
    ensures fs.breached == old(fs.breached)
    ensures end.AllCopied? ==> CopyState(old(fs.nodes), fs.nodes, units, done, |units|, !fs.cleanupFailed) && !fs.rollbackFailed
    ensures end.CopyFailed? && !fs.rollbackFailed ==> AllRestored(old(fs.nodes), fs.nodes, units, !fs.cleanupFailed)
    ensures end.SourceMissing? ==> restore && !AllReady(old(fs.nodes), units)
    ensures StaleRun(old(fs.nodes), units, restore, fs.schedule, old(fs.clock)) ==>
      end.CopyFailed? && !fs.rollbackFailed && StaleInstalled(old(fs.nodes), fs.nodes, units[0])
    ensures fs.clock >= old(fs.clock)
    ensures Quiet(fs.schedule, old(fs.clock), fs.clock) && AllReady(old(fs.nodes), units) ==> end.AllCopied? && !fs.cleanupFailed
    ensures Once(fs.schedule, old(fs.clock)) && AllReady(old(fs.nodes), units) ==> !fs.rollbackFailed
  {
    ghost var s0 := fs.nodes;
    done := [];
    for n := 0 to |units|
      invariant CopyState(s0, fs.nodes, units, done, n, !fs.cleanupFailed)
      invariant fs.breached == old(fs.breached) && !fs.rollbackFailed
      invariant n == 0 ==> done == [] && fs.clock == old(fs.clock) && fs.nodes == s0
      invariant fs.clock >= old(fs.clock)
      invariant Quiet(fs.schedule, old(fs.clock), fs.clock) && AllReady(s0, units) ==> !fs.cleanupFailed
      invariant n > 0 ==> !StaleRun(s0, units, restore, fs.schedule, old(fs.clock))
    {
      done, end := CopyNext(fs, units, restore, done, n, s0);
      if !end.AllCopied? { return; }
    }
    end := AllCopied;
  }

  lemma FailedCopy(s0: Fs, a: Fs, b: Fs, units: seq<Unit>, restore: bool, done: seq<nat>, n: nat, clean: bool)
    requires Disjoint(units, restore) && CopyState(s0, a, units, done, n, clean) && n < |units|
    requires SameBut(a, b, Paths(units[n])) && (Ready(s0, units[n]) ==> Same(s0, b, units[n].src))
    ensures AllHeld(s0, b, units)
    ensures forall k :: 0 <= k < |done| ==> Copied(s0, b, units[done[k]], clean)
    ensures forall i, c :: 0 <= i < |units| && i !in done && i != n ==> Restored(s0, b, units[i], c)
  {
    OthersKeep(s0, a, b, units, restore, n);
    forall i, c | 0 <= i < |units| && i !in done && i != n ensures Restored(s0, b, units[i], c) {
      UntouchedHeld(s0, a, units[i]);
    }
  }

  lemma CopiedWeakens(s0: Fs, s: Fs, units: seq<Unit>, done: seq<nat>, clean: bool, clean': bool)
    requires Positions(done, |units|) && (clean' ==> clean)
    requires forall k :: 0 <= k < |done| ==> Copied(s0, s, units[done[k]], clean)
    ensures forall k :: 0 <= k < |done| ==> Copied(s0, s, units[done[k]], clean')
  {
  }

  // ----- the anchor swap

  /** Where the swap loop stands: `swapped` anchors are links, the remaining copies are as promoted. */
  ghost predicate SwapState(s0: Fs, s: Fs, units: seq<Unit>, done: seq<nat>, swapped: seq<nat>, n: nat, clean: bool) {
    && n <= |units| && Positions(done, |units|) && Positions(swapped, n)
    && (forall k :: 0 <= k < |done| ==> !Skip(units[done[k]]))
    && (forall i :: 0 <= i < |units| && Ready(s0, units[i]) ==> i in done)
    && (forall k :: 0 <= k < |swapped| ==> !Skip(units[swapped[k]]) && Swapped(s0, s, units[swapped[k]], clean))
    && (forall i :: 0 <= i < |units| && i !in swapped ==> Copied(s0, s, units[i], clean))
    && (forall i :: 0 <= i < n && Ready(s0, units[i]) ==> i in swapped)
    && AllHeld(s0, s, units)
  }

  lemma SwapStart(s0: Fs, s: Fs, units: seq<Unit>, done: seq<nat>, clean: bool)
    requires CopyState(s0, s, units, done, |units|, clean)
    ensures SwapState(s0, s, units, done, [], 0, clean)
  {
    forall i | 0 <= i < |units| ensures Copied(s0, s, units[i], clean) {
      if i in done { var k :| 0 <= k < |done| && done[k] == i; }
    }
  }

  lemma SwapAdvances(s0: Fs, a: Fs, b: Fs, units: seq<Unit>, done: seq<nat>, swapped: seq<nat>, n: nat, clean: bool)
    requires Disjoint(units, false) && SwapState(s0, a, units, done, swapped, n, clean) && n < |units|
    requires SameBut(a, b, Paths(units[n])) && !Skip(units[n]) && Swapped(s0, b, units[n], clean) && OldHeld(s0, b, units[n])
    ensures SwapState(s0, b, units, done, swapped + [n], n + 1, clean)
  {
    OthersKeep(s0, a, b, units, false, n);
    var next := swapped + [n];
    forall k | 0 <= k < |next| ensures Swapped(s0, b, units[next[k]], clean) { }
    forall i | 0 <= i < n + 1 && Ready(s0, units[i]) ensures i in next { }
    forall i | 0 <= i < |units| && i !in next ensures Copied(s0, b, units[i], clean) {
      assert i !in swapped;
      assert n in next;
    }
  }

  /** Every swapped anchor is put back, last first. */
  method RollbackSwaps(fs: FileSystem, units: seq<Unit>, swapped: seq<nat>, ghost s0: Fs)
    requires Disjoint(units, false) && Watching(fs, s0, units) && Positions(swapped, |units|) && AllHeld(s0, fs.nodes, units)
    requires forall k :: 0 <= k < |swapped| ==> !Skip(units[swapped[k]]) && Swapped(s0, fs.nodes, units[swapped[k]], !fs.cleanupFailed)
    modifies fs`nodes, fs`breached, fs`clock, fs`rollbackFailed
    ensures AllHeld(s0, fs.nodes, units) && fs.breached == old(fs.breached) && fs.cleanupFailed == old(fs.cleanupFailed)
    ensures old(fs.rollbackFailed) ==> fs.rollbackFailed
    ensures !fs.rollbackFailed ==>
      forall k :: 0 <= k < |swapped| ==> Copied(s0, fs.nodes, units[swapped[k]], !fs.cleanupFailed)
    ensures forall i :: 0 <= i < |units| && i !in swapped && Copied(s0, old(fs.nodes), units[i], !fs.cleanupFailed) ==>
      Copied(s0, fs.nodes, units[i], !fs.cleanupFailed)
    ensures fs.clock >= old(fs.clock)
    ensures Calm(fs.schedule, old(fs.clock)) && AllReady(s0, units) && !old(fs.rollbackFailed) ==> !fs.rollbackFailed
  {
    var n := |swapped|;
    ghost var start, clean := fs.nodes, !fs.cleanupFailed;
    while n > 0
      invariant 0 <= n <= |swapped| && fs.clock >= old(fs.clock) && fs.breached == old(fs.breached)
      invariant old(fs.rollbackFailed) ==> fs.rollbackFailed
      invariant Calm(fs.schedule, old(fs.clock)) && AllReady(s0, units) && !old(fs.rollbackFailed) ==> !fs.rollbackFailed
      invariant Undoing(s0, start, fs.nodes, units, swapped, n, clean, fs.rollbackFailed)
    {
      n := n - 1;
      ghost var was, failed := fs.nodes, fs.rollbackFailed;
      HeldIsFree(fs, s0, was, units, false, swapped[n]);
      UndoSwap(fs, units[swapped[n]], s0);
      UndoingStep(s0, start, was, fs.nodes, units, swapped, n, clean, failed, fs.rollbackFailed);
    }
  }

  /** Where the undoing of swaps stands: the first n are still swapped, the others are back, and the rest is as it was. */
  ghost predicate Undoing(s0: Fs, start: Fs, s: Fs, units: seq<Unit>, swapped: seq<nat>, n: nat, clean: bool, failed: bool)
    requires Positions(swapped, |units|) && n <= |swapped|
  {
    && AllHeld(s0, s, units)
    && (forall k :: 0 <= k < n ==> Swapped(s0, s, units[swapped[k]], clean))
    && (!failed ==> forall k :: n <= k < |swapped| ==> Copied(s0, s, units[swapped[k]], clean))
    && (forall i :: 0 <= i < |units| && i !in swapped && Copied(s0, start, units[i], clean) ==> Copied(s0, s, units[i], clean))
  }

  lemma UndoingStep(s0: Fs, start: Fs, a: Fs, b: Fs, units: seq<Unit>, swapped: seq<nat>, n: nat, clean: bool, failed: bool, failed': bool)
    requires Disjoint(units, false) && Positions(swapped, |units|) && n < |swapped| && (failed ==> failed')
    requires Undoing(s0, start, a, units, swapped, n + 1, clean, failed)
    requires SameBut(a, b, Paths(units[swapped[n]])) && OldHeld(s0, b, units[swapped[n]])
    requires !failed' ==> Copied(s0, b, units[swapped[n]], clean)
    ensures Undoing(s0, start, b, units, swapped, n, clean, failed')
  {
    OthersKeep(s0, a, b, units, false, swapped[n]);
  }

  /** One round of the swap loop; a failure undoes all swaps and then all copies. */
  method SwapOne(fs: FileSystem, units: seq<Unit>, done: seq<nat>, swapped: seq<nat>, n: nat, ghost s0: Fs) returns (ok: bool)
    requires Disjoint(units, false) && Watching(fs, s0, units) && n < |units| && !Skip(units[n])
    requires SwapState(s0, fs.nodes, units, done, swapped, n, !fs.cleanupFailed) && !fs.rollbackFailed
    modifies fs`nodes, fs`breached, fs`clock, fs`rollbackFailed
    ensures fs.breached == old(fs.breached) && fs.cleanupFailed == old(fs.cleanupFailed)
    ensures ok ==> SwapState(s0, fs.nodes, units, done, swapped + [n], n + 1, !fs.cleanupFailed) && !fs.rollbackFailed
    ensures !ok && !fs.rollbackFailed ==> AllRestored(s0, fs.nodes, units, !fs.cleanupFailed)
    ensures fs.clock >= old(fs.clock) && (Quiet(fs.schedule, old(fs.clock), fs.clock) && Ready(s0, units[n]) ==> ok)
    ensures Once(fs.schedule, old(fs.clock)) && AllReady(s0, units) ==> !fs.rollbackFailed
  {
    ghost var was := fs.nodes;
    HeldIsFree(fs, s0, was, units, false, n);
    ok := SwapAnchor(fs, units[n], s0);
    if ok {
      SwapAdvances(s0, was, fs.nodes, units, done, swapped, n, !fs.cleanupFailed);
    } else {
      FailedSwap(s0, was, fs.nodes, units, done, swapped, n, !fs.cleanupFailed);
      RollbackSwaps(fs, units, swapped, s0);
      assert !fs.rollbackFailed ==> forall i :: 0 <= i < |units| ==> Copied(s0, fs.nodes, units[i], !fs.cleanupFailed) by {
        if !fs.rollbackFailed {
          forall i | 0 <= i < |units| ensures Copied(s0, fs.nodes, units[i], !fs.cleanupFailed) {
            if i in swapped { var k :| 0 <= k < |swapped| && swapped[k] == i; }
          }
        }
      }
      RollbackCopies(fs, units, false, done, s0);
      if !fs.rollbackFailed {
        RestoredAll(s0, fs.nodes, units, done, !fs.cleanupFailed);
      }
    }
  }

  lemma FailedSwap(s0: Fs, a: Fs, b: Fs, units: seq<Unit>, done: seq<nat>, swapped: seq<nat>, n: nat, clean: bool)
    requires Disjoint(units, false) && SwapState(s0, a, units, done, swapped, n, clean) && n < |units|
    requires SameBut(a, b, Paths(units[n])) && OldHeld(s0, b, units[n])
    ensures AllHeld(s0, b, units) && n !in swapped
    ensures forall k :: 0 <= k < |swapped| ==> Swapped(s0, b, units[swapped[k]], clean)
    ensures forall i :: 0 <= i < |units| && i !in swapped && i != n ==> Copied(s0, b, units[i], clean)
  {
    OthersKeep(s0, a, b, units, false, n);
  }

  lemma SwapSkips(s0: Fs, s: Fs, units: seq<Unit>, done: seq<nat>, swapped: seq<nat>, n: nat, clean: bool)
    requires Disjoint(units, false) && SwapState(s0, s, units, done, swapped, n, clean) && n < |units|
    requires Skip(units[n]) || Resolve(s, units[n].anchor) == Some(units[n].dst)
    ensures SwapState(s0, s, units, done, swapped, n + 1, clean)
  {
    assert n !in swapped;
    assert Copied(s0, s, units[n], clean);
  }

  /** The swap loop. */
  method SwapAll(fs: FileSystem, units: seq<Unit>, done: seq<nat>, ghost s0: Fs) returns (swapped: seq<nat>, ok: bool)
    requires Disjoint(units, false) && Watching(fs, s0, units)
    requires CopyState(s0, fs.nodes, units, done, |units|, !fs.cleanupFailed) && !fs.rollbackFailed
    modifies fs`nodes, fs`breached, fs`clock, fs`rollbackFailed
    ensures fs.breached == old(fs.breached) && fs.cleanupFailed == old(fs.cleanupFailed)
    ensures ok ==> SwapState(s0, fs.nodes, units, done, swapped, |units|, !fs.cleanupFailed)
    ensures !ok && !fs.rollbackFailed ==> AllRestored(s0, fs.nodes, units, !fs.cleanupFailed)
    ensures fs.clock >= old(fs.clock) && (Quiet(fs.schedule, old(fs.clock), fs.clock) && AllReady(s0, units) ==> ok)
    ensures Once(fs.schedule, old(fs.clock)) && AllReady(s0, units) ==> !fs.rollbackFailed
    ensures ok ==> !fs.rollbackFailed
  {
    SwapStart(s0, fs.nodes, units, done, !fs.cleanupFailed);
    swapped := [];
    for n := 0 to |units|
      invariant SwapState(s0, fs.nodes, units, done, swapped, n, !fs.cleanupFailed) && !fs.rollbackFailed
      invariant fs.clock >= old(fs.clock)
      invariant fs.breached == old(fs.breached) && fs.cleanupFailed == old(fs.cleanupFailed)
    {
      if Skip(units[n]) || Resolve(fs.nodes, units[n].anchor) == Some(units[n].dst) {
        SwapSkips(s0, fs.nodes, units, done, swapped, n, !fs.cleanupFailed);
        continue;
      }
      ok := SwapOne(fs, units, done, swapped, n, s0);
      if !ok { return; }
      swapped := swapped + [n];
    }
    ok := true;
  }

  /** The anchor leads to a tree that is exactly the original data. */
  ghost predicate Exact(s0: Fs, s: Fs, u: Unit, clean: bool) {
    Ready(s0, u) && CopySafe(s0, u, clean) ==> u.dst in s && s[u.dst] == Dir(Orig(s0, u))
  }

  lemma SwappedLanded(s0: Fs, s: Fs, units: seq<Unit>, done: seq<nat>, swapped: seq<nat>, clean: bool)
    requires SwapState(s0, s, units, done, swapped, |units|, clean)
    ensures AllLanded(s0, s, units)
    ensures forall i :: 0 <= i < |units| ==> Exact(s0, s, units[i], clean)
    ensures forall k :: 0 <= k < |swapped| ==> Swapped(s0, s, units[swapped[k]], false)
  {
    forall i | 0 <= i < |units| && Ready(s0, units[i])
      ensures Landed(s0, s, units[i]) && Exact(s0, s, units[i], clean)
    {
      var k :| 0 <= k < |swapped| && swapped[k] == i;
    }
  }

  lemma ExactKeep(s0: Fs, a: Fs, b: Fs, units: seq<Unit>, restore: bool, i: nat, clean: bool)
    requires Disjoint(units, restore) && i < |units| && SameBut(a, b, Paths(units[i]))
    requires forall j :: 0 <= j < |units| ==> Exact(s0, a, units[j], clean)
    requires Ready(s0, units[i]) ==> Same(a, b, units[i].dst)
    ensures forall j :: 0 <= j < |units| ==> Exact(s0, b, units[j], clean)
  {
    forall j | 0 <= j < |units| ensures Exact(s0, b, units[j], clean) {
      if j != i {
        assert units[j].dst in Paths(units[j]);
        assert Same(a, b, units[j].dst);
      }
    }
  }

  /** Old data goes once every anchor is on its copy. */
  method DeleteAll(fs: FileSystem, units: seq<Unit>, swapped: seq<nat>, ghost s0: Fs, ghost clean: bool)
    requires Disjoint(units, false) && Watching(fs, s0, units) && AllLanded(s0, fs.nodes, units) && Positions(swapped, |units|)
    requires forall i :: 0 <= i < |units| ==> Exact(s0, fs.nodes, units[i], clean)
    requires forall k :: 0 <= k < |swapped| ==> Swapped(s0, fs.nodes, units[swapped[k]], false)
    modifies fs`nodes, fs`breached, fs`clock, fs`deletionFailed
    ensures AllLanded(s0, fs.nodes, units) && fs.breached == old(fs.breached)
    ensures forall i :: 0 <= i < |units| ==> Exact(s0, fs.nodes, units[i], clean)
    ensures !fs.deletionFailed ==> forall k :: 0 <= k < |swapped| ==> Deleted(s0, fs.nodes, units[swapped[k]])
    ensures fs.clock >= old(fs.clock) && (Calm(fs.schedule, old(fs.clock)) ==> fs.deletionFailed == old(fs.deletionFailed))
  {
    for n := 0 to |swapped|
      invariant AllLanded(s0, fs.nodes, units) && fs.breached == old(fs.breached)
      invariant fs.clock >= old(fs.clock) && (Calm(fs.schedule, old(fs.clock)) ==> fs.deletionFailed == old(fs.deletionFailed))
      invariant !fs.deletionFailed ==> forall k :: 0 <= k < n ==> Deleted(s0, fs.nodes, units[swapped[k]])
      invariant forall i :: 0 <= i < |units| ==> Exact(s0, fs.nodes, units[i], clean)
      invariant forall k :: n <= k < |swapped| ==> Swapped(s0, fs.nodes, units[swapped[k]], false)
    {
      ghost var was := fs.nodes;
      LandedIsFree(fs, s0, was, units, false, swapped[n]);
      DeleteOld(fs, units[swapped[n]], s0);
      OthersKeep(s0, was, fs.nodes, units, false, swapped[n]);
      ExactKeep(s0, was, fs.nodes, units, false, swapped[n], clean);
    }
  }

  lemma CopiedLanded(s0: Fs, s: Fs, units: seq<Unit>, done: seq<nat>, clean: bool)
    requires Disjoint(units, true) && CopyState(s0, s, units, done, |units|, clean)
    ensures AllLanded(s0, s, units)
    ensures forall i :: 0 <= i < |units| ==> Exact(s0, s, units[i], clean)
  {
    forall i | 0 <= i < |units| && Ready(s0, units[i])
      ensures Landed(s0, s, units[i]) && Exact(s0, s, units[i], clean)
    {
      var k :| 0 <= k < |done| && done[k] == i;
    }
  }

  /** After a restore the external sources are removed. */
  method RemoveSources(fs: FileSystem, units: seq<Unit>, ghost s0: Fs, ghost clean: bool)
    requires Disjoint(units, true) && Watching(fs, s0, units) && AllLanded(s0, fs.nodes, units)
    requires forall i :: 0 <= i < |units| ==> Exact(s0, fs.nodes, units[i], clean)
    modifies fs`nodes, fs`breached, fs`clock, fs`deletionFailed
    ensures AllLanded(s0, fs.nodes, units) && fs.breached == old(fs.breached)
    ensures forall i :: 0 <= i < |units| ==> Exact(s0, fs.nodes, units[i], clean)
    ensures !fs.deletionFailed ==> forall i :: 0 <= i < |units| ==> Deleted(s0, fs.nodes, units[i])
    ensures fs.clock >= old(fs.clock) && (Calm(fs.schedule, old(fs.clock)) ==> fs.deletionFailed == old(fs.deletionFailed))
  {
    for n := 0 to |units|
      invariant AllLanded(s0, fs.nodes, units) && fs.breached == old(fs.breached)
      invariant fs.clock >= old(fs.clock) && (Calm(fs.schedule, old(fs.clock)) ==> fs.deletionFailed == old(fs.deletionFailed))
      invariant !fs.deletionFailed ==> forall i :: 0 <= i < n ==> Deleted(s0, fs.nodes, units[i])
      invariant forall i :: 0 <= i < |units| ==> Exact(s0, fs.nodes, units[i], clean)
    {
      if units[n].src != units[n].anchor {
        ghost var was := fs.nodes;
        LandedIsFree(fs, s0, was, units, true, n);
        Discard(fs, units[n].src, units[n], s0, was);
        OthersKeep(s0, was, fs.nodes, units, true, n);
        ExactKeep(s0, was, fs.nodes, units, true, n, clean);
      }
    }
  }

  // ----- the whole transaction

  /**
    Copies, swaps and deletion for any list of units.  No moment of the run is unsafe.  On success every
    ready unit has a complete copy at its destination, an exact one if no leftover was in the way, its anchor is
    there or a link to it, and what was superseded is gone if it could be removed.  Without a failure ready units
    do succeed.  On an error, provided the rollback steps worked, every anchor leads to its original data and every
    destination is what it was before; a single failing operation leaves all rollback steps working.
  */
  method Execute(fs: FileSystem, units: seq<Unit>, restore: bool) returns (ok: bool)
    requires Disjoint(units, restore) && Watching(fs, fs.nodes, units)
    requires !fs.rollbackFailed && !fs.cleanupFailed && !fs.deletionFailed
    modifies fs
    ensures fs.breached == old(fs.breached)
    ensures ok ==> forall i :: 0 <= i < |units| ==>
      Landed(old(fs.nodes), fs.nodes, units[i]) && Exact(old(fs.nodes), fs.nodes, units[i], !fs.cleanupFailed)
    ensures ok && !fs.deletionFailed ==> forall i :: 0 <= i < |units| ==> Deleted(old(fs.nodes), fs.nodes, units[i])
    ensures Calm(fs.schedule, old(fs.clock)) && AllReady(old(fs.nodes), units) ==> ok && !fs.cleanupFailed && !fs.deletionFailed
    ensures !ok && AllReady(old(fs.nodes), units) && !fs.rollbackFailed ==>
      forall i :: 0 <= i < |units| && Ready(old(fs.nodes), units[i]) ==>
        && Data(fs.nodes, units[i].anchor) == Some(Orig(old(fs.nodes), units[i]))
        && Same(old(fs.nodes), fs.nodes, units[i].src)
        && (!restore ==> Same(old(fs.nodes), fs.nodes, units[i].anchor))
        && (!restore && DstSafe(old(fs.nodes), units[i], !fs.cleanupFailed) ==> Same(old(fs.nodes), fs.nodes, units[i].dst))
    ensures Once(fs.schedule, old(fs.clock)) && AllReady(old(fs.nodes), units) ==> !fs.rollbackFailed
    ensures StaleRun(old(fs.nodes), units, restore, fs.schedule, old(fs.clock)) ==>
      !ok && !fs.rollbackFailed && StaleInstalled(old(fs.nodes), fs.nodes, units[0])
  {
    ghost var s0 := fs.nodes;
    var done, end := CopyAll(fs, units, restore);
    ok := end.AllCopied?;
    if !ok { return; }
    if restore {
      CopiedLanded(s0, fs.nodes, units, done, !fs.cleanupFailed);
      RemoveSources(fs, units, s0, !fs.cleanupFailed);
    } else {
      var swapped: seq<nat>;
      swapped, ok := SwapAll(fs, units, done, s0);
      if !ok { return; }
      SwappedLanded(s0, fs.nodes, units, done, swapped, !fs.cleanupFailed);
      ReadySwapped(s0, fs.nodes, units, done, swapped, !fs.cleanupFailed);
      DeleteAll(fs, units, swapped, s0, !fs.cleanupFailed);
      if !fs.deletionFailed { AllDeleted(s0, fs.nodes, units, swapped); }
    }
    assert AllLanded(s0, fs.nodes, units);
  }

  ghost predicate AllSwapped(s0: Fs, units: seq<Unit>, swapped: seq<nat>) {
    forall i :: 0 <= i < |units| && Ready(s0, units[i]) ==> i in swapped
  }

  lemma ReadySwapped(s0: Fs, s: Fs, units: seq<Unit>, done: seq<nat>, swapped: seq<nat>, clean: bool)
    requires SwapState(s0, s, units, done, swapped, |units|, clean)
    ensures AllSwapped(s0, units, swapped)
  {
  }

  lemma AllDeleted(s0: Fs, s: Fs, units: seq<Unit>, swapped: seq<nat>)
    requires AllSwapped(s0, units, swapped) && Positions(swapped, |units|)
    requires forall k :: 0 <= k < |swapped| ==> Deleted(s0, s, units[swapped[k]])
    ensures forall i :: 0 <= i < |units| ==> Deleted(s0, s, units[i])
  {
    forall i | 0 <= i < |units| && Ready(s0, units[i]) ensures Deleted(s0, s, units[i]) {
      var k :| 0 <= k < |swapped| && swapped[k] == i;
    }
  }

  /** What a success means: the anchor leads to the copy, which is complete, and exact unless stale staging files were in the way. */
  lemma LandedLeads(s0: Fs, s: Fs, u: Unit, clean: bool)
    requires Ready(s0, u) && Landed(s0, s, u) && Exact(s0, s, u, clean)
    ensures Data(s, u.anchor).Some? && Contains(Data(s, u.anchor).value, Orig(s0, u))
    ensures CopySafe(s0, u, clean) ==> Data(s, u.anchor) == Some(Orig(s0, u))
  {
  }

  /** What a safe moment gives for each unit: a complete copy of its data somewhere, and its anchor on the copy if the old data is gone. */
  lemma SafeKeepsACopy(s0: Fs, s: Fs, units: seq<Unit>, i: nat)
    requires Safe(s0, s, units) && i < |units| && Ready(s0, units[i])
    ensures exists p :: p in {units[i].src, units[i].bak, units[i].dst} && Holds(s, p, Orig(s0, units[i]))
    ensures !(Holds(s, units[i].src, Orig(s0, units[i])) || Holds(s, units[i].bak, Orig(s0, units[i]))) ==>
      forall j :: 0 <= j < |units| && Ready(s0, units[j]) ==>
        Data(s, units[j].anchor).Some? && Contains(Data(s, units[j].anchor).value, Orig(s0, units[j]))
  {
    var u := units[i];
    if AllHeld(s0, s, units) {
      assert OldHeld(s0, s, u);
    } else {
      assert Landed(s0, s, u);
    }
  }

  /** The three sibling paths the source derives never coincide with what they were derived from. */
  lemma DerivedPathsApart(anchor: Path, src: Path, dst: Path, restore: bool)
    requires restore <==> dst == anchor
    requires src !in {dst + ".migrating", dst + ".old", anchor + ".bak"}
    requires anchor !in {dst + ".migrating", dst + ".old"} && dst != anchor + ".bak"
    requires anchor + ".bak" !in {dst + ".migrating", dst + ".old"}
    ensures Apart(NewUnit(anchor, src, dst), restore)
  {
    assert |dst + ".migrating"| == |dst| + 10 && |dst + ".old"| == |dst| + 4 && |anchor + ".bak"| == |anchor| + 4;
  }

  /** A migration of a given filesystem under a given schedule of failures. */
  method Migrate(nodes: Fs, schedule: seq<Outcome>, units: seq<Unit>, restore: bool)
    returns (ok: bool, final: Fs, undone: bool, clean: bool, tidy: bool, ghost alwaysSafe: bool)
    requires Disjoint(units, restore)
    ensures alwaysSafe
    ensures ok ==> forall i :: 0 <= i < |units| ==> Landed(nodes, final, units[i]) && Exact(nodes, final, units[i], clean)
    ensures ok && tidy ==> forall i :: 0 <= i < |units| ==> Deleted(nodes, final, units[i])
    ensures Once(schedule, 0) && AllReady(nodes, units) ==> undone
    ensures schedule == [] && AllReady(nodes, units) ==> ok && clean && tidy
    ensures !ok && AllReady(nodes, units) && undone ==>
      forall i :: 0 <= i < |units| && Ready(nodes, units[i]) ==>
        && Data(final, units[i].anchor) == Some(Orig(nodes, units[i])) && Same(nodes, final, units[i].src)
        && (!restore ==> Same(nodes, final, units[i].anchor))
        && (!restore && DstSafe(nodes, units[i], clean) ==> Same(nodes, final, units[i].dst))
  {
    var fs := new FileSystem(nodes, schedule, (s: Fs) => Safe(nodes, s, units));
    assert AllHeld(nodes, nodes, units);
    ok := Execute(fs, units, restore);
    final := fs.nodes;
    undone, clean, tidy, alwaysSafe := !fs.rollbackFailed, !fs.cleanupFailed, !fs.deletionFailed, !fs.breached;
  }

  /**
    Where the destination was absent but a stale `.old` sibling was there, an error can leave that sibling as
    the destination although every rollback step worked: the sibling cannot be cleared away, the promotion fails,
    and putting "the old destination" back installs it.  So `DstSafe` is exactly when an error is sure to leave the destination as it was.
  */
  method StaleOldIsInstalled(nodes: Fs, u: Unit, others: seq<Unit>) returns (schedule: seq<Outcome>, ok: bool, final: Fs, undone: bool)
    requires Disjoint([u] + others, false) && Ready(nodes, u) && StaleOld(nodes, u)
    ensures !ok && undone && !Same(nodes, final, u.dst) && u.dst in final && final[u.dst] == nodes[u.old_]
  {
    var units := [u] + others;
    schedule := [Good, Good, Good, Bad(if nodes[u.old_].Dir? then nodes[u.old_].tree.Keys else {}), Bad({})];
    var fs := new FileSystem(nodes, schedule, (s: Fs) => Safe(nodes, s, units));
    assert StaleFaults(nodes, u, schedule, 0);
    ok := Execute(fs, units, false);
    final, undone := fs.nodes, !fs.rollbackFailed;
  }
}
