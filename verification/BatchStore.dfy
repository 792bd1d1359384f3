/** The methods of BatchStore (service/upload/batch_store.go), and what the badges they compute mean. */
module BatchStore {
  import opened Strings
  import opened Paths
  import opened UploadBatches

  // ----- badges

  /** A batch whose missing files its owner sees. */
  predicate BrokenFor(b: Batch, owner: string) { b.status.Interrupted? && b.owner == owner }

  /** Some interrupted batch of the owner misses exactly the file at these names. */
  ghost predicate MissingAt(rows: Rows, ns: seq<string>, owner: string) {
    exists id, r :: id in rows && BrokenFor(rows[id], owner) && r in MissingItems(rows[id]) && ItemNames(rows[id], r) == ns
  }

  /** Some interrupted batch of the owner misses a file at or below these names. */
  ghost predicate MissingUnder(rows: Rows, ns: seq<string>, owner: string) {
    exists id, r :: id in rows && BrokenFor(rows[id], owner) && r in MissingItems(rows[id]) && ns <= ItemNames(rows[id], r)
  }

  /** The batch the badge carries does miss a file at or below these names. */
  ghost predicate Blames(rows: Rows, id: Id, ns: seq<string>, owner: string) {
    id in rows && BrokenFor(rows[id], owner) && exists r :: r in MissingItems(rows[id]) && ns <= ItemNames(rows[id], r)
  }

  /** The direct child of `dir` that the code reads off a full path, as strings. */
  function ChildOf(dir: string, full: string): Found {
    var prefix := if Clean(dir) == [Slash] then [Slash] else Clean(dir) + [Slash];
    if !(prefix <= full) then Nothing
    else
      var child := Split(Slash, full[|prefix|..])[0];
      if child == "" then Nothing else Rest(child)
  }

  /** The string computation finds the name that follows the folder's names. */
  lemma ChildOfNames(dir: string, ns: seq<string>, child: string)
    requires Absolute(dir) && GoodNames(ns)
    ensures ChildOf(dir, Render(ns)) == Rest(child) <==> Names(dir) + [child] <= ns
  {
    var dn := Names(dir);
    CleanAbsolute(dir);
    NamesGood(dir);
    RenderRoot(dn);
    PrefixMeansBelow(ns, dn);
    if dn <= ns && dn != ns {
      JoinClean(ns[|dn|..]);
      assert ns[|dn|..][0] == ns[|dn|];
      assert dn == [] ==> ns[|dn|..] == ns;
      assert dn + [ns[|dn|]] == ns[..|dn| + 1];
      assert dn + [child] <= ns ==> ns[|dn|] == child;
    } else if dn == [] {
      assert ns == [] && Render(ns)[1..] == "";
    }
    assert dn + [child] <= ns ==> dn == ns[..|dn|];
  }

  lemma ChildNames(dir: string, child: string)
    requires Absolute(dir) && GoodName(child)
    ensures Absolute(JoinPath(dir, child)) && Names(JoinPath(dir, child)) == Names(dir) + [child]
  {
    SplitFree(Slash, child);
    JoinNames(dir, child);
  }

  lemma UnderSplits(rows: Rows, ns: seq<string>, owner: string)
    ensures MissingUnder(rows, ns, owner) <==>
      MissingAt(rows, ns, owner) || exists child :: MissingUnder(rows, ns + [child], owner)
  {
    if MissingUnder(rows, ns, owner) && !MissingAt(rows, ns, owner) { SomeChildMisses(rows, ns, owner); }
    if child :| MissingUnder(rows, ns + [child], owner) { ParentMisses(rows, ns, child, owner); }
    if MissingAt(rows, ns, owner) {
      var id, r :| id in rows && BrokenFor(rows[id], owner) && r in MissingItems(rows[id]) && ItemNames(rows[id], r) == ns;
      assert ns <= ItemNames(rows[id], r);
    }
  }

  lemma SomeChildMisses(rows: Rows, ns: seq<string>, owner: string)
    requires MissingUnder(rows, ns, owner) && !MissingAt(rows, ns, owner)
    ensures exists child :: MissingUnder(rows, ns + [child], owner)
  {
    var id, r :| id in rows && BrokenFor(rows[id], owner) && r in MissingItems(rows[id]) && ns <= ItemNames(rows[id], r);
    var full := ItemNames(rows[id], r);
    assert full != ns;
    assert ns + [full[|ns|]] <= full;
    assert MissingUnder(rows, ns + [full[|ns|]], owner);
  }

  lemma ParentMisses(rows: Rows, ns: seq<string>, child: string, owner: string)
    requires MissingUnder(rows, ns + [child], owner)
    ensures MissingUnder(rows, ns, owner)
  {
    var id, r :| id in rows && BrokenFor(rows[id], owner) && r in MissingItems(rows[id]) && ns + [child] <= ItemNames(rows[id], r);
    assert ns <= ItemNames(rows[id], r);
  }

  /** Badges are recursive: dir/child has one exactly when it is missing itself or one of its own children has one. */
  lemma BadgeIsRecursive(rows: Rows, dir: string, child: string, owner: string)
    requires Absolute(dir) && GoodName(child)
    ensures MissingUnder(rows, Names(dir) + [child], owner) <==>
      MissingAt(rows, Names(JoinPath(dir, child)), owner)
      || exists inner :: MissingUnder(rows, Names(JoinPath(dir, child)) + [inner], owner)
  {
    ChildNames(dir, child);
    UnderSplits(rows, Names(dir) + [child], owner);
  }

  // ----- abandoning below a path

  /** The hit test of AbandonInterruptedUnder, as strings. */
  predicate HitBy(path: string, full: string) {
    full == Clean(path) || Clean(path) + [Slash] <= full
  }

  lemma HitByNames(path: string, ns: seq<string>)
    requires Absolute(path) && GoodNames(ns)
    ensures HitBy(path, Render(ns)) <==> ns == Names(path) || (Names(path) != [] && Names(path) <= ns)
  {
    CleanAbsolute(path);
    NamesGood(path);
    NamesRender(ns);
    NamesRender(Names(path));
    PrefixMeansBelow(ns, Names(path));
  }

  ghost predicate HasHit(b: Batch, path: string) { exists r :: r in MissingItems(b) && HitBy(path, ItemPath(b, r)) }

  ghost function AbandonedUnder(rows: Rows, path: string, owner: string): Rows {
    map id | id in rows :: if BrokenFor(rows[id], owner) && HasHit(rows[id], path) then rows[id].(status := Abandoned) else rows[id]
  }

  /** Abandoning at any path but the root takes every badge at or under it away. */
  lemma AbandonClears(rows: Rows, path: string, owner: string)
    requires RowsOk(rows) && Absolute(path) && Names(path) != []
    ensures !MissingUnder(AbandonedUnder(rows, path, owner), Names(path), owner)
  {
    var rows' := AbandonedUnder(rows, path, owner);
    forall id, r | id in rows' && BrokenFor(rows'[id], owner) && r in MissingItems(rows'[id])
      ensures !(Names(path) <= ItemNames(rows'[id], r))
    {
      assert rows'[id] == rows[id] && !HasHit(rows[id], path);
      ItemPathNames(rows[id], r);
      HitByNames(path, ItemNames(rows[id], r));
    }
  }

  lemma StaysMissing(rows: Rows, path: string, owner: string, id: Id, r: string)
    requires id in rows && BrokenFor(rows[id], owner) && r in MissingItems(rows[id]) && !HasHit(rows[id], path)
    ensures MissingUnder(AbandonedUnder(rows, path, owner), [], owner)
  {
    var rows' := AbandonedUnder(rows, path, owner);
    assert rows'[id] == rows[id];
    assert [] <= ItemNames(rows'[id], r);
  }

  /** At the root it clears them exactly when every broken batch misses a file whose path is the root itself. */
  lemma AbandonAtRoot(rows: Rows, path: string, owner: string)
    requires RowsOk(rows) && Absolute(path) && Names(path) == []
    ensures !MissingUnder(AbandonedUnder(rows, path, owner), [], owner) <==>
      forall id :: id in rows && BrokenFor(rows[id], owner) && MissingItems(rows[id]) != {} ==>
        exists r :: r in MissingItems(rows[id]) && ItemNames(rows[id], r) == []
  {
    var rows' := AbandonedUnder(rows, path, owner);
    forall id | id in rows
      ensures HasHit(rows[id], path) <==> exists r :: r in MissingItems(rows[id]) && ItemNames(rows[id], r) == []
    {
      forall r | r in MissingItems(rows[id]) ensures HitBy(path, ItemPath(rows[id], r)) <==> ItemNames(rows[id], r) == [] {
        ItemPathNames(rows[id], r);
        HitByNames(path, ItemNames(rows[id], r));
      }
    }
    if !MissingUnder(rows', [], owner) {
      forall id | id in rows && BrokenFor(rows[id], owner) && MissingItems(rows[id]) != {} ensures HasHit(rows[id], path) {
        var r :| r in MissingItems(rows[id]);
        if !HasHit(rows[id], path) { StaysMissing(rows, path, owner, id, r); }
      }
    }
  }

  /** So with one interrupted batch for "/" that misses a file, abandoning at "/" leaves the badge where it is. */
  lemma RootBadgeStays(owner: string, id: Id, b: Batch, name: string)
    requires BrokenFor(b, owner) && b.target == Render([]) && b.items == map[name := false] && GoodName(name)
    ensures MissingUnder(AbandonedUnder(map[id := b], Render([]), owner), [name], owner)
  {
    NamesRender([]);
    SplitFree(Slash, name);
    ItemPathNames(b, name);
    assert [] + [name] == [name];
    HitByNames(Render([]), [name]);
    var rows := AbandonedUnder(map[id := b], Render([]), owner);
    assert rows[id] == b && name in MissingItems(rows[id]);
  }

  /** A badge seen at dir/child is gone after abandoning there, and other owners' batches are untouched. */
  lemma AbandonTakesTheBadge(rows: Rows, dir: string, child: string, owner: string)
    requires RowsOk(rows) && Absolute(dir) && GoodName(child)
    ensures !MissingUnder(AbandonedUnder(rows, JoinPath(dir, child), owner), Names(dir) + [child], owner)
    ensures forall id :: id in rows && rows[id].owner != owner ==> AbandonedUnder(rows, JoinPath(dir, child), owner)[id] == rows[id]
  {
    ChildNames(dir, child);
    AbandonClears(rows, JoinPath(dir, child), owner);
  }

  // ----- the store

  function PathSet(paths: seq<string>): set<string> { set r | r in paths }

  /** At most this row has changed. */
  ghost predicate OnlyRow(a: Rows, b: Rows, id: Id) { b.Keys == a.Keys && forall x :: x in a && x != id ==> b[x] == a[x] }

  class Store {
    var rows: Rows

    constructor ()
      ensures rows == map[]
    {
      rows := map[];
    }

    /** The create handler and BatchStore.Create: an id that exists is left as it is. */
    method CreateUploadBatch(id: Id, owner: string, target: string, manifest: seq<string>, now: int) returns (created: bool)
      requires RowsOk(rows)
      modifies this
      ensures rows == Apply(old(rows), Create(id, owner, target, manifest, now)) && RowsOk(rows)
      ensures created <==> id !in old(rows) && Acceptable(id, target, manifest) && DistinctPaths(manifest)
      ensures !created ==> rows == old(rows)
      ensures created ==>
        && rows.Keys == old(rows).Keys + {id} && (forall x :: x in old(rows) ==> rows[x] == old(rows)[x])
        && rows[id].owner == owner && Names(rows[id].target) == Names(target) && rows[id].status == Active && rows[id].source == NoSource
        && rows[id].lastProgress == now && rows[id].total == |manifest| && rows[id].done == 0 && !rows[id].cleaned
        && forall r :: r in MissingItems(rows[id]) <==> r in manifest
    {
      ApplyOk(rows, Create(id, owner, target, manifest, now));
      if Absolute(target) { CleanAbsolute(target); }
      created := false;
      if id == "" || !Absolute(target) || manifest == [] { return; }
      for i := 0 to |manifest|
        invariant forall j :: 0 <= j < i ==> manifest[j] != "" && !Contains(manifest[j], "..") && !Absolute(manifest[j])
      {
        if manifest[i] == "" || Contains(manifest[i], "..") || Absolute(manifest[i]) { return; }
      }
      if id in rows || !DistinctPaths(manifest) { return; }
      rows := rows[id := NewBatch(owner, target, manifest, now)];
      created := true;
    }

    method MarkItemDone(id: Id, rel: string, now: int)
      requires RowsOk(rows)
      modifies this
      ensures rows == Apply(old(rows), MarkDone(id, rel, now)) && RowsOk(rows)
      ensures OnlyRow(old(rows), rows, id) && (id in rows ==> MarkMeans(old(rows)[id], rows[id], rel, now))
    {
      if id in rows { MarkedMeans(rows[id], rel, now); }
      ApplyOk(rows, MarkDone(id, rel, now));
      if id !in rows { return; }
      var b := rows[id];
      if rel !in b.items || b.items[rel] { return; }
      b := b.(items := b.items[rel := true]);
      b := b.(done := b.done + 1, lastProgress := now);
      if b.done >= b.total && Open(b) { b := b.(status := Completed); }
      if b.status.Interrupted? && b.done < b.total && b.source != Signal { b := b.(status := Active, source := NoSource); }
      rows := rows[id := b];
    }

    /**
      Marks exactly the items of open batches that have a clean relative path and lie at the completed file's
      absolute path.
    */
    method MarkItemDoneAcrossBatches(target: string, rel: string, now: int)
      requires RowsOk(rows) && Absolute(target)
      modifies this
      ensures RowsOk(rows) && rows.Keys == old(rows).Keys
      ensures forall id :: id in old(rows) ==>
        if Open(old(rows)[id]) then ReconciledExactly(old(rows)[id], rows[id], target, rel, now) else rows[id] == old(rows)[id]
    {
      var abs := Clean(JoinPath(target, rel));
      ghost var was := rows;
      var candidates := set id | id in rows && Open(rows[id]);
      while candidates != {}
        invariant RowsOk(rows) && (forall id :: id in candidates ==> id in was && Open(was[id])) && HalfReconciled(was, rows, candidates, abs, now)
        decreases candidates
      {
        var id :| id in candidates;
        ghost var before := rows;
        ReconcileOne(id, abs, now);
        HalfReconciledStep(was, before, rows, candidates, id, abs, now);
        candidates := candidates - {id};
      }
      AllReconciled(was, rows, target, rel, now);
    }

    /** Progress is recorded on an active batch and brings back one that was interrupted by anything but the signal. */
    method TouchProgress(id: Id, now: int)
      requires RowsOk(rows)
      modifies this
      ensures rows == Apply(old(rows), Touch(id, now)) && RowsOk(rows) && OnlyRow(old(rows), rows, id)
      ensures id in rows && (old(rows)[id].status == Active || (old(rows)[id].status == Interrupted && old(rows)[id].source != Signal)) ==>
        rows[id] == old(rows)[id].(status := Active, source := NoSource, lastProgress := now)
      ensures id in rows && (Terminal(old(rows)[id]) || (old(rows)[id].status == Interrupted && old(rows)[id].source == Signal)) ==>
        rows[id] == old(rows)[id]
    {
      ApplyOk(rows, Touch(id, now));
      if id !in rows || Terminal(rows[id]) || (rows[id].status.Interrupted? && rows[id].source == Signal) { return; }
      rows := rows[id := rows[id].(status := Active, lastProgress := now, source := NoSource)];
    }

    /** Only an active batch is interrupted, and the source of the interruption is kept with it. */
    method SetInterrupted(id: Id, now: int, source: Source)
      requires RowsOk(rows)
      modifies this
      ensures rows == Apply(old(rows), Interrupt(id, now, source)) && RowsOk(rows) && OnlyRow(old(rows), rows, id)
      ensures id in rows && old(rows)[id].status == Active ==>
        rows[id] == old(rows)[id].(status := Interrupted, source := source, interruptedAt := now, cleaned := false)
      ensures id in rows && old(rows)[id].status != Active ==> rows[id] == old(rows)[id]
    {
      ApplyOk(rows, Interrupt(id, now, source));
      if id !in rows || !rows[id].status.Active? { return; }
      rows := rows[id := rows[id].(status := Interrupted, interruptedAt := now, cleaned := false, source := source)];
    }

    method MarkStagingCleaned(id: Id)
      requires RowsOk(rows)
      modifies this
      ensures rows == Apply(old(rows), StagingCleaned(id)) && RowsOk(rows) && OnlyRow(old(rows), rows, id)
      ensures id in rows ==> rows[id] == old(rows)[id].(cleaned := true)
    {
      ApplyOk(rows, StagingCleaned(id));
      if id in rows { rows := rows[id := rows[id].(cleaned := true)]; }
    }

    method ReconcileOne(id: Id, abs: string, now: int)
      requires RowsOk(rows) && id in rows
      modifies this
      ensures RowsOk(rows) && rows.Keys == old(rows).Keys && Reconciled(old(rows)[id], rows[id], abs, now)
      ensures forall x :: x in rows && x != id ==> rows[x] == old(rows)[x]
    {
      var found := RelativeTo(rows[id].target, abs);
      if found.Rest? { MarkItemDone(id, found.path, now); }
    }

    method RemoveChunk(id: Id, chunk: set<string>)
      requires RowsOk(rows)
      modifies this
      ensures rows == Apply(old(rows), Remove(id, chunk)) && RowsOk(rows)
    {
      ApplyOk(rows, Remove(id, chunk));
      if id in rows { rows := rows[id := Trimmed(rows[id], chunk)]; }
    }

    /** The chunks of 500 amount to one removal. */
    method RemoveItems(id: Id, paths: seq<string>)
      requires RowsOk(rows)
      modifies this
      ensures rows == Apply(old(rows), Remove(id, PathSet(paths))) && RowsOk(rows)
      ensures OnlyRow(old(rows), rows, id) && (id in rows ==> TrimMeans(old(rows)[id], rows[id], PathSet(paths)))
    {
      ghost var was := rows;
      if id in rows { TrimmedMeans(rows[id], PathSet(paths)); }
      var start := 0;
      RemoveNothing(rows, id);
      while start < |paths|
        invariant 0 <= start <= |paths| && RowsOk(rows)
        invariant rows == Apply(was, Remove(id, PathSet(paths[..start])))
      {
        var end := if start + 500 > |paths| then |paths| else start + 500;
        assert paths[..end] == paths[..start] + paths[start..end];
        assert PathSet(paths[..end]) == PathSet(paths[..start]) + PathSet(paths[start..end]);
        RemoveTwice(was, id, PathSet(paths[..start]), PathSet(paths[start..end]));
        RemoveChunk(id, PathSet(paths[start..end]));
        start := end;
      }
      assert paths[..start] == paths;
    }

    /** The names of the children of `dir` with missing content, each with a batch to blame. */
    method BrokenChildren(dir: string, owner: string) returns (out: map<string, Id>)
      requires RowsOk(rows) && Absolute(dir)
      ensures forall child :: child in out <==> MissingUnder(rows, Names(dir) + [child], owner)
      ensures forall child :: child in out ==> Blames(rows, out[child], Names(dir) + [child], owner)
    {
      out := map[];
      var batches := set id | id in rows && BrokenFor(rows[id], owner);
      ghost var all := batches;
      while batches != {}
        invariant batches <= all
        invariant forall child :: child in out ==> Blames(rows, out[child], Names(dir) + [child], owner)
        invariant forall id, child :: id in all && id !in batches && Blames(rows, id, Names(dir) + [child], owner) ==> child in out
        decreases batches
      {
        var id :| id in batches;
        out := AddChildren(id, dir, owner, out);
        batches := batches - {id};
      }
      forall child | MissingUnder(rows, Names(dir) + [child], owner) ensures child in out {
        var id, r :| id in rows && BrokenFor(rows[id], owner) && r in MissingItems(rows[id]) && Names(dir) + [child] <= ItemNames(rows[id], r);
        assert id in all && Blames(rows, id, Names(dir) + [child], owner);
      }
    }

    /** The inner loop: the missing items of one batch. */
    method AddChildren(id: Id, dir: string, owner: string, before: map<string, Id>) returns (out: map<string, Id>)
      requires RowsOk(rows) && Absolute(dir) && id in rows && BrokenFor(rows[id], owner)
      ensures forall child :: child in out <==> child in before || Blames(rows, id, Names(dir) + [child], owner)
      ensures forall child :: child in out ==> out[child] == if child in before then before[child] else id
    {
      out := before;
      var items := MissingItems(rows[id]);
      ghost var all := items;
      while items != {}
        invariant items <= all
        invariant forall child :: child in out <==>
          child in before || exists r :: r in all && r !in items && Names(dir) + [child] <= ItemNames(rows[id], r)
        invariant forall child :: child in out ==> out[child] == if child in before then before[child] else id
        decreases items
      {
        var r :| r in items;
        var found := ChildOf(dir, ItemPath(rows[id], r));
        ghost var out0, items0 := out, items;
        if found.Rest? && found.path !in out { out := out[found.path := id]; }
        items := items - {r};
        ItemPathNames(rows[id], r);
        forall child ensures child in out <==> child in out0 || Names(dir) + [child] <= ItemNames(rows[id], r) {
          ChildOfNames(dir, ItemNames(rows[id], r), child);
        }
        assert forall x :: x in all && x !in items <==> (x in all && x !in items0) || x == r;
      }
    }

    /** Abandons the owner's interrupted batches that miss a file at or under the path, and names them. */
    method AbandonInterruptedUnder(path: string, owner: string) returns (ids: set<Id>)
      requires RowsOk(rows)
      modifies this
      ensures RowsOk(rows) && rows == AbandonedUnder(old(rows), path, owner)
      ensures ids == set id | id in old(rows) && BrokenFor(old(rows)[id], owner) && HasHit(old(rows)[id], path)
    {
      ids := {};
      ghost var was := rows;
      var batches := set id | id in rows && BrokenFor(rows[id], owner);
      while batches != {}
        invariant RowsOk(rows) && HalfAbandoned(was, rows, batches, path, owner, ids)
        decreases batches
      {
        var id :| id in batches;
        ghost var before := rows;
        var hit := AbandonIfHit(id, path);
        HalfAbandonedStep(was, before, rows, batches, id, path, owner, ids);
        if hit { ids := ids + {id}; }
        batches := batches - {id};
      }
      AllAbandoned(was, rows, path, owner, ids);
    }

    method AbandonIfHit(id: Id, path: string) returns (hit: bool)
      requires RowsOk(rows) && id in rows
      modifies this
      ensures RowsOk(rows) && hit == HasHit(old(rows)[id], path)
      ensures rows == if hit then old(rows)[id := old(rows)[id].(status := Abandoned)] else old(rows)
    {
      hit := AnyHit(rows[id], path);
      if hit { SetAbandoned(id); }
    }

    method SetAbandoned(id: Id)
      requires RowsOk(rows)
      modifies this
      ensures rows == Apply(old(rows), Abandon(id)) && RowsOk(rows)
    {
      ApplyOk(rows, Abandon(id));
      if id in rows { rows := rows[id := rows[id].(status := Abandoned)]; }
    }

    method AnyHit(b: Batch, path: string) returns (hit: bool)
      ensures hit <==> HasHit(b, path)
    {
      var items := MissingItems(b);
      while items != {}
        invariant items <= MissingItems(b)
        invariant forall r :: r in MissingItems(b) && r !in items ==> !HitBy(path, ItemPath(b, r))
        decreases items
      {
        var r :| r in items;
        if HitBy(path, ItemPath(b, r)) { return true; }
        items := items - {r};
      }
      return false;
    }

    /** Batches without progress are interrupted as timed out. */
    method InterruptIdle(now: int)
      requires RowsOk(rows)
      modifies this
      ensures RowsOk(rows) && HalfMapped(old(rows), rows, {}, b => AfterIdle(b, now))
    {
      ghost var was := rows;
      var actives := set id | id in rows && rows[id].status.Active?;
      while actives != {}
        invariant RowsOk(rows) && actives <= was.Keys && HalfMapped(was, rows, actives, b => AfterIdle(b, now))
        decreases actives
      {
        var id :| id in actives;
        ghost var before := rows;
        if now - LastSign(rows[id]) > IdleSeconds { SetInterrupted(id, now, Timeout); }
        HalfMappedStep(was, before, rows, actives, id, b => AfterIdle(b, now));
        actives := actives - {id};
      }
    }

    /** Staging of batches that have been interrupted long enough is cleared. */
    method CleanStaging(now: int)
      requires RowsOk(rows)
      modifies this
      ensures RowsOk(rows) && HalfMapped(old(rows), rows, {}, b => AfterGrace(b, now))
    {
      ghost var was := rows;
      var interrupted := set id | id in rows && rows[id].status.Interrupted?;
      while interrupted != {}
        invariant RowsOk(rows) && interrupted <= was.Keys && HalfMapped(was, rows, interrupted, b => AfterGrace(b, now))
        decreases interrupted
      {
        var id :| id in interrupted;
        if !rows[id].cleaned && now - rows[id].interruptedAt > GraceSeconds { MarkStagingCleaned(id); }
        interrupted := interrupted - {id};
      }
    }

    /** Interrupted batches whose target is gone are abandoned. */
    method AbandonOrphans(orphans: set<string>)
      requires RowsOk(rows)
      modifies this
      ensures RowsOk(rows) && HalfMapped(old(rows), rows, {}, b => AfterOrphan(b, orphans))
    {
      ghost var was := rows;
      var interrupted := set id | id in rows && rows[id].status.Interrupted?;
      while interrupted != {}
        invariant RowsOk(rows) && interrupted <= was.Keys && HalfMapped(was, rows, interrupted, b => AfterOrphan(b, orphans))
        decreases interrupted
      {
        var id :| id in interrupted;
        if rows[id].target in orphans { SetAbandoned(id); }
        interrupted := interrupted - {id};
      }
    }

    /** One round of SweepBatches; `orphans` are the targets that are found missing under a mounted volume. */
    method SweepBatches(now: int, orphans: set<string>)
      requires RowsOk(rows)
      modifies this
      ensures RowsOk(rows) && rows.Keys <= old(rows).Keys
      ensures forall id :: id in old(rows) ==> SweepMeans(old(rows), rows, id, now, orphans)
    {
      ghost var was := rows;
      InterruptIdle(now);
      ghost var r1 := rows;
      CleanStaging(now);
      ghost var r2 := rows;
      AbandonOrphans(orphans);
      ghost var r3 := rows;
      var n := DeleteTerminal();
      SweptAll(was, r1, r2, r3, rows, now, orphans);
    }

    /** Lists the terminal batches first and deletes them one by one. */
    method DeleteTerminal() returns (n: nat)
      modifies this
      ensures rows == map id | id in old(rows) && Open(old(rows)[id]) :: old(rows)[id]
      ensures n == |old(rows)| - |rows|
    {
      ghost var was := rows;
      var ids := set id | id in rows && Terminal(rows[id]);
      n := |ids|;
      ghost var gone := {};
      while ids != {}
        invariant gone !! ids && gone + ids == (set id | id in was && Terminal(was[id]))
        invariant rows == was - gone
        decreases ids
      {
        var id :| id in ids;
        rows := rows - {id};
        gone := gone + {id};
        ids := ids - {id};
      }
      DeletedCount(was, gone);
    }
  }

  // ----- one round of the sweeper, undisturbed

  function AfterIdle(b: Batch, now: int): Batch {
    if b.status.Active? && now - LastSign(b) > IdleSeconds then InterruptedBy(b, now, Timeout) else b
  }

  function AfterGrace(b: Batch, now: int): Batch {
    if b.status.Interrupted? && !b.cleaned && now - b.interruptedAt > GraceSeconds then b.(cleaned := true) else b
  }

  function AfterOrphan(b: Batch, orphans: set<string>): Batch {
    if b.status.Interrupted? && b.target in orphans then b.(status := Abandoned) else b
  }

  /** The rows still to come are as they were, the others have been through `f`. */
  ghost predicate HalfMapped(was: Rows, rows: Rows, todo: set<Id>, f: Batch -> Batch) {
    rows.Keys == was.Keys && forall id :: id in was ==> rows[id] == if id in todo then was[id] else f(was[id])
  }

  lemma HalfMappedStep(was: Rows, rows: Rows, rows': Rows, todo: set<Id>, id: Id, f: Batch -> Batch)
    requires HalfMapped(was, rows, todo, f) && id in todo && id in was && OnlyRow(rows, rows', id)
    requires id in rows' && rows'[id] == f(was[id])
    ensures HalfMapped(was, rows', todo - {id}, f)
  {
  }

  /** What a round leaves of a row. */
  ghost predicate SweepMeans(a: Rows, b: Rows, id: Id, now: int, orphans: set<string>)
    requires id in a
  {
    var o := a[id];
    if Terminal(o) then id !in b
    else if o.status == Active && now - LastSign(o) <= IdleSeconds then id in b && b[id] == o
    else if o.target in orphans then id !in b
    else if o.status == Active then
      id in b && b[id] == o.(status := Interrupted, source := Timeout, interruptedAt := now, cleaned := false)
    else id in b && b[id] == o.(cleaned := o.cleaned || now - o.interruptedAt > GraceSeconds)
  }

  lemma SweptAll(was: Rows, r1: Rows, r2: Rows, r3: Rows, rows: Rows, now: int, orphans: set<string>)
    requires HalfMapped(was, r1, {}, b => AfterIdle(b, now)) && HalfMapped(r1, r2, {}, b => AfterGrace(b, now))
    requires HalfMapped(r2, r3, {}, b => AfterOrphan(b, orphans)) && rows == map id | id in r3 && Open(r3[id]) :: r3[id]
    ensures rows.Keys <= was.Keys && forall id :: id in was ==> SweepMeans(was, rows, id, now, orphans)
    ensures RowsOk(r3) ==> RowsOk(rows)
  {
    forall id | id in was ensures SweepMeans(was, rows, id, now, orphans) {
      SweptRow(was, rows, id, now, orphans, r1[id], r2[id], r3[id]);
    }
  }

  lemma SweptRow(was: Rows, rows: Rows, id: Id, now: int, orphans: set<string>, b1: Batch, b2: Batch, b3: Batch)
    requires id in was && b1 == AfterIdle(was[id], now) && b2 == AfterGrace(b1, now) && b3 == AfterOrphan(b2, orphans)
    requires if Open(b3) then id in rows && rows[id] == b3 else id !in rows
    ensures SweepMeans(was, rows, id, now, orphans)
  {
  }

  lemma DeletedCount(was: Rows, gone: set<Id>)
    requires gone == set id | id in was && Terminal(was[id])
    ensures |was - gone| == |was| - |gone|
    ensures was - gone == map id | id in was && Open(was[id]) :: was[id]
  {
    assert was.Keys == (was - gone).Keys + gone;
    assert |was| == |was.Keys| && |was - gone| == |(was - gone).Keys|;
  }

  /** The item's path is clean and leads to the completed file. */
  ghost predicate Reaches(b: Batch, r: string, target: string, rel: string) {
    CleanRelative(r) && ItemPath(b, r) == Clean(JoinPath(target, rel))
  }

  /** The same items, and those now done are the ones done before and the ones that lie at the completed file's path. */
  ghost predicate ReconciledExactly(b: Batch, b': Batch, target: string, rel: string, now: int) {
    && b'.items.Keys == b.items.Keys && SameHeader(b, b') && (b'.items == b.items ==> b' == b)
    && (forall r :: r in b.items && b'.items[r] && !b.items[r] ==> MarkMeans(b, b', r, now))
    && forall r :: r in b.items ==> (b'.items[r] <==> b.items[r] || Reaches(b, r, target, rel))
  }

  /** What one round of the reconciliation leaves of a batch. */
  ghost predicate Reconciled(b: Batch, b': Batch, abs: string, now: int) {
    match RelativeTo(b.target, abs)
    case Nothing => b' == b
    case Rest(r) => b' == Marked(b, r, now)
  }

  lemma ReconciledIsExact(b: Batch, b': Batch, target: string, rel: string, now: int)
    requires Absolute(b.target) && Absolute(target) && Reconciled(b, b', Clean(JoinPath(target, rel)), now) && BatchOk(b)
    ensures ReconciledExactly(b, b', target, rel, now)
  {
    var abs := Clean(JoinPath(target, rel));
    JoinNames(target, rel);
    CleanAbsolute(JoinPath(target, rel));
    NamesGood(abs);
    if RelativeTo(b.target, abs).Rest? { MarkedMeans(b, RelativeTo(b.target, abs).path, now); }
    forall r | r in b.items ensures b'.items[r] <==> b.items[r] || Reaches(b, r, target, rel) {
      MatchExact(b, r, Names(abs));
    }
  }

  /** The candidates still to come are untouched, the others of the open batches are reconciled. */
  ghost predicate HalfReconciled(was: Rows, rows: Rows, candidates: set<Id>, abs: string, now: int) {
    rows.Keys == was.Keys && forall id :: id in was ==>
      if id in candidates || !Open(was[id]) then rows[id] == was[id] else Reconciled(was[id], rows[id], abs, now)
  }

  lemma HalfReconciledStep(was: Rows, rows: Rows, rows': Rows, candidates: set<Id>, id: Id, abs: string, now: int)
    requires HalfReconciled(was, rows, candidates, abs, now) && id in candidates && id in rows
    requires rows'.Keys == rows.Keys && Reconciled(rows[id], rows'[id], abs, now)
    requires forall x :: x in rows && x != id ==> rows'[x] == rows[x]
    requires Open(was[id])
    ensures HalfReconciled(was, rows', candidates - {id}, abs, now)
  {
  }

  lemma AllReconciled(was: Rows, rows: Rows, target: string, rel: string, now: int)
    requires RowsOk(was) && Absolute(target) && HalfReconciled(was, rows, {}, Clean(JoinPath(target, rel)), now)
    ensures forall id :: id in was ==>
      if Open(was[id]) then ReconciledExactly(was[id], rows[id], target, rel, now) else rows[id] == was[id]
  {
    forall id | id in was && Open(was[id]) ensures ReconciledExactly(was[id], rows[id], target, rel, now) {
      ReconciledIsExact(was[id], rows[id], target, rel, now);
    }
  }

  /** The broken batches already looked at are abandoned, and named, if they have a hit. */
  ghost predicate HalfAbandoned(was: Rows, rows: Rows, todo: set<Id>, path: string, owner: string, ids: set<Id>) {
    && rows.Keys == was.Keys
    && (forall id :: id in todo ==> id in was && BrokenFor(was[id], owner))
    && (forall id :: id in ids <==> id in was && BrokenFor(was[id], owner) && id !in todo && HasHit(was[id], path))
    && forall id :: id in was ==> rows[id] == if id in ids then was[id].(status := Abandoned) else was[id]
  }

  lemma HalfAbandonedStep(was: Rows, rows: Rows, rows': Rows, todo: set<Id>, id: Id, path: string, owner: string, ids: set<Id>)
    requires HalfAbandoned(was, rows, todo, path, owner, ids) && id in todo
    requires rows' == if HasHit(rows[id], path) then rows[id := rows[id].(status := Abandoned)] else rows
    ensures HalfAbandoned(was, rows', todo - {id}, path, owner, if HasHit(rows[id], path) then ids + {id} else ids)
  {
    assert rows[id] == was[id];
  }

  lemma AllAbandoned(was: Rows, rows: Rows, path: string, owner: string, ids: set<Id>)
    requires HalfAbandoned(was, rows, {}, path, owner, ids)
    ensures rows == AbandonedUnder(was, path, owner)
    ensures ids == set id | id in was && BrokenFor(was[id], owner) && HasHit(was[id], path)
  {
  }

  lemma RemoveNothing(rows: Rows, id: Id)
    ensures Apply(rows, Remove(id, PathSet([]))) == rows
  {
    if id in rows { assert PathSet([]) * MissingItems(rows[id]) == {}; }
  }

  lemma RemoveTwice(rows: Rows, id: Id, some: set<string>, more: set<string>)
    requires RowsOk(rows)
    ensures Apply(Apply(rows, Remove(id, some)), Remove(id, more)) == Apply(rows, Remove(id, some + more))
  {
    if id in rows { TrimTwice(rows[id], some, more); }
  }
}
