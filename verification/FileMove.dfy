/**
  The move and copy loop of FileOperate with its conflict styles (service/file.go): moveItem with the
  cross-device fallback, replaceConflict, resolveRenameTarget, and what a whole batch leaves on disk.
*/
module FileMove {
  import opened Options
  import opened FileCopy
  import opened Disk

  // ----- moveItem

  /**
    What a successful move is sure to keep: with style "skip" a cross-device copy may lack a node two or more
    levels down that has no data at or below it.
  */
  ghost predicate Counts(style: string, a: Fs, from: Path, q: Path) {
    style != "skip" || |q| <= |from| + 1 || HasDataAt(a, q)
  }

  /** Every node that counts is found at the image of its path. */
  ghost predicate Kept(a: Fs, b: Fs, from: Path, to: Path, style: string) {
    forall q :: q in a && (Under(from, q) ==> Counts(style, a, from, q)) ==>
      Rebase(q, from, to) in b && b[Rebase(q, from, to)] == a[q]
  }

  lemma RenameKeeps(a: Fs, from: Path, to: Path, style: string)
    requires IsTree(a) && to !in a && !Under(from, to)
    ensures Kept(a, Moved(a, from, to), from, to, style)
  {
    forall q | q in a ensures Rebase(q, from, to) in Moved(a, from, to) && Moved(a, from, to)[Rebase(q, from, to)] == a[q] {
      if Under(to, q) { NothingBelow(a, to, q); }
      MovedKeeps(a, from, to, q);
    }
  }

  lemma DataInSub(a: Fs, from: Path, r: Rel)
    ensures HasDataAt(a, from + r) <==> HasDataAt(Sub(a, from), r)
  {
    if HasDataAt(a, from + r) {
      var f :| f in a && Under(from + r, f) && a[f].File? && a[f].data != "";
      assert from + f[|from|..] == f && Under(r, f[|from|..]);
      assert f[|from|..] in Sub(a, from);
    }
    if HasDataAt(Sub(a, from), r) {
      var f :| f in Sub(a, from) && Under(r, f) && Sub(a, from)[f].File? && Sub(a, from)[f].data != "";
      assert Under(from + r, from + f);
    }
  }

  /** A copy that reported success and passed the size check. */
  ghost predicate Checked(a: Fs, b: Fs, from: Path, to: Path, style: string) {
    && Framed(Sub(b, to), Sub(a, from)) && HasAllData(Sub(b, to), Sub(a, from))
    && (style != "skip" ==> Sub(b, to) == Sub(a, from))
  }

  lemma CopiedAt(a: Fs, b: Fs, from: Path, to: Path, style: string, q: Path, r: Rel)
    requires IsTree(Sub(a, from)) && q in a && q == from + r && Counts(style, a, from, q) && Checked(a, b, from, to, style)
    ensures to + r in b && b[to + r] == a[q]
  {
    assert r in Sub(a, from) && Sub(a, from)[r] == a[q];
    if style == "skip" {
      DataInSub(a, from, r);
      CheckedCopyKeeps(Sub(a, from), Sub(b, to), r);
    }
    assert r in Sub(b, to) && Sub(b, to)[r] == b[to + r];
  }

  /** Every node of the source that counts is at its image. */
  ghost predicate Arrived(a: Fs, b: Fs, from: Path, to: Path, style: string) {
    forall q :: q in a && Under(from, q) && Counts(style, a, from, q) ==> Rebase(q, from, to) in b && b[Rebase(q, from, to)] == a[q]
  }

  lemma CopyArrives(a: Fs, b: Fs, from: Path, to: Path, style: string)
    requires IsTree(Sub(a, from)) && Checked(a, b, from, to, style)
    ensures Arrived(a, b, from, to, style)
  {
    forall q | q in a && Under(from, q) && Counts(style, a, from, q) ensures Rebase(q, from, to) in b && b[Rebase(q, from, to)] == a[q] {
      CopyArrivesAt(a, b, from, to, style, q);
    }
  }

  lemma CopyArrivesAt(a: Fs, b: Fs, from: Path, to: Path, style: string, q: Path)
    requires IsTree(Sub(a, from)) && Checked(a, b, from, to, style) && q in a && Under(from, q) && Counts(style, a, from, q)
    ensures Rebase(q, from, to) in b && b[Rebase(q, from, to)] == a[q]
  {
    Rejoin(from, q);
    CopiedAt(a, b, from, to, style, q, q[|from|..]);
  }

  lemma Rejoin(p: Path, q: Path)
    requires Under(p, q)
    ensures q == p + q[|p|..]
  {
  }

  lemma FreePlace(a: Fs, from: Path, to: Path)
    requires IsTree(a) && to !in a && from in a
    ensures NothingUnder(a, to) && !Under(to, from)
  {
    FreeTarget(a, to);
  }

  /** After a verified copy, whatever the removal of the source leaves. */
  lemma CopyKeeps(a: Fs, b: Fs, c: Fs, from: Path, to: Path, style: string)
    requires SameBeyond(a, b, to) && SameBeyond(b, c, from) && !Under(from, to) && !Under(to, from) && NothingUnder(a, to)
    requires Arrived(a, b, from, to, style)
    ensures Kept(a, c, from, to, style)
  {
    forall q | q in a && (Under(from, q) ==> Counts(style, a, from, q))
      ensures Rebase(q, from, to) in c && c[Rebase(q, from, to)] == a[q]
    {
      var image := Rebase(q, from, to);
      if Under(from, q) {
        if Under(from, image) { Comparable(from, to, image); }
        assert SameAt(b, c, image);
      } else {
        assert SameAt(a, b, q) && SameAt(b, c, q);
      }
    }
  }

  /** `cp` breaks off without losing data, the manual pass skips what is there, and all else works. */
  ghost predicate LossyCopy(style: string, s: Fs, from: Path, to: Path, env: Env, i: nat) {
    SkipRun(style, s, from, to, env, i) && Unnoticed(Sub(s, from), env.schedule[i].got)
  }

  /** And before it the rename has met another device. */
  ghost predicate LossyMove(style: string, s: Fs, from: Path, to: Path, env: Env, i: nat) {
    && i < |env.schedule| && env.schedule[i].Broken? && env.schedule[i].crossDevice
    && LossyCopy(style, s, from, to, env, i + 1)
  }

  /** The source is gone and what the broken copy has left is at the target. */
  ghost predicate Lossy(a: Fs, b: Fs, from: Path, to: Path, got: map<Rel, nat>) {
    SkipsAfter(Sub(a, from), Sub(b, to), got) && Partial(Sub(b, to), Sub(a, from)) && forall q :: Under(from, q) ==> q !in b
  }

  /** The copy and the size check; what fails either is cleared away or, short of a cancellation, left. */
  method CopyAndCheck(d: Disk, from: Path, to: Path, style: string) returns (ok: bool)
    requires Rooted(d.nodes) && from in d.nodes && to !in d.nodes && to != [] && !Under(from, to)
    modifies d, d.env
    ensures Rooted(d.nodes) && d.env.clock >= old(d.env.clock) && SameBeyond(old(d.nodes), d.nodes, to)
    ensures ok ==> Checked(old(d.nodes), d.nodes, from, to, style)
    ensures CanMove(old(d.nodes), from, to) && Smooth(d.env, old(d.env.clock)) ==> ok
    ensures !ok && d.env.Cancelled() && LastFine(d.env) ==> NothingUnder(d.nodes, to)
    ensures LossyCopy(style, old(d.nodes), from, to, d.env, old(d.env.clock)) ==>
      ok && d.env.clock > old(d.env.clock)
      && SkipsAfter(Sub(old(d.nodes), from), Sub(d.nodes, to), d.env.schedule[old(d.env.clock)].got)
  {
    ghost var a, i := d.nodes, d.env.clock;
    var failed := d.Copy(from, to, style);
    ghost var b := d.nodes;
    ok := !failed;
    if ok {
      ok := SizesAgree(d, from, to, style, a);
      LossyPasses(style, a, b, from, to, d.env, i);
      EqualPasses(a, b, from, to, style);
    }
    if !ok && (!failed || d.env.Cancelled()) {
      WipeTarget(d, to);
      SameBeyondTwice(a, b, d.nodes, to);
    }
  }

  /** What was written at the target goes again. */
  method WipeTarget(d: Disk, to: Path)
    requires Rooted(d.nodes) && to != []
    modifies d, d.env
    ensures Rooted(d.nodes) && d.env.clock == old(d.env.clock) + 1 && SameBeyond(old(d.nodes), d.nodes, to)
    ensures forall p :: NothingUnder(old(d.nodes), p) ==> NothingUnder(d.nodes, p)
    ensures LastFine(d.env) ==> NothingUnder(d.nodes, to)
  {
    var r := d.RemoveAll(to);
  }

  /** The last system call worked. */
  predicate LastFine(env: Env)
    reads env
  {
    env.clock > 0 && (env.clock - 1 < |env.schedule| ==> env.schedule[env.clock - 1].Fine?)
  }

  lemma EqualPasses(a: Fs, b: Fs, from: Path, to: Path, style: string)
    requires Framed(Sub(b, to), Sub(a, from))
    ensures Sub(b, to) == Sub(a, from) ==> Checked(a, b, from, to, style)
  {
  }

  lemma LossyPasses(style: string, a: Fs, b: Fs, from: Path, to: Path, env: Env, i: nat)
    requires Framed(Sub(b, to), Sub(a, from)) && (style != "skip" ==> Sub(b, to) == Sub(a, from))
    requires SkipRun(style, a, from, to, env, i) ==> SkipsAfter(Sub(a, from), Sub(b, to), env.schedule[i].got)
    ensures LossyCopy(style, a, from, to, env, i) ==> Checked(a, b, from, to, style)
  {
  }

  lemma SameBeyondTwice(a: Fs, b: Fs, c: Fs, p: Path)
    requires SameBeyond(a, b, p) && SameBeyond(b, c, p)
    ensures SameBeyond(a, c, p)
  {
    forall q | !Under(p, q) ensures SameAt(a, c, q) { assert SameAt(a, b, q) && SameAt(b, c, q); }
  }

  /** The size check alone. */
  method SizesAgree(d: Disk, from: Path, to: Path, style: string, ghost a: Fs) returns (ok: bool)
    requires IsTree(a) && SameBeyond(a, d.nodes, to) && from in a && to !in a && !Under(from, to)
    requires Framed(Sub(d.nodes, to), Sub(a, from)) && (style != "skip" ==> Sub(d.nodes, to) == Sub(a, from))
    ensures ok <==> Checked(a, d.nodes, from, to, style)
  {
    FromStays(a, d.nodes, from, to);
    var srcSize := DirSizeB(Sub(d.nodes, from));
    var dstSize := DirSizeB(Sub(d.nodes, to));
    SizeCheckIsExact(Sub(d.nodes, to), Sub(a, from));
    return dstSize == srcSize;
  }

  /** moveItem after a cross-device error: copy, compare sizes, remove the source. */
  method CopyAcross(d: Disk, from: Path, to: Path, style: string) returns (err: bool)
    requires Rooted(d.nodes) && from in d.nodes && from != [] && to !in d.nodes && to != [] && !Under(from, to)
    modifies d, d.env
    ensures Rooted(d.nodes) && d.env.clock >= old(d.env.clock)
    ensures err ==> SameBeyond(old(d.nodes), d.nodes, to)
    ensures !err ==> Kept(old(d.nodes), d.nodes, from, to, style)
    ensures !err ==> d.env.clock > old(d.env.clock) && (LastFine(d.env) ==> NothingUnder(d.nodes, from))
    ensures err && d.env.Cancelled() && LastFine(d.env) ==> NothingUnder(d.nodes, to)
    ensures CanMove(old(d.nodes), from, to) && Smooth(d.env, old(d.env.clock)) ==> !err
    ensures LossyCopy(style, old(d.nodes), from, to, d.env, old(d.env.clock)) ==>
      !err && Lossy(old(d.nodes), d.nodes, from, to, d.env.schedule[old(d.env.clock)].got)
  {
    ghost var a := d.nodes;
    var ok := CopyAndCheck(d, from, to, style);
    if !ok { return true; }
    ghost var b := d.nodes;
    var r := d.RemoveAll(from);
    FreePlace(a, from, to);
    SubTree(a, from);
    CopyArrives(a, b, from, to, style);
    CopyKeeps(a, b, d.nodes, from, to, style);
    ToStays(b, d.nodes, from, to);
    return false;
  }

  lemma ToStays(b: Fs, c: Fs, from: Path, to: Path)
    requires SameBeyond(b, c, from) && !Under(to, from) && !Under(from, to)
    ensures Sub(c, to) == Sub(b, to)
  {
    forall r: Rel ensures SameFrom(c, to, b, to, r) {
      if Under(from, to + r) { Comparable(from, to, to + r); }
      assert SameAt(b, c, to + r);
    }
    SameTree(c, to, b, to);
  }

  /**
    moveItem: rename, and on a cross-device error copy, compare sizes, remove the source.  An error leaves
    everything outside the target alone; success loses no node that counts.
  */
  method MoveItem(d: Disk, from: Path, to: Path, style: string) returns (usedRename: bool, err: bool)
    requires Rooted(d.nodes) && to !in d.nodes && to != [] && (Under(from, to) ==> from == to)
    modifies d, d.env
    ensures Rooted(d.nodes) && d.env.clock >= old(d.env.clock)
    ensures err ==> SameBeyond(old(d.nodes), d.nodes, to)
    ensures !err ==> Kept(old(d.nodes), d.nodes, from, to, style) && from in old(d.nodes)
    ensures usedRename ==> !err && d.nodes == Moved(old(d.nodes), from, to)
    ensures !err && (usedRename || LastFine(d.env) || Smooth(d.env, old(d.env.clock) + 1)) ==> NothingUnder(d.nodes, from)
    ensures err && d.env.Cancelled() && LastFine(d.env) ==> NothingUnder(d.nodes, to)
    ensures CanMove(old(d.nodes), from, to) && Smooth(d.env, old(d.env.clock)) ==> usedRename && NothingUnder(d.nodes, from)
    ensures OtherDevice(old(d.nodes), from, to, d.env, old(d.env.clock)) ==> !err && NothingUnder(d.nodes, from)
    ensures LossyMove(style, old(d.nodes), from, to, d.env, old(d.env.clock)) ==>
      !err && Lossy(old(d.nodes), d.nodes, from, to, d.env.schedule[old(d.env.clock) + 1].got)
  {
    ghost var a := d.nodes;
    var end := d.Rename(from, to);
    if end.Renamed? {
      RenameKeeps(a, from, to, style);
      MovedAway(a, from, to);
      return true, false;
    }
    FreeTarget(a, to);
    if end.Refused? { return false, true; }
    err := CopyAcross(d, from, to, style);
    return false, err;
  }

  /** Only the rename fails, because the target is on another device. */
  ghost predicate OtherDevice(s: Fs, from: Path, to: Path, env: Env, i: nat) {
    CanMove(s, from, to) && i < |env.schedule| && env.schedule[i].Broken? && env.schedule[i].crossDevice && Smooth(env, i + 1)
  }

  lemma MovedAway(a: Fs, from: Path, to: Path)
    requires IsTree(a) && from in a && to !in a && !Under(from, to)
    ensures NothingUnder(Moved(a, from, to), from)
  {
    forall q | Under(from, q) ensures q !in Moved(a, from, to) {
      FreeApart(a, from, to, q);
      MovedAt(a, from, to, q);
    }
  }

  lemma FreeTarget(a: Fs, to: Path)
    requires IsTree(a) && to !in a
    ensures NothingUnder(a, to)
  {
    forall q | q in a ensures !Under(to, q) { if Under(to, q) { NothingBelow(a, to, q); } }
  }

  lemma LostNode(a: Fs, b: Fs, from: Path, to: Path, g: Rel)
    requires IsTree(a) && from in a && from + g in a && |g| >= 2 && !HasDataAt(a, from + g)
    ensures Unnoticed(Sub(a, from), AllBut(Sub(a, from), g))
    ensures Lossy(a, b, from, to, AllBut(Sub(a, from), g)) ==> to + g !in b && from + g !in b
  {
    SubTree(a, from);
    DataInSub(a, from, g);
    DropIsUnnoticed(Sub(a, from), g);
    if Lossy(a, b, from, to, AllBut(Sub(a, from), g)) {
      DroppedNode(Sub(a, from), g, Sub(b, to));
      assert Under(from, from + g);
    }
  }

  /**
    So what counts is exactly what a move is sure to keep: every node that a move with style "skip" need not keep is
    gone, from the source and from the target, after some run that reports success.
  */
  method MoveCanLose(nodes: Fs, from: Path, to: Path, g: Rel) returns (schedule: seq<Outcome>, err: bool, final: Fs)
    requires Rooted(nodes) && CanMove(nodes, from, to) && from + g in nodes && !Counts("skip", nodes, from, from + g)
    ensures !err && to + g !in final && from + g !in final
  {
    assert g != [] && Under(from, from + g) && from + g != from;
    UnderEntry(nodes, from, from + g);
    schedule := [Broken(map[], true), Broken(AllBut(Sub(nodes, from), g), false)];
    var env := new Env(schedule, None);
    var d := new Disk(nodes, env);
    LostNode(nodes, nodes, from, to, g);
    assert LossyMove("skip", nodes, from, to, env, 0);
    var usedRename;
    usedRename, err := MoveItem(d, from, to, "skip");
    final := d.nodes;
    LostNode(nodes, final, from, to, g);
  }

  lemma FromStays(a: Fs, b: Fs, from: Path, to: Path)
    requires IsTree(a) && SameBeyond(a, b, to) && from in a && to !in a && !Under(from, to)
    ensures Sub(b, from) == Sub(a, from)
  {
    forall r: Rel ensures SameAt(a, b, from + r) {
      FreeApart(a, from, to, from + r);
    }
  }

  // ----- replaceConflict

  /** The old destination is moved aside under a fresh sibling name. */
  ghost predicate AsideName(s: Fs, to: Path, tmp: Path) {
    tmp != [] && to != [] && Parent(tmp) == Parent(to) && tmp != to && tmp !in s
  }

  lemma AsideApart(s: Fs, to: Path, tmp: Path, q: Path)
    requires AsideName(s, to, tmp)
    ensures !(Under(to, q) && Under(tmp, q)) && !Under(to, tmp) && !Under(tmp, to)
  {
    assert |Parent(tmp)| == |tmp| - 1 && |Parent(to)| == |to| - 1;
    if Under(to, q) && Under(tmp, q) { Comparable(to, tmp, q); }
  }

  /**
    The rollback of replaceConflict.  `a` is the disk before the replacement; outside the target, the disk now is
    `a` with the old destination at `tmp`.  Either the disk is `a` again, or the old tree is parked at `tmp`.
  */
  method RollBack(d: Disk, to: Path, tmp: Path, ghost a: Fs) returns (parked: Option<Path>)
    requires Rooted(a) && Rooted(d.nodes) && to in a && AsideName(a, to, tmp)
    requires SameBeyond(Moved(a, to, tmp), d.nodes, to)
    modifies d, d.env
    ensures Rooted(d.nodes) && d.env.clock >= old(d.env.clock)
    ensures parked.None? ==> d.nodes == a
    ensures parked.Some? ==> parked.value == tmp && Sub(d.nodes, tmp) == Sub(a, to)
    ensures forall q :: !Under(to, q) && !Under(tmp, q) ==> SameAt(a, d.nodes, q)
    ensures Smooth(d.env, old(d.env.clock)) ==> parked.None?
  {
    var r := d.RemoveAll(to);
    ghost var b := d.nodes;
    AsideHolds(a, b, to, tmp);
    if r { AsideCanReturn(a, b, to, tmp); }
    var end := d.Rename(tmp, to);
    if end.Renamed? {
      BackInPlace(a, b, to, tmp);
      return None;
    }
    return Some(tmp);
  }

  lemma AsideAt(a: Fs, b: Fs, to: Path, tmp: Path, r: Rel)
    requires to in a && AsideName(a, to, tmp) && SameBeyond(Moved(a, to, tmp), b, to)
    ensures SameFrom(b, tmp, a, to, r)
  {
    var q := tmp + r;
    AsideApart(a, to, tmp, q);
    MovedAt(a, to, tmp, q);
    assert Under(tmp, q) && q[|tmp|..] == r;
    assert SameAt(Moved(a, to, tmp), b, q);
  }

  lemma AsideCanReturn(a: Fs, b: Fs, to: Path, tmp: Path)
    requires Rooted(a) && to in a && AsideName(a, to, tmp) && Sub(b, tmp) == Sub(a, to) && to !in b
    requires forall q :: !Under(to, q) && !Under(tmp, q) ==> SameAt(a, b, q)
    ensures CanMove(b, tmp, to)
  {
    AsideApart(a, to, tmp, to);
    assert [] in Sub(a, to) by { assert to + [] == to; }
    assert tmp + [] == tmp;
    assert !Under(to, Parent(to)) && !Under(tmp, Parent(to));
    assert SameAt(a, b, Parent(to));
  }

  lemma AsideHolds(a: Fs, b: Fs, to: Path, tmp: Path)
    requires IsTree(a) && to in a && AsideName(a, to, tmp) && SameBeyond(Moved(a, to, tmp), b, to)
    ensures Sub(b, tmp) == Sub(a, to)
    ensures forall q :: !Under(to, q) && !Under(tmp, q) ==> SameAt(a, b, q)
  {
    AsideApart(a, to, tmp, to);
    forall r: Rel ensures SameFrom(b, tmp, a, to, r) { AsideAt(a, b, to, tmp, r); }
    SameTree(b, tmp, a, to);
    forall q | !Under(to, q) && !Under(tmp, q) ensures SameAt(a, b, q) {
      MovedAt(a, to, tmp, q);
      assert SameAt(Moved(a, to, tmp), b, q);
    }
  }

  lemma SameAll(a: Fs, b: Fs)
    requires forall q :: SameAt(a, b, q)
    ensures a == b
  {
    forall q ensures q in a <==> q in b { assert SameAt(a, b, q); }
    forall q | q in a ensures a[q] == b[q] { assert SameAt(a, b, q); }
  }

  lemma BackAt(a: Fs, b: Fs, to: Path, tmp: Path, q: Path)
    requires IsTree(a) && to in a && AsideName(a, to, tmp) && Sub(b, tmp) == Sub(a, to)
    requires !Under(to, q) && !Under(tmp, q) ==> SameAt(a, b, q)
    ensures SameAt(a, Moved(b, tmp, to), q)
  {
    AsideApart(a, to, tmp, q);
    MovedAt(b, tmp, to, q);
    if Under(to, q) { SubAt(a, to, b, tmp, q); }
    else if Under(tmp, q) { NothingBelow(a, tmp, q); }
  }

  /** Equal trees have equal nodes. */
  lemma SubAt(a: Fs, to: Path, b: Fs, tmp: Path, q: Path)
    requires Sub(b, tmp) == Sub(a, to) && Under(to, q)
    ensures q in a <==> tmp + q[|to|..] in b
    ensures q in a ==> b[tmp + q[|to|..]] == a[q]
  {
    var r := q[|to|..];
    assert to + r == q;
    assert r in Sub(b, tmp) <==> r in Sub(a, to);
    assert r in Sub(a, to) ==> Sub(b, tmp)[r] == b[tmp + r] && Sub(a, to)[r] == a[q];
  }

  lemma BackInPlace(a: Fs, b: Fs, to: Path, tmp: Path)
    requires IsTree(a) && to in a && AsideName(a, to, tmp) && Sub(b, tmp) == Sub(a, to)
    requires forall q :: !Under(to, q) && !Under(tmp, q) ==> SameAt(a, b, q)
    ensures Moved(b, tmp, to) == a
  {
    forall q ensures SameAt(a, Moved(b, tmp, to), q) { BackAt(a, b, to, tmp, q); }
    SameAll(a, Moved(b, tmp, to));
  }

  /**
    Replace by move.  On success the new content is at the target; on an error either nothing has changed at
    all, or the old destination is at the returned path, the source intact.
  */
  method ReplaceMove(d: Disk, from: Path, to: Path, tmp: Path, style: string)
    returns (usedRename: bool, err: bool, parked: Option<Path>)
    requires Rooted(d.nodes) && to in d.nodes && AsideName(d.nodes, to, tmp) && (Under(from, to) ==> from == to)
    requires !Under(tmp, from)
    modifies d, d.env
    ensures Rooted(d.nodes) && d.env.clock >= old(d.env.clock)
    ensures err && parked.None? ==> d.nodes == old(d.nodes)
    ensures parked.Some? ==> err && parked.value == tmp && Sub(d.nodes, tmp) == Sub(old(d.nodes), to)
    ensures err ==> forall q :: !Under(to, q) && !Under(tmp, q) ==> SameAt(old(d.nodes), d.nodes, q)
    ensures !err ==> from in old(d.nodes) && KeptBeyond(old(d.nodes), d.nodes, from, to, style)
    ensures from in old(d.nodes) && !Under(to, from) && Smooth(d.env, old(d.env.clock)) ==>
      !err && NothingUnder(d.nodes, tmp)
    ensures !err && Smooth(d.env, old(d.env.clock) + 2) ==> NothingUnder(d.nodes, from)
  {
    ghost var a := d.nodes;
    parked := None;
    AsideIsFree(a, to, tmp);
    var end := d.Rename(to, tmp);
    if !end.Renamed? { return false, true, None; }
    ghost var b := d.nodes;
    StagedAside(a, to, tmp);
    if from in a && !Under(to, from) { StagedCanMove(a, from, to, tmp); }
    usedRename, err := MoveItem(d, from, to, style);
    if err {
      parked := RollBack(d, to, tmp, a);
      return;
    }
    ghost var c := d.nodes;
    WipeTarget(d, tmp);
    Replaced(a, b, c, d.nodes, from, to, tmp, style);
  }

  /** Every node outside the replaced destination that counts is found at the image of its path. */
  ghost predicate KeptBeyond(a: Fs, b: Fs, from: Path, to: Path, style: string) {
    forall q :: q in a && !Under(to, q) && (Under(from, q) ==> Counts(style, a, from, q)) ==>
      Rebase(q, from, to) in b && b[Rebase(q, from, to)] == a[q]
  }

  /** The old destination can be set aside, and then the place is free for the source. */
  lemma StagedCanMove(a: Fs, from: Path, to: Path, tmp: Path)
    requires Rooted(a) && to in a && AsideName(a, to, tmp) && from in a && !Under(to, from) && !Under(tmp, from) && (Under(from, to) ==> from == to)
    ensures CanMove(Moved(a, to, tmp), from, to)
  {
    StagedAside(a, to, tmp);
    StagedBeyond(a, to, tmp, from);
    assert !Under(to, Parent(to)) && !Under(tmp, Parent(to));
    StagedBeyond(a, to, tmp, Parent(to));
  }

  lemma AsideIsFree(a: Fs, to: Path, tmp: Path)
    requires Rooted(a) && to in a && AsideName(a, to, tmp)
    ensures CanMove(a, to, tmp)
  {
    AsideApart(a, to, tmp, to);
  }

  lemma StagedAside(a: Fs, to: Path, tmp: Path)
    requires IsTree(a) && to in a && AsideName(a, to, tmp)
    ensures to !in Moved(a, to, tmp)
  {
    AsideApart(a, to, tmp, to);
    MovedAt(a, to, tmp, to);
  }

  lemma Replaced(a: Fs, b: Fs, c: Fs, e: Fs, from: Path, to: Path, tmp: Path, style: string)
    requires IsTree(a) && to in a && AsideName(a, to, tmp) && b == Moved(a, to, tmp) && from in b
    requires Kept(b, c, from, to, style) && SameBeyond(c, e, tmp) && !Under(tmp, from) && (Under(from, to) ==> from == to)
    ensures from in a && KeptBeyond(a, e, from, to, style)
  {
    AsideApart(a, to, tmp, to);
    MovedAt(a, to, tmp, from);
    forall q | q in a && !Under(to, q) && (Under(from, q) ==> Counts(style, a, from, q))
      ensures Rebase(q, from, to) in e && e[Rebase(q, from, to)] == a[q]
    {
      if Under(tmp, q) { NothingBelow(a, tmp, q); }
      MovedAt(a, to, tmp, q);
      assert SameAt(a, b, q);
      if Under(from, q) && HasDataAt(a, q) { DataStaged(a, from, to, tmp, q); }
      var image := Rebase(q, from, to);
      AsideApart(a, to, tmp, image);
      assert SameAt(c, e, image);
    }
  }

  lemma DataStaged(a: Fs, from: Path, to: Path, tmp: Path, q: Path)
    requires AsideName(a, to, tmp) && !Under(tmp, from) && !Under(to, from) && (Under(from, to) ==> from == to)
    requires Under(from, q) && HasDataAt(a, q)
    ensures HasDataAt(Moved(a, to, tmp), q)
  {
    var f :| f in a && Under(q, f) && a[f].File? && a[f].data != "";
    OutsideAside(a, from, to, tmp, f);
    StagedBeyond(a, to, tmp, f);
  }

  /** Replace by copy: the same guarantees for the old destination; the source is never touched. */
  method ReplaceCopy(d: Disk, from: Path, to: Path, tmp: Path, style: string) returns (err: bool, parked: Option<Path>)
    requires Rooted(d.nodes) && to in d.nodes && AsideName(d.nodes, to, tmp) && (Under(from, to) ==> from == to)
    requires !Under(tmp, from)
    modifies d, d.env
    ensures Rooted(d.nodes) && d.env.clock >= old(d.env.clock)
    ensures err && parked.None? ==> d.nodes == old(d.nodes)
    ensures parked.Some? ==> err && parked.value == tmp && Sub(d.nodes, tmp) == Sub(old(d.nodes), to)
    ensures forall q :: !Under(to, q) && !Under(tmp, q) ==> SameAt(old(d.nodes), d.nodes, q)
    ensures !err && style != "skip" ==> from in old(d.nodes) && Sub(d.nodes, to) == Sub(old(d.nodes), from)
    ensures from in old(d.nodes) && !Under(to, from) && Smooth(d.env, old(d.env.clock)) ==> !err && NothingUnder(d.nodes, tmp)
  {
    ghost var a := d.nodes;
    parked := None;
    AsideIsFree(a, to, tmp);
    var end := d.Rename(to, tmp);
    if !end.Renamed? { return true, None; }
    ghost var b := d.nodes;
    StagedAside(a, to, tmp);
    if from in a && !Under(to, from) { StagedCanMove(a, from, to, tmp); }
    err := d.Copy(from, to, style);
    if err {
      parked := RollBack(d, to, tmp, a);
      return;
    }
    ghost var c := d.nodes;
    var r := d.RemoveAll(tmp);
    CopyReplaced(a, b, c, d.nodes, from, to, tmp);
  }

  lemma SameSub(a: Fs, b: Fs, p: Path)
    requires forall r: Rel :: SameAt(a, b, p + r)
    ensures Sub(a, p) == Sub(b, p)
  {
  }

  lemma StagedBeyond(a: Fs, to: Path, tmp: Path, q: Path)
    requires AsideName(a, to, tmp) && !Under(to, q) && !Under(tmp, q)
    ensures SameAt(a, Moved(a, to, tmp), q)
  {
    AsideApart(a, to, tmp, to);
    MovedAt(a, to, tmp, q);
  }

  lemma StagedSource(a: Fs, from: Path, to: Path, tmp: Path)
    requires AsideName(a, to, tmp) && from in Moved(a, to, tmp) && !Under(tmp, from) && (Under(from, to) ==> from == to)
    ensures from in a && Sub(Moved(a, to, tmp), from) == Sub(a, from)
  {
    AsideApart(a, to, tmp, to);
    MovedAt(a, to, tmp, from);
    forall r: Rel ensures SameAt(a, Moved(a, to, tmp), from + r) {
      OutsideAside(a, from, to, tmp, from + r);
      StagedBeyond(a, to, tmp, from + r);
    }
    SameSub(a, Moved(a, to, tmp), from);
    StagedBeyond(a, to, tmp, from);
  }

  lemma CopyReplaced(a: Fs, b: Fs, c: Fs, e: Fs, from: Path, to: Path, tmp: Path)
    requires AsideName(a, to, tmp) && b == Moved(a, to, tmp) && from in b
    requires SameBeyond(b, c, to) && SameBeyond(c, e, tmp) && !Under(tmp, from) && (Under(from, to) ==> from == to)
    ensures from in a && Sub(b, from) == Sub(a, from) && Sub(e, to) == Sub(c, to)
    ensures forall q :: !Under(to, q) && !Under(tmp, q) ==> SameAt(a, e, q)
  {
    StagedSource(a, from, to, tmp);
    forall r: Rel ensures SameAt(c, e, to + r) { AsideApart(a, to, tmp, to + r); }
    SameSub(c, e, to);
    forall q | !Under(to, q) && !Under(tmp, q) ensures SameAt(a, e, q) {
      StagedBeyond(a, to, tmp, q);
      assert SameAt(b, c, q) && SameAt(c, e, q);
    }
  }

  lemma BesideParent(p: Path, tmp: Path, to: Path)
    requires tmp != [] && to != [] && Parent(tmp) == Parent(to) && Under(p, tmp) && p != tmp
    ensures Under(p, to)
  {
    assert p == Parent(tmp)[..|p|];
  }

  /** The source of a replacement touches neither the destination nor its stand-in. */
  lemma OutsideAside(a: Fs, from: Path, to: Path, tmp: Path, q: Path)
    requires AsideName(a, to, tmp) && !Under(tmp, from) && !Under(to, from) && (Under(from, to) ==> from == to)
    requires Under(from, q)
    ensures !Under(to, q) && !Under(tmp, q)
  {
    if Under(to, q) { Comparable(from, to, q); }
    if Under(tmp, q) {
      Comparable(from, tmp, q);
      BesideParent(from, tmp, to);
    }
  }
}
