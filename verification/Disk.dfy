/**
  A whole disk of files and folders and the system calls that the file-operation engine of
  service/file.go makes on it.  Paths are lists of names from the root.
*/
module Disk {
  import opened FileCopy

  type Path = seq<string>
  type Fs = map<Path, Node>

  /** Every node sits in a folder; the root is a folder. */
  ghost predicate Rooted(s: Fs) {
    IsTree(s) && s[[]].Folder?
  }

  /** The image of a path when the tree at `from` goes to `to`. */
  function Rebase(q: Path, from: Path, to: Path): Path {
    if Under(from, q) then to + q[|from|..] else q
  }

  function Parent(p: Path): Path
    requires p != []
  {
    p[..|p| - 1]
  }

  ghost predicate SameAt(a: Fs, b: Fs, q: Path) {
    (q in a <==> q in b) && (q in a ==> a[q] == b[q])
  }

  /** Nothing outside the tree at `p` differs. */
  ghost predicate SameBeyond(a: Fs, b: Fs, p: Path) {
    forall q :: !Under(p, q) ==> SameAt(a, b, q)
  }

  /** Nothing is gone or changed, and what is new are folders that lead to `p`. */
  ghost predicate GrownTo(a: Fs, b: Fs, p: Path) {
    && (forall q :: q in a ==> q in b && b[q] == a[q])
    && (forall q :: q in b && q !in a ==> Under(q, p) && b[q].Folder?)
  }

  /** Nothing is at or below the path. */
  ghost predicate NothingUnder(a: Fs, p: Path) { forall q :: q in a ==> !Under(p, q) }

  // ----- subtrees

  function SubKeys(s: Fs, p: Path): (rs: set<Rel>)
    ensures forall r :: r in rs <==> p + r in s
  {
    var rs := set q | q in s && Under(p, q) :: q[|p|..];
    assert forall q :: q in s && Under(p, q) ==> p + q[|p|..] == q;
    assert forall r: Rel :: p + r in s ==> (p + r)[|p|..] == r && Under(p, p + r);
    assert forall r: Rel :: r in rs <==> p + r in s by {
      forall r: Rel | p + r in s ensures r in rs {
        var q := p + r;
        assert q in s && Under(p, q) && q[|p|..] == r;
      }
    }
    rs
  }

  /** The tree at `p`. */
  function Sub(s: Fs, p: Path): Tree {
    map r | r in SubKeys(s, p) :: s[p + r]
  }

  /** The disk with everything at and below `p` replaced by the tree `t`. */
  function Graft(s: Fs, p: Path, t: Tree): Fs {
    map q | q in s.Keys + (set r | r in t :: p + r) && (if Under(p, q) then q[|p|..] in t else q in s) ::
      if Under(p, q) then t[q[|p|..]] else s[q]
  }

  lemma GraftAt(s: Fs, p: Path, t: Tree, q: Path)
    ensures q in Graft(s, p, t) <==> (if Under(p, q) then q[|p|..] in t else q in s)
    ensures q in Graft(s, p, t) ==> Graft(s, p, t)[q] == if Under(p, q) then t[q[|p|..]] else s[q]
  {
    if Under(p, q) && q[|p|..] in t {
      assert q == p + q[|p|..];
    }
  }

  function Removed(s: Fs, p: Path): Fs {
    map q | q in s && !Under(p, q) :: s[q]
  }

  /** `os.Rename` of a tree onto a place it may take. */
  function Moved(s: Fs, from: Path, to: Path): Fs {
    Graft(Removed(s, from), to, Sub(s, from))
  }

  lemma MovedAt(s: Fs, from: Path, to: Path, q: Path)
    requires !Under(from, to)
    ensures Under(to, q) ==>
      && (q in Moved(s, from, to) <==> from + q[|to|..] in s)
      && (q in Moved(s, from, to) ==> Moved(s, from, to)[q] == s[from + q[|to|..]])
    ensures !Under(to, q) && !Under(from, q) ==> SameAt(s, Moved(s, from, to), q)
    ensures !Under(to, q) && Under(from, q) ==> q !in Moved(s, from, to)
  {
    GraftAt(Removed(s, from), to, Sub(s, from), q);
  }

  /** Every node keeps its content at the image of its path, except what stood at the target. */
  lemma MovedKeeps(s: Fs, from: Path, to: Path, q: Path)
    requires !Under(from, to) && q in s && (Under(from, q) || !Under(to, q))
    ensures Rebase(q, from, to) in Moved(s, from, to) && Moved(s, from, to)[Rebase(q, from, to)] == s[q]
  {
    var image := Rebase(q, from, to);
    MovedAt(s, from, to, image);
    if Under(from, q) {
      assert Under(to, image) && image[|to|..] == q[|from|..] && from + q[|from|..] == q;
    }
  }

  lemma SubTree(s: Fs, p: Path)
    requires IsTree(s) && p in s
    ensures IsTree(Sub(s, p))
  {
    var t := Sub(s, p);
    assert p + [] == p;
    forall r | r in t && r != [] ensures r[..|r| - 1] in t && t[r[..|r| - 1]].Folder? {
      assert (p + r)[..|p + r| - 1] == p + r[..|r| - 1];
    }
  }

  lemma NothingBelow(s: Fs, p: Path, q: Path)
    requires IsTree(s) && p !in s && Under(p, q)
    ensures q !in s
  {
    assert q[..|p|] == p;
    if q in s { Down(s, q, |p|); }
  }

  /** Two trees that meet lie one inside the other. */
  lemma Comparable(p: Path, p': Path, q: Path)
    requires Under(p, q) && Under(p', q)
    ensures Under(p, p') || Under(p', p)
  {
    assert p == q[..|p|] && p' == q[..|p'|];
  }

  /** A free target outside the source shares no path with it. */
  lemma FreeApart(s: Fs, from: Path, to: Path, q: Path)
    requires IsTree(s) && from in s && to !in s && !Under(from, to)
    ensures !(Under(from, q) && Under(to, q))
  {
    if Under(to, from) { NothingBelow(s, to, from); }
    if Under(from, q) && Under(to, q) { Comparable(from, to, q); }
  }

  lemma RemovedRooted(s: Fs, p: Path)
    requires Rooted(s) && p != []
    ensures Rooted(Removed(s, p))
  {
    var s' := Removed(s, p);
    assert !Under(p, []);
    forall q | q in s' && q != [] ensures q[..|q| - 1] in s' && s'[q[..|q| - 1]].Folder? {
      assert Under(p, q[..|q| - 1]) ==> Under(p, q);
    }
  }

  lemma GraftRooted(s: Fs, p: Path, t: Tree)
    requires Rooted(s) && p != [] && (t == map[] || IsTree(t))
    requires Parent(p) in s && s[Parent(p)].Folder?
    ensures Rooted(Graft(s, p, t))
  {
    var g := Graft(s, p, t);
    assert !Under(p, []);
    GraftAt(s, p, t, []);
    forall q | q in g && q != [] ensures q[..|q| - 1] in g && g[q[..|q| - 1]].Folder? {
      var up := q[..|q| - 1];
      GraftAt(s, p, t, q);
      GraftAt(s, p, t, up);
      if Under(p, q) && q != p {
        assert Under(p, up) && q[|p|..][..|q[|p|..]| - 1] == up[|p|..];
      } else {
        assert !Under(p, up);
      }
    }
  }

  ghost predicate SameFrom(a: Fs, p: Path, b: Fs, q: Path, r: Rel) {
    (p + r in a <==> q + r in b) && (q + r in b ==> a[p + r] == b[q + r])
  }

  lemma SameTree(a: Fs, p: Path, b: Fs, q: Path)
    requires forall r: Rel :: SameFrom(a, p, b, q, r)
    ensures Sub(a, p) == Sub(b, q)
  {
    forall r: Rel ensures r in Sub(a, p) <==> r in Sub(b, q)
      ensures r in Sub(b, q) ==> Sub(a, p)[r] == Sub(b, q)[r]
    {
      assert SameFrom(a, p, b, q, r);
    }
  }

  // ----- partial removal

  /** What a removal that broke off leaves: the listed nodes and the folders that lead to them. */
  function Survivors(s: Fs, p: Path, keep: map<Rel, nat>): Fs {
    map q | q in s && (Under(p, q) ==> Reached(s, q, keep)) :: s[q]
  }

  lemma SurvivorsRooted(s: Fs, p: Path, keep: map<Rel, nat>)
    requires Rooted(s) && p != []
    ensures Rooted(Survivors(s, p, keep))
  {
    var s' := Survivors(s, p, keep);
    assert !Under(p, []);
    forall q | q in s' && q != [] ensures q[..|q| - 1] in s' && s'[q[..|q| - 1]].Folder? {
      var up := q[..|q| - 1];
      if Under(p, up) {
        assert Under(p, q);
        var g :| g in keep && g in s && Under(q, g);
        assert Under(up, g);
      }
    }
  }

  // ----- the disk

  /** No file is in the way of making the folders that lead to `p`. */
  ghost predicate NoFileOn(s: Fs, p: Path) { forall k: nat :: k <= |p| ==> FolderOrFree(s, p[..k]) }

  predicate FolderOrFree(s: Fs, q: Path) { q in s ==> s[q].Folder? }

  /** A tree may go to a free place. */
  predicate CanMove(s: Fs, from: Path, to: Path) {
    from in s && to !in s && to != [] && !Under(from, to) && Parent(to) in s && s[Parent(to)].Folder?
  }

  /** A copy with style "skip" of which only the first system call breaks off. */
  ghost predicate SkipRun(style: string, s: Fs, from: Path, to: Path, env: Env, i: nat) {
    && style == "skip" && CanMove(s, from, to) && s[from].Folder?
    && i < |env.schedule| && env.schedule[i].Broken? && Smooth(env, i + 1)
  }

  datatype RenameEnd = Renamed | CrossDevice | Refused

  class Disk {
    var nodes: Fs
    const env: Env

    constructor (nodes: Fs, env: Env)
      ensures this.nodes == nodes && this.env == env
    {
      this.nodes, this.env := nodes, env;
    }

    /** `os.Rename`; a file only replaces a file, and Go refuses to replace a folder, even an empty one. */
    method Rename(from: Path, to: Path) returns (end: RenameEnd)
      requires Rooted(nodes)
      modifies this, env
      ensures Rooted(nodes) && env.clock == old(env.clock) + 1
      ensures CanMove(old(nodes), from, to) && old(env.Peek()).Fine? ==> end.Renamed?
      ensures CanMove(old(nodes), from, to) && old(env.Peek()).Broken? && old(env.Peek()).crossDevice ==> end.CrossDevice?
      ensures end.Renamed? ==> from in old(nodes) && !Under(from, to) && to != [] && nodes == Moved(old(nodes), from, to)
      ensures end.Renamed? && old(nodes)[from].Folder? ==> forall q :: Under(to, q) && q != to ==> q !in old(nodes)
      ensures !end.Renamed? ==> nodes == old(nodes)
      ensures end.CrossDevice? ==> from in nodes && from != [] && !Under(from, to)
    {
      var o := env.Next();
      if from !in nodes || to == [] || Under(from, to) || Parent(to) !in nodes || nodes[Parent(to)].File? {
        return Refused;
      }
      if to in nodes && (nodes[to].Folder? || nodes[from].Folder?) { return Refused; }
      if o.Broken? { return if o.crossDevice then CrossDevice else Refused; }
      MoveRooted(nodes, from, to);
      forall q | Under(to, q) && q != to ensures q !in nodes {
        if to !in nodes { NothingBelow(nodes, to, q); }
        else if q in nodes { UnderEntry(nodes, to, q); }
      }
      nodes := Moved(nodes, from, to);
      return Renamed;
    }

    /** `os.RemoveAll`: on failure a part of the tree is left. */
    method RemoveAll(p: Path) returns (ok: bool)
      requires Rooted(nodes) && p != []
      modifies this, env
      ensures Rooted(nodes) && env.clock == old(env.clock) + 1 && ok == old(env.Peek()).Fine?
      ensures SameBeyond(old(nodes), nodes, p)
      ensures forall q :: q in nodes ==> q in old(nodes) && nodes[q] == old(nodes)[q]
      ensures ok ==> nodes == Removed(old(nodes), p)
    {
      var o := env.Next();
      ok := o.Fine?;
      if ok {
        RemovedRooted(nodes, p);
        nodes := Removed(nodes, p);
      } else {
        SurvivorsRooted(nodes, p, o.got);
        nodes := Survivors(nodes, p, o.got);
      }
    }

    /** One folder, if it is not there. */
    method MakeFolder(q: Path) returns (ok: bool)
      requires Rooted(nodes) && q != [] && Parent(q) in nodes && nodes[Parent(q)].Folder?
      modifies this, env
      ensures Rooted(nodes) && env.clock >= old(env.clock)
      ensures nodes == if ok && q !in old(nodes) then old(nodes)[q := Folder] else old(nodes)
      ensures ok ==> q in nodes && nodes[q].Folder?
      ensures Smooth(env, old(env.clock)) && FolderOrFree(old(nodes), q) ==> ok
    {
      if q in nodes { return nodes[q].Folder?; }
      var o := env.Next();
      if o.Broken? { return false; }
      nodes := nodes[q := Folder];
      return true;
    }

    /** `os.MkdirAll`: on failure some of the missing folders have been made. */
    method MkdirAll(p: Path) returns (ok: bool)
      requires Rooted(nodes)
      modifies this, env
      ensures Rooted(nodes) && env.clock >= old(env.clock) && GrownTo(old(nodes), nodes, p)
      ensures ok ==> p in nodes && nodes[p].Folder?
      ensures Smooth(env, old(env.clock)) && NoFileOn(old(nodes), p) ==> ok
    {
      ghost var was := nodes;
      assert p[..0] == [];
      for k := 0 to |p|
        invariant Rooted(nodes) && env.clock >= old(env.clock) && GrownTo(was, nodes, p)
        invariant p[..k] in nodes && nodes[p[..k]].Folder?
      {
        var q := p[..k + 1];
        assert Parent(q) == p[..k] && Under(q, p);
        assert NoFileOn(was, p) ==> FolderOrFree(was, q);
        ok := MakeFolder(q);
        if !ok { return; }
      }
      assert p[..|p|] == p;
      return true;
    }

    /** CopyDirContents from one place of the disk to a free place that is not inside the source. */
    method Copy(from: Path, to: Path, style: string) returns (err: bool)
      requires Rooted(nodes) && to !in nodes && to != [] && (Under(from, to) ==> from == to)
      modifies this, env
      ensures Rooted(nodes) && env.clock >= old(env.clock) && SameBeyond(old(nodes), nodes, to)
      ensures !err ==> from in old(nodes)
      ensures !err && style != "skip" ==> Sub(nodes, to) == Sub(old(nodes), from)
      ensures CanMove(old(nodes), from, to) && Smooth(env, old(env.clock)) ==> !err && Sub(nodes, to) == Sub(old(nodes), from)
      ensures !err ==> Framed(Sub(nodes, to), Sub(old(nodes), from))
      ensures SkipRun(style, old(nodes), from, to, env, old(env.clock)) ==>
        !err && env.clock > old(env.clock) && SkipsAfter(Sub(old(nodes), from), Sub(nodes, to), env.schedule[old(env.clock)].got)
    {
      if from !in nodes || Parent(to) !in nodes || nodes[Parent(to)].File? { return true; }
      SubTree(nodes, from);
      assert Sub(nodes, from)[[]] == nodes[from] by { assert from + [] == from; }
      err := CopyInto(Sub(nodes, from), to, style);
    }

    /** A tree is copied to a free place. */
    method CopyInto(src: Tree, to: Path, style: string) returns (err: bool)
      requires Rooted(nodes) && IsTree(src) && to != [] && Parent(to) in nodes && nodes[Parent(to)].Folder?
      modifies this, env
      ensures Rooted(nodes) && env.clock >= old(env.clock) && SameBeyond(old(nodes), nodes, to)
      ensures !err && style != "skip" ==> Sub(nodes, to) == src
      ensures Smooth(env, old(env.clock)) ==> !err && Sub(nodes, to) == src
      ensures !err ==> Framed(Sub(nodes, to), src)
      ensures style == "skip" && src[[]].Folder? && old(env.Peek()).Broken? && Smooth(env, old(env.clock) + 1) ==>
        !err && env.clock > old(env.clock) && SkipsAfter(src, Sub(nodes, to), old(env.Peek()).got)
    {
      var out: Tree;
      err, out := CopyTree(env, src, style);
      Put(to, out);
    }

    /** The tree `t` appears at a free place. */
    method Put(to: Path, t: Tree)
      requires Rooted(nodes) && to != [] && (t == map[] || IsTree(t)) && Parent(to) in nodes && nodes[Parent(to)].Folder?
      modifies this
      ensures Rooted(nodes) && SameBeyond(old(nodes), nodes, to) && Sub(nodes, to) == t
    {
      GraftRooted(nodes, to, t);
      forall q | !Under(to, q) ensures SameAt(nodes, Graft(nodes, to, t), q) { GraftAt(nodes, to, t, q); }
      SubGraft(nodes, to, t);
      nodes := Graft(nodes, to, t);
    }
  }

  lemma MoveRooted(s: Fs, from: Path, to: Path)
    requires Rooted(s) && from in s && to != [] && from != [] && !Under(from, to)
    requires Parent(to) in s && s[Parent(to)].Folder?
    ensures Rooted(Moved(s, from, to))
  {
    RemovedRooted(s, from);
    SubTree(s, from);
    assert Under(from, Parent(to)) ==> Under(from, to);
    GraftRooted(Removed(s, from), to, Sub(s, from));
  }

  lemma SubGraft(s: Fs, p: Path, t: Tree)
    ensures Sub(Graft(s, p, t), p) == t
  {
    forall r: Rel ensures r in Sub(Graft(s, p, t), p) <==> r in t
      ensures r in t ==> Sub(Graft(s, p, t), p)[r] == t[r]
    {
      GraftAt(s, p, t, p + r);
      assert Under(p, p + r) && (p + r)[|p|..] == r;
    }
  }
}
