/**
  Copying a file tree (CopyDirContents, CopyFile) and measuring one (GetFileOrDirSize, DirSizeB) from
  pkg/utils/file/file.go.  A tree maps the path of each node below its root, as a list of names, to
  the node; the root itself is the empty list.  A schedule decides which system calls fail, how
  much of the source a failed copy has delivered, and when the context is cancelled.
*/
module FileCopy {
  import opened Options

  type Rel = seq<string>
  datatype Node = File(data: string) | Folder
  type Tree = map<Rel, Node>

  /** `r` is `p` or lies below it. */
  predicate Under(p: Rel, r: Rel) { p <= r }

  /** Rooted, and every node below the root sits in a folder. */
  ghost predicate IsTree(t: Tree) {
    [] in t && forall r :: r in t && r != [] ==> r[..|r| - 1] in t && t[r[..|r| - 1]].Folder?
  }

  /** `d` is what an unfinished copy of `s` may be: some of its nodes, each file a prefix of its source. */
  predicate Prefix(d: Node, s: Node) {
    if s.File? then d.File? && d.data <= s.data else d.Folder?
  }

  ghost predicate Partial(t: Tree, s: Tree) {
    forall r :: r in t ==> r in s && Prefix(t[r], s[r])
  }

  // ----- outcomes

  /**
    One system call: it works, or it fails.  A broken copy has delivered the listed nodes cut to the listed
    lengths, a broken removal has left them, a broken rename may have been refused for crossing devices.
  */
  datatype Outcome = Fine | Broken(got: map<Rel, nat>, crossDevice: bool)

  class Env {
    const schedule: seq<Outcome>
    /** From this tick on `ctx.Err()` is set. */
    const cancelAt: Option<nat>
    var clock: nat

    constructor (schedule: seq<Outcome>, cancelAt: Option<nat>)
      ensures this.schedule == schedule && this.cancelAt == cancelAt && clock == 0
    {
      this.schedule, this.cancelAt, clock := schedule, cancelAt, 0;
    }

    function Cancelled(): bool
      reads this
    {
      cancelAt.Some? && clock >= cancelAt.value
    }

    function Peek(): Outcome
      reads this
    {
      if clock < |schedule| then schedule[clock] else Fine
    }

    method Next() returns (o: Outcome)
      modifies this
      ensures clock == old(clock) + 1 && o == old(Peek())
    {
      o := if clock < |schedule| then schedule[clock] else Fine;
      clock := clock + 1;
    }
  }

  /** No cancellation, and from tick `n` on nothing fails. */
  ghost predicate Smooth(env: Env, n: nat) {
    env.cancelAt.None? && forall i :: n <= i < |env.schedule| ==> env.schedule[i].Fine?
  }

  function Cut(s: Node, n: nat): Node {
    if s.File? && n < |s.data| then File(s.data[..n]) else s
  }

  /** The destination after a copy of the nodes of `s` under `p` broke off; elsewhere it is as `t` was. */
  function Delivered(s: Tree, t: Tree, p: Rel, got: map<Rel, nat>): Tree {
    map r | r in s.Keys + t.Keys && (if Under(p, r) then r in s && Reached(s, r, got) else r in t) ::
      if Under(p, r) then Cut(s[r], if r in got then got[r] else 0) else t[r]
  }

  /** A listed node has been delivered, and with it the folders that lead to it. */
  predicate Reached(s: Tree, r: Rel, got: map<Rel, nat>) {
    exists g :: g in got && g in s && Under(r, g)
  }

  /** Every node is there together with the folders that lead to it. */
  ghost predicate Closed(t: Tree) {
    forall r :: r in t && r != [] ==> r[..|r| - 1] in t
  }

  predicate HasParent(t: Tree, p: Rel) { p == [] || p[..|p| - 1] in t }

  lemma ReachedAbove(s: Tree, r: Rel, got: map<Rel, nat>)
    requires Reached(s, r, got) && r != []
    ensures Reached(s, r[..|r| - 1], got)
  {
    var g :| g in got && g in s && Under(r, g);
    assert Under(r[..|r| - 1], g);
  }

  lemma DeliveredClosed(s: Tree, t: Tree, p: Rel, got: map<Rel, nat>)
    requires IsTree(s) && Closed(t) && HasParent(t, p)
    ensures Closed(Delivered(s, t, p, got))
  {
    var d := Delivered(s, t, p, got);
    forall r | r in d && r != [] ensures r[..|r| - 1] in d { DeliveredParent(s, t, p, got, r, r[..|r| - 1]); }
  }

  lemma DeliveredParent(s: Tree, t: Tree, p: Rel, got: map<Rel, nat>, r: Rel, up: Rel)
    requires IsTree(s) && Closed(t) && HasParent(t, p) && r in Delivered(s, t, p, got) && r != [] && up == r[..|r| - 1]
    ensures up in Delivered(s, t, p, got)
  {
    if Under(p, r) && r != p {
      assert Under(p, up);
      ReachedAbove(s, r, got);
    } else {
      assert !Under(p, up);
    }
  }

  lemma CopiedClosed(s: Tree, t: Tree, p: Rel)
    requires IsTree(s) && Closed(t) && HasParent(t, p)
    ensures Closed(Copied(s, t, p))
  {
    var d := Copied(s, t, p);
    forall r | r in d && r != [] ensures r[..|r| - 1] in d {
      var up := r[..|r| - 1];
      if Under(p, r) && r != p { assert Under(p, up); } else { assert !Under(p, up); }
    }
  }

  lemma DeliveredOk(s: Tree, t: Tree, p: Rel, got: map<Rel, nat>)
    requires Partial(t, s)
    ensures Partial(Delivered(s, t, p, got), s) && SameOutside(t, Delivered(s, t, p, got), p)
  {
  }

  /** The destination after a complete copy of the nodes of `s` under `p`. */
  function Copied(s: Tree, t: Tree, p: Rel): Tree {
    map r | r in s.Keys + t.Keys && (if Under(p, r) then r in s else r in t) :: if Under(p, r) then s[r] else t[r]
  }

  lemma CopiedOk(s: Tree, t: Tree, p: Rel)
    requires Partial(t, s)
    ensures Partial(Copied(s, t, p), s) && SameOutside(t, Copied(s, t, p), p) && SameUnder(s, Copied(s, t, p), p)
  {
  }

  // ----- entries

  /** The entries of the folder at `p`. */
  function Entries(t: Tree, p: Rel): set<Rel> {
    set r | r in t && |r| == |p| + 1 && p <= r
  }

  /** On the way down to a node every ancestor is a folder of the tree. */
  lemma {:induction false} Down(t: Tree, r: Rel, k: nat)
    requires IsTree(t) && r in t && k <= |r|
    ensures r[..k] in t && (k < |r| ==> t[r[..k]].Folder?)
    decreases |r|
  {
    if k < |r| {
      var up := r[..|r| - 1];
      assert up in t && t[up].Folder?;
      if k == |r| - 1 {
        assert r[..k] == up;
      } else {
        Down(t, up, k);
        assert up[..k] == r[..k];
      }
    } else {
      assert r[..k] == r;
    }
  }

  lemma UnderEntry(t: Tree, p: Rel, r: Rel)
    requires IsTree(t) && r in t && Under(p, r) && r != p
    ensures r[..|p| + 1] in Entries(t, p) && Under(r[..|p| + 1], r) && p in t && t[p].Folder?
  {
    Down(t, r, |p| + 1);
    Down(t, r, |p|);
    assert r[..|p|] == p;
  }

  ghost predicate SameOutside(t: Tree, t': Tree, p: Rel) {
    forall r :: !Under(p, r) ==> (r in t <==> r in t') && (r in t ==> t[r] == t'[r])
  }

  ghost predicate SameUnder(t: Tree, t': Tree, p: Rel) {
    forall r :: Under(p, r) ==> (r in t <==> r in t') && (r in t ==> t[r] == t'[r])
  }

  // ----- CopyFile and CopyDirContents

  /** Copies the file at `p` over whatever is at the destination. */
  method CopyFile(env: Env, src: Tree, dst: Tree, p: Rel, style: string) returns (err: bool, out: Tree)
    requires IsTree(src) && p in src && src[p].File? && Partial(dst, src) && Closed(dst) && HasParent(dst, p)
    modifies env
    ensures Closed(out) && Partial(out, src) && SameOutside(dst, out, p) && env.clock >= old(env.clock)
    ensures p in dst && style == "skip" ==> !err && out == dst && env.clock == old(env.clock)
    ensures !err && !(p in dst && style == "skip") ==> SameUnder(src, out, p)
    ensures Smooth(env, old(env.clock) + 1) ==> !err
    ensures !(p in dst && style == "skip") && old(env.Cancelled()) ==> err && out == dst && env.clock == old(env.clock)
    ensures !(p in dst && style == "skip") && old(env.Peek()).Broken? && env.cancelAt == Some(old(env.clock) + 1) ==>
      err && env.clock == old(env.clock) + 1
  {
    CopiedOk(src, dst, p);
    CopiedClosed(src, dst, p);
    if p in dst && style == "skip" { return false, dst; }
    if env.Cancelled() { return true, dst; }
    var cp := env.Next();
    if cp.Fine? { return false, Copied(src, dst, p); }
    DeliveredOk(src, dst, p, cp.got);
    DeliveredClosed(src, dst, p, cp.got);
    out := Delivered(src, dst, p, cp.got);
    if env.Cancelled() { return true, out; }
    var open := env.Next();
    if open.Broken? { return true, out; }
    var copied := env.Next();
    if copied.Broken? {
      DeliveredOk(src, dst, p, copied.got);
      DeliveredClosed(src, dst, p, copied.got);
      return true, Delivered(src, dst, p, copied.got);
    }
    var chmod := env.Next();
    return chmod.Broken?, Copied(src, dst, p);
  }

  /** `out` took over each entry of the broken copy `d` as it was and completed only the entries `d` lacked. */
  ghost predicate SkipMerge(out: Tree, src: Tree, d: Tree, p: Rel) {
    forall c :: c in Entries(src, p) ==> SameUnder(if c in d then d else src, out, c)
  }

  /** Copies the tree at `p`: `cp -a` first, and the manual recursion when that fails. */
  method CopyDirContents(env: Env, src: Tree, dst: Tree, p: Rel, style: string, ghost depth: nat) returns (err: bool, out: Tree)
    requires IsTree(src) && p in src && Partial(dst, src) && Closed(dst) && HasParent(dst, p)
    requires forall r :: r in src ==> |r| <= depth
    modifies env
    ensures Closed(out) && Partial(out, src) && SameOutside(dst, out, p) && env.clock >= old(env.clock)
    ensures p in dst && style == "skip" ==> !err && out == dst && env.clock == old(env.clock)
    ensures !err && style != "skip" ==> SameUnder(src, out, p)
    ensures !(p in dst && style == "skip") && Smooth(env, old(env.clock)) ==> !err && SameUnder(src, out, p)
    ensures style == "skip" && p !in dst && src[p].Folder? && old(env.Peek()).Broken? && Smooth(env, old(env.clock) + 1) ==>
      !err && SkipMerge(out, src, Delivered(src, dst, p, old(env.Peek()).got), p) && env.clock > old(env.clock)
    ensures Smooth(env, old(env.clock) + 1) ==> !err
    ensures !(p in dst && style == "skip") && old(env.Cancelled()) ==> err && out == dst && env.clock == old(env.clock)
    ensures !(p in dst && style == "skip") && old(env.Peek()).Broken? && env.cancelAt == Some(old(env.clock) + 1) ==>
      err && env.clock == old(env.clock) + 1
    ensures !err ==> p in out
    ensures !err && !(p in dst && style == "skip") ==> forall c :: c in Entries(src, p) ==> c in out
    decreases depth - |p|, 1
  {
    if src[p].File? {
      err, out := CopyFile(env, src, dst, p, style);
      return;
    }
    CopiedOk(src, dst, p);
    CopiedClosed(src, dst, p);
    if p in dst && style == "skip" { return false, dst; }
    if env.Cancelled() { return true, dst; }
    var cp := env.Next();
    if cp.Fine? { return false, Copied(src, dst, p); }
    DeliveredOk(src, dst, p, cp.got);
    DeliveredClosed(src, dst, p, cp.got);
    out := Delivered(src, dst, p, cp.got);
    if env.Cancelled() { return true, out; }
    err, out := CopyManually(env, src, out, p, style, depth);
  }

  /** The fallback loop of CopyDirContents. */
  method CopyManually(env: Env, src: Tree, dst: Tree, p: Rel, style: string, ghost depth: nat) returns (err: bool, out: Tree)
    requires IsTree(src) && p in src && src[p].Folder? && Partial(dst, src) && Closed(dst) && HasParent(dst, p)
    requires forall r :: r in src ==> |r| <= depth
    modifies env
    ensures Closed(out) && Partial(out, src) && SameOutside(dst, out, p) && env.clock >= old(env.clock)
    ensures !err && style != "skip" ==> SameUnder(src, out, p)
    ensures Smooth(env, old(env.clock)) ==> !err && (style == "skip" ==> SkipMerge(out, src, dst, p))
    ensures !err ==> p in out && forall c :: c in Entries(src, p) ==> c in out
    decreases depth - |p|, 0
  {
    out := dst;
    var mkdir := env.Next();
    if mkdir.Broken? { return true, out; }
    out := dst[p := Folder];
    var readDir := env.Next();
    if readDir.Broken? { return true, out; }
    var left := Entries(src, p);
    ManualStart(src, dst, p, style, Smooth(env, old(env.clock)));
    while left != {}
      invariant ManualState(src, dst, out, p, left, style, Smooth(env, old(env.clock))) && env.clock >= old(env.clock)
      decreases left
    {
      if env.Cancelled() { return true, out; }
      var c :| c in left;
      EntryReady(src, dst, out, p, left, c, style, Smooth(env, old(env.clock)));
      ghost var before := out;
      err, out := CopyDirContents(env, src, out, c, style, depth);
      if err {
        EntriesApart(src, p, c, before, out);
        return;
      }
      ManualStep(src, dst, before, out, p, left, c, style, Smooth(env, old(env.clock)));
      left := left - {c};
    }
    err := false;
    if style != "skip" { AllEntries(src, out, p); }
  }

  /** Where the fallback loop stands: entries not in `left` are dealt with, the others as they were. */
  ghost predicate ManualState(src: Tree, dst: Tree, out: Tree, p: Rel, left: set<Rel>, style: string, smooth: bool) {
    && left <= Entries(src, p) && Closed(out) && Partial(out, src) && SameOutside(dst, out, p) && p in out
    && (style != "skip" ==> forall c :: c in Entries(src, p) && c !in left ==> SameUnder(src, out, c))
    && (forall c :: c in left ==> SameUnder(dst, out, c))
    && (forall c :: c in Entries(src, p) && c !in left ==> c in out)
    && (smooth && style == "skip" ==>
        forall c :: c in Entries(src, p) && c !in left ==> SameUnder(if c in dst then dst else src, out, c))
  }

  lemma EntryReady(src: Tree, dst: Tree, out: Tree, p: Rel, left: set<Rel>, c: Rel, style: string, smooth: bool)
    requires ManualState(src, dst, out, p, left, style, smooth) && c in left
    ensures c in src && |c| == |p| + 1 && HasParent(out, c) && (c in dst <==> c in out)
  {
    assert c[..|c| - 1] == p;
    assert Under(c, c) && SameUnder(dst, out, c);
  }

  lemma ManualStart(src: Tree, dst: Tree, p: Rel, style: string, smooth: bool)
    requires Partial(dst, src) && p in src && src[p].Folder? && Closed(dst) && HasParent(dst, p)
    ensures ManualState(src, dst, dst[p := Folder], p, Entries(src, p), style, smooth)
  {
    assert Under(p, p);
    forall c | c in Entries(src, p) ensures SameUnder(dst, dst[p := Folder], c) {
      assert !Under(c, p);
    }
  }

  lemma ManualStep(src: Tree, dst: Tree, a: Tree, b: Tree, p: Rel, left: set<Rel>, c: Rel, style: string, smooth: bool)
    requires ManualState(src, dst, a, p, left, style, smooth) && c in left
    requires Closed(b) && Partial(b, src) && SameOutside(a, b, c) && c in b
    requires style != "skip" ==> SameUnder(src, b, c)
    requires smooth && style == "skip" ==> SameUnder(if c in dst then dst else src, b, c)
    ensures ManualState(src, dst, b, p, left - {c}, style, smooth)
  {
    EntriesApart(src, p, c, a, b);
    forall e | e in Entries(src, p) && e != c
      ensures SameUnder(dst, a, e) ==> SameUnder(dst, b, e)
      ensures SameUnder(src, a, e) ==> SameUnder(src, b, e)
    {
      assert SameUnder(a, b, e);
    }
  }

  /** Work under one entry leaves the other entries of the same folder alone. */
  lemma EntriesApart(s: Tree, p: Rel, c: Rel, t: Tree, t': Tree)
    requires c in Entries(s, p) && SameOutside(t, t', c)
    ensures forall e :: e in Entries(s, p) && e != c ==> SameUnder(t, t', e)
    ensures SameOutside(t, t', p) && (p in t <==> p in t')
  {
    forall e, r | e in Entries(s, p) && Under(e, r) && Under(c, r) ensures e == c {
      assert e == r[..|p| + 1] && c == r[..|p| + 1];
    }
    forall r | Under(c, r) ensures Under(p, r) { }
  }

  lemma AllEntries(s: Tree, t: Tree, p: Rel)
    requires IsTree(s) && Partial(t, s) && p in s && p in t && s[p].Folder?
    requires forall c :: c in Entries(s, p) ==> SameUnder(s, t, c)
    ensures SameUnder(s, t, p)
  {
    forall r | Under(p, r) && r in s && r != p ensures r in t && t[r] == s[r] {
      UnderEntry(s, p, r);
    }
  }

  // ----- size

  function Len(t: Tree, r: Rel): nat {
    if r in t && t[r].File? then |t[r].data| else 0
  }

  ghost function Pick(s: set<Rel>): (r: Rel)
    requires s != {}
    ensures r in s
  {
    var r :| r in s; r
  }

  ghost function Sum(t: Tree, rs: set<Rel>): nat
    decreases |rs|
  {
    if rs == {} then 0 else var r := Pick(rs); Len(t, r) + Sum(t, rs - {r})
  }

  /** What GetFileOrDirSize reports: the bytes of all regular files. */
  ghost function Size(t: Tree): nat { Sum(t, t.Keys) }

  lemma {:induction false} SumTakes(t: Tree, rs: set<Rel>, r: Rel)
    requires r in rs
    ensures Sum(t, rs) == Len(t, r) + Sum(t, rs - {r})
    decreases |rs|
  {
    var p := Pick(rs);
    if p != r {
      SumTakes(t, rs - {p}, r);
      SumTakes(t, rs - {r}, p);
      assert rs - {p} - {r} == rs - {r} - {p};
    }
  }

  /** The walk of DirSizeB, adding up file sizes in whatever order it meets them. */
  method DirSizeB(t: Tree) returns (size: nat)
    ensures size == Size(t)
  {
    size := 0;
    var left := t.Keys;
    while left != {}
      invariant left <= t.Keys && size + Sum(t, left) == Size(t)
      decreases left
    {
      var r :| r in left;
      SumTakes(t, left, r);
      size := size + Len(t, r);
      left := left - {r};
    }
  }

  lemma {:induction false} PartialSums(t: Tree, s: Tree, rs: set<Rel>)
    requires Partial(t, s)
    ensures Sum(t, rs) <= Sum(s, rs)
    ensures Sum(t, rs) == Sum(s, rs) ==> forall r :: r in rs ==> Len(t, r) == Len(s, r)
    decreases |rs|
  {
    if rs != {} {
      var p := Pick(rs);
      assert Len(t, p) <= Len(s, p);
      PartialSums(t, s, rs - {p});
    }
  }

  lemma {:induction false} SumOutside(t: Tree, rs: set<Rel>)
    requires t.Keys <= rs
    ensures Sum(t, rs) == Size(t)
    decreases |rs - t.Keys|
  {
    if rs != t.Keys {
      var r :| r in rs && r !in t;
      SumTakes(t, rs, r);
      assert (rs - {r}) - t.Keys == (rs - t.Keys) - {r};
      SumOutside(t, rs - {r});
    } else {
      assert rs == t.Keys;
    }
  }

  /** Every non-empty file of the source is complete in the copy. */
  ghost predicate HasAllData(t: Tree, s: Tree) {
    forall r :: r in s && s[r].File? && s[r].data != "" ==> r in t && t[r] == s[r]
  }

  /** Equal sizes mean that an unfinished copy lacks nothing but empty files and folders. */
  lemma SizeCheckIsSound(t: Tree, s: Tree)
    requires Partial(t, s) && Size(t) == Size(s)
    ensures HasAllData(t, s)
  {
    assert t.Keys <= s.Keys;
    SumOutside(t, s.Keys);
    PartialSums(t, s, s.Keys);
    forall r | r in s && s[r].File? && s[r].data != "" ensures r in t && t[r] == s[r] {
      assert Len(t, r) == Len(s, r);
    }
  }

  /** And only then: losing part of a non-empty file shows in the size. */
  lemma SizeCheckIsExact(t: Tree, s: Tree)
    requires Partial(t, s)
    ensures Size(t) == Size(s) <==> HasAllData(t, s)
  {
    if HasAllData(t, s) {
      assert t.Keys <= s.Keys;
      SumOutside(t, s.Keys);
      SameLengths(t, s, s.Keys);
    } else if Size(t) == Size(s) {
      SizeCheckIsSound(t, s);
    }
  }

  lemma {:induction false} SameLengths(t: Tree, s: Tree, rs: set<Rel>)
    requires Partial(t, s) && HasAllData(t, s)
    ensures Sum(t, rs) == Sum(s, rs)
    decreases |rs|
  {
    if rs != {} {
      SameLengths(t, s, rs - {Pick(rs)});
    }
  }

  // ----- what a checked copy with style "skip" is sure to keep

  /** Some non-empty file is at or below the node. */
  ghost predicate HasDataAt(s: Tree, r: Rel) {
    exists f :: f in s && Under(r, f) && s[f].File? && s[f].data != ""
  }

  lemma {:induction false} Above(t: Tree, r: Rel, f: Rel)
    requires Closed(t) && f in t && Under(r, f)
    ensures r in t
    decreases |f|
  {
    if r != f { Above(t, r, f[..|f| - 1]); }
  }

  /** A copy that reported success has the root and its entries. */
  ghost predicate Framed(t: Tree, s: Tree) {
    Closed(t) && Partial(t, s) && [] in t && forall c :: c in Entries(s, []) ==> c in t
  }

  /** The root, its entries, and every node with data at or below it are complete in a copy that passed the check. */
  lemma CheckedCopyKeeps(s: Tree, t: Tree, r: Rel)
    requires IsTree(s) && Framed(t, s) && HasAllData(t, s)
    requires r in s && (|r| <= 1 || HasDataAt(s, r))
    ensures r in t && t[r] == s[r]
  {
    if HasDataAt(s, r) {
      var f :| f in s && Under(r, f) && s[f].File? && s[f].data != "";
      Above(t, r, f);
    } else if |r| == 1 {
      assert r[..0] == [];
      assert r in Entries(s, []);
    }
  }

  /** What `cp` has to have listed to leave out exactly the tree at `g`. */
  function AllBut(s: Tree, g: Rel): map<Rel, nat> {
    map r | r in s && !Under(g, r) :: if s[r].File? then |s[r].data| else 0
  }

  /** The tree `d` is `s` without what is at or below `g`. */
  ghost predicate LacksOnly(d: Tree, s: Tree, g: Rel) { forall r :: LacksAt(d, s, g, r) }

  ghost predicate LacksAt(d: Tree, s: Tree, g: Rel, r: Rel) {
    (r in d <==> r in s && !Under(g, r)) && (r in d ==> d[r] == s[r])
  }

  /** A copy that broke off with everything but the tree at `g`. */
  lemma DeliveredAllBut(s: Tree, g: Rel)
    ensures LacksOnly(Delivered(s, map[], [], AllBut(s, g)), s, g)
  {
    var got := AllBut(s, g);
    forall r | r in s ensures Under([], r) && (Reached(s, r, got) <==> !Under(g, r)) {
      if !Under(g, r) { assert r in got && Under(r, r); }
      else { forall h | h in got && h in s ensures !Under(r, h) { assert Under(r, h) ==> Under(g, h); } }
    }
    forall r ensures LacksAt(Delivered(s, map[], [], got), s, g, r) { }
  }

  /** The manual pass then finds every entry of the root there and leaves the rest as it is. */
  lemma SkippedPass(s: Tree, g: Rel, d: Tree, out: Tree)
    requires IsTree(s) && g in s && |g| >= 2 && !HasDataAt(s, g) && LacksOnly(d, s, g) && SkipMerge(out, s, d, [])
    ensures g !in out && HasAllData(out, s)
  {
    ToFolder(s, g);
    UnderEntry(s, [], g);
    SkippedAt(s, g, d, out, g[..1], g);
    forall r | r in s && s[r].File? && s[r].data != "" ensures r in out && out[r] == s[r] {
      UnderEntry(s, [], r);
      SkippedAt(s, g, d, out, r[..1], r);
    }
  }

  lemma SkippedAt(s: Tree, g: Rel, d: Tree, out: Tree, c: Rel, r: Rel)
    requires |g| >= 2 && c in Entries(s, []) && Under(c, r) && r in s && LacksOnly(d, s, g) && SkipMerge(out, s, d, [])
    ensures LacksAt(out, s, g, r)
  {
    assert LacksAt(d, s, g, c) && LacksAt(d, s, g, r);
    assert SameUnder(d, out, c);
  }

  /** The manual pass after such a break meets nothing but success. */
  ghost predicate SkipsAfter(src: Tree, out: Tree, got: map<Rel, nat>) {
    SkipMerge(out, src, Delivered(src, map[], [], got), [])
  }

  /** Whatever the manual pass makes of this break, no data is missing. */
  ghost predicate Unnoticed(src: Tree, got: map<Rel, nat>) {
    forall t :: Partial(t, src) && SkipsAfter(src, t, got) ==> HasAllData(t, src)
  }

  lemma DropIsUnnoticed(s: Tree, g: Rel)
    requires IsTree(s) && g in s && |g| >= 2 && !HasDataAt(s, g)
    ensures Unnoticed(s, AllBut(s, g))
  {
    DeliveredAllBut(s, g);
    forall t | Partial(t, s) && SkipsAfter(s, t, AllBut(s, g)) ensures HasAllData(t, s) {
      SkippedPass(s, g, Delivered(s, map[], [], AllBut(s, g)), t);
    }
  }

  /** A closed partial copy of a tree is a tree or nothing. */
  lemma CopyWhole(s: Tree, t: Tree)
    requires IsTree(s) && Closed(t) && Partial(t, s)
    ensures t == map[] || IsTree(t)
  {
    if r :| r in t { ToRoot(t, r); }
    forall r | r in t && r != [] ensures t[r[..|r| - 1]].Folder? { }
  }

  lemma {:induction false} ToRoot(t: Tree, r: Rel)
    requires Closed(t) && r in t
    ensures [] in t
    decreases |r|
  {
    if r != [] { ToRoot(t, r[..|r| - 1]); }
  }

  /** A whole tree is copied to a place where nothing is. */
  method CopyTree(env: Env, src: Tree, style: string) returns (err: bool, out: Tree)
    requires IsTree(src)
    modifies env
    ensures (out == map[] || IsTree(out)) && Partial(out, src) && env.clock >= old(env.clock)
    ensures !err ==> Framed(out, src)
    ensures !err && style != "skip" ==> out == src
    ensures Smooth(env, old(env.clock)) ==> !err && out == src
    ensures style == "skip" && src[[]].Folder? && old(env.Peek()).Broken? && Smooth(env, old(env.clock) + 1) ==>
      !err && SkipsAfter(src, out, old(env.Peek()).got) && env.clock > old(env.clock)
  {
    ghost var depth := LongestIn(src.Keys);
    err, out := CopyDirContents(env, src, map[], [], style, depth);
    CopyWhole(src, out);
    assert forall r: Rel :: Under([], r);
  }

  /**
    Exactly those nodes are at risk: for every tree and every node below the root's entries without data at or below it, some schedule
    makes a copy with style "skip" report success and pass the size check without the node.
  */
  method SkipCanDrop(s: Tree, g: Rel) returns (schedule: seq<Outcome>, err: bool, out: Tree)
    requires IsTree(s) && g in s && |g| >= 2 && !HasDataAt(s, g)
    ensures !err && Partial(out, s) && Size(out) == Size(s) && g !in out
  {
    ToFolder(s, g);
    schedule, err, out := BreakOnce(s, AllBut(s, g));
    DroppedNode(s, g, out);
  }

  /** A copy with style "skip" whose `cp` breaks off, and nothing else. */
  method BreakOnce(s: Tree, got: map<Rel, nat>) returns (schedule: seq<Outcome>, err: bool, out: Tree)
    requires IsTree(s) && s[[]].Folder?
    ensures !err && Partial(out, s) && SkipsAfter(s, out, got)
  {
    schedule := [Broken(got, false)];
    var env := new Env(schedule, None);
    err, out := CopyTree(env, s, "skip");
  }

  lemma DroppedNode(s: Tree, g: Rel, out: Tree)
    requires IsTree(s) && g in s && |g| >= 2 && !HasDataAt(s, g) && Partial(out, s)
    requires SkipsAfter(s, out, AllBut(s, g))
    ensures g !in out && Size(out) == Size(s)
  {
    DeliveredAllBut(s, g);
    SkippedPass(s, g, Delivered(s, map[], [], AllBut(s, g)), out);
    SizeCheckIsExact(out, s);
  }

  lemma ToFolder(s: Tree, g: Rel)
    requires IsTree(s) && g in s && g != []
    ensures s[[]].Folder?
  {
    Down(s, g, 0);
    Down(s, g, 1);
    assert g[..1][..0] == [];
  }

  ghost function LongestIn(rs: set<Rel>): (n: nat)
    ensures forall r :: r in rs ==> |r| <= n
    decreases |rs|
  {
    if rs == {} then 0
    else
      var p := Pick(rs);
      var n := LongestIn(rs - {p});
      assert forall r :: r in rs ==> r == p || r in rs - {p};
      if |p| > n then |p| else n
  }
}
