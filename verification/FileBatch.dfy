/** A whole FileOperate batch (service/file.go): the item loop, keep-both naming, cancellation, and what survives it. */
module FileBatch {
  import opened Options
  import opened FileCopy
  import opened Disk
  import opened FileMove
  import opened Tracking

  // ----- GetNoDuplicateFileName (pkg/utils/file/file.go)

  function Itoa(n: nat): string {
    if n < 10 then [(48 + n) as char] else Itoa(n / 10) + [(48 + n % 10) as char]
  }

  function Value(s: string): int {
    if s == [] then 0 else 10 * Value(s[..|s| - 1]) + s[|s| - 1] as int - 48
  }

  lemma {:induction false} ItoaValue(n: nat)
    ensures Value(Itoa(n)) == n
  {
    if n >= 10 {
      ItoaValue(n / 10);
      assert Itoa(n)[..|Itoa(n)| - 1] == Itoa(n / 10);
    }
  }

  /** Length of the name before its extension: up to the last dot, or all of it. */
  function StemLength(name: string): (n: nat)
    ensures n <= |name|
  {
    if name == [] then 0
    else if name[|name| - 1] == '.' then |name| - 1
    else
      var n := StemLength(name[..|name| - 1]);
      if n == |name| - 1 then |name| else n
  }

  /** `name(n).ext`. */
  function Numbered(name: string, n: nat): string {
    name[..StemLength(name)] + "(" + Itoa(n) + ")" + name[StemLength(name)..]
  }

  lemma NumberedApart(name: string, m: nat, n: nat)
    ensures Numbered(name, n) != name
    ensures Numbered(name, m) == Numbered(name, n) ==> m == n
  {
    var k := StemLength(name);
    assert |Numbered(name, n)| == |name| + 2 + |Itoa(n)|;
    assert |Numbered(name, m)| == |name| + 2 + |Itoa(m)|;
    if Numbered(name, m) == Numbered(name, n) {
      assert Numbered(name, m)[k + 1..k + 1 + |Itoa(m)|] == Itoa(m);
      assert Numbered(name, n)[k + 1..k + 1 + |Itoa(n)|] == Itoa(n);
      ItoaValue(m);
      ItoaValue(n);
    }
  }

  function Sibling(p: Path, name: string): Path
    requires p != []
  {
    Parent(p) + [name]
  }

  function BaseName(p: Path): string
    requires p != []
  {
    p[|p| - 1]
  }

  /** The n-th name tried for a taken path. */
  function Candidate(p: Path, n: nat): Path
    requires p != []
  {
    Parent(p) + [Numbered(BaseName(p), n)]
  }

  ghost predicate FirstFree(taken: set<Path>, p: Path, n: nat)
    requires p != []
  {
    n > 0 && Candidate(p, n) !in taken && forall m: nat :: 0 < m < n ==> Candidate(p, m) in taken
  }

  lemma CandidatesApart(p: Path, m: nat, n: nat)
    requires p != []
    ensures Candidate(p, n) != p && (Candidate(p, m) == Candidate(p, n) ==> m == n)
  {
    NumberedApart(BaseName(p), m, n);
    assert Candidate(p, m)[|p| - 1] == Numbered(BaseName(p), m) && Candidate(p, n)[|p| - 1] == Numbered(BaseName(p), n);
  }

  /** The path itself if it is free, else the sibling with the smallest free number; the search always ends. */
  method GetNoDuplicateFileName(taken: set<Path>, p: Path) returns (free: Path)
    requires p != []
    ensures free !in taken && free != [] && Parent(free) == Parent(p)
    ensures p !in taken ==> free == p
    ensures p in taken ==> exists n: nat :: FirstFree(taken, p, n) && free == Candidate(p, n)
  {
    free := p;
    var i: nat := 0;
    ghost var tried: set<Path> := {};
    assert p == Parent(p) + [BaseName(p)];
    while free in taken
      invariant free != [] && Parent(free) == Parent(p) && tried <= taken && free !in tried
      invariant i == 0 ==> free == p && tried == {}
      invariant i > 0 ==> p in taken && free == Candidate(p, i)
      invariant forall m: nat :: 0 < m < i ==> Candidate(p, m) in taken
      invariant forall q :: q in tried ==> q == p || exists m: nat :: 0 < m < i && q == Candidate(p, m)
      decreases taken - tried
    {
      tried := tried + {free};
      i := i + 1;
      free := Candidate(p, i);
      forall q | q in tried ensures q != free {
        CandidatesApart(p, 0, i);
        if q != p {
          var m: nat :| 0 < m < i && q == Candidate(p, m);
          CandidatesApart(p, m, i);
        }
      }
    }
    assert i > 0 ==> FirstFree(taken, p, i);
  }

  // ----- one item

  datatype Kind = MoveKind | CopyKind | OtherKind
  datatype ItemEnd = Handled | Failed

  predicate Replacing(style: string) { style == "replace" || style == "overwrite" }

  /** opDestPath: the destination folder joined with the last name of the source. */
  function DestPath(from: Path, to: Path): Path {
    if from == [] then to else to + [BaseName(from)]
  }

  lemma UnderIsPrefix(p: Path, q: Path)
    ensures Under(p, q) ==> |p| <= |q| && p == q[..|p|]
  {
  }

  lemma UnderParent(p: Path, q: Path)
    requires Under(p, q) && p != q
    ensures q != [] && Under(p, Parent(q))
  {
    assert p == Parent(q)[..|p|];
  }

  /** A target next to the destination is not inside the source unless it is the source itself. */
  lemma TargetOutside(from: Path, to: Path, target: Path)
    requires !Under(from, to) && target != [] && Parent(target) == to
    ensures Under(from, target) ==> from == target
  {
    if Under(from, target) && from != target { UnderParent(from, target); }
  }

  /** A move to a free target. */
  method MoveTo(d: Disk, from: Path, to: Path, target: Path, style: string, ghost a: Fs, ghost log: seq<Event>)
    returns (end: ItemEnd, landed: Option<Path>)
    requires Rooted(d.nodes) && target !in d.nodes && target != [] && Parent(target) == to && !Under(from, to)
    modifies d, d.env
    ensures Rooted(d.nodes) && d.env.clock >= old(d.env.clock)
    ensures end.Failed? <==> landed.None?
    ensures landed.Some? ==> landed.value == target && KeptBeyond(old(d.nodes), d.nodes, from, target, style)
    ensures landed.Some? && Smooth(d.env, old(d.env.clock) + 1) ==> NothingUnder(d.nodes, from)
    ensures landed.None? ==> SameBeyond(old(d.nodes), d.nodes, target)
    ensures landed.None? && d.env.Cancelled() && LastFine(d.env) ==> NothingUnder(d.nodes, target)
    ensures CanMove(old(d.nodes), from, target) && Smooth(d.env, old(d.env.clock)) ==> landed.Some?
    ensures Tracked(a, old(d.nodes), log, style) ==>
      Tracked(a, d.nodes, if landed.Some? then log + [WasMoved(from, target)] else log, style)
  {
    ghost var b := d.nodes;
    TargetOutside(from, to, target);
    var usedRename, err := MoveItem(d, from, target, style);
    if err {
      if Tracked(a, b, log, style) { TrackedAside(a, b, d.nodes, log, target, style); }
      return Failed, None;
    }
    if Tracked(a, b, log, style) { TrackedMove(a, b, d.nodes, log, from, target, style); }
    return Handled, Some(target);
  }

  /** New folders on the way to a place outside the source are not in the source. */
  lemma GrownOutside(b: Fs, c: Fs, from: Path, to: Path)
    requires GrownTo(b, c, to) && !Under(from, to)
    ensures Sub(c, from) == Sub(b, from)
  {
    forall r: Rel ensures SameFrom(c, from, b, from, r) {
      if from + r in c && from + r !in b { OnTheWay(from, from + r, to); }
    }
    SameTree(c, from, b, from);
  }

  lemma OnTheWay(p: Path, q: Path, to: Path)
    requires Under(p, q) && Under(q, to)
    ensures Under(p, to)
  {
    assert p == q[..|p|] && q == to[..|q|];
  }

  lemma FreeStill(b: Fs, c: Fs, to: Path, target: Path)
    requires GrownTo(b, c, to) && target !in b && target != [] && Parent(target) == to
    ensures target !in c
  {
    assert |to| < |target|;
  }

  /** Outside the target nothing is gone or changed, and only folders that lead to it are new. */
  ghost predicate CopiedOnlyTo(a: Fs, b: Fs, target: Path) {
    && (forall q :: q in a && !Under(target, q) ==> q in b && b[q] == a[q])
    && (forall q :: q in b && q !in a && !Under(target, q) ==> Under(q, target) && b[q].Folder?)
  }

  lemma CopiedOnly(a: Fs, b: Fs, c: Fs, to: Path, target: Path)
    requires GrownTo(a, b, to) && SameBeyond(b, c, target) && target != [] && Parent(target) == to
    ensures CopiedOnlyTo(a, c, target)
  {
    forall q | !Under(target, q) ensures SameAt(b, c, q) { }
    forall q | Under(q, to) ensures Under(q, target) { }
  }

  /** The source is there, and so is the destination folder, or it can be made for a folder to go into. */
  ghost predicate CopyReady(s: Fs, from: Path, to: Path) {
    from in s && (if to in s then s[to].Folder? else s[from].Folder? && NoFileOn(s, to))
  }

  /**
    A copy to a free target; a cancelled copy is cleared away again.  The manual fallback for a folder makes the
    folders above the target if they are missing.
  */
  method CopyTo(d: Disk, from: Path, to: Path, target: Path, style: string, ghost a: Fs, ghost log: seq<Event>)
    returns (end: ItemEnd)
    requires Rooted(d.nodes) && target !in d.nodes && target != [] && Parent(target) == to && !Under(from, to)
    modifies d, d.env
    ensures Rooted(d.nodes) && d.env.clock >= old(d.env.clock)
    ensures Tracked(a, old(d.nodes), log, style) ==> Tracked(a, d.nodes, log, style)
    ensures CopiedOnlyTo(old(d.nodes), d.nodes, target)
    ensures end.Handled? && style != "skip" ==> from in old(d.nodes) && Sub(d.nodes, target) == Sub(old(d.nodes), from)
    ensures CopyReady(old(d.nodes), from, to) && Smooth(d.env, old(d.env.clock)) ==>
      end.Handled? && Sub(d.nodes, target) == Sub(old(d.nodes), from)
    ensures end.Failed? && d.env.Cancelled() && LastFine(d.env) ==> NothingUnder(d.nodes, target)
  {
    ghost var was := d.nodes;
    TargetOutside(from, to, target);
    var err := false;
    if to !in d.nodes && from in d.nodes && d.nodes[from].Folder? {
      var made := d.MkdirAll(to);
      err := !made;
    }
    ghost var b := d.nodes;
    FreeStill(was, b, to, target);
    GrownOutside(was, b, from, to);
    if !err { err := d.Copy(from, target, style); }
    ghost var c := d.nodes;
    if err && d.env.Cancelled() {
      WipeTarget(d, target);
      SameBeyondTwice(b, c, d.nodes, target);
    }
    CopiedOnly(was, b, d.nodes, to, target);
    if Tracked(a, was, log, style) {
      TrackedGrown(a, was, b, log, to, style);
      TrackedAside(a, b, d.nodes, log, target, style);
    }
    return if err then Failed else Handled;
  }

  /** A fresh sibling name for the old destination, which the source path does not lead through. */
  method AsideFor(d: Disk, from: Path, dst: Path) returns (tmp: Path)
    requires dst in d.nodes && dst != []
    ensures AsideName(d.nodes, dst, tmp) && !Under(tmp, from)
  {
    var taken := d.nodes.Keys + (if |from| >= |dst| then {from[..|dst|]} else {});
    tmp := GetNoDuplicateFileName(taken, Sibling(dst, BaseName(dst) + ".nimoos-replacing-"));
    assert |Parent(tmp)| == |tmp| - 1 && |Parent(dst)| == |dst| - 1;
    UnderIsPrefix(tmp, from);
  }

  /** A taken destination with any style but replace, overwrite and rename leaves the item alone. */
  predicate Skipped(kind: Kind, style: string, dst: Path, s: Fs) {
    kind.OtherKind? || (dst in s && !Replacing(style) && style != "rename")
  }

  /** A taken destination is replaced. */
  predicate Conflict(kind: Kind, style: string, dst: Path, s: Fs) {
    kind != OtherKind && Replacing(style) && dst in s
  }

  /** Replacing never loses the old destination: it is back, or at the parked path, unless the new content is there; all else is untouched. */
  ghost predicate ReplaceKeeps(a: Fs, b: Fs, kind: Kind, from: Path, dst: Path, end: ItemEnd, parked: Option<Path>) {
    && (end.Failed? && parked.None? ==> b == a)
    && (parked.Some? ==> end.Failed? && Sub(b, parked.value) == Sub(a, dst) && SameBeside(a, b, dst, parked.value))
    && (end.Handled? && kind.CopyKind? ==> from in a && Sub(b, dst) == Sub(a, from))
  }

  ghost predicate SameBeside(a: Fs, b: Fs, p: Path, q: Path) { forall r :: !Under(p, r) && !Under(q, r) ==> SameAt(a, b, r) }

  /** What an item adds to the log. */
  function EventsOf(kind: Kind, from: Path, dst: Path, conflict: bool, landed: Option<Path>, parked: Option<Path>): seq<Event> {
    if parked.Some? then [WasParked(dst, parked.value)]
    else if landed.None? then []
    else
      (if conflict then [WasReplaced(dst)] else []) + (if kind.MoveKind? then [WasMoved(from, landed.value)] else [])
  }

  /** Where an item may land: at its destination path, or with style "rename" at a numbered name beside it. */
  ghost predicate LandsAt(style: string, dst: Path, s: Fs, p: Path) {
    dst != [] && (if style == "rename" && dst in s then p !in s && exists n: nat :: FirstFree(s.Keys, dst, n) && p == Candidate(dst, n) else p == dst)
  }

  /** What is neither replaced nor moved is as it was. */
  ghost predicate Steady(a: Fs, b: Fs, kind: Kind, from: Path, gone: Path) {
    forall q :: q in a && !Under(gone, q) && (kind.MoveKind? ==> !Under(from, q)) ==> q in b && b[q] == a[q]
  }

  lemma SteadyBeside(a: Fs, b: Fs, kind: Kind, from: Path, dst: Path, tmp: Path)
    requires IsTree(a) && tmp !in a && SameBeside(a, b, dst, tmp)
    ensures Steady(a, b, kind, from, dst)
  {
    FreeTarget(a, tmp);
    forall q | q in a && !Under(dst, q) ensures q in b && b[q] == a[q] { assert SameAt(a, b, q); }
  }

  lemma SteadyMove(a: Fs, b: Fs, from: Path, dst: Path, style: string)
    requires KeptBeyond(a, b, from, dst, style)
    ensures Steady(a, b, MoveKind, from, dst)
  {
    forall q | q in a && !Under(dst, q) && !Under(from, q) ensures q in b && b[q] == a[q] { assert Rebase(q, from, dst) == q; }
  }

  /** The replacing branch: move or copy over the old destination. */
  method ReplaceItem(d: Disk, kind: Kind, from: Path, to: Path, style: string, ghost a: Fs, ghost log: seq<Event>)
    returns (end: ItemEnd, landed: Option<Path>, parked: Option<Path>)
    requires Rooted(d.nodes) && !Under(from, to) && Conflict(kind, style, DestPath(from, to), d.nodes)
    modifies d, d.env
    ensures Rooted(d.nodes) && d.env.clock >= old(d.env.clock)
    ensures landed == (if end.Handled? then Some(DestPath(from, to)) else None)
    ensures landed.Some? && kind.MoveKind? ==> KeptBeyond(old(d.nodes), d.nodes, from, DestPath(from, to), style)
    ensures ReplaceKeeps(old(d.nodes), d.nodes, kind, from, DestPath(from, to), end, parked)
    ensures Tracked(a, old(d.nodes), log, style) ==>
      Tracked(a, d.nodes, log + EventsOf(kind, from, DestPath(from, to), true, landed, parked), style)
    ensures parked.Some? ==> parked.value != [] && Parent(parked.value) == to
    ensures Steady(old(d.nodes), d.nodes, kind, from, DestPath(from, to))
    ensures from in old(d.nodes) && !Under(DestPath(from, to), from) && Smooth(d.env, old(d.env.clock)) ==>
      end.Handled? && (kind.MoveKind? ==> NothingUnder(d.nodes, from))
  {
    ghost var b := d.nodes;
    var dst := DestPath(from, to);
    assert Parent(dst) == to;
    var tmp := AsideFor(d, from, dst);
    TargetOutside(from, to, dst);
    var err;
    if kind.MoveKind? {
      var usedRename;
      usedRename, err, parked := ReplaceMove(d, from, dst, tmp, style);
    } else {
      err, parked := ReplaceCopy(d, from, dst, tmp, style);
    }
    end, landed := if err then Failed else Handled, if err then None else Some(dst);
    if kind.MoveKind? && !err { SteadyMove(b, d.nodes, from, dst, style); } else { SteadyBeside(b, d.nodes, kind, from, dst, tmp); }
    ghost var events := EventsOf(kind, from, dst, true, landed, parked);
    if Tracked(a, b, log, style) {
      if parked.Some? { TrackedPark(a, b, d.nodes, log, dst, tmp, style); }
      else if err { assert log + events == log; }
      else if kind.MoveKind? { TrackedReplaceMove(a, b, d.nodes, log, from, dst, style); assert events == [WasReplaced(dst), WasMoved(from, dst)]; }
      else { TrackedReplace(a, b, d.nodes, log, dst, tmp, style); assert events == [WasReplaced(dst)]; }
    }
  }

  lemma SteadyFree(a: Fs, b: Fs, from: Path, target: Path)
    requires SameBeyond(a, b, target)
    ensures Steady(a, b, MoveKind, from, target)
  {
    forall q | q in a && !Under(target, q) ensures q in b && b[q] == a[q] { assert SameAt(a, b, q); }
  }

  /** The branches that go to a free target. */
  method PlaceItem(d: Disk, kind: Kind, from: Path, to: Path, target: Path, style: string, ghost a: Fs, ghost log: seq<Event>)
    returns (end: ItemEnd, landed: Option<Path>)
    requires Rooted(d.nodes) && target !in d.nodes && target != [] && Parent(target) == to && !Under(from, to) && kind != OtherKind
    modifies d, d.env
    ensures Rooted(d.nodes) && d.env.clock >= old(d.env.clock)
    ensures landed == (if end.Handled? then Some(target) else None)
    ensures landed.Some? && kind.MoveKind? ==> KeptBeyond(old(d.nodes), d.nodes, from, target, style)
    ensures landed.Some? && kind.CopyKind? && style != "skip" ==> from in old(d.nodes) && Sub(d.nodes, target) == Sub(old(d.nodes), from)
    ensures kind.CopyKind? ==> CopiedOnlyTo(old(d.nodes), d.nodes, target)
    ensures Steady(old(d.nodes), d.nodes, kind, from, target)
    ensures landed.None? && d.env.Cancelled() && LastFine(d.env) ==> NothingUnder(d.nodes, target)
    ensures (if kind.MoveKind? then CanMove(old(d.nodes), from, target) else CopyReady(old(d.nodes), from, to)) && Smooth(d.env, old(d.env.clock)) ==>
      landed.Some? && (kind.MoveKind? ==> NothingUnder(d.nodes, from))
    ensures Tracked(a, old(d.nodes), log, style) ==>
      Tracked(a, d.nodes, log + EventsOf(kind, from, target, false, landed, None), style)
  {
    if kind.MoveKind? {
      ghost var b := d.nodes;
      end, landed := MoveTo(d, from, to, target, style, a, log);
      if landed.Some? { SteadyMove(b, d.nodes, from, target, style); } else { SteadyFree(b, d.nodes, from, target); }
      assert EventsOf(kind, from, target, false, landed, None) == if landed.Some? then [WasMoved(from, target)] else [];
    } else {
      end := CopyTo(d, from, to, target, style, a, log);
      landed := if end.Handled? then Some(target) else None;
      assert EventsOf(kind, from, target, false, landed, None) == [];
    }
    assert log + [] == log;
  }

  /** Nothing stands in the way of the item: it and the folder are there, and it is not inside what it would replace. */
  ghost predicate ItemReady(s: Fs, kind: Kind, style: string, from: Path, to: Path) {
    && from in s && (if kind.CopyKind? then CopyReady(s, from, to) else to in s && s[to].Folder?)
    && (Replacing(style) ==> !Under(DestPath(from, to), from))
  }

  /** All nodes but those of a moved item and of a destination to be replaced are as they were. */
  ghost predicate Undisturbed(a: Fs, b: Fs, kind: Kind, style: string, from: Path, dst: Path) {
    forall q :: q in a && (Replacing(style) ==> !Under(dst, q)) && (kind.MoveKind? ==> !Under(from, q)) ==> q in b && b[q] == a[q]
  }

  /**
    What one item does to the disk.  It lands unless it fails or is to be left alone; a landed move keeps every node that
    counts, a landed copy is exact and touches nothing else, a taken destination is replaced without loss, and all other nodes stay.
  */
  ghost predicate ItemSpec(a: Fs, b: Fs, kind: Kind, style: string, from: Path, to: Path, end: ItemEnd, landed: Option<Path>, parked: Option<Path>) {
    var dst := DestPath(from, to);
    && (landed.Some? <==> end.Handled? && !Skipped(kind, style, dst, a))
    && (landed.Some? ==> LandsAt(style, dst, a, landed.value))
    && (Skipped(kind, style, dst, a) ==> end.Handled? && b == a)
    && (landed.Some? && kind.MoveKind? ==> KeptBeyond(a, b, from, landed.value, style))
    && (landed.Some? && kind.CopyKind? && style != "skip" ==> from in a && Sub(b, landed.value) == Sub(a, from))
    && (landed.Some? && kind.CopyKind? && !Replacing(style) ==> CopiedOnlyTo(a, b, landed.value))
    && (if Conflict(kind, style, dst, a) then ReplaceKeeps(a, b, kind, from, dst, end, parked) else parked.None?)
    && (parked.Some? ==> parked.value != [] && Parent(parked.value) == to)
    && Undisturbed(a, b, kind, style, from, dst)
  }

  lemma UndisturbedBy(a: Fs, b: Fs, kind: Kind, style: string, from: Path, dst: Path, target: Path)
    requires IsTree(a) && target !in a && Steady(a, b, kind, from, target)
    ensures Undisturbed(a, b, kind, style, from, dst)
  {
    FreeTarget(a, target);
  }

  /** An item that went to a free target, its destination or the first free sibling of it. */
  lemma PlacedSpec(a: Fs, b: Fs, kind: Kind, style: string, from: Path, to: Path, target: Path, end: ItemEnd, landed: Option<Path>)
    requires IsTree(a) && target !in a && !Skipped(kind, style, DestPath(from, to), a) && !Conflict(kind, style, DestPath(from, to), a)
    requires LandsAt(style, DestPath(from, to), a, target) && (kind.CopyKind? || kind.MoveKind?)
    requires landed == (if end.Handled? then Some(target) else None)
    requires landed.Some? && kind.MoveKind? ==> KeptBeyond(a, b, from, target, style)
    requires landed.Some? && kind.CopyKind? && style != "skip" ==> from in a && Sub(b, target) == Sub(a, from)
    requires kind.CopyKind? ==> CopiedOnlyTo(a, b, target)
    requires Steady(a, b, kind, from, target)
    ensures ItemSpec(a, b, kind, style, from, to, end, landed, None)
  {
    UndisturbedBy(a, b, kind, style, from, DestPath(from, to), target);
  }

  /** An item that was to replace its destination. */
  lemma ReplacedSpec(a: Fs, b: Fs, kind: Kind, style: string, from: Path, to: Path, end: ItemEnd, landed: Option<Path>, parked: Option<Path>)
    requires Conflict(kind, style, DestPath(from, to), a) && DestPath(from, to) != []
    requires landed == (if end.Handled? then Some(DestPath(from, to)) else None)
    requires landed.Some? && kind.MoveKind? ==> KeptBeyond(a, b, from, DestPath(from, to), style)
    requires ReplaceKeeps(a, b, kind, from, DestPath(from, to), end, parked)
    requires parked.Some? ==> parked.value != [] && Parent(parked.value) == to
    requires Steady(a, b, kind, from, DestPath(from, to))
    ensures ItemSpec(a, b, kind, style, from, to, end, landed, parked)
  {
  }

  lemma FreeWay(s: Fs, kind: Kind, from: Path, to: Path, target: Path)
    requires target != [] && Parent(target) == to && !Under(from, to)
    ensures from in s && to in s && s[to].Folder? && target !in s ==> CanMove(s, from, target)
  {
    TargetOutside(from, to, target);
  }

  /** The branches without a replacement: the free destination, or the first free name beside a taken one. */
  method PlaceBeside(d: Disk, kind: Kind, from: Path, to: Path, style: string, ghost a: Fs, ghost log: seq<Event>)
    returns (end: ItemEnd, landed: Option<Path>)
    requires Rooted(d.nodes) && !Under(from, to) && !Skipped(kind, style, DestPath(from, to), d.nodes)
    requires !Conflict(kind, style, DestPath(from, to), d.nodes)
    modifies d, d.env
    ensures Rooted(d.nodes) && d.env.clock >= old(d.env.clock)
    ensures ItemSpec(old(d.nodes), d.nodes, kind, style, from, to, end, landed, None)
    ensures ItemReady(old(d.nodes), kind, style, from, to) && Smooth(d.env, old(d.env.clock)) ==>
      end.Handled? && (kind.MoveKind? ==> NothingUnder(d.nodes, from))
    ensures Tracked(a, old(d.nodes), log, style) ==>
      Tracked(a, d.nodes, log + EventsOf(kind, from, DestPath(from, to), false, landed, None), style)
  {
    ghost var b := d.nodes;
    var target := DestPath(from, to);
    assert Parent(target) == to;
    if target in d.nodes { target := GetNoDuplicateFileName(d.nodes.Keys, target); }
    FreeWay(b, kind, from, to, target);
    assert LandsAt(style, DestPath(from, to), b, target);
    end, landed := PlaceItem(d, kind, from, to, target, style, a, log);
    PlacedSpec(b, d.nodes, kind, style, from, to, target, end, landed);
    assert landed.Some? ==> EventsOf(kind, from, DestPath(from, to), false, landed, None) == EventsOf(kind, from, target, false, landed, None);
  }

  /** One round of the item loop after the cancellation check. */
  method OperateItem(d: Disk, kind: Kind, from: Path, to: Path, style: string, ghost a: Fs, ghost log: seq<Event>)
    returns (end: ItemEnd, landed: Option<Path>, parked: Option<Path>)
    requires Rooted(d.nodes) && !Under(from, to)
    modifies d, d.env
    ensures Rooted(d.nodes) && d.env.clock >= old(d.env.clock)
    ensures ItemSpec(old(d.nodes), d.nodes, kind, style, from, to, end, landed, parked)
    ensures ItemReady(old(d.nodes), kind, style, from, to) && Smooth(d.env, old(d.env.clock)) ==>
      end.Handled? && (landed.Some? && kind.MoveKind? ==> NothingUnder(d.nodes, from))
    ensures Tracked(a, old(d.nodes), log, style) ==>
      Tracked(a, d.nodes,
        log + EventsOf(kind, from, DestPath(from, to), Conflict(kind, style, DestPath(from, to), old(d.nodes)), landed, parked), style)
  {
    landed, parked := None, None;
    assert log + [] == log;
    if Skipped(kind, style, DestPath(from, to), d.nodes) { return Handled, None, None; }
    ghost var b := d.nodes;
    if DestPath(from, to) in d.nodes && Replacing(style) {
      end, landed, parked := ReplaceItem(d, kind, from, to, style, a, log);
      ReplacedSpec(b, d.nodes, kind, style, from, to, end, landed, parked);
    } else {
      end, landed := PlaceBeside(d, kind, from, to, style, a, log);
    }
  }

  // ----- the batch

  ghost predicate StartedBefore(starts: seq<nat>, cancelAt: Option<nat>) {
    cancelAt.Some? ==> forall k :: 0 <= k < |starts| ==> starts[k] < cancelAt.value
  }

  /** A name an item may get in the destination folder. */
  ghost predicate ItemName(items: seq<Path>, to: Path, p: Path) {
    exists k :: 0 <= k < |items| && items[k] != [] && (p == DestPath(items[k], to) || IsNumbered(DestPath(items[k], to), p))
  }

  ghost predicate IsNumbered(p: Path, q: Path) { p != [] && exists n: nat :: q == Candidate(p, n) }

  /** What may be in the log of a batch: moves of items into the folder, and with a replacing style old destinations of items. */
  ghost predicate EventOk(e: Event, kind: Kind, items: seq<Path>, to: Path, style: string) {
    match e
    case WasMoved(from, p) => kind.MoveKind? && from in items && ItemName(items, to, p)
    case WasParked(dst, tmp) => Replacing(style) && IsDest(items, to, dst) && tmp != [] && Parent(tmp) == to
    case WasReplaced(dst) => Replacing(style) && IsDest(items, to, dst)
  }

  ghost predicate IsDest(items: seq<Path>, to: Path, dst: Path) { exists k :: 0 <= k < |items| && dst == DestPath(items[k], to) }

  ghost predicate LogOk(log: seq<Event>, kind: Kind, items: seq<Path>, to: Path, style: string) {
    forall i :: 0 <= i < |log| ==> EventOk(log[i], kind, items, to, style)
  }

  lemma LogGrows(log: seq<Event>, kind: Kind, items: seq<Path>, to: Path, style: string, s: Fs, i: nat, landed: Option<Path>, parked: Option<Path>)
    requires LogOk(log, kind, items, to, style) && i < |items| && !Under(items[i], to)
    requires landed.Some? ==> LandsAt(style, DestPath(items[i], to), s, landed.value)
    requires parked.Some? ==> parked.value != [] && Parent(parked.value) == to && Conflict(kind, style, DestPath(items[i], to), s)
    ensures var events := EventsOf(kind, items[i], DestPath(items[i], to), Conflict(kind, style, DestPath(items[i], to), s), landed, parked);
      && LogOk(log + events, kind, items, to, style)
      && Moves(log + events) == Moves(log) + if landed.Some? && parked.None? && kind.MoveKind? then [(items[i], landed.value)] else []
  {
    var dst := DestPath(items[i], to);
    var conflict := Conflict(kind, style, dst, s);
    var events := EventsOf(kind, items[i], dst, conflict, landed, parked);
    assert items[i] != [];
    assert IsDest(items, to, dst);
    if landed.Some? { LandingName(items, to, style, s, i, landed.value); }
    forall e | e in events ensures EventOk(e, kind, items, to, style) { }
    forall j | 0 <= j < |log + events| ensures EventOk((log + events)[j], kind, items, to, style) {
      if j >= |log| { assert (log + events)[j] in events; }
    }
    MovesAppend(log, events);
    MovesOfItem(kind, items[i], dst, conflict, landed, parked);
  }

  /** The record of a batch so far is true. */
  ghost predicate Recorded(a: Fs, s: Fs, log: seq<Event>, pairs: seq<(Path, Path)>, kind: Kind, items: seq<Path>, to: Path, style: string) {
    Tracked(a, s, log, style) && LogOk(log, kind, items, to, style) && pairs == Moves(log)
  }

  lemma RecordGrows(a: Fs, b: Fs, c: Fs, log: seq<Event>, pairs: seq<(Path, Path)>, kind: Kind, items: seq<Path>, to: Path, style: string,
                    i: nat, landed: Option<Path>, parked: Option<Path>)
    requires Recorded(a, b, log, pairs, kind, items, to, style) && i < |items| && !Under(items[i], to) && (parked.None? || landed.None?)
    requires landed.Some? ==> LandsAt(style, DestPath(items[i], to), b, landed.value)
    requires parked.Some? ==> parked.value != [] && Parent(parked.value) == to && Conflict(kind, style, DestPath(items[i], to), b)
    requires var events := EventsOf(kind, items[i], DestPath(items[i], to), Conflict(kind, style, DestPath(items[i], to), b), landed, parked);
      Tracked(a, c, log + events, style)
    ensures var events := EventsOf(kind, items[i], DestPath(items[i], to), Conflict(kind, style, DestPath(items[i], to), b), landed, parked);
      Recorded(a, c, log + events, if landed.Some? && kind.MoveKind? then pairs + [(items[i], landed.value)] else pairs, kind, items, to, style)
  {
    LogGrows(log, kind, items, to, style, b, i, landed, parked);
  }

  lemma LandingName(items: seq<Path>, to: Path, style: string, s: Fs, i: nat, p: Path)
    requires i < |items| && items[i] != [] && LandsAt(style, DestPath(items[i], to), s, p)
    ensures ItemName(items, to, p)
  {
    var dst := DestPath(items[i], to);
    if p != dst {
      var n: nat :| FirstFree(s.Keys, dst, n) && p == Candidate(dst, n);
      assert IsNumbered(dst, p);
    }
  }

  lemma {:induction false} MovesAppend(log: seq<Event>, more: seq<Event>)
    ensures Moves(log + more) == Moves(log) + Moves(more)
  {
    if more == [] {
      assert log + more == log;
    } else {
      var init := more[..|more| - 1];
      MovesAppend(log, init);
      assert (log + more)[..|log + more| - 1] == log + init;
    }
  }

  lemma MovesOfItem(kind: Kind, from: Path, dst: Path, conflict: bool, landed: Option<Path>, parked: Option<Path>)
    ensures Moves(EventsOf(kind, from, dst, conflict, landed, parked)) ==
      if landed.Some? && parked.None? && kind.MoveKind? then [(from, landed.value)] else []
  {
    var events := EventsOf(kind, from, dst, conflict, landed, parked);
    if |events| == 1 { assert events[..0] == []; }
    if |events| == 2 {
      assert events[..1] == [WasReplaced(dst)] && [WasReplaced(dst)][..0] == [];
      assert Moves([WasReplaced(dst)]) == [];
    }
  }

  ghost predicate RestReady(s: Fs, kind: Kind, style: string, items: seq<Path>, to: Path, i: nat) {
    forall k :: i <= k < |items| ==> ItemReady(s, kind, style, items[k], to)
  }

  /** Every item is ready, none is moved along with another, and none is inside what another would replace. */
  ghost predicate BatchReady(s: Fs, kind: Kind, style: string, items: seq<Path>, to: Path) {
    && RestReady(s, kind, style, items, to, 0) && to in s && s[to].Folder?
    && (kind.MoveKind? ==> forall i, j :: 0 <= i < |items| && 0 <= j < |items| && i != j ==> !Under(items[i], items[j]))
    && (Replacing(style) ==> forall i, j :: 0 <= i < |items| && 0 <= j < |items| ==> !Under(DestPath(items[i], to), items[j]))
  }

  lemma RestStaysReady(a: Fs, b: Fs, c: Fs, kind: Kind, style: string, items: seq<Path>, to: Path, i: nat)
    requires BatchReady(a, kind, style, items, to) && i < |items| && !Under(items[i], to)
    requires RestReady(b, kind, style, items, to, i) && Undisturbed(b, c, kind, style, items[i], DestPath(items[i], to))
    requires to in b && b[to].Folder?
    ensures RestReady(c, kind, style, items, to, i + 1) && to in c && c[to].Folder?
  {
    assert items[i] != [] && !Under(DestPath(items[i], to), to);
    forall k | i + 1 <= k < |items| ensures ItemReady(c, kind, style, items[k], to) {
      assert ItemReady(b, kind, style, items[k], to);
      assert items[k] in c && c[items[k]] == b[items[k]];
    }
  }

  /** One round of the item loop: the disk before and after it, and how it ended. */
  datatype Round = Round(before: Fs, after: Fs, end: ItemEnd, landed: Option<Path>, parked: Option<Path>)

  /** The round did to the disk what its item demands. */
  ghost predicate RoundSpec(r: Round, kind: Kind, style: string, from: Path, to: Path) {
    ItemSpec(r.before, r.after, kind, style, from, to, r.end, r.landed, r.parked)
  }

  ghost predicate RoundAt(rounds: seq<Round>, k: nat, kind: Kind, style: string, items: seq<Path>, to: Path) {
    k < |rounds| && k < |items| && RoundSpec(rounds[k], kind, style, items[k], to)
  }

  ghost predicate LinkAt(rounds: seq<Round>, k: nat) { 0 < k < |rounds| && rounds[k].before == rounds[k - 1].after }

  /** Each round begins with the disk the one before has left. */
  ghost predicate Chained(rounds: seq<Round>, a: Fs, b: Fs) {
    if rounds == [] then a == b
    else rounds[0].before == a && rounds[|rounds| - 1].after == b && forall k: nat :: 0 < k < |rounds| ==> LinkAt(rounds, k)
  }

  /** The landed moves in order. */
  function PairsOf(rounds: seq<Round>, kind: Kind, items: seq<Path>): seq<(Path, Path)>
    requires |rounds| <= |items|
  {
    if rounds == [] then [] else var n := |rounds| - 1; MorePairs(PairsOf(rounds[..n], kind, items), kind, items[n], rounds[n].landed)
  }

  /** The rounds lead from disk `a` to disk `b`, each does what its item demands, and `pairs` are the landed moves. */
  ghost predicate Rounds(rounds: seq<Round>, a: Fs, b: Fs, kind: Kind, style: string, items: seq<Path>, to: Path, pairs: seq<(Path, Path)>) {
    && |rounds| <= |items| && (forall k: nat :: k < |rounds| ==> RoundAt(rounds, k, kind, style, items, to))
    && Chained(rounds, a, b) && pairs == PairsOf(rounds, kind, items)
  }

  lemma ChainedMore(rounds: seq<Round>, r: Round, a: Fs)
    requires Chained(rounds, a, r.before)
    ensures Chained(rounds + [r], a, r.after)
  {
    forall k: nat | 0 < k < |rounds| + 1 ensures LinkAt(rounds + [r], k) {
      if k < |rounds| { assert LinkAt(rounds, k); }
    }
  }

  lemma RoundsMore(rounds: seq<Round>, r: Round, a: Fs, kind: Kind, style: string, items: seq<Path>, to: Path, pairs: seq<(Path, Path)>)
    requires Rounds(rounds, a, r.before, kind, style, items, to, pairs) && |rounds| < |items|
    requires RoundSpec(r, kind, style, items[|rounds|], to)
    ensures Rounds(rounds + [r], a, r.after, kind, style, items, to, MorePairs(pairs, kind, items[|rounds|], r.landed))
  {
    ChainedMore(rounds, r, a);
    assert (rounds + [r])[..|rounds|] == rounds;
    forall k: nat | k < |rounds| + 1 ensures RoundAt(rounds + [r], k, kind, style, items, to) {
      if k < |rounds| { assert RoundAt(rounds, k, kind, style, items, to); }
    }
  }

  function MorePairs(pairs: seq<(Path, Path)>, kind: Kind, from: Path, landed: Option<Path>): seq<(Path, Path)> {
    if landed.Some? && kind.MoveKind? then pairs + [(from, landed.value)] else pairs
  }

  /** The batch began ready and the items from i on still are. */
  ghost predicate OnTrack(a: Fs, s: Fs, kind: Kind, style: string, items: seq<Path>, to: Path, i: nat) {
    BatchReady(a, kind, style, items, to) && RestReady(s, kind, style, items, to, i) && to in s && s[to].Folder?
  }

  /** What a round comes to when nothing fails: the item is handled, and a moved one is gone from its place. */
  ghost predicate RoundFine(r: Round, kind: Kind, from: Path) {
    r.end.Handled? && (r.landed.Some? && kind.MoveKind? ==> NothingUnder(r.after, from))
  }

  /** One item with its record. */
  method LoggedItem(d: Disk, kind: Kind, items: seq<Path>, to: Path, style: string, i: nat, pairs: seq<(Path, Path)>, ghost a: Fs, ghost log: seq<Event>)
    returns (end: ItemEnd, more: seq<(Path, Path)>, ghost log': seq<Event>, ghost r: Round)
    requires Rooted(d.nodes) && i < |items| && !Under(items[i], to) && Recorded(a, d.nodes, log, pairs, kind, items, to, style)
    modifies d, d.env
    ensures Rooted(d.nodes) && d.env.clock >= old(d.env.clock) && Recorded(a, d.nodes, log', more, kind, items, to, style)
    ensures r.before == old(d.nodes) && r.after == d.nodes && r.end == end && more == MorePairs(pairs, kind, items[i], r.landed)
    ensures RoundSpec(r, kind, style, items[i], to)
    ensures OnTrack(a, old(d.nodes), kind, style, items, to, i) && Smooth(d.env, old(d.env.clock)) ==>
      RoundFine(r, kind, items[i]) && OnTrack(a, d.nodes, kind, style, items, to, i + 1)
  {
    ghost var b := d.nodes;
    var landed, parked;
    end, landed, parked := OperateItem(d, kind, items[i], to, style, a, log);
    r := Round(b, d.nodes, end, landed, parked);
    if OnTrack(a, b, kind, style, items, to, i) { RestStaysReady(a, b, d.nodes, kind, style, items, to, i); }
    RecordGrows(a, b, d.nodes, log, pairs, kind, items, to, style, i, landed, parked);
    more := MorePairs(pairs, kind, items[i], landed);
    log' := log + EventsOf(kind, items[i], DestPath(items[i], to), Conflict(kind, style, DestPath(items[i], to), b), landed, parked);
  }

  /** The rounds so far, as the loop knows them. */
  ghost predicate LoopState(rounds: seq<Round>, ends: seq<ItemEnd>, a: Fs, s: Fs, kind: Kind, style: string, items: seq<Path>, to: Path, pairs: seq<(Path, Path)>) {
    && |rounds| == |ends| <= |items| && (forall k :: 0 <= k < |ends| ==> ends[k] == rounds[k].end)
    && Rounds(rounds, a, s, kind, style, items, to, pairs)
  }

  lemma LoopGrows(rounds: seq<Round>, ends: seq<ItemEnd>, r: Round, a: Fs, kind: Kind, style: string, items: seq<Path>, to: Path, pairs: seq<(Path, Path)>)
    requires LoopState(rounds, ends, a, r.before, kind, style, items, to, pairs) && |ends| < |items|
    requires RoundSpec(r, kind, style, items[|ends|], to)
    ensures LoopState(rounds + [r], ends + [r.end], a, r.after, kind, style, items, to, MorePairs(pairs, kind, items[|ends|], r.landed))
  {
    RoundsMore(rounds, r, a, kind, style, items, to, pairs);
  }

  /** Everything the loop knows after some rounds; `smooth` says that nothing fails. */
  ghost predicate BatchState(a: Fs, s: Fs, kind: Kind, style: string, items: seq<Path>, to: Path, smooth: bool,
                             pairs: seq<(Path, Path)>, ends: seq<ItemEnd>, log: seq<Event>, rounds: seq<Round>) {
    && Recorded(a, s, log, pairs, kind, items, to, style)
    && LoopState(rounds, ends, a, s, kind, style, items, to, pairs)
    && (smooth && BatchReady(a, kind, style, items, to) ==> OnTrack(a, s, kind, style, items, to, |ends|) && AllFine(rounds, kind, items))
  }

  ghost predicate FineAt(rounds: seq<Round>, k: nat, kind: Kind, items: seq<Path>) {
    k < |rounds| && k < |items| && RoundFine(rounds[k], kind, items[k])
  }

  ghost predicate AllFine(rounds: seq<Round>, kind: Kind, items: seq<Path>) {
    |rounds| <= |items| && forall k: nat :: k < |rounds| ==> FineAt(rounds, k, kind, items)
  }

  lemma BatchStarts(a: Fs, kind: Kind, style: string, items: seq<Path>, to: Path, smooth: bool)
    ensures BatchState(a, a, kind, style, items, to, smooth, [], [], [], [])
  {
  }

  lemma FineMore(rounds: seq<Round>, r: Round, kind: Kind, items: seq<Path>)
    requires AllFine(rounds, kind, items) && |rounds| < |items| && RoundFine(r, kind, items[|rounds|])
    ensures AllFine(rounds + [r], kind, items)
  {
    forall k: nat | k < |rounds| + 1 ensures FineAt(rounds + [r], k, kind, items) {
      if k < |rounds| { assert FineAt(rounds, k, kind, items); }
    }
  }

  lemma BatchGrows(a: Fs, kind: Kind, style: string, items: seq<Path>, to: Path, smooth: bool, pairs: seq<(Path, Path)>, ends: seq<ItemEnd>,
                   log: seq<Event>, log': seq<Event>, rounds: seq<Round>, r: Round, more: seq<(Path, Path)>)
    requires BatchState(a, r.before, kind, style, items, to, smooth, pairs, ends, log, rounds) && |ends| < |items|
    requires RoundSpec(r, kind, style, items[|ends|], to) && Recorded(a, r.after, log', more, kind, items, to, style)
    requires more == MorePairs(pairs, kind, items[|ends|], r.landed)
    requires smooth && BatchReady(a, kind, style, items, to) ==>
      RoundFine(r, kind, items[|ends|]) && OnTrack(a, r.after, kind, style, items, to, |ends| + 1)
    ensures BatchState(a, r.after, kind, style, items, to, smooth, more, ends + [r.end], log', rounds + [r])
  {
    LoopGrows(rounds, ends, r, a, kind, style, items, to, pairs);
    if smooth && BatchReady(a, kind, style, items, to) { FineMore(rounds, r, kind, items); }
  }

  /** One round with all its records. */
  method RunRound(d: Disk, kind: Kind, items: seq<Path>, to: Path, style: string, pairs: seq<(Path, Path)>, ends: seq<ItemEnd>,
                  ghost smooth: bool, ghost a: Fs, ghost log: seq<Event>, ghost rounds: seq<Round>)
    returns (end: ItemEnd, more: seq<(Path, Path)>, ghost log': seq<Event>, ghost rounds': seq<Round>)
    requires Rooted(d.nodes) && |ends| < |items| && !Under(items[|ends|], to) && (smooth ==> Smooth(d.env, d.env.clock))
    requires BatchState(a, d.nodes, kind, style, items, to, smooth, pairs, ends, log, rounds)
    modifies d, d.env
    ensures Rooted(d.nodes) && d.env.clock >= old(d.env.clock)
    ensures BatchState(a, d.nodes, kind, style, items, to, smooth, more, ends + [end], log', rounds')
    ensures smooth && BatchReady(a, kind, style, items, to) ==> end.Handled?
  {
    ghost var r;
    end, more, log', r := LoggedItem(d, kind, items, to, style, |ends|, pairs, a, log);
    BatchGrows(a, kind, style, items, to, smooth, pairs, ends, log, log', rounds, r, more);
    rounds' := rounds + [r];
  }

  /**
    The item loop.  `starts` is the time each item was begun, `pairs` what the source records as moved, `rounds` the disk between the items.
    No item begins after the cancellation; the run is only called cancelled if some item was not begun or failed; every round does
    what its item demands, and for every style every node that was on the disk is at the end where the log of the batch says, unless
    its item was replaced.  Where nothing fails and the items are not in each other's way, every item is handled.
  */
  method FileOperate(d: Disk, kind: Kind, items: seq<Path>, to: Path, style: string)
    returns (pairs: seq<(Path, Path)>, ends: seq<ItemEnd>, starts: seq<nat>, cancelled: bool, ghost log: seq<Event>, ghost rounds: seq<Round>)
    requires Rooted(d.nodes) && forall i :: 0 <= i < |items| ==> !Under(items[i], to)
    modifies d, d.env
    ensures Rooted(d.nodes)
    ensures |starts| == |ends| <= |items| && StartedBefore(starts, d.env.cancelAt)
    ensures !cancelled ==> |ends| == |items|
    ensures cancelled ==> d.env.Cancelled() && (|ends| < |items| || Failed in ends)
    ensures !cancelled && items != [] && ends[|items| - 1].Failed? ==> !d.env.Cancelled()
    ensures BatchState(old(d.nodes), d.nodes, kind, style, items, to, Smooth(d.env, old(d.env.clock)), pairs, ends, log, rounds)
    ensures BatchReady(old(d.nodes), kind, style, items, to) && Smooth(d.env, old(d.env.clock)) ==> !cancelled
  {
    ghost var a, smooth := d.nodes, Smooth(d.env, d.env.clock);
    pairs, ends, starts, cancelled, log, rounds := [], [], [], false, [], [];
    BatchStarts(a, kind, style, items, to, smooth);
    for i := 0 to |items|
      invariant Rooted(d.nodes) && |starts| == |ends| == i && !cancelled && StartedBefore(starts, d.env.cancelAt)
      invariant BatchState(a, d.nodes, kind, style, items, to, smooth, pairs, ends, log, rounds)
      invariant i > 0 && ends[i - 1].Failed? ==> !d.env.Cancelled()
      invariant smooth ==> Smooth(d.env, d.env.clock) && Smooth(d.env, old(d.env.clock))
    {
      if d.env.Cancelled() {
        cancelled := true;
        return;
      }
      starts := starts + [d.env.clock];
      var end;
      end, pairs, log, rounds := RunRound(d, kind, items, to, style, pairs, ends, smooth, a, log, rounds);
      ends := ends + [end];
      if end.Failed? && d.env.Cancelled() {
        cancelled := true;
        assert ends[i] == Failed;
        return;
      }
    }
  }
}
