/**
  What a batch of file operations does to every path: the log of moves, of old destinations parked under
  another name, and of old destinations replaced, and where each node that stood on the disk is at the end.
*/
module Tracking {
  import opened Options
  import opened FileCopy
  import opened Disk
  import opened FileMove

  datatype Event =
    | WasMoved(from: Path, to: Path)
    | WasParked(dst: Path, tmp: Path)
    | WasReplaced(dst: Path)

  /** Where one event takes a path; a replaced destination is gone. */
  function Taken(e: Event, q: Path): Option<Path> {
    match e
    case WasMoved(from, to) => Some(Rebase(q, from, to))
    case WasParked(dst, tmp) => Some(Rebase(q, dst, tmp))
    case WasReplaced(dst) => if Under(dst, q) then None else Some(q)
  }

  function Where(log: seq<Event>, p: Path): Option<Path> {
    if log == [] then Some(p)
    else
      var q := Where(log[..|log| - 1], p);
      if q.None? then None else Taken(log[|log| - 1], q.value)
  }

  /** A non-empty file below the node has stayed below it so far. */
  ghost predicate StillHasData(a: Fs, log: seq<Event>, p: Path, q: Path) {
    exists f :: f in a && Under(p, f) && a[f].File? && a[f].data != "" && Where(log, f).Some? && Under(q, Where(log, f).value)
  }

  /** Each move that took the node along took it as the item itself, as an entry of it, or with data at or below it. */
  ghost predicate Assured(a: Fs, log: seq<Event>, p: Path) {
    log == [] ||
    var init, last := log[..|log| - 1], log[|log| - 1];
    Assured(a, init, p) &&
    (last.WasMoved? && Where(init, p).Some? && Under(last.from, Where(init, p).value) ==>
      |Where(init, p).value| <= |last.from| + 1 || StillHasData(a, init, p, Where(init, p).value))
  }

  /** Every node that was not replaced is where the log says; with style "skip", every node that is assured. */
  ghost predicate Tracked(a: Fs, b: Fs, log: seq<Event>, style: string) {
    forall p :: p in a && Where(log, p).Some? && (style == "skip" ==> Assured(a, log, p)) ==>
      Where(log, p).value in b && b[Where(log, p).value] == a[p]
  }

  /** A non-empty file is always assured. */
  lemma {:induction false} DataAssured(a: Fs, log: seq<Event>, f: Path)
    requires f in a && a[f].File? && a[f].data != ""
    ensures Assured(a, log, f)
  {
    if log != [] {
      var init := log[..|log| - 1];
      DataAssured(a, init, f);
      assert Under(f, f);
      if Where(init, f).Some? { assert Under(Where(init, f).value, Where(init, f).value); }
    }
  }

  lemma StillHas(a: Fs, b: Fs, log: seq<Event>, p: Path, q: Path, style: string)
    requires Tracked(a, b, log, style) && StillHasData(a, log, p, q)
    ensures HasDataAt(b, q)
  {
    var f :| f in a && Under(p, f) && a[f].File? && a[f].data != "" && Where(log, f).Some? && Under(q, Where(log, f).value);
    DataAssured(a, log, f);
    assert Where(log, f).value in b;
  }

  lemma WhereMore(log: seq<Event>, e: Event, p: Path)
    ensures Where(log + [e], p) == if Where(log, p).None? then None else Taken(e, Where(log, p).value)
  {
    assert (log + [e])[..|log|] == log;
  }

  lemma AssuredMore(a: Fs, log: seq<Event>, e: Event, p: Path)
    requires Assured(a, log + [e], p)
    ensures Assured(a, log, p)
    ensures e.WasMoved? && Where(log, p).Some? && Under(e.from, Where(log, p).value) ==>
      |Where(log, p).value| <= |e.from| + 1 || StillHasData(a, log, p, Where(log, p).value)
  {
    assert (log + [e])[..|log|] == log;
  }

  /** A successful move extends the log. */
  lemma TrackedMove(a: Fs, b: Fs, c: Fs, log: seq<Event>, from: Path, to: Path, style: string)
    requires Tracked(a, b, log, style) && Kept(b, c, from, to, style)
    ensures Tracked(a, c, log + [WasMoved(from, to)], style)
  {
    var more := log + [WasMoved(from, to)];
    forall p | p in a && Where(more, p).Some? && (style == "skip" ==> Assured(a, more, p))
      ensures Where(more, p).value in c && c[Where(more, p).value] == a[p]
    {
      WhereMore(log, WasMoved(from, to), p);
      var q := Where(log, p).value;
      if style == "skip" {
        AssuredMore(a, log, WasMoved(from, to), p);
        if Under(from, q) && |q| > |from| + 1 { StillHas(a, b, log, p, q, style); }
      }
      assert q in b && b[q] == a[p];
      assert Under(from, q) ==> Counts(style, b, from, q);
    }
  }

  /** An event that keeps every node it does not take away extends the log. */
  ghost predicate Carries(b: Fs, c: Fs, e: Event) {
    forall q :: q in b && Taken(e, q).Some? ==> Taken(e, q).value in c && c[Taken(e, q).value] == b[q]
  }

  lemma TrackedEvent(a: Fs, b: Fs, c: Fs, log: seq<Event>, e: Event, style: string)
    requires Tracked(a, b, log, style) && Carries(b, c, e)
    ensures Tracked(a, c, log + [e], style)
  {
    var more := log + [e];
    forall p | p in a && Where(more, p).Some? && (style == "skip" ==> Assured(a, more, p))
      ensures Where(more, p).value in c && c[Where(more, p).value] == a[p]
    {
      WhereMore(log, e, p);
      if style == "skip" { AssuredMore(a, log, e, p); }
      var q := Where(log, p).value;
      assert q in b && b[q] == a[p];
    }
  }

  /** Work confined to a free place loses nothing. */
  lemma TrackedAside(a: Fs, b: Fs, c: Fs, log: seq<Event>, to: Path, style: string)
    requires Tracked(a, b, log, style) && IsTree(b) && to !in b && SameBeyond(b, c, to)
    ensures Tracked(a, c, log, style)
  {
    forall q | q in b ensures q in c && c[q] == b[q] {
      if Under(to, q) { NothingBelow(b, to, q); }
      assert SameAt(b, c, q);
    }
  }

  lemma TrackedGrown(a: Fs, b: Fs, c: Fs, log: seq<Event>, p: Path, style: string)
    requires Tracked(a, b, log, style) && GrownTo(b, c, p)
    ensures Tracked(a, c, log, style)
  {
  }

  // ----- replacing

  /** The old destination is parked, everything beside it and its new place is as it was. */
  lemma TrackedPark(a: Fs, b: Fs, c: Fs, log: seq<Event>, dst: Path, tmp: Path, style: string)
    requires Tracked(a, b, log, style) && IsTree(b) && AsideName(b, dst, tmp) && Sub(c, tmp) == Sub(b, dst)
    requires forall q :: !Under(dst, q) && !Under(tmp, q) ==> SameAt(b, c, q)
    ensures Tracked(a, c, log + [WasParked(dst, tmp)], style)
  {
    forall q | q in b ensures Rebase(q, dst, tmp) in c && c[Rebase(q, dst, tmp)] == b[q] { ParkedAt(b, c, dst, tmp, q); }
    TrackedEvent(a, b, c, log, WasParked(dst, tmp), style);
  }

  lemma ParkedAt(b: Fs, c: Fs, dst: Path, tmp: Path, q: Path)
    requires IsTree(b) && AsideName(b, dst, tmp) && Sub(c, tmp) == Sub(b, dst) && q in b
    requires !Under(dst, q) && !Under(tmp, q) ==> SameAt(b, c, q)
    ensures Rebase(q, dst, tmp) in c && c[Rebase(q, dst, tmp)] == b[q]
  {
    if Under(dst, q) {
      var r := q[|dst|..];
      assert dst + r == q;
      assert r in Sub(b, dst) && Sub(b, dst)[r] == b[q];
      assert r in Sub(c, tmp) && Sub(c, tmp)[r] == c[tmp + r];
    } else if Under(tmp, q) {
      NothingBelow(b, tmp, q);
    }
  }

  /** A copy has taken the destination's place. */
  lemma TrackedReplace(a: Fs, b: Fs, c: Fs, log: seq<Event>, dst: Path, tmp: Path, style: string)
    requires Tracked(a, b, log, style) && IsTree(b) && AsideName(b, dst, tmp)
    requires forall q :: !Under(dst, q) && !Under(tmp, q) ==> SameAt(b, c, q)
    ensures Tracked(a, c, log + [WasReplaced(dst)], style)
  {
    forall q | q in b && !Under(dst, q) ensures q in c && c[q] == b[q] {
      if Under(tmp, q) { NothingBelow(b, tmp, q); }
      assert SameAt(b, c, q);
    }
    TrackedEvent(a, b, c, log, WasReplaced(dst), style);
  }

  /** A moved tree has taken the destination's place. */
  lemma TrackedReplaceMove(a: Fs, b: Fs, c: Fs, log: seq<Event>, from: Path, dst: Path, style: string)
    requires Tracked(a, b, log, style) && KeptBeyond(b, c, from, dst, style) && style != "skip"
    ensures Tracked(a, c, log + [WasReplaced(dst), WasMoved(from, dst)], style)
  {
    TrackedEvent(a, b, Removed(b, dst), log, WasReplaced(dst), style);
    TrackedMove(a, Removed(b, dst), c, log + [WasReplaced(dst)], from, dst, style);
    assert log + [WasReplaced(dst), WasMoved(from, dst)] == log + [WasReplaced(dst)] + [WasMoved(from, dst)];
  }

  // ----- reading the log

  /** The moves of the log, in order: what the source records as moved pairs. */
  function Moves(log: seq<Event>): seq<(Path, Path)> {
    if log == [] then []
    else
      var last := log[|log| - 1];
      Moves(log[..|log| - 1]) + if last.WasMoved? then [(last.from, last.to)] else []
  }

  /** Where a path has got to after the recorded moves alone. */
  function Follow(pairs: seq<(Path, Path)>, p: Path): Path {
    if pairs == [] then p
    else Rebase(Follow(pairs[..|pairs| - 1], p), pairs[|pairs| - 1].0, pairs[|pairs| - 1].1)
  }

  /** No old destination that was parked or replaced had the path in it. */
  ghost predicate Clear(log: seq<Event>, p: Path) {
    log == [] ||
    var init, last := log[..|log| - 1], log[|log| - 1];
    Clear(init, p) && (last.WasMoved? || !Under(last.dst, Follow(Moves(init), p)))
  }

  /** For such a path the recorded moves tell where it is. */
  lemma {:induction false} MovesTell(log: seq<Event>, p: Path)
    requires Clear(log, p)
    ensures Where(log, p) == Some(Follow(Moves(log), p))
  {
    if log != [] {
      var init, last := log[..|log| - 1], log[|log| - 1];
      MovesTell(init, p);
      if last.WasMoved? {
        var pairs := Moves(log);
        assert pairs[..|pairs| - 1] == Moves(init);
      } else {
        assert Moves(log) == Moves(init);
      }
    }
  }

  ghost predicate OnlyMoves(log: seq<Event>) { forall i :: 0 <= i < |log| ==> log[i].WasMoved? }

  lemma {:induction false} OnlyMovesClear(log: seq<Event>, p: Path)
    requires OnlyMoves(log)
    ensures Clear(log, p)
  {
    if log != [] { OnlyMovesClear(log[..|log| - 1], p); }
  }

  // ----- when style "skip" keeps a node

  /** No move took something out of the tree at the path. */
  ghost predicate Intact(log: seq<Event>, p: Path) {
    log == [] ||
    var init, last := log[..|log| - 1], log[|log| - 1];
    Intact(init, p) && last.WasMoved? && Where(init, p).Some?
    && (Under(Where(init, p).value, last.from) ==> last.from == Where(init, p).value)
  }

  /** What was below an intact path stays below it. */
  lemma {:induction false} StaysBelow(log: seq<Event>, p: Path, f: Path)
    requires Intact(log, p) && Under(p, f)
    ensures Where(log, p).Some? && Where(log, f) == Some(Where(log, p).value + f[|p|..])
  {
    if log == [] {
      assert p + f[|p|..] == f;
    } else {
      var init, last := log[..|log| - 1], log[|log| - 1];
      StaysBelow(init, p, f);
      var q, h := Where(init, p).value, Where(init, f).value;
      if Under(last.from, h) {
        assert Under(q, h);
        Comparable(last.from, q, h);
        assert Rebase(h, last.from, last.to) == Rebase(q, last.from, last.to) + f[|p|..];
      }
    }
  }

  /** With style "skip" a node with data at or below it is kept as long as nothing is moved out of its tree. */
  lemma {:induction false} IntactAssured(a: Fs, log: seq<Event>, p: Path)
    requires HasDataAt(a, p) && Intact(log, p)
    ensures Assured(a, log, p)
  {
    if log != [] {
      var init := log[..|log| - 1];
      IntactAssured(a, init, p);
      var f :| f in a && Under(p, f) && a[f].File? && a[f].data != "";
      StaysBelow(init, p, f);
      assert Under(Where(init, p).value, Where(init, f).value);
    }
  }
}
