/** Samba shares that follow moved folders: sharePathScope, rewriteSharePath and RewriteSharePathPrefix of service/shares.go. */
module Shares {
  import opened Strings
  import opened Paths
  import opened FileCopy
  import opened Disk
  import opened Tracking
  import opened FileBatch
  import opened Options

  // ----- the strings

  /** sharePathScope, first result: trailing slashes go, the root stays. */
  function ExactPath(path: string): string {
    if TrimSlashes(path) == "" then [Slash] else TrimSlashes(path)
  }

  function RewriteSharePath(share: string, oldExact: string, newExact: string): string {
    if share == oldExact then newExact
    else if oldExact + [Slash] <= share then newExact + share[|oldExact|..]
    else share
  }

  /** On clean absolute paths the string rewriting is the rebasing of names. */
  lemma RewriteIsRebase(ns: seq<string>, from: seq<string>, to: seq<string>)
    requires GoodNames(ns) && GoodNames(from) && GoodNames(to) && from != [] && to != []
    ensures RewriteSharePath(Render(ns), Render(from), Render(to)) == Render(Rebase(ns, from, to))
    ensures GoodNames(Rebase(ns, from, to))
  {
    if ns == from {
      assert ns[|from|..] == [] && to + [] == to;
    } else if Under(from, ns) {
      RebaseBelow(ns, from, to);
    } else {
      RewriteElsewhere(ns, from, Render(to));
    }
  }

  lemma RebaseBelow(ns: seq<string>, from: seq<string>, to: seq<string>)
    requires from != [] && to != [] && Under(from, ns) && ns != from
    ensures RewriteSharePath(Render(ns), Render(from), Render(to)) == Render(to + ns[|from|..])
  {
    var rest := ns[|from|..];
    BelowHasPrefix(ns, from);
    RewriteBelow(Render(ns), Render(from), Render(to), Join(Slash, rest));
    JoinAppend(Slash, to, rest);
  }

  lemma RewriteElsewhere(ns: seq<string>, from: seq<string>, newExact: string)
    requires GoodNames(ns) && GoodNames(from) && !Under(from, ns)
    ensures RewriteSharePath(Render(ns), Render(from), newExact) == Render(ns)
  {
    NamesRender(ns);
    NamesRender(from);
    PrefixMeansBelow(ns, from);
  }

  lemma RewriteBelow(share: string, old_: string, new_: string, rest: string)
    requires share == old_ + [Slash] + rest
    ensures RewriteSharePath(share, old_, new_) == new_ + [Slash] + rest
  {
    assert share[|old_|..] == [Slash] + rest;
  }

  /** A clean absolute path is its own exact form, with or without a slash at the end. */
  lemma ExactRender(ns: seq<string>)
    requires GoodNames(ns) && ns != []
    ensures ExactPath(Render(ns)) == Render(ns) && ExactPath(Render(ns) + [Slash]) == Render(ns)
  {
    TrimRender(ns);
    assert (Render(ns) + [Slash])[..|Render(ns)|] == Render(ns);
  }

  // ----- following the moves of a batch

  function RewriteAll(share: string, pairs: seq<(string, string)>): string {
    if pairs == [] then share
    else
      var (old_, new_) := pairs[|pairs| - 1];
      RewriteSharePath(RewriteAll(share, pairs[..|pairs| - 1]), ExactPath(old_), TrimSlashes(new_))
  }

  ghost predicate GoodMoves(moves: seq<(Path, Path)>) {
    forall i :: 0 <= i < |moves| ==> moves[i].0 != [] && moves[i].1 != [] && GoodNames(moves[i].0) && GoodNames(moves[i].1)
  }

  function Rendered(moves: seq<(Path, Path)>): seq<(string, string)> {
    seq(|moves|, i requires 0 <= i < |moves| => (Render(moves[i].0), Render(moves[i].1)))
  }

  lemma {:induction false} RewriteFollows(ns: Path, moves: seq<(Path, Path)>)
    requires GoodNames(ns) && GoodMoves(moves)
    ensures RewriteAll(Render(ns), Rendered(moves)) == Render(Follow(moves, ns)) && GoodNames(Follow(moves, ns))
  {
    if moves != [] {
      var init, last := moves[..|moves| - 1], moves[|moves| - 1];
      assert GoodMoves(init) by { forall i | 0 <= i < |init| ensures init[i] == moves[i] { } }
      assert Rendered(moves)[..|moves| - 1] == Rendered(init);
      RewriteFollows(ns, init);
      ExactRender(last.0);
      TrimRender(last.1);
      RewriteIsRebase(Follow(init, ns), last.0, last.1);
    }
  }

  /** A tree goes to a free place outside itself. */
  ghost predicate FreeMove(s: Fs, from: Path, to: Path) {
    from in s && from != [] && to !in s && !Under(from, to) && to != [] && Parent(to) in s && s[Parent(to)].Folder?
  }

  function AfterMoves(s: Fs, moves: seq<(Path, Path)>): Fs {
    if moves == [] then s else Moved(AfterMoves(s, moves[..|moves| - 1]), moves[|moves| - 1].0, moves[|moves| - 1].1)
  }

  ghost predicate FreeMoves(s: Fs, moves: seq<(Path, Path)>) {
    moves == [] ||
    var init, last := moves[..|moves| - 1], moves[|moves| - 1];
    FreeMoves(s, init) && FreeMove(AfterMoves(s, init), last.0, last.1)
  }

  /** Every file and folder is found, unchanged, at the rewritten path. */
  lemma {:induction false} NodesFollow(s: Fs, moves: seq<(Path, Path)>, p: Path)
    requires Rooted(s) && FreeMoves(s, moves) && p in s
    ensures Rooted(AfterMoves(s, moves))
    ensures Follow(moves, p) in AfterMoves(s, moves) && AfterMoves(s, moves)[Follow(moves, p)] == s[p]
  {
    if moves != [] {
      var init, last := moves[..|moves| - 1], moves[|moves| - 1];
      NodesFollow(s, init, p);
      var t, q := AfterMoves(s, init), Follow(init, p);
      MoveRooted(t, last.0, last.1);
      if Under(last.1, q) { NothingBelow(t, last.1, q); }
      MovedKeeps(t, last.0, last.1, q);
    }
  }

  // ----- whole trees

  /** The move carries the tree at `p` along, or does not reach into it. */
  predicate Apart(p: Path, from: Path, to: Path) {
    Under(from, p) || (!Under(p, from) && !Under(p, to))
  }

  lemma CarriedPath(from: Path, to: Path, p: Path, r: Rel)
    requires Under(from, p)
    ensures var q := to + p[|from|..] + r;
      Under(to, q) && from + q[|to|..] == p + r
  {
    var q := to + p[|from|..] + r;
    assert q[|to|..] == p[|from|..] + r;
    assert p == from + p[|from|..];
  }

  lemma CarriedAt(s: Fs, from: Path, to: Path, p: Path, r: Rel)
    requires !Under(from, to) && Under(from, p)
    ensures SameFrom(Moved(s, from, to), to + p[|from|..], s, p, r)
  {
    var q := to + p[|from|..] + r;
    MovedAt(s, from, to, q);
    CarriedPath(from, to, p, r);
  }

  lemma UntouchedAt(s: Fs, from: Path, to: Path, p: Path, r: Rel)
    requires IsTree(s) && to !in s && !Under(from, to) && p in s && !Under(from, p) && !Under(p, from) && !Under(p, to)
    ensures SameFrom(Moved(s, from, to), p, s, p, r)
  {
    var q := p + r;
    assert Under(p, q);
    if Under(to, p) { NothingBelow(s, to, p); }
    if Under(from, q) { Comparable(from, p, q); }
    if Under(to, q) { Comparable(to, p, q); }
    MovedAt(s, from, to, q);
  }

  lemma TreeFollowsOne(s: Fs, from: Path, to: Path, p: Path)
    requires IsTree(s) && FreeMove(s, from, to) && p in s && Apart(p, from, to)
    ensures Sub(Moved(s, from, to), Rebase(p, from, to)) == Sub(s, p)
  {
    forall r: Rel ensures SameFrom(Moved(s, from, to), Rebase(p, from, to), s, p, r) {
      if Under(from, p) { CarriedAt(s, from, to, p, r); } else { UntouchedAt(s, from, to, p, r); }
    }
    SameTree(Moved(s, from, to), Rebase(p, from, to), s, p);
  }

  /** The tree at a share is the same after a move exactly when the move does not take from it or bring into it. */
  lemma TreeFollowsExactly(s: Fs, from: Path, to: Path, p: Path)
    requires IsTree(s) && FreeMove(s, from, to) && p in s
    ensures Sub(Moved(s, from, to), Rebase(p, from, to)) == Sub(s, p) <==> Apart(p, from, to)
  {
    if Apart(p, from, to) { TreeFollowsOne(s, from, to, p); }
    else if Under(p, to) { TreeGains(s, from, to, p); }
    else { TreeLoses(s, from, to, p); }
  }

  lemma TreeGains(s: Fs, from: Path, to: Path, p: Path)
    requires FreeMove(s, from, to) && Under(p, to)
    ensures Sub(Moved(s, from, to), p) != Sub(s, p)
  {
    var r := to[|p|..];
    assert p + r == to && from + to[|to|..] == from;
    MovedAt(s, from, to, to);
    assert r in Sub(Moved(s, from, to), p) && r !in Sub(s, p);
  }

  lemma TreeLoses(s: Fs, from: Path, to: Path, p: Path)
    requires IsTree(s) && FreeMove(s, from, to) && Under(p, from)
    ensures Sub(Moved(s, from, to), p) != Sub(s, p)
  {
    var r := from[|p|..];
    assert p + r == from;
    FreeApart(s, from, to, from);
    MovedAt(s, from, to, from);
    assert r in Sub(s, p) && r !in Sub(Moved(s, from, to), p);
  }

  ghost predicate AllApart(moves: seq<(Path, Path)>, p: Path) {
    moves == [] ||
    var init, last := moves[..|moves| - 1], moves[|moves| - 1];
    AllApart(init, p) && Apart(Follow(init, p), last.0, last.1)
  }

  /** Rewriting a share through the recorded moves leads to the same tree that stood at the old path. */
  lemma {:induction false} TreesFollow(s: Fs, moves: seq<(Path, Path)>, p: Path)
    requires Rooted(s) && FreeMoves(s, moves) && p in s && AllApart(moves, p)
    ensures Sub(AfterMoves(s, moves), Follow(moves, p)) == Sub(s, p)
  {
    if moves != [] {
      var init, last := moves[..|moves| - 1], moves[|moves| - 1];
      TreesFollow(s, init, p);
      NodesFollow(s, init, p);
      TreeFollowsOne(AfterMoves(s, init), last.0, last.1, Follow(init, p));
    }
  }

  /** The main law, on strings: the rewritten share leads to what stood at the old path. */
  lemma SharesFollowMoves(s: Fs, moves: seq<(Path, Path)>, p: Path)
    requires Rooted(s) && FreeMoves(s, moves) && p in s && GoodNames(p) && GoodMoves(moves)
    ensures var p' := Names(RewriteAll(Render(p), Rendered(moves)));
      && p' in AfterMoves(s, moves) && AfterMoves(s, moves)[p'] == s[p]
      && (AllApart(moves, p) ==> Sub(AfterMoves(s, moves), p') == Sub(s, p))
  {
    RewriteFollows(p, moves);
    NamesRender(Follow(moves, p));
    NodesFollow(s, moves, p);
    if AllApart(moves, p) { TreesFollow(s, moves, p); }
  }

  // ----- the LIKE query

  const Esc: char := '\\'

  /** `strings.NewReplacer` for backslash, percent and underscore. */
  function Escape(s: string): string {
    if s == "" then ""
    else (if s[0] == Esc || s[0] == '%' || s[0] == '_' then [Esc, s[0]] else [s[0]]) + Escape(s[1..])
  }

  function SubtreePattern(path: string): string {
    if ExactPath(path) == [Slash] then "/%" else Escape(ExactPath(path)) + "/%"
  }

  function Lower(c: char): char { if 'A' <= c <= 'Z' then (c as int + 32) as char else c }

  /** SQLite's `s LIKE p ESCAPE '\'`: letters of ASCII match in either case. */
  predicate Like(p: string, s: string)
    decreases |p| + |s|
  {
    if p == "" then s == ""
    else if p[0] == Esc then |p| >= 2 && s != "" && Lower(p[1]) == Lower(s[0]) && Like(p[2..], s[1..])
    else if p[0] == '%' then Like(p[1..], s) || (s != "" && Like(p, s[1..]))
    else if p[0] == '_' then s != "" && Like(p[1..], s[1..])
    else s != "" && Lower(p[0]) == Lower(s[0]) && Like(p[1..], s[1..])
  }

  predicate SameLetters(a: string, b: string) {
    |a| == |b| && forall i :: 0 <= i < |a| ==> Lower(a[i]) == Lower(b[i])
  }

  lemma {:induction false} AnyMatches(s: string)
    ensures Like("%", s)
  {
    if s != "" { AnyMatches(s[1..]); }
  }

  lemma SameLettersCons(x: string, s: string)
    requires x != ""
    ensures (|x| <= |s| && SameLetters(x, s[..|x|])) <==>
      s != "" && Lower(x[0]) == Lower(s[0]) && |x| - 1 <= |s| - 1 && SameLetters(x[1..], s[1..][..|x| - 1])
  {
    if |x| <= |s| {
      assert s[1..][..|x| - 1] == s[..|x|][1..];
      if Lower(x[0]) == Lower(s[0]) && SameLetters(x[1..], s[1..][..|x| - 1]) {
        forall i | 0 <= i < |x| ensures Lower(x[i]) == Lower(s[..|x|][i]) {
          if i > 0 { assert x[i] == x[1..][i - 1] && s[i] == s[1..][i - 1]; }
        }
      }
    }
  }

  /** An escaped text matches itself, in any case of its letters, and nothing else, whatever wildcards it contains. */
  lemma {:induction false} EscapedMatches(x: string, tail: string, s: string)
    ensures Like(Escape(x) + tail, s) <==> |x| <= |s| && SameLetters(x, s[..|x|]) && Like(tail, s[|x|..])
    decreases |x|
  {
    if x == "" {
      assert Escape(x) + tail == tail && s[..0] == "" && s[0..] == s;
    } else {
      var p := Escape(x) + tail;
      SameLettersCons(x, s);
      if s != "" {
        EscapedMatches(x[1..], tail, s[1..]);
        if |x| <= |s| { assert s[1..][|x| - 1..] == s[|x|..]; }
      }
      if x[0] == Esc || x[0] == '%' || x[0] == '_' {
        assert p[0] == Esc && p[1] == x[0] && p[2..] == Escape(x[1..]) + tail;
      } else {
        assert p[0] == x[0] && p[1..] == Escape(x[1..]) + tail;
      }
    }
  }

  lemma SlashAny(s: string)
    ensures Like("/%", s) <==> s != "" && s[0] == Slash
  {
    if s != "" {
      AnyMatches(s[1..]);
      assert "/%"[1..] == "%";
      assert Lower(s[0]) == Slash <==> s[0] == Slash;
    }
  }

  /** The row the query fetches. */
  predicate Fetched(path: string, share: string) { share == ExactPath(path) || Like(SubtreePattern(path), share) }

  /** Below the root: the pattern takes the path's subtree and what differs from it only in the case of letters. */
  lemma PatternExact(path: string, share: string)
    requires ExactPath(path) != [Slash]
    ensures var x := ExactPath(path);
      Like(SubtreePattern(path), share) <==> |x| < |share| && SameLetters(x, share[..|x|]) && share[|x|] == Slash
  {
    var x := ExactPath(path);
    EscapedMatches(x, "/%", share);
    if |x| <= |share| { SlashAny(share[|x|..]); }
  }

  /** The query misses no row that the rewrite would change. */
  lemma PrefilterMissesNothing(path: string, newExact: string, share: string)
    requires RewriteSharePath(share, ExactPath(path), newExact) != share
    ensures Fetched(path, share)
  {
    var x := ExactPath(path);
    if share != x {
      assert x + [Slash] <= share;
      assert share[..|x|] == x && share[|x|] == Slash;
      if x == [Slash] { SlashAny(share); } else { PatternExact(path, share); }
    }
  }

  // ----- RewriteSharePathPrefix

  type Id = nat
  datatype Share = Share(name: string, path: string)

  /** filepath.Base. */
  function BaseOf(path: string): string {
    if path == "" then "."
    else if TrimSlashes(path) == "" then [Slash]
    else
      var parts := Split(Slash, TrimSlashes(path));
      parts[|parts| - 1]
  }

  lemma {:induction false} BaseIsLastName(ns: seq<string>)
    requires GoodNames(ns) && ns != []
    ensures BaseOf(Render(ns)) == ns[|ns| - 1]
  {
    TrimRender(ns);
    SplitRender(ns);
  }

  lemma RebaseMoves(ns: Path, from: Path, to: Path)
    requires Under(from, ns) && from != to
    ensures Rebase(ns, from, to) != ns
  {
    var q := Rebase(ns, from, to);
    assert |q| == |to| + |ns| - |from|;
    assert from == ns[..|from|] && to == q[..|to|];
  }

  /** A share that follows a move is named by the last name of its new path. */
  lemma RewrittenName(share: Share, ns: seq<string>, from: seq<string>, to: seq<string>)
    requires GoodNames(ns) && GoodNames(from) && GoodNames(to) && from != [] && to != [] && from != to
    requires share.path == Render(ns) && Under(from, ns)
    ensures var q := Rebase(ns, from, to);
      Rewritten(share, Render(from), Render(to)) == Share(q[|q| - 1], Render(q))
  {
    var q := Rebase(ns, from, to);
    ExactRender(from);
    TrimRender(to);
    RewriteIsRebase(ns, from, to);
    NamesRender(ns);
    NamesRender(q);
    BaseIsLastName(q);
    RebaseMoves(ns, from, to);
  }

  function Rewritten(share: Share, oldPath: string, newPath: string): Share {
    var path := RewriteSharePath(share.path, ExactPath(oldPath), TrimSlashes(newPath));
    if path == share.path then share else Share(BaseOf(path), path)
  }

  class Table {
    var rows: map<Id, Share>

    constructor (rows: map<Id, Share>)
      ensures this.rows == rows
    {
      this.rows := rows;
    }

    /** Rewrites every row that the move concerns, not only those a query happens to return, and counts them. */
    method RewriteSharePathPrefix(oldPath: string, newPath: string) returns (count: nat)
      modifies this
      ensures rows == map id | id in old(rows) :: Rewritten(old(rows)[id], oldPath, newPath)
      ensures count == |set id | id in old(rows) && Rewritten(old(rows)[id], oldPath, newPath) != old(rows)[id]|
    {
      count := 0;
      ghost var was, changed := rows, {};
      var oldExact, newExact := ExactPath(oldPath), TrimSlashes(newPath);
      var todo := set id | id in rows && Fetched(oldPath, rows[id].path);
      while todo != {}
        invariant todo <= was.Keys && HalfRewritten(was, rows, todo, oldPath, newPath, changed) && count == |changed|
        decreases todo
      {
        var id :| id in todo;
        var path := RewriteSharePath(rows[id].path, oldExact, newExact);
        if path != rows[id].path {
          rows := rows[id := Share(BaseOf(path), path)];
          changed := changed + {id};
          count := count + 1;
        }
        todo := todo - {id};
      }
      AllRewritten(was, rows, oldPath, newPath, changed);
    }
  }

  ghost predicate HalfRewritten(was: map<Id, Share>, rows: map<Id, Share>, todo: set<Id>, oldPath: string, newPath: string, changed: set<Id>) {
    && rows.Keys == was.Keys
    && (forall id :: id in was ==> rows[id] == if id in changed then Rewritten(was[id], oldPath, newPath) else was[id])
    && (forall id :: id in changed <==>
        id in was && id !in todo && Fetched(oldPath, was[id].path) && Rewritten(was[id], oldPath, newPath) != was[id])
  }

  lemma ChangedIsFetched(share: Share, oldPath: string, newPath: string)
    requires Rewritten(share, oldPath, newPath) != share
    ensures Fetched(oldPath, share.path)
  {
    PrefilterMissesNothing(oldPath, TrimSlashes(newPath), share.path);
  }

  lemma AllRewritten(was: map<Id, Share>, rows: map<Id, Share>, oldPath: string, newPath: string, changed: set<Id>)
    requires HalfRewritten(was, rows, {}, oldPath, newPath, changed)
    ensures rows == map id | id in was :: Rewritten(was[id], oldPath, newPath)
    ensures changed == set id | id in was && Rewritten(was[id], oldPath, newPath) != was[id]
  {
    forall id | id in was && Rewritten(was[id], oldPath, newPath) != was[id] ensures id in changed {
      ChangedIsFetched(was[id], oldPath, newPath);
    }
  }

  // ----- shares after a batch of file operations

  lemma {:induction false} ItoaFree(n: nat)
    ensures Free(Slash, Itoa(n))
  {
    if n >= 10 { ItoaFree(n / 10); }
  }

  lemma NumberedGood(name: string, n: nat)
    requires GoodName(name)
    ensures GoodName(Numbered(name, n))
  {
    ItoaFree(n);
    assert |Numbered(name, n)| >= 3;
  }

  lemma ItemNameGood(items: seq<Path>, to: Path, p: Path)
    requires ItemName(items, to, p) && GoodNames(to) && forall i :: 0 <= i < |items| ==> GoodNames(items[i])
    ensures p != [] && GoodNames(p)
  {
    var k :| 0 <= k < |items| && items[k] != [] && (p == DestPath(items[k], to) || IsNumbered(DestPath(items[k], to), p));
    var dst := DestPath(items[k], to);
    assert GoodName(BaseName(items[k])) && Parent(dst) == to && BaseName(dst) == BaseName(items[k]);
    if p != dst {
      var n: nat :| p == Candidate(dst, n);
      NumberedGood(BaseName(dst), n);
    }
  }

  lemma {:induction false} MovesGood(log: seq<Event>, kind: Kind, items: seq<Path>, to: Path, style: string)
    requires LogOk(log, kind, items, to, style) && GoodNames(to)
    requires forall i :: 0 <= i < |items| ==> GoodNames(items[i]) && !Under(items[i], to)
    ensures GoodMoves(Moves(log))
  {
    if log != [] {
      var init, last := log[..|log| - 1], log[|log| - 1];
      assert forall i :: 0 <= i < |init| ==> init[i] == log[i];
      MovesGood(init, kind, items, to, style);
      assert EventOk(last, kind, items, to, style);
      if last.WasMoved? {
        ItemNameGood(items, to, last.to);
        var i :| 0 <= i < |items| && items[i] == last.from;
      }
    }
  }

  /** The log of a batch that replaces nothing consists of moves. */
  lemma NoConflicts(log: seq<Event>, kind: Kind, items: seq<Path>, to: Path, style: string, p: Path)
    requires LogOk(log, kind, items, to, style) && !Replacing(style)
    ensures Clear(log, p)
  {
    assert OnlyMoves(log) by { forall i | 0 <= i < |log| ensures log[i].WasMoved? { assert EventOk(log[i], kind, items, to, style); } }
    OnlyMovesClear(log, p);
  }

  /** Whatever the batch did, a share that stood clear of replaced destinations is rewritten to where its node is now. */
  lemma ShareFollowsBatch(a: Fs, b: Fs, log: seq<Event>, style: string, p: Path)
    requires Tracked(a, b, log, style) && p in a && Clear(log, p) && (style == "skip" ==> Assured(a, log, p))
    requires GoodNames(p) && GoodMoves(Moves(log))
    ensures LeadsTo(b, RewriteAll(Render(p), Rendered(Moves(log))), a[p])
  {
    MovesTell(log, p);
    RewriteFollows(p, Moves(log));
    NamesRender(Follow(Moves(log), p));
  }

  ghost predicate LeadsTo(s: Fs, share: string, n: Node) { Names(share) in s && s[Names(share)] == n }

  /** The share's path leads to a node that no replaced destination had in it and that, with style "skip", is assured. */
  ghost predicate Followed(a: Fs, log: seq<Event>, style: string, share: string, p: Path) {
    p in a && GoodNames(p) && share == Render(p) && Clear(log, p) && (style == "skip" ==> Assured(a, log, p))
  }

  lemma RewriteAllMore(share: string, pairs: seq<(string, string)>, i: nat)
    requires i < |pairs|
    ensures RewriteAll(share, pairs[..i + 1]) == RewriteSharePath(RewriteAll(share, pairs[..i]), ExactPath(pairs[i].0), TrimSlashes(pairs[i].1))
  {
    assert pairs[..i + 1][..i] == pairs[..i];
  }

  /** The rewriting loop at the end of FileOperate. */
  method RewriteShares(t: Table, pairs: seq<(string, string)>)
    modifies t
    ensures t.rows.Keys == old(t.rows).Keys
    ensures forall id :: id in old(t.rows) ==> t.rows[id].path == RewriteAll(old(t.rows)[id].path, pairs)
  {
    for i := 0 to |pairs|
      invariant t.rows.Keys == old(t.rows).Keys
      invariant forall id :: id in old(t.rows) ==> t.rows[id].path == RewriteAll(old(t.rows)[id].path, pairs[..i])
    {
      ghost var before := t.rows;
      var n := t.RewriteSharePathPrefix(pairs[i].0, pairs[i].1);
      forall id | id in old(t.rows) ensures t.rows[id].path == RewriteAll(old(t.rows)[id].path, pairs[..i + 1]) {
        RewriteAllMore(old(t.rows)[id].path, pairs, i);
        assert t.rows[id] == Rewritten(before[id], pairs[i].0, pairs[i].1);
      }
    }
    assert pairs[..|pairs|] == pairs;
  }

  /**
    FileOperate with its share rewriting, under any failures and cancellation: every share whose path led to a node that was not
    in a replaced destination (and, with style "skip", was assured) leads to that node afterwards.
  */
  method OperateAndRewrite(d: Disk, t: Table, kind: Kind, items: seq<Path>, to: Path, style: string)
    returns (ghost log: seq<Event>)
    requires Rooted(d.nodes) && GoodNames(to) && t as object != d as object && t as object != d.env as object
    requires forall i :: 0 <= i < |items| ==> GoodNames(items[i]) && !Under(items[i], to)
    modifies d, d.env, t
    ensures LogOk(log, kind, items, to, style) && t.rows.Keys == old(t.rows).Keys
    ensures forall id, p :: id in old(t.rows) && Followed(old(d.nodes), log, style, old(t.rows)[id].path, p) ==>
      LeadsTo(d.nodes, t.rows[id].path, old(d.nodes)[p])
  {
    ghost var a, rows := d.nodes, t.rows;
    var pairs, ends, starts, cancelled;
    ghost var rounds;
    pairs, ends, starts, cancelled, log, rounds := FileOperate(d, kind, items, to, style);
    RewriteShares(t, Rendered(pairs));
    MovesGood(log, kind, items, to, style);
    forall id, p | id in rows && Followed(a, log, style, rows[id].path, p)
      ensures LeadsTo(d.nodes, t.rows[id].path, a[p])
    {
      ShareFollowsBatch(a, d.nodes, log, style, p);
    }
  }
}
