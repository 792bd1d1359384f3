/** Slash-separated paths: Go's filepath.Clean and filepath.Join, and absolute paths as lists of names. */
module Paths {
  import opened Strings

  const Slash: char := '/'

  /** A name that can stand in a cleaned path. */
  predicate GoodName(n: string) { n != "" && n != "." && n != ".." && Free(Slash, n) }

  ghost predicate GoodNames(ns: seq<string>) { forall i :: 0 <= i < |ns| ==> GoodName(ns[i]) }

  predicate Absolute(s: string) { s != "" && s[0] == Slash }

  /** The names left after resolving the empty, "." and ".." components that follow `stack`. */
  function Resolve(stack: seq<string>, rooted: bool, parts: seq<string>): seq<string>
    decreases |parts|
  {
    if parts == [] then stack
    else
      var n := parts[0];
      var next :=
        if n == "" || n == "." then stack
        else if n != ".." then stack + [n]
        else if stack != [] && stack[|stack| - 1] != ".." then stack[..|stack| - 1]
        else if rooted then stack
        else stack + [n];
      Resolve(next, rooted, parts[1..])
  }

  /** The absolute path with these names. */
  function Render(ns: seq<string>): string { [Slash] + Join(Slash, ns) }

  /** filepath.Clean. */
  function Clean(s: string): string {
    var ns := Resolve([], Absolute(s), Split(Slash, s));
    if Absolute(s) then Render(ns) else if ns == [] then "." else Join(Slash, ns)
  }

  /** filepath.Join of two elements: empty ones are ignored. */
  function JoinPath(a: string, b: string): string {
    if a == "" && b == "" then "" else if a == "" then Clean(b) else if b == "" then Clean(a) else Clean(a + [Slash] + b)
  }

  /** Where an absolute path leads. */
  function Names(s: string): seq<string> { Resolve([], true, Split(Slash, s)) }

  // ----- resolving

  lemma {:induction false} ResolveGood(stack: seq<string>, parts: seq<string>)
    requires GoodNames(stack) && AllFree(Slash, parts)
    ensures GoodNames(Resolve(stack, true, parts))
    decreases |parts|
  {
    if parts != [] {
      var n := parts[0];
      ResolveGood(
        if n == "" || n == "." then stack
        else if n != ".." then stack + [n]
        else if stack != [] && stack[|stack| - 1] != ".." then stack[..|stack| - 1]
        else stack, parts[1..]);
    }
  }

  lemma {:induction false} ResolveAll(stack: seq<string>, rooted: bool, ns: seq<string>)
    requires GoodNames(ns)
    ensures Resolve(stack, rooted, ns) == stack + ns
    decreases |ns|
  {
    if ns != [] {
      ResolveAll(stack + [ns[0]], rooted, ns[1..]);
      assert stack + [ns[0]] + ns[1..] == stack + ns;
    }
  }

  lemma {:induction false} ResolveAppend(stack: seq<string>, rooted: bool, a: seq<string>, b: seq<string>)
    ensures Resolve(stack, rooted, a + b) == Resolve(Resolve(stack, rooted, a), rooted, b)
    decreases |a|
  {
    if a == [] {
      assert a + b == b;
    } else {
      var n := a[0];
      assert (a + b)[1..] == a[1..] + b;
      ResolveAppend(
        if n == "" || n == "." then stack
        else if n != ".." then stack + [n]
        else if stack != [] && stack[|stack| - 1] != ".." then stack[..|stack| - 1]
        else if rooted then stack
        else stack + [n], rooted, a[1..], b);
    }
  }

  lemma NamesGood(s: string)
    ensures GoodNames(Names(s))
  {
    SplitPieces(Slash, s);
    ResolveGood([], Split(Slash, s));
  }

  // ----- names and strings

  lemma SplitRender(ns: seq<string>)
    requires GoodNames(ns)
    ensures Split(Slash, Render(ns)) == [""] + (if ns == [] then [""] else ns)
  {
    SplitAppend(Slash, "", Join(Slash, ns));
    assert Render(ns) == "" + [Slash] + Join(Slash, ns);
    if ns != [] { SplitJoin(Slash, ns); }
  }

  /** Rendering and resolving are inverse on good names. */
  lemma NamesRender(ns: seq<string>)
    requires GoodNames(ns)
    ensures Names(Render(ns)) == ns && Absolute(Render(ns))
  {
    SplitRender(ns);
    ResolveAppend([], true, [""], if ns == [] then [""] else ns);
    assert Resolve([], true, [""]) == [];
    if ns != [] { ResolveAll([], true, ns); }
  }

  lemma CleanAbsolute(s: string)
    requires Absolute(s)
    ensures Clean(s) == Render(Names(s)) && Absolute(Clean(s)) && Names(Clean(s)) == Names(s) && Clean(Clean(s)) == Clean(s)
  {
    NamesGood(s);
    NamesRender(Names(s));
  }

  /** Equal names, equal cleaned strings. */
  lemma CleanEqual(s: string, t: string)
    requires Absolute(s) && Absolute(t)
    ensures Clean(s) == Clean(t) <==> Names(s) == Names(t)
  {
    CleanAbsolute(s);
    CleanAbsolute(t);
  }

  lemma BelowHasPrefix(a: seq<string>, b: seq<string>)
    requires b != [] && b <= a && b != a
    ensures Render(a) == Render(b) + [Slash] + Join(Slash, a[|b|..])
  {
    assert a == b + a[|b|..];
    JoinAppend(Slash, b, a[|b|..]);
  }

  lemma PrefixIsBelow(a: seq<string>, b: seq<string>, rest: string)
    requires GoodNames(a) && GoodNames(b) && Render(a) == Render(b) + [Slash] + rest
    ensures b != [] && b <= a && b != a
  {
    SplitRender(a);
    SplitRender(b);
    SplitAppend(Slash, Render(b), rest);
    var left := [""] + if a == [] then [""] else a;
    assert left == [""] + (if b == [] then [""] else b) + Split(Slash, rest);
    assert |left| >= 3;
    assert a == left[1..];
    assert b != [] by { assert a[0] == left[1]; }
    assert b == left[1..1 + |b|];
  }

  /** A slash at the end of the prefix makes the string test a test on names; except that nothing is found below the root. */
  lemma PrefixMeansBelow(a: seq<string>, b: seq<string>)
    requires GoodNames(a) && GoodNames(b)
    ensures Render(b) + [Slash] <= Render(a) <==> b != [] && b <= a && b != a
    ensures b != [] && b <= a && b != a ==> Render(a) == Render(b) + [Slash] + Join(Slash, a[|b|..])
  {
    if b != [] && b <= a && b != a { BelowHasPrefix(a, b); }
    if Render(b) + [Slash] <= Render(a) { PrefixIsBelow(a, b, Render(a)[|Render(b)| + 1..]); }
  }

  // ----- relative paths

  /** A relative path as filepath.Clean would leave it. */
  ghost predicate CleanRelative(r: string) { GoodNames(Split(Slash, r)) }

  lemma JoinNames(t: string, r: string)
    requires Absolute(t)
    ensures Absolute(JoinPath(t, r)) && Names(JoinPath(t, r)) == Resolve(Names(t), true, Split(Slash, r))
    ensures JoinPath(t, r) == Render(Names(JoinPath(t, r)))
    ensures CleanRelative(r) ==> Names(JoinPath(t, r)) == Names(t) + Split(Slash, r)
  {
    if r == "" {
      CleanAbsolute(t);
    } else {
      CleanAbsolute(t + [Slash] + r);
      SplitAppend(Slash, t, r);
      ResolveAppend([], true, Split(Slash, t), Split(Slash, r));
    }
    if CleanRelative(r) { ResolveAll(Names(t), true, Split(Slash, r)); }
  }

  /** Joining the names of a clean relative path gives it back. */
  lemma JoinClean(ns: seq<string>)
    requires GoodNames(ns) && ns != []
    ensures CleanRelative(Join(Slash, ns)) && Split(Slash, Join(Slash, ns)) == ns
  {
    SplitJoin(Slash, ns);
  }

  // ----- slashes at the end

  /** `strings.TrimRight(s, "/")`. */
  function TrimSlashes(s: string): string {
    if s != "" && s[|s| - 1] == Slash then TrimSlashes(s[..|s| - 1]) else s
  }

  lemma {:induction false} JoinLast(ns: seq<string>)
    requires GoodNames(ns) && ns != []
    ensures Join(Slash, ns) != "" && Join(Slash, ns)[|Join(Slash, ns)| - 1] != Slash
  {
    if |ns| > 1 { JoinLast(ns[1..]); }
  }

  lemma TrimRender(ns: seq<string>)
    requires GoodNames(ns)
    ensures TrimSlashes(Render(ns)) == if ns == [] then "" else Render(ns)
  {
    if ns != [] { JoinLast(ns); } else { assert Render(ns)[..0] == ""; }
  }

  lemma RenderRoot(ns: seq<string>)
    requires GoodNames(ns)
    ensures Render(ns) == [Slash] <==> ns == []
  {
    if ns != [] { JoinLast(ns); }
  }
}
