/** Splitting and joining strings at a separator, as Go's strings.Split and strings.Join do. */
module Strings {
  predicate Free(sep: char, s: string) { sep !in s }

  ghost predicate AllFree(sep: char, ss: seq<string>) { forall i :: 0 <= i < |ss| ==> Free(sep, ss[i]) }

  function Join(sep: char, ss: seq<string>): string {
    if ss == [] then [] else if |ss| == 1 then ss[0] else ss[0] + [sep] + Join(sep, ss[1..])
  }

  function Split(sep: char, s: string): (ss: seq<string>)
    ensures |ss| >= 1
  {
    if s == [] then [[]] else Before(sep, s[0], Split(sep, s[1..]))
  }

  /** The pieces with one more character in front. */
  function Before(sep: char, c: char, pieces: seq<string>): (ss: seq<string>)
    requires |pieces| >= 1
    ensures |ss| >= 1
  {
    if c == sep then [[]] + pieces else [[c] + pieces[0]] + pieces[1..]
  }

  lemma BeforeAppend(sep: char, c: char, a: seq<string>, b: seq<string>)
    requires |a| >= 1
    ensures Before(sep, c, a + b) == Before(sep, c, a) + b
  {
    assert (a + b)[1..] == a[1..] + b;
  }

  lemma {:induction false} SplitFree(sep: char, s: string)
    requires Free(sep, s)
    ensures Split(sep, s) == [s]
  {
    if s != [] {
      SplitFree(sep, s[1..]);
      assert [s[0]] + s[1..] == s;
    }
  }

  lemma {:induction false} SplitPieces(sep: char, s: string)
    ensures AllFree(sep, Split(sep, s))
  {
    if s != [] { SplitPieces(sep, s[1..]); }
  }

  lemma {:induction false} SplitAppend(sep: char, a: string, b: string)
    ensures Split(sep, a + [sep] + b) == Split(sep, a) + Split(sep, b)
  {
    var s := a + [sep] + b;
    if a == [] {
      assert s[1..] == b;
    } else {
      SplitAppend(sep, a[1..], b);
      assert s[1..] == a[1..] + [sep] + b;
      BeforeAppend(sep, a[0], Split(sep, a[1..]), Split(sep, b));
    }
  }

  lemma SplitThree(sep: char, a: string, b: string, c: string)
    requires Free(sep, a) && Free(sep, b)
    ensures Split(sep, a + [sep] + b + [sep] + c) == [a, b] + Split(sep, c)
  {
    SplitAppend(sep, a + [sep] + b, c);
    SplitAppend(sep, a, b);
    SplitFree(sep, a);
    SplitFree(sep, b);
  }

  lemma {:induction false} SplitJoin(sep: char, ss: seq<string>)
    requires AllFree(sep, ss) && ss != []
    ensures Split(sep, Join(sep, ss)) == ss
  {
    SplitFree(sep, ss[0]);
    if |ss| > 1 {
      SplitJoin(sep, ss[1..]);
      SplitAppend(sep, ss[0], Join(sep, ss[1..]));
    }
  }

  lemma {:induction false} JoinSplit(sep: char, s: string)
    ensures Join(sep, Split(sep, s)) == s
  {
    if s != [] {
      JoinSplit(sep, s[1..]);
      var rest := Split(sep, s[1..]);
      assert s == [s[0]] + s[1..];
      if s[0] == sep {
        assert Split(sep, s)[1..] == rest;
      } else {
        assert Split(sep, s)[1..] == rest[1..];
      }
    }
  }

  lemma {:induction false} JoinAppend(sep: char, a: seq<string>, b: seq<string>)
    requires a != [] && b != []
    ensures Join(sep, a + b) == Join(sep, a) + [sep] + Join(sep, b)
  {
    assert (a + b)[1..] == a[1..] + b;
    if |a| > 1 { JoinAppend(sep, a[1..], b); }
  }

  /** strings.Contains. */
  predicate Contains(s: string, t: string)
    decreases |s|
  {
    t <= s || (s != "" && Contains(s[1..], t))
  }
}
