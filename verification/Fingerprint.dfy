/** The fingerprint by which service/file.go recognises a resubmitted batch: type, destination and sorted sources, joined by NUL. */
module Fingerprint {
  import opened Strings

  const NUL: char := '\0'

  datatype Item = Item(from: string, size: nat)
  datatype Request = Request(kind: string, to: string, items: seq<Item>)

  function Froms(items: seq<Item>): seq<string> {
    seq(|items|, i requires 0 <= i < |items| => items[i].from)
  }

  /** The same batch: items in any order. */
  ghost predicate SameBatch(a: Request, b: Request) {
    a.kind == b.kind && a.to == b.to && multiset(Froms(a.items)) == multiset(Froms(b.items))
  }

  /** No string of the request contains NUL. */
  ghost predicate NulFree(r: Request) {
    Free(NUL, r.kind) && Free(NUL, r.to) && AllFree(NUL, Froms(r.items))
  }

  // ----- the order of sort.Strings

  predicate AtMost(a: string, b: string) {
    a == [] || (b != [] && (a[0] < b[0] || (a[0] == b[0] && AtMost(a[1..], b[1..]))))
  }

  lemma {:induction false} AtMostTotal(a: string, b: string)
    ensures AtMost(a, b) || AtMost(b, a)
    ensures AtMost(a, b) && AtMost(b, a) ==> a == b
  {
    if a != [] && b != [] && a[0] == b[0] {
      AtMostTotal(a[1..], b[1..]);
      assert a == [a[0]] + a[1..] && b == [b[0]] + b[1..];
    }
  }

  lemma {:induction false} AtMostTransitive(a: string, b: string, c: string)
    requires AtMost(a, b) && AtMost(b, c)
    ensures AtMost(a, c)
  {
    if a != [] && a[0] == b[0] == c[0] { AtMostTransitive(a[1..], b[1..], c[1..]); }
  }

  ghost predicate Sorted(ss: seq<string>) {
    forall i, j :: 0 <= i < j < |ss| ==> AtMost(ss[i], ss[j])
  }

  function Insert(s: string, ss: seq<string>): seq<string> {
    if ss == [] || AtMost(s, ss[0]) then [s] + ss else [ss[0]] + Insert(s, ss[1..])
  }

  function SortStrings(ss: seq<string>): seq<string> {
    if ss == [] then [] else Insert(ss[0], SortStrings(ss[1..]))
  }

  lemma {:induction false} InsertKeeps(s: string, ss: seq<string>)
    ensures multiset(Insert(s, ss)) == multiset(ss) + multiset{s}
  {
    if ss != [] {
      assert ss == [ss[0]] + ss[1..];
      if !AtMost(s, ss[0]) { InsertKeeps(s, ss[1..]); }
    }
  }

  /** Being at most every member, said without positions. */
  ghost predicate Below(s: string, ss: seq<string>) { forall x :: x in multiset(ss) ==> AtMost(s, x) }

  lemma SortedCons(s: string, ss: seq<string>)
    ensures Sorted([s] + ss) <==> Sorted(ss) && Below(s, ss)
  {
    var all := [s] + ss;
    if Sorted(all) {
      forall i, j | 0 <= i < j < |ss| ensures AtMost(ss[i], ss[j]) { assert AtMost(all[i + 1], all[j + 1]); }
      forall x | x in multiset(ss) ensures AtMost(s, x) {
        var i :| 0 <= i < |ss| && ss[i] == x;
        assert AtMost(all[0], all[i + 1]);
      }
    }
    if Sorted(ss) && Below(s, ss) {
      forall i, j | 0 <= i < j < |all| ensures AtMost(all[i], all[j]) {
        assert ss[j - 1] in multiset(ss);
        if i > 0 { assert AtMost(ss[i - 1], ss[j - 1]); }
      }
    }
  }

  lemma {:induction false} InsertSorts(s: string, ss: seq<string>)
    requires Sorted(ss)
    ensures Sorted(Insert(s, ss))
  {
    if ss == [] { return; }
    assert ss == [ss[0]] + ss[1..];
    SortedCons(ss[0], ss[1..]);
    AtMostTotal(s, ss[0]);
    if AtMost(s, ss[0]) {
      forall x | x in multiset(ss) ensures AtMost(s, x) {
        if x != ss[0] { AtMostTransitive(s, ss[0], x); }
      }
      SortedCons(s, ss);
    } else {
      InsertSorts(s, ss[1..]);
      InsertKeeps(s, ss[1..]);
      SortedCons(ss[0], Insert(s, ss[1..]));
    }
  }

  lemma {:induction false} SortIsSorted(ss: seq<string>)
    ensures Sorted(SortStrings(ss)) && multiset(SortStrings(ss)) == multiset(ss) && |SortStrings(ss)| == |ss|
  {
    if ss != [] {
      SortIsSorted(ss[1..]);
      InsertSorts(ss[0], SortStrings(ss[1..]));
      InsertKeeps(ss[0], SortStrings(ss[1..]));
      assert ss == [ss[0]] + ss[1..];
    }
    assert |multiset(SortStrings(ss))| == |multiset(ss)|;
  }

  /** Sorting has only one result, so the fingerprint does not depend on the algorithm. */
  lemma {:induction false} SortedUnique(a: seq<string>, b: seq<string>)
    requires Sorted(a) && Sorted(b) && multiset(a) == multiset(b)
    ensures a == b
  {
    assert |multiset(a)| == |multiset(b)|;
    if a == [] { return; }
    assert a == [a[0]] + a[1..] && b == [b[0]] + b[1..];
    SortedCons(a[0], a[1..]);
    SortedCons(b[0], b[1..]);
    AtMostTotal(a[0], b[0]);
    AtMostTotal(a[0], a[0]);
    assert a[0] in multiset(b) && b[0] in multiset(a);
    assert a[0] in multiset([b[0]]) + multiset(b[1..]) && b[0] in multiset([a[0]]) + multiset(a[1..]);
    assert a[0] == b[0];
    assert multiset(a[1..]) == multiset(a) - multiset{a[0]};
    assert multiset(b[1..]) == multiset(b) - multiset{a[0]};
    SortedUnique(a[1..], b[1..]);
  }

  // ----- joining

  /** The one collision that joining has on NUL-free strings: no string and one empty string. */
  ghost predicate Blank(ss: seq<string>) { ss == [] || ss == [""] }

  /** What joining can tell apart. */
  function Solid(ss: seq<string>): seq<string> { if ss == [] then [""] else ss }

  lemma SolidSame(a: seq<string>, b: seq<string>)
    ensures Solid(a) == Solid(b) <==> a == b || (Blank(a) && Blank(b))
  {
  }

  // ----- the fingerprint

  function FingerprintOf(r: Request): string {
    r.kind + [NUL] + r.to + [NUL] + Join(NUL, SortStrings(Froms(r.items)))
  }

  /** fileOperateFingerprint: fill a slice, sort it, join. */
  method FileOperateFingerprint(r: Request) returns (mark: string)
    ensures mark == FingerprintOf(r)
  {
    var froms := [];
    for i := 0 to |r.items|
      invariant froms == Froms(r.items)[..i]
    {
      froms := froms + [r.items[i].from];
    }
    assert froms == Froms(r.items);
    return r.kind + [NUL] + r.to + [NUL] + Join(NUL, SortStrings(froms));
  }

  lemma BlankCount(a: seq<string>, b: seq<string>)
    requires multiset(a) == multiset(b)
    ensures |a| == |b|
  {
    assert |multiset(a)| == |multiset(b)|;
  }

  /** Splitting at NUL gives the fields back. */
  lemma SplitFingerprint(r: Request)
    requires NulFree(r)
    ensures Split(NUL, FingerprintOf(r)) == [r.kind, r.to] + Solid(SortStrings(Froms(r.items)))
  {
    var froms := SortStrings(Froms(r.items));
    SortFree(Froms(r.items));
    SplitThree(NUL, r.kind, r.to, Join(NUL, froms));
    if froms != [] { SplitJoin(NUL, froms); }
  }

  /** Exactly when two requests without NUL have the same fingerprint. */
  lemma FingerprintExact(a: Request, b: Request)
    requires NulFree(a) && NulFree(b)
    ensures FingerprintOf(a) == FingerprintOf(b) <==>
      SameBatch(a, b) || (a.kind == b.kind && a.to == b.to && Blank(Froms(a.items)) && Blank(Froms(b.items)))
  {
    var x, y := SortStrings(Froms(a.items)), SortStrings(Froms(b.items));
    SortIsSorted(Froms(a.items));
    SortIsSorted(Froms(b.items));
    BlankSort(Froms(a.items));
    BlankSort(Froms(b.items));
    SolidSame(x, y);
    if FingerprintOf(a) == FingerprintOf(b) {
      SplitFingerprint(a);
      SplitFingerprint(b);
      var s := Split(NUL, FingerprintOf(a));
      assert a.kind == s[0] == b.kind && a.to == s[1] == b.to && Solid(x) == s[2..] == Solid(y);
    }
    if SameBatch(a, b) { SortedUnique(x, y); }
  }

  /** For non-empty batches: equal fingerprints mean the same batch, and conversely. */
  lemma FingerprintIdentifiesBatch(a: Request, b: Request)
    requires NulFree(a) && NulFree(b) && a.items != [] && b.items != []
    ensures FingerprintOf(a) == FingerprintOf(b) <==> SameBatch(a, b)
  {
    FingerprintExact(a, b);
    if Blank(Froms(a.items)) && Blank(Froms(b.items)) {
      assert Froms(a.items) == [""] == Froms(b.items);
    }
  }

  lemma SortFree(ss: seq<string>)
    requires AllFree(NUL, ss)
    ensures AllFree(NUL, SortStrings(ss))
  {
    var t := SortStrings(ss);
    SortIsSorted(ss);
    forall i | 0 <= i < |t| ensures Free(NUL, t[i]) {
      assert t[i] in multiset(t);
      var j :| 0 <= j < |ss| && ss[j] == t[i];
    }
  }

  lemma BlankSort(ss: seq<string>)
    ensures Blank(SortStrings(ss)) <==> Blank(ss)
  {
    SortIsSorted(ss);
    if |ss| == 1 { assert ss[0] in multiset(ss) && SortStrings(ss) == [ss[0]]; }
  }

  /** Without items the fingerprint cannot tell "nothing" from one empty source. */
  lemma EmptyBatchCollides(kind: string, to: string)
    ensures FingerprintOf(Request(kind, to, [])) == FingerprintOf(Request(kind, to, [Item("", 0)]))
    ensures !SameBatch(Request(kind, to, []), Request(kind, to, [Item("", 0)]))
  {
    var one := [Item("", 0)];
    assert Froms(one) == [""];
    assert SortStrings([""]) == [""];
    if SameBatch(Request(kind, to, []), Request(kind, to, one)) { BlankCount(Froms([]), Froms(one)); }
  }
}
