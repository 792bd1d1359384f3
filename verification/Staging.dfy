/**
  Per-volume staging of tus uploads (route/v2/tus_routing_store.go and tus_staging_root.go): the volume is
  written into the upload id, and chosen as the deepest mount over the target.  A character stands
  for one byte of a Go string.
*/
module Staging {
  import opened Options
  import opened Strings
  import opened Paths

  // ----- encoding/hex

  ghost predicate Bytes(s: string) { forall i :: 0 <= i < |s| ==> s[i] as int < 256 }

  function Digit(n: nat): char
    requires n < 16
  {
    if n < 10 then (48 + n) as char else (87 + n) as char
  }

  function DigitValue(c: char): Option<nat> {
    if '0' <= c <= '9' then Some(c as int - 48)
    else if 'a' <= c <= 'f' then Some(c as int - 87)
    else if 'A' <= c <= 'F' then Some(c as int - 55)
    else None
  }

  function EncodeHex(s: string): string
    requires Bytes(s)
  {
    if s == "" then "" else [Digit(s[0] as int / 16), Digit(s[0] as int % 16)] + EncodeHex(s[1..])
  }

  function DecodeHex(s: string): Option<string> {
    if s == "" then Some("")
    else if |s| == 1 then None
    else
      var hi, lo := DigitValue(s[0]), DigitValue(s[1]);
      var rest := DecodeHex(s[2..]);
      if hi.None? || lo.None? || rest.None? then None
      else if hi.value * 16 + lo.value < 256 then Some([(hi.value * 16 + lo.value) as char] + rest.value)
      else None
  }

  lemma DigitBack(n: nat)
    requires n < 16
    ensures DigitValue(Digit(n)) == Some(n) && Digit(n) != '~'
  {
  }

  lemma {:induction false} HexBack(s: string)
    requires Bytes(s)
    ensures DecodeHex(EncodeHex(s)) == Some(s) && Free('~', EncodeHex(s))
  {
    if s != "" {
      var b := s[0] as int;
      HexBack(s[1..]);
      DigitBack(b / 16);
      DigitBack(b % 16);
      assert EncodeHex(s)[2..] == EncodeHex(s[1..]);
      assert [s[0]] + s[1..] == s;
    }
  }

  // ----- upload ids

  const Sep: char := '~'

  function EncodeStagingID(root: string, sub: string): string
    requires Bytes(root)
  {
    EncodeHex(root) + [Sep] + sub
  }

  /** strings.Index of the separator, or the length if there is none. */
  function IndexOf(c: char, s: string): (i: nat)
    ensures i <= |s| && (i < |s| ==> s[i] == c) && c !in s[..i]
  {
    if s == "" || s[0] == c then 0 else
      var i := IndexOf(c, s[1..]) + 1;
      assert s[..i] == [s[0]] + s[1..][..i - 1];
      i
  }

  function DecodeStagingID(id: string): Option<(string, string)> {
    var i := IndexOf(Sep, id);
    if i == |id| then None
    else
      var root := DecodeHex(id[..i]);
      if root.None? then None else Some((root.value, id[i + 1..]))
  }

  lemma {:induction false} IndexAt(c: char, x: string, rest: string)
    requires Free(c, x)
    ensures IndexOf(c, x + [c] + rest) == |x|
  {
    if x != "" {
      IndexAt(c, x[1..], rest);
      assert (x + [c] + rest)[1..] == x[1..] + [c] + rest;
    }
  }

  /** Decoding undoes encoding for every root and every sub-id, even one that contains the separator. */
  lemma StagingIDRoundTrip(root: string, sub: string)
    requires Bytes(root)
    ensures DecodeStagingID(EncodeStagingID(root, sub)) == Some((root, sub))
  {
    HexBack(root);
    IndexAt(Sep, EncodeHex(root), sub);
    assert EncodeStagingID(root, sub)[..|EncodeHex(root)|] == EncodeHex(root);
  }

  lemma PlainIDIsLegacy(id: string)
    requires Free(Sep, id)
    ensures DecodeStagingID(id) == None
  {
  }

  // ----- which mount

  datatype Mount = Mount(point: string, fsType: string)

  predicate IsLocalVolume(fsType: string) {
    fsType in {"ext4", "btrfs", "xfs", "exfat", "vfat", "ntfs", "ntfs3"} || Contains(fsType, "mergerfs")
  }

  lemma {:induction false} ContainsMiddle(a: string, t: string, b: string)
    ensures Contains(a + t + b, t)
  {
    if a == "" {
      assert a + t + b == t + b;
    } else {
      ContainsMiddle(a[1..], t, b);
      assert (a + t + b)[1..] == a[1..] + t + b;
    }
  }

  /** mergerfs counts as local under any name that contains it, as do the seven disk filesystems. */
  lemma LocalVolumes(a: string, b: string)
    ensures IsLocalVolume(a + "mergerfs" + b)
    ensures forall t :: t in ["ext4", "btrfs", "xfs", "exfat", "vfat", "ntfs", "ntfs3"] ==> IsLocalVolume(t)
  {
    ContainsMiddle(a, "mergerfs", b);
  }

  /** Short names of other filesystems do not. */
  lemma OthersAreNotLocal(t: string)
    requires |t| < 8 && t !in ["ext4", "btrfs", "xfs", "exfat", "vfat", "ntfs", "ntfs3"]
    ensures !IsLocalVolume(t)
  {
    ShortContains(t, "mergerfs");
  }

  const LegacyRoot := "/DATA"

  predicate Covers(m: Mount, clean: string) {
    var mp := Clean(m.point);
    mp == [Slash] || clean == mp || mp + [Slash] <= clean
  }

  /** The covering mount with the longest cleaned path, the first of these in the table. */
  function Best(mounts: seq<Mount>, clean: string): Option<Mount> {
    if mounts == [] then None
    else
      var best, last := Best(mounts[..|mounts| - 1], clean), mounts[|mounts| - 1];
      if Covers(last, clean) && (best.None? || |Clean(last.point)| > |Clean(best.value.point)|) then Some(last) else best
  }

  function StagingRoot(target: string, mounts: seq<Mount>): (string, bool) {
    var best := Best(mounts, Clean(target));
    if best.Some? && IsLocalVolume(best.value.fsType) then (Clean(best.value.point), false) else (LegacyRoot, true)
  }

  method ResolveStagingRoot(target: string, mounts: seq<Mount>) returns (root: string, fellBack: bool)
    ensures (root, fellBack) == StagingRoot(target, mounts)
  {
    var clean := Clean(target);
    var bestPoint, bestType, found := "", "", false;
    for i := 0 to |mounts|
      invariant found <==> Best(mounts[..i], clean).Some?
      invariant found ==> Clean(Best(mounts[..i], clean).value.point) == bestPoint && Best(mounts[..i], clean).value.fsType == bestType
    {
      assert mounts[..i + 1][..i] == mounts[..i];
      var mp := Clean(mounts[i].point);
      var matches := mp == [Slash] || clean == mp || mp + [Slash] <= clean;
      if !matches { continue; }
      if !found || |mp| > |bestPoint| { bestPoint, bestType, found := mp, mounts[i].fsType, true; }
    }
    assert mounts[..|mounts|] == mounts;
    if !found || !IsLocalVolume(bestType) { return LegacyRoot, true; }
    return bestPoint, false;
  }

  /** No covering mount is longer. */
  ghost predicate Deepest(mounts: seq<Mount>, clean: string, m: Mount) {
    m in mounts && Covers(m, clean)
    && forall x :: x in mounts && Covers(x, clean) ==> |Clean(x.point)| <= |Clean(m.point)|
  }

  lemma {:induction false} BestIsDeepest(mounts: seq<Mount>, clean: string)
    ensures Best(mounts, clean).Some? ==> Deepest(mounts, clean, Best(mounts, clean).value)
    ensures Best(mounts, clean).None? ==> forall x :: x in mounts ==> !Covers(x, clean)
  {
    if mounts != [] {
      var init := mounts[..|mounts| - 1];
      BestIsDeepest(init, clean);
      assert mounts == init + [mounts[|mounts| - 1]];
    }
  }

  /** For absolute paths covering is a matter of names: the mount's names begin the target's. */
  lemma CoversNames(m: Mount, target: string)
    requires Absolute(m.point) && Absolute(target)
    ensures Covers(m, Clean(target)) <==> Names(m.point) <= Names(target)
  {
    CleanAbsolute(m.point);
    CleanAbsolute(target);
    NamesGood(m.point);
    NamesGood(target);
    RenderRoot(Names(m.point));
    PrefixMeansBelow(Names(target), Names(m.point));
  }

  lemma {:induction false} LongerNames(a: seq<string>, b: seq<string>)
    requires a <= b && GoodNames(b)
    ensures |a| < |b| <==> |Render(a)| < |Render(b)|
  {
    if |a| < |b| {
      if a == [] { JoinLast(b); } else { BelowHasPrefix(b, a); }
    } else {
      assert a == b;
    }
  }

  /** No mount over the target has more names. */
  ghost predicate DeepestOver(mounts: seq<Mount>, target: string, m: Mount) {
    m in mounts && Names(m.point) <= Names(target)
    && forall x :: x in mounts && Names(x.point) <= Names(target) ==> |Names(x.point)| <= |Names(m.point)|
  }

  /** The chosen mount is the one deepest over the target. */
  lemma BestIsDeepestOver(mounts: seq<Mount>, target: string)
    requires Absolute(target) && forall m :: m in mounts ==> Absolute(m.point)
    ensures Best(mounts, Clean(target)).Some? <==> exists m :: m in mounts && Names(m.point) <= Names(target)
    ensures Best(mounts, Clean(target)).Some? ==> DeepestOver(mounts, target, Best(mounts, Clean(target)).value)
  {
    var best := Best(mounts, Clean(target));
    BestIsDeepest(mounts, Clean(target));
    forall m | m in mounts ensures Covers(m, Clean(target)) <==> Names(m.point) <= Names(target) { CoversNames(m, target); }
    if best.Some? {
      forall m | m in mounts && Names(m.point) <= Names(target) ensures |Names(m.point)| <= |Names(best.value.point)| {
        CompareCovering(best.value.point, m.point, target);
      }
    }
  }

  /** A root that is not the fallback is a local volume deepest over the target; the fallback is taken only without one. */
  lemma RootIsDeepestVolume(mounts: seq<Mount>, target: string)
    requires Absolute(target) && forall m :: m in mounts ==> Absolute(m.point)
    ensures var (root, fellBack) := StagingRoot(target, mounts);
      if fellBack then
        root == "/DATA" && ((forall m :: m in mounts ==> !(Names(m.point) <= Names(target)))
                            || exists m :: DeepestOver(mounts, target, m) && !IsLocalVolume(m.fsType))
      else exists m :: DeepestOver(mounts, target, m) && IsLocalVolume(m.fsType) && root == Clean(m.point)
  {
    BestIsDeepestOver(mounts, target);
  }

  /** Of two mounts over the target the one with more names has the longer string. */
  lemma CompareCovering(x: string, y: string, target: string)
    requires Absolute(x) && Absolute(y) && Names(x) <= Names(target) && Names(y) <= Names(target)
    ensures |Names(x)| < |Names(y)| <==> |Clean(x)| < |Clean(y)|
  {
    CleanAbsolute(x);
    CleanAbsolute(y);
    NamesGood(x);
    NamesGood(y);
    if |Names(x)| <= |Names(y)| {
      assert Names(x) == Names(target)[..|Names(x)|] && Names(y) == Names(target)[..|Names(y)|];
      LongerNames(Names(x), Names(y));
    } else {
      assert Names(x) == Names(target)[..|Names(x)|] && Names(y) == Names(target)[..|Names(y)|];
      LongerNames(Names(y), Names(x));
    }
  }

  ghost predicate DistinctPoints(mounts: seq<Mount>) {
    forall x, y :: x in mounts && y in mounts && Clean(x.point) == Clean(y.point) ==> x == y
  }

  ghost predicate SameEntries(a: seq<Mount>, b: seq<Mount>) { forall m :: m in a <==> m in b }

  /** With distinct mount points the order of the table does not matter. */
  lemma OrderDoesNotMatter(target: string, a: seq<Mount>, b: seq<Mount>)
    requires Absolute(target) && SameEntries(a, b) && DistinctPoints(a) && forall m :: m in a ==> Absolute(m.point)
    ensures StagingRoot(target, a) == StagingRoot(target, b)
  {
    forall x, y | DeepestOver(a, target, x) && DeepestOver(a, target, y) ensures x == y { DeepestIsUnique(a, target, x, y); }
    OrderMattersExactly(target, a);
  }

  /** All mounts deepest over the target agree on whether they are local volumes. */
  ghost predicate Agree(mounts: seq<Mount>, target: string) {
    forall x, y :: DeepestOver(mounts, target, x) && DeepestOver(mounts, target, y) ==> IsLocalVolume(x.fsType) == IsLocalVolume(y.fsType)
  }

  /** Every table with the same entries, in any order and multiplicity, gives the same root. */
  ghost predicate OrderFree(target: string, a: seq<Mount>) {
    forall b :: SameEntries(a, b) ==> StagingRoot(target, b) == StagingRoot(target, a)
  }

  /** The order of the table is without effect exactly when the deepest mounts agree. */
  lemma OrderMattersExactly(target: string, a: seq<Mount>)
    requires Absolute(target) && forall m :: m in a ==> Absolute(m.point)
    ensures OrderFree(target, a) <==> Agree(a, target)
  {
    if Agree(a, target) { AgreeingIsFree(target, a); } else { DisagreeingIsNot(target, a); }
  }

  lemma AgreeingIsFree(target: string, a: seq<Mount>)
    requires Absolute(target) && Agree(a, target) && forall m :: m in a ==> Absolute(m.point)
    ensures OrderFree(target, a)
  {
    forall b | SameEntries(a, b) ensures StagingRoot(target, b) == StagingRoot(target, a) { AgreeingOrders(target, a, b); }
  }

  lemma DisagreeingIsNot(target: string, a: seq<Mount>)
    requires Absolute(target) && !Agree(a, target) && forall m :: m in a ==> Absolute(m.point)
    ensures !OrderFree(target, a)
  {
    var x, y :| DeepestOver(a, target, x) && DeepestOver(a, target, y) && IsLocalVolume(x.fsType) != IsLocalVolume(y.fsType);
    DisagreeingOrders(target, a, x, y);
    if OrderFree(target, a) { BothSame(target, a, [x] + a, [y] + a); }
  }

  lemma BothSame(target: string, a: seq<Mount>, b: seq<Mount>, c: seq<Mount>)
    requires OrderFree(target, a) && SameEntries(a, b) && SameEntries(a, c)
    ensures StagingRoot(target, b) == StagingRoot(target, c)
  {
  }

  lemma DisagreeingOrders(target: string, a: seq<Mount>, x: Mount, y: Mount)
    requires Absolute(target) && forall m :: m in a ==> Absolute(m.point)
    requires DeepestOver(a, target, x) && DeepestOver(a, target, y) && IsLocalVolume(x.fsType) != IsLocalVolume(y.fsType)
    ensures SameEntries(a, [x] + a) && SameEntries(a, [y] + a)
    ensures StagingRoot(target, [x] + a) != StagingRoot(target, [y] + a)
  {
    FirstDeepestWins(target, a, x);
    FirstDeepestWins(target, a, y);
  }

  lemma AgreeingOrders(target: string, a: seq<Mount>, b: seq<Mount>)
    requires Absolute(target) && SameEntries(a, b) && Agree(a, target) && forall m :: m in a ==> Absolute(m.point)
    ensures StagingRoot(target, b) == StagingRoot(target, a)
  {
    BestIsDeepestOver(a, target);
    BestIsDeepestOver(b, target);
    var x, y := Best(a, Clean(target)), Best(b, Clean(target));
    if x.Some? && y.Some? {
      assert DeepestOver(a, target, y.value);
      SamePoint(a, target, x.value, y.value);
    }
  }

  /** Two deepest mounts are on one point. */
  lemma SamePoint(mounts: seq<Mount>, target: string, x: Mount, y: Mount)
    requires Absolute(x.point) && Absolute(y.point) && DeepestOver(mounts, target, x) && DeepestOver(mounts, target, y)
    ensures Clean(x.point) == Clean(y.point)
  {
    var n, m := Names(x.point), Names(y.point);
    assert n == Names(target)[..|n|] && m == Names(target)[..|m|];
    CleanEqual(x.point, y.point);
  }

  /** A deepest mount listed first is the one chosen. */
  lemma FirstDeepestWins(target: string, a: seq<Mount>, x: Mount)
    requires Absolute(target) && DeepestOver(a, target, x) && forall m :: m in a ==> Absolute(m.point)
    ensures Best([x] + a, Clean(target)) == Some(x)
  {
    CoversNames(x, target);
    forall m | m in a && Covers(m, Clean(target)) ensures |Clean(m.point)| <= |Clean(x.point)| {
      CoversNames(m, target);
      CompareCovering(x.point, m.point, target);
    }
    FirstWins(a, Clean(target), x);
  }

  lemma BestOnce(mounts: seq<Mount>, clean: string, x: Mount)
    requires mounts != [] && Best(mounts[..|mounts| - 1], clean) == Some(x)
    requires Covers(mounts[|mounts| - 1], clean) ==> |Clean(mounts[|mounts| - 1].point)| <= |Clean(x.point)|
    ensures Best(mounts, clean) == Some(x)
  {
  }

  lemma {:induction false} FirstWins(a: seq<Mount>, clean: string, x: Mount)
    requires Covers(x, clean) && forall m :: m in a && Covers(m, clean) ==> |Clean(m.point)| <= |Clean(x.point)|
    ensures Best([x] + a, clean) == Some(x)
  {
    var all := [x] + a;
    if a == [] {
      assert all[..0] == [] && Best(all[..0], clean).None?;
    } else {
      var last := a[|a| - 1];
      FirstWins(a[..|a| - 1], clean, x);
      assert all[..|all| - 1] == [x] + a[..|a| - 1] && all[|all| - 1] == last;
      assert last in a;
      BestOnce(all, clean, x);
    }
  }

  lemma DeepestIsUnique(mounts: seq<Mount>, target: string, x: Mount, y: Mount)
    requires DistinctPoints(mounts) && Absolute(x.point) && Absolute(y.point)
    requires DeepestOver(mounts, target, x) && DeepestOver(mounts, target, y)
    ensures x == y
  {
    SamePoint(mounts, target, x, y);
  }

  /** Two mounts on one point: the first in the table wins, so there the order does matter. */
  lemma OverMountsDependOnOrder(target: string)
    requires Absolute(target)
    ensures StagingRoot(target, [Mount("/", "ext4"), Mount("/", "overlay")]) == ("/", false)
    ensures StagingRoot(target, [Mount("/", "overlay"), Mount("/", "ext4")]) == ("/DATA", true)
  {
    var local, other := Mount("/", "ext4"), Mount("/", "overlay");
    assert Clean("/") == "/" by { NamesRender([]); CleanAbsolute("/"); }
    FirstOfTwo(local, other, Clean(target));
    FirstOfTwo(other, local, Clean(target));
    assert !Contains("overlay", "mergerfs") by { ShortContains("overlay", "mergerfs"); }
  }

  lemma FirstOfTwo(x: Mount, y: Mount, clean: string)
    requires Clean(x.point) == [Slash] == Clean(y.point)
    ensures Best([x, y], clean) == Some(x)
  {
    assert [x, y][..1] == [x] && [x][..0] == [];
    assert Best([x], clean) == Some(x);
  }

  lemma {:induction false} ShortContains(s: string, t: string)
    requires |s| < |t|
    ensures !Contains(s, t)
  {
    if s != "" { ShortContains(s[1..], t); }
  }

  // ----- the store

  function StagingDirForRoot(root: string): string { JoinPath(root, StagingTail) }

  function DirForRoot(legacyDir: string, root: string): string {
    if root == LegacyRoot then legacyDir else StagingDirForRoot(root)
  }

  /** The volume an id names. */
  function RootOfID(id: string): string {
    var d := DecodeStagingID(id);
    if d.None? then LegacyRoot else d.value.0
  }

  datatype Upload = Upload(dir: string, id: string)

  class RoutingStore {
    var stores: map<string, string>
    const legacyDir: string

    /** A store in the cache lies in its root's directory. */
    ghost predicate Valid()
      reads this
    {
      forall root :: root in stores ==> stores[root] == DirForRoot(legacyDir, root)
    }

    constructor (legacyDir: string)
      ensures Valid() && this.legacyDir == legacyDir
    {
      this.stores, this.legacyDir := map[], legacyDir;
    }

    /** The cached store or a new one; making the directory may fail. */
    method StoreForRoot(root: string, mkdirFails: bool) returns (dir: Option<string>)
      requires Valid()
      modifies this
      ensures Valid()
      ensures dir.Some? ==> dir.value == DirForRoot(legacyDir, root)
      ensures dir.None? <==> mkdirFails && root !in old(stores)
      ensures stores.Keys == old(stores).Keys + if dir.Some? then {root} else {}
      ensures dir.Some? && root == LegacyRoot ==> dir.value == legacyDir
    {
      if root in stores { return Some(stores[root]); }
      if mkdirFails { return None; }
      stores := stores[root := DirForRoot(legacyDir, root)];
      return Some(stores[root]);
    }

    /**
      Creates an upload.  `generated` is the id that is generated when none is preset: the sub-id of a volume, or
      the plain id of the legacy store.  An upload without a preset id goes where its id leads.
    */
    method NewUpload(target: string, mounts: seq<Mount>, preset: string, generated: string, mkdirFails: bool)
      returns (upload: Option<Upload>)
      requires Valid() && Free(Sep, generated) && forall m :: m in mounts ==> Bytes(Clean(m.point))
      modifies this
      ensures Valid()
      ensures upload.Some? ==> upload.value.dir == DirForRoot(legacyDir, StagingRoot(target, mounts).0)
      ensures upload.Some? && preset == "" ==>
        RootOfID(upload.value.id) == StagingRoot(target, mounts).0
        && upload.value.dir == DirForRoot(legacyDir, RootOfID(upload.value.id))
      ensures upload.Some? && preset == "" ==> upload.value.id == generated || DecodeStagingID(upload.value.id) == Some((StagingRoot(target, mounts).0, generated))
      ensures upload.Some? && StagingRoot(target, mounts).1 ==> upload.value.dir == legacyDir
      ensures upload.Some? && preset != "" ==> upload.value.id == preset
      ensures upload.None? ==> mkdirFails
    {
      var root, fellBack := ResolveStagingRoot(target, mounts);
      var dir := StoreForRoot(root, mkdirFails);
      if dir.None? { return None; }
      RootBytes(target, mounts);
      if preset == "" && root != LegacyRoot {
        StagingIDRoundTrip(root, generated);
        return Some(Upload(dir.value, EncodeStagingID(root, generated)));
      }
      return Some(Upload(dir.value, if preset == "" then generated else preset));
    }

    /** Finds an upload by its id alone, whatever is mounted now. */
    method GetUpload(id: string, mkdirFails: bool) returns (dir: Option<string>)
      requires Valid()
      modifies this
      ensures Valid()
      ensures dir.Some? ==> dir.value == DirForRoot(legacyDir, RootOfID(id))
      ensures dir.Some? && DecodeStagingID(id).None? ==> dir.value == legacyDir
      ensures dir.None? ==> mkdirFails
    {
      var d := DecodeStagingID(id);
      var root := if d.None? then LegacyRoot else d.value.0;
      dir := StoreForRoot(root, mkdirFails);
    }
  }

  lemma RootBytes(target: string, mounts: seq<Mount>)
    requires forall m :: m in mounts ==> Bytes(Clean(m.point))
    ensures Bytes(StagingRoot(target, mounts).0)
  {
    BestIsDeepest(mounts, Clean(target));
  }

  /** Create, restart with another mount table, look up: the upload is found in the directory it was created in. */
  method CreateThenFind(legacyDir: string, target: string, before: seq<Mount>, generated: string)
    returns (created: Option<Upload>, found: Option<string>)
    requires Free(Sep, generated) && forall m :: m in before ==> Bytes(Clean(m.point))
    ensures created.Some? && found == Some(created.value.dir)
  {
    var first := new RoutingStore(legacyDir);
    created := first.NewUpload(target, before, "", generated, false);
    var second := new RoutingStore(legacyDir);
    found := second.GetUpload(created.value.id, false);
  }

  // ----- preset ids

  ghost predicate Segments(ns: seq<string>) { forall i :: 0 <= i < |ns| ==> ns[i] != "" && Free(Slash, ns[i]) }

  lemma {:induction false} ResolveRelative(stack: seq<string>, parts: seq<string>)
    requires Segments(stack) && AllFree(Slash, parts)
    ensures Segments(Resolve(stack, false, parts))
    decreases |parts|
  {
    if parts != [] {
      var n := parts[0];
      ResolveRelative(
        if n == "" || n == "." then stack
        else if n != ".." then stack + [n]
        else if stack != [] && stack[|stack| - 1] != ".." then stack[..|stack| - 1]
        else stack + [n], parts[1..]);
    }
  }

  lemma CleanRelativeStays(s: string)
    requires !Absolute(s)
    ensures !Absolute(Clean(s))
  {
    SplitPieces(Slash, s);
    var ns := Resolve([], false, Split(Slash, s));
    ResolveRelative([], Split(Slash, s));
    if ns != [] {
      assert ns[0] != "" && Free(Slash, ns[0]);
      assert Join(Slash, ns)[0] == ns[0][0];
    }
  }

  const SystemDir := ".system_data"
  const TusDir := "file-tus-staging"
  const StagingTail := SystemDir + [Slash] + TusDir

  lemma SplitTwo(a: string, b: string)
    requires Free(Slash, a) && Free(Slash, b)
    ensures Split(Slash, a + [Slash] + b) == [a, b]
  {
    SplitAppend(Slash, a, b);
    SplitFree(Slash, a);
    SplitFree(Slash, b);
  }

  lemma TailNames()
    ensures Split(Slash, StagingTail) == [SystemDir, TusDir] && CleanRelative(StagingTail)
  {
    assert GoodName(SystemDir) && GoodName(TusDir);
    SplitTwo(SystemDir, TusDir);
  }

  lemma StagingRelative(root: string)
    requires !Absolute(root)
    ensures !Absolute(StagingDirForRoot(root))
  {
    if root == "" { CleanRelativeStays(StagingTail); } else { CleanRelativeStays(root + [Slash] + StagingTail); }
  }

  lemma StagingNames(root: string)
    requires Absolute(root)
    ensures Absolute(StagingDirForRoot(root)) && StagingDirForRoot(root) == Render(Names(StagingDirForRoot(root)))
    ensures Names(StagingDirForRoot(root)) == Names(root) + [SystemDir, TusDir]
  {
    TailNames();
    JoinNames(root, StagingTail);
  }

  /** Two roots share a staging directory exactly when they lead to the same place. */
  lemma StagingDirInjective(a: string, b: string)
    requires Absolute(a)
    ensures StagingDirForRoot(a) == StagingDirForRoot(b) <==> Absolute(b) && Names(a) == Names(b)
  {
    StagingNames(a);
    if !Absolute(b) { StagingRelative(b); return; }
    StagingNames(b);
    if StagingDirForRoot(a) == StagingDirForRoot(b) {
      var ns := Names(StagingDirForRoot(a));
      assert Names(a) == ns[..|ns| - 2] && Names(b) == ns[..|ns| - 2];
    }
  }

  /**
    An upload with a preset id is found again exactly when the id names the volume chosen for it: with the
    production legacy directory, a lookup leads to the directory of creation if and only if the root read off the id
    is the same absolute path.
  */
  lemma PresetRoutesBack(target: string, mounts: seq<Mount>, preset: string, legacyDir: string)
    requires legacyDir == StagingDirForRoot(LegacyRoot) && Absolute(StagingRoot(target, mounts).0)
    ensures DirForRoot(legacyDir, RootOfID(preset)) == DirForRoot(legacyDir, StagingRoot(target, mounts).0) <==>
      Absolute(RootOfID(preset)) && Names(RootOfID(preset)) == Names(StagingRoot(target, mounts).0)
  {
    StagingDirInjective(StagingRoot(target, mounts).0, RootOfID(preset));
  }

  /** A preset id without the separator is looked up in the legacy directory, so on any other volume it is not found again. */
  lemma PlainPresetMisroutes(ns: seq<string>, preset: string, legacyDir: string)
    requires GoodNames(ns) && ns != Names(LegacyRoot) && Free(Sep, preset) && legacyDir == StagingDirForRoot(LegacyRoot)
    ensures var mounts := [Mount(Render(ns), "ext4")];
      DirForRoot(legacyDir, RootOfID(preset)) != DirForRoot(legacyDir, StagingRoot(Render(ns), mounts).0)
  {
    var mounts := [Mount(Render(ns), "ext4")];
    NamesRender(ns);
    CleanAbsolute(Render(ns));
    assert Best(mounts, Render(ns)) == Some(mounts[0]) by { assert mounts[..0] == []; }
    assert StagingRoot(Render(ns), mounts) == (Render(ns), false);
    PresetRoutesBack(Render(ns), mounts, preset, legacyDir);
  }
}
