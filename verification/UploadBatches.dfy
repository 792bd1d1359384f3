/**
  Upload batches (service/upload/batch_store.go, batch.go and the create handler of
  route/v2/upload_batches.go).  A batch row carries its own item rows, since both are always
  created and deleted in one transaction.
*/
module UploadBatches {
  import opened Strings
  import opened Paths

  type Id = string

  datatype Status = Active | Interrupted | Completed | Abandoned
  datatype Source = NoSource | Timeout | Signal

  datatype Batch = Batch(
    owner: string,
    target: string,
    status: Status,
    source: Source,
    total: int,
    done: int,
    created: int,
    lastProgress: int,
    interruptedAt: int,
    cleaned: bool,
    items: map<string, bool>)

  type Rows = map<Id, Batch>

  predicate Open(b: Batch) { b.status.Active? || b.status.Interrupted? }

  predicate Terminal(b: Batch) { b.status.Completed? || b.status.Abandoned? }

  function DoneItems(items: map<string, bool>): set<string> { set r | r in items && items[r] }

  function MissingItems(b: Batch): set<string> { set r | r in b.items && !b.items[r] }

  /** The counts are those of the items; a completed batch misses nothing; an open one misses something. */
  ghost predicate BatchOk(b: Batch) {
    && b.total == |b.items| && b.done == |DoneItems(b.items)|
    && (b.status.Completed? ==> MissingItems(b) == {})
    && (Open(b) ==> b.done < b.total)
  }

  // ----- one transaction on one batch

  function CompleteIfDone(b: Batch): Batch {
    if b.done >= b.total && Open(b) then b.(status := Completed) else b
  }

  /** MarkItemDone: count an unfinished item once, then complete the batch or revive it from a timeout. */
  function Marked(b: Batch, rel: string, now: int): Batch {
    if rel !in b.items || b.items[rel] then b
    else
      var b' := CompleteIfDone(b.(items := b.items[rel := true], done := b.done + 1, lastProgress := now));
      if b'.status.Interrupted? && b'.done < b'.total && b'.source != Signal then b'.(status := Active, source := NoSource)
      else b'
  }

  function Touched(b: Batch, now: int): Batch {
    if b.status.Active? || (b.status.Interrupted? && b.source != Signal)
    then b.(status := Active, lastProgress := now, source := NoSource) else b
  }

  function InterruptedBy(b: Batch, now: int, source: Source): Batch {
    if b.status.Active? then b.(status := Interrupted, interruptedAt := now, cleaned := false, source := source) else b
  }

  /** One transaction of RemoveItems. */
  function Trimmed(b: Batch, paths: set<string>): Batch {
    Dropped(b, paths * MissingItems(b))
  }

  function Dropped(b: Batch, gone: set<string>): Batch {
    if gone == {} then b else CompleteIfDone(b.(items := b.items - gone, total := b.total - |gone|))
  }

  // ----- what the transactions mean

  /** Everything but items, counts, status, source and the time of progress is as it was. */
  predicate SameHeader(b: Batch, b': Batch) {
    && b'.owner == b.owner && b'.target == b.target && b'.created == b.created
    && b'.interruptedAt == b.interruptedAt && b'.cleaned == b.cleaned
  }

  /**
    A missing item is done now and counted.  An open batch that misses nothing any more is completed; one that was
    interrupted by anything but the signal and still misses something is active again; else the status stays.
  */
  ghost predicate MarkMeans(b: Batch, b': Batch, rel: string, now: int) {
    if rel in MissingItems(b) then
      && b'.items == b.items[rel := true] && b'.done == b.done + 1 && b'.total == b.total && b'.lastProgress == now && SameHeader(b, b')
      && (if Open(b) && MissingItems(b') == {} then b'.status == Completed && b'.source == b.source
          else if b.status == Interrupted && b.source != Signal then b'.status == Active && b'.source == NoSource
          else b'.status == b.status && b'.source == b.source)
    else b' == b
  }

  /** The listed missing items are gone from the manifest; an open batch that misses nothing any more is completed. */
  ghost predicate TrimMeans(b: Batch, b': Batch, paths: set<string>) {
    && b'.items == (map r | r in b.items && (b.items[r] || r !in paths) :: b.items[r])
    && b'.total == |b'.items| && b'.done == b.done && b'.lastProgress == b.lastProgress && b'.source == b.source && SameHeader(b, b')
    && b'.status == if Open(b) && MissingItems(b') == {} then Completed else b.status
  }

  lemma SplitCount(b: Batch)
    ensures |b.items| == |DoneItems(b.items)| + |MissingItems(b)|
  {
    assert b.items.Keys == DoneItems(b.items) + MissingItems(b);
    assert |b.items| == |b.items.Keys|;
  }

  lemma MarkedMeans(b: Batch, rel: string, now: int)
    requires BatchOk(b)
    ensures MarkMeans(b, Marked(b, rel, now), rel, now)
  {
    if rel in MissingItems(b) {
      var b' := Marked(b, rel, now);
      assert MissingItems(b') == MissingItems(b) - {rel};
      assert |MissingItems(b')| == |MissingItems(b)| - 1;
      SplitCount(b);
      assert MissingItems(b') == {} <==> b.done + 1 >= b.total;
    }
  }

  lemma TrimmedMeans(b: Batch, paths: set<string>)
    requires BatchOk(b)
    ensures TrimMeans(b, Trimmed(b, paths), paths)
  {
    var b' := Trimmed(b, paths);
    TrimmedLeft(b, paths);
    TrimmedItems(b, paths);
    SplitCount(b');
    assert MissingItems(b') == {} <==> |MissingItems(b')| == 0;
  }

  lemma TrimmedLeft(b: Batch, paths: set<string>)
    ensures Trimmed(b, paths).items == (map r | r in b.items && (b.items[r] || r !in paths) :: b.items[r])
    ensures Trimmed(b, paths).items == b.items - (paths * MissingItems(b))
  {
  }

  const IdleSeconds := 120
  const GraceSeconds := 600

  function LastSign(b: Batch): int { if b.lastProgress == 0 then b.created else b.lastProgress }

  // ----- the counts are kept

  lemma AllDone(b: Batch)
    requires b.total == |b.items| && b.done == |DoneItems(b.items)| && b.done >= b.total
    ensures MissingItems(b) == {}
  {
    var d := DoneItems(b.items);
    assert d <= b.items.Keys;
    SubsetFull(d, b.items.Keys);
  }

  lemma SubsetFull(a: set<string>, b: set<string>)
    requires a <= b && |a| >= |b|
    ensures a == b
  {
    assert b == a + (b - a);
    assert |b| == |a| + |b - a|;
  }

  lemma CompleteOk(b: Batch)
    requires b.total == |b.items| && b.done == |DoneItems(b.items)| && !b.status.Completed?
    ensures BatchOk(CompleteIfDone(b))
  {
    if b.done >= b.total { AllDone(b); }
    assert CompleteIfDone(b).items == b.items;
    assert MissingItems(CompleteIfDone(b)) == MissingItems(b);
  }

  lemma MarkedOk(b: Batch, rel: string, now: int)
    requires BatchOk(b)
    ensures BatchOk(Marked(b, rel, now))
  {
    if rel in b.items && !b.items[rel] {
      assert rel in MissingItems(b);
      var items' := b.items[rel := true];
      assert items'.Keys == b.items.Keys;
      assert |items'| == |b.items| by { assert |items'.Keys| == |b.items.Keys|; }
      assert DoneItems(items') == DoneItems(b.items) + {rel};
      var b1 := b.(items := items', done := b.done + 1, lastProgress := now);
      CompleteOk(b1);
      var b2 := CompleteIfDone(b1);
      assert MissingItems(Marked(b, rel, now)) == MissingItems(b2);
    }
  }

  lemma TrimmedItems(b: Batch, paths: set<string>)
    ensures var left := b.items - (paths * MissingItems(b));
      DoneItems(left) == DoneItems(b.items) && |left| == |b.items| - |paths * MissingItems(b)|
  {
    var gone := paths * MissingItems(b);
    var left := b.items - gone;
    assert left.Keys == b.items.Keys - gone;
    assert b.items.Keys == left.Keys + gone;
    assert |left| == |left.Keys| && |b.items| == |b.items.Keys|;
  }

  lemma TrimmedOk(b: Batch, paths: set<string>)
    requires BatchOk(b)
    ensures BatchOk(Trimmed(b, paths))
  {
    var gone := paths * MissingItems(b);
    if gone != {} {
      TrimmedItems(b, paths);
      assert !b.status.Completed?;
      CompleteOk(b.(items := b.items - gone, total := b.total - |gone|));
    }
  }

  lemma TrimmedMissing(b: Batch, paths: set<string>)
    ensures MissingItems(Trimmed(b, paths)) == MissingItems(b) - paths
  {
    var gone := paths * MissingItems(b);
    assert Trimmed(b, paths).items == b.items - gone;
  }

  lemma DroppedTwice(b: Batch, first: set<string>, rest: set<string>)
    requires first !! rest && (rest != {} && Open(b) ==> Open(Dropped(b, first)))
    ensures Dropped(Dropped(b, first), rest) == Dropped(b, first + rest)
  {
    if first == {} { assert first + rest == rest; }
    else if rest == {} { assert first + rest == first; }
    else {
      assert |first + rest| == |first| + |rest|;
      assert b.items - first - rest == b.items - (first + rest);
    }
  }

  /** Two transactions of RemoveItems do what one would. */
  lemma TrimTwice(b: Batch, some: set<string>, more: set<string>)
    requires BatchOk(b)
    ensures Trimmed(Trimmed(b, some), more) == Trimmed(b, some + more)
  {
    var m := MissingItems(b);
    var first, rest := some * m, more * (m - some);
    TrimmedOk(b, some);
    TrimmedMissing(b, some);
    assert (some + more) * m == first + rest;
    assert more * MissingItems(Trimmed(b, some)) == rest;
    DroppedTwice(b, first, rest);
  }

  // ----- calls on the store

  datatype Call =
    | Create(id: Id, owner: string, target: string, manifest: seq<string>, now: int)
    | MarkDone(id: Id, rel: string, now: int)
    | Touch(id: Id, now: int)
    | Interrupt(id: Id, now: int, source: Source)
    | Abandon(id: Id)
    | Remove(id: Id, paths: set<string>)
    | StagingCleaned(id: Id)

  /** The handler's checks on a new manifest. */
  predicate Acceptable(id: Id, target: string, manifest: seq<string>) {
    && id != "" && Absolute(target) && manifest != []
    && forall i :: 0 <= i < |manifest| ==> manifest[i] != "" && !Contains(manifest[i], "..") && !Absolute(manifest[i])
  }

  /** The unique index on batch and path refuses a manifest that names a path twice. */
  predicate DistinctPaths(manifest: seq<string>) { forall i, j :: 0 <= i < j < |manifest| ==> manifest[i] != manifest[j] }

  function NewBatch(owner: string, target: string, manifest: seq<string>, now: int): Batch {
    Batch(owner, Clean(target), Active, NoSource, |manifest|, 0, now, now, 0, false, map r | r in manifest :: false)
  }

  /** What a call other than Create makes of the batch it names. */
  function Applied(b: Batch, call: Call): Batch {
    match call
    case Create(_, _, _, _, _) => b
    case MarkDone(_, rel, now) => Marked(b, rel, now)
    case Touch(_, now) => Touched(b, now)
    case Interrupt(_, now, source) => InterruptedBy(b, now, source)
    case Abandon(_) => b.(status := Abandoned)
    case Remove(_, paths) => Trimmed(b, paths)
    case StagingCleaned(_) => b.(cleaned := true)
  }

  function Apply(rows: Rows, call: Call): Rows {
    match call
    case Create(id, owner, target, manifest, now) =>
      if id in rows || !Acceptable(id, target, manifest) || !DistinctPaths(manifest) then rows
      else rows[id := NewBatch(owner, target, manifest, now)]
    case _ => if call.id in rows then rows[call.id := Applied(rows[call.id], call)] else rows
  }

  ghost predicate RowsOk(rows: Rows) { forall id :: id in rows ==> BatchOk(rows[id]) && Absolute(rows[id].target) }

  lemma {:induction false} ManifestSize(manifest: seq<string>)
    requires DistinctPaths(manifest)
    ensures |set r | r in manifest| == |manifest|
  {
    if manifest != [] {
      var init, last := manifest[..|manifest| - 1], manifest[|manifest| - 1];
      ManifestSize(init);
      assert (set r | r in manifest) == (set r | r in init) + {last};
      assert last !in init;
    }
  }

  lemma NewBatchOk(owner: string, target: string, manifest: seq<string>, now: int)
    requires DistinctPaths(manifest) && manifest != []
    ensures BatchOk(NewBatch(owner, target, manifest, now))
  {
    var b := NewBatch(owner, target, manifest, now);
    ManifestSize(manifest);
    assert b.items.Keys == set r | r in manifest;
    assert |b.items| == |b.items.Keys|;
    assert DoneItems(b.items) == {};
  }

  /** Every call keeps the counts of every batch. */
  lemma ApplyOk(rows: Rows, call: Call)
    requires RowsOk(rows)
    ensures RowsOk(Apply(rows, call))
  {
    if call.Create? {
      if DistinctPaths(call.manifest) && Acceptable(call.id, call.target, call.manifest) {
        NewBatchOk(call.owner, call.target, call.manifest, call.now);
        CleanAbsolute(call.target);
      }
    } else if call.id in rows {
      AppliedOk(rows[call.id], call);
    }
  }

  lemma AppliedOk(b: Batch, call: Call)
    requires BatchOk(b)
    ensures BatchOk(Applied(b, call)) && Applied(b, call).target == b.target
  {
    match call
    case MarkDone(_, rel, now) => MarkedOk(b, rel, now);
    case Remove(_, paths) => TrimmedOk(b, paths);
    case _ => assert Applied(b, call).items == b.items; assert MissingItems(Applied(b, call)) == MissingItems(b);
  }

  // ----- absolute paths of items

  /** Where an item's file goes. */
  function ItemPath(b: Batch, r: string): string { Clean(JoinPath(b.target, r)) }

  function ItemNames(b: Batch, r: string): seq<string> { Names(ItemPath(b, r)) }

  lemma ItemPathNames(b: Batch, r: string)
    requires Absolute(b.target)
    ensures Absolute(ItemPath(b, r)) && ItemPath(b, r) == Render(ItemNames(b, r)) && GoodNames(ItemNames(b, r))
    ensures CleanRelative(r) ==> ItemNames(b, r) == Names(b.target) + Split(Slash, r)
  {
    JoinNames(b.target, r);
    CleanAbsolute(JoinPath(b.target, r));
    NamesGood(ItemPath(b, r));
  }

  datatype Found = Nothing | Rest(path: string)

  /** The completed path in the coordinates of a batch: the batch's root is stripped as a string prefix. */
  function RelativeTo(target: string, abs: string): Found {
    var prefix := TrimSlashes(Clean(target)) + [Slash];
    if !(prefix <= abs) || abs == prefix then Nothing else Rest(abs[|prefix|..])
  }

  /** Prefix stripping in terms of names. */
  lemma RelativeToNames(target: string, ns: seq<string>)
    requires Absolute(target) && GoodNames(ns)
    ensures RelativeTo(target, Render(ns)) ==
      if Names(target) <= ns && Names(target) != ns then Rest(Join(Slash, ns[|Names(target)|..])) else Nothing
  {
    var root := Names(target);
    CleanAbsolute(target);
    NamesGood(target);
    TrimRender(root);
    if root == [] {
      assert "" + [Slash] == [Slash];
      if ns != [] { JoinLast(ns); assert ns[0..] == ns; }
    } else {
      PrefixMeansBelow(ns, root);
      if root <= ns && root != ns { JoinLast(ns[|root|..]); }
    }
  }

  /** Prefix stripping refines equality of absolute paths: it finds an item exactly when the item's path is clean and leads there. */
  lemma MatchExact(b: Batch, r: string, ns: seq<string>)
    requires Absolute(b.target) && GoodNames(ns)
    ensures RelativeTo(b.target, Render(ns)) == Rest(r) <==> CleanRelative(r) && ItemPath(b, r) == Render(ns)
  {
    var root := Names(b.target);
    RelativeToNames(b.target, ns);
    ItemPathNames(b, r);
    NamesRender(ns);
    if RelativeTo(b.target, Render(ns)) == Rest(r) {
      var rest := ns[|root|..];
      JoinClean(rest);
      assert ns == root + rest;
    }
    if CleanRelative(r) && ItemPath(b, r) == Render(ns) {
      assert ns == root + Split(Slash, r);
      JoinSplit(Slash, r);
    }
  }
}
