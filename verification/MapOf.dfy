/**
  `MapOf` (pkg/generic_sync/generic_sync.go) used by one goroutine: the object with its read map,
  its dirty map, the miss counter and the entry objects that both maps share.  Run without a second
  thread a compare-and-swap loop succeeds at once, so each is written as its single pass.
*/
module MapOf {
  import opened Options

  datatype Ptr<+V> = Nil | Expunged | Val(v: V)

  class Entry<V> {
    var p: Ptr<V>

    constructor (p: Ptr<V>)
      ensures this.p == p
    {
      this.p := p;
    }

    ghost function Value(): Option<V>
      reads this
    {
      if p.Val? then Some(p.v) else None
    }
  }

  function Lookup<K(==), V>(m: map<K, V>, k: K): Option<V> {
    if k in m then Some(m[k]) else None
  }

  function Entries<K(==), V>(d: Option<map<K, Entry<V>>>): map<K, Entry<V>> {
    if d.Some? then d.value else map[]
  }

  ghost predicate Injective<K, V>(m: map<K, Entry<V>>) {
    forall j, k :: j in m && k in m && j != k ==> m[j] != m[k]
  }

  /** Distinct keys have distinct entries, in each map and across the two; a shared key has one entry. */
  ghost predicate Separate<K, V>(m: map<K, Entry<V>>, d: map<K, Entry<V>>) {
    && Injective(m) && Injective(d)
    && (forall j, k :: j in m && k in d ==> (j == k <==> m[j] == d[k]))
  }

  /** Range over a plain map, in any order, until the callback returns false; unless it does, every key is visited. */
  ghost predicate Visits<K, V>(m: map<K, V>, f: (K, V) -> bool, visited: seq<(K, V)>) {
    && (forall i :: 0 <= i < |visited| ==> visited[i].0 in m && m[visited[i].0] == visited[i].1)
    && (forall i, j :: 0 <= i < j < |visited| ==> visited[i].0 != visited[j].0)
    && (forall i :: 0 <= i < |visited| - 1 ==> f(visited[i].0, visited[i].1))
    && ((forall i :: 0 <= i < |visited| ==> f(visited[i].0, visited[i].1)) ==>
        forall k :: k in m ==> exists i :: 0 <= i < |visited| && visited[i].0 == k)
  }

  class Map<K(==, !new), V> {
    var read: map<K, Entry<V>>
    var amended: bool
    var dirty: Option<map<K, Entry<V>>>
    var misses: nat
    ghost var repr: set<Entry<V>>

    constructor ()
      ensures Valid() && fresh(repr) && Contents() == map[]
    {
      read, amended, dirty, misses, repr := map[], false, None, 0, {};
    }

    ghost predicate Valid()
      reads `read, `amended, `dirty, `repr, repr
    {
      && (forall k :: k in read ==> read[k] in repr)
      && (forall k :: k in Entries(dirty) ==> Entries(dirty)[k] in repr && !Entries(dirty)[k].p.Expunged?)
      && Separate(read, Entries(dirty))
      && (amended <==> dirty.Some?)
      && (forall k :: k in read ==> (read[k].p.Expunged? <==> dirty.Some? && k !in Entries(dirty)))
    }

    ghost function ValueOf(k: K): Option<V>
      reads `read, `amended, `dirty, `repr, repr
      requires Valid()
    {
      if k in read then read[k].Value()
      else if k in Entries(dirty) then Entries(dirty)[k].Value()
      else None
    }

    ghost function Contents(): map<K, V>
      reads `read, `amended, `dirty, `repr, repr
      requires Valid()
    {
      map k | k in read.Keys + Entries(dirty).Keys && ValueOf(k).Some? :: ValueOf(k).value
    }

    /** Promotion of the dirty map changes nothing visible. */
    method Promote()
      requires Valid() && dirty.Some?
      modifies this
      ensures Valid() && repr == old(repr) && Contents() == old(Contents())
      ensures !amended && dirty.None? && misses == 0 && read == old(dirty).value
    {
      ghost var was := Contents();
      read, amended, dirty, misses := dirty.value, false, None, 0;
      assert forall k :: ValueOf(k) == old(ValueOf(k));
      assert Contents() == was;
    }

    method MissLocked()
      requires Valid() && dirty.Some?
      modifies this
      ensures Valid() && repr == old(repr) && Contents() == old(Contents())
      ensures old(misses) + 1 < |old(dirty).value| ==>
        read == old(read) && dirty == old(dirty) && amended == old(amended) && misses == old(misses) + 1
      ensures old(misses) + 1 >= |old(dirty).value| ==> read == old(dirty).value && dirty.None?
    {
      misses := misses + 1;
      if misses < |dirty.value| { return; }
      Promote();
    }

    /** Load once the first look at the read map has missed and `amended` was set. */
    method LoadSlow(key: K) returns (r: Option<V>)
      requires Valid() && key !in read && amended
      modifies this
      ensures Valid() && repr == old(repr) && Contents() == old(Contents()) && r == old(ValueOf(key))
    {
      if key in Entries(dirty) {
        var e := Entries(dirty)[key];
        MissLocked();
        r := LoadEntry(e);
      } else {
        MissLocked();
        r := None;
      }
    }

    method Load(key: K) returns (r: Option<V>)
      requires Valid()
      modifies this
      ensures Valid() && repr == old(repr) && Contents() == old(Contents())
      ensures r == Lookup(old(Contents()), key)
    {
      assert ValueOf(key) == Lookup(Contents(), key);
      if key in read {
        r := LoadEntry(read[key]);
      } else if amended {
        r := LoadSlow(key);
      } else {
        r := None;
      }
    }

    method LoadEntry(e: Entry<V>) returns (r: Option<V>)
      ensures r == e.Value()
    {
      r := if e.p.Val? then Some(e.p.v) else None;
    }

    /** `dirtyLocked`: a shallow copy of the read map that leaves deleted entries out, expunging them. */
    method DirtyLocked()
      requires Valid() && dirty.None?
      modifies this, repr
      ensures repr == old(repr) && read == old(read) && amended == old(amended) && dirty.Some?
      ensures Separate(read, Entries(dirty)) && Entries(dirty).Keys <= read.Keys
      ensures forall k :: k in read ==>
        && (read[k].p.Expunged? <==> k !in Entries(dirty))
        && read[k].p == (if old(read[k].p).Nil? then Expunged else old(read[k].p))
      ensures forall e :: e in repr && e !in read.Values ==> e.p == old(e.p)
    {
      var left := read.Keys;
      var copy: map<K, Entry<V>> := map[];
      while left != {}
        invariant left <= read.Keys && copy.Keys <= read.Keys - left
        invariant repr == old(repr) && read == old(read) && amended == old(amended) && dirty == old(dirty)
        invariant forall k :: k in copy ==> copy[k] == read[k]
        invariant forall k :: k in left ==> read[k].p == old(read[k].p)
        invariant forall k :: k in read && k !in left ==>
          && (read[k].p.Expunged? <==> k !in copy)
          && read[k].p == (if old(read[k].p).Nil? then Expunged else old(read[k].p))
        invariant forall e :: e in repr && e !in read.Values ==> e.p == old(e.p)
        decreases left
      {
        var k :| k in left;
        var e := read[k];
        assert e in read.Values;
        if e.p.Nil? {
          e.p := Expunged;
        } else if !e.p.Expunged? {
          copy := copy[k := e];
        }
        left := left - {k};
      }
      dirty := Some(copy);
    }

    /** Allocates `dirty` if there is none and marks the read map as incomplete. */
    method FillDirty()
      requires Valid()
      modifies this, repr
      ensures Valid() && repr == old(repr) && read == old(read) && Contents() == old(Contents())
      ensures amended && Entries(dirty).Keys <= read.Keys + Entries(old(dirty)).Keys
    {
      if !amended {
        ghost var was := Contents();
        DirtyLocked();
        amended := true;
        assert forall k :: ValueOf(k) == old(ValueOf(k));
        assert Contents() == was;
      }
    }

    /** The path of Store and LoadOrStore for a key that neither map has. */
    method AddNew(key: K, value: V)
      requires Valid() && key !in read && key !in Entries(dirty)
      modifies this, repr
      ensures Valid() && fresh(repr - old(repr)) && old(repr) <= repr
      ensures Contents() == old(Contents())[key := value]
    {
      FillDirty();
      var e := new Entry(Val(value));
      Insert(key, e);
    }

    method Insert(key: K, e: Entry<V>)
      requires Valid() && amended && key !in read && key !in Entries(dirty) && e !in repr && e.p.Val?
      modifies this
      ensures Valid() && repr == old(repr) + {e} && Contents() == old(Contents())[key := e.p.v]
    {
      ghost var was := Contents();
      dirty := Some(dirty.value[key := e]);
      repr := repr + {e};
      assert forall k :: k != key ==> ValueOf(k) == old(ValueOf(k));
      assert Contents() == was[key := e.p.v];
    }

    /** The write of a live value to the entry of `key`. */
    method SetEntry(e: Entry<V>, key: K, p: Ptr<V>)
      requires Valid() && !p.Expunged? && !e.p.Expunged?
      requires (key in read && e == read[key]) || (key !in read && key in Entries(dirty) && e == Entries(dirty)[key])
      modifies e
      ensures Valid()
      ensures Contents() == if p.Val? then old(Contents())[key := p.v] else old(Contents()) - {key}
    {
      ghost var was := Contents();
      e.p := p;
      assert forall k :: k != key ==> ValueOf(k) == old(ValueOf(k));
      assert Contents() == if p.Val? then was[key := p.v] else was - {key};
    }

    /** `unexpungeLocked` and the insertion into `dirty` that must follow it. */
    method Unexpunge(key: K)
      requires Valid() && key in read
      modifies this, repr
      ensures Valid() && repr == old(repr) && read == old(read) && Contents() == old(Contents())
      ensures !read[key].p.Expunged?
    {
      var e := read[key];
      if e.p.Expunged? {
        ghost var was := Contents();
        e.p := Nil;
        dirty := Some(dirty.value[key := e]);
        assert forall k :: ValueOf(k) == old(ValueOf(k));
        assert Contents() == was;
      }
    }

    method Store(key: K, value: V)
      requires Valid()
      modifies this, repr
      ensures Valid() && fresh(repr - old(repr)) && old(repr) <= repr
      ensures Contents() == old(Contents())[key := value]
    {
      if key in read && !read[key].p.Expunged? {
        SetEntry(read[key], key, Val(value));
        return;
      }
      if key in read {
        Unexpunge(key);
        SetEntry(read[key], key, Val(value));
      } else if key in Entries(dirty) {
        SetEntry(Entries(dirty)[key], key, Val(value));
      } else {
        AddNew(key, value);
      }
    }

    /** `tryLoadOrStore` on the entry of `key`, which is not expunged. */
    method TryLoadOrStore(e: Entry<V>, key: K, value: V) returns (actual: V, loaded: bool)
      requires Valid() && !e.p.Expunged?
      requires (key in read && e == read[key]) || (key !in read && key in Entries(dirty) && e == Entries(dirty)[key])
      modifies e
      ensures Valid() && loaded == (key in old(Contents()))
      ensures loaded ==> actual == old(Contents())[key] && Contents() == old(Contents())
      ensures !loaded ==> actual == value && Contents() == old(Contents())[key := value]
    {
      assert ValueOf(key) == e.Value();
      if e.p.Val? {
        return e.p.v, true;
      }
      SetEntry(e, key, Val(value));
      return value, false;
    }

    method LoadOrStore(key: K, value: V) returns (actual: V, loaded: bool)
      requires Valid()
      modifies this, repr
      ensures Valid() && fresh(repr - old(repr)) && old(repr) <= repr
      ensures loaded == (key in old(Contents()))
      ensures loaded ==> actual == old(Contents())[key] && Contents() == old(Contents())
      ensures !loaded ==> actual == value && Contents() == old(Contents())[key := value]
    {
      if key in read {
        Unexpunge(key);
        actual, loaded := TryLoadOrStore(read[key], key, value);
      } else if key in Entries(dirty) {
        actual, loaded := TryLoadOrStore(Entries(dirty)[key], key, value);
        MissLocked();
      } else {
        AddNew(key, value);
        actual, loaded := value, false;
      }
    }

    method Delete(key: K)
      requires Valid()
      modifies this, repr
      ensures Valid() && repr == old(repr) && Contents() == old(Contents()) - {key}
      ensures read == old(read) && amended == old(amended)
    {
      ghost var was := Contents();
      if key in read {
        if read[key].p.Val? {
          SetEntry(read[key], key, Nil);
        } else {
          assert ValueOf(key) == None;
        }
      } else if amended {
        dirty := Some(dirty.value - {key});
        assert forall k :: k != key ==> ValueOf(k) == old(ValueOf(k));
        assert Contents() == was - {key};
      }
    }

    /**
      Range with a callback that only reads: `visited` lists the calls made, in order.  Each key comes at
      most once with its value, every call but the last returned true, and unless one returned false
      every key of the map is there.
    */
    method Range(f: (K, V) -> bool) returns (visited: seq<(K, V)>)
      requires Valid()
      modifies this
      ensures Valid() && repr == old(repr) && Contents() == old(Contents()) && !amended
      ensures Visits(Contents(), f, visited)
    {
      if amended { Promote(); }
      var left := read.Keys;
      visited := [];
      while left != {}
        invariant left <= read.Keys
        invariant forall i :: 0 <= i < |visited| ==>
          && visited[i].0 in read && visited[i].0 !in left && f(visited[i].0, visited[i].1)
          && visited[i].0 in Contents() && Contents()[visited[i].0] == visited[i].1
        invariant forall i, j :: 0 <= i < j < |visited| ==> visited[i].0 != visited[j].0
        invariant forall k :: k in read && k !in left && k in Contents() ==>
          exists i :: 0 <= i < |visited| && visited[i].0 == k
        decreases left
      {
        var k :| k in left;
        left := left - {k};
        assert ValueOf(k) == read[k].Value();
        if read[k].p.Val? {
          var v := read[k].p.v;
          ghost var before := visited;
          visited := visited + [(k, v)];
          assert visited[|before|].0 == k;
          assert forall i :: 0 <= i < |before| ==> visited[i] == before[i];
          if !f(k, v) { return; }
        }
      }
    }

    method ToMap() returns (ans: map<K, V>)
      requires Valid()
      modifies this
      ensures Valid() && repr == old(repr) && Contents() == old(Contents()) && ans == Contents()
    {
      var visited := Range((k, v) => true);
      ans := map[];
      for n := 0 to |visited|
        invariant ans.Keys == set i | 0 <= i < n :: visited[i].0
        invariant forall k :: k in ans ==> k in Contents() && ans[k] == Contents()[k]
      {
        ans := ans[visited[n].0 := visited[n].1];
      }
      forall k | k in Contents() ensures k in ans {
        var i :| 0 <= i < |visited| && visited[i].0 == k;
      }
    }

    /** Clear: a Range whose callback deletes each key it is given. */
    method Clear()
      requires Valid()
      modifies this, repr
      ensures Valid() && repr == old(repr) && Contents() == map[]
    {
      if amended { Promote(); }
      var snapshot := read;
      var left := snapshot.Keys;
      while left != {}
        invariant Valid() && repr == old(repr) && read == snapshot && !amended && left <= snapshot.Keys
        invariant Contents().Keys <= left
        decreases left
      {
        var k :| k in left;
        left := left - {k};
        assert ValueOf(k) == read[k].Value();
        if snapshot[k].p.Val? {
          Delete(k);
        }
      }
      assert Contents().Keys == {};
    }
  }

  // ----- every sequence of calls

  datatype Call<!K, !V> =
    Load(k: K) | Store(k: K, v: V) | LoadOrStore(k: K, v: V) | Delete(k: K) | Range(f: (K, V) -> bool) | ToMap | Clear

  datatype Reply<K, V> = Found(o: Option<V>) | Unit | Actual(v: V, loaded: bool) | Visited(calls: seq<(K, V)>) | Whole(m: map<K, V>)

  /** What a plain map may answer. */
  ghost predicate PlainReply<K, V>(m: map<K, V>, c: Call<K, V>, r: Reply<K, V>) {
    match c
    case Load(k) => r == Found(Lookup(m, k))
    case LoadOrStore(k, v) => r == if k in m then Actual(m[k], true) else Actual(v, false)
    case Range(f) => r.Visited? && Visits(m, f, r.calls)
    case ToMap => r == Whole(m)
    case _ => r == Unit
  }

  ghost function PlainNext<K, V>(m: map<K, V>, c: Call<K, V>): map<K, V> {
    match c
    case Load(_) => m
    case Store(k, v) => m[k := v]
    case LoadOrStore(k, v) => if k in m then m else m[k := v]
    case Delete(k) => m - {k}
    case Range(_) => m
    case ToMap => m
    case Clear => map[]
  }

  ghost function PlainState<K, V>(m: map<K, V>, calls: seq<Call<K, V>>): map<K, V> {
    if calls == [] then m
    else PlainNext(PlainState(m, calls[..|calls| - 1]), calls[|calls| - 1])
  }

  method Dispatch<K(==, !new), V>(m: Map<K, V>, c: Call<K, V>) returns (r: Reply<K, V>)
    requires m.Valid()
    modifies m, m.repr
    ensures m.Valid() && fresh(m.repr - old(m.repr)) && old(m.repr) <= m.repr
    ensures PlainReply(old(m.Contents()), c, r) && m.Contents() == PlainNext(old(m.Contents()), c)
  {
    match c
    case Load(k) => var o := m.Load(k); r := Found(o);
    case Store(k, v) => m.Store(k, v); r := Unit;
    case LoadOrStore(k, v) => var a, l := m.LoadOrStore(k, v); r := Actual(a, l);
    case Delete(k) => m.Delete(k); r := Unit;
    case Range(f) => var visited := m.Range(f); r := Visited(visited);
    case ToMap => var all := m.ToMap(); r := Whole(all);
    case Clear => m.Clear(); r := Unit;
  }

  /** What a plain map, empty at first, may answer to a sequence of calls. */
  ghost predicate PlainReplies<K, V>(calls: seq<Call<K, V>>, replies: seq<Reply<K, V>>) {
    |calls| == |replies| &&
    (calls == [] ||
     var init, n := calls[..|calls| - 1], |calls| - 1;
     PlainReplies(init, replies[..n]) && PlainReply(PlainState(map[], init), calls[n], replies[n]))
  }

  /** For every sequence of calls a MapOf answers as a plain map does. */
  method Replay<K(==, !new), V>(calls: seq<Call<K, V>>) returns (replies: seq<Reply<K, V>>)
    ensures PlainReplies(calls, replies)
  {
    var m := new Map<K, V>();
    replies := [];
    for n := 0 to |calls|
      invariant m.Valid() && fresh(m) && fresh(m.repr)
      invariant m.Contents() == PlainState(map[], calls[..n]) && PlainReplies(calls[..n], replies)
    {
      assert calls[..n + 1][..n] == calls[..n];
      var r := Dispatch(m, calls[n]);
      assert (replies + [r])[..n] == replies;
      replies := replies + [r];
    }
    assert calls[..|calls|] == calls;
  }
}
