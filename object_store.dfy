/** An IndexedDB object store with an in-line key (`keyPath: 'id'`): records keyed by
    the key `keyOf` extracts from them. Every store the engine uses is one of these. */
module ObjectStores {
  import opened Common
  import KeyOrder

  /** The keys of `items`. */
  function KeysOf<R>(items: seq<R>, key: R -> int): (ks: set<int>)
    ensures forall i | 0 <= i < |items| :: key(items[i]) in ks
    ensures forall k | k in ks :: exists i :: 0 <= i < |items| && key(items[i]) == k
  {
    set i | 0 <= i < |items| :: key(items[i])
  }

  /** The store after putting every item in turn: a later item overwrites an earlier
      one with the same key. */
  function PutEach<R>(m: map<int, R>, items: seq<R>, key: R -> int): (r: map<int, R>)
    ensures r.Keys == m.Keys + KeysOf(items, key)
  {
    if items == [] then m
    else
      var n := |items| - 1;
      KeysOfSnoc(items, key);
      PutEach(m, items[..n], key)[key(items[n]) := items[n]]
  }

  /** The keys of a non-empty batch: those of all but the last item, and the last one's. */
  lemma KeysOfSnoc<R>(items: seq<R>, key: R -> int)
    requires items != []
    ensures KeysOf(items, key) == KeysOf(items[..|items| - 1], key) + {key(items[|items| - 1])}
  {
    var n := |items| - 1;
    assert forall i | 0 <= i < n :: items[..n][i] == items[i];
  }

  /** Adding every item in turn never meets a key already present. */
  predicate Fresh<R>(m: map<int, R>, items: seq<R>, key: R -> int)
  {
    items == [] ||
    (var n := |items| - 1;
     Fresh(m, items[..n], key) && key(items[n]) !in PutEach(m, items[..n], key))
  }

  /** What a bulk put leaves under each key: the last item with that key, or the old record. */
  lemma PutEachLast<R>(m: map<int, R>, items: seq<R>, key: R -> int)
    ensures forall i | 0 <= i < |items| && LastWithKey(items, key, i) ::
              PutEach(m, items, key)[key(items[i])] == items[i]
    ensures forall k | k in m && k !in KeysOf(items, key) :: PutEach(m, items, key)[k] == m[k]
  {
    PutEachLastItem(m, items, key);
    PutEachUntouched(m, items, key);
  }

  /** No later item of `items` has the key of item `i`. */
  predicate LastWithKey<R>(items: seq<R>, key: R -> int, i: int)
    requires 0 <= i < |items|
  {
    forall j | i < j < |items| :: key(items[j]) != key(items[i])
  }

  lemma PutEachLastItem<R>(m: map<int, R>, items: seq<R>, key: R -> int)
    ensures forall i | 0 <= i < |items| && LastWithKey(items, key, i) ::
              PutEach(m, items, key)[key(items[i])] == items[i]
  {
    forall i | 0 <= i < |items| && LastWithKey(items, key, i)
      ensures PutEach(m, items, key)[key(items[i])] == items[i]
    {
      PutEachLastAt(m, items, key, i);
    }
  }

  lemma {:induction false} PutEachLastAt<R>(m: map<int, R>, items: seq<R>, key: R -> int, i: nat)
    requires i < |items| && LastWithKey(items, key, i)
    ensures PutEach(m, items, key)[key(items[i])] == items[i]
  {
    var n := |items| - 1;
    var pre := items[..n];
    var before := PutEach(m, pre, key);
    assert PutEach(m, items, key) == before[key(items[n]) := items[n]];
    if i < n {
      assert key(items[n]) != key(items[i]);
      assert pre[i] == items[i];
      forall j | i < j < n ensures key(pre[j]) != key(pre[i]) {
        assert pre[j] == items[j];
      }
      PutEachLastAt(m, pre, key, i);
      assert before[key(items[i])] == items[i];
    }
  }

  lemma {:induction false} PutEachUntouched<R>(m: map<int, R>, items: seq<R>, key: R -> int)
    ensures forall k | k in m && k !in KeysOf(items, key) :: PutEach(m, items, key)[k] == m[k]
  {
    if items != [] {
      PutEachUntouched(m, items[..|items| - 1], key);
      KeysOfSnoc(items, key);
    }
  }

  /** The keys of the first `i + 1` items: those of the first `i`, and the next one's. */
  lemma KeysOfPrefix<R>(items: seq<R>, key: R -> int, i: nat)
    requires i < |items|
    ensures KeysOf(items[..i + 1], key) == KeysOf(items[..i], key) + {key(items[i])}
  {
    KeysOfSnoc(items[..i + 1], key);
    assert items[..i + 1][..i] == items[..i];
  }

  /** No item's key is stored already. */
  predicate NoneStored<R>(m: map<int, R>, items: seq<R>, key: R -> int)
  {
    forall i | 0 <= i < |items| :: key(items[i]) !in m
  }

  /** No two items share a key. */
  predicate DistinctKeys<R>(items: seq<R>, key: R -> int)
  {
    forall i, j | 0 <= i < j < |items| :: key(items[i]) != key(items[j])
  }

  /** A batch of adds meets no existing key exactly when no item's key is stored
      already and no two items share a key. */
  lemma {:induction false} FreshIff<R>(m: map<int, R>, items: seq<R>, key: R -> int)
    ensures Fresh(m, items, key) <==> NoneStored(m, items, key) && DistinctKeys(items, key)
  {
    if items != [] {
      var n := |items| - 1;
      var pre := items[..n];
      FreshIff(m, pre, key);
      LastKeyIff(m, items, key);
      assert Fresh(m, items, key) <==> Fresh(m, pre, key) && key(items[n]) !in PutEach(m, pre, key);
    }
  }

  /** The last of a batch of adds meets no existing key exactly when it meets neither
      a stored key nor the key of an earlier item. */
  lemma LastKeyIff<R>(m: map<int, R>, items: seq<R>, key: R -> int)
    requires items != []
    ensures var n := |items| - 1;
            (NoneStored(m, items, key) && DistinctKeys(items, key)) <==>
            (NoneStored(m, items[..n], key) && DistinctKeys(items[..n], key) &&
             key(items[n]) !in PutEach(m, items[..n], key))
  {
    var n := |items| - 1;
    var pre := items[..n];
    var kn := key(items[n]);
    var unseen := forall i | 0 <= i < n :: key(pre[i]) != kn;
    KeysOfSnoc(items, key);
    assert kn !in PutEach(m, pre, key) <==> kn !in m && unseen by {
      assert kn !in KeysOf(pre, key) <==> unseen;
    }
    NoneStoredSnoc(m, items, key);
    DistinctKeysSnoc(items, key);
  }

  lemma NoneStoredSnoc<R>(m: map<int, R>, items: seq<R>, key: R -> int)
    requires items != []
    ensures var n := |items| - 1;
            NoneStored(m, items, key) <==> NoneStored(m, items[..n], key) && key(items[n]) !in m
  {
    var n := |items| - 1;
    assert forall i | 0 <= i < n :: items[..n][i] == items[i];
  }

  lemma DistinctKeysSnoc<R>(items: seq<R>, key: R -> int)
    requires items != []
    ensures var n := |items| - 1;
            DistinctKeys(items, key) <==>
            DistinctKeys(items[..n], key) && forall i | 0 <= i < n :: key(items[..n][i]) != key(items[n])
  {
    var n := |items| - 1;
    assert forall i | 0 <= i < n :: items[..n][i] == items[i];
  }

  /** Filtering keeps keys distinct. */
  lemma {:induction false} FilterDistinct<R>(s: seq<R>, keep: R -> bool, key: R -> int)
    requires DistinctKeys(s, key)
    ensures DistinctKeys(Filter(s, keep), key)
  {
    if s != [] {
      var rest := s[1..];
      assert forall i | 0 <= i < |rest| :: rest[i] == s[i + 1];
      FilterDistinct(rest, keep, key);
      if keep(s[0]) {
        var r := Filter(rest, keep);
        forall j | 0 <= j < |r| ensures key(s[0]) != key(r[j]) {
          assert r[j] in rest;
        }
      }
    }
  }

  /** A bulk put keeps every record stored under its own key. */
  lemma {:induction false} PutEachKeyed<R>(m: map<int, R>, items: seq<R>, key: R -> int)
    requires forall k | k in m :: key(m[k]) == k
    ensures forall k | k in PutEach(m, items, key) :: key(PutEach(m, items, key)[k]) == k
  {
    if items != [] {
      PutEachKeyed(m, items[..|items| - 1], key);
    }
  }

  /** A record listed by `getAll` is the one stored under its key. */
  lemma ListedIsStored<R>(m: map<int, R>, key: R -> int, x: R)
    requires forall k | k in m :: key(m[k]) == k
    requires x in KeyOrder.Values(m)
    ensures key(x) in m && m[key(x)] == x
  {
    KeyOrder.ValuesSound(m, x);
  }

  /** Filtering the listed records by `keep` selects exactly the stored records that
      satisfy it, each as stored under its key. */
  lemma ListedKeys<R>(m: map<int, R>, keep: R -> bool, key: R -> int)
    requires forall k | k in m :: key(m[k]) == k
    ensures forall x | x in Filter(KeyOrder.Values(m), keep) :: key(x) in m && m[key(x)] == x && keep(x)
    ensures KeysOf(Filter(KeyOrder.Values(m), keep), key) == set k | k in m && keep(m[k])
  {
    var all := KeyOrder.Values(m);
    var listed := Filter(all, keep);
    var selected := set k | k in m && keep(m[k]);
    forall x | x in listed ensures key(x) in m && m[key(x)] == x && keep(x) {
      ListedIsStored(m, key, x);
    }
    forall k | k in KeysOf(listed, key) ensures k in selected {
      var i :| 0 <= i < |listed| && key(listed[i]) == k;
      assert listed[i] in listed;
    }
    forall k | k in selected ensures k in KeysOf(listed, key) {
      KeyOrder.ValuesComplete(m, k);
      var j :| 0 <= j < |all| && all[j] == m[k];
      assert m[k] in listed;
      var i :| 0 <= i < |listed| && listed[i] == m[k];
    }
  }

  class ObjectStore<R> {
    const keyOf: R -> int
    var records: map<int, R>

    /** Every record is stored under its own key. */
    ghost predicate Valid()
      reads this
    {
      forall k | k in records :: keyOf(records[k]) == k
    }

    constructor (keyOf: R -> int)
      ensures this.keyOf == keyOf && records == map[] && Valid()
    {
      this.keyOf := keyOf;
      records := map[];
    }

    /** IDBObjectStore.put: insert or overwrite. */
    method Put(r: R)
      requires Valid()
      modifies this
      ensures Valid()
      ensures records == old(records)[keyOf(r) := r]
    {
      records := records[keyOf(r) := r];
    }

    /** IDBObjectStore.add: refuses a key that is already present. */
    method Add(r: R) returns (inserted: bool)
      requires Valid()
      modifies this
      ensures Valid()
      ensures inserted <==> keyOf(r) !in old(records)
      ensures records == if inserted then old(records)[keyOf(r) := r] else old(records)
    {
      inserted := keyOf(r) !in records;
      if inserted {
        records := records[keyOf(r) := r];
      }
    }

    /** IDBObjectStore.delete: removes the key if present. */
    method Delete(key: int)
      requires Valid()
      modifies this
      ensures Valid()
      ensures records == old(records) - {key}
    {
      records := records - {key};
    }

    method Clear()
      modifies this
      ensures Valid() && records == map[]
    {
      records := map[];
    }

    /** IDBObjectStore.get: the record under `key`, or nothing. */
    method Get(key: int) returns (r: Option<R>)
      requires Valid()
      ensures r.Some? <==> key in records
      ensures r.Some? ==> r.value == records[key] && keyOf(r.value) == key
    {
      r := if key in records then Some(records[key]) else None;
    }

    /** IDBObjectStore.getAll: every record, in ascending key order. */
    method GetAll() returns (all: seq<R>)
      ensures all == KeyOrder.Values(records)
    {
      all := KeyOrder.Values(records);
    }

    /** IDBObjectStore.count. */
    method Count() returns (n: nat)
      ensures n == |records|
    {
      n := |records|;
    }

    /** A bulk put in one transaction: every item is put, in order. */
    method PutAll(items: seq<R>)
      requires Valid()
      modifies this
      ensures Valid()
      ensures records == PutEach(old(records), items, keyOf)
    {
      for i := 0 to |items|
        invariant Valid()
        invariant records == PutEach(old(records), items[..i], keyOf)
      {
        assert items[..i + 1][..i] == items[..i];
        Put(items[i]);
      }
      assert items[..|items|] == items;
    }

    /** A bulk add in one transaction: the first add that meets an existing key aborts
        the transaction and rolls every add back. */
    method AddAll(items: seq<R>) returns (ok: bool)
      requires Valid()
      modifies this
      ensures Valid()
      ensures ok <==> Fresh(old(records), items, keyOf)
      ensures records == if ok then PutEach(old(records), items, keyOf) else old(records)
    {
      var snapshot := records;
      var i := 0;
      ok := true;
      while i < |items| && ok
        invariant 0 <= i <= |items|
        invariant Valid()
        invariant Fresh(snapshot, items[..i], keyOf)
        invariant ok ==> records == PutEach(snapshot, items[..i], keyOf)
        invariant !ok ==> i < |items| && !Fresh(snapshot, items[..i + 1], keyOf)
        decreases |items| - i + (if ok then 1 else 0)
      {
        PrefixStep(snapshot, items, keyOf, i);
        var inserted := Add(items[i]);
        if inserted {
          i := i + 1;
        } else {
          ok := false;
        }
      }
      if ok {
        assert items[..i] == items;
      } else {
        records := snapshot;
        if Fresh(snapshot, items, keyOf) {
          FreshPrefix(snapshot, items, keyOf, i + 1);
        }
      }
    }
  }

  /** One more item of a batch: put after the others, and fresh when the others are
      and its key is not yet present. */
  lemma PrefixStep<R>(m: map<int, R>, items: seq<R>, key: R -> int, i: nat)
    requires i < |items|
    ensures PutEach(m, items[..i + 1], key) == PutEach(m, items[..i], key)[key(items[i]) := items[i]]
    ensures Fresh(m, items[..i + 1], key) <==>
            Fresh(m, items[..i], key) && key(items[i]) !in PutEach(m, items[..i], key)
  {
    assert items[..i + 1][..i] == items[..i];
  }

  /** Every prefix of a batch that meets no existing key meets none either. */
  lemma {:induction false} FreshPrefix<R>(m: map<int, R>, items: seq<R>, key: R -> int, n: nat)
    requires n <= |items|
    requires Fresh(m, items, key)
    ensures Fresh(m, items[..n], key)
  {
    if n == |items| {
      assert items[..n] == items;
    } else {
      var pre := items[..|items| - 1];
      assert pre[..n] == items[..n];
      FreshPrefix(m, pre, key, n);
    }
  }
}
