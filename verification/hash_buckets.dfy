/** Bucket arithmetic shared by the two chained hash tables: a table is a
    sequence of buckets, each a sequence of (key, value) pairs, and a key
    lives in bucket `hash(key) mod capacity`. */
module HashBuckets {

  /** The bucket of `key`; Python's `%` by a positive capacity. */
  function Slot<K>(hash: K -> int, capacity: int, key: K): (s: int)
    requires capacity >= 1
    ensures 0 <= s < capacity
  {
    hash(key) % capacity
  }

  /** `any([t[0] == key for t in bucket])`. */
  predicate HasKey<K(==), V>(bucket: seq<(K, V)>, key: K) {
    exists i :: 0 <= i < |bucket| && bucket[i].0 == key
  }

  /** The bucket with every pair for `key` replaced by `(key, value)`. */
  function Replaced<K(==), V>(bucket: seq<(K, V)>, key: K, value: V): (r: seq<(K, V)>)
    ensures |r| == |bucket|
  {
    seq(|bucket|, i requires 0 <= i < |bucket| => if bucket[i].0 == key then (key, value) else bucket[i])
  }

  /** `[[] for _ in range(capacity)]`. */
  function EmptyTable<K, V>(capacity: nat): (t: seq<seq<(K, V)>>)
    ensures |t| == capacity && forall b :: 0 <= b < capacity ==> t[b] == []
  {
    seq(capacity, _ => [])
  }

  /** The replace loop of both tables' insertion: every pair whose key is
      `key` becomes `(key, value)`; the others stay where they are. */
  method Overwrite<K(==), V>(bucket: seq<(K, V)>, key: K, value: V) returns (r: seq<(K, V)>)
    ensures r == Replaced(bucket, key, value)
  {
    r := bucket;
    var i := 0;
    while i < |r|
      invariant 0 <= i <= |r| && |r| == |bucket|
      invariant forall j :: 0 <= j < i ==> r[j] == Replaced(bucket, key, value)[j]
      invariant forall j :: i <= j < |r| ==> r[j] == bucket[j]
    {
      if r[i].0 == key {
        r := r[i := (key, value)];
      }
      i := i + 1;
    }
  }

  /** After the replace loop, `(key, value)` is in the bucket exactly when
      the key was already there. */
  lemma ReplacedHolds<K, V>(bucket: seq<(K, V)>, key: K, value: V)
    ensures (key, value) in Replaced(bucket, key, value) <==> HasKey(bucket, key)
  {
    var r := Replaced(bucket, key, value);
    if HasKey(bucket, key) {
      var i :| 0 <= i < |bucket| && bucket[i].0 == key;
      assert r[i] == (key, value);
    }
  }

  /** The number of non-empty buckets. */
  function NonEmptyCount<K, V>(table: seq<seq<(K, V)>>): nat {
    if table == [] then 0
    else NonEmptyCount(table[..|table| - 1]) + (if table[|table| - 1] != [] then 1 else 0)
  }

  lemma {:induction false} NonEmptyEmpty<K, V>(capacity: nat)
    ensures NonEmptyCount(EmptyTable<K, V>(capacity)) == 0
  {
    if capacity > 0 {
      assert EmptyTable<K, V>(capacity)[..capacity - 1] == EmptyTable<K, V>(capacity - 1);
      NonEmptyEmpty<K, V>(capacity - 1);
    }
  }

  /** Replacing one bucket changes the count only by that bucket. */
  lemma {:induction false} NonEmptyUpdate<K, V>(table: seq<seq<(K, V)>>, b: int, nb: seq<(K, V)>)
    requires 0 <= b < |table|
    ensures NonEmptyCount(table[b := nb]) + (if table[b] != [] then 1 else 0)
         == NonEmptyCount(table) + (if nb != [] then 1 else 0)
  {
    var n := |table|;
    var t2 := table[b := nb];
    if b < n - 1 {
      assert t2[..n - 1] == table[..n - 1][b := nb];
      NonEmptyUpdate(table[..n - 1], b, nb);
    } else {
      assert t2[..n - 1] == table[..n - 1];
    }
  }

  /** The representation invariant both tables keep: `capacity` buckets,
      every pair in the bucket of its key and agreeing with `contents`, at
      most one pair per key, every key of `contents` stored, and `items`
      the number of keys. */
  ghost predicate Inv<K, V>(hash: K -> int, capacity: int, table: seq<seq<(K, V)>>,
                                contents: map<K, V>, items: int)
  {
    && capacity >= 1 && |table| == capacity && items == |contents|
    && (forall b, i :: 0 <= b < |table| && 0 <= i < |table[b]| ==>
          Slot(hash, capacity, table[b][i].0) == b && table[b][i].0 in contents
          && contents[table[b][i].0] == table[b][i].1)
    && (forall b, i, j :: 0 <= b < |table| && 0 <= i < j < |table[b]| ==> table[b][i].0 != table[b][j].0)
    && (forall k :: k in contents ==> HasKey(table[Slot(hash, capacity, k)], k))
  }

  lemma InvEmpty<K, V>(hash: K -> int, capacity: int)
    requires capacity >= 1
    ensures Inv(hash, capacity, EmptyTable<K, V>(capacity), map[], 0)
  {
  }

  /** A key is stored exactly when its own bucket holds it. */
  lemma InvHasKey<K, V>(hash: K -> int, capacity: int, table: seq<seq<(K, V)>>,
                            contents: map<K, V>, items: int, key: K)
    requires Inv(hash, capacity, table, contents, items)
    ensures HasKey(table[Slot(hash, capacity, key)], key) <==> key in contents
  {
  }

  /** Appending a new key to its bucket keeps `Inv` with one more item. */
  lemma InvAppend<K, V>(hash: K -> int, capacity: int, table: seq<seq<(K, V)>>,
                            contents: map<K, V>, items: int, key: K, value: V)
    requires Inv(hash, capacity, table, contents, items) && key !in contents
    ensures var s := Slot(hash, capacity, key);
      Inv(hash, capacity, table[s := table[s] + [(key, value)]], contents[key := value], items + 1)
  {
    AppendPlaces(hash, capacity, table, contents, items, key, value);
    AppendStored(hash, capacity, table, contents, items, key, value);
  }

  /** After the append every pair sits in its key's bucket, agrees with the
      updated contents, and no bucket holds a key twice. */
  lemma AppendPlaces<K, V>(hash: K -> int, capacity: int, table: seq<seq<(K, V)>>,
                           contents: map<K, V>, items: int, key: K, value: V)
    requires Inv(hash, capacity, table, contents, items) && key !in contents
    ensures var s := Slot(hash, capacity, key);
      var t2, c2 := table[s := table[s] + [(key, value)]], contents[key := value];
      && (forall b, i :: 0 <= b < |t2| && 0 <= i < |t2[b]| ==>
            Slot(hash, capacity, t2[b][i].0) == b && t2[b][i].0 in c2 && c2[t2[b][i].0] == t2[b][i].1)
      && (forall b, i, j :: 0 <= b < |t2| && 0 <= i < j < |t2[b]| ==> t2[b][i].0 != t2[b][j].0)
  {
    var s := Slot(hash, capacity, key);
    var t2: seq<seq<(K, V)>> := table[s := table[s] + [(key, value)]];
    forall b, i | 0 <= b < |t2| && 0 <= i < |t2[b]|
      ensures t2[b][i] == if b == s && i == |table[s]| then (key, value) else table[b][i]
    {
    }
  }

  /** After the append every key of the updated contents is in its bucket. */
  lemma AppendStored<K, V>(hash: K -> int, capacity: int, table: seq<seq<(K, V)>>,
                           contents: map<K, V>, items: int, key: K, value: V)
    requires Inv(hash, capacity, table, contents, items) && key !in contents
    ensures var s := Slot(hash, capacity, key);
      var t2, c2 := table[s := table[s] + [(key, value)]], contents[key := value];
      forall k :: k in c2 ==> HasKey(t2[Slot(hash, capacity, k)], k)
  {
    var s := Slot(hash, capacity, key);
    var t2: seq<seq<(K, V)>> := table[s := table[s] + [(key, value)]];
    forall k | k in contents[key := value]
      ensures HasKey(t2[Slot(hash, capacity, k)], k)
    {
      if k == key {
        assert t2[s][|table[s]|].0 == key;
      } else {
        var i :| 0 <= i < |table[Slot(hash, capacity, k)]| && table[Slot(hash, capacity, k)][i].0 == k;
        assert t2[Slot(hash, capacity, k)][i].0 == k;
      }
    }
  }

  /** Overwriting the pair of a stored key keeps `Inv` and the item count. */
  lemma InvReplace<K, V>(hash: K -> int, capacity: int, table: seq<seq<(K, V)>>,
                             contents: map<K, V>, items: int, key: K, value: V)
    requires Inv(hash, capacity, table, contents, items) && key in contents
    ensures var s := Slot(hash, capacity, key);
      Inv(hash, capacity, table[s := Replaced(table[s], key, value)], contents[key := value], items)
  {
    var c2 := contents[key := value];
    assert c2.Keys == contents.Keys;
    ReplacePlaces(hash, capacity, table, contents, items, key, value);
    ReplaceDistinct(hash, capacity, table, contents, items, key, value);
    ReplaceStored(hash, capacity, table, contents, items, key, value);
  }

  /** After the overwrite every pair still sits in its key's bucket and
      agrees with the updated contents. */
  lemma ReplacePlaces<K, V>(hash: K -> int, capacity: int, table: seq<seq<(K, V)>>,
                            contents: map<K, V>, items: int, key: K, value: V)
    requires Inv(hash, capacity, table, contents, items) && key in contents
    ensures var s := Slot(hash, capacity, key);
      var t2, c2 := table[s := Replaced(table[s], key, value)], contents[key := value];
      forall b, i :: 0 <= b < |t2| && 0 <= i < |t2[b]| ==>
        Slot(hash, capacity, t2[b][i].0) == b && t2[b][i].0 in c2 && c2[t2[b][i].0] == t2[b][i].1
  {
    var s := Slot(hash, capacity, key);
    var t2: seq<seq<(K, V)>> := table[s := Replaced(table[s], key, value)];
    forall b, i | 0 <= b < |t2| && 0 <= i < |t2[b]|
      ensures t2[b][i] == if b == s && table[b][i].0 == key then (key, value) else table[b][i]
    {
    }
  }

  /** After the overwrite no bucket holds a key twice. */
  lemma ReplaceDistinct<K, V>(hash: K -> int, capacity: int, table: seq<seq<(K, V)>>,
                              contents: map<K, V>, items: int, key: K, value: V)
    requires Inv(hash, capacity, table, contents, items) && key in contents
    ensures var s := Slot(hash, capacity, key);
      var t2 := table[s := Replaced(table[s], key, value)];
      forall b, i, j :: 0 <= b < |t2| && 0 <= i < j < |t2[b]| ==> t2[b][i].0 != t2[b][j].0
  {
    var s := Slot(hash, capacity, key);
    var t2: seq<seq<(K, V)>> := table[s := Replaced(table[s], key, value)];
    forall b, i | 0 <= b < |t2| && 0 <= i < |t2[b]|
      ensures t2[b][i].0 == table[b][i].0
    {
    }
  }

  /** After the overwrite every stored key is still in its bucket. */
  lemma ReplaceStored<K, V>(hash: K -> int, capacity: int, table: seq<seq<(K, V)>>,
                            contents: map<K, V>, items: int, key: K, value: V)
    requires Inv(hash, capacity, table, contents, items) && key in contents
    ensures var s := Slot(hash, capacity, key);
      var t2, c2 := table[s := Replaced(table[s], key, value)], contents[key := value];
      forall k :: k in c2 ==> HasKey(t2[Slot(hash, capacity, k)], k)
  {
    var s := Slot(hash, capacity, key);
    var t2: seq<seq<(K, V)>> := table[s := Replaced(table[s], key, value)];
    forall k | k in contents[key := value]
      ensures HasKey(t2[Slot(hash, capacity, k)], k)
    {
      var i :| 0 <= i < |table[Slot(hash, capacity, k)]| && table[Slot(hash, capacity, k)][i].0 == k;
      assert t2[Slot(hash, capacity, k)][i].0 == k;
    }
  }

  /** Pair `(c, i)` of `table` comes before position `(b, j)` in the order
      in which `double` walks the old table. */
  ghost predicate Processed<K, V>(table: seq<seq<(K, V)>>, b: int, j: int, k: K) {
    exists c, i :: 0 <= c < |table| && 0 <= i < |table[c]| && (c < b || (c == b && i < j)) && table[c][i].0 == k
  }

  /** What `double` has rebuilt after walking the old table up to bucket
      `b`, pair `j`: the pairs walked over, inserted in order. */
  ghost function Rebuilt<K, V>(table: seq<seq<(K, V)>>, b: int, j: int): map<K, V>
    requires 0 <= b <= |table| && 0 <= j && (b < |table| ==> j <= |table[b]|) && (b == |table| ==> j == 0)
    decreases b, j
  {
    if j > 0 then Rebuilt(table, b, j - 1)[table[b][j - 1].0 := table[b][j - 1].1]
    else if b == 0 then map[]
    else Rebuilt(table, b - 1, |table[b - 1]|)
  }

  /** The keys rebuilt are exactly those walked over. */
  lemma {:induction false} RebuiltKeys<K, V>(table: seq<seq<(K, V)>>, b: int, j: int, k: K)
    requires 0 <= b <= |table| && 0 <= j && (b < |table| ==> j <= |table[b]|) && (b == |table| ==> j == 0)
    ensures k in Rebuilt(table, b, j) <==> Processed(table, b, j, k)
    decreases b, j
  {
    if j > 0 {
      RebuiltKeys(table, b, j - 1, k);
      if Processed(table, b, j, k) && table[b][j - 1].0 != k {
        var c, i :| 0 <= c < |table| && 0 <= i < |table[c]| && (c < b || (c == b && i < j)) && table[c][i].0 == k;
        assert Processed(table, b, j - 1, k);
      }
    } else if b > 0 {
      RebuiltKeys(table, b - 1, |table[b - 1]|, k);
      if Processed(table, b, 0, k) {
        var c, i :| 0 <= c < |table| && 0 <= i < |table[c]| && (c < b || (c == b && i < 0)) && table[c][i].0 == k;
        assert Processed(table, b - 1, |table[b - 1]|, k);
      }
    }
  }

  /** Under `Inv`, the rebuilt map agrees with the old contents on its keys,
      and the next pair to walk over carries a key not rebuilt yet. */
  lemma {:induction false} RebuiltAgrees<K, V>(hash: K -> int, capacity: int, table: seq<seq<(K, V)>>,
                                               contents: map<K, V>, items: int, b: int, j: int)
    requires Inv(hash, capacity, table, contents, items)
    requires 0 <= b <= |table| && 0 <= j && (b < |table| ==> j <= |table[b]|) && (b == |table| ==> j == 0)
    ensures forall k :: k in Rebuilt(table, b, j) ==> k in contents && Rebuilt(table, b, j)[k] == contents[k]
    ensures b < |table| && j < |table[b]| ==> table[b][j].0 !in Rebuilt(table, b, j)
    decreases b, j
  {
    if j > 0 {
      RebuiltAgrees(hash, capacity, table, contents, items, b, j - 1);
    } else if b > 0 {
      RebuiltAgrees(hash, capacity, table, contents, items, b - 1, |table[b - 1]|);
    }
    if b < |table| && j < |table[b]| {
      RebuiltKeys(table, b, j, table[b][j].0);
    }
  }

  /** Once every bucket is walked the rebuilt map is the old contents. */
  lemma RebuiltAll<K, V>(hash: K -> int, capacity: int, table: seq<seq<(K, V)>>,
                         contents: map<K, V>, items: int)
    requires Inv(hash, capacity, table, contents, items)
    ensures Rebuilt(table, |table|, 0) == contents
  {
    RebuiltAgrees(hash, capacity, table, contents, items, |table|, 0);
    forall k | k in contents
      ensures k in Rebuilt(table, |table|, 0)
    {
      var s := Slot(hash, capacity, k);
      var i :| 0 <= i < |table[s]| && table[s][i].0 == k;
      assert Processed(table, |table|, 0, k);
      RebuiltKeys(table, |table|, 0, k);
    }
  }

  /** A sub-map is no larger. */
  lemma {:induction false} SubsetSize<T>(a: set<T>, b: set<T>)
    requires a <= b
    ensures |a| <= |b|
    decreases a
  {
    if a != {} {
      assert exists x :: x in a by {
        if forall x :: x !in a { assert false; }
      }
      var x :| x in a;
      SubsetSize(a - {x}, b - {x});
    }
  }
}
