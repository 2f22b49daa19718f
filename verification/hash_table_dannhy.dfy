/** The chained hash table of hash_table/Dannhy_Heap_Version/hash_table_implementation.py.
    Python's `hash` is the function `hash` fixed at construction; the float
    density test `items / capacity > 0.7` is the exact `10 * items > 7 * capacity`.
    Unlike the other table, `double` resets `collisions`, so a collision is
    counted exactly once for every pair beyond the first of a bucket. */
module HashTableDannhy {
  import opened HashBuckets

  class HashTable<K(==), V(==)> {
    const hash: K -> int
    var capacity: int
    var collisions: int
    var items: int
    var table: seq<seq<(K, V)>>
    /** The key/value mapping the buckets represent. */
    ghost var contents: map<K, V>

    /** The buckets represent `contents`, and every stored pair is either
        the first of its bucket or a counted collision. */
    ghost predicate Consistent()
      reads this
    {
      && Inv(hash, capacity, table, contents, items)
      && collisions + NonEmptyCount(table) == items
    }

    /** Between operations the density is at most 0.7. */
    ghost predicate Valid()
      reads this
    {
      Consistent() && 10 * items <= 7 * capacity
    }

    /** `__init__`: `capacity` empty buckets, no items, no collisions. The
        source divides by the capacity later, so it must be positive. */
    constructor(hash: K -> int, capacity: int)
      requires capacity >= 1
      ensures Valid() && contents == map[]
      ensures this.hash == hash && this.capacity == capacity
      ensures table == EmptyTable(capacity) && items == 0 && collisions == 0
    {
      this.hash := hash;
      this.capacity, this.collisions, this.items := capacity, 0, 0;
      this.table := EmptyTable(capacity);
      this.contents := map[];
      NonEmptyEmpty<K, V>(capacity);
    }

    /** Lines 70-82 of `__setitem__`: the pairs of `key` in its bucket are
        overwritten, and `(key, value)` is appended, counting an item and,
        if the bucket was not empty, a collision, when it is not in the
        bucket afterwards, which is exactly when the key was new. */
    method Store(key: K, value: V)
      requires Consistent()
      modifies this
      ensures Consistent()
      ensures capacity == old(capacity)
      ensures contents == old(contents)[key := value]
      ensures var s := Slot(hash, capacity, key);
        if key in old(contents) then
          && table == old(table)[s := Replaced(old(table)[s], key, value)]
          && items == old(items) && collisions == old(collisions)
        else
          && table == old(table)[s := old(table)[s] + [(key, value)]]
          && items == old(items) + 1
          && collisions == old(collisions) + (if old(table)[s] != [] then 1 else 0)
    {
      InvHasKey(hash, capacity, table, contents, items, key);
      var s := hash(key) % capacity;
      var bucket := table[s];
      ReplacedHolds(bucket, key, value);
      if HasKey(bucket, key) {
        InvReplace(hash, capacity, table, contents, items, key, value);
        NonEmptyUpdate(table, s, Replaced(bucket, key, value));
      } else {
        assert Replaced(bucket, key, value) == bucket;
        InvAppend(hash, capacity, table, contents, items, key, value);
        NonEmptyUpdate(table, s, bucket + [(key, value)]);
      }
      bucket := Overwrite(bucket, key, value);
      if (key, value) !in bucket {
        bucket := bucket + [(key, value)];
        items := items + 1;
        if |bucket| > 1 {
          collisions := collisions + 1;
        }
      }
      table := table[s := bucket];
      contents := contents[key := value];
    }

    /** `__setitem__`: stores the pair and doubles the table when the density
        then exceeds 0.7, so the density bound holds again afterwards. */
    method SetItem(key: K, value: V)
      requires Valid()
      modifies this
      ensures Valid()
      ensures contents == old(contents)[key := value]
      ensures capacity == if 10 * |contents| > 7 * old(capacity) then 2 * old(capacity) else old(capacity)
    {
      Store(key, value);
      if 10 * items > 7 * capacity {
        Double();
      }
    }

    /** `double`: twice the buckets, items and collisions reset, and every
        pair re-inserted in bucket order, so the mapping and the item count
        are kept. The re-insertions never trigger a second doubling. */
    method Double()
      requires Consistent() && 10 * items <= 14 * capacity
      modifies this
      ensures Valid()
      ensures capacity == 2 * old(capacity)
      ensures contents == old(contents) && items == old(items)
    {
      var oldTable := table;
      assert Inv(hash, capacity, oldTable, contents, items);
      ghost var oldContents := contents;
      ghost var oldCapacity := capacity;
      ghost var oldItems := items;
      items, collisions := 0, 0;
      capacity := capacity * 2;
      table := EmptyTable(capacity);
      contents := map[];
      NonEmptyEmpty<K, V>(capacity);
      var b := 0;
      while b < |oldTable|
        invariant 0 <= b <= |oldTable|
        invariant capacity == 2 * oldCapacity
        invariant Inv(hash, capacity, table, contents, items)
        invariant collisions + NonEmptyCount(table) == items
        invariant contents == Rebuilt(oldTable, b, 0)
      {
        ReinsertBucket(oldTable, b, oldContents, oldCapacity, oldItems);
        b := b + 1;
      }
      RebuiltAll(hash, oldCapacity, oldTable, oldContents, oldItems);
    }

    /** The inner loop of `double`: re-inserts the pairs of old bucket `b`,
        each by `__setitem__`, whose density test stays false. */
    method ReinsertBucket(oldTable: seq<seq<(K, V)>>, b: int, ghost oldContents: map<K, V>,
                          ghost oldCapacity: int, ghost oldItems: int)
      requires Inv(hash, oldCapacity, oldTable, oldContents, oldItems)
      requires 10 * oldItems <= 14 * oldCapacity && 0 <= b < |oldTable|
      requires capacity == 2 * oldCapacity
      requires Consistent()
      requires contents == Rebuilt(oldTable, b, 0)
      modifies this
      ensures capacity == old(capacity)
      ensures Consistent()
      ensures contents == Rebuilt(oldTable, b + 1, 0)
    {
      var j := 0;
      while j < |oldTable[b]|
        invariant 0 <= j <= |oldTable[b]|
        invariant capacity == 2 * oldCapacity
        invariant Consistent()
        invariant contents == Rebuilt(oldTable, b, j)
      {
        var item := oldTable[b][j];
        RebuiltAgrees(hash, oldCapacity, oldTable, oldContents, oldItems, b, j + 1);
        Store(item.0, item.1);
        assert contents.Keys <= oldContents.Keys;
        SubsetSize(contents.Keys, oldContents.Keys);
        if 10 * items > 7 * capacity {
          assert false;
        }
        j := j + 1;
      }
    }
  }

  /** The `__setitem__` doctest: whatever the hash, a table of capacity 2
      given the keys "one" and "two" has capacity 4. */
  method SetItemDoctest(hash: string -> int) returns (before: int, after: int)
    ensures before == 2 && after == 4
  {
    var ht := new HashTable<string, int>(hash, 2);
    before := ht.capacity;
    ht.SetItem("one", 1);
    ht.SetItem("two", 2);
    after := ht.capacity;
  }
}
