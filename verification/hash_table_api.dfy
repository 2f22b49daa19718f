/** The chained hash table of hash_table/hash_table_API.py. Python's `hash`
    is the function `hash` fixed at construction; the float density test
    `items / capacity > 0.7` is the exact `10 * items > 7 * capacity`. */
module HashTableApi {
  import opened Wrappers
  import opened HashBuckets

  class HashTable<K(==), V> {
    const hash: K -> int
    var capacity: int
    var collisions: int
    var items: int
    var table: seq<seq<(K, V)>>
    /** The key/value mapping the buckets represent. */
    ghost var contents: map<K, V>

    /** The buckets represent `contents`; `collisions` never falls below the
        pairs beyond the first of each bucket (it is not reset by
        `double`). */
    ghost predicate Consistent()
      reads this
    {
      && Inv(hash, capacity, table, contents, items)
      && collisions >= 0
      && collisions + NonEmptyCount(table) >= items
    }

    /** Between operations the density is at most 0.7. */
    ghost predicate Valid()
      reads this
    {
      Consistent() && 10 * items <= 7 * capacity
    }

    /** `__init__`: `capacity` empty buckets, no items, no collisions. The
        source divides by the capacity later, so it must be positive. */
    constructor(hash: K -> int, capacity: int)
      requires capacity >= 1
      ensures Valid() && contents == map[]
      ensures this.hash == hash && this.capacity == capacity
      ensures table == EmptyTable(capacity) && items == 0 && collisions == 0
    {
      this.hash := hash;
      this.capacity, this.collisions, this.items := capacity, 0, 0;
      this.table := EmptyTable(capacity);
      this.contents := map[];
      NonEmptyEmpty<K, V>(capacity);
    }

    /** `__contains__`: whether `key` is stored, looking only in its bucket. */
    predicate Contains(key: K)
      requires Valid()
      reads this
      ensures Contains(key) <==> key in contents
    {
      InvHasKey(hash, capacity, table, contents, items, key);
      HasKey(table[hash(key) % capacity], key)
    }

    /** Lines 73-86 of `insert`: a new key is appended to its bucket, counting
        a collision when the bucket already held something; a stored key has
        its pair overwritten in place. */
    method Place(key: K, value: V)
      requires Consistent()
      modifies this
      ensures Consistent()
      ensures capacity == old(capacity)
      ensures contents == old(contents)[key := value]
      ensures collisions + NonEmptyCount(table) == old(collisions + NonEmptyCount(table)) + (items - old(items))
      ensures var s := Slot(hash, capacity, key);
        if key in old(contents) then
          && table == old(table)[s := Replaced(old(table)[s], key, value)]
          && items == old(items) && collisions == old(collisions)
        else
          && table == old(table)[s := old(table)[s] + [(key, value)]]
          && items == old(items) + 1
          && collisions == old(collisions) + (if old(table)[s] != [] then 1 else 0)
    {
      InvHasKey(hash, capacity, table, contents, items, key);
      var s := hash(key) % capacity;
      var bucket := table[s];
      if !HasKey(bucket, key) {
        InvAppend(hash, capacity, table, contents, items, key, value);
        NonEmptyUpdate(table, s, bucket + [(key, value)]);
        bucket := bucket + [(key, value)];
        table := table[s := bucket];
        items := items + 1;
        if |bucket| > 1 {
          collisions := collisions + 1;
        }
      } else {
        InvReplace(hash, capacity, table, contents, items, key, value);
        NonEmptyUpdate(table, s, Replaced(bucket, key, value));
        bucket := Overwrite(bucket, key, value);
        table := table[s := bucket];
      }
      contents := contents[key := value];
    }

    /** `insert`: stores the pair and doubles the table when the density
        then exceeds 0.7, so the density bound holds again afterwards. */
    method Insert(item: (K, V))
      requires Valid()
      modifies this
      ensures Valid()
      ensures contents == old(contents)[item.0 := item.1]
      ensures capacity == if 10 * |contents| > 7 * old(capacity) then 2 * old(capacity) else old(capacity)
      ensures item.0 in old(contents) ==> items == old(items) && collisions == old(collisions)
      ensures item.0 !in old(contents) ==> items == old(items) + 1 && collisions >= old(collisions)
    {
      Place(item.0, item.1);
      if 10 * items > 7 * capacity {
        Double();
      }
    }

    /** `double`: twice the buckets, every pair re-inserted in bucket order;
        the mapping and the item count are kept and `collisions` keeps
        counting from where it was. The re-insertions never trigger a
        second doubling. */
    method Double()
      requires Consistent() && 10 * items <= 14 * capacity
      modifies this
      ensures Valid()
      ensures capacity == 2 * old(capacity)
      ensures contents == old(contents) && items == old(items)
      ensures collisions >= old(collisions)
    {
      var tmpTable := table;
      ghost var oldContents := contents;
      ghost var oldCollisions := collisions;
      ghost var oldCapacity := capacity;
      ghost var oldItems := items;
      capacity := capacity * 2;
      items := 0;
      table := EmptyTable(capacity);
      contents := map[];
      NonEmptyEmpty<K, V>(capacity);
      var b := 0;
      while b < |tmpTable|
        invariant 0 <= b <= |tmpTable|
        invariant capacity == 2 * oldCapacity
        invariant Inv(hash, capacity, table, contents, items)
        invariant collisions + NonEmptyCount(table) == items + oldCollisions && collisions >= oldCollisions
        invariant contents == Rebuilt(tmpTable, b, 0)
      {
        ReinsertBucket(tmpTable, b, oldContents, oldCapacity, oldItems, oldCollisions);
        b := b + 1;
      }
      RebuiltAll(hash, oldCapacity, tmpTable, oldContents, oldItems);
    }

    /** The inner loop of `double`: re-inserts the pairs of old bucket `b`,
        each by the bucket step of `insert`, whose density test stays
        false. */
    method ReinsertBucket(tmpTable: seq<seq<(K, V)>>, b: int, ghost oldContents: map<K, V>,
                          ghost oldCapacity: int, ghost oldItems: int, ghost oldCollisions: int)
      requires Inv(hash, oldCapacity, tmpTable, oldContents, oldItems)
      requires 10 * oldItems <= 14 * oldCapacity && 0 <= b < |tmpTable| && oldCollisions >= 0
      requires capacity == 2 * oldCapacity
      requires Inv(hash, capacity, table, contents, items)
      requires collisions + NonEmptyCount(table) == items + oldCollisions && collisions >= oldCollisions
      requires contents == Rebuilt(tmpTable, b, 0)
      modifies this
      ensures capacity == old(capacity)
      ensures Inv(hash, capacity, table, contents, items)
      ensures collisions + NonEmptyCount(table) == items + oldCollisions && collisions >= oldCollisions
      ensures contents == Rebuilt(tmpTable, b + 1, 0)
    {
      var j := 0;
      while j < |tmpTable[b]|
        invariant 0 <= j <= |tmpTable[b]|
        invariant capacity == 2 * oldCapacity
        invariant Inv(hash, capacity, table, contents, items)
        invariant collisions + NonEmptyCount(table) == items + oldCollisions && collisions >= oldCollisions
        invariant contents == Rebuilt(tmpTable, b, j)
      {
        var item := tmpTable[b][j];
        RebuiltAgrees(hash, oldCapacity, tmpTable, oldContents, oldItems, b, j + 1);
        Place(item.0, item.1);
        assert contents.Keys <= oldContents.Keys;
        SubsetSize(contents.Keys, oldContents.Keys);
        if 10 * items > 7 * capacity {
          assert false;
        }
        j := j + 1;
      }
    }

    /** `retrieve`: the stored value, or KeyError. */
    method Retrieve(key: K) returns (r: Result<V>)
      requires Valid()
      ensures r == if key in contents then Ok(contents[key]) else Err(KeyError)
    {
      InvHasKey(hash, capacity, table, contents, items, key);
      var bucket := table[hash(key) % capacity];
      var i := 0;
      while i < |bucket|
        invariant 0 <= i <= |bucket|
        invariant forall j :: 0 <= j < i ==> bucket[j].0 != key
      {
        if key == bucket[i].0 {
          return Ok(bucket[i].1);
        }
        i := i + 1;
      }
      return Err(KeyError);
    }
  }

  /** The pairs (i, i) for i in `range(n)`, as a map. */
  function RangeMap(n: int): (m: map<int, int>)
    ensures forall k :: k in m <==> 0 <= k < n
    ensures forall k :: k in m ==> m[k] == k
    decreases n
  {
    if n <= 0 then map[] else RangeMap(n - 1)[n - 1 := n - 1]
  }

  /** `create_dict(n)`: a table of the default capacity 2 into which the
      pairs (i, i) are inserted for i in `range(n)`; it maps exactly those
      keys to themselves and keeps its density at most 0.7. */
  method CreateDict(hash: int -> int, n: int) returns (d: HashTable<int, int>)
    ensures fresh(d) && d.Valid() && d.hash == hash
    ensures d.contents == RangeMap(n)
    ensures d.items == if n < 0 then 0 else n
  {
    d := new HashTable<int, int>(hash, 2);
    var i := 0;
    while i < n
      invariant 0 <= i <= (if n < 0 then 0 else n)
      invariant fresh(d) && d.Valid() && d.hash == hash
      invariant d.contents == RangeMap(i) && d.items == i
    {
      InsertNext(d, i);
      i := i + 1;
    }
    if n < 0 {
      assert RangeMap(n) == map[] == RangeMap(i);
    }
  }

  /** One turn of `create_dict`'s loop: the pair (i, i) is a new key. */
  method InsertNext(d: HashTable<int, int>, i: nat)
    requires d.Valid() && d.contents == RangeMap(i) && d.items == i
    modifies d
    ensures d.Valid()
    ensures d.contents == RangeMap(i + 1) && d.items == i + 1
  {
    d.Insert((i, i));
  }

  /** Whatever the hash, a table of capacity 2 holding keys 0 and 1 (as
      `create_dict(2)` builds it) has doubled to capacity 4 and keeps both
      values. */
  method CreateDictTwo(hash: int -> int) returns (capacity: int, zero: Result<int>, one: Result<int>, two: Result<int>)
    ensures capacity == 4 && zero == Ok(0) && one == Ok(1) && two == Err(KeyError)
  {
    var d := new HashTable<int, int>(hash, 2);
    d.Insert((0, 0));
    d.Insert((1, 1));
    capacity := d.capacity;
    zero := d.Retrieve(0);
    one := d.Retrieve(1);
    two := d.Retrieve(2);
  }
}
