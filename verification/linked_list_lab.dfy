/** The singly-linked list with `front`, `back` and `size` of
    Labs/lab4/ex.py. Values are compared with `==` of the element type. */
module LinkedListLab {
  import opened Wrappers

  /** `LinkedListNode`: a value and a successor. */
  class Node<T> {
    var value: T
    var next: Node?<T>

    constructor(value: T, next: Node?<T>)
      ensures this.value == value && this.next == next
    {
      this.value := value;
      this.next := next;
    }
  }

  /** The index of the first occurrence of `x` in `vs`, or `|vs|` when there
      is none. */
  function FirstIndex<T(==)>(vs: seq<T>, x: T): (i: nat)
    ensures i <= |vs|
    ensures i < |vs| <==> x in vs
    ensures i < |vs| ==> vs[i] == x
    ensures forall j :: 0 <= j < i ==> vs[j] != x
  {
    if vs == [] then 0
    else if vs[0] == x then 0
    else 1 + FirstIndex(vs[1..], x)
  }

  /** Python's list indexing: the reference the index operations of the
      linked list are compared with. Negative indices count from the end. */
  function PyGet<T>(vs: seq<T>, index: int): Result<T> {
    if index >= |vs| || index < -|vs| then Err(IndexError)
    else if index >= 0 then Ok(vs[index])
    else Ok(vs[|vs| + index])
  }

  /** Python's `vs[index] = v` on a list of values. */
  function PySet<T>(vs: seq<T>, index: int, v: T): Result<seq<T>> {
    if index >= |vs| || index < -|vs| then Err(IndexError)
    else if index >= 0 then Ok(vs[index := v])
    else Ok(vs[|vs| + index := v])
  }

  /** Index `p - |vs|` names the same position as `p`, for reading and for
      writing, and a write followed by a read of that position gives back
      what was written. */
  lemma NegativeIndexFromEnd<T>(vs: seq<T>, p: int, v: T)
    requires 0 <= p < |vs|
    ensures PyGet(vs, p - |vs|) == PyGet(vs, p) == Ok(vs[p])
    ensures PySet(vs, p - |vs|, v) == PySet(vs, p, v)
    ensures PyGet(PySet(vs, p, v).value, p) == Ok(v)
    ensures PySet(vs, p, v).value[..p] == vs[..p]
    ensures PySet(vs, p, v).value[p + 1..] == vs[p + 1..]
  {
  }

  /** Splicing `n` in after `ns[k]`, whose successors are otherwise as
      before, gives a chain of distinct nodes. */
  lemma SpliceLinks<T>(ns: seq<Node<T>>, k: nat, n: Node<T>)
    requires k + 1 < |ns| && n !in ns
    requires forall i, j :: 0 <= i < j < |ns| ==> ns[i] != ns[j]
    requires forall i :: 0 <= i < |ns| - 1 && i != k ==> ns[i].next == ns[i + 1]
    requires ns[k].next == n && n.next == ns[k + 1]
    ensures var nodes := ns[..k + 1] + [n] + ns[k + 1..];
      && (forall i :: 0 <= i < |nodes| - 1 ==> nodes[i].next == nodes[i + 1])
      && (forall i, j :: 0 <= i < j < |nodes| ==> nodes[i] != nodes[j])
  {
    var nodes := ns[..k + 1] + [n] + ns[k + 1..];
    assert forall i :: 0 <= i < |nodes| ==> nodes[i] == if i <= k then ns[i] else if i == k + 1 then n else ns[i - 1];
  }

  /** The values of the spliced chain are the values spliced the same way. */
  lemma SpliceValues<T>(ns: seq<Node<T>>, cs: seq<T>, k: nat, n: Node<T>)
    requires k + 1 < |ns| == |cs|
    requires forall i :: 0 <= i < |ns| ==> ns[i].value == cs[i]
    ensures var nodes, vs := ns[..k + 1] + [n] + ns[k + 1..], cs[..k + 1] + [n.value] + cs[k + 1..];
      forall i :: 0 <= i < |nodes| ==> nodes[i].value == vs[i]
  {
    var nodes, vs := ns[..k + 1] + [n] + ns[k + 1..], cs[..k + 1] + [n.value] + cs[k + 1..];
    assert forall i :: 0 <= i < |nodes| ==> nodes[i] == if i <= k then ns[i] else if i == k + 1 then n else ns[i - 1];
    assert forall i :: 0 <= i < |nodes| ==> vs[i] == if i <= k then cs[i] else if i == k + 1 then n.value else cs[i - 1];
  }

  /** `LinkedList`. The ghost `nodes` lists the nodes from `front` to `back`
      and `contents` their values. */
  class LinkedList<T(==)> {
    var front: Node?<T>
    var back: Node?<T>
    var size: int
    ghost var nodes: seq<Node<T>>
    ghost var contents: seq<T>

    /** `size` counts the nodes reachable from `front`; `front`, `back`
        and `size` are all empty together; `back` is the last node. */
    ghost predicate Valid()
      reads this, nodes
    {
      && size == |nodes| == |contents|
      && (size == 0 ==> front == null && back == null)
      && (size > 0 ==> front == nodes[0] && back == nodes[size - 1] && back.next == null)
      && (forall i :: 0 <= i < size - 1 ==> nodes[i].next == nodes[i + 1])
      && (forall i :: 0 <= i < size ==> nodes[i].value == contents[i])
      && (forall i, j :: 0 <= i < j < size ==> nodes[i] != nodes[j])
    }

    /** `__init__`: an empty list. */
    constructor()
      ensures Valid() && contents == [] && nodes == []
      ensures front == null && back == null && size == 0
    {
      front, back, size := null, null, 0;
      nodes, contents := [], [];
    }

    /** `__len__`. */
    method Len() returns (n: int)
      requires Valid()
      ensures n == |contents|
    {
      n := size;
    }

    /** `append`: the value goes last; on an empty list the new node is both
        `front` and `back`. */
    method Append(value: T)
      requires Valid()
      modifies this, nodes
      ensures Valid()
      ensures contents == old(contents) + [value]
      ensures size == old(size) + 1 && fresh(back)
      ensures old(size) == 0 ==> front == back
      ensures old(size) > 0 ==> front == old(front)
    {
      var n := new Node(value, null);
      if size == 0 {
        front, back := n, n;
      } else {
        back.next := n;
        back := n;
      }
      size := size + 1;
      nodes := nodes + [n];
      contents := contents + [value];
    }

    /** `prepend`: the value goes first; on an empty list the new node is
        also `back`. */
    method Prepend(value: T)
      requires Valid()
      modifies this
      ensures Valid()
      ensures contents == [value] + old(contents)
      ensures size == old(size) + 1 && fresh(front)
      ensures old(size) == 0 ==> back == front
      ensures old(size) > 0 ==> back == old(back)
    {
      var n := new Node(value, front);
      front := n;
      if size == 0 {
        back := n;
      }
      size := size + 1;
      nodes := [n] + nodes;
      contents := [value] + contents;
    }

    /** `delete_front`, with the emptiness test on `back` made by identity:
        the first value goes, and `back` is cleared when the list empties.
        The source assumes a non-empty list. */
    method DeleteFront()
      requires Valid() && size > 0
      modifies this
      ensures Valid()
      ensures contents == old(contents)[1..]
      ensures size == old(size) - 1
      ensures size == 0 ==> back == null
    {
      if front == back {
        back := null;
      }
      front := front.next;
      size := size - 1;
      nodes := nodes[1..];
      contents := contents[1..];
    }

    /** `delete_front` as written: `self.front == self.back` calls the node
        `__eq__`, which compares values, so `back` is also cleared when the
        first and last values are merely equal. */
    method DeleteFrontAsWritten()
      requires Valid() && size > 0
      modifies this
      ensures front == old(front.next) && size == old(size) - 1
      ensures back == (if old(front.value == back.value) then null else old(back))
    {
      if front.value == back.value {
        back := null;
      }
      front := front.next;
      size := size - 1;
    }

    /** The walk that `delete_after` makes: the first node holding `value`,
        or null. */
    method FindFirst(value: T) returns (temp: Node?<T>, ghost k: nat)
      requires Valid()
      ensures k == FirstIndex(contents, value)
      ensures temp == (if k < size then nodes[k] else null)
    {
      temp := front;
      k := 0;
      while temp != null && temp.value != value
        invariant 0 <= k <= size
        invariant temp == (if k < size then nodes[k] else null)
        invariant forall j :: 0 <= j < k ==> contents[j] != value
        decreases size - k
      {
        temp := temp.next;
        k := k + 1;
      }
    }

    /** Unlinks the node after `nodes[k]`, moving `back` when that node was
        the last. */
    method RemoveAfter(temp: Node<T>, ghost k: nat)
      requires Valid() && k + 1 < size && temp == nodes[k]
      modifies this, nodes
      ensures Valid()
      ensures contents == old(contents)[..k + 1] + old(contents)[k + 2..]
      ensures size == old(size) - 1
    {
      ghost var ns := nodes;
      assert temp.next == ns[k + 1];
      assert ns[k + 1].next == (if k + 2 < |ns| then ns[k + 2] else null);
      temp.next := temp.next.next;
      size := size - 1;
      if temp.next == null {
        back := temp;
      }
      nodes := nodes[..k + 1] + nodes[k + 2..];
      contents := contents[..k + 1] + contents[k + 2..];
      assert forall i :: 0 <= i < |nodes| ==> nodes[i] == if i <= k then ns[i] else ns[i + 1];
      assert forall i :: 0 <= i < |nodes| && i != k ==> nodes[i] != temp;
    }

    /** Links a new node holding `value` after `nodes[k]`. */
    method InsertAfter(temp: Node<T>, ghost k: nat, value: T)
      requires Valid() && k + 1 < size && temp == nodes[k]
      modifies this, nodes
      ensures Valid()
      ensures contents == old(contents)[..k + 1] + [value] + old(contents)[k + 1..]
      ensures size == old(size) + 1
    {
      ghost var ns, cs := nodes, contents;
      var n := new Node(value, temp.next);
      assert n !in ns;
      temp.next := n;
      size := size + 1;
      nodes := ns[..k + 1] + [n] + ns[k + 1..];
      contents := cs[..k + 1] + [value] + cs[k + 1..];
      assert forall i :: 0 <= i < |ns| - 1 && i != k ==> ns[i].next == ns[i + 1];
      SpliceLinks(ns, k, n);
      SpliceValues(ns, cs, k, n);
      assert front == nodes[0] && back == nodes[size - 1] && back.next == null;
    }

    /** `delete_after` as written. Nothing happens when the list has at most
        one node or lacks the value; otherwise the node after the first
        occurrence is removed, except that an occurrence in the last node
        raises AttributeError (its successor is None). */
    method DeleteAfter(value: T) returns (raised: Option<Error>)
      requires Valid()
      modifies this, nodes
      ensures Valid()
      ensures var i := FirstIndex(old(contents), value);
        if old(size) <= 1 || i == old(size) then raised == None && contents == old(contents)
        else if i == old(size) - 1 then raised == Some(AttributeError) && contents == old(contents)
        else raised == None && contents == old(contents)[..i + 1] + old(contents)[i + 2..]
    {
      if size > 1 {
        var temp, k := FindFirst(value);
        if temp != null {
          assert temp.next == null <==> k == size - 1 by {
            if k < size - 1 { assert temp.next == nodes[k + 1]; }
          }
          if temp.next == null {
            return Some(AttributeError);
          }
          RemoveAfter(temp, k);
        }
      }
      return None;
    }

    /** `delete_after` as its documentation describes it: an occurrence in
        the last node has nothing after it, and the list is left unchanged. */
    method DeleteAfterChecked(value: T)
      requires Valid()
      modifies this, nodes
      ensures Valid()
      ensures var i := FirstIndex(old(contents), value);
        if i + 1 < old(size) then contents == old(contents)[..i + 1] + old(contents)[i + 2..]
        else contents == old(contents)
    {
      if size > 1 {
        var temp, k := FindFirst(value);
        if temp != null {
          assert temp.next == null <==> k == size - 1 by {
            if k < size - 1 { assert temp.next == nodes[k + 1]; }
          }
        }
        if temp != null && temp.next != null {
          RemoveAfter(temp, k);
        }
      }
    }

    /** The walk of `__setitem__` and `__getitem__`: `steps` moves from
        `front`. */
    method NodeAt(steps: int) returns (temp: Node?<T>)
      requires Valid() && 0 <= steps <= size
      ensures temp == (if steps < size then nodes[steps] else null)
    {
      temp := front;
      var k := 0;
      while k < steps
        invariant 0 <= k <= steps
        invariant temp == (if k < size then nodes[k] else null)
      {
        temp := temp.next;
        k := k + 1;
      }
    }

    /** `__setitem__`: IndexError unless `-size <= index < size`; otherwise
        exactly the value at that position (from the end when negative)
        changes, as for a Python list, and the nodes stay linked as they were. */
    method SetItem(index: int, value: T) returns (raised: Option<Error>)
      requires Valid()
      modifies this, nodes
      ensures Valid()
      ensures nodes == old(nodes) && size == old(size) && front == old(front) && back == old(back)
      ensures raised == None <==> PySet(old(contents), index, value).Ok?
      ensures raised == None ==> contents == PySet(old(contents), index, value).value
      ensures raised != None ==> raised == Some(IndexError) && contents == old(contents)
    {
      if index >= size || index < -size {
        return Some(IndexError);
      }
      var p := if index >= 0 then index else size + index;
      var temp := NodeAt(p);
      temp.value := value;
      contents := contents[p := value];
      return None;
    }

    /** `__getitem__` as written: the range test lets `index == size`
        through, and the walk then ends on None (AttributeError); every other
        index behaves as for a Python list. */
    method GetItem(index: int) returns (r: Result<T>)
      requires Valid()
      ensures index == |contents| ==> r == Err(AttributeError)
      ensures index != |contents| ==> r == PyGet(contents, index)
    {
      if -size > index || index > size {
        return Err(IndexError);
      }
      var p := if index < 0 then index + size else index;
      var current := NodeAt(p);
      if current == null {
        return Err(AttributeError);
      }
      return Ok(current.value);
    }

    /** `__getitem__` with the range test `index >= size`: exactly Python's
        list indexing. */
    method GetItemChecked(index: int) returns (r: Result<T>)
      requires Valid()
      ensures r == PyGet(contents, index)
    {
      if -size > index || index >= size {
        return Err(IndexError);
      }
      var p := if index < 0 then index + size else index;
      var current := NodeAt(p);
      return Ok(current.value);
    }

    /** `insert_before`: raises on an empty list; otherwise puts `value1`
        just before the first occurrence of `value2`, or changes nothing when
        there is none. */
    method InsertBefore(value1: T, value2: T) returns (raised: Option<Error>)
      requires Valid()
      modifies this, nodes
      ensures Valid()
      ensures old(size) == 0 ==> raised == Some(PlainException) && contents == old(contents)
      ensures old(size) > 0 ==> raised == None
      ensures old(size) > 0 ==> var i := FirstIndex(old(contents), value2);
        contents == if i < old(size) then old(contents)[..i] + [value1] + old(contents)[i..] else old(contents)
    {
      if size == 0 {
        return Some(PlainException);
      }
      if front.value == value2 {
        front := new Node(value1, front);
        size := size + 1;
        nodes := [front] + nodes;
        contents := [value1] + contents;
        return None;
      }
      var temp := front;
      ghost var k := 0;
      while temp.next != null && temp.next.value != value2
        invariant 0 <= k < size && temp == nodes[k]
        invariant temp.next == (if k + 1 < size then nodes[k + 1] else null)
        invariant forall j :: 0 <= j <= k ==> contents[j] != value2
        decreases size - k
      {
        temp := temp.next;
        k := k + 1;
      }
      if temp.next != null {
        InsertAfter(temp, k, value1);
      }
      return None;
    }

    /** `__contains__`: whether some node holds the value. */
    method Contains(value: T) returns (found: bool)
      requires Valid()
      ensures found <==> value in contents
    {
      var current := front;
      ghost var k := 0;
      while current != null
        invariant 0 <= k <= size
        invariant current == (if k < size then nodes[k] else null)
        invariant value !in contents[..k]
        decreases size - k
      {
        if current.value == value {
          return true;
        }
        assert contents[..k + 1] == contents[..k] + [current.value];
        current := current.next;
        k := k + 1;
      }
      assert contents[..k] == contents;
      return false;
    }

    /** `__eq__`: `other` is null when it is not a LinkedList at all. Equal
        sizes and pairwise-equal values, nodes being compared by value. */
    method Equal(other: LinkedList?<T>) returns (result: bool)
      requires Valid()
      requires other != null ==> other.Valid()
      ensures result <==> other != null && contents == other.contents
    {
      result := other != null && size == other.size;
      var temp1, temp2 := front, if result then other.front else null;
      ghost var k := 0;
      while result && temp1 != null && temp2 != null
        invariant result ==> other != null && size == other.size && 0 <= k <= size
        invariant result ==> temp1 == (if k < size then nodes[k] else null)
        invariant result ==> temp2 == (if k < size then other.nodes[k] else null)
        invariant result ==> contents[..k] == other.contents[..k]
        invariant !result ==> !(other != null && contents == other.contents)
        decreases if result then size - k + 1 else 0
      {
        if temp1.value != temp2.value {
          result := false;
        }
        assert contents[..k + 1] == contents[..k] + [contents[k]];
        assert other.contents[..k + 1] == other.contents[..k] + [other.contents[k]];
        temp1, temp2 := temp1.next, temp2.next;
        k := k + 1;
      }
      if result {
        assert contents[..k] == contents && other.contents[..k] == other.contents;
      }
    }
  }

  /** `delete_front` as written on 5, 3, 5: the list keeps two nodes but
      loses its `back`. */
  method DeleteFrontCounterexample() returns (size: int, backCleared: bool)
    ensures size == 2 && backCleared
  {
    var lnk := new LinkedList<int>();
    lnk.Append(5);
    lnk.Append(3);
    lnk.Append(5);
    lnk.DeleteFrontAsWritten();
    size, backCleared := lnk.size, lnk.back == null;
  }

  /** `__getitem__` as written on the one-element list 1 with index 1. */
  method GetItemCounterexample() returns (r: Result<int>, checked: Result<int>)
    ensures r == Err(AttributeError) && checked == Err(IndexError)
  {
    var lnk := new LinkedList<int>();
    lnk.Append(1);
    r := lnk.GetItem(1);
    checked := lnk.GetItemChecked(1);
  }

  /** `delete_after(2)` as written on 1, 2, where 2 is the last value. */
  method DeleteAfterCounterexample() returns (raised: Option<Error>, length: int, second: Result<int>)
    ensures raised == Some(AttributeError) && length == 2 && second == Ok(2)
  {
    var lnk := new LinkedList<int>();
    lnk.Append(1);
    lnk.Append(2);
    raised := lnk.DeleteAfter(2);
    length := lnk.Len();
    second := lnk.GetItemChecked(1);
  }
}
