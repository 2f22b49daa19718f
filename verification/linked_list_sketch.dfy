/** The smaller linked list of miscellaneous/blabla/game.py: only `front`
    and `size`, with an index assignment and a node rendering. */
module LinkedListSketch {
  import opened Wrappers
  import LinkedListLab
  import opened PyText

  /** `LinkedListNode`: a value and a successor. */
  class Node<T> {
    var value: T
    var next: Node?<T>

    constructor(value: T, next: Node?<T>)
      ensures this.value == value && this.next == next
    {
      this.value := value;
      this.next := next;
    }

    /** `__str__`: walks from this node to the end of its chain, writing
        each value followed by " ->", and closes with "|". `show` stands for
        Python's `format` of one value; `chain` is the nodes from this one to
        the last. */
    method Str(show: T -> string, ghost chain: seq<Node<T>>) returns (s: string)
      requires Chain(chain) && chain[0] == this
      ensures s == Render(ValuesOf(chain), show)
    {
      s := show(value) + " ->";
      var current := next;
      ghost var k := 1;
      while current != null
        invariant 1 <= k <= |chain|
        invariant current == (if k < |chain| then chain[k] else null)
        invariant s == show(chain[0].value) + " ->" + Trail(ValuesOf(chain)[1..k], show)
        decreases |chain| - k
      {
        TrailSnoc(ValuesOf(chain)[1..k], current.value, show);
        assert ValuesOf(chain)[1..k + 1] == ValuesOf(chain)[1..k] + [current.value];
        s := s + " " + show(current.value) + " ->";
        current := current.next;
        k := k + 1;
      }
      assert ValuesOf(chain)[1..k] == ValuesOf(chain)[1..];
      s := s + "|";
    }
  }

  /** `chain` is a run of distinct linked nodes ending in None. */
  ghost predicate Chain<T>(chain: seq<Node<T>>)
    reads chain
  {
    && |chain| > 0
    && (forall i :: 0 <= i < |chain| - 1 ==> chain[i].next == chain[i + 1])
    && chain[|chain| - 1].next == null
    && (forall i, j :: 0 <= i < j < |chain| ==> chain[i] != chain[j])
  }

  ghost function ValuesOf<T>(chain: seq<Node<T>>): (vs: seq<T>)
    reads chain
    ensures |vs| == |chain|
    ensures forall i :: 0 <= i < |chain| ==> vs[i] == chain[i].value
  {
    if chain == [] then [] else ValuesOf(chain[..|chain| - 1]) + [chain[|chain| - 1].value]
  }

  /** " v ->" for each value. */
  function Trail<T>(vs: seq<T>, show: T -> string): string {
    if vs == [] then "" else " " + show(vs[0]) + " ->" + Trail(vs[1..], show)
  }

  lemma {:induction false} TrailSnoc<T>(vs: seq<T>, v: T, show: T -> string)
    ensures Trail(vs + [v], show) == Trail(vs, show) + " " + show(v) + " ->"
  {
    if vs != [] {
      assert (vs + [v])[1..] == vs[1..] + [v];
      TrailSnoc(vs[1..], v, show);
    }
  }

  /** The rendering `"v1 -> v2 -> ... ->|"` of a non-empty run of values. */
  function Render<T>(vs: seq<T>, show: T -> string): string
    requires vs != []
  {
    show(vs[0]) + " ->" + Trail(vs[1..], show) + "|"
  }

  /** A rendering starts with the first value and ends with "->|"; the two
      renderings of the doctest, "5 -> 7 ->|" and "1 -> 2 -> 3 ->|". */
  lemma RenderShape<T>(vs: seq<T>, show: T -> string)
    requires vs != []
    ensures Render(vs, show)[..|show(vs[0])|] == show(vs[0])
    ensures |Render(vs, show)| >= 3 && Render(vs, show)[|Render(vs, show)| - 3..] == "->|"
  {
    var r := Render(vs, show);
    if vs[1..] == [] {
      assert r == show(vs[0]) + " ->|";
    } else {
      TrailEnds(vs[1..], show);
    }
  }

  lemma {:induction false} TrailEnds<T>(vs: seq<T>, show: T -> string)
    requires vs != []
    ensures |Trail(vs, show)| >= 2 && Trail(vs, show)[|Trail(vs, show)| - 2..] == "->"
  {
    if vs[1..] != [] { TrailEnds(vs[1..], show); }
  }

  /** The renderings of the doctest before any update: "5 -> 7 ->|" and
      "1 -> 2 -> 3 ->|". */
  lemma RenderDoctest()
    ensures Render<nat>([5, 7], Decimal) == "5 -> 7 ->|"
    ensures Render<nat>([1, 2, 3], Decimal) == "1 -> 2 -> 3 ->|"
  {
    assert Decimal(5) == "5" && Decimal(7) == "7";
    var a: seq<nat> := [5, 7];
    assert a[1..] == [7] && Trail<nat>([7], Decimal) == " 7 ->";
    RenderOneTwo(3, "3");
  }

  /** The renderings after the two updates: "1 -> 2 -> 5 ->|" and
      "1 -> 2 -> 6 ->|". */
  lemma RenderSetDoctest()
    ensures Render<nat>([1, 2, 5], Decimal) == "1 -> 2 -> 5 ->|"
    ensures Render<nat>([1, 2, 6], Decimal) == "1 -> 2 -> 6 ->|"
  {
    RenderOneTwo(5, "5");
    RenderOneTwo(6, "6");
  }

  /** The rendering of 1, 2 and a one-digit value. */
  lemma RenderOneTwo(x: nat, d: string)
    requires x < 10 && d == ["0123456789"[x]]
    ensures Render<nat>([1, 2, x], Decimal) == "1 -> 2 -> " + d + " ->|"
  {
    assert Decimal(1) == "1" && Decimal(2) == "2" && Decimal(x) == d;
    var v: seq<nat> := [1, 2, x];
    assert v[1..] == [2, x] && v[1..][1..] == [x];
    var one: seq<nat> := [x];
    assert one[1..] == [];
    var t := Trail<nat>([x], Decimal);
    assert Trail<nat>([], Decimal) == "";
    assert t == " " + Decimal(x) + " ->" + Trail<nat>([], Decimal);
    assert t == " " + d + " ->" + "";
    assert t == [' ', d[0], ' ', '-', '>'];
    assert Trail<nat>([2, x], Decimal) == [' ', '2', ' ', '-', '>'] + t;
    assert Render<nat>([1, 2, x], Decimal) == ['1', ' ', '-', '>'] + [' ', '2', ' ', '-', '>'] + t + ['|'];
  }

  /** `LinkedList`: `front` and `size`; the ghost `nodes` are the nodes from
      `front` on and `contents` their values. */
  class LinkedList<T> {
    var front: Node?<T>
    var size: int
    ghost var nodes: seq<Node<T>>
    ghost var contents: seq<T>

    ghost predicate Valid()
      reads this, nodes
    {
      && size == |nodes| == |contents|
      && (size == 0 ==> front == null)
      && (size > 0 ==> front == nodes[0] && Chain(nodes))
      && (forall i :: 0 <= i < size ==> nodes[i].value == contents[i])
    }

    /** `__init__`: an empty list of size 0. */
    constructor()
      ensures Valid() && contents == [] && front == null && size == 0
    {
      front, size := null, 0;
      nodes, contents := [], [];
    }

    /** `__setitem__`: IndexError unless `-size <= index < size`; otherwise
        only the value at that position changes (counted from the end when
        negative), exactly as for a Python list; links, `front` and `size`
        stay. */
    method SetItem(index: int, value: T) returns (raised: Option<Error>)
      requires Valid()
      modifies this, nodes
      ensures Valid()
      ensures nodes == old(nodes) && size == old(size) && front == old(front)
      ensures forall i :: 0 <= i < |nodes| ==> nodes[i].next == old(nodes[i].next)
      ensures raised == None <==> LinkedListLab.PySet(old(contents), index, value).Ok?
      ensures raised == None ==> contents == LinkedListLab.PySet(old(contents), index, value).value
      ensures raised != None ==> raised == Some(IndexError) && contents == old(contents)
    {
      if index >= size || index < -size {
        return Some(IndexError);
      }
      var temp := front;
      var p := if index >= 0 then index else size + index;
      var k := 0;
      while k < p
        invariant 0 <= k <= p
        invariant temp == nodes[k]
      {
        temp := temp.next;
        k := k + 1;
      }
      temp.value := value;
      contents := contents[p := value];
      return None;
    }
  }

  /** The list of the doctest, linked by hand: nodes 1, 2, 3 and size 3. */
  method OneTwoThree() returns (lnk: LinkedList<nat>)
    ensures fresh(lnk) && lnk.Valid() && lnk.contents == [1, 2, 3]
    ensures fresh(lnk.nodes[0]) && fresh(lnk.nodes[1]) && fresh(lnk.nodes[2])
  {
    lnk := new LinkedList<nat>();
    var n3 := new Node(3, null);
    var n2 := new Node(2, n3);
    var n1 := new Node(1, n2);
    lnk.front := n1;
    lnk.size := 3;
    lnk.nodes := [n1, n2, n3];
    lnk.contents := [1, 2, 3];
  }

  /** The doctest of `__setitem__`: `lnk[2] = 5`, then `lnk[-1] = 6`, each
      followed by printing `lnk.front`. */
  method SetItemDoctest() returns (before: string, first: string, second: string)
    ensures before == "1 -> 2 -> 3 ->|"
    ensures first == "1 -> 2 -> 5 ->|"
    ensures second == "1 -> 2 -> 6 ->|"
  {
    RenderDoctest();
    RenderSetDoctest();
    var lnk := OneTwoThree();
    before := Show(lnk);
    var r := lnk.SetItem(2, 5);
    first := Show(lnk);
    assert lnk.contents == [1, 2, 5];
    r := lnk.SetItem(-1, 6);
    assert [1, 2, 5][2 := 6] == [1, 2, 6];
    second := Show(lnk);
  }

  /** `print(lnk.front)` on a non-empty list. */
  method Show(lnk: LinkedList<nat>) returns (s: string)
    requires lnk.Valid() && lnk.size > 0
    ensures s == Render(lnk.contents, Decimal)
  {
    assert ValuesOf(lnk.nodes) == lnk.contents;
    s := lnk.front.Str(Decimal, lnk.nodes);
  }
}
