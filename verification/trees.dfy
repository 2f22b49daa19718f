/** Recursive exercises on binary trees, n-ary trees and nested lists
    (Labs/lab8/whatever.py). */
module Trees {
  import opened Wrappers

  // ============================================================ binary trees

  /** `BTNode`, with `None` as `Nil`. */
  datatype BTree<T> = Nil | BTNode(data: T, left: BTree<T>, right: BTree<T>)

  /** `height`: 0 for the empty tree, else one more than the taller child. */
  function Height<T>(t: BTree<T>): nat {
    match t
    case Nil => 0
    case BTNode(_, l, r) => 1 + Max(Height(r), Height(l))
  }

  function Max(a: int, b: int): int { if a >= b then a else b }

  /** `is_PT`: the empty tree and a leaf are perfect; otherwise both subtrees
      must be perfect and of equal height. */
  predicate IsPerfect<T>(t: BTree<T>) {
    match t
    case Nil => true
    case BTNode(_, l, r) =>
      (l.Nil? && r.Nil?) || (IsPerfect(l) && IsPerfect(r) && Height(l) == Height(r))
  }

  /** `tallest`: the height of the tallest perfect subtree found by descending
      from the root until a perfect subtree is met. */
  function Tallest<T>(t: BTree<T>): nat {
    if IsPerfect(t) then Height(t)
    else Max(Tallest(t.left), Tallest(t.right))
  }

  /** `TPBT`: the tallest perfect height, and whether it is the whole tree's. */
  function TPBT<T>(t: BTree<T>): (nat, bool) {
    (Tallest(t), Tallest(t) == Height(t))
  }

  function NodeCount<T>(t: BTree<T>): nat {
    match t
    case Nil => 0
    case BTNode(_, l, r) => 1 + NodeCount(l) + NodeCount(r)
  }

  function Pow2(n: nat): nat {
    if n == 0 then 1 else 2 * Pow2(n - 1)
  }

  /** A tree of height h holds at most 2^h - 1 nodes. */
  lemma {:induction false} NodeCountBound<T>(t: BTree<T>)
    ensures NodeCount(t) + 1 <= Pow2(Height(t))
  {
    match t
    case Nil =>
    case BTNode(_, l, r) =>
      NodeCountBound(l);
      NodeCountBound(r);
      Pow2Monotone(Height(l), Height(t) - 1);
      Pow2Monotone(Height(r), Height(t) - 1);
  }

  lemma {:induction false} Pow2Monotone(a: nat, b: nat)
    requires a <= b
    ensures Pow2(a) <= Pow2(b)
  {
    if a < b { Pow2Monotone(a, b - 1); }
  }

  /** `is_PT` agrees with the independent definition of a perfect tree: one
      that is full, holding exactly 2^height - 1 nodes. */
  lemma {:induction false} PerfectIffFull<T>(t: BTree<T>)
    ensures IsPerfect(t) <==> NodeCount(t) + 1 == Pow2(Height(t))
  {
    match t
    case Nil =>
    case BTNode(_, l, r) =>
      PerfectIffFull(l);
      PerfectIffFull(r);
      NodeCountBound(l);
      NodeCountBound(r);
      var m := Height(t) - 1;
      Pow2Monotone(Height(l), m);
      Pow2Monotone(Height(r), m);
      if NodeCount(t) + 1 == Pow2(Height(t)) {
        assert NodeCount(l) + 1 == Pow2(m) && NodeCount(r) + 1 == Pow2(m);
        if Height(l) < m { Pow2Monotone(Height(l) + 1, m); }
        if Height(r) < m { Pow2Monotone(Height(r) + 1, m); }
      }
  }

  /** The tallest perfect subtree is never taller than the tree, and is as
      tall exactly when the tree itself is perfect. */
  lemma {:induction false} TallestBound<T>(t: BTree<T>)
    ensures Tallest(t) <= Height(t)
    ensures Tallest(t) == Height(t) <==> IsPerfect(t)
  {
    if !IsPerfect(t) {
      TallestBound(t.left);
      TallestBound(t.right);
    }
  }

  /** `TPBT`'s second component says whether the whole tree is perfect. */
  lemma TPBTSecond<T>(t: BTree<T>)
    ensures TPBT(t).1 <==> IsPerfect(t)
    ensures TPBT(t).0 <= Height(t)
  {
    TallestBound(t);
  }

  // ============================================================ n-ary trees

  /** `Tree`, with an explicit sequence of children. */
  datatype Tree<T> = Tree(value: T, children: seq<Tree<T>>)

  /** The number of levels of `t`. */
  function Depth<T>(t: Tree<T>): nat
    decreases t
  {
    1 + ForestDepth(t.children)
  }

  function ForestDepth<T>(cs: seq<Tree<T>>): nat
    decreases cs
  {
    if cs == [] then 0 else Max(ForestDepth(cs[..|cs| - 1]), Depth(cs[|cs| - 1]))
  }

  /** The number of nodes of `t` at depth `i` (the root is at depth 0). */
  function NodesAt<T>(t: Tree<T>, i: nat): nat
    decreases t
  {
    if i == 0 then 1 else ForestAt(t.children, i - 1)
  }

  function ForestAt<T>(cs: seq<Tree<T>>, i: nat): nat
    decreases cs
  {
    if cs == [] then 0 else ForestAt(cs[..|cs| - 1], i) + NodesAt(cs[|cs| - 1], i)
  }

  function TreeSize<T>(t: Tree<T>): nat
    decreases t
  {
    1 + ForestSize(t.children)
  }

  function ForestSize<T>(cs: seq<Tree<T>>): nat
    decreases cs
  {
    if cs == [] then 0 else ForestSize(cs[..|cs| - 1]) + TreeSize(cs[|cs| - 1])
  }

  /** No node lies at or below the tree's number of levels. */
  lemma {:induction false} NodesBeyondDepth<T>(t: Tree<T>, i: nat)
    requires i >= Depth(t)
    ensures NodesAt(t, i) == 0
    decreases t, 1
  {
    ForestBeyondDepth(t.children, i - 1);
  }

  lemma {:induction false} ForestBeyondDepth<T>(cs: seq<Tree<T>>, i: nat)
    requires i >= ForestDepth(cs)
    ensures ForestAt(cs, i) == 0
    decreases cs, 0
  {
    if cs != [] {
      ForestBeyondDepth(cs[..|cs| - 1], i);
      NodesBeyondDepth(cs[|cs| - 1], i);
    }
  }

  /** `count_by_level`: entry i is the number of nodes at depth i. The
      children's counts are merged into `after` one child at a time. */
  method CountByLevel<T>(t: Tree<T>) returns (levels: seq<nat>)
    ensures |levels| == Depth(t)
    ensures forall i :: 0 <= i < |levels| ==> levels[i] == NodesAt(t, i)
    decreases t
  {
    var after: seq<nat> := [];
    var k := 0;
    while k < |t.children|
      invariant 0 <= k <= |t.children|
      invariant |after| == ForestDepth(t.children[..k])
      invariant forall i :: 0 <= i < |after| ==> after[i] == ForestAt(t.children[..k], i)
    {
      var c := t.children[k];
      var prefix := t.children[..k];
      assert t.children[..k + 1] == prefix + [c];
      assert (prefix + [c])[..|prefix|] == prefix;
      var temp := CountByLevel(c);
      ghost var before := after;
      var i := 0;
      while i < |temp|
        invariant 0 <= i <= |temp|
        invariant |after| == Max(|before|, i)
        invariant forall j :: 0 <= j < i ==> after[j] == (if j < |before| then before[j] else 0) + temp[j]
        invariant forall j :: i <= j < |after| ==> after[j] == before[j]
      {
        if |after| < i + 1 {
          after := after + [temp[i]];
        } else {
          after := after[i := after[i] + temp[i]];
        }
        i := i + 1;
      }
      forall j | 0 <= j < |after|
        ensures after[j] == ForestAt(prefix + [c], j)
      {
        if j >= |before| { ForestBeyondDepth(prefix, j); }
        if j >= |temp| { NodesBeyondDepth(c, j); }
      }
      k := k + 1;
    }
    assert t.children[..k] == t.children;
    levels := [1] + after;
  }

  /** Sum of the first `n` entries of a count list. */
  function SumFirst(s: seq<nat>, n: nat): nat
    requires n <= |s|
  {
    if n == 0 then 0 else SumFirst(s, n - 1) + s[n - 1]
  }

  /** Nodes on the first `n` levels. */
  function LevelSum<T>(t: Tree<T>, n: nat): nat {
    if n == 0 then 0 else LevelSum(t, n - 1) + NodesAt(t, n - 1)
  }

  function ForestLevelSum<T>(cs: seq<Tree<T>>, n: nat): nat {
    if n == 0 then 0 else ForestLevelSum(cs, n - 1) + ForestAt(cs, n - 1)
  }

  lemma {:induction false} LevelSumShift<T>(t: Tree<T>, n: nat)
    ensures LevelSum(t, n + 1) == 1 + ForestLevelSum(t.children, n)
  {
    if n > 0 { LevelSumShift(t, n - 1); }
  }

  lemma {:induction false} ForestLevelSumSplit<T>(cs: seq<Tree<T>>, n: nat)
    requires cs != []
    ensures ForestLevelSum(cs, n) == ForestLevelSum(cs[..|cs| - 1], n) + LevelSum(cs[|cs| - 1], n)
  {
    if n > 0 { ForestLevelSumSplit(cs, n - 1); }
  }

  /** Counting every level through the deepest one counts every node once. */
  lemma {:induction false} LevelSumIsSize<T>(t: Tree<T>, n: nat)
    requires n >= Depth(t)
    ensures LevelSum(t, n) == TreeSize(t)
    decreases t, 1
  {
    LevelSumShift(t, n - 1);
    ForestLevelSumIsSize(t.children, n - 1);
  }

  lemma {:induction false} ForestLevelSumIsSize<T>(cs: seq<Tree<T>>, n: nat)
    requires n >= ForestDepth(cs)
    ensures ForestLevelSum(cs, n) == ForestSize(cs)
    decreases cs, 0
  {
    if cs == [] {
      ForestLevelSumEmpty(cs, n);
    } else {
      ForestLevelSumSplit(cs, n);
      ForestLevelSumIsSize(cs[..|cs| - 1], n);
      LevelSumIsSize(cs[|cs| - 1], n);
    }
  }

  lemma {:induction false} ForestLevelSumEmpty<T>(cs: seq<Tree<T>>, n: nat)
    requires cs == []
    ensures ForestLevelSum(cs, n) == 0
  {
    if n > 0 { ForestLevelSumEmpty(cs, n - 1); }
  }

  /** The level counts start with the root's 1 and add up to the number of
      nodes in the tree. */
  lemma {:induction false} LevelCountsTotal<T>(t: Tree<T>, levels: seq<nat>)
    requires |levels| == Depth(t)
    requires forall i :: 0 <= i < |levels| ==> levels[i] == NodesAt(t, i)
    ensures levels[0] == 1
    ensures SumFirst(levels, |levels|) == TreeSize(t)
  {
    SumMatches(t, levels, |levels|);
    LevelSumIsSize(t, |levels|);
  }

  lemma {:induction false} SumMatches<T>(t: Tree<T>, levels: seq<nat>, n: nat)
    requires n <= |levels|
    requires forall i :: 0 <= i < |levels| ==> levels[i] == NodesAt(t, i)
    ensures SumFirst(levels, n) == LevelSum(t, n)
  {
    if n > 0 { SumMatches(t, levels, n - 1); }
  }

  // ------------------------------------------------------------------ prune

  /** `prune`, on values: None when the root fails the predicate, else the
      root with its children pruned and the removed ones dropped. */
  function Prune<T>(t: Tree<T>, keep: T -> bool): (r: Option<Tree<T>>)
    decreases t
  {
    if !keep(t.value) then None
    else Some(Tree(t.value, PruneForest(t.children, keep)))
  }

  function PruneForest<T>(cs: seq<Tree<T>>, keep: T -> bool): (r: seq<Tree<T>>)
    decreases cs
    ensures |r| <= |cs|
  {
    if cs == [] then []
    else
      var rest := PruneForest(cs[..|cs| - 1], keep);
      match Prune(cs[|cs| - 1], keep)
      case Some(p) => rest + [p]
      case None => rest
  }

  /** Every node of `t` satisfies `keep`. */
  ghost predicate AllKept<T>(t: Tree<T>, keep: T -> bool)
    decreases t
  {
    keep(t.value) && forall i :: 0 <= i < |t.children| ==> AllKept(t.children[i], keep)
  }

  /** What survives pruning satisfies the predicate everywhere, and pruning
      it again changes nothing. */
  lemma {:induction false} PruneSound<T>(t: Tree<T>, keep: T -> bool)
    ensures Prune(t, keep).None? <==> !keep(t.value)
    ensures Prune(t, keep).Some? ==> AllKept(Prune(t, keep).value, keep)
    ensures Prune(t, keep).Some? ==> Prune(Prune(t, keep).value, keep) == Prune(t, keep)
    decreases t, 1
  {
    if keep(t.value) {
      PruneForestSound(t.children, keep);
    }
  }

  lemma {:induction false} PruneForestSound<T>(cs: seq<Tree<T>>, keep: T -> bool)
    ensures var r := PruneForest(cs, keep);
      (forall i :: 0 <= i < |r| ==> AllKept(r[i], keep)) && PruneForest(r, keep) == r
    decreases cs, 0
  {
    if cs != [] {
      var init := cs[..|cs| - 1];
      PruneForestSound(init, keep);
      PruneSound(cs[|cs| - 1], keep);
      var rest := PruneForest(init, keep);
      match Prune(cs[|cs| - 1], keep)
      case Some(p) =>
        var r := rest + [p];
        assert r[..|r| - 1] == rest;
      case None =>
    }
  }

  /** `prune` as written calls itself twice per child: once to filter, once on
      the already-pruned child to produce the element. */
  function PruneAsWritten<T>(t: Tree<T>, keep: T -> bool): Option<Tree<T>>
    decreases t
  {
    if !keep(t.value) then None
    else Some(Tree(t.value, PruneTwice(t.children, keep)))
  }

  function PruneTwice<T>(cs: seq<Tree<T>>, keep: T -> bool): seq<Tree<T>>
    decreases cs
  {
    if cs == [] then []
    else
      var rest := PruneTwice(cs[..|cs| - 1], keep);
      match Prune(cs[|cs| - 1], keep)
      case Some(p) => rest + [Prune(p, keep).value]
      case None => rest
  }

  /** The double call is harmless: the second call sees a pruned child and
      returns it unchanged. */
  lemma {:induction false} PruneTwiceHarmless<T>(t: Tree<T>, keep: T -> bool)
    ensures PruneAsWritten(t, keep) == Prune(t, keep)
  {
    if keep(t.value) {
      PruneTwiceForest(t.children, keep);
    }
  }

  lemma {:induction false} PruneTwiceForest<T>(cs: seq<Tree<T>>, keep: T -> bool)
    ensures PruneTwice(cs, keep) == PruneForest(cs, keep)
  {
    if cs != [] {
      PruneTwiceForest(cs[..|cs| - 1], keep);
      PruneSound(cs[|cs| - 1], keep);
    }
  }

  // ------------------------------------------------------------------ bar

  /** `bar`: builds a new list and then only swaps its local names, so the
      caller's list is left as it was. */
  method Bar(list_: array<int>)
    ensures list_[..] == old(list_[..])
  {
    var items: seq<int> := list_[..];
    var fresh_: seq<int> := [];
    var i := 0;
    while i < |items|
      invariant 0 <= i <= |items|
      invariant |fresh_| == i
      invariant forall k :: 0 <= k < i ==> fresh_[k] == items[k] + 100
    {
      fresh_ := fresh_ + [items[i] + 100];
      i := i + 1;
    }
    items, fresh_ := fresh_, items;
  }

  /** The script at the end of the file: `q = [0]; bar(q)` leaves `[0]`. */
  method BarScript() returns (q: seq<int>)
    ensures q == [0]
  {
    var a := new int[1];
    a[0] := 0;
    Bar(a);
    q := a[..];
  }

  // ============================================================ nested lists

  /** A Python value inside a nested list: a plain entry or a list. */
  datatype Nested<T> = Atom(x: T) | List(items: seq<Nested<T>>)

  /** The number of entries at depth `j` below a list whose elements are
      `items` (its own elements are at depth 0). */
  function EntriesAt<T>(items: seq<Nested<T>>, j: nat): nat
    decreases items
  {
    if items == [] then 0
    else EntriesAt(items[..|items| - 1], j) + ItemEntries(items[|items| - 1], j)
  }

  /** Entries at depth `j` counting `n` itself at depth 0. */
  function ItemEntries<T>(n: Nested<T>, j: nat): nat
    decreases n
  {
    if j == 0 then 1
    else match n
      case Atom(_) => 0
      case List(items) => EntriesAt(items, j - 1)
  }

  /** Some entry at depth `m` below `items` is itself a list. */
  predicate HasListAt<T>(items: seq<Nested<T>>, m: nat)
    decreases items
  {
    items != [] && (HasListAt(items[..|items| - 1], m) || ItemHasList(items[|items| - 1], m))
  }

  predicate ItemHasList<T>(n: Nested<T>, m: nat)
    decreases n
  {
    n.List? && (m == 0 || HasListAt(n.items, m - 1))
  }

  lemma EntriesSnoc<T>(s: seq<Nested<T>>, x: Nested<T>, j: nat)
    ensures EntriesAt(s + [x], j) == EntriesAt(s, j) + ItemEntries(x, j)
    ensures HasListAt(s + [x], j) == (HasListAt(s, j) || ItemHasList(x, j))
  {
    assert (s + [x])[..|s|] == s;
  }

  /** The direct elements of a list are its entries at depth 0. */
  lemma {:induction false} EntriesAtZero<T>(items: seq<Nested<T>>)
    ensures EntriesAt(items, 0) == |items|
  {
    if items != [] { EntriesAtZero(items[..|items| - 1]); }
  }

  /** A level with no list on it has nothing below it. */
  lemma {:induction false} NoListNoEntries<T>(items: seq<Nested<T>>, m: nat)
    requires !HasListAt(items, m)
    ensures EntriesAt(items, m + 1) == 0
    decreases items
  {
    if items != [] {
      NoListNoEntries(items[..|items| - 1], m);
      var last := items[|items| - 1];
      if last.List? {
        NoListNoEntries(last.items, m - 1);
      }
    }
  }

  /** Keys of the dictionary `width.helper(lst, d)` builds: `d` itself, and
      `d - j` for each deeper level j that holds a list, as far as the
      countdown of `d` lets the recursion go (it stops where the key reaches
      0, and never stops when `d` starts negative). */
  predicate HelperKey<T>(lst: seq<Nested<T>>, d: int, k: int) {
    k == d || (k < d && (d < 0 || 0 <= k) && HasListAt(lst, d - k - 1))
  }

  /** The inner loop of `width.helper`: adds every count of `temp` into the
      count under the same key, starting missing keys at 0. */
  method AddCounts(acc: map<int, nat>, temp: map<int, nat>) returns (result: map<int, nat>)
    ensures forall k :: k in result <==> k in acc || k in temp
    ensures forall k :: k in result ==>
      result[k] == (if k in acc then acc[k] else 0) + (if k in temp then temp[k] else 0)
  {
    result := acc;
    var ks := temp.Keys;
    while ks != {}
      invariant ks <= temp.Keys
      invariant forall k :: k in result <==> k in acc || (k in temp && k !in ks)
      invariant forall k :: k in result ==>
        result[k] == (if k in acc then acc[k] else 0) + (if k in temp && k !in ks then temp[k] else 0)
      decreases ks
    {
      assert exists k :: k in ks by {
        if forall k :: k !in ks { assert false; }
      }
      var k :| k in ks;
      result := result[k := (if k in result then result[k] else 0) + temp[k]];
      ks := ks - {k};
    }
  }

  /** What `width.helper` holds after looking at the first elements `done`
      of a list of length `len` under countdown `d`. */
  ghost predicate HelperSoFar<T>(done: seq<Nested<T>>, len: nat, d: int, result: map<int, nat>) {
    && d in result && result[d] == len
    && (forall k :: k in result && k != d ==>
          k < d && (d < 0 || 0 <= k) && HasListAt(done, d - k - 1) && result[k] == EntriesAt(done, d - k))
    && (forall k :: k < d && (d < 0 || 0 <= k) && HasListAt(done, d - k - 1) ==> k in result)
  }

  /** Adding the dictionary of a sublist keeps `HelperSoFar`. */
  lemma HelperStep<T>(done: seq<Nested<T>>, len: nat, d: int, item: Nested<T>,
                      before: map<int, nat>, temp: map<int, nat>, result: map<int, nat>)
    requires d != 0 && item.List?
    requires HelperSoFar(done, len, d, before)
    requires forall k :: k in temp <==> HelperKey(item.items, d - 1, k)
    requires forall k :: k in temp ==> k <= d - 1 && temp[k] == EntriesAt(item.items, d - 1 - k)
    requires forall k :: k in result <==> k in before || k in temp
    requires forall k :: k in result ==>
      result[k] == (if k in before then before[k] else 0) + (if k in temp then temp[k] else 0)
    ensures HelperSoFar(done + [item], len, d, result)
  {
    forall j: nat {
      EntriesSnoc(done, item, j);
    }
    assert d - 1 in temp;
    forall k | k in result && k != d
      ensures k < d && (d < 0 || 0 <= k) && HasListAt(done + [item], d - k - 1)
      ensures result[k] == EntriesAt(done + [item], d - k)
    {
      if k in temp {
        assert ItemHasList(item, d - k - 1);
        assert ItemEntries(item, d - k) == EntriesAt(item.items, d - 1 - k);
      } else {
        NoListNoEntries(item.items, d - k - 2);
      }
      if k !in before {
        NoListNoEntries(done, d - k - 1);
      }
    }
    forall k | k < d && (d < 0 || 0 <= k) && HasListAt(done + [item], d - k - 1)
      ensures k in result
    {
      if !HasListAt(done, d - k - 1) {
        assert ItemHasList(item, d - k - 1);
        assert HelperKey(item.items, d - 1, k);
      }
    }
  }

  /** An element that is not a list adds nothing to `width.helper`. */
  lemma HelperSkip<T>(done: seq<Nested<T>>, len: nat, d: int, item: Nested<T>, result: map<int, nat>)
    requires item.Atom?
    requires HelperSoFar(done, len, d, result)
    ensures HelperSoFar(done + [item], len, d, result)
  {
    forall j: nat {
      EntriesSnoc(done, item, j);
    }
  }

  /** `width`'s inner `helper`: key `d - j` maps to the number of entries at
      depth j. */
  method WidthHelper<T>(lst: seq<Nested<T>>, d: int) returns (result: map<int, nat>)
    ensures forall k :: k in result <==> HelperKey(lst, d, k)
    ensures forall k :: k in result ==> k <= d && result[k] == EntriesAt(lst, d - k)
    decreases lst
  {
    EntriesAtZero(lst);
    result := map[d := |lst|];
    if d == 0 {
      return;
    }
    var p := 0;
    while p < |lst|
      invariant 0 <= p <= |lst|
      invariant HelperSoFar(lst[..p], |lst|, d, result)
    {
      var item := lst[p];
      assert lst[..p + 1] == lst[..p] + [item];
      if item.List? {
        var temp := WidthHelper(item.items, d - 1);
        ghost var before := result;
        result := AddCounts(result, temp);
        HelperStep(lst[..p], |lst|, d, item, before, temp, result);
      } else {
        HelperSkip(lst[..p], |lst|, d, item, result);
      }
      p := p + 1;
    }
    assert lst[..p] == lst;
  }

  /** Python's `max` over the values of a non-empty dictionary. */
  method MaxValue(m: map<int, nat>) returns (w: nat)
    requires m != map[]
    ensures exists k :: k in m && w == m[k]
    ensures forall k :: k in m ==> m[k] <= w
  {
    assert exists k :: k in m by {
      if forall k :: k !in m { assert false; }
    }
    var k0 :| k0 in m;
    w := m[k0];
    var ks := m.Keys - {k0};
    while ks != {}
      invariant ks <= m.Keys
      invariant k0 in m && w == m[k0]
      invariant forall k :: k in m && k !in ks ==> m[k] <= w
      decreases ks
    {
      assert exists k :: k in ks by {
        if forall k :: k !in ks { assert false; }
      }
      var k :| k in ks;
      if m[k] > w {
        w := m[k];
        k0 := k;
      }
      ks := ks - {k};
    }
  }

  /** `width`: the largest number of entries on any level the helper
      reaches. With depth 0 that is the length of the list, and it is never
      less than that length. */
  method Width<T>(lst: seq<Nested<T>>, d: int) returns (w: nat)
    ensures exists k :: HelperKey(lst, d, k) && k <= d && w == EntriesAt(lst, d - k)
    ensures forall k :: HelperKey(lst, d, k) && k <= d ==> EntriesAt(lst, d - k) <= w
    ensures w >= |lst|
    ensures d == 0 ==> w == |lst|
  {
    var result := WidthHelper(lst, d);
    assert d in result;
    w := MaxValue(result);
    EntriesAtZero(lst);
  }

  /** How many entries `width_new.count_by_depth(items, d)` returns. */
  function DepthLen<T>(items: seq<Nested<T>>, d: int): nat
    decreases items, 1
  {
    if d == 0 then 1 else 1 + MaxLen(items, d - 1)
  }

  function MaxLen<T>(items: seq<Nested<T>>, e: int): nat
    decreases items, 0
  {
    if items == [] then 0
    else Max(MaxLen(items[..|items| - 1], e), ItemLen(items[|items| - 1], e))
  }

  function ItemLen<T>(n: Nested<T>, e: int): nat
    decreases n
  {
    match n
    case Atom(_) => 1
    case List(xs) => DepthLen(xs, e)
  }

  /** A non-negative countdown `e` cuts the counts after level `e`. */
  lemma {:induction false} ItemLenBound<T>(n: Nested<T>, e: int)
    requires e >= 0
    ensures ItemLen(n, e) <= e + 1
    decreases n, 2
  {
    if n.List? { DepthLenBound(n.items, e); }
  }

  lemma {:induction false} DepthLenBound<T>(items: seq<Nested<T>>, d: int)
    requires d >= 0
    ensures DepthLen(items, d) <= d + 1
    decreases items, 1
  {
    if d != 0 { MaxLenBound(items, d - 1); }
  }

  lemma {:induction false} MaxLenBound<T>(items: seq<Nested<T>>, e: int)
    requires e >= 0
    ensures MaxLen(items, e) <= e + 1
    decreases items, 0
  {
    if items != [] {
      MaxLenBound(items[..|items| - 1], e);
      ItemLenBound(items[|items| - 1], e);
    }
  }

  /** Where the counts end before the countdown runs out, the structure has
      no more entries. */
  lemma {:induction false} ItemEntriesBeyond<T>(n: Nested<T>, e: int, i: nat)
    requires i >= ItemLen(n, e) && (e < 0 || i <= e)
    ensures ItemEntries(n, i) == 0
    decreases n, 1
  {
    if n.List? {
      ForestEntriesBeyond(n.items, e - 1, i - 1);
    }
  }

  lemma {:induction false} ForestEntriesBeyond<T>(items: seq<Nested<T>>, e: int, i: nat)
    requires i >= MaxLen(items, e) && (e < 0 || i <= e)
    ensures EntriesAt(items, i) == 0
    decreases items, 0
  {
    if items != [] {
      ForestEntriesBeyond(items[..|items| - 1], e, i);
      ItemEntriesBeyond(items[|items| - 1], e, i);
    }
  }

  /** Entry k of `count_by_depth`: the list itself at 0, its entries at
      depth k - 1 below. */
  function LevelCount<T>(items: seq<Nested<T>>, k: nat): nat {
    if k == 0 then 1 else EntriesAt(items, k - 1)
  }

  /** `width_new`'s inner `count_by_depth`. */
  method CountByDepth<T>(lst: seq<Nested<T>>, d: int) returns (result: seq<nat>)
    ensures |result| == DepthLen(lst, d)
    ensures forall k :: 0 <= k < |result| ==> result[k] == LevelCount(lst, k)
    decreases lst
  {
    if d == 0 {
      return [1];
    }
    result := [1];
    var p := 0;
    while p < |lst|
      invariant 0 <= p <= |lst|
      invariant |result| == 1 + MaxLen(lst[..p], d - 1)
      invariant forall k :: 0 <= k < |result| ==> result[k] == LevelCount(lst[..p], k)
    {
      var item := lst[p];
      var prefix := lst[..p];
      assert lst[..p + 1] == prefix + [item];
      assert (prefix + [item])[..p] == prefix;
      var temp: seq<nat>;
      if item.List? {
        temp := CountByDepth(item.items, d - 1);
      } else {
        temp := [1];
      }
      assert |temp| == ItemLen(item, d - 1);
      assert forall i :: 0 <= i < |temp| ==> temp[i] == ItemEntries(item, i);
      ghost var before := result;
      result := AddShifted(result, temp);
      if d > 0 {
        MaxLenBound(prefix, d - 1);
        ItemLenBound(item, d - 1);
      }
      forall k | 1 <= k < |result|
        ensures result[k] == LevelCount(prefix + [item], k)
      {
        EntriesSnoc(prefix, item, k - 1);
        if k >= |before| { ForestEntriesBeyond(prefix, d - 1, k - 1); }
        if k - 1 >= |temp| { ItemEntriesBeyond(item, d - 1, k - 1); }
      }
      p := p + 1;
    }
    assert lst[..p] == lst;
  }

  /** The inner loop of `count_by_depth`: `temp[i]` is added to entry
      `i + 1`, and the list grows where it is too short. */
  method AddShifted(before: seq<nat>, temp: seq<nat>) returns (result: seq<nat>)
    requires |before| >= 1
    ensures |result| == Max(|before|, |temp| + 1) && result[0] == before[0]
    ensures forall k :: 1 <= k < |result| ==>
      result[k] == (if k < |before| then before[k] else 0) + (if k - 1 < |temp| then temp[k - 1] else 0)
  {
    result := before;
    var i := 0;
    while i < |temp|
      invariant 0 <= i <= |temp|
      invariant |result| == Max(|before|, i + 1)
      invariant result[0] == before[0]
      invariant forall k :: 1 <= k < |result| ==>
        result[k] == (if k < |before| then before[k] else 0) + (if k - 1 < i then temp[k - 1] else 0)
    {
      if |result| - 1 < i + 1 {
        result := result + [temp[i]];
      } else {
        result := result[i + 1 := result[i + 1] + temp[i]];
      }
      i := i + 1;
    }
  }

  /** Python's `max` over a non-empty list. */
  function SeqMax(s: seq<nat>): (m: nat)
    requires s != []
    ensures m in s
    ensures forall i :: 0 <= i < |s| ==> s[i] <= m
  {
    if |s| == 1 then s[0] else Max(SeqMax(s[..|s| - 1]), s[|s| - 1])
  }

  /** `width_new`: the largest level count, the list itself counting as 1 at
      level 0. Depth 0 gives 1; any other depth gives at least the list's
      length. */
  method WidthNew<T>(lst: seq<Nested<T>>, d: int) returns (w: nat)
    ensures exists k :: 0 <= k < DepthLen(lst, d) && w == LevelCount(lst, k)
    ensures forall k :: 0 <= k < DepthLen(lst, d) ==> LevelCount(lst, k) <= w
    ensures w >= 1
    ensures d == 0 ==> w == 1
    ensures d != 0 ==> w >= |lst|
  {
    var counts := CountByDepth(lst, d);
    w := SeqMax(counts);
    assert counts[0] == 1;
    if d != 0 && lst != [] {
      MaxLenPositive(lst, d - 1);
      EntriesAtZero(lst);
      assert counts[1] == |lst|;
    }
  }

  lemma {:induction false} MaxLenPositive<T>(items: seq<Nested<T>>, e: int)
    requires items != []
    ensures MaxLen(items, e) >= 1
  {
    var last := items[|items| - 1];
    if last.List? {
      assert ItemLen(last, e) == DepthLen(last.items, e) >= 1;
    }
  }
}
