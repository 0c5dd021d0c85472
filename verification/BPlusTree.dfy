/** The lookup path of the index (index/b+tree/index_format.cc, index/b+tree/b_plus_tree.cc): routing by
    separators through the inner nodes, then binary search in the leaf, against a plain scan of all
    leaves.  A node has as many keys as pointers; its last key is a dummy.
 */
module BPlusTree {
  import opened Basics

  datatype Rid = Rid(page: int, slot: int)

  const NULL_RID := Rid(-1, -1)

  datatype Node =
    | Leaf(keys: seq<int>, rids: seq<Rid>)
    | Inner(keys: seq<int>, children: seq<Node>)

  // ----- inside one node

  ghost predicate Ascending(keys: seq<int>, n: nat) {
    n <= |keys| && forall i, j :: 0 <= i < j < n ==> keys[i] < keys[j]
  }

  /** Child `c` of `n` is the one for key `k`: not below the separator on its left, below the one on its
      right. */
  ghost predicate Routes(keys: seq<int>, n: nat, k: int, c: nat)
    requires n <= |keys|
  {
    c < n && (c > 0 ==> keys[c - 1] <= k) && (c < n - 1 ==> k < keys[c])
  }

  /** The smallest separator not below the key decides: to its right if equal, to its left if greater;
      with no such separator the last pointer is taken. */
  method FindInInternal(keys: seq<int>, count: nat, k: int) returns (c: nat)
    requires 0 < count <= |keys| && Ascending(keys, count - 1)
    ensures Routes(keys, count, k, c)
    ensures c == Route(keys, count, k)
  {
    var ret := -1;
    var i := 0;
    while i < count - 1
      invariant 0 <= i <= count - 1
      invariant forall j :: 0 <= j < i ==> keys[j] < k
      invariant ret == -1
    {
      if k <= keys[i] {
        ret := i;
        break;
      }
      i := i + 1;
    }
    if ret == -1 {
      c := count - 1;
    } else if k == keys[ret] {
      c := ret + 1;
    } else {
      c := ret;
    }
    RouteIs(keys, count, k, c);
  }

  /** The number of separators that are not above the key. */
  function Route(keys: seq<int>, count: nat, k: int): (c: nat)
    requires 0 < count <= |keys|
    ensures c < count
  {
    if count == 1 || k < keys[0] then 0
    else 1 + Route(keys[1..], count - 1, k)
  }

  lemma {:induction false} RouteIs(keys: seq<int>, count: nat, k: int, c: nat)
    requires 0 < count <= |keys| && Ascending(keys, count - 1)
    requires Routes(keys, count, k, c)
    ensures c == Route(keys, count, k)
  {
    if c > 0 {
      assert c > 1 ==> keys[0] < keys[c - 1];
      assert c > 1 ==> keys[1..][c - 2] == keys[c - 1];
      RouteIs(keys[1..], count - 1, k, c - 1);
    }
  }

  lemma {:induction false} RouteRoutes(keys: seq<int>, count: nat, k: int)
    requires 0 < count <= |keys|
    ensures Routes(keys, count, k, Route(keys, count, k))
  {
    if count > 1 && k >= keys[0] {
      RouteRoutes(keys[1..], count - 1, k);
      var c := Route(keys[1..], count - 1, k);
      assert c > 0 ==> keys[1..][c - 1] == keys[c];
      assert c < count - 2 ==> keys[1..][c] == keys[c + 1];
    }
  }

  /** Binary search among all keys but the dummy. */
  method FindInLeaf(keys: seq<int>, count: nat, k: int) returns (i: int)
    requires count <= |keys| && (count > 0 ==> Ascending(keys, count - 1))
    ensures i == -1 || (0 <= i < count - 1 && keys[i] == k)
    ensures i == -1 ==> forall j :: 0 <= j < count - 1 ==> keys[j] != k
  {
    var left, right := 0, count - 2;
    if left > right {
      return -1;
    }
    while left <= right
      invariant 0 <= left && right <= count - 2
      invariant forall j :: 0 <= j < count - 1 && !(left <= j <= right) ==> keys[j] != k
      decreases right - left + 1
    {
      var mid := (left + right) / 2;
      if keys[mid] < k {
        left := mid + 1;
      } else if keys[mid] > k {
        right := mid - 1;
      } else {
        return mid;
      }
    }
    return -1;
  }

  /** The first pointer whose key is `k`, or the null rid. */
  function FirstMatch(keys: seq<int>, rids: seq<Rid>, k: int): Rid {
    if keys == [] || rids == [] then NULL_RID
    else if keys[0] == k then rids[0]
    else FirstMatch(keys[1..], rids[1..], k)
  }

  /** `search` scans all keys, the dummy included. */
  method Search(keys: seq<int>, rids: seq<Rid>, count: nat, k: int) returns (found: bool, rid: Rid)
    requires count <= |keys| && count <= |rids|
    ensures found <==> exists j :: 0 <= j < count && keys[j] == k
    ensures rid == FirstMatch(keys[..count], rids[..count], k)
  {
    var i := 0;
    ghost var all, ids := keys[..count], rids[..count];
    assert all[0..] == all && ids[0..] == ids;
    while i < count
      invariant 0 <= i <= count
      invariant forall j :: 0 <= j < i ==> keys[j] != k
      invariant FirstMatch(all, ids, k) == FirstMatch(all[i..], ids[i..], k)
    {
      assert all[i..][1..] == all[i + 1..] && ids[i..][1..] == ids[i + 1..];
      if keys[i] == k {
        return true, rids[i];
      }
      i := i + 1;
    }
    return false, NULL_RID;
  }

  // ----- trees

  ghost predicate Within(lo: Option<int>, hi: Option<int>, k: int) {
    (lo.Some? ==> lo.value <= k) && (hi.Some? ==> k < hi.value)
  }

  function Lower(keys: seq<int>, i: nat, lo: Option<int>): Option<int>
    requires i <= |keys|
  {
    if i == 0 then lo else Some(keys[i - 1])
  }

  function Upper(keys: seq<int>, i: nat, hi: Option<int>): Option<int>
    requires i < |keys|
  {
    if i == |keys| - 1 then hi else Some(keys[i])
  }

  /** A node of height `height` whose keys lie within the bounds: the children of an inner node lie
      between its separators and are all equally high. */
  ghost predicate WellFormed(node: Node, lo: Option<int>, hi: Option<int>, height: nat)
    decreases node
  {
    match node
    case Leaf(keys, rids) =>
      && height == 1
      && |keys| == |rids| && |keys| > 0
      && Ascending(keys, |keys| - 1)
      && (forall i :: 0 <= i < |keys| - 1 ==> Within(lo, hi, keys[i]) && rids[i] != NULL_RID)
    case Inner(keys, children) =>
      && height > 1
      && |keys| == |children| && |keys| > 0
      && Ascending(keys, |keys| - 1)
      && (forall i :: 0 <= i < |keys| - 1 ==> Within(lo, hi, keys[i]))
      && (forall i :: 0 <= i < |children| ==> WellFormed(children[i], Lower(keys, i, lo), Upper(keys, i, hi), height - 1))
  }

  /** All entries of the leaves, from left to right. */
  function Entries(node: Node): seq<(int, Rid)>
    decreases node, 1
  {
    match node
    case Leaf(keys, rids) => LeafEntries(keys, rids)
    case Inner(_, children) => AllEntries(children)
  }

  function AllEntries(children: seq<Node>): seq<(int, Rid)>
    decreases children, 0
  {
    if children == [] then [] else Entries(children[0]) + AllEntries(children[1..])
  }

  function LeafEntries(keys: seq<int>, rids: seq<Rid>): (es: seq<(int, Rid)>) {
    if |keys| <= 1 || rids == [] then [] else [(keys[0], rids[0])] + LeafEntries(keys[1..], rids[1..])
  }

  /** The plain scan: the first entry with the key, or the null rid. */
  function Scan(es: seq<(int, Rid)>, k: int): Rid {
    if es == [] then NULL_RID
    else if es[0].0 == k then es[0].1
    else Scan(es[1..], k)
  }

  ghost predicate Lacks(es: seq<(int, Rid)>, k: int) {
    forall i :: 0 <= i < |es| ==> es[i].0 != k
  }

  lemma {:induction false} ScanLacks(es: seq<(int, Rid)>, k: int)
    requires Lacks(es, k)
    ensures Scan(es, k) == NULL_RID
  {
    if es != [] {
      ScanLacks(es[1..], k);
    }
  }

  lemma {:induction false} ScanSkips(a: seq<(int, Rid)>, b: seq<(int, Rid)>, k: int)
    requires Lacks(a, k)
    ensures Scan(a + b, k) == Scan(b, k)
  {
    if a == [] {
      assert a + b == b;
    } else {
      assert (a + b)[1..] == a[1..] + b;
      ScanSkips(a[1..], b, k);
    }
  }

  lemma {:induction false} ScanStops(a: seq<(int, Rid)>, b: seq<(int, Rid)>, k: int)
    requires Lacks(b, k)
    ensures Scan(a + b, k) == Scan(a, k)
  {
    if a == [] {
      assert a + b == b;
      ScanLacks(b, k);
    } else {
      assert (a + b)[1..] == a[1..] + b;
      ScanStops(a[1..], b, k);
    }
  }

  lemma {:induction false} LeafLacks(keys: seq<int>, rids: seq<Rid>, k: int)
    requires forall i :: 0 <= i < |keys| - 1 ==> keys[i] != k
    ensures Lacks(LeafEntries(keys, rids), k)
  {
    if |keys| > 1 && rids != [] {
      LeafLacks(keys[1..], rids[1..], k);
    }
  }

  /** A key outside the bounds is in none of the leaves below. */
  lemma {:induction false} OutsideLacks(node: Node, lo: Option<int>, hi: Option<int>, height: nat, k: int)
    requires WellFormed(node, lo, hi, height) && !Within(lo, hi, k)
    ensures Lacks(Entries(node), k)
    decreases node, 1
  {
    match node
    case Leaf(keys, rids) => LeafLacks(keys, rids, k);
    case Inner(keys, children) =>
      forall i | 0 <= i < |children|
        ensures Lacks(Entries(children[i]), k)
      {
        OutsideLacks(children[i], Lower(keys, i, lo), Upper(keys, i, hi), height - 1, k);
      }
      AllLack(children, k);
  }

  lemma {:induction false} AllLack(children: seq<Node>, k: int)
    requires forall i :: 0 <= i < |children| ==> Lacks(Entries(children[i]), k)
    ensures Lacks(AllEntries(children), k)
  {
    if children != [] {
      AllLack(children[1..], k);
    }
  }

  /** A scan of several subtrees, all but one without the key, is a scan of that one. */
  lemma {:induction false} ScanOne(children: seq<Node>, c: nat, k: int)
    requires c < |children|
    requires forall i :: 0 <= i < |children| && i != c ==> Lacks(Entries(children[i]), k)
    ensures Scan(AllEntries(children), k) == Scan(Entries(children[c]), k)
  {
    if c == 0 {
      AllLack(children[1..], k);
      ScanStops(Entries(children[0]), AllEntries(children[1..]), k);
    } else {
      ScanSkips(Entries(children[0]), AllEntries(children[1..]), k);
      assert forall i :: 0 <= i < |children[1..]| ==> children[1..][i] == children[i + 1];
      ScanOne(children[1..], c - 1, k);
    }
  }

  /** Routing loses nothing: the scan of an inner node is the scan of the routed child. */
  lemma RoutedScan(node: Node, lo: Option<int>, hi: Option<int>, height: nat, k: int)
    requires WellFormed(node, lo, hi, height) && node.Inner? && Within(lo, hi, k)
    ensures var c := Route(node.keys, |node.keys|, k);
      && c < |node.children|
      && Scan(Entries(node), k) == Scan(Entries(node.children[c]), k)
      && WellFormed(node.children[c], Lower(node.keys, c, lo), Upper(node.keys, c, hi), height - 1)
      && Within(Lower(node.keys, c, lo), Upper(node.keys, c, hi), k)
  {
    var keys, children := node.keys, node.children;
    RouteRoutes(keys, |keys|, k);
    var c := Route(keys, |keys|, k);
    forall i | 0 <= i < |children| && i != c
      ensures Lacks(Entries(children[i]), k)
    {
      OutsideLacks(children[i], Lower(keys, i, lo), Upper(keys, i, hi), height - 1, k);
    }
    ScanOne(children, c, k);
  }

  lemma {:induction false} ScanLeaf(keys: seq<int>, rids: seq<Rid>, i: nat)
    requires |keys| == |rids| && i < |keys| - 1 && Ascending(keys, |keys| - 1)
    ensures Scan(LeafEntries(keys, rids), keys[i]) == rids[i]
  {
    if i > 0 {
      assert keys[1..][i - 1] == keys[i] && rids[1..][i - 1] == rids[i];
      ScanLeaf(keys[1..], rids[1..], i - 1);
    }
  }

  /** `find_leaf_node`: from the root, one routing step for each level above the leaves. */
  method FindLeafNode(root: Node, height: nat, k: int) returns (leaf: Node, ghost lo: Option<int>, ghost hi: Option<int>)
    requires WellFormed(root, None, None, height)
    ensures leaf.Leaf? && WellFormed(leaf, lo, hi, 1)
    ensures Scan(Entries(leaf), k) == Scan(Entries(root), k)
    ensures Descend(root, k, height - 1) == Some(leaf)
  {
    hide WellFormed, Scan, Entries, Descend, Route;
    leaf, lo, hi := root, None, None;
    var i := 0;
    Shape(leaf, lo, hi, height);
    while i < height - 1
      invariant 0 <= i <= height - 1
      invariant WellFormed(leaf, lo, hi, height - i) && Within(lo, hi, k) && (leaf.Leaf? <==> height - i == 1)
      invariant Scan(Entries(leaf), k) == Scan(Entries(root), k)
      invariant Descend(root, k, height - 1) == Descend(leaf, k, height - 1 - i)
    {
      Shape(leaf, lo, hi, height - i);
      RoutedScan(leaf, lo, hi, height - i, k);
      DescendStep(leaf, k, height - 1 - i);
      var c := FindInInternal(leaf.keys, |leaf.keys|, k);
      lo, hi := Lower(leaf.keys, c, lo), Upper(leaf.keys, c, hi);
      leaf := leaf.children[c];
      i := i + 1;
      Shape(leaf, lo, hi, height - i);
    }
    DescendStep(leaf, k, 0);
  }

  lemma Shape(node: Node, lo: Option<int>, hi: Option<int>, height: nat)
    requires WellFormed(node, lo, hi, height)
    ensures height > 0 && (node.Leaf? <==> height == 1)
    ensures node.Inner? ==> |node.keys| == |node.children| > 0 && Ascending(node.keys, |node.keys| - 1)
  {
  }

  lemma DescendStep(node: Node, k: int, levels: nat)
    ensures levels == 0 ==> Descend(node, k, levels) == Some(node)
    ensures levels > 0 && node.Inner? && |node.keys| == |node.children| > 0 ==>
              Descend(node, k, levels) == Descend(node.children[Route(node.keys, |node.keys|, k)], k, levels - 1)
  {
  }

  /** Lookup agrees with a scan: for every well-formed tree of any height, the rid of the key if some leaf
      has it, and the null rid otherwise. */
  method Find(root: Node, height: nat, k: int) returns (rid: Rid)
    requires WellFormed(root, None, None, height)
    ensures rid == Scan(Entries(root), k)
    ensures rid == NULL_RID <==> Lacks(Entries(root), k)
  {
    ghost var lo, hi;
    var leaf;
    leaf, lo, hi := FindLeafNode(root, height, k);
    var i := FindInLeaf(leaf.keys, |leaf.keys|, k);
    if i == -1 {
      rid := NULL_RID;
      LeafLacks(leaf.keys, leaf.rids, k);
      ScanLacks(Entries(leaf), k);
    } else {
      rid := leaf.rids[i];
      ScanLeaf(leaf.keys, leaf.rids, i);
    }
    NullMeansAbsent(root, None, None, height, k);
  }

  /** Stored rids are not null, so the null rid says that the key is absent. */
  lemma {:induction false} NullMeansAbsent(node: Node, lo: Option<int>, hi: Option<int>, height: nat, k: int)
    requires WellFormed(node, lo, hi, height)
    ensures Scan(Entries(node), k) == NULL_RID <==> Lacks(Entries(node), k)
    decreases node
  {
    if !Within(lo, hi, k) {
      OutsideLacks(node, lo, hi, height, k);
      ScanLacks(Entries(node), k);
    } else if node.Leaf? {
      if i: nat :| i < |node.keys| - 1 && node.keys[i] == k {
        ScanLeaf(node.keys, node.rids, i);
        if Lacks(Entries(node), k) {
          ScanLacks(Entries(node), k);
        }
      } else {
        LeafLacks(node.keys, node.rids, k);
        ScanLacks(Entries(node), k);
      }
    } else {
      RoutedScan(node, lo, hi, height, k);
      var c := Route(node.keys, |node.keys|, k);
      NullMeansAbsent(node.children[c], Lower(node.keys, c, lo), Upper(node.keys, c, hi), height - 1, k);
      LacksAll(node, lo, hi, height, k, c);
    }
  }

  lemma LacksAll(node: Node, lo: Option<int>, hi: Option<int>, height: nat, k: int, c: nat)
    requires WellFormed(node, lo, hi, height) && node.Inner? && Within(lo, hi, k) && c == Route(node.keys, |node.keys|, k)
    ensures Lacks(Entries(node), k) <==> Lacks(Entries(node.children[c]), k)
  {
    var keys, children := node.keys, node.children;
    RouteRoutes(keys, |keys|, k);
    forall i | 0 <= i < |children| && i != c
      ensures Lacks(Entries(children[i]), k)
    {
      OutsideLacks(children[i], Lower(keys, i, lo), Upper(keys, i, hi), height - 1, k);
    }
    if Lacks(Entries(children[c]), k) {
      AllLack(children, k);
    }
    if Lacks(AllEntries(children), k) {
      PartLacks(children, c, k);
    }
  }

  lemma {:induction false} PartLacks(children: seq<Node>, c: nat, k: int)
    requires c < |children| && Lacks(AllEntries(children), k)
    ensures Lacks(Entries(children[c]), k)
  {
    var first, rest := Entries(children[0]), AllEntries(children[1..]);
    if c == 0 {
      forall i | 0 <= i < |first|
        ensures first[i].0 != k
      {
        assert (first + rest)[i] == first[i];
      }
    } else {
      forall i | 0 <= i < |rest|
        ensures rest[i].0 != k
      {
        assert (first + rest)[|first| + i] == rest[i];
      }
      PartLacks(children[1..], c - 1, k);
    }
  }

  // ----- as coded

  /** Descending a number of levels; none if a leaf is taken for an inner node on the way. */
  function Descend(node: Node, k: int, levels: nat): Option<Node> {
    if levels == 0 then Some(node)
    else if node.Leaf? || node.keys == [] || Route(node.keys, |node.keys|, k) >= |node.children| then None
    else Descend(node.children[Route(node.keys, |node.keys|, k)], k, levels - 1)
  }

  /** The loop as coded makes as many steps as the tree is high.  A descent stays in the tree exactly when
      it makes fewer, so in every tree higher than one leaf the coded loop runs off its end. */
  lemma {:induction false} DescentStaysIff(node: Node, lo: Option<int>, hi: Option<int>, height: nat, k: int, levels: nat)
    requires WellFormed(node, lo, hi, height) && Within(lo, hi, k)
    ensures Descend(node, k, levels).Some? <==> levels < height
    decreases levels
  {
    if levels > 0 && node.Inner? {
      RoutedScan(node, lo, hi, height, k);
      var c := Route(node.keys, |node.keys|, k);
      DescentStaysIff(node.children[c], Lower(node.keys, c, lo), Upper(node.keys, c, hi), height - 1, k, levels - 1);
    }
  }

  /** The linear search as coded also looks at the dummy key: it finds what a scan of the leaf's entries
      finds exactly when the key is not the dummy's, or is a real key too, or the dummy points nowhere. */
  lemma {:induction false} CodedSearchAgreesIff(keys: seq<int>, rids: seq<Rid>, k: int)
    requires |keys| == |rids| > 0
    ensures FirstMatch(keys, rids, k) == Scan(Entries(Leaf(keys, rids)), k) <==>
            var last := |keys| - 1;
            keys[last] != k || (exists j :: 0 <= j < last && keys[j] == k) || rids[last] == NULL_RID
  {
    if |keys| > 1 && keys[0] != k {
      CodedSearchAgreesIff(keys[1..], rids[1..], k);
      forall j | 1 <= j < |keys| - 1 && keys[j] == k
        ensures exists m :: 0 <= m < |keys[1..]| - 1 && keys[1..][m] == k
      {
        assert keys[1..][j - 1] == k;
      }
    }
  }
}
