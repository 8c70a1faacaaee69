/**
 The sparse Merkle commitment. A path is the number its bytes spell, most significant first, so at
 height h above the leaves the node of a path is the path divided by two to the h. Keccak is left
 open: `leaf` hashes a tagged value, `node` a tagged pair, `path` a key.
 */
module SparseMerkle {
  import opened BigEndian

  type Hash = nat
  type Path = nat

  datatype Hasher = Hasher(leaf: Bytes -> Hash, node: (Hash, Hash) -> Hash, path: Bytes -> Path)

  /** The value whose leaf hash marks an absent leaf: the bytes of the word "empty". */
  const Placeholder: Bytes := [101, 109, 112, 116, 121]

  /** The path without its lowest h bits. */
  function Shift(p: Path, h: nat): nat {
    if h == 0 then p else Shift(p, h - 1) / 2
  }

  /** The root of an empty subtree of the given height. */
  function EmptyHash(k: Hasher, height: nat): Hash {
    if height == 0 then k.leaf(Placeholder) else k.node(EmptyHash(k, height - 1), EmptyHash(k, height - 1))
  }

  /** The plain full binary tree: the reference the level-by-level climb is compared with. */
  function Tree(k: Hasher, leaves: map<Path, Hash>, height: nat, index: nat): Hash {
    if height == 0 then
      if index in leaves then leaves[index] else k.leaf(Placeholder)
    else
      k.node(Tree(k, leaves, height - 1, 2 * index), Tree(k, leaves, height - 1, 2 * index + 1))
  }

  /** Bit i of a path of `depth` bits, counted from the root. */
  function Bit(depth: nat, p: Path, i: nat): nat
    requires i < depth
  {
    Shift(p, depth - 1 - i) % 2
  }

  /** The path has no bits above `depth`. */
  predicate Fits(depth: nat, p: Path) {
    Shift(p, depth) == 0
  }

  /* ---------- paths and prefixes ---------- */

  /** Agreement on the first n bits is equality of the n-bit prefixes. */
  lemma {:induction false} PrefixBits(depth: nat, a: Path, b: Path, n: nat)
    requires n <= depth && Fits(depth, a) && Fits(depth, b)
    ensures (forall i | 0 <= i < n :: Bit(depth, a, i) == Bit(depth, b, i))
       <==> Shift(a, depth - n) == Shift(b, depth - n)
  {
    if n > 0 {
      PrefixBits(depth, a, b, n - 1);
      var x, y := Shift(a, depth - n), Shift(b, depth - n);
      assert Shift(a, depth - n + 1) == x / 2 && Shift(b, depth - n + 1) == y / 2;
      assert x == 2 * (x / 2) + Bit(depth, a, n - 1) && y == 2 * (y / 2) + Bit(depth, b, n - 1);
    }
  }

  /** samePrefix: the paths agree on bits [0, bitIndex). */
  method SamePrefix(depth: nat, a: Path, b: Path, bitIndex: nat) returns (same: bool)
    requires bitIndex <= depth && Fits(depth, a) && Fits(depth, b)
    ensures same <==> Shift(a, depth - bitIndex) == Shift(b, depth - bitIndex)
  {
    PrefixBits(depth, a, b, bitIndex);
    for i := 0 to bitIndex
      invariant forall j | 0 <= j < i :: Bit(depth, a, j) == Bit(depth, b, j)
    {
      if Bit(depth, a, i) != Bit(depth, b, i) {
        return false;
      }
    }
    same := true;
  }

  /* ---------- empty subtrees ---------- */

  ghost predicate NoLeafUnder(leaves: map<Path, Hash>, height: nat, index: nat) {
    forall p <- leaves.Keys :: Shift(p, height) != index
  }

  lemma {:induction false} EmptyTree(k: Hasher, leaves: map<Path, Hash>, height: nat, index: nat)
    requires NoLeafUnder(leaves, height, index)
    ensures Tree(k, leaves, height, index) == EmptyHash(k, height)
  {
    if height == 0 {
      assert forall p <- leaves.Keys :: Shift(p, 0) == p;
    } else {
      assert forall p <- leaves.Keys :: Shift(p, height) == Shift(p, height - 1) / 2;
      EmptyTree(k, leaves, height - 1, 2 * index);
      EmptyTree(k, leaves, height - 1, 2 * index + 1);
    }
  }

  /** The table of empty subtree hashes, filled from the leaf up. */
  method EmptyHashes(k: Hasher, depth: nat) returns (table: seq<Hash>)
    ensures |table| == depth + 1
    ensures forall h | 0 <= h <= depth :: table[h] == EmptyHash(k, h)
  {
    table := [k.leaf(Placeholder)];
    for h := 0 to depth
      invariant |table| == h + 1
      invariant forall j | 0 <= j <= h :: table[j] == EmptyHash(k, j)
    {
      table := table + [k.node(table[h], table[h])];
    }
  }

  /* ---------- the climb ---------- */

  /** A node of the current level: some leaf path below it, and its hash. */
  datatype Node = Node(path: Path, hash: Hash)

  function IndexAt(n: Node, height: nat): nat {
    Shift(n.path, height)
  }

  ghost predicate Hashed(k: Hasher, leaves: map<Path, Hash>, height: nat, level: seq<Node>) {
    forall i | 0 <= i < |level| ::
      level[i].path in leaves && level[i].hash == Tree(k, leaves, height, IndexAt(level[i], height))
  }

  ghost predicate Increasing(level: seq<Node>, height: nat) {
    forall i, j | 0 <= i < j < |level| :: IndexAt(level[i], height) < IndexAt(level[j], height)
  }

  /** `at` gives, for each leaf, the node of the level above it. */
  ghost predicate Located(leaves: map<Path, Hash>, height: nat, level: seq<Node>, at: map<Path, nat>) {
    forall p <- leaves.Keys :: p in at && at[p] < |level| && IndexAt(level[at[p]], height) == Shift(p, height)
  }

  /** The level at `height` lists, in order, exactly the non-empty subtrees with their hashes. */
  ghost predicate IsLevel(k: Hasher, leaves: map<Path, Hash>, height: nat, level: seq<Node>, at: map<Path, nat>) {
    Hashed(k, leaves, height, level) && Increasing(level, height) && Located(leaves, height, level, at)
  }

  /**
   The part of the next level made from the first i nodes, all of it left of node i's parent. `up` gives
   the parent of each of those nodes.
   */
  ghost predicate Climbed(k: Hasher, leaves: map<Path, Hash>, height: nat, level: seq<Node>, i: nat, next: seq<Node>,
                          up: seq<nat>)
    requires i <= |level|
  {
    && Hashed(k, leaves, height + 1, next)
    && Increasing(next, height + 1)
    && |up| == i
    && (forall j | 0 <= j < i :: up[j] < |next| && IndexAt(next[up[j]], height + 1) == IndexAt(level[j], height) / 2)
    && (i < |level| ==> forall n | 0 <= n < |next| :: IndexAt(next[n], height + 1) < IndexAt(level[i], height) / 2)
  }

  ghost function Repeat(x: nat, n: nat): (s: seq<nat>)
    ensures |s| == n && forall j | 0 <= j < n :: s[j] == x
  {
    if n == 0 then [] else Repeat(x, n - 1) + [x]
  }

  /** Appending a parent to the next level after consuming one or two nodes. */
  lemma Append(k: Hasher, leaves: map<Path, Hash>, height: nat, level: seq<Node>, i: nat, used: nat,
               next: seq<Node>, up: seq<nat>, parent: Node)
    requires i < |level| && 1 <= used <= 2 && i + used <= |level|
    requires Increasing(level, height) && Climbed(k, leaves, height, level, i, next, up)
    requires parent.path in leaves && parent.hash == Tree(k, leaves, height + 1, IndexAt(parent, height + 1))
    requires parent.path == level[i].path
    requires used == 2 ==> IndexAt(level[i], height) / 2 == IndexAt(level[i + 1], height) / 2
    requires used == 1 && i + 1 < |level| ==> IndexAt(level[i], height) / 2 != IndexAt(level[i + 1], height) / 2
    ensures Climbed(k, leaves, height, level, i + used, next + [parent], up + Repeat(|next|, used))
  {
    assert IndexAt(level[i], height) / 2 == IndexAt(parent, height + 1);
    if i + used < |level| {
      assert IndexAt(level[i], height) < IndexAt(level[i + 1], height);
      assert used == 2 ==> IndexAt(level[i + 1], height) < IndexAt(level[i + 2], height);
    }
  }

  lemma NoSiblingListed(level: seq<Node>, height: nat, i: nat, sibling: nat, j: nat)
    requires i < |level| && j < |level| && Increasing(level, height)
    requires i > 0 ==> IndexAt(level[i - 1], height) / 2 < IndexAt(level[i], height) / 2
    requires i + 1 < |level| ==> IndexAt(level[i], height) / 2 != IndexAt(level[i + 1], height) / 2
    requires sibling != IndexAt(level[i], height) && sibling / 2 == IndexAt(level[i], height) / 2
    ensures IndexAt(level[j], height) != sibling
  {
    assert j < i - 1 ==> IndexAt(level[j], height) < IndexAt(level[i - 1], height);
    assert i + 1 < |level| ==> IndexAt(level[i], height) < IndexAt(level[i + 1], height);
    assert i + 1 < j ==> IndexAt(level[i + 1], height) < IndexAt(level[j], height);
  }

  /** A node without its sibling in the level has an empty subtree beside it. */
  lemma LonelySibling(k: Hasher, leaves: map<Path, Hash>, height: nat, level: seq<Node>, at: map<Path, nat>, i: nat,
                      sibling: nat)
    requires i < |level| && Increasing(level, height) && Located(leaves, height, level, at)
    requires i > 0 ==> IndexAt(level[i - 1], height) / 2 < IndexAt(level[i], height) / 2
    requires i + 1 < |level| ==> IndexAt(level[i], height) / 2 != IndexAt(level[i + 1], height) / 2
    requires sibling != IndexAt(level[i], height) && sibling / 2 == IndexAt(level[i], height) / 2
    ensures Tree(k, leaves, height, sibling) == EmptyHash(k, height)
  {
    forall p | p in leaves ensures Shift(p, height) != sibling {
      NoSiblingListed(level, height, i, sibling, at[p]);
    }
    EmptyTree(k, leaves, height, sibling);
  }

  /** Each leaf is found one level up at the parent of its node. */
  lemma LocatedAbove(leaves: map<Path, Hash>, height: nat, level: seq<Node>, at: map<Path, nat>, next: seq<Node>,
                     up: seq<nat>)
    requires Located(leaves, height, level, at) && |up| == |level|
    requires forall j | 0 <= j < |level| ::
      up[j] < |next| && IndexAt(next[up[j]], height + 1) == IndexAt(level[j], height) / 2
    ensures Located(leaves, height + 1, next, Above(leaves, level, at, up))
  {
  }

  ghost function Above(leaves: map<Path, Hash>, level: seq<Node>, at: map<Path, nat>, up: seq<nat>): map<Path, nat>
    requires |up| == |level| && forall p <- leaves.Keys :: p in at && at[p] < |level|
  {
    map p | p in leaves :: up[at[p]]
  }

  /** Whether the next node is the sibling; then it is the right one of the two. */
  method SiblingFollows(depth: nat, height: nat, level: seq<Node>, i: nat) returns (paired: bool)
    requires height < depth && i < |level| && Increasing(level, height)
    requires forall j | 0 <= j < |level| :: Fits(depth, level[j].path)
    ensures paired <==> i + 1 < |level| && IndexAt(level[i], height) / 2 == IndexAt(level[i + 1], height) / 2
    ensures paired ==>
      IndexAt(level[i], height) % 2 == 0 && IndexAt(level[i + 1], height) == IndexAt(level[i], height) + 1
  {
    if i + 1 == |level| {
      return false;
    }
    paired := SamePrefix(depth, level[i].path, level[i + 1].path, depth - 1 - height);
    assert IndexAt(level[i], height) < IndexAt(level[i + 1], height);
  }

  lemma PairHash(k: Hasher, leaves: map<Path, Hash>, height: nat, left: Node, right: Node)
    requires left.hash == Tree(k, leaves, height, IndexAt(left, height))
    requires right.hash == Tree(k, leaves, height, IndexAt(right, height))
    requires IndexAt(left, height) % 2 == 0 && IndexAt(right, height) == IndexAt(left, height) + 1
    ensures k.node(left.hash, right.hash) == Tree(k, leaves, height + 1, IndexAt(left, height + 1))
  {
  }

  /** The hash of a parent with one child, on the side the path says. */
  lemma LoneHash(k: Hasher, leaves: map<Path, Hash>, height: nat, level: seq<Node>, at: map<Path, nat>, i: nat)
    requires i < |level| && IsLevel(k, leaves, height, level, at)
    requires i > 0 ==> IndexAt(level[i - 1], height) / 2 < IndexAt(level[i], height) / 2
    requires i + 1 < |level| ==> IndexAt(level[i], height) / 2 != IndexAt(level[i + 1], height) / 2
    ensures Tree(k, leaves, height + 1, IndexAt(level[i], height + 1))
         == if IndexAt(level[i], height) % 2 == 0 then k.node(level[i].hash, EmptyHash(k, height))
            else k.node(EmptyHash(k, height), level[i].hash)
  {
    var index := IndexAt(level[i], height);
    LonelySibling(k, leaves, height, level, at, i, if index % 2 == 0 then index + 1 else index - 1);
  }

  /** The parent of the node at i, and how many nodes of the level it takes. */
  method ParentAt(k: Hasher, ghost leaves: map<Path, Hash>, ghost at: map<Path, nat>, depth: nat, height: nat,
                  empty: Hash, level: seq<Node>, i: nat)
    returns (parent: Node, used: nat)
    requires height < depth && empty == EmptyHash(k, height)
    requires forall j | 0 <= j < |level| :: Fits(depth, level[j].path)
    requires i < |level| && IsLevel(k, leaves, height, level, at)
    requires i > 0 ==> IndexAt(level[i - 1], height) / 2 < IndexAt(level[i], height) / 2
    ensures 1 <= used <= 2 && i + used <= |level|
    ensures parent.path in leaves && parent.hash == Tree(k, leaves, height + 1, IndexAt(parent, height + 1))
    ensures parent.path == level[i].path
    ensures used == 2 ==> IndexAt(level[i], height) / 2 == IndexAt(level[i + 1], height) / 2
    ensures used == 1 && i + 1 < |level| ==> IndexAt(level[i], height) / 2 != IndexAt(level[i + 1], height) / 2
  {
    var bitIndex := depth - 1 - height;
    var cur := level[i];
    var paired := SiblingFollows(depth, height, level, i);
    if paired {
      var left, right := cur, level[i + 1];
      if Bit(depth, left.path, bitIndex) == 1 {
        // the level is sorted, so the children never need to be swapped
        assert false;
      }
      PairHash(k, leaves, height, left, right);
      return Node(left.path, k.node(left.hash, right.hash)), 2;
    }
    LoneHash(k, leaves, height, level, at, i);
    if Bit(depth, cur.path, bitIndex) == 0 {
      parent := Node(cur.path, k.node(cur.hash, empty));
    } else {
      parent := Node(cur.path, k.node(empty, cur.hash));
    }
    used := 1;
  }

  /** One pass of the climb: siblings pair up, a lone node pairs with the empty hash. */
  method ClimbOnce(k: Hasher, ghost leaves: map<Path, Hash>, ghost at: map<Path, nat>, depth: nat, height: nat,
                   empty: Hash, level: seq<Node>)
    returns (next: seq<Node>, ghost above: map<Path, nat>)
    requires height < depth && empty == EmptyHash(k, height)
    requires forall p <- leaves.Keys :: Fits(depth, p)
    requires IsLevel(k, leaves, height, level, at)
    ensures IsLevel(k, leaves, height + 1, next, above)
  {
    assert forall j | 0 <= j < |level| :: Fits(depth, level[j].path);
    next := [];
    ghost var up: seq<nat> := [];
    var i := 0;
    while i < |level|
      invariant i <= |level|
      invariant Climbed(k, leaves, height, level, i, next, up)
    {
      assert i > 0 ==> IndexAt(level[i - 1], height) / 2 == IndexAt(next[up[i - 1]], height + 1);
      var parent, used := ParentAt(k, leaves, at, depth, height, empty, level, i);
      Append(k, leaves, height, level, i, used, next, up, parent);
      up := up + Repeat(|next|, used);
      next := next + [parent];
      i := i + used;
    }
    LocatedAbove(leaves, height, level, at, next, up);
    above := Above(leaves, level, at, up);
  }

  ghost predicate Sorted(level: seq<Node>) {
    forall i, j | 0 <= i < j < |level| :: level[i].path < level[j].path
  }

  method InsertSorted(level: seq<Node>, n: Node) returns (longer: seq<Node>)
    requires Sorted(level) && forall m <- level :: m.path != n.path
    ensures Sorted(longer)
    ensures forall m: Node :: m in longer <==> m in level || m == n
  {
    var at := |level|;
    while at > 0 && n.path < level[at - 1].path
      invariant 0 <= at <= |level|
      invariant forall j | at <= j < |level| :: n.path < level[j].path
    {
      at := at - 1;
    }
    assert at > 0 ==> level[at - 1] in level;
    InsertedAt(level, at, n);
    longer := level[..at] + [n] + level[at..];
  }

  lemma InsertedAt(level: seq<Node>, at: nat, n: Node)
    requires Sorted(level) && at <= |level|
    requires at > 0 ==> level[at - 1].path < n.path
    requires forall j | at <= j < |level| :: n.path < level[j].path
    ensures Sorted(level[..at] + [n] + level[at..])
    ensures forall m: Node :: m in level[..at] + [n] + level[at..] <==> m in level || m == n
  {
    var longer := level[..at] + [n] + level[at..];
    forall i, j | 0 <= i < j < |longer| ensures longer[i].path < longer[j].path {
      assert i < at && at > 1 && i < at - 1 ==> level[i].path < level[at - 1].path;
    }
    assert level == level[..at] + level[at..];
  }

  /** The leaves in path order, whatever order the map yields them in. */
  method SortedLeaves(leaves: map<Path, Hash>) returns (level: seq<Node>)
    ensures Sorted(level)
    ensures forall m: Node :: m in level <==> m.path in leaves && m.hash == leaves[m.path]
  {
    level := [];
    var todo := leaves.Keys;
    while todo != {}
      invariant todo <= leaves.Keys && Sorted(level)
      invariant forall m: Node :: m in level <==> m.path in leaves && m.path !in todo && m.hash == leaves[m.path]
      decreases todo
    {
      var p :| p in todo;
      level := InsertSorted(level, Node(p, leaves[p]));
      todo := todo - {p};
    }
  }

  /** The root the program computes is the root of the plain tree; its fallback is never taken. */
  method SmtRootFromMap(k: Hasher, leaves: map<Path, Hash>, depth: nat) returns (root: Hash)
    requires forall p <- leaves.Keys :: Fits(depth, p)
    ensures root == Tree(k, leaves, depth, 0)
  {
    var empties := EmptyHashes(k, depth);
    if |leaves| == 0 {
      EmptyTree(k, leaves, depth, 0);
      return empties[depth];
    }
    var level := SortedLeaves(leaves);
    ghost var at := LeafLevel(k, leaves, level);
    for height := 0 to depth
      invariant IsLevel(k, leaves, height, level, at)
    {
      level, at := ClimbOnce(k, leaves, at, depth, height, empties[height], level);
    }
    OneRoot(k, leaves, depth, level, at);
    if |level| != 1 {
      // the fallback fold over the remaining nodes is never taken
      assert false;
    }
    root := level[0].hash;
  }

  lemma LeafLevel(k: Hasher, leaves: map<Path, Hash>, level: seq<Node>) returns (at: map<Path, nat>)
    requires Sorted(level)
    requires forall m: Node :: m in level <==> m.path in leaves && m.hash == leaves[m.path]
    ensures IsLevel(k, leaves, 0, level, at)
  {
    forall p | p in leaves ensures exists i: nat | i < |level| :: level[i].path == p {
      assert Node(p, leaves[p]) in level;
    }
    at := map p | p in leaves :: var i: nat :| i < |level| && level[i].path == p; i;
    assert forall i | 0 <= i < |level| :: level[i] in level && IndexAt(level[i], 0) == level[i].path;
  }

  /** At full height the level is the root alone. */
  lemma OneRoot(k: Hasher, leaves: map<Path, Hash>, depth: nat, level: seq<Node>, at: map<Path, nat>)
    requires leaves != map[] && IsLevel(k, leaves, depth, level, at)
    requires forall p <- leaves.Keys :: Fits(depth, p)
    ensures |level| == 1 && level[0].hash == Tree(k, leaves, depth, 0)
  {
    var p :| p in leaves;
    assert at[p] < |level|;
    assert |level| > 1 ==> IndexAt(level[0], depth) < IndexAt(level[1], depth);
  }

  /* ---------- committing to a list of leaves ---------- */

  /** A leaf of the flat state: a key and its value. */
  datatype Leaf = Leaf(key: Bytes, val: Bytes)

  /** What the list says about each key; a later leaf replaces an earlier one. */
  function Contents(leaves: seq<Leaf>): map<Bytes, Bytes> {
    if leaves == [] then map[] else
    var n := |leaves| - 1;
    Contents(leaves[..n])[leaves[n].key := leaves[n].val]
  }

  function HashedLeaves(k: Hasher, leaves: seq<Leaf>): map<Path, Hash> {
    if leaves == [] then map[] else
    var n := |leaves| - 1;
    HashedLeaves(k, leaves[..n])[k.path(leaves[n].key) := k.leaf(leaves[n].val)]
  }

  ghost predicate PathsFit(k: Hasher, depth: nat) {
    forall key: Bytes :: Fits(depth, k.path(key))
  }

  lemma {:induction false} HashedPathsFit(k: Hasher, depth: nat, leaves: seq<Leaf>)
    requires PathsFit(k, depth)
    ensures forall p <- HashedLeaves(k, leaves).Keys :: Fits(depth, p)
  {
    if leaves != [] {
      HashedPathsFit(k, depth, leaves[..|leaves| - 1]);
    }
  }

  function RootOf(k: Hasher, depth: nat, leaves: seq<Leaf>): Hash {
    Tree(k, HashedLeaves(k, leaves), depth, 0)
  }

  method ComputeSMTRoot(k: Hasher, depth: nat, leaves: seq<Leaf>) returns (root: Hash)
    requires PathsFit(k, depth)
    ensures root == RootOf(k, depth, leaves)
  {
    var m: map<Path, Hash> := map[];
    for i := 0 to |leaves|
      invariant m == HashedLeaves(k, leaves[..i])
    {
      assert leaves[..i + 1][..i] == leaves[..i];
      m := m[k.path(leaves[i].key) := k.leaf(leaves[i].val)];
    }
    assert leaves[..|leaves|] == leaves;
    HashedPathsFit(k, depth, leaves);
    root := SmtRootFromMap(k, m, depth);
  }

  /* ---------- binding ---------- */

  /** No two values and no two pairs hash to the same node. */
  ghost predicate CollisionFree(k: Hasher) {
    && (forall a, b :: k.leaf(a) == k.leaf(b) ==> a == b)
    && (forall a, b, c, d :: k.node(a, b) == k.node(c, d) ==> a == c && b == d)
  }

  /** No two of these keys share a path. */
  ghost predicate DistinctPaths(k: Hasher, keys: set<Bytes>) {
    forall a <- keys, b <- keys :: k.path(a) == k.path(b) ==> a == b
  }

  function LeafAt(k: Hasher, leaves: map<Path, Hash>, p: Path): Hash {
    if p in leaves then leaves[p] else k.leaf(Placeholder)
  }

  /** Trees with the same leaves are the same. */
  lemma {:induction false} SameLeavesSameTree(k: Hasher, a: map<Path, Hash>, b: map<Path, Hash>, height: nat,
                                              index: nat)
    requires forall p: Path :: LeafAt(k, a, p) == LeafAt(k, b, p)
    ensures Tree(k, a, height, index) == Tree(k, b, height, index)
  {
    if height == 0 {
      assert LeafAt(k, a, index) == LeafAt(k, b, index);
    } else {
      SameLeavesSameTree(k, a, b, height - 1, 2 * index);
      SameLeavesSameTree(k, a, b, height - 1, 2 * index + 1);
    }
  }

  /** Equal subtree hashes force equal leaves below. */
  lemma {:induction false} SameTreeSameLeaves(k: Hasher, a: map<Path, Hash>, b: map<Path, Hash>, height: nat,
                                              index: nat, p: Path)
    requires CollisionFree(k)
    requires Tree(k, a, height, index) == Tree(k, b, height, index)
    requires Shift(p, height) == index
    ensures LeafAt(k, a, p) == LeafAt(k, b, p)
  {
    if height > 0 {
      var child := Shift(p, height - 1);
      assert child == 2 * index || child == 2 * index + 1;
      SameTreeSameLeaves(k, a, b, height - 1, child, p);
    }
  }

  /** The committed value of a key: a missing key reads like the placeholder. */
  function ValueAt(contents: map<Bytes, Bytes>, key: Bytes): Bytes {
    if key in contents then contents[key] else Placeholder
  }

  lemma {:induction false} LeafOfKey(k: Hasher, leaves: seq<Leaf>, keys: set<Bytes>, key: Bytes)
    requires DistinctPaths(k, keys) && Contents(leaves).Keys <= keys && key in keys
    ensures LeafAt(k, HashedLeaves(k, leaves), k.path(key)) == k.leaf(ValueAt(Contents(leaves), key))
  {
    if leaves != [] {
      assert leaves[|leaves| - 1].key in Contents(leaves);
      LeafOfKey(k, leaves[..|leaves| - 1], keys, key);
    }
  }

  lemma {:induction false} NoKeyNoLeaf(k: Hasher, leaves: seq<Leaf>, p: Path)
    requires forall key <- Contents(leaves).Keys :: k.path(key) != p
    ensures p !in HashedLeaves(k, leaves)
  {
    if leaves != [] {
      assert leaves[|leaves| - 1].key in Contents(leaves);
      NoKeyNoLeaf(k, leaves[..|leaves| - 1], p);
    }
  }

  ghost predicate SameValues(a: map<Bytes, Bytes>, b: map<Bytes, Bytes>) {
    forall key: Bytes :: ValueAt(a, key) == ValueAt(b, key)
  }

  lemma SameRootSameValues(k: Hasher, depth: nat, a: seq<Leaf>, b: seq<Leaf>, key: Bytes)
    requires CollisionFree(k) && PathsFit(k, depth) && DistinctPaths(k, Contents(a).Keys + Contents(b).Keys)
    requires RootOf(k, depth, a) == RootOf(k, depth, b)
    ensures ValueAt(Contents(a), key) == ValueAt(Contents(b), key)
  {
    var keys := Contents(a).Keys + Contents(b).Keys;
    if key in keys {
      SameTreeSameLeaves(k, HashedLeaves(k, a), HashedLeaves(k, b), depth, 0, k.path(key));
      LeafOfKey(k, a, keys, key);
      LeafOfKey(k, b, keys, key);
    }
  }

  lemma SameValuesSameRoot(k: Hasher, depth: nat, a: seq<Leaf>, b: seq<Leaf>)
    requires DistinctPaths(k, Contents(a).Keys + Contents(b).Keys)
    requires SameValues(Contents(a), Contents(b))
    ensures RootOf(k, depth, a) == RootOf(k, depth, b)
  {
    var x, y := HashedLeaves(k, a), HashedLeaves(k, b);
    var keys := Contents(a).Keys + Contents(b).Keys;
    forall p: Path ensures LeafAt(k, x, p) == LeafAt(k, y, p) {
      if exists key <- keys :: k.path(key) == p {
        var key :| key in keys && k.path(key) == p;
        LeafOfKey(k, a, keys, key);
        LeafOfKey(k, b, keys, key);
        assert ValueAt(Contents(a), key) == ValueAt(Contents(b), key);
      } else {
        NoKeyNoLeaf(k, a, p);
        NoKeyNoLeaf(k, b, p);
      }
    }
    SameLeavesSameTree(k, x, y, depth, 0);
  }

  /**
   Binding: two states have the same root exactly when they give every key the same value, counting the
   word "empty" and an absent key as the same.
   */
  lemma RootsBind(k: Hasher, depth: nat, a: seq<Leaf>, b: seq<Leaf>)
    requires CollisionFree(k) && PathsFit(k, depth) && DistinctPaths(k, Contents(a).Keys + Contents(b).Keys)
    ensures RootOf(k, depth, a) == RootOf(k, depth, b) <==> SameValues(Contents(a), Contents(b))
  {
    if RootOf(k, depth, a) == RootOf(k, depth, b) {
      forall key: Bytes ensures ValueAt(Contents(a), key) == ValueAt(Contents(b), key) {
        SameRootSameValues(k, depth, a, b, key);
      }
    } else if SameValues(Contents(a), Contents(b)) {
      SameValuesSameRoot(k, depth, a, b);
    }
  }

  /** Without the placeholder among the values, equal roots mean equal states. */
  lemma RootsBindStates(k: Hasher, depth: nat, a: seq<Leaf>, b: seq<Leaf>)
    requires CollisionFree(k) && PathsFit(k, depth) && DistinctPaths(k, Contents(a).Keys + Contents(b).Keys)
    requires Placeholder !in Contents(a).Values && Placeholder !in Contents(b).Values
    requires RootOf(k, depth, a) == RootOf(k, depth, b)
    ensures Contents(a) == Contents(b)
  {
    RootsBind(k, depth, a, b);
    forall key: Bytes ensures key in Contents(a) <==> key in Contents(b)
                      ensures key in Contents(a) ==> Contents(a)[key] == Contents(b)[key]
    {
      assert ValueAt(Contents(a), key) == ValueAt(Contents(b), key);
      assert key in Contents(a) ==> Contents(a)[key] in Contents(a).Values;
      assert key in Contents(b) ==> Contents(b)[key] in Contents(b).Values;
    }
  }

  /** A leaf whose value is the word "empty" leaves the root of the empty state. */
  lemma PlaceholderIsInvisible(k: Hasher, depth: nat, key: Bytes)
    ensures RootOf(k, depth, [Leaf(key, Placeholder)]) == RootOf(k, depth, []) == EmptyHash(k, depth)
  {
    var one := [Leaf(key, Placeholder)];
    assert one[..0] == [] && Contents(one) == map[key := Placeholder] && Contents([]) == map[];
    SameValuesSameRoot(k, depth, one, []);
    EmptyTree(k, map[], depth, 0);
  }

  /* ---------- one path through the tree ---------- */

  /** A leaf hash combined with one hash per level, on the left where the path turns right. */
  function Climb(k: Hasher, depth: nat, p: Path, x: Hash, siblings: seq<Hash>): Hash
    requires |siblings| <= depth
  {
    if siblings == [] then x else
    var n := |siblings| - 1;
    var below := Climb(k, depth, p, x, siblings[..n]);
    if Bit(depth, p, depth - 1 - n) == 0 then k.node(below, siblings[n]) else k.node(siblings[n], below)
  }

  /** The hash of the subtree beside the path, `n` levels up. */
  function Sibling(k: Hasher, leaves: map<Path, Hash>, p: Path, n: nat): Hash {
    var i := Shift(p, n);
    Tree(k, leaves, n, if i % 2 == 0 then i + 1 else i - 1)
  }

  /** From any leaf, combining with the subtrees beside its path gives the subtree above it, and at the top the root. */
  lemma {:induction false} ClimbGivesTree(k: Hasher, depth: nat, leaves: map<Path, Hash>, p: Path, siblings: seq<Hash>)
    requires |siblings| <= depth && forall i | 0 <= i < |siblings| :: siblings[i] == Sibling(k, leaves, p, i)
    ensures Climb(k, depth, p, LeafAt(k, leaves, p), siblings) == Tree(k, leaves, |siblings|, Shift(p, |siblings|))
  {
    if siblings != [] {
      var n := |siblings| - 1;
      ClimbGivesTree(k, depth, leaves, p, siblings[..n]);
      TreeAbove(k, depth, leaves, p, n);
      assert siblings[n] == Sibling(k, leaves, p, n);
      hide Tree, Sibling, Bit, Shift, LeafAt;
    }
  }

  /** A subtree above a path is its subtree below and the one beside that, in the order of the bit. */
  lemma TreeAbove(k: Hasher, depth: nat, leaves: map<Path, Hash>, p: Path, n: nat)
    requires n < depth
    ensures
      var (below, beside) := (Tree(k, leaves, n, Shift(p, n)), Sibling(k, leaves, p, n));
      Tree(k, leaves, n + 1, Shift(p, n + 1)) ==
      if Bit(depth, p, depth - 1 - n) == 0 then k.node(below, beside) else k.node(beside, below)
  {
    var i := Shift(p, n);
    assert Shift(p, n + 1) == i / 2 && Bit(depth, p, depth - 1 - n) == i % 2;
    assert i == 2 * (i / 2) + i % 2;
  }

  /** No other hash can be passed off as the leaf of a path, whatever it is combined with. */
  lemma {:induction false} OnlyLeafClimbs(k: Hasher, depth: nat, leaves: map<Path, Hash>, p: Path, x: Hash,
                                          siblings: seq<Hash>)
    requires CollisionFree(k) && |siblings| <= depth
    requires Climb(k, depth, p, x, siblings) == Tree(k, leaves, |siblings|, Shift(p, |siblings|))
    ensures x == LeafAt(k, leaves, p)
  {
    if siblings != [] {
      var n := |siblings| - 1;
      TreeAbove(k, depth, leaves, p, n);
      hide Tree, Sibling, Bit, Shift, LeafAt;
      OnlyLeafClimbs(k, depth, leaves, p, x, siblings[..n]);
    }
  }

  /* ---------- paths as bytes ---------- */

  lemma {:induction false} ShiftTwice(p: nat, a: nat, b: nat)
    ensures Shift(p, a + b) == Shift(Shift(p, a), b)
  {
    if b > 0 {
      ShiftTwice(p, a, b - 1);
    }
  }

  /** Dropping whole bytes from the end. */
  lemma {:induction false} ShiftBytes(b: Bytes, m: nat)
    requires m <= |b|
    ensures Shift(Value(b), 8 * m) == Value(b[..|b| - m])
  {
    if m == 0 {
      assert b[..|b|] == b;
    } else {
      ShiftBytes(b, m - 1);
      var rest := b[..|b| - m + 1];
      assert rest[..|rest| - 1] == b[..|b| - m];
      ShiftTwice(Value(b), 8 * (m - 1), 8);
      ShiftByte(Value(b[..|b| - m]), rest[|rest| - 1], 8);
    }
  }

  /** Shifting within the last four bits. */
  lemma ShiftNibble(v: nat, x: nat, t: nat)
    requires x < 16 && t <= 4
    ensures t == 4 ==> Shift(v * 16 + x, t) == v
    ensures t < 4 ==> Shift(v * 16 + x, t) % 2 == Shift(x, t) % 2
  {
    var w := v * 16 + x;
    var x1 := x / 2;
    var x2 := x1 / 2;
    var x3 := x2 / 2;
    assert Shift(w, 1) == v * 8 + x1 && Shift(x, 1) == x1;
    assert Shift(w, 2) == v * 4 + x2 && Shift(x, 2) == x2;
    assert Shift(w, 3) == v * 2 + x3 && Shift(x, 3) == x3 && x3 < 2;
    assert Shift(w, 4) == v;
  }

  /** Shifting within the last byte. */
  lemma ShiftByte(v: nat, x: Byte, t: nat)
    requires t <= 8
    ensures t == 8 ==> Shift(v * 256 + x, t) == v
    ensures t < 8 ==> Shift(v * 256 + x, t) % 2 == Shift(x, t) % 2
  {
    var high, low := x / 16, x % 16;
    var upper := v * 16 + high;
    assert v * 256 + x == upper * 16 + low && x == high * 16 + low;
    hide Shift;
    if t < 4 {
      ShiftNibble(upper, low, t);
      ShiftNibble(high, low, t);
    } else {
      ShiftNibble(upper, low, 4);
      ShiftNibble(high, low, 4);
      ShiftTwice(v * 256 + x, 4, t - 4);
      ShiftTwice(x, 4, t - 4);
      ShiftNibble(v, high, t - 4);
    }
  }

  /** The bit the program reads from the byte at i / 8 is bit i of the path. */
  lemma BitOfBytes(b: Bytes, i: nat)
    requires i < 8 * |b|
    ensures Bit(8 * |b|, Value(b), i) == Shift(b[i / 8], 7 - i % 8) % 2
  {
    var m := |b| - 1 - i / 8;
    var head := b[..|b| - m];
    ShiftBytes(b, m);
    ShiftTwice(Value(b), 8 * m, 7 - i % 8);
    ShiftByte(Value(head[..|head| - 1]), head[|head| - 1], 7 - i % 8);
  }

  /** Sorting paths by their bytes is sorting them by number. */
  lemma PathOrder(a: Bytes, b: Bytes)
    requires |a| == |b|
    ensures LexLess(a, b) <==> Value(a) < Value(b)
  {
    LexIsNumeric(a, b);
  }
}
