/** The nodes of the hash trie as objects shared between roots, and the operations that copy what they change. */
module Hamt {
  import opened Values
  import opened Bits
  import opened Tries

  class Node {
    var isBucket: bool
    var leaves: seq<Leaf>
    var bitmap: bv32
    var children: seq<Node?>      // one slot for each segment
    ghost var tree: Tree
    ghost var repr: set<Node>

    /** The objects reachable from here hold `tree`. Children may be shared with other nodes. */
    ghost predicate Valid()
      reads this, repr
      decreases repr
    {
      && this in repr && |children| == 32
      && if isBucket then tree == Tree.Bucket(leaves)
         else && tree.Branch? && tree.bitmap == bitmap
              && (forall s | s in tree.children :: 0 <= s < 32)
              && forall s | 0 <= s < 32 ::
                (s in tree.children <==> children[s] != null) && (children[s] != null ==> Holds(s))
    }

    ghost predicate Holds(s: Segment)
      requires this in repr && |children| == 32 && tree.Branch? && s in tree.children && children[s] != null
      reads this, repr
      decreases repr, 0
    {
      var c := children[s];
      c in repr && c.repr <= repr && this !in c.repr && c.Valid() && c.tree == tree.children[s]
    }

    constructor Bucket(ls: seq<Leaf>)
      ensures Valid() && tree == Tree.Bucket(ls) && fresh(repr)
    {
      isBucket, leaves, bitmap, children := true, ls, 0, seq(32, i => null);
      tree, repr := Tree.Bucket(ls), {this};
    }

    constructor EmptyBranch()
      ensures Valid() && tree == Tree.Branch(0, map[]) && fresh(repr)
    {
      isBucket, leaves, bitmap, children := false, [], 0, seq(32, i => null);
      tree, repr := Tree.Branch(0, map[]), {this};
    }

    /** A copy of a branch, to be edited. */
    constructor Copy(node: Node)
      requires node.Valid() && !node.isBucket
      ensures Valid() && tree == node.tree && !isBucket && bitmap == node.bitmap && children == node.children
      ensures repr == node.repr - {node} + {this}
    {
      isBucket, leaves, bitmap, children := node.isBucket, node.leaves, node.bitmap, node.children;
      tree, repr := node.tree, node.repr - {node} + {this};
      new;
      forall s | 0 <= s < 32 && children[s] != null ensures Holds(s) {
        assert node.Holds(s);
      }
    }

    /** Change a slot and the bitmap. */
    method SetChild(s: Segment, child: Node?, bits: bv32)
      requires Valid() && !isBucket && (child != null ==> child.Valid() && this !in child.repr)
      modifies this
      ensures Valid() && !isBucket && bitmap == bits && children == old(children)[s := child]
      ensures repr == old(repr) + (if child == null then {} else child.repr)
      ensures tree == Tree.Branch(bits, Placed(old(tree).children, s, if child == null then None else Some(child.tree)))
    {
      children := children[s := child];
      bitmap := bits;
      if child == null {
        tree := Tree.Branch(bits, tree.children - {s});
      } else {
        tree := Tree.Branch(bits, tree.children[s := child.tree]);
        repr := repr + child.repr;
      }
      forall u | 0 <= u < 32 && children[u] != null ensures Holds(u) {
        if u != s { assert old(Holds(u)); }
      }
    }
  }

  ghost function Placed(children: map<int, Tree>, s: Segment, t: Option<Tree>): map<int, Tree> {
    if t.None? then children - {s} else children[s := t.value]
  }

  ghost function TreeOf(node: Node?): Option<Tree>
    reads node
  {
    if node == null then None else Some(node.tree)
  }

  /** Where a key goes: at the end of a path its hash follows. */
  ghost predicate Reaches(h: Hashing, key: MapKey, hash: bv64, path: seq<int>, depth: nat) {
    hash == h(key) && |path| == depth && OnPath(hash, path)
  }

  /** `node` is a well-formed subtree, nothing, or (`mayBeEmpty`) a branch still without children. */
  ghost predicate Sound(h: Hashing, node: Node?, path: seq<int>)
    reads node, if node == null then {} else node.repr
  {
    node != null ==> node.Valid() && WellFormed(h, node.tree, path)
  }

  method Get(h: Hashing, node: Node?, hash: bv64, depth: nat, key: MapKey, ghost path: seq<int>)
    returns (r: Option<MapPair>)
    requires Sound(h, node, path) && Reaches(h, key, hash, path, depth)
    ensures r == LookupIn(TreeOf(node), hash, depth, key)
    decreases if node == null then {} else node.repr
  {
    hide Has; hide Segm;
    if node == null { return None; }
    if node.isBucket {
      r := GetLeaf(node.leaves, key);
      return;
    }
    var seg := Segm(hash, depth);
    if !Has(node.bitmap, seg) { return None; }
    assert node.Holds(seg);
    PathGrows(hash, path, seg);
    r := Get(h, node.children[seg], hash, depth + 1, key, path + [seg]);
  }

  lemma PathGrows(hash: bv64, path: seq<int>, seg: Segment)
    requires OnPath(hash, path) && Segm(hash, |path|) == seg
    ensures OnPath(hash, path + [seg])
  {}

  method GetLeaf(ls: seq<Leaf>, key: MapKey) returns (r: Option<MapPair>)
    ensures r == Find(ls, key)
  {
    var i := 0;
    while i < |ls|
      invariant i <= |ls| && Find(ls, key) == Find(ls[i..], key)
    {
      if ls[i].key == key { return Some(ls[i].pair); }
      assert ls[i..][1..] == ls[i + 1..];
      i := i + 1;
    }
    r := None;
  }

  // ----- insertion -----

  /** A well-formed tree, or a branch that has no children yet. */
  ghost predicate Grows(h: Hashing, t: Tree, path: seq<int>) {
    WellFormed(h, t, path) || (t == Tree.Branch(0, map[]) && |path| < MAX_DEPTH)
  }

  /** The subtree that results holds what it held, and the new pair. */
  ghost predicate Inserted(h: Hashing, before: Option<Tree>, after: Tree, depth: nat, key: MapKey, pair: MapPair) {
    forall k :: Lookup(after, h(k), depth, k) == if k == key then Some(pair) else LookupIn(before, h(k), depth, k)
  }

  lemma OneLeaf(h: Hashing, path: seq<int>, key: MapKey, pair: MapPair)
    requires OnPath(h(key), path)
    ensures WellFormed(h, Tree.Bucket([Leaf(key, pair)]), path)
    ensures Inserted(h, None, Tree.Bucket([Leaf(key, pair)]), |path|, key, pair)
  {}

  lemma EmptyGrows(h: Hashing, path: seq<int>)
    requires |path| < MAX_DEPTH
    ensures Grows(h, Tree.Branch(0, map[]), path)
    ensures forall hash, k :: Lookup(Tree.Branch(0, map[]), hash, |path|, k) == None
  {}

  lemma GrowsBranch(h: Hashing, t: Tree, path: seq<int>)
    requires t.Branch? && Grows(h, t, path)
    ensures |path| < MAX_DEPTH && Tallied(t.bitmap, t.children)
    ensures forall s | s in t.children :: WellFormed(h, t.children[s], path + [s])
  {
    hide Has;
    forall s: Segment ensures !Has(0, s) { EmptyHas(s); }
  }

  /** Setting the bit and the child of the key's segment inserts into the branch what is inserted into the child. */
  lemma ChildInserted(h: Hashing, t: Tree, path: seq<int>, s: Segment, c: Tree, bits: bv32, key: MapKey, pair: MapPair)
    requires t.Branch? && Grows(h, t, path) && s == Segm(h(key), |path|)
    requires bits == if s in t.children then t.bitmap else With(t.bitmap, s)
    requires WellFormed(h, c, path + [s])
    requires Inserted(h, if s in t.children then Some(t.children[s]) else None, c, |path| + 1, key, pair)
    ensures WellFormed(h, Tree.Branch(bits, t.children[s := c]), path)
    ensures Inserted(h, Some(t), Tree.Branch(bits, t.children[s := c]), |path|, key, pair)
  {
    hide Has; hide With; hide Segm;
    GrowsBranch(h, t, path);
    var children := t.children[s := c];
    forall u: Segment ensures Has(bits, u) <==> u in children { HasWith(t.bitmap, s, u); }
    if bits == 0 { EmptyHas(s); }
    forall k
      ensures Lookup(Tree.Branch(bits, children), h(k), |path|, k)
              == if k == key then Some(pair) else Lookup(t, h(k), |path|, k)
    {
      var u := Segm(h(k), |path|);
    }
  }

  /** A new root (or subtree): nothing reachable from the old one is written to. */
  method Insert(h: Hashing, node: Node?, hash: bv64, depth: nat, key: MapKey, pair: MapPair, ghost path: seq<int>)
    returns (out: Node, replaced: bool)
    requires Reaches(h, key, hash, path, depth)
    requires node != null ==> node.Valid() && Grows(h, node.tree, path)
    ensures out.Valid() && WellFormed(h, out.tree, path)
    ensures Inserted(h, TreeOf(node), out.tree, depth, key, pair)
    ensures replaced <==> LookupIn(TreeOf(node), hash, depth, key).Some?
    ensures node != null && !node.isBucket ==> !out.isBucket
    decreases if depth < MAX_DEPTH then MAX_DEPTH - depth else 0, if node != null && node.isBucket then 1 else 0
  {
    hide WellFormed; hide Inserted; hide Find;
    if node == null {
      out := new Node.Bucket([Leaf(key, pair)]);
      replaced := false;
      OneLeaf(h, path, key, pair);
    } else if node.isBucket {
      var leaves;
      leaves, replaced := PutLeaf(h, node.leaves, key, pair, path);
      if replaced || |leaves| <= 4 || depth >= MAX_DEPTH {
        out := new Node.Bucket(leaves);
      } else {
        out := Promote(h, leaves, depth, path);
        PromotedIs(h, node.leaves, leaves, out.tree, depth, key, pair);
      }
    } else {
      out, replaced := InsertBelow(h, node, hash, depth, key, pair, path);
    }
  }

  /** Replace the pair of a key in a copy of the leaves, or append it. */
  method PutLeaf(h: Hashing, ls: seq<Leaf>, key: MapKey, pair: MapPair, ghost path: seq<int>)
    returns (out: seq<Leaf>, replaced: bool)
    requires WellFormed(h, Tree.Bucket(ls), path) && OnPath(h(key), path)
    ensures WellFormed(h, Tree.Bucket(out), path)
    ensures Inserted(h, Some(Tree.Bucket(ls)), Tree.Bucket(out), |path|, key, pair)
    ensures replaced <==> Find(ls, key).Some?
  {
    out, replaced := ls, false;
    var i := 0;
    while i < |out|
      invariant i <= |ls| && out == ls
      invariant forall j | 0 <= j < i :: ls[j].key != key
    {
      if out[i].key == key {
        FindUnique(ls, ls[i]);
        forall k ensures Find(ls[i := Leaf(key, pair)], k) == if k == key then Some(pair) else Find(ls, k) {
          FindReplace(ls, i, pair, k);
        }
        FindReplace(ls, i, pair, key);
        return out[i := Leaf(key, pair)], true;
      }
      i := i + 1;
    }
    forall k ensures Find(ls + [Leaf(key, pair)], k) == if k == key then Some(pair) else Find(ls, k) {
      FindAppend(ls, Leaf(key, pair), k);
    }
    out := out + [Leaf(key, pair)];
  }

  /** A bucket that has grown too large becomes a branch holding the same pairs. */
  method Promote(h: Hashing, leaves: seq<Leaf>, depth: nat, ghost path: seq<int>) returns (branch: Node)
    requires WellFormed(h, Tree.Bucket(leaves), path) && |path| == depth < MAX_DEPTH
    ensures branch.Valid() && !branch.isBucket && WellFormed(h, branch.tree, path)
    ensures forall k :: Lookup(branch.tree, h(k), depth, k) == Find(leaves, k)
    decreases MAX_DEPTH - depth, 1, 0
  {
    hide WellFormed; hide Grows; hide Lookup; hide Find; hide Inserted; hide HoldsFirst; hide OnPath;
    branch := new Node.EmptyBranch();
    EmptyHoldsFirst(h, path, leaves);
    var i := 0;
    while i < |leaves|
      invariant i <= |leaves| && branch.Valid() && !branch.isBucket
      invariant Grows(h, branch.tree, path) && (i > 0 ==> WellFormed(h, branch.tree, path))
      invariant HoldsFirst(h, branch.tree, depth, leaves, i)
    {
      var leaf := leaves[i];
      ghost var before := branch.tree;
      LeafOnPath(h, leaves, path, i);
      var replacedInner;
      branch, replacedInner := Insert(h, branch, h(leaf.key), depth, leaf.key, leaf.pair, path);
      GrownIsSound(h, branch.tree, path);
      NextLeafHeld(h, before, branch.tree, leaves, i, path);
      i := i + 1;
    }
    BucketIsNotEmpty(h, leaves, path);
    HoldsAll(h, branch.tree, depth, leaves);
  }

  /** The tree holds the first `i` leaves. */
  ghost predicate HoldsFirst(h: Hashing, t: Tree, depth: nat, leaves: seq<Leaf>, i: nat)
    requires i <= |leaves|
  {
    forall k :: Lookup(t, h(k), depth, k) == Find(leaves[..i], k)
  }

  lemma EmptyHoldsFirst(h: Hashing, path: seq<int>, leaves: seq<Leaf>)
    requires |path| < MAX_DEPTH
    ensures Grows(h, Tree.Branch(0, map[]), path) && HoldsFirst(h, Tree.Branch(0, map[]), |path|, leaves, 0)
  {
    EmptyGrows(h, path);
  }

  lemma LeafOnPath(h: Hashing, leaves: seq<Leaf>, path: seq<int>, i: nat)
    requires WellFormed(h, Tree.Bucket(leaves), path) && i < |leaves|
    ensures OnPath(h(leaves[i].key), path)
  {}

  lemma NextLeafHeld(h: Hashing, before: Tree, after: Tree, leaves: seq<Leaf>, i: nat, path: seq<int>)
    requires WellFormed(h, Tree.Bucket(leaves), path) && i < |leaves| && HoldsFirst(h, before, |path|, leaves, i)
    requires Inserted(h, Some(before), after, |path|, leaves[i].key, leaves[i].pair)
    ensures HoldsFirst(h, after, |path|, leaves, i + 1)
  {
    hide Find; hide WellFormed;
    PrefixLeaves(h, leaves, path, i);
  }

  lemma BucketIsNotEmpty(h: Hashing, leaves: seq<Leaf>, path: seq<int>)
    requires WellFormed(h, Tree.Bucket(leaves), path)
    ensures leaves != []
  {}

  lemma HoldsAll(h: Hashing, t: Tree, depth: nat, leaves: seq<Leaf>)
    requires HoldsFirst(h, t, depth, leaves, |leaves|)
    ensures forall k :: Lookup(t, h(k), depth, k) == Find(leaves, k)
  {
    assert leaves[..|leaves|] == leaves;
  }

  lemma PromotedIs(h: Hashing, before: seq<Leaf>, leaves: seq<Leaf>, t: Tree, depth: nat, key: MapKey, pair: MapPair)
    requires Inserted(h, Some(Tree.Bucket(before)), Tree.Bucket(leaves), depth, key, pair)
    requires forall k :: Lookup(t, h(k), depth, k) == Find(leaves, k)
    ensures Inserted(h, Some(Tree.Bucket(before)), t, depth, key, pair)
  {
    forall k ensures Lookup(t, h(k), depth, k) == Lookup(Tree.Bucket(leaves), h(k), depth, k) {}
  }

  lemma PrefixLeaves(h: Hashing, ls: seq<Leaf>, path: seq<int>, i: nat)
    requires i < |ls| && WellFormed(h, Tree.Bucket(ls), path)
    ensures OnPath(h(ls[i].key), path)
    ensures forall k :: Find(ls[..i + 1], k) == if k == ls[i].key then Some(ls[i].pair) else Find(ls[..i], k)
  {
    assert ls[..i + 1] == ls[..i] + [ls[i]];
    forall k { FindAppend(ls[..i], ls[i], k); }
  }

  method InsertBelow(h: Hashing, node: Node, hash: bv64, depth: nat, key: MapKey, pair: MapPair, ghost path: seq<int>)
    returns (out: Node, replaced: bool)
    requires Reaches(h, key, hash, path, depth)
    requires node.Valid() && !node.isBucket && Grows(h, node.tree, path)
    ensures out.Valid() && !out.isBucket && WellFormed(h, out.tree, path)
    ensures Inserted(h, Some(node.tree), out.tree, depth, key, pair)
    ensures replaced <==> Lookup(node.tree, hash, depth, key).Some?
    decreases if depth < MAX_DEPTH then MAX_DEPTH - depth else 0, 0, 0
  {
    hide WellFormed; hide Grows; hide Inserted; hide Has; hide With; hide Segm;
    GrowsBranch(h, node.tree, path);
    var seg := Segm(hash, depth);
    PathGrows(hash, path, seg);
    var child, bits := node.children[seg], node.bitmap;
    if !Has(node.bitmap, seg) {
      child := new Node.Bucket([Leaf(key, pair)]);
      bits := With(bits, seg);
      replaced := false;
      OneLeaf(h, path + [seg], key, pair);
    } else {
      assert node.Holds(seg);
      assert Grows(h, child.tree, path + [seg]) by { GrownIsSound(h, child.tree, path + [seg]); }
      child, replaced := Insert(h, child, hash, depth + 1, key, pair, path + [seg]);
    }
    out := new Node.Copy(node);
    out.SetChild(seg, child, bits);
    ChildInserted(h, node.tree, path, seg, child.tree, bits, key, pair);
  }

  lemma GrownIsSound(h: Hashing, t: Tree, path: seq<int>)
    requires WellFormed(h, t, path)
    ensures Grows(h, t, path)
  {}

  // ----- deletion -----

  /** The subtree that results holds what it held, except the key. */
  ghost predicate Deleted(h: Hashing, before: Option<Tree>, after: Option<Tree>, depth: nat, key: MapKey) {
    forall k :: LookupIn(after, h(k), depth, k) == if k == key then None else LookupIn(before, h(k), depth, k)
  }

  method Delete(h: Hashing, node: Node?, hash: bv64, depth: nat, key: MapKey, ghost path: seq<int>)
    returns (out: Node?, removed: bool)
    requires Sound(h, node, path) && Reaches(h, key, hash, path, depth)
    ensures Sound(h, out, path)
    ensures Deleted(h, TreeOf(node), TreeOf(out), depth, key)
    ensures removed <==> LookupIn(TreeOf(node), hash, depth, key).Some?
    ensures !removed ==> out == node
    decreases if node == null then {} else node.repr
  {
    hide WellFormed; hide Find;
    out, removed := node, false;
    if node == null { return; }
    if node.isBucket {
      out, removed := DeleteLeaf(h, node, key, path);
    } else {
      out, removed := DeleteBelow(h, node, hash, depth, key, path);
    }
  }

  method DeleteLeaf(h: Hashing, node: Node, key: MapKey, ghost path: seq<int>) returns (out: Node?, removed: bool)
    requires Sound(h, node, path) && node.isBucket
    ensures Sound(h, out, path)
    ensures Deleted(h, Some(node.tree), TreeOf(out), |path|, key)
    ensures removed <==> Find(node.leaves, key).Some?
    ensures !removed ==> out == node
  {
    var ls, i := node.leaves, 0;
    while i < |ls| && ls[i].key != key
      invariant i <= |ls| && forall j | 0 <= j < i :: ls[j].key != key
    {
      i := i + 1;
    }
    if i == |ls| {
      return node, false;
    }
    FindUnique(ls, ls[i]);
    forall k ensures Find(ls[..i] + ls[i + 1..], k) == if k == key then None else Find(ls, k) { FindRemove(ls, i, k); }
    FindRemove(ls, i, key);
    if |ls| == 1 {
      return null, true;
    }
    out := new Node.Bucket(ls[..i] + ls[i + 1..]);
    removed := true;
  }

  method DeleteBelow(h: Hashing, node: Node, hash: bv64, depth: nat, key: MapKey, ghost path: seq<int>)
    returns (out: Node?, removed: bool)
    requires Sound(h, node, path) && !node.isBucket && Reaches(h, key, hash, path, depth)
    ensures Sound(h, out, path)
    ensures Deleted(h, Some(node.tree), TreeOf(out), depth, key)
    ensures removed <==> Lookup(node.tree, hash, depth, key).Some?
    ensures !removed ==> out == node
    decreases node.repr, 0
  {
    hide Has; hide With; hide Without; hide Rest; hide Segm; hide Deleted; hide WellFormed;
    out, removed := node, false;
    var seg := Segm(hash, depth);
    BranchIsTallied(h, node.tree, path);
    if !Has(node.bitmap, seg) {
      NothingDeleted(h, node.tree, depth, key);
      return;
    }
    assert node.Holds(seg);
    PathGrows(hash, path, seg);
    var child := node.children[seg];
    var next;
    next, removed := Delete(h, child, hash, depth + 1, key, path + [seg]);
    if !removed {
      NothingDeleted(h, node.tree, depth, key);
      return;
    }
    var copy := new Node.Copy(node);
    if next != null {
      copy.SetChild(seg, next, copy.bitmap);
      ChildDeleted(h, node.tree, path, seg, Some(next.tree), copy.bitmap, key);
      return copy, true;
    }
    copy.SetChild(seg, null, Without(copy.bitmap, seg));
    ChildDeleted(h, node.tree, path, seg, None, copy.bitmap, key);
    if copy.bitmap == 0 {
      NoChildren(h, copy.tree, depth);
      LeavesNothing(h, node.tree, copy.tree, depth, key);
      return null, true;
    }
    if Rest(copy.bitmap) == 0 {
      var onlySeg := Trailing(copy.bitmap);
      var only := copy.children[onlySeg];
      if only != null && only.isBucket {
        assert copy.Holds(onlySeg);
        OnlyChild(h, copy.tree, path, onlySeg);
        SameDeleted(h, node.tree, copy.tree, only.tree, depth, key);
        return only, true;
      }
    }
    out := copy;
  }

  lemma BranchIsTallied(h: Hashing, t: Tree, path: seq<int>)
    requires t.Branch? && WellFormed(h, t, path)
    ensures |path| < MAX_DEPTH && t.bitmap != 0 && Tallied(t.bitmap, t.children)
    ensures forall s | s in t.children :: WellFormed(h, t.children[s], path + [s])
  {}

  lemma NothingDeleted(h: Hashing, t: Tree, depth: nat, key: MapKey)
    requires Lookup(t, h(key), depth, key).None?
    ensures Deleted(h, Some(t), Some(t), depth, key)
  {}

  /** Deleting from the child of the key's segment deletes from the branch; only the bitmap may become empty. */
  lemma ChildDeleted(h: Hashing, t: Tree, path: seq<int>, s: Segment, c: Option<Tree>, bits: bv32, key: MapKey)
    requires t.Branch? && WellFormed(h, t, path) && s == Segm(h(key), |path|) && s in t.children
    requires bits == if c.None? then Without(t.bitmap, s) else t.bitmap
    requires c.Some? ==> WellFormed(h, c.value, path + [s])
    requires Deleted(h, Some(t.children[s]), c, |path| + 1, key)
    ensures Tallied(bits, Placed(t.children, s, c))
    ensures bits != 0 ==> WellFormed(h, Tree.Branch(bits, Placed(t.children, s, c)), path)
    ensures Deleted(h, Some(t), Some(Tree.Branch(bits, Placed(t.children, s, c))), |path|, key)
  {
    hide Has; hide Without; hide Segm;
    var children := Placed(t.children, s, c);
    forall u: Segment ensures Has(bits, u) <==> u in children { HasWithout(t.bitmap, s, u); }
    var after := Tree.Branch(bits, children);
    forall k ensures Lookup(after, h(k), |path|, k) == if k == key then None else Lookup(t, h(k), |path|, k) {
      var u := Segm(h(k), |path|);
      assert LookupIn(c, h(k), |path| + 1, k) == if k == key then None else Lookup(t.children[s], h(k), |path| + 1, k);
    }
  }

  lemma NoChildren(h: Hashing, t: Tree, depth: nat)
    requires t.Branch? && t.bitmap == 0 && Tallied(t.bitmap, t.children)
    ensures forall k :: Lookup(t, h(k), depth, k) == None
  {
    hide Has; hide Segm;
    forall s: Segment ensures !Has(0, s) { EmptyHas(s); }
  }

  lemma LeavesNothing(h: Hashing, before: Tree, t: Tree, depth: nat, key: MapKey)
    requires Deleted(h, Some(before), Some(t), depth, key) && forall k :: Lookup(t, h(k), depth, k) == None
    ensures Deleted(h, Some(before), None, depth, key)
  {
    forall k ensures LookupIn(None, h(k), depth, k) == LookupIn(Some(t), h(k), depth, k) {}
  }

  /** A bucket that is an only child can take the place of its parent. */
  lemma OnlyChild(h: Hashing, t: Tree, path: seq<int>, s: Segment)
    requires t.Branch? && WellFormed(h, t, path) && Rest(t.bitmap) == 0 && Has(t.bitmap, s)
    requires s in t.children && t.children[s].Bucket?
    ensures WellFormed(h, t.children[s], path)
    ensures forall k :: Lookup(t.children[s], h(k), |path|, k) == Lookup(t, h(k), |path|, k)
  {
    hide Has; hide Rest; hide Segm;
    var only := t.children[s];
    forall l | l in only.leaves ensures OnPath(h(l.key), path) {
      assert forall d | 0 <= d < |path| :: (path + [s])[d] == path[d];
    }
    forall k ensures Lookup(only, h(k), |path|, k) == Lookup(t, h(k), |path|, k) {
      var u := Segm(h(k), |path|);
      if Find(only.leaves, k).Some? {
        FoundOnPath(h, only, path + [s], k);
        assert (path + [s])[|path|] == s;
      }
      if u in t.children {
        RestEmpty(t.bitmap, s, u);
      }
    }
  }

  lemma SameDeleted(h: Hashing, before: Tree, t: Tree, t1: Tree, depth: nat, key: MapKey)
    requires Deleted(h, Some(before), Some(t), depth, key)
    requires forall k :: Lookup(t1, h(k), depth, k) == Lookup(t, h(k), depth, k)
    ensures Deleted(h, Some(before), Some(t1), depth, key)
  {
    forall k ensures LookupIn(Some(t1), h(k), depth, k) == LookupIn(Some(t), h(k), depth, k) {}
  }

  // ----- visiting -----

  /** The visits of a callback that may ask to stop: all of `ls`, or as far as the first refusal. */
  ghost predicate Visited(ls: seq<Leaf>, fn: (MapKey, MapPair) -> bool, seen: seq<Leaf>, finished: bool) {
    && seen <= ls
    && (forall i | 0 <= i < |seen| - (if finished then 0 else 1) :: fn(seen[i].key, seen[i].pair))
    && if finished then seen == ls
       else seen != [] && !fn(seen[|seen| - 1].key, seen[|seen| - 1].pair)
  }

  /** Call `fn` for the pairs, in the order of their segments, until it refuses; `seen` records the calls. */
  method ForEach(h: Hashing, node: Node?, fn: (MapKey, MapPair) -> bool, ghost path: seq<int>)
    returns (seen: seq<Leaf>, finished: bool)
    requires Sound(h, node, path)
    ensures Visited(if node == null then [] else Leaves(node.tree), fn, seen, finished)
    decreases if node == null then {} else node.repr, 1
  {
    hide WellFormed; hide Visited;
    seen, finished := [], true;
    if node == null {
      VisitedNone(fn);
      return;
    }
    if node.isBucket {
      seen, finished := ForEachLeaf(node.leaves, fn);
      return;
    }
    seen, finished := ForEachBelow(h, node, fn, path);
  }

  /** The children one by one, clearing the lowest bit of the bitmap each time. */
  method ForEachBelow(h: Hashing, node: Node, fn: (MapKey, MapPair) -> bool, ghost path: seq<int>)
    returns (seen: seq<Leaf>, finished: bool)
    requires Sound(h, node, path) && !node.isBucket
    ensures Visited(Leaves(node.tree), fn, seen, finished)
    decreases node.repr, 0
  {
    hide Has; hide Rest; hide Trailing; hide WellFormed; hide Visited; hide Leaves; hide LeavesIn; hide VisitedSoFar;
    hide Node.Valid;
    seen, finished := [], true;
    BranchIsHeld(node);
    var bm := node.bitmap;
    VisitNone(node.tree, fn);
    while bm != 0
      invariant finished && VisitedSoFar(node.tree, fn, seen, bm)
      invariant forall s: Segment | Has(bm, s) :: Has(node.bitmap, s)
      decreases bm
    {
      var seg := Trailing(bm);
      NextChild(h, node.tree, path, bm);
      ChildIsHeld(node, seg);
      var more;
      more, finished := ForEach(h, node.children[seg], fn, path + [seg]);
      VisitMore(node.tree, fn, seen, bm, more, finished);
      seen := seen + more;
      if !finished { return; }
      bm := Rest(bm);
    }
    VisitAll(node.tree, fn, seen);
  }

  lemma BranchIsHeld(node: Node)
    requires node.Valid() && !node.isBucket
    ensures node.tree.Branch? && node.tree.bitmap == node.bitmap && |node.children| == 32
  {}

  lemma ChildIsHeld(node: Node, s: Segment)
    requires node.Valid() && !node.isBucket && s in node.tree.children
    ensures |node.children| == 32 && node.children[s] != null && node.children[s].Valid()
    ensures node.children[s].tree == node.tree.children[s] && node.children[s].repr < node.repr
  {
    assert node.Holds(s);
  }

  /** Everything but what lies under the children of these bits has been visited. */
  ghost predicate VisitedSoFar(t: Tree, fn: (MapKey, MapPair) -> bool, seen: seq<Leaf>, bm: bv32)
    requires t.Branch?
  {
    Visited(seen, fn, seen, true) && Leaves(t) == seen + LeavesIn(t, bm)
  }

  lemma VisitNone(t: Tree, fn: (MapKey, MapPair) -> bool)
    requires t.Branch?
    ensures VisitedSoFar(t, fn, [], t.bitmap)
  {
    assert [] + LeavesIn(t, t.bitmap) == LeavesIn(t, t.bitmap);
  }

  lemma VisitMore(t: Tree, fn: (MapKey, MapPair) -> bool, seen: seq<Leaf>, bm: bv32, more: seq<Leaf>, finished: bool)
    requires t.Branch? && VisitedSoFar(t, fn, seen, bm) && bm != 0 && Trailing(bm) in t.children
    requires LeavesIn(t, bm) == Leaves(t.children[Trailing(bm)]) + LeavesIn(t, Rest(bm))
    requires Visited(Leaves(t.children[Trailing(bm)]), fn, more, finished)
    ensures if finished then VisitedSoFar(t, fn, seen + more, Rest(bm)) else Visited(Leaves(t), fn, seen + more, false)
  {
    hide Visited; hide Leaves; hide LeavesIn;
    VisitedMore(fn, seen, Leaves(t.children[Trailing(bm)]), LeavesIn(t, Rest(bm)), more, finished);
  }

  lemma VisitAll(t: Tree, fn: (MapKey, MapPair) -> bool, seen: seq<Leaf>)
    requires t.Branch? && VisitedSoFar(t, fn, seen, 0)
    ensures Visited(Leaves(t), fn, seen, true)
  {
    hide Visited;
    assert seen + LeavesIn(t, 0) == seen;
  }

  /** The child of the lowest bit comes first; the others are those of the remaining bits. */
  lemma NextChild(h: Hashing, t: Tree, path: seq<int>, bm: bv32)
    requires t.Branch? && WellFormed(h, t, path) && bm != 0 && forall s: Segment | Has(bm, s) :: Has(t.bitmap, s)
    ensures var seg := Trailing(bm);
            && seg in t.children && WellFormed(h, t.children[seg], path + [seg])
            && LeavesIn(t, bm) == Leaves(t.children[seg]) + LeavesIn(t, Rest(bm))
    ensures Rest(bm) < bm && forall s: Segment | Has(Rest(bm), s) :: Has(t.bitmap, s)
  {
    hide Has; hide ClearBelow; hide Rest; hide Without; hide Trailing; hide WellFormed; hide Leaves;
    var seg := Trailing(bm);
    BranchIsTallied(h, t, path);
    RestIsLess(bm);
    RestIsWithout(bm, seg);
    forall u: Segment ensures Has(Rest(bm), u) ==> Has(bm, u) { HasWithout(bm, seg, u); }
  }

  lemma VisitedNone(fn: (MapKey, MapPair) -> bool)
    ensures Visited([], fn, [], true)
  {}

  lemma VisitedMore(fn: (MapKey, MapPair) -> bool, seen: seq<Leaf>, here: seq<Leaf>, after: seq<Leaf>, more: seq<Leaf>,
                    finished: bool)
    requires Visited(seen, fn, seen, true) && Visited(here, fn, more, finished)
    ensures Visited(seen + here, fn, seen + more, finished)
    ensures !finished ==> Visited(seen + (here + after), fn, seen + more, false)
    ensures finished ==> Visited(seen + more, fn, seen + more, true) && seen + (here + after) == (seen + more) + after
  {
    assert seen + (here + after) == (seen + here) + after;
  }

  method ForEachLeaf(ls: seq<Leaf>, fn: (MapKey, MapPair) -> bool) returns (seen: seq<Leaf>, finished: bool)
    ensures Visited(ls, fn, seen, finished)
  {
    var i := 0;
    while i < |ls|
      invariant i <= |ls| && forall j | 0 <= j < i :: fn(ls[j].key, ls[j].pair)
    {
      if !fn(ls[i].key, ls[i].pair) {
        return ls[..i + 1], false;
      }
      i := i + 1;
    }
    seen, finished := ls, true;
  }
}
