/** What a hash trie stands for: the tree under a root as a value, independent of the objects holding it. */
module Tries {
  import opened Values
  import opened Bits

  /** A key compares by its type and a 64-bit value; how keys are hashed is a parameter of every operation. */
  datatype MapKey = MapKey(kind: string, value: nat)

  datatype MapPair = MapPair(key: Value, value: Value)

  datatype Leaf = Leaf(key: MapKey, pair: MapPair)

  datatype Tree =
    | Bucket(leaves: seq<Leaf>)
    | Branch(bitmap: bv32, children: map<int, Tree>)

  type Hashing = MapKey -> bv64

  /** Branches stand at depths 0 to 12 only: 13 segments of five bits cover a hash. */
  const MAX_DEPTH: nat := 13

  function Segm(hash: bv64, depth: nat): Segment {
    if 5 * depth >= 64 then 0 else ((hash >> (5 * depth)) & 31) as int
  }

  /** The first segments of the hash are those of the path. */
  predicate OnPath(hash: bv64, path: seq<int>) {
    forall d | 0 <= d < |path| :: Segm(hash, d) == path[d]
  }

  predicate Distinct(ls: seq<Leaf>) {
    forall i, j | 0 <= i < j < |ls| :: ls[i].key != ls[j].key
  }

  /** A bit is set exactly when there is a child. */
  ghost predicate Tallied(bitmap: bv32, children: map<int, Tree>) {
    && (forall s | s in children :: 0 <= s < 32)
    && forall s: Segment :: Has(bitmap, s) <==> s in children
  }

  /** The tree at the end of `path`: no node is empty, keys are distinct, every leaf lies on the path of its hash and no
      branch is too deep. The size of a bucket is not bounded: deletion can lift a full one. */
  ghost predicate WellFormed(h: Hashing, t: Tree, path: seq<int>) {
    match t
    case Bucket(ls) => ls != [] && Distinct(ls) && forall l | l in ls :: OnPath(h(l.key), path)
    case Branch(bitmap, children) =>
      && |path| < MAX_DEPTH && bitmap != 0 && Tallied(bitmap, children)
      && forall s | s in children :: WellFormed(h, children[s], path + [s])
  }

  function Find(ls: seq<Leaf>, k: MapKey): (r: Option<MapPair>)
    ensures r.Some? ==> Leaf(k, r.value) in ls
    ensures r.None? ==> forall l | l in ls :: l.key != k
  {
    if ls == [] then None else if ls[0].key == k then Some(ls[0].pair) else Find(ls[1..], k)
  }

  /** The pair stored for a key, found by following its hash. */
  function Lookup(t: Tree, hash: bv64, depth: nat, k: MapKey): Option<MapPair> {
    match t
    case Bucket(ls) => Find(ls, k)
    case Branch(_, children) =>
      var s := Segm(hash, depth);
      if s in children then Lookup(children[s], hash, depth + 1, k) else None
  }

  function LookupIn(t: Option<Tree>, hash: bv64, depth: nat, k: MapKey): Option<MapPair> {
    if t.None? then None else Lookup(t.value, hash, depth, k)
  }

  // ----- buckets -----

  lemma FindUnique(ls: seq<Leaf>, l: Leaf)
    requires Distinct(ls) && l in ls
    ensures Find(ls, l.key) == Some(l.pair)
  {
    var r := Find(ls, l.key);
    var i :| 0 <= i < |ls| && ls[i] == l;
    if r.Some? {
      var j :| 0 <= j < |ls| && ls[j] == Leaf(l.key, r.value);
    }
  }

  lemma FindAppend(ls: seq<Leaf>, l: Leaf, k: MapKey)
    requires Find(ls, l.key).None?
    ensures Find(ls + [l], k) == if k == l.key then Some(l.pair) else Find(ls, k)
  {
    if ls != [] {
      assert (ls + [l])[1..] == ls[1..] + [l];
      FindAppend(ls[1..], l, k);
    }
  }

  lemma FindReplace(ls: seq<Leaf>, i: nat, p: MapPair, k: MapKey)
    requires i < |ls| && Distinct(ls)
    ensures var ls1 := ls[i := Leaf(ls[i].key, p)];
            Distinct(ls1) && Find(ls1, k) == if k == ls[i].key then Some(p) else Find(ls, k)
  {
    var ls1 := ls[i := Leaf(ls[i].key, p)];
    assert forall j | 0 <= j < |ls| :: ls1[j].key == ls[j].key;
    if i == 0 {
      assert ls1[1..] == ls[1..];
    } else {
      assert ls1[1..] == ls[1..][i - 1 := Leaf(ls[i].key, p)];
      FindReplace(ls[1..], i - 1, p, k);
    }
  }

  lemma FindRemove(ls: seq<Leaf>, i: nat, k: MapKey)
    requires i < |ls| && Distinct(ls)
    ensures var ls1 := ls[..i] + ls[i + 1..];
            Distinct(ls1) && Find(ls1, k) == if k == ls[i].key then None else Find(ls, k)
  {
    var ls1 := ls[..i] + ls[i + 1..];
    assert Distinct(ls1);
    if i == 0 {
      assert ls1 == ls[1..];
    } else {
      assert ls1[1..] == ls[1..][..i - 1] + ls[1..][i..];
      FindRemove(ls[1..], i - 1, k);
    }
  }

  /** A key found under a path is on the path. */
  lemma FoundOnPath(h: Hashing, t: Tree, path: seq<int>, k: MapKey)
    requires WellFormed(h, t, path) && Lookup(t, h(k), |path|, k).Some?
    ensures OnPath(h(k), path)
  {
    match t
    case Bucket(ls) => assert Leaf(k, Find(ls, k).value) in ls;
    case Branch(_, children) =>
      var s := Segm(h(k), |path|);
      FoundOnPath(h, children[s], path + [s], k);
      assert forall d | 0 <= d < |path| :: (path + [s])[d] == path[d];
  }

  // ----- every pair, in the order of the segments -----

  function Leaves(t: Tree): seq<Leaf>
    decreases t
  {
    match t
    case Bucket(ls) => ls
    case Branch(bitmap, _) => LeavesIn(t, bitmap)
  }

  /** The leaves under the children whose bits are set in `bits`, lowest bit first. */
  function LeavesIn(t: Tree, bits: bv32): seq<Leaf>
    requires t.Branch?
    decreases t, bits
  {
    if bits == 0 then []
    else
      RestIsLess(bits);
      var s := Trailing(bits);
      (if s in t.children then Leaves(t.children[s]) else []) + LeavesIn(t, Rest(bits))
  }

  /** Every stored pair is among the leaves exactly once, and nothing else is. */
  lemma {:induction false} LeavesArePairs(h: Hashing, t: Tree, path: seq<int>)
    requires WellFormed(h, t, path)
    ensures Distinct(Leaves(t))
    ensures forall l :: l in Leaves(t) <==> Lookup(t, h(l.key), |path|, l.key) == Some(l.pair)
    decreases t
  {
    hide Has;
    match t
    case Bucket(ls) =>
      forall l ensures l in ls <==> Find(ls, l.key) == Some(l.pair) {
        if l in ls { FindUnique(ls, l); }
      }
    case Branch(bitmap, children) =>
      LeavesInArePairs(h, t, path, bitmap);
      forall l: Leaf | Lookup(t, h(l.key), |path|, l.key).Some? ensures Has(bitmap, Segm(h(l.key), |path|)) {}
  }

  lemma {:induction false} LeavesInArePairs(h: Hashing, t: Tree, path: seq<int>, bits: bv32)
    requires t.Branch? && WellFormed(h, t, path) && forall s: Segment | Has(bits, s) :: s in t.children
    ensures Distinct(LeavesIn(t, bits))
    ensures forall l :: l in LeavesIn(t, bits) <==>
      Has(bits, Segm(h(l.key), |path|)) && Lookup(t, h(l.key), |path|, l.key) == Some(l.pair)
    decreases t, bits
  {
    hide Has; hide Rest; hide Without; hide ClearBelow; hide Trailing; hide Segm;
    if bits == 0 {
      forall s: Segment ensures !Has(0, s) { EmptyHas(s); }
    } else {
      RestIsLess(bits);
      var s := Trailing(bits);
      RestIsWithout(bits, s);
      forall u: Segment ensures Has(Rest(bits), u) <==> u != s && Has(bits, u) { HasWithout(bits, s, u); }
      var here, after := Leaves(t.children[s]), LeavesIn(t, Rest(bits));
      LeavesArePairs(h, t.children[s], path + [s]);
      LeavesInArePairs(h, t, path, Rest(bits));
      forall l | l in here ensures Segm(h(l.key), |path|) == s {
        FoundOnPath(h, t.children[s], path + [s], l.key);
        assert (path + [s])[|path|] == s;
      }
      DistinctConcat(here, after);
      assert LeavesIn(t, bits) == here + after;
    }
  }

  lemma DistinctConcat(a: seq<Leaf>, b: seq<Leaf>)
    requires Distinct(a) && Distinct(b) && forall x, y | x in a && y in b :: x.key != y.key
    ensures Distinct(a + b)
  {
    var c := a + b;
    forall i, j | 0 <= i < j < |c| ensures c[i].key != c[j].key {
      if i < |a| <= j {
        assert c[i] in a && c[j] in b;
      }
    }
  }
}
