/** A trie with its size counter, and the listing of its pairs in a fixed order. */
module MapStorage {
  import opened Values
  import opened Tries
  import opened Hamt
  import opened Ordering

  datatype Storage = Storage(root: Node?, size: nat)

  type Table = map<MapKey, MapPair>

  /** What a storage answers for a key, as an option. */
  function At(m: Table, k: MapKey): Option<MapPair> {
    if k in m then Some(m[k]) else None
  }

  /** The storage holds exactly the pairs of `m`, each where its hash leads, and counts them right. */
  ghost predicate Denotes(h: Hashing, st: Storage, m: Table)
    reads st.root, if st.root == null then {} else st.root.repr
  {
    && Sound(h, st.root, [])
    && (forall k :: LookupIn(TreeOf(st.root), h(k), 0, k) == At(m, k))
    && st.size == |m|
  }

  lemma EmptyDenotes(h: Hashing)
    ensures Denotes(h, Storage(null, 0), map[])
  {}

  method Put(h: Hashing, st: Storage, k: MapKey, v: MapPair, ghost m: Table) returns (out: Storage)
    requires Denotes(h, st, m)
    ensures Denotes(h, out, m[k := v])
  {
    hide WellFormed; hide Lookup;
    assert st.root != null ==> Grows(h, st.root.tree, []);
    var root, replaced := Insert(h, st.root, h(k), 0, k, v, []);
    out := Storage(root, if replaced then st.size else st.size + 1);
    assert At(m, k) == LookupIn(TreeOf(st.root), h(k), 0, k);
    PutSize(m, k, v);
    forall x ensures LookupIn(TreeOf(root), h(x), 0, x) == At(m[k := v], x) {
      assert Lookup(root.tree, h(x), 0, x) == if x == k then Some(v) else LookupIn(TreeOf(st.root), h(x), 0, x);
    }
  }

  lemma PutSize(m: Table, k: MapKey, v: MapPair)
    ensures |m[k := v]| == if k in m then |m| else |m| + 1
  {
    assert m[k := v].Keys == m.Keys + {k};
  }

  lemma RemoveSize(m: Table, k: MapKey)
    ensures |m - {k}| == if k in m then |m| - 1 else |m|
    ensures k !in m ==> m - {k} == m
  {
    assert (m - {k}).Keys == m.Keys - {k};
  }

  method Remove(h: Hashing, st: Storage, k: MapKey, ghost m: Table) returns (out: Storage, removed: bool)
    requires Denotes(h, st, m)
    ensures Denotes(h, out, m - {k})
    ensures removed <==> k in m
  {
    hide WellFormed; hide Lookup;
    var root;
    root, removed := Delete(h, st.root, h(k), 0, k, []);
    assert At(m, k) == LookupIn(TreeOf(st.root), h(k), 0, k);
    RemoveSize(m, k);
    out := Storage(root, if removed then st.size - 1 else st.size);
    forall x ensures LookupIn(TreeOf(root), h(x), 0, x) == At(m - {k}, x) {
      assert LookupIn(TreeOf(root), h(x), 0, x) == if x == k then None else LookupIn(TreeOf(st.root), h(x), 0, x);
    }
  }

  method GetPair(h: Hashing, st: Storage, k: MapKey, ghost m: Table) returns (r: Option<MapPair>)
    requires Denotes(h, st, m)
    ensures r == At(m, k)
  {
    r := Get(h, st.root, h(k), 0, k, []);
  }

  /** The calls of `fn` are each for another pair of `m`; when it never refuses, they are for all of them. */
  method Visit(h: Hashing, st: Storage, fn: (MapKey, MapPair) -> bool, ghost m: Table)
    returns (seen: seq<Leaf>, finished: bool)
    requires Denotes(h, st, m)
    ensures Distinct(seen) && forall l | l in seen :: At(m, l.key) == Some(l.pair)
    ensures finished ==> |seen| == st.size && forall l :: l in seen <==> At(m, l.key) == Some(l.pair)
    ensures finished <==> forall k | k in m :: fn(k, m[k])
    ensures !finished ==> seen != [] && !fn(seen[|seen| - 1].key, seen[|seen| - 1].pair)
    ensures forall i | 0 <= i < |seen| - 1 :: fn(seen[i].key, seen[i].pair)
  {
    hide WellFormed; hide Lookup; hide Leaves;
    seen, finished := ForEach(h, st.root, fn, []);
    if st.root != null {
      LeavesArePairs(h, st.root.tree, []);
    }
    ghost var all := if st.root == null then [] else Leaves(st.root.tree);
    forall l ensures l in all <==> At(m, l.key) == Some(l.pair) {
      assert LookupIn(TreeOf(st.root), h(l.key), 0, l.key) == At(m, l.key);
    }
    if finished {
      CountLeaves(all, m);
      forall k | k in m ensures fn(k, m[k]) {
        assert Leaf(k, m[k]) in all;
      }
    } else {
      assert seen[|seen| - 1] in all;
    }
  }

  lemma CountLeaves(ls: seq<Leaf>, m: Table)
    requires Distinct(ls) && forall l :: l in ls <==> At(m, l.key) == Some(l.pair)
    ensures |ls| == |m|
  {
    assert forall k | k in m :: Leaf(k, m[k]) in ls;
    if ls == [] {
      assert m.Keys == {};
    } else {
      var k := ls[0].key;
      var m1 := m - {k};
      assert ls[0] in ls && ls == [ls[0]] + ls[1..];
      forall l ensures l in ls[1..] <==> At(m1, l.key) == Some(l.pair) {
        if l in ls[1..] { assert l in ls; }
        if l.key == k && l in ls { assert l == ls[0]; }
      }
      CountLeaves(ls[1..], m1);
      RemoveSize(m, k);
    }
  }

  // ----- the listing -----

  /** Keys are listed by type, then by value. */
  predicate KeyLess(a: MapKey, b: MapKey) {
    if a.kind != b.kind then TextLess(a.kind, b.kind) else a.value < b.value
  }

  /** A strict total order. */
  lemma KeyOrder(a: MapKey, b: MapKey, c: MapKey)
    ensures !KeyLess(a, a)
    ensures a == b || KeyLess(a, b) || KeyLess(b, a)
    ensures KeyLess(a, b) && KeyLess(b, c) ==> KeyLess(a, c)
  {
    TextOrder(a.kind, b.kind, c.kind);
    TextOrder(b.kind, a.kind, b.kind);
  }

  /** Of two keys of one type the one with the smaller value comes first; of two types the one whose name does. */
  lemma KeyLessIff(a: MapKey, b: MapKey)
    ensures a.kind == b.kind ==> (KeyLess(a, b) <==> a.value < b.value)
    ensures a.kind != b.kind ==>
      (KeyLess(a, b) <==> exists n: nat :: n <= |a.kind| && n < |b.kind| && a.kind[..n] == b.kind[..n]
                                           && (n < |a.kind| ==> a.kind[n] < b.kind[n]))
  {
    hide TextLess;
    TextLessIff(a.kind, b.kind);
  }

  predicate Sorted(ls: seq<Leaf>) {
    forall i, j | 0 <= i < j < |ls| :: KeyLess(ls[i].key, ls[j].key)
  }

  /** Sorting, as the library promises it, for leaves with distinct keys. */
  method SortLeaves(ls: seq<Leaf>) returns (out: seq<Leaf>)
    requires Distinct(ls)
    ensures Sorted(out) && forall l :: l in out <==> l in ls
  {
    hide KeyLess;
    out := [];
    var i := 0;
    while i < |ls|
      invariant i <= |ls| && Sorted(out)
      invariant forall l :: l in out <==> l in ls[..i]
    {
      assert ls[..i + 1] == ls[..i] + [ls[i]];
      assert forall l | l in out :: l in ls[..i] && l.key != ls[i].key;
      out := InsertSorted(out, ls[i]);
      i := i + 1;
    }
    assert ls[..|ls|] == ls;
  }

  method InsertSorted(ls: seq<Leaf>, x: Leaf) returns (out: seq<Leaf>)
    requires Sorted(ls) && forall l | l in ls :: l.key != x.key
    ensures Sorted(out) && forall l :: l in out <==> l == x || l in ls
  {
    hide KeyLess;
    var i := 0;
    while i < |ls| && KeyLess(ls[i].key, x.key)
      invariant i <= |ls| && forall j | 0 <= j < i :: KeyLess(ls[j].key, x.key)
    {
      i := i + 1;
    }
    forall j | i <= j < |ls| ensures KeyLess(x.key, ls[j].key) {
      assert ls[i] in ls;
      KeyOrder(x.key, ls[i].key, ls[j].key);
    }
    out := ls[..i] + [x] + ls[i..];
    assert forall l :: l in out <==> l == x || l in ls[..i] || l in ls[i..];
    assert ls == ls[..i] + ls[i..];
  }

  /** `ls` has the pairs of `m`, in order. */
  ghost predicate Orders(ls: seq<Leaf>, m: Table) {
    Sorted(ls) && forall l :: l in ls <==> At(m, l.key) == Some(l.pair)
  }

  function Pairs(ls: seq<Leaf>): seq<MapPair> { seq(|ls|, i requires 0 <= i < |ls| => ls[i].pair) }

  ghost predicate Lists(out: seq<MapPair>, m: Table) {
    exists ls :: Orders(ls, m) && out == Pairs(ls)
  }

  lemma {:induction false} OrderIsUnique(a: seq<Leaf>, b: seq<Leaf>)
    requires Sorted(a) && Sorted(b) && forall l :: l in a <==> l in b
    ensures a == b
    decreases |a|
  {
    hide KeyLess;
    assert |b| > 0 ==> b[0] in b && b[0] in a;
    assert |a| > 0 ==> a[0] in a && a[0] in b;
    if a != [] {
      assert a[0] in b && b != [] && b[0] in a;
      var i :| 0 <= i < |b| && b[i] == a[0];
      var j :| 0 <= j < |a| && a[j] == b[0];
      KeyOrder(a[0].key, b[0].key, a[0].key);
      assert i == 0 && j == 0;
      forall l ensures l in a[1..] <==> l in b[1..] {
        RestOfSorted(a, l);
        RestOfSorted(b, l);
      }
      OrderIsUnique(a[1..], b[1..]);
      assert a == [a[0]] + a[1..] && b == [b[0]] + b[1..];
    }
  }

  lemma RestOfSorted(a: seq<Leaf>, l: Leaf)
    requires Sorted(a) && a != []
    ensures l in a[1..] <==> l in a && l != a[0]
  {
    hide KeyLess;
    KeyOrder(l.key, l.key, l.key);
    assert a == [a[0]] + a[1..];
    if l in a[1..] {
      var i :| 0 <= i < |a[1..]| && a[1..][i] == l;
      assert KeyLess(a[0].key, a[i + 1].key);
    }
  }

  /** A listing depends on the contents alone, not on how the map came to hold them. */
  lemma ListingIsUnique(out1: seq<MapPair>, out2: seq<MapPair>, m: Table)
    requires Lists(out1, m) && Lists(out2, m)
    ensures out1 == out2
  {
    var a :| Orders(a, m) && out1 == Pairs(a);
    var b :| Orders(b, m) && out2 == Pairs(b);
    OrderIsUnique(a, b);
  }

  method StablePairs(h: Hashing, st: Storage, ghost m: Table) returns (out: seq<MapPair>)
    requires Denotes(h, st, m)
    ensures Lists(out, m)
  {
    hide Sorted;
    var entries, _ := Visit(h, st, (k, p) => true, m);
    entries := SortLeaves(entries);
    out := [];
    var i := 0;
    while i < |entries|
      invariant i <= |entries| && out == Pairs(entries[..i])
    {
      assert entries[..i + 1] == entries[..i] + [entries[i]];
      out := out + [entries[i].pair];
      i := i + 1;
    }
    assert entries[..|entries|] == entries;
    assert Orders(entries, m);
  }
}
