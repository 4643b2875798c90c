/** The map object of the language: its storage is replaced by each change and shared by its clones. */
module Maps {
  import opened Values
  import opened Tries
  import opened MapStorage

  class Map {
    const hash: Hashing
    var storage: Option<Storage>
    var pairs: Table              // how a map may start out, before its first use
    ghost var contents: Table

    ghost predicate Valid()
      reads this, if storage.Some?
        && storage.value.root != null then {storage.value.root} + storage.value.root.repr else {}
    {
      if storage.Some? then Denotes(hash, storage.value, contents) else contents == pairs
    }

    constructor (hash: Hashing, pairs: Table)
      ensures Valid() && this.hash == hash && contents == pairs
    {
      this.hash, storage, this.pairs, contents := hash, None, pairs, pairs;
    }

    /** Move the pairs the map started with into a trie. */
    method EnsureStorage() returns (st: Storage)
      requires Valid()
      modifies this
      ensures Valid() && contents == old(contents) && storage == Some(st)
    {
      if storage.Some? { return storage.value; }
      st := Migrate(hash, pairs);
      storage, pairs := Some(st), map[];
    }

    method PutLeaves(ls: seq<Leaf>, ghost m: Table)
      requires Valid() && forall l :: l in ls <==> At(m, l.key) == Some(l.pair)
      modifies this
      ensures Valid() && contents == old(contents) + m
    {
      hide Valid; hide At; hide TableOf;
      var i := 0;
      ghost var start := contents;
      TableOfNone(ls, start);
      while i < |ls|
        invariant i <= |ls| && Valid() && contents == start + TableOf(ls[..i])
      {
        TableOfMore(ls, i, start);
        PutPair(ls[i].key, ls[i].pair);
        i := i + 1;
      }
      TableOfAll(ls, m);
    }

    method PutPair(k: MapKey, v: MapPair)
      requires Valid()
      modifies this
      ensures Valid() && contents == old(contents)[k := v]
    {
      var st := EnsureStorage();
      st := Put(hash, st, k, v, contents);
      storage, pairs := Some(st), map[];
      contents := contents[k := v];
    }

    method DeleteKey(k: MapKey)
      requires Valid()
      modifies this
      ensures Valid() && contents == old(contents) - {k}
    {
      var st := EnsureStorage();
      hide Denotes;
      var removed;
      st, removed := Remove(hash, st, k, contents);
      storage, pairs := Some(st), map[];
      contents := contents - {k};
    }

    method GetPair(k: MapKey) returns (r: Option<MapPair>)
      requires Valid()
      modifies this
      ensures Valid() && contents == old(contents) && r == At(contents, k)
    {
      var st := EnsureStorage();
      r := MapStorage.GetPair(hash, st, k, contents);
    }

    method Len() returns (n: nat)
      requires Valid()
      modifies this
      ensures Valid() && contents == old(contents) && n == |contents|
    {
      var st := EnsureStorage();
      n := st.size;
    }

    method Entries() returns (out: seq<MapPair>)
      requires Valid()
      modifies this
      ensures Valid() && contents == old(contents) && Lists(out, contents)
    {
      var st := EnsureStorage();
      out := StablePairs(hash, st, contents);
    }

    /** Every pair, by a callback that never stops. */
    method Collect() returns (ls: seq<Leaf>)
      requires Valid()
      modifies this
      ensures Valid() && contents == old(contents)
      ensures Distinct(ls) && forall l :: l in ls <==> At(contents, l.key) == Some(l.pair)
    {
      hide At; hide Distinct;
      var st := EnsureStorage();
      var finished;
      ls, finished := Visit(hash, st, (k, p) => true, contents);
    }

    /** A map sharing this one's trie. Writing to either leaves the other as it is. */
    method Clone() returns (c: Map)
      requires Valid()
      modifies this
      ensures fresh(c) && Valid() && contents == old(contents)
      ensures c.Valid() && c.hash == hash && c.contents == contents
    {
      var st := EnsureStorage();
      c := new Map(hash, map[]);
      c.storage, c.contents := Some(st), contents;
    }
  }

  /** Put pairs into a trie in whatever order they come. */
  method Migrate(h: Hashing, pairs: Table) returns (st: Storage)
    ensures Denotes(h, st, pairs)
  {
    hide Denotes;
    st := Storage(null, 0);
    EmptyDenotes(h);
    var todo := pairs;
    ghost var done: Table := map[];
    while todo != map[]
      invariant Denotes(h, st, done)
      invariant forall x :: At(pairs, x) == if x in todo then Some(todo[x]) else At(done, x)
      decreases |todo|
    {
      var k :| k in todo;
      RemoveSize(todo, k);
      st := Put(h, st, k, todo[k], done);
      done := done[k := todo[k]];
      todo := todo - {k};
    }
    assert forall x :: At(pairs, x) == At(done, x);
    assert done == pairs;
  }

  /** The `put` function: a new map; the old one keeps its contents though it shares its trie. */
  method StdPut(m: Map, k: MapKey, v: MapPair) returns (next: Map)
    requires m.Valid()
    modifies m
    ensures m.Valid() && m.contents == old(m.contents)
    ensures fresh(next) && next.Valid() && next.contents == old(m.contents)[k := v]
  {
    next := m.Clone();
    next.PutPair(k, v);
  }

  method StdRemove(m: Map, k: MapKey) returns (next: Map)
    requires m.Valid()
    modifies m
    ensures m.Valid() && m.contents == old(m.contents)
    ensures fresh(next) && next.Valid() && next.contents == old(m.contents) - {k}
  {
    next := m.Clone();
    next.DeleteKey(k);
  }

  /** Copying a map with changes: a new map with the pairs of both, those of `fields` winning. */
  method CopyWith(src: Map, fields: Map) returns (next: Map)
    requires src.Valid() && fields.Valid()
    modifies src, fields
    ensures src.Valid() && src.contents == old(src.contents)
    ensures fields.Valid() && fields.contents == old(fields.contents)
    ensures fresh(next) && next.Valid() && next.contents == old(src.contents) + old(fields.contents)
  {
    hide At; hide WellFormed; hide Lookup; hide LookupIn;
    next := src.Clone();
    assert fields.Valid() && fields.contents == old(fields.contents);
    PutFrom(next, fields);
  }

  /** Put every pair of one map into another. */
  method PutFrom(next: Map, fields: Map)
    requires next.Valid() && fields.Valid() && next != fields
    modifies next, fields
    ensures fields.Valid() && fields.contents == old(fields.contents)
    ensures next.Valid() && next.contents == old(next.contents) + old(fields.contents)
  {
    hide At; hide WellFormed; hide Lookup; hide LookupIn; hide Distinct;
    var ls := fields.Collect();
    assert next.Valid() && next.contents == old(next.contents);
    next.PutLeaves(ls, fields.contents);
  }

  /** The pairs of the leaves, later ones winning. */
  ghost function TableOf(ls: seq<Leaf>): Table {
    if ls == [] then map[] else TableOf(ls[..|ls| - 1])[ls[|ls| - 1].key := ls[|ls| - 1].pair]
  }

  lemma TableOfNone(ls: seq<Leaf>, start: Table)
    ensures start == start + TableOf(ls[..0])
  {}

  lemma TableOfMore(ls: seq<Leaf>, i: nat, start: Table)
    requires i < |ls|
    ensures (start + TableOf(ls[..i]))[ls[i].key := ls[i].pair] == start + TableOf(ls[..i + 1])
  {
    assert ls[..i + 1][..i] == ls[..i];
  }

  lemma {:induction false} TableOfHas(ls: seq<Leaf>, m: Table)
    requires forall l | l in ls :: At(m, l.key) == Some(l.pair)
    ensures forall k :: k in TableOf(ls) <==> k in m && Leaf(k, m[k]) in ls
    ensures forall k | k in TableOf(ls) :: TableOf(ls)[k] == m[k]
    decreases |ls|
  {
    if ls != [] {
      var n := |ls| - 1;
      assert ls[n] in ls && forall l :: l in ls <==> l == ls[n] || l in ls[..n];
      TableOfHas(ls[..n], m);
    }
  }

  lemma TableOfAll(ls: seq<Leaf>, m: Table)
    requires forall l :: l in ls <==> At(m, l.key) == Some(l.pair)
    ensures TableOf(ls[..|ls|]) == m
  {
    assert ls[..|ls|] == ls;
    TableOfHas(ls, m);
    assert forall k | k in m :: Leaf(k, m[k]) in ls;
  }
}
