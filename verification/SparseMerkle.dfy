/** The cached sparse Merkle tree of src/consensus/state.rs.

    Nodes are indexed by the bit string of their prefix (the byte-mask form of the index is
    related to it in KeyBits.dfy). `Subtree` is the uncached recursive definition; the class is
    proved to agree with it at every node after every update. */
module SparseMerkle {
  import opened Base

  type Key = seq<bool>

  /** The domain-separated hash of each tree position. */
  datatype TreeHash = TreeHash(
    depth: nat,
    emptyLeaf: nat,
    leaf: (Key, seq<byte>) -> nat,
    inner: (nat, nat) -> nat)

  type Values = map<Key, seq<byte>>

  /** What the tree stores: full-length keys, nonempty values. */
  predicate Storable(h: TreeHash, values: Values) {
    forall k :: k in values ==> |k| == h.depth && values[k] != []
  }

  function EmptyHash(h: TreeHash, d: nat): nat
    requires d <= h.depth
    decreases h.depth - d
  {
    if d == h.depth then h.emptyLeaf
    else
      var child := EmptyHash(h, d + 1);
      h.inner(child, child)
  }

  /** The hash of everything stored below a prefix, recomputed from scratch. */
  function Subtree(h: TreeHash, values: Values, prefix: Key): nat
    requires |prefix| <= h.depth
    decreases h.depth - |prefix|
  {
    if |prefix| == h.depth then
      if prefix in values then h.leaf(prefix, values[prefix]) else h.emptyLeaf
    else h.inner(Subtree(h, values, prefix + [false]), Subtree(h, values, prefix + [true]))
  }

  function RootOf(h: TreeHash, values: Values): nat {
    Subtree(h, values, [])
  }

  /** `update` on the value map alone: an absent or empty value deletes the key. */
  function Put(values: Values, key: Key, value: Option<seq<byte>>): Values {
    if value.Some? && value.value != [] then values[key := value.value] else values - {key}
  }

  lemma {:induction false} EmptySubtree(h: TreeHash, prefix: Key)
    requires |prefix| <= h.depth
    ensures Subtree(h, map[], prefix) == EmptyHash(h, |prefix|)
    decreases h.depth - |prefix|
  {
    if |prefix| < h.depth {
      EmptySubtree(h, prefix + [false]);
      EmptySubtree(h, prefix + [true]);
    }
  }

  /** A change at `key` is invisible below any prefix `key` does not start with. */
  lemma {:induction false} SubtreeUntouched(h: TreeHash, values: Values, key: Key, value: Option<seq<byte>>, prefix: Key)
    requires |key| == h.depth && |prefix| <= h.depth
    requires !(prefix <= key)
    ensures Subtree(h, Put(values, key, value), prefix) == Subtree(h, values, prefix)
    decreases h.depth - |prefix|
  {
    if |prefix| < h.depth {
      SubtreeUntouched(h, values, key, value, prefix + [false]);
      SubtreeUntouched(h, values, key, value, prefix + [true]);
    }
  }

  class SparseMerkleTree {
    const h: TreeHash
    var values: Values
    var nodes: map<Key, nat>
    var empty: seq<nat>

    /** The cached hash of a node, or the fixed empty hash of its depth. */
    function Node(prefix: Key): nat
      reads this
      requires |prefix| < |empty|
    {
      if prefix in nodes then nodes[prefix] else empty[|prefix|]
    }

    ghost predicate Shaped()
      reads this
    {
      && |empty| == h.depth + 1
      && (forall d :: 0 <= d <= h.depth ==> empty[d] == EmptyHash(h, d))
      && Storable(h, values)
    }

    /** Every cached or defaulted node is the recursive hash of the values under its prefix. */
    ghost predicate Valid()
      reads this
    {
      Shaped() && forall p: Key :: |p| <= h.depth ==> Node(p) == Subtree(h, values, p)
    }

    constructor (h: TreeHash)
      ensures Valid() && this.h == h && values == map[]
    {
      this.h := h;
      values := map[];
      nodes := map[];
      empty := [];
      new;
      var hashes := [h.emptyLeaf];
      var depth := h.depth;
      while depth > 0
        invariant 0 <= depth <= h.depth
        invariant |hashes| == h.depth - depth + 1
        invariant forall i :: 0 <= i < |hashes| ==> hashes[i] == EmptyHash(h, depth + i)
      {
        depth := depth - 1;
        hashes := [h.inner(hashes[0], hashes[0])] + hashes;
      }
      empty := hashes;
      forall p: Key | |p| <= h.depth ensures Node(p) == Subtree(h, values, p) {
        EmptySubtree(h, p);
      }
    }

    constructor Clone(other: SparseMerkleTree)
      requires other.Valid()
      ensures Valid() && h == other.h && values == other.values
    {
      h := other.h;
      values := other.values;
      nodes := other.nodes;
      empty := other.empty;
    }

    method Root() returns (root: nat)
      requires Valid()
      ensures root == RootOf(h, values)
    {
      root := Node([]);
    }

    /** Nodes off the path of `key` are right. */
    ghost predicate OffPath(key: Key)
      reads this
      requires Shaped()
    {
      forall p: Key :: |p| <= h.depth && !(p <= key) ==> Node(p) == Subtree(h, values, p)
    }

    /** Nodes on the path of `key` are right from depth `from` downwards. */
    ghost predicate OnPath(key: Key, from: nat)
      reads this
      requires Shaped() && |key| == h.depth
    {
      forall d :: from <= d <= h.depth ==> Node(key[..d]) == Subtree(h, values, key[..d])
    }

    method SetLeaf(key: Key, value: Option<seq<byte>>)
      requires Valid() && |key| == h.depth
      modifies this
      ensures Shaped() && empty == old(empty)
      ensures values == Put(old(values), key, value)
      ensures OffPath(key) && OnPath(key, h.depth)
    {
      if value.Some? && value.value != [] {
        values := values[key := value.value];
        nodes := nodes[key := h.leaf(key, value.value)];
      } else {
        values := values - {key};
        nodes := nodes - {key};
      }
      forall p: Key | |p| <= h.depth && !(p <= key) ensures Node(p) == Subtree(h, values, p) {
        SubtreeUntouched(h, old(values), key, value, p);
        assert old(Node(p)) == Subtree(h, old(values), p);
      }
      assert key[..h.depth] == key;
    }

    /** One turn of the upward loop: the parent is rehashed from the path child and its sibling. */
    method Rehash(key: Key, parentDepth: nat)
      requires Shaped() && |key| == h.depth && parentDepth < h.depth
      requires OffPath(key) && OnPath(key, parentDepth + 1)
      modifies this`nodes
      ensures Shaped() && OffPath(key) && OnPath(key, parentDepth)
    {
      var child := key[..parentDepth + 1];
      var parent := key[..parentDepth];
      var sibling := parent + [!key[parentDepth]];
      assert child == parent + [key[parentDepth]];
      assert sibling[parentDepth] != key[parentDepth];
      var childHash := Node(child);
      var siblingHash := Node(sibling);
      var hash := if !key[parentDepth] then h.inner(childHash, siblingHash) else h.inner(siblingHash, childHash);
      assert hash == Subtree(h, values, parent);
      if hash == empty[parentDepth] {
        nodes := nodes - {parent};
      } else {
        nodes := nodes[parent := hash];
      }
      forall p: Key | |p| <= h.depth && p != parent ensures Node(p) == old(Node(p)) {
      }
      forall d | parentDepth <= d <= h.depth ensures Node(key[..d]) == Subtree(h, values, key[..d]) {
        assert d > parentDepth ==> |key[..d]| != |parent|;
      }
    }

    method Update(key: Key, value: Option<seq<byte>>)
      requires Valid() && |key| == h.depth
      modifies this
      ensures Valid()
      ensures values == Put(old(values), key, value)
    {
      SetLeaf(key, value);
      var parentDepth := h.depth;
      while parentDepth > 0
        invariant 0 <= parentDepth <= h.depth
        invariant Shaped() && values == Put(old(values), key, value)
        invariant OffPath(key) && OnPath(key, parentDepth)
      {
        parentDepth := parentDepth - 1;
        Rehash(key, parentDepth);
      }
      forall p: Key | |p| <= h.depth ensures Node(p) == Subtree(h, values, p) {
        if p <= key {
          assert p == key[..|p|];
        }
      }
    }
  }

  // ------------------------------------------------- what the root says about the map

  /** No two tree positions of the same kind hash alike, and no leaf looks empty. */
  ghost predicate CollisionFree(h: TreeHash) {
    && (forall a, b, c, d :: h.inner(a, b) == h.inner(c, d) ==> a == c && b == d)
    && (forall k: Key, l: Key, v, w :: h.leaf(k, v) == h.leaf(l, w) ==> k == l && v == w)
    && (forall k: Key, v :: h.leaf(k, v) != h.emptyLeaf)
  }

  lemma {:induction false} SubtreeDetermines(h: TreeHash, v: Values, w: Values, prefix: Key, key: Key)
    requires CollisionFree(h)
    requires |prefix| <= h.depth == |key| && prefix <= key
    requires Subtree(h, v, prefix) == Subtree(h, w, prefix)
    ensures key in v <==> key in w
    ensures key in v ==> v[key] == w[key]
    decreases h.depth - |prefix|
  {
    if |prefix| == h.depth {
      assert prefix == key;
    } else {
      var next := prefix + [key[|prefix|]];
      assert next <= key;
      assert next == if key[|prefix|] then prefix + [true] else prefix + [false];
      SubtreeDetermines(h, v, w, next, key);
    }
  }

  /** The root commits to the whole map: equal roots, equal contents. */
  lemma RootDetermines(h: TreeHash, v: Values, w: Values)
    requires CollisionFree(h)
    requires Storable(h, v) && Storable(h, w)
    requires RootOf(h, v) == RootOf(h, w)
    ensures v == w
  {
    forall key | key in v || key in w ensures key in v && key in w && v[key] == w[key] {
      SubtreeDetermines(h, v, w, [], key);
    }
  }

  /** A run of `update` calls. */
  datatype Write = Write(key: Key, value: Option<seq<byte>>)

  function Replay(values: Values, writes: seq<Write>): Values {
    if writes == [] then values
    else
      var last := writes[|writes| - 1];
      Put(Replay(values, writes[..|writes| - 1]), last.key, last.value)
  }

  /** Any two histories of inserts, overwrites and deletes that leave the same last value at
      every key leave the same root. */
  lemma RootForgetsHistory(h: TreeHash, first: seq<Write>, second: seq<Write>)
    requires forall k :: LastWrite(first, k) == LastWrite(second, k)
    ensures RootOf(h, Replay(map[], first)) == RootOf(h, Replay(map[], second))
  {
    forall k ensures Lookup(Replay(map[], first), k) == Lookup(Replay(map[], second), k) {
      ReplayLookup(first, k);
      ReplayLookup(second, k);
    }
    var v, w := Replay(map[], first), Replay(map[], second);
    forall k | k in v || k in w ensures k in v && k in w && v[k] == w[k] {
      assert Lookup(v, k) == Lookup(w, k);
    }
    assert v == w;
  }

  function Lookup(values: Values, key: Key): Option<seq<byte>> {
    if key in values then Some(values[key]) else None
  }

  /** The value the last write at a key leaves there; deletions and empty values leave nothing. */
  function LastWrite(writes: seq<Write>, key: Key): Option<seq<byte>> {
    if writes == [] then None
    else
      var last := writes[|writes| - 1];
      if last.key == key then (if last.value.Some? && last.value.value != [] then last.value else None)
      else LastWrite(writes[..|writes| - 1], key)
  }

  lemma {:induction false} ReplayLookup(writes: seq<Write>, key: Key)
    ensures Lookup(Replay(map[], writes), key) == LastWrite(writes, key)
  {
    if writes != [] {
      ReplayLookup(writes[..|writes| - 1], key);
    }
  }
}
