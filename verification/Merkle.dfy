/** The transaction Merkle root (src/consensus/types.rs). Duplicating the last node of an odd level
    makes the root ambiguous on lists with repeats; on duplicate-free lists it is injective. */
module Merkle {
  import opened Base
  import opened Types

  /** One level up: an odd level repeats its last node, then neighbours are hashed in pairs. */
  function Padded(level: seq<Hash>): (p: seq<Hash>)
    ensures |p| % 2 == 0
  {
    if |level| % 2 == 1 then level + [level[|level| - 1]] else level
  }

  function Parents(env: Env, level: seq<Hash>): (up: seq<Hash>)
    ensures |up| == (|level| + 1) / 2
    ensures forall i :: 0 <= i < |up| ==> up[i] == env.merkleNode(Padded(level)[2 * i], Padded(level)[2 * i + 1])
  {
    var p := Padded(level);
    seq(|p| / 2, i requires 0 <= i < |p| / 2 => env.merkleNode(p[2 * i], p[2 * i + 1]))
  }

  function MerkleRoot(env: Env, leaves: seq<Hash>): Hash
    decreases |leaves|
  {
    if |leaves| == 0 then env.merkleEmpty
    else if |leaves| == 1 then leaves[0]
    else MerkleRoot(env, Parents(env, leaves))
  }

  /** The pairwise pass of one round. */
  method HashPairs(env: Env, nodes: seq<Hash>) returns (next: seq<Hash>)
    requires |nodes| % 2 == 0
    ensures |next| == |nodes| / 2
    ensures forall j :: 0 <= j < |next| ==> next[j] == env.merkleNode(nodes[2 * j], nodes[2 * j + 1])
  {
    next := [];
    while 2 * |next| < |nodes|
      invariant 2 * |next| <= |nodes|
      invariant forall j :: 0 <= j < |next| ==> next[j] == env.merkleNode(nodes[2 * j], nodes[2 * j + 1])
    {
      next := next + [env.merkleNode(nodes[2 * |next|], nodes[2 * |next| + 1])];
    }
  }

  /** `merkle_root`: the level vector is rewritten until one node is left. */
  method ComputeMerkleRoot(env: Env, leaves: seq<Hash>) returns (root: Hash)
    ensures root == MerkleRoot(env, leaves)
  {
    if |leaves| == 0 {
      return env.merkleEmpty;
    }
    var level := leaves;
    while |level| > 1
      invariant |level| >= 1
      invariant MerkleRoot(env, level) == MerkleRoot(env, leaves)
      decreases |level|
    {
      ghost var before := level;
      if |level| % 2 == 1 {
        level := level + [level[|level| - 1]];
      }
      level := HashPairs(env, level);
      assert level == Parents(env, before);
    }
    root := level[0];
  }

  // -------------------------------------------------------------------- injectivity

  ghost predicate NodesInjective(env: Env) {
    forall a, b, c, d :: env.merkleNode(a, b) == env.merkleNode(c, d) ==> a == c && b == d
  }

  ghost predicate IsNode(env: Env, h: Hash) {
    exists a, b :: h == env.merkleNode(a, b)
  }

  /** Leaf ids live in a different hash domain from inner nodes and the empty root. */
  ghost predicate LeavesSeparate(env: Env, leaves: seq<Hash>) {
    forall i :: 0 <= i < |leaves| ==> !IsNode(env, leaves[i]) && leaves[i] != env.merkleEmpty
  }

  predicate Distinct(s: seq<Hash>) {
    forall i, j :: 0 <= i < j < |s| ==> s[i] != s[j]
  }

  function Depth(n: nat): nat {
    if n <= 1 then 0 else 1 + Depth((n + 1) / 2)
  }

  lemma ParentsDistinct(env: Env, level: seq<Hash>)
    requires NodesInjective(env) && Distinct(level)
    ensures Distinct(Parents(env, level))
  {
    var p := Padded(level);
    var up := Parents(env, level);
    forall i, j | 0 <= i < j < |up| ensures up[i] != up[j] {
      assert p[2 * i] == level[2 * i] && p[2 * j] == level[2 * j];
    }
  }

  /** On duplicate-free levels the padding is recognisable, so a level is determined by the next. */
  lemma ParentsInjective(env: Env, a: seq<Hash>, b: seq<Hash>)
    requires NodesInjective(env) && Distinct(a) && Distinct(b)
    requires Parents(env, a) == Parents(env, b)
    ensures a == b
  {
    var p, q := Padded(a), Padded(b);
    var up := Parents(env, a);
    assert |p| == |q|;
    forall i | 0 <= i < |p| ensures p[i] == q[i] {
      var j := i / 2;
      assert up[j] == env.merkleNode(p[2 * j], p[2 * j + 1]) == env.merkleNode(q[2 * j], q[2 * j + 1]);
    }
    assert p == q;
    assert |a| % 2 == 1 ==> p[|a|] == p[|a| - 1];
    assert |b| % 2 == 1 ==> q[|b|] == q[|b| - 1];
    assert |a| == |b|;
    assert a == p[..|a|] && b == q[..|b|];
  }

  lemma {:induction false} SameDepthInjective(env: Env, a: seq<Hash>, b: seq<Hash>)
    requires NodesInjective(env) && Distinct(a) && Distinct(b)
    requires |a| >= 1 && |b| >= 1 && Depth(|a|) == Depth(|b|)
    requires MerkleRoot(env, a) == MerkleRoot(env, b)
    ensures a == b
    decreases |a|
  {
    if |a| == 1 {
      assert |b| == 1;
      assert a == [a[0]] && b == [b[0]];
    } else {
      ParentsDistinct(env, a);
      ParentsDistinct(env, b);
      SameDepthInjective(env, Parents(env, a), Parents(env, b));
      ParentsInjective(env, a, b);
    }
  }

  lemma FirstParentIsNode(env: Env, level: seq<Hash>)
    requires |level| > 0
    ensures IsNode(env, Parents(env, level)[0])
  {
    var p := Padded(level);
    assert Parents(env, level)[0] == env.merkleNode(p[2 * 0], p[2 * 0 + 1]);
  }

  /** A level of the tree over `leaves`, seen from `leaves`. */
  ghost predicate IsLevel(env: Env, leaves: seq<Hash>, n: nat, level: seq<Hash>) {
    && |level| >= 1 && Distinct(level)
    && Depth(|level|) == Depth(|leaves|) - n
    && MerkleRoot(env, level) == MerkleRoot(env, leaves)
    && (n > 0 ==> IsNode(env, level[0]))
  }

  lemma LevelStep(env: Env, leaves: seq<Hash>, n: nat, level: seq<Hash>)
    requires NodesInjective(env) && IsLevel(env, leaves, n, level) && n < Depth(|leaves|)
    ensures IsLevel(env, leaves, n + 1, Parents(env, level))
  {
    ParentsDistinct(env, level);
    FirstParentIsNode(env, level);
    assert MerkleRoot(env, level) == MerkleRoot(env, Parents(env, level));
  }

  lemma {:induction false} LevelAt(env: Env, leaves: seq<Hash>, n: nat) returns (level: seq<Hash>)
    requires NodesInjective(env) && Distinct(leaves) && |leaves| >= 1
    requires n <= Depth(|leaves|)
    ensures IsLevel(env, leaves, n, level)
  {
    if n == 0 {
      level := leaves;
    } else {
      var below := LevelAt(env, leaves, n - 1);
      LevelStep(env, leaves, n - 1, below);
      level := Parents(env, below);
    }
  }

  lemma DifferentDepthDiffer(env: Env, a: seq<Hash>, b: seq<Hash>)
    requires NodesInjective(env) && Distinct(a) && Distinct(b)
    requires |a| >= 1 && |b| >= 1 && Depth(|a|) < Depth(|b|)
    requires LeavesSeparate(env, a)
    ensures MerkleRoot(env, a) != MerkleRoot(env, b)
  {
    var n := Depth(|b|) - Depth(|a|);
    var level := LevelAt(env, b, n);
    if MerkleRoot(env, a) == MerkleRoot(env, b) {
      SameDepthInjective(env, a, level);
    }
  }

  lemma {:induction false} RootIsLeafOrNode(env: Env, leaves: seq<Hash>)
    requires |leaves| >= 1
    ensures |leaves| == 1 ==> MerkleRoot(env, leaves) == leaves[0]
    ensures |leaves| > 1 ==> IsNode(env, MerkleRoot(env, leaves))
    decreases |leaves|
  {
    if |leaves| > 1 {
      var up := Parents(env, leaves);
      RootIsLeafOrNode(env, up);
      FirstParentIsNode(env, leaves);
    }
  }

  /** With collision-free hashing in separate domains, the root of a duplicate-free list of any
      length determines the list. */
  lemma MerkleRootInjective(env: Env, a: seq<Hash>, b: seq<Hash>)
    requires NodesInjective(env) && !IsNode(env, env.merkleEmpty)
    requires Distinct(a) && Distinct(b)
    requires LeavesSeparate(env, a) && LeavesSeparate(env, b)
    requires MerkleRoot(env, a) == MerkleRoot(env, b)
    ensures a == b
  {
    if |a| >= 1 { RootIsLeafOrNode(env, a); }
    if |b| >= 1 { RootIsLeafOrNode(env, b); }
    if |a| >= 1 && |b| >= 1 {
      if Depth(|a|) == Depth(|b|) {
        SameDepthInjective(env, a, b);
      } else if Depth(|a|) < Depth(|b|) {
        DifferentDepthDiffer(env, a, b);
      } else {
        DifferentDepthDiffer(env, b, a);
      }
    }
  }

  /** Repeats are what breaks it: a three-leaf list and its padded form share a root. */
  lemma RepeatsCollide(env: Env, a: Hash, b: Hash, c: Hash)
    ensures MerkleRoot(env, [a, b, c]) == MerkleRoot(env, [a, b, c, c])
  {
    assert Padded([a, b, c]) == [a, b, c, c];
    assert Parents(env, [a, b, c]) == Parents(env, [a, b, c, c]);
  }
}
