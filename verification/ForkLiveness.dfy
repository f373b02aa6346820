/** When a submission must succeed, and what it then leaves: the counterpart of the invariants of
    ForkChoice.dfy. */
module ForkLiveness {
  import opened Base
  import opened Params
  import opened Types
  import opened State
  import opened Validation
  import opened ChainSpec
  import opened Chains
  import opened ForkChoice

  /** How many blocks lie between a stored block, itself included, and the active chain. */
  ghost function Detached(env: Env, store: Store, active: seq<Block>, block: Block): nat
    decreases block.header.height
  {
    var parent := block.header.previousBlock;
    if HasId(env, active, BlockId(env, block)) then 0
    else if parent in store && store[parent].header.height < block.header.height then 1 + Detached(env, store, active, store[parent])
    else 1
  }

  lemma ActiveFork(env: Env, n: NodeValue, id: Hash, now: nat)
    requires NodeOk(env, n, now)
    ensures FindId(env, n.chain.blocks, id).Some? <==> HasId(env, n.chain.blocks, id)
    ensures FindId(env, n.chain.blocks, id).Some? ==> FindId(env, n.chain.blocks, id).value.header.height < |n.chain.blocks|
  {
    hide NodeOk, FindId, HasId;
    NodeLinked(env, n, now);
    FindIdFacts(env, n.chain.blocks, id);
  }

  lemma StoredFacts(env: Env, n: NodeValue, id: Hash, now: nat)
    requires NodeOk(env, n, now) && id in n.store
    ensures BlockId(env, n.store[id]) == id
    ensures !HasId(env, n.chain.blocks, id) ==>
              && n.store[id].header.previousBlock in n.store
              && n.store[n.store[id].header.previousBlock].header.height + 1 == n.store[id].header.height
  {
    hide BlockTyped, BestOf, Confirmed, HasId, Settled, FindId;
    assert ParentStored(n.store, n.store[id]);
    FindIdFacts(env, n.chain.blocks, id);
    if !HasId(env, n.chain.blocks, id) {
      StoredAboveGenesis(env, n, id, now);
    }
  }

  /** Walking back from a stored parent reaches the active chain exactly when the whole branch is within the
      limit; neither a cycle nor a missing ancestor can stop it. */
  lemma {:induction false} WalkBackIff(env: Env, n: NodeValue, branch: seq<Block>, seen: set<Hash>, now: nat)
    requires NodeOk(env, n, now) && 0 < |branch| <= MAX_BRANCH + 1 && branch[0].header.previousBlock in n.store
    requires forall s :: s in seen ==> s in n.store && n.store[s].header.height > n.store[branch[0].header.previousBlock].header.height
    ensures WalkBack(env, n.store, n.chain.blocks, branch, seen).Ok?
       <==> |branch| + Detached(env, n.store, n.chain.blocks, n.store[branch[0].header.previousBlock]) <= MAX_BRANCH + 1
    decreases MAX_BRANCH + 1 - |branch|
  {
    hide NodeOk, FindId, HasId;
    var p := branch[0].header.previousBlock;
    ActiveFork(env, n, p, now);
    StoredFacts(env, n, p, now);
    if !HasId(env, n.chain.blocks, p) && |branch| <= MAX_BRANCH {
      var longer := [n.store[p]] + branch;
      assert longer[0] == n.store[p];
      WalkBackIff(env, n, longer, seen + {p}, now);
    }
  }

  /** A branch of stored blocks is assembled exactly when at most 100,000 of them are off the active chain. */
  lemma AssembleSucceedsIff(env: Env, n: NodeValue, block: Block, now: nat)
    requires NodeOk(env, n, now) && block.header.previousBlock in n.store
    ensures Assemble(env, n.store, n.chain.blocks, block).Ok?
       <==> Detached(env, n.store, n.chain.blocks, n.store[block.header.previousBlock]) <= 100_000
    ensures Assemble(env, n.store, n.chain.blocks, block).Ok? ==>
              Assemble(env, n.store, n.chain.blocks, block).value == BranchTo(n.store, n.store[block.header.previousBlock]) + [block]
  {
    hide NodeOk, WalkBack, Detached, BranchTo;
    WalkBackIff(env, n, [block], {}, now);
    if Assemble(env, n.store, n.chain.blocks, block).Ok? {
      WalkBackIsBranch(env, n, [block], {}, now);
    }
  }

  /** A block whose parent is neither active nor stored is refused. */
  lemma OrphanIsRefused(env: Env, n: NodeValue, block: Block, now: nat)
    requires NodeOk(env, n, now) && !HasId(env, n.chain.blocks, BlockId(env, block))
    requires block.header.previousBlock !in n.store
    ensures n.chain.blocks != []
    ensures Submit(env, n, block, now) == Err(WrongParent)
  {
    hide HasId, FindId, NodeOk, AppendTo, Consider;
    NodeStarts(env, n, now);
    ActiveIsStored(env, n, block.header.previousBlock, now);
    HasIdAt(env, n.chain.blocks, |n.chain.blocks| - 1);
    ActiveFork(env, n, block.header.previousBlock, now);
  }

  lemma NodeStarts(env: Env, n: NodeValue, now: nat)
    requires NodeOk(env, n, now)
    ensures n.chain.blocks != [] && n.chain.blocks[0] == Genesis(env)
  {
    hide StoreOk, BestOf, Genesis, Confirmed, Linked;
    NodeLinked(env, n, now);
  }

  lemma ActiveIsStored(env: Env, n: NodeValue, id: Hash, now: nat)
    requires NodeOk(env, n, now)
    ensures HasId(env, n.chain.blocks, id) ==> id in n.store
  {
    hide StoreOk, BestOf, Confirmed;
  }

  lemma {:induction false} StoreAllKeeps(env: Env, store: Store, blocks: seq<Block>)
    ensures forall id :: id in store ==> id in StoreAll(env, store, blocks)
  {
    if blocks != [] {
      StoreAllKeeps(env, store, blocks[..|blocks| - 1]);
    }
  }

  /** The branch a submitted block would complete. */
  ghost function BranchOf(n: NodeValue, block: Block): seq<Block>
    requires block.header.previousBlock in n.store
  {
    BranchTo(n.store, n.store[block.header.previousBlock]) + [block]
  }

  /** A new block on a stored branch that validates as a whole is taken: it is stored, and the better of its
      branch and the active chain is active afterwards. */
  lemma SideBlockIsTaken(env: Env, n: NodeValue, block: Block, now: nat)
    requires NodeOk(env, n, now) && !HasId(env, n.chain.blocks, BlockId(env, block))
    requires n.chain.blocks != [] && block.header.previousBlock in n.store
    requires block.header.previousBlock != BlockId(env, Tip(n.chain.blocks))
    requires Detached(env, n.store, n.chain.blocks, n.store[block.header.previousBlock]) <= 100_000
    requires Accepted(env, BranchOf(n, block), now) && CumulativeWork(BranchOf(n, block)).Ok?
    ensures var s := Submit(env, n, block, now);
            var work := CumulativeWork(BranchOf(n, block)).value;
            && s.Ok? && BlockId(env, block) in s.value.0.store
            && (if work > n.chain.work || (work == n.chain.work && BlockId(env, block) < BlockId(env, Tip(n.chain.blocks)))
                then s.value.0.chain.blocks == BranchOf(n, block) && s.value.0.chain.work == work
                     && s.value.0.chain.state == Replay(env, BranchOf(n, block), now).value
                else s.value.0.chain == n.chain)
  {
    hide NodeOk, Replay, CumulativeWork, HasId, Detached, WalkBack, BranchTo, Genesis, CommonPrefix, Assemble;
    AssembleSucceedsIff(env, n, block, now);
    NodeStarts(env, n, now);
    var candidate := BranchOf(n, block);
    StartsWithGenesis(env, candidate, now);
    StoreAllKeeps(env, StoreBlock(env, n.store, block), candidate);
    hide StoreAll;
  }

  /** A new block on the tip that validates, with total work in range, extends the chain. */
  lemma TipBlockIsTaken(env: Env, n: NodeValue, block: Block, now: nat)
    requires NodeOk(env, n, now) && !HasId(env, n.chain.blocks, BlockId(env, block))
    requires n.chain.blocks != [] && block.header.previousBlock == BlockId(env, Tip(n.chain.blocks))
    requires Accepted(env, n.chain.blocks + [block], now) && CumulativeWork(n.chain.blocks + [block]).Ok?
    ensures var s := Submit(env, n, block, now);
            && s.Ok? && BlockId(env, block) in s.value.0.store
            && s.value.0.chain.blocks == n.chain.blocks + [block]
            && s.value.0.chain.work == CumulativeWork(n.chain.blocks + [block]).value
            && s.value.0.chain.state == Replay(env, n.chain.blocks + [block], now).value
  {
    hide NodeOk, Replay, CumulativeWork, HasId, BranchTo, BranchWork, ValidateBlock, BlockWork, StoreAll, Assemble, Consider;
    TipAppends(env, n, block, now);
    hide AppendTo;
    StoreAllKeeps(env, StoreBlock(env, n.store, block), n.chain.blocks + [block]);
  }

  lemma TipAppends(env: Env, n: NodeValue, block: Block, now: nat)
    requires NodeOk(env, n, now) && !HasId(env, n.chain.blocks, BlockId(env, block))
    requires n.chain.blocks != [] && block.header.previousBlock == BlockId(env, Tip(n.chain.blocks))
    requires Accepted(env, n.chain.blocks + [block], now) && CumulativeWork(n.chain.blocks + [block]).Ok?
    ensures AppendTo(env, n.chain, block, now)
         == Ok((ChainValue(n.chain.blocks + [block], Replay(env, n.chain.blocks + [block], now).value,
                           CumulativeWork(n.chain.blocks + [block]).value),
                Extended(BlockId(env, block), block.header.height)))
  {
    hide NodeOk, Replay, CumulativeWork, HasId, BranchTo, BranchWork, ValidateBlock, BlockWork;
    TipStored(env, n, now);
    ReplaySnoc(env, n.chain.blocks, block, n.chain.state, now);
    CumulativeWorkSnoc(n.chain.blocks, block);
  }

  lemma {:induction false} StoreAllSame(env: Env, store: Store, blocks: seq<Block>)
    ensures forall id :: id in store ==> id in StoreAll(env, store, blocks) && StoreAll(env, store, blocks)[id] == store[id]
  {
    if blocks != [] {
      StoreAllSame(env, store, blocks[..|blocks| - 1]);
    }
  }

  /** No submission changes or removes a stored block. */
  lemma StoredStays(env: Env, n: NodeValue, block: Block, now: nat, id: Hash)
    requires n.chain.blocks != [] && Submit(env, n, block, now).Ok? && id in n.store
    ensures id in Submit(env, n, block, now).value.0.store && Submit(env, n, block, now).value.0.store[id] == n.store[id]
  {
    hide Offer, HasId, StoreAll;
    if Offer(env, n, block, now).Ok? {
      StoreAllSame(env, StoreBlock(env, n.store, block), Offer(env, n, block, now).value.0.blocks);
    }
  }
}
