/** The part of `Node` in src/node.rs that owns the chain and the block store. */
module Nodes {
  import opened Base
  import opened Params
  import opened Types
  import opened State
  import opened LedgerMachine
  import opened Rewards
  import opened Validation
  import opened ChainSpec
  import opened Chains
  import opened ForkChoice

  ghost predicate StoreAddressable(store: Store) {
    forall id :: id in store ==> |store[id].workshareWitness.workshares| <= U64_MAX
  }

  class Node {
    const env: Env
    var chain: Chain
    var store: Store
    ghost var clock: nat

    ghost function View(): NodeValue
      reads this, chain, chain.state
    {
      NodeValue(store, chain.Value())
    }

    ghost predicate Valid()
      reads this, chain, chain.state, chain.state.tree
    {
      && KeysFit(env) && KeysInjective(env) && IdsBind(env)
      && chain.Valid() && chain.env == env && chain.clock <= clock
      && StoreAddressable(store)
      && NodeOk(env, View(), clock)
    }

    constructor Open(env: Env)
      requires KeysFit(env) && KeysInjective(env) && IdsBind(env) && BlockTyped(Genesis(env))
      ensures Valid() && this.env == env && View() == Start(env) && clock == 0
    {
      hide KeysFit, KeysInjective, IdsBind, BlockTyped, NodeOk, Chain.Valid, Genesis, BlockWork;
      this.env := env;
      chain := new Chain.Genesis(env);
      store := map[BlockId(env, Genesis(env)) := Genesis(env)];
      clock := 0;
      new;
      StartOk(env);
      StartIs(env);
      GenesisAddressable(env);
      assert |[Genesis(env)][0].workshareWitness.workshares| <= U64_MAX;
    }

    /** `assemble_candidate`: collect unknown ancestors newest first, then reverse. */
    method AssembleCandidate(block: Block) returns (r: Result<seq<Block>, ConsensusError>)
      requires Valid()
      ensures r == Assemble(env, store, chain.blocks, block)
    {
      hide *;
      var active := chain.blocks;
      var reverse := [block];
      var seen: set<Hash> := {};
      assert Reversed(reverse) == [block];
      AssembleIs(env, store, active, block);
      while true
        invariant |reverse| >= 1 && |reverse| <= MAX_BRANCH + 1
        invariant WalkBack(env, store, active, Reversed(reverse), seen) == Assemble(env, store, active, block)
        decreases MAX_BRANCH + 1 - |reverse|
      {
        var parentHash := reverse[|reverse| - 1].header.previousBlock;
        WalkBackStep(env, store, active, reverse, seen);
        var parent := FindId(env, active, parentHash);
        if parent.Some? {
          if parent.value.header.height >= |active| {
            return Err(WrongHeight);
          }
          return Ok(active[..parent.value.header.height + 1] + Reversed(reverse));
        }
        if parentHash in seen || |reverse| > MAX_BRANCH || parentHash !in store {
          return Err(WrongParent);
        }
        seen := seen + {parentHash};
        reverse := reverse + [store[parentHash]];
      }
    }

    /** The chain after the block is appended or its branch considered, on a copy. */
    method Propose(block: Block, now: nat) returns (candidate: Chain, event: Result<ChainEvent, ConsensusError>)
      requires Valid() && clock <= now
      requires |block.workshareWitness.workshares| <= U64_MAX
      ensures candidate.Valid() && candidate.env == env && candidate.clock <= now
      ensures event.Ok? ==> Offer(env, View(), block, now) == Ok((candidate.Value(), event.value))
      ensures event.Err? ==> Offer(env, View(), block, now) == Err(event.error)
    {
      hide KeysFit, KeysInjective, IdsBind, BlockTyped, NodeOk, HasId, AppendTo, Consider, LedgerState.Valid, Confirmed, Assemble;
      candidate := new Chain.Clone(chain);
      if block.header.previousBlock == BlockId(env, Tip(chain.blocks)) {
        event := candidate.Append(block, now);
      } else {
        var assembled := AssembleCandidate(block);
        if assembled.Err? {
          event := Err(assembled.error);
        } else {
          AssembledAddressable(env, store, chain.blocks, block);
          event := candidate.ConsiderChain(assembled.value, now);
        }
      }
    }

    /** `submit_block`. */
    method SubmitBlock(block: Block, now: nat) returns (r: Result<ChainEvent, ConsensusError>)
      requires Valid() && clock <= now
      requires BlockTyped(block) && |block.workshareWitness.workshares| <= U64_MAX
      modifies this
      ensures Valid()
      ensures r.Ok? ==> Submit(env, old(View()), block, now) == Ok((View(), r.value))
      ensures r.Err? ==> Submit(env, old(View()), block, now) == Err(r.error) && View() == old(View())
    {
      hide KeysFit, KeysInjective, IdsBind, BlockTyped, NodeOk, HasId, Offer, LedgerState.Valid, Confirmed, StoreAll, StoreBlock, StoreAddressable;
      ghost var before := View();
      if HasId(env, chain.blocks, BlockId(env, block)) {
        return Ok(Known);
      }
      var candidate, event := Propose(block, now);
      if event.Err? {
        return Err(event.error);
      }
      NodeLater(env, before, clock, now);
      clock := now;
      StoreAddressableAfter(env, store, block, candidate.blocks);
      store := StoreBlock(env, store, block);
      if event.value.Extended? || event.value.Reorganized? {
        store := StoreAll(env, store, candidate.blocks);
        chain := candidate;
      }
      SubmitKeeps(env, before, block, now);
      return Ok(event.value);
    }
  }

  lemma StartIs(env: Env)
    ensures Start(env).store == map[BlockId(env, Genesis(env)) := Genesis(env)]
    ensures Start(env).chain.blocks == [Genesis(env)] && Start(env).chain.state == EMPTY_LEDGER
    ensures Some(Start(env).chain.work) == BlockWork(Genesis(env))
  {
    GenesisConfirmed(env);
    hide Genesis, BlockWork;
  }

  lemma AssembleIs(env: Env, store: Store, active: seq<Block>, block: Block)
    ensures Assemble(env, store, active, block) == WalkBack(env, store, active, [block], {})
  {
    hide WalkBack;
  }

  lemma WalkBackStep(env: Env, store: Store, active: seq<Block>, reverse: seq<Block>, seen: set<Hash>)
    requires reverse != []
    ensures var parent := reverse[|reverse| - 1].header.previousBlock;
            WalkBack(env, store, active, Reversed(reverse), seen)
            == match FindId(env, active, parent)
               case Some(fork) =>
                 if fork.header.height >= |active| then Err(WrongHeight) else Ok(active[..fork.header.height + 1] + Reversed(reverse))
               case None =>
                 if parent in seen || |reverse| > MAX_BRANCH || parent !in store then Err(WrongParent)
                 else WalkBack(env, store, active, Reversed(reverse + [store[parent]]), seen + {parent})
  {
    hide FindId;
    var parent := reverse[|reverse| - 1].header.previousBlock;
    if parent in store {
      assert Reversed(reverse + [store[parent]]) == [store[parent]] + Reversed(reverse);
    }
  }

  lemma {:induction false} WalkBackAddressable(env: Env, store: Store, active: seq<Block>, branch: seq<Block>, seen: set<Hash>)
    requires StoreAddressable(store) && Addressable(active) && Addressable(branch) && branch != []
    requires WalkBack(env, store, active, branch, seen).Ok?
    ensures Addressable(WalkBack(env, store, active, branch, seen).value)
    decreases MAX_BRANCH + 1 - |branch|
  {
    hide FindId;
    var parent := branch[0].header.previousBlock;
    if FindId(env, active, parent).None? {
      WalkBackAddressable(env, store, active, [store[parent]] + branch, seen + {parent});
    }
  }

  lemma AssembledAddressable(env: Env, store: Store, active: seq<Block>, block: Block)
    requires StoreAddressable(store) && Addressable(active) && |block.workshareWitness.workshares| <= U64_MAX
    requires Assemble(env, store, active, block).Ok?
    ensures Addressable(Assemble(env, store, active, block).value)
  {
    hide WalkBack;
    WalkBackAddressable(env, store, active, [block], {});
  }

  lemma {:induction false} StoreAllAddressable(env: Env, store: Store, blocks: seq<Block>)
    requires StoreAddressable(store) && Addressable(blocks)
    ensures StoreAddressable(StoreAll(env, store, blocks))
  {
    if blocks != [] {
      StoreAllAddressable(env, store, blocks[..|blocks| - 1]);
    }
  }

  lemma StoreAddressableAfter(env: Env, store: Store, block: Block, blocks: seq<Block>)
    requires StoreAddressable(store) && Addressable(blocks) && |block.workshareWitness.workshares| <= U64_MAX
    ensures StoreAddressable(StoreBlock(env, store, block))
    ensures StoreAddressable(StoreAll(env, StoreBlock(env, store, block), blocks))
  {
    StoreAllAddressable(env, StoreBlock(env, store, block), blocks);
  }
}
