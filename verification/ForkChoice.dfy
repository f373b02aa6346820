/** Fork choice over arriving blocks (src/node.rs): the block store, `assemble_candidate` and
    `submit_block`, as a state machine whose runs are block arrivals. In every reachable state the
    active tip is the best of all stored blocks, so nodes that stored the same blocks agree. */
module ForkChoice {
  import opened Base
  import opened Params
  import opened Difficulty
  import opened Types
  import opened Merkle
  import opened State
  import opened Rewards
  import opened Validation
  import opened Accounting
  import opened ChainSpec
  import opened Chains

  type Store = map<Hash, Block>

  datatype NodeValue = NodeValue(store: Store, chain: ChainValue)

  const MAX_BRANCH: nat := 100_000

  // --------------------------------------------------------------------- operations

  /** `block_by_hash` on the active chain: the first block with that id. */
  function FindId(env: Env, blocks: seq<Block>, id: Hash): Option<Block> {
    if blocks == [] then None
    else if BlockId(env, blocks[0]) == id then Some(blocks[0])
    else FindId(env, blocks[1..], id)
  }

  /** The loop of `assemble_candidate`, with the branch collected so far in chain order. */
  function WalkBack(env: Env, store: Store, active: seq<Block>, branch: seq<Block>, seen: set<Hash>): Result<seq<Block>, ConsensusError>
    requires branch != []
    decreases MAX_BRANCH + 1 - |branch|
  {
    var parent := branch[0].header.previousBlock;
    match FindId(env, active, parent)
    case Some(fork) =>
      if fork.header.height >= |active| then Err(WrongHeight) else Ok(active[..fork.header.height + 1] + branch)
    case None =>
      if parent in seen || |branch| > MAX_BRANCH || parent !in store then Err(WrongParent)
      else WalkBack(env, store, active, [store[parent]] + branch, seen + {parent})
  }

  function Assemble(env: Env, store: Store, active: seq<Block>, block: Block): Result<seq<Block>, ConsensusError> {
    WalkBack(env, store, active, [block], {})
  }

  /** Insert unless the id is taken. */
  function StoreBlock(env: Env, store: Store, block: Block): Store {
    if BlockId(env, block) in store then store else store[BlockId(env, block) := block]
  }

  /** The insertions of `save_chain`. */
  function StoreAll(env: Env, store: Store, blocks: seq<Block>): Store {
    if blocks == [] then store else StoreBlock(env, StoreAll(env, store, blocks[..|blocks| - 1]), blocks[|blocks| - 1])
  }

  /** What the chain makes of an arriving block: an extension of the tip, or a branch to consider. */
  ghost function Offer(env: Env, n: NodeValue, block: Block, now: nat): Result<(ChainValue, ChainEvent), ConsensusError>
    requires n.chain.blocks != []
  {
    if block.header.previousBlock == BlockId(env, Tip(n.chain.blocks)) then AppendTo(env, n.chain, block, now)
    else
      var candidate :- Assemble(env, n.store, n.chain.blocks, block);
      Consider(env, n.chain, candidate, now)
  }

  /** `submit_block`, with storage calls that succeed. */
  ghost function Submit(env: Env, n: NodeValue, block: Block, now: nat): Result<(NodeValue, ChainEvent), ConsensusError>
    requires n.chain.blocks != []
  {
    if HasId(env, n.chain.blocks, BlockId(env, block)) then Ok((n, Known))
    else
      var outcome :- Offer(env, n, block, now);
      var stored := StoreBlock(env, n.store, block);
      if outcome.1.Extended? || outcome.1.Reorganized? then Ok((NodeValue(StoreAll(env, stored, outcome.0.blocks), outcome.0), outcome.1))
      else Ok((NodeValue(stored, n.chain), outcome.1))
  }

  // ------------------------------------------------------------------------ branches

  /** The chain of stored ancestors of a block, ending in it. */
  function BranchTo(store: Store, block: Block): (branch: seq<Block>)
    ensures branch != [] && branch[|branch| - 1] == block
    decreases block.header.height
  {
    var parent := block.header.previousBlock;
    if parent in store && store[parent].header.height < block.header.height
    then BranchTo(store, store[parent]) + [block]
    else [block]
  }

  /** A stored block above genesis has its parent in the store, one height below. */
  predicate ParentStored(store: Store, block: Block) {
    block.header.height > 0 ==>
      && block.header.previousBlock in store
      && store[block.header.previousBlock].header.height + 1 == block.header.height
  }

  /** The branch of a stored block is an accepted chain. */
  ghost predicate Settled(env: Env, store: Store, block: Block, now: nat) {
    && Accepted(env, BranchTo(store, block), now)
    && NoLaterGenesis(BranchTo(store, block))
    && CumulativeWork(BranchTo(store, block)).Ok?
  }

  ghost predicate StoreOk(env: Env, store: Store, now: nat) {
    forall id :: id in store ==>
      && BlockId(env, store[id]) == id
      && ParentStored(store, store[id])
      && Settled(env, store, store[id], now)
      && BlockTyped(store[id])
  }

  ghost function BranchWork(store: Store, block: Block): nat {
    match CumulativeWork(BranchTo(store, block))
    case Ok(work) => work
    case Err(_) => 0
  }

  /** `tip` is at least as good as `other`: more work, or as much and no higher id. */
  ghost predicate AtLeast(env: Env, store: Store, tip: Block, other: Block) {
    || BranchWork(store, tip) > BranchWork(store, other)
    || (BranchWork(store, tip) == BranchWork(store, other) && BlockId(env, tip) <= BlockId(env, other))
  }

  ghost predicate BestOf(env: Env, store: Store, tip: Block) {
    forall id :: id in store ==> AtLeast(env, store, tip, store[id])
  }

  ghost predicate AllStored(env: Env, store: Store, blocks: seq<Block>) {
    forall i :: 0 <= i < |blocks| ==> BlockId(env, blocks[i]) in store && store[BlockId(env, blocks[i])] == blocks[i]
  }

  /** The invariant of every run. */
  ghost predicate NodeOk(env: Env, n: NodeValue, now: nat) {
    && StoreOk(env, n.store, now)
    && Confirmed(env, n.chain, now)
    && NoLaterGenesis(n.chain.blocks)
    && n.chain.blocks != []
    && AllStored(env, n.store, n.chain.blocks)
    && BestOf(env, n.store, Tip(n.chain.blocks))
  }

  /** Validated bodies are determined by their id; Binding.dfy derives this from collision freedom. */
  ghost predicate ValidBody(env: Env, b: Block) {
    && BlockTyped(b)
    && |b.transactions| <= MAX_BLOCK_TRANSACTIONS && BlockSize(b) <= MAX_BLOCK_BYTES
    && TransactionRoot(env, b) == b.header.transactionsRoot
    && env.witnessRoot(b.workshareWitness) == b.header.workshareRoot
    && WitnessShapeOk(env, b.workshareWitness)
    && b.rewardClaim.Some?
    && Distinct(TransactionIds(env, b.transactions))
  }

  ghost predicate IdsBind(env: Env) {
    forall b, c :: ValidBody(env, b) && ValidBody(env, c) && BlockId(env, b) == BlockId(env, c) ==> b == c
  }

  // ------------------------------------------------------------------- branch lemmas

  /** New blocks do not change the branches of old ones. */
  lemma {:induction false} BranchStable(env: Env, store: Store, id: Hash, block: Block, earlier: Block, now: nat)
    requires StoreOk(env, store, now) && id !in store
    requires earlier.header.previousBlock in store || earlier.header.height == 0
    requires ParentStored(store, earlier)
    ensures BranchTo(store[id := block], earlier) == BranchTo(store, earlier)
    decreases earlier.header.height
  {
    hide Settled, BlockTyped;
    if earlier.header.height > 0 {
      var parent := store[earlier.header.previousBlock];
      BranchStable(env, store, id, block, parent, now);
    }
  }

  /** A linked chain that is stored block by block is the branch of each of its blocks. */
  lemma {:induction false} ChainIsBranch(env: Env, store: Store, blocks: seq<Block>, i: nat)
    requires Linked(env, blocks) && AllStored(env, store, blocks) && i < |blocks|
    requires forall id :: id in store ==> ParentStored(store, store[id])
    ensures BranchTo(store, blocks[i]) == blocks[..i + 1]
  {
    hide BitsToTarget;
    if i == 0 {
      assert blocks[..1] == [blocks[0]];
    } else {
      assert blocks[i].header.previousBlock == BlockId(env, blocks[i - 1]);
      assert store[blocks[i].header.previousBlock] == blocks[i - 1];
      ChainIsBranch(env, store, blocks, i - 1);
      assert blocks[..i + 1] == blocks[..i] + [blocks[i]];
    }
  }

  lemma ParentsAreStored(env: Env, store: Store, now: nat)
    requires StoreOk(env, store, now)
    ensures forall id :: id in store ==> ParentStored(store, store[id])
  {
    hide Settled, BlockTyped, ParentStored;
  }

  lemma NodeLinked(env: Env, n: NodeValue, now: nat)
    requires NodeOk(env, n, now)
    ensures Linked(env, n.chain.blocks)
    ensures BranchTo(n.store, Tip(n.chain.blocks)) == n.chain.blocks
    ensures n.chain.blocks[0] == Genesis(env)
    ensures CumulativeWork(n.chain.blocks) == Ok(n.chain.work) && BranchWork(n.store, Tip(n.chain.blocks)) == n.chain.work
  {
    hide StoreOk, BestOf, Replay, CumulativeWork, Linked, ParentStored, Genesis;
    var blocks := n.chain.blocks;
    ConfirmedNonempty(env, n.chain, now);
    AcceptedIsLinked(env, blocks, now);
    ParentsAreStored(env, n.store, now);
    ChainIsBranch(env, n.store, blocks, |blocks| - 1);
    assert blocks[..|blocks|] == blocks;
  }

  lemma {:induction false} FindIdFacts(env: Env, blocks: seq<Block>, id: Hash)
    ensures FindId(env, blocks, id).Some? <==> HasId(env, blocks, id)
    ensures FindId(env, blocks, id).Some? ==>
              exists i :: 0 <= i < |blocks| && blocks[i] == FindId(env, blocks, id).value && BlockId(env, blocks[i]) == id
  {
    if blocks != [] {
      var rest := blocks[1..];
      FindIdFacts(env, rest, id);
      if BlockId(env, blocks[0]) != id {
        if FindId(env, rest, id).Some? {
          var i :| 0 <= i < |rest| && rest[i] == FindId(env, rest, id).value && BlockId(env, rest[i]) == id;
          assert blocks[i + 1] == rest[i];
        }
        if HasId(env, blocks, id) {
          var i :| 0 <= i < |blocks| && BlockId(env, blocks[i]) == id;
          assert rest[i - 1] == blocks[i];
        }
      }
    }
  }

  /** Walking back to the active chain reproduces the stored branch. */
  lemma {:induction false} WalkBackIsBranch(env: Env, n: NodeValue, branch: seq<Block>, seen: set<Hash>, now: nat)
    requires NodeOk(env, n, now) && branch != []
    requires WalkBack(env, n.store, n.chain.blocks, branch, seen).Ok?
    ensures branch[0].header.previousBlock in n.store
    ensures WalkBack(env, n.store, n.chain.blocks, branch, seen).value
         == BranchTo(n.store, n.store[branch[0].header.previousBlock]) + branch
    decreases MAX_BRANCH + 1 - |branch|
  {
    hide Settled, BlockTyped, BestOf, Confirmed, FindId, HasId, CumulativeWork;
    var active, parent := n.chain.blocks, branch[0].header.previousBlock;
    NodeLinked(env, n, now);
    FindIdFacts(env, active, parent);
    if FindId(env, active, parent).Some? {
      var i :| 0 <= i < |active| && active[i] == FindId(env, active, parent).value && BlockId(env, active[i]) == parent;
      ParentsAreStored(env, n.store, now);
      ChainIsBranch(env, n.store, active, i);
      assert active[i].header.height == i;
    } else {
      var p := n.store[parent];
      WalkBackIsBranch(env, n, [p] + branch, seen + {parent}, now);
      StoredAboveGenesis(env, n, parent, now);
    }
  }

  /** The only stored block at height 0 is the genesis block, which is active. */
  lemma StoredAboveGenesis(env: Env, n: NodeValue, id: Hash, now: nat)
    requires NodeOk(env, n, now) && id in n.store
    requires FindId(env, n.chain.blocks, id).None?
    ensures n.store[id].header.height > 0
  {
    hide BlockTyped, BestOf, Confirmed, FindId, HasId, CumulativeWork, Replay, Genesis;
    var block := n.store[id];
    if block.header.height == 0 {
      assert Settled(env, n.store, block, now);
      StartsWithGenesis(env, BranchTo(n.store, block), now);
      assert BranchTo(n.store, block) == [block];
      NodeLinked(env, n, now);
      HasIdAt(env, n.chain.blocks, 0);
      FindIdFacts(env, n.chain.blocks, id);
    }
  }

  lemma HasIdAt(env: Env, blocks: seq<Block>, i: nat)
    requires i < |blocks|
    ensures HasId(env, blocks, BlockId(env, blocks[i]))
  {
  }

  // ------------------------------------------------------------- one arrival at a time

  lemma BodyOf(env: Env, block: Block, history: seq<Block>, state: Ledger, now: nat)
    requires ValidateBlock(env, block, history, state, now).Ok? && block.header.height != 0 && BlockTyped(block)
    ensures ValidBody(env, block)
  {
    hide HeaderContext, TransactionRoot, WitnessShapeOk, LedgerRoot, ValidateWorkshares, RewardAllocation, ScheduleReward, ScheduleAll,
         Mature, ApplyTransactions, RandomxSeed, VerifyPow, BlockSize, BlockTyped, Genesis;
    ValidBlockFacts(env, block, history, state, now);
    var matured := Mature(state, block.header.height).value;
    var ids := TransactionIds(env, block.transactions);
    forall i, j | 0 <= i < j < |ids| ensures ids[i] != ids[j] {
      ApplyDistinct(env, matured, block.transactions, i, j);
    }
  }

  /** The last block of an accepted chain has a committed body. */
  lemma TipBody(env: Env, blocks: seq<Block>, now: nat)
    requires Accepted(env, blocks, now) && |blocks| > 1 && Tip(blocks).header.height != 0 && BlockTyped(Tip(blocks))
    ensures ValidBody(env, Tip(blocks))
  {
    hide Replay, ValidateBlock, ValidBody, BlockTyped;
    ReplayPrefix(env, blocks, now);
    BodyOf(env, Tip(blocks), blocks[..|blocks| - 1], Replay(env, blocks[..|blocks| - 1], now).value, now);
  }

  lemma SettledLater(env: Env, store: Store, block: Block, now: nat, later: nat)
    requires Settled(env, store, block, now) && now <= later
    ensures Settled(env, store, block, later)
  {
    hide Replay, CumulativeWork;
    ReplayLater(env, BranchTo(store, block), now, later);
  }

  /** The invariant outlives its clock. */
  lemma NodeLater(env: Env, n: NodeValue, now: nat, later: nat)
    requires NodeOk(env, n, now) && now <= later
    ensures NodeOk(env, n, later)
  {
    hide Settled, BestOf, Confirmed, ParentStored, BlockTyped;
    ConfirmedLater(env, n.chain, now, later);
    forall id | id in n.store ensures Settled(env, n.store, n.store[id], later) {
      SettledLater(env, n.store, n.store[id], now, later);
    }
  }

  lemma {:induction false} StoreAllKnown(env: Env, store: Store, blocks: seq<Block>)
    requires AllStored(env, store, blocks)
    ensures StoreAll(env, store, blocks) == store
  {
    if blocks != [] {
      StoreAllKnown(env, store, blocks[..|blocks| - 1]);
      assert BlockId(env, blocks[|blocks| - 1]) in store;
    }
  }

  /** What an arriving block must offer to enter the store: an accepted branch on a stored parent. */
  ghost predicate Attaches(env: Env, store: Store, block: Block, candidate: seq<Block>, now: nat) {
    && block.header.previousBlock in store
    && candidate == BranchTo(store, store[block.header.previousBlock]) + [block]
    && Accepted(env, candidate, now) && NoLaterGenesis(candidate) && CumulativeWork(candidate).Ok?
    && BlockTyped(block)
  }

  lemma AttachedHeight(env: Env, store: Store, block: Block, candidate: seq<Block>, now: nat)
    requires Attaches(env, store, block, candidate, now)
    ensures |candidate| > 1 && Tip(candidate) == block
    ensures block.header.height == store[block.header.previousBlock].header.height + 1
  {
    hide Replay, CumulativeWork, BlockTyped, BranchTo, BitsToTarget;
    var before := BranchTo(store, store[block.header.previousBlock]);
    assert candidate[..|candidate| - 1] == before;
    AcceptedTip(env, candidate, now);
  }

  /** Storing an attached block keeps the store sound and every old branch as it was. */
  lemma StoreGrows(env: Env, store: Store, block: Block, candidate: seq<Block>, now: nat)
    requires StoreOk(env, store, now) && Attaches(env, store, block, candidate, now)
    requires BlockId(env, block) !in store
    ensures var grown := store[BlockId(env, block) := block];
            && StoreOk(env, grown, now)
            && BranchTo(grown, block) == candidate
            && forall id :: id in store ==> BranchTo(grown, store[id]) == BranchTo(store, store[id])
  {
    hide Replay, CumulativeWork, BlockTyped, Accepted, NoLaterGenesis;
    var id := BlockId(env, block);
    var grown := store[id := block];
    AttachedHeight(env, store, block, candidate, now);
    forall x | x in store ensures BranchTo(grown, store[x]) == BranchTo(store, store[x]) {
      BranchStable(env, store, id, block, store[x], now);
    }
    assert BranchTo(grown, block) == candidate;
    forall x | x in grown
      ensures BlockId(env, grown[x]) == x && ParentStored(grown, grown[x]) && Settled(env, grown, grown[x], now) && BlockTyped(grown[x]) {
      if x != id {
        assert ParentStored(store, store[x]) && Settled(env, store, store[x], now);
      }
    }
  }

  lemma BestAfterGrowth(env: Env, store: Store, block: Block, tip: Block, winner: Block)
    requires BlockId(env, block) !in store
    requires var grown := store[BlockId(env, block) := block];
             forall id :: id in store ==> BranchTo(grown, store[id]) == BranchTo(store, store[id])
    requires BestOf(env, store, tip) && BlockId(env, tip) in store && store[BlockId(env, tip)] == tip
    requires winner == block || winner == tip
    requires var grown := store[BlockId(env, block) := block];
             AtLeast(env, grown, winner, tip) && AtLeast(env, grown, winner, block)
    ensures BestOf(env, store[BlockId(env, block) := block], winner)
  {
    hide BranchTo, CumulativeWork;
    var grown := store[BlockId(env, block) := block];
    forall id | id in grown ensures AtLeast(env, grown, winner, grown[id]) {
      if id != BlockId(env, block) {
        assert AtLeast(env, store, tip, store[id]);
        assert BranchWork(grown, tip) == BranchWork(store, tip);
        assert BranchWork(grown, store[id]) == BranchWork(store, store[id]);
      }
    }
  }

  /** An arriving block that is already stored loses to the active tip, or is the active tip. */
  lemma StoredIsNotPreferred(env: Env, n: NodeValue, block: Block, candidate: seq<Block>, now: nat)
    requires NodeOk(env, n, now) && IdsBind(env)
    requires Attaches(env, n.store, block, candidate, now) && BlockId(env, block) in n.store
    requires !HasId(env, n.chain.blocks, BlockId(env, block))
    ensures n.store[BlockId(env, block)] == block && BranchTo(n.store, block) == candidate
    ensures AtLeast(env, n.store, Tip(n.chain.blocks), block)
  {
    hide Replay, CumulativeWork, BlockTyped, Confirmed, ValidBody;
    var id := BlockId(env, block);
    AttachedHeight(env, n.store, block, candidate, now);
    TipBody(env, candidate, now);
    StoredBody(env, n, id, block, now);
    assert AtLeast(env, n.store, Tip(n.chain.blocks), n.store[id]);
    StoredBranch(env, n.store, block, now);
  }

  lemma StoredBranch(env: Env, store: Store, block: Block, now: nat)
    requires StoreOk(env, store, now) && BlockId(env, block) in store && store[BlockId(env, block)] == block
    requires block.header.height > 0
    ensures block.header.previousBlock in store
    ensures BranchTo(store, block) == BranchTo(store, store[block.header.previousBlock]) + [block]
  {
    hide Settled, BlockTyped;
    assert ParentStored(store, store[BlockId(env, block)]);
  }

  lemma StoredBody(env: Env, n: NodeValue, id: Hash, block: Block, now: nat)
    requires NodeOk(env, n, now) && IdsBind(env) && id in n.store && BlockId(env, block) == id
    requires ValidBody(env, block) && !HasId(env, n.chain.blocks, id)
    ensures n.store[id] == block
  {
    hide Replay, CumulativeWork, Confirmed, ValidBody, BestOf, BlockTyped, Genesis;
    var stored := n.store[id];
    assert Settled(env, n.store, stored, now) && ParentStored(n.store, stored) && BlockId(env, stored) == id && BlockTyped(stored);
    FindIdFacts(env, n.chain.blocks, id);
    StoredAboveGenesis(env, n, id, now);
    TipBody(env, BranchTo(n.store, stored), now);
  }

  lemma {:induction false} BranchAllStored(env: Env, store: Store, block: Block, now: nat)
    requires StoreOk(env, store, now) && BlockId(env, block) in store && store[BlockId(env, block)] == block
    ensures AllStored(env, store, BranchTo(store, block))
    decreases block.header.height
  {
    hide Settled, BlockTyped;
    assert ParentStored(store, store[BlockId(env, block)]);
    if block.header.height > 0 {
      BranchAllStored(env, store, store[block.header.previousBlock], now);
    }
  }

  /** A block new to the active chain that validates above it is not a second genesis. */
  lemma NotGenesis(env: Env, n: NodeValue, block: Block, history: seq<Block>, state: Ledger, now: nat)
    requires NodeOk(env, n, now) && !HasId(env, n.chain.blocks, BlockId(env, block))
    requires ValidateBlock(env, block, history, state, now).Ok?
    ensures block.header.height > 0
  {
    NodeLinked(env, n, now);
    hide NodeOk, HasId, HeaderContext, TransitionFor, ValidateWorkshares, RandomxSeed, VerifyPow, Genesis, Linked;
    HasIdAt(env, n.chain.blocks, 0);
  }

  lemma NoLaterGenesisSnoc(blocks: seq<Block>, block: Block)
    requires NoLaterGenesis(blocks) && blocks != [] && block.header.height > 0
    ensures NoLaterGenesis(blocks + [block])
  {
  }

  /** What the invariant says of the stored active tip. */
  lemma TipStored(env: Env, n: NodeValue, now: nat)
    requires NodeOk(env, n, now)
    ensures var tip := Tip(n.chain.blocks);
            && BlockId(env, tip) in n.store && n.store[BlockId(env, tip)] == tip
            && BranchTo(n.store, tip) == n.chain.blocks
            && BranchWork(n.store, tip) == n.chain.work
            && CumulativeWork(n.chain.blocks) == Ok(n.chain.work)
            && Replay(env, n.chain.blocks, now) == Ok(n.chain.state)
  {
    NodeLinked(env, n, now);
    hide StoreOk, BestOf, Linked, Genesis;
    ConfirmedNonempty(env, n.chain, now);
  }

  lemma AppendAttaches(env: Env, n: NodeValue, block: Block, now: nat)
    requires NodeOk(env, n, now) && BlockTyped(block)
    requires !HasId(env, n.chain.blocks, BlockId(env, block))
    requires block.header.previousBlock == BlockId(env, Tip(n.chain.blocks))
    requires AppendTo(env, n.chain, block, now).Ok?
    ensures AppendTo(env, n.chain, block, now).value.1.Extended?
    ensures var grown := AppendTo(env, n.chain, block, now).value.0;
            && grown.blocks == n.chain.blocks + [block]
            && grown.work > n.chain.work
            && CumulativeWork(grown.blocks) == Ok(grown.work)
            && Confirmed(env, grown, now)
            && Attaches(env, n.store, block, grown.blocks, now)
  {
    TipStored(env, n, now);
    NotGenesis(env, n, block, n.chain.blocks, n.chain.state, now);
    NoLaterGenesisSnoc(n.chain.blocks, block);
    AppendIsReplay(env, n.chain, block, now, now);
    BlockWorkPositive(block);
    hide ValidateBlock, Replay, CumulativeWork, BlockWork, HasId, StoreOk, BestOf, NoLaterGenesis, BranchTo, BlockTyped;
    ConfirmedNonempty(env, AppendTo(env, n.chain, block, now).value.0, now);
  }

  lemma CandidateAttaches(env: Env, n: NodeValue, block: Block, now: nat)
    requires NodeOk(env, n, now) && BlockTyped(block)
    requires !HasId(env, n.chain.blocks, BlockId(env, block))
    requires Assemble(env, n.store, n.chain.blocks, block).Ok?
    requires FromBlocks(env, Assemble(env, n.store, n.chain.blocks, block).value, now).Ok?
    ensures Attaches(env, n.store, block, Assemble(env, n.store, n.chain.blocks, block).value, now)
  {
    var candidate := Assemble(env, n.store, n.chain.blocks, block).value;
    WalkBackIsBranch(env, n, [block], {}, now);
    hide WalkBack, Replay, CumulativeWork, BestOf, Confirmed, HasId, BlockTyped, BranchTo;
    var before := BranchTo(n.store, n.store[block.header.previousBlock]);
    assert Settled(env, n.store, n.store[block.header.previousBlock], now);
    assert candidate == before + [block];
    assert candidate[..|candidate| - 1] == before;
    ReplayPrefix(env, candidate, now);
    NotGenesis(env, n, block, before, Replay(env, before, now).value, now);
    NoLaterGenesisSnoc(before, block);
  }

  lemma WorkOf(store: Store, block: Block, candidate: seq<Block>, work: nat)
    requires BranchTo(store, block) == candidate && CumulativeWork(candidate) == Ok(work)
    ensures BranchWork(store, block) == work
  {
  }

  lemma GrowthStored(env: Env, n: NodeValue, block: Block, candidate: seq<Block>, now: nat)
    requires NodeOk(env, n, now) && Attaches(env, n.store, block, candidate, now) && BlockId(env, block) !in n.store
    ensures var grown := n.store[BlockId(env, block) := block];
            AllStored(env, grown, n.chain.blocks) && AllStored(env, grown, candidate)
  {
    hide BestOf, Confirmed, Accepted, NoLaterGenesis, CumulativeWork, BlockTyped, Settled, BranchTo;
    var parent := n.store[block.header.previousBlock];
    BranchAllStored(env, n.store, parent, now);
    var before := BranchTo(n.store, parent);
    var grown := n.store[BlockId(env, block) := block];
    forall i | 0 <= i < |candidate| ensures BlockId(env, candidate[i]) in grown && grown[BlockId(env, candidate[i])] == candidate[i] {
      if i < |before| {
        assert candidate[i] == before[i];
      }
    }
  }

  /** `work` and `id` against the active chain, the way `consider_chain` compares. */
  predicate NoWorse(workA: nat, idA: Hash, workB: nat, idB: Hash) {
    workA > workB || (workA == workB && idA <= idB)
  }

  lemma GrowthBest(env: Env, n: NodeValue, block: Block, candidate: seq<Block>, work: nat, winner: Block, now: nat)
    requires NodeOk(env, n, now) && Attaches(env, n.store, block, candidate, now) && BlockId(env, block) !in n.store
    requires CumulativeWork(candidate) == Ok(work)
    requires || (winner == Tip(n.chain.blocks) && NoWorse(n.chain.work, BlockId(env, winner), work, BlockId(env, block)))
             || (winner == block && NoWorse(work, BlockId(env, block), n.chain.work, BlockId(env, Tip(n.chain.blocks))))
    ensures BestOf(env, n.store[BlockId(env, block) := block], winner)
  {
    var grown, tip := n.store[BlockId(env, block) := block], Tip(n.chain.blocks);
    TipStored(env, n, now);
    StoreGrows(env, n.store, block, candidate, now);
    hide StoreOk, Confirmed, AllStored, Attaches, Replay, CumulativeWork, BranchTo, NoLaterGenesis, BestOf, BranchWork, BlockTyped;
    WorkOf(grown, block, candidate, work);
    WorkOf(grown, tip, n.chain.blocks, n.chain.work);
    BestAfterGrowth(env, n.store, block, tip, winner);
  }

  /** The invariant after a new block has been stored, with `winner` as the active chain. */
  lemma GrowthKeeps(env: Env, n: NodeValue, block: Block, candidate: seq<Block>, work: nat, winner: ChainValue, now: nat)
    requires NodeOk(env, n, now) && Attaches(env, n.store, block, candidate, now) && BlockId(env, block) !in n.store
    requires CumulativeWork(candidate) == Ok(work)
    requires Confirmed(env, winner, now)
    requires || (winner == n.chain && NoWorse(n.chain.work, BlockId(env, Tip(n.chain.blocks)), work, BlockId(env, block)))
             || (winner.blocks == candidate && NoWorse(work, BlockId(env, block), n.chain.work, BlockId(env, Tip(n.chain.blocks))))
    ensures NodeOk(env, NodeValue(n.store[BlockId(env, block) := block], winner), now)
    ensures AllStored(env, n.store[BlockId(env, block) := block], winner.blocks)
  {
    GrowthStored(env, n, block, candidate, now);
    StoreGrows(env, n.store, block, candidate, now);
    AttachedHeight(env, n.store, block, candidate, now);
    hide StoreOk, Confirmed, AllStored, Replay, CumulativeWork, BranchTo, BestOf, NoWorse, BlockTyped, Accepted, NoLaterGenesis;
    if winner == n.chain && NoWorse(n.chain.work, BlockId(env, Tip(n.chain.blocks)), work, BlockId(env, block)) {
      GrowthBest(env, n, block, candidate, work, Tip(n.chain.blocks), now);
    } else {
      GrowthBest(env, n, block, candidate, work, block, now);
    }
  }

  /** Every accepted submission keeps the invariant. */
  lemma SubmitKeeps(env: Env, n: NodeValue, block: Block, now: nat)
    requires NodeOk(env, n, now) && IdsBind(env) && BlockTyped(block)
    requires Submit(env, n, block, now).Ok?
    ensures NodeOk(env, Submit(env, n, block, now).value.0, now)
  {
    if !HasId(env, n.chain.blocks, BlockId(env, block)) {
      if block.header.previousBlock == BlockId(env, Tip(n.chain.blocks)) {
        ExtensionKeeps(env, n, block, now);
      } else {
        BranchKeeps(env, n, block, now);
      }
    }
  }

  lemma ExtensionKeeps(env: Env, n: NodeValue, block: Block, now: nat)
    requires NodeOk(env, n, now) && IdsBind(env) && BlockTyped(block)
    requires !HasId(env, n.chain.blocks, BlockId(env, block))
    requires block.header.previousBlock == BlockId(env, Tip(n.chain.blocks))
    requires Submit(env, n, block, now).Ok?
    ensures NodeOk(env, Submit(env, n, block, now).value.0, now)
  {
    assert n.chain.blocks != [];
    hide NodeOk, AppendTo, HasId, BlockTyped, IdsBind, Attaches, Confirmed, CumulativeWork, AllStored, StoreAll;
    AppendAttaches(env, n, block, now);
    var grown := AppendTo(env, n.chain, block, now).value.0;
    if BlockId(env, block) in n.store {
      StoredIsNotPreferred(env, n, block, grown.blocks, now);
      TipStored(env, n, now);
      WorkOf(n.store, block, grown.blocks, grown.work);
      assert false;
    }
    GrowthKeeps(env, n, block, grown.blocks, grown.work, grown, now);
    StoreAllKnown(env, n.store[BlockId(env, block) := block], grown.blocks);
  }

  /** `submit_block` off the tip, once the candidate has been validated. */
  lemma SideSubmission(env: Env, n: NodeValue, block: Block, now: nat)
    requires n.chain.blocks != [] && !HasId(env, n.chain.blocks, BlockId(env, block))
    requires block.header.previousBlock != BlockId(env, Tip(n.chain.blocks))
    requires Submit(env, n, block, now).Ok?
    ensures Assemble(env, n.store, n.chain.blocks, block).Ok?
    ensures var candidate := Assemble(env, n.store, n.chain.blocks, block).value;
            && FromBlocks(env, candidate, now).Ok?
            && FromBlocks(env, candidate, now).value.blocks == candidate != []
            && var validated := FromBlocks(env, candidate, now).value;
               Submit(env, n, block, now).value.0
               == if Preferred(env, validated, n.chain) then NodeValue(StoreAll(env, StoreBlock(env, n.store, block), candidate), validated)
                  else NodeValue(StoreBlock(env, n.store, block), n.chain)
  {
    hide HasId, Replay, CumulativeWork, WalkBack, StoreAll, StoreBlock, Preferred, CommonPrefix;
  }

  lemma BranchKeeps(env: Env, n: NodeValue, block: Block, now: nat)
    requires NodeOk(env, n, now) && IdsBind(env) && BlockTyped(block)
    requires !HasId(env, n.chain.blocks, BlockId(env, block))
    requires block.header.previousBlock != BlockId(env, Tip(n.chain.blocks))
    requires Submit(env, n, block, now).Ok?
    ensures NodeOk(env, Submit(env, n, block, now).value.0, now)
  {
    assert n.chain.blocks != [];
    hide NodeOk, HasId, BlockTyped, IdsBind, Attaches, Confirmed, FromBlocks, CumulativeWork, AllStored, StoreAll, Assemble, Submit,
         BranchTo, Replay;
    SideSubmission(env, n, block, now);
    var candidate := Assemble(env, n.store, n.chain.blocks, block).value;
    CandidateAttaches(env, n, block, now);
    FromBlocksKeepsBlocks(env, candidate, now);
    var validated := FromBlocks(env, candidate, now).value;
    ConfirmedNonempty(env, validated, now);
    AttachedHeight(env, n.store, block, candidate, now);
    if BlockId(env, block) in n.store {
      TipStored(env, n, now);
      StoredIsNotPreferred(env, n, block, candidate, now);
      WorkOf(n.store, block, candidate, validated.work);
      assert !Preferred(env, validated, n.chain);
    } else if Preferred(env, validated, n.chain) {
      GrowthKeeps(env, n, block, candidate, validated.work, validated, now);
      StoreAllKnown(env, n.store[BlockId(env, block) := block], candidate);
    } else {
      GrowthKeeps(env, n, block, candidate, validated.work, n.chain, now);
    }
  }

  // ------------------------------------------------------------------- runs of arrivals

  datatype Arrival = Arrival(block: Block, now: nat)

  ghost function Start(env: Env): NodeValue {
    GenesisConfirmed(env);
    NodeValue(map[BlockId(env, Genesis(env)) := Genesis(env)],
              ChainValue([Genesis(env)], EMPTY_LEDGER, BlockWork(Genesis(env)).value))
  }

  /** A refused block leaves the node as it was. */
  ghost function Arrive(env: Env, n: NodeValue, a: Arrival): NodeValue
    requires n.chain.blocks != []
  {
    match Submit(env, n, a.block, a.now)
    case Ok(outcome) => outcome.0
    case Err(_) => n
  }

  lemma SubmitNonempty(env: Env, n: NodeValue, block: Block, now: nat)
    requires n.chain.blocks != [] && Submit(env, n, block, now).Ok?
    ensures Submit(env, n, block, now).value.0.chain.blocks != []
  {
    hide HasId, Replay, CumulativeWork, WalkBack, StoreAll, StoreBlock, CommonPrefix, ValidateBlock, BlockWork;
  }

  ghost function Run(env: Env, arrivals: seq<Arrival>): (n: NodeValue)
    ensures n.chain.blocks != []
  {
    if arrivals == [] then Start(env)
    else
      var before := Run(env, arrivals[..|arrivals| - 1]);
      var last := arrivals[|arrivals| - 1];
      if Submit(env, before, last.block, last.now).Ok? then
        SubmitNonempty(env, before, last.block, last.now);
        Arrive(env, before, last)
      else Arrive(env, before, last)
  }

  /** Clocks do not run backwards, and blocks carry 32-byte hashes. */
  ghost predicate Timely(arrivals: seq<Arrival>) {
    && (forall i, j :: 0 <= i < j < |arrivals| ==> arrivals[i].now <= arrivals[j].now)
    && (forall i :: 0 <= i < |arrivals| ==> BlockTyped(arrivals[i].block))
  }

  function LastClock(arrivals: seq<Arrival>): nat {
    if arrivals == [] then 0 else arrivals[|arrivals| - 1].now
  }

  lemma StartOk(env: Env)
    requires BlockTyped(Genesis(env))
    ensures NodeOk(env, Start(env), 0)
  {
    GenesisConfirmed(env);
    GenesisFacts(env);
    hide BlockWork, Genesis, BlockTyped, Confirmed, Replay, CumulativeWork;
    var n := Start(env);
    ConfirmedNonempty(env, n.chain, 0);
    assert BranchTo(n.store, Genesis(env)) == [Genesis(env)];
  }

  /** In every state reached by any run of block arrivals the invariant holds; in particular the
      active tip is the best of all stored blocks. */
  lemma {:induction false} RunKeeps(env: Env, arrivals: seq<Arrival>)
    requires IdsBind(env) && BlockTyped(Genesis(env)) && Timely(arrivals)
    ensures NodeOk(env, Run(env, arrivals), LastClock(arrivals))
  {
    hide IdsBind, BlockTyped, NodeOk, Submit, Genesis;
    if arrivals == [] {
      StartOk(env);
    } else {
      var front, last := arrivals[..|arrivals| - 1], arrivals[|arrivals| - 1];
      RunKeeps(env, front);
      var n := Run(env, front);
      NodeLater(env, n, LastClock(front), last.now);
      if Submit(env, n, last.block, last.now).Ok? {
        SubmitKeeps(env, n, last.block, last.now);
      }
    }
  }

  /** Stores with the same ids hold the same blocks. */
  lemma SameIdsSameStore(env: Env, a: NodeValue, b: NodeValue, now: nat, later: nat)
    requires IdsBind(env) && NodeOk(env, a, now) && NodeOk(env, b, later) && a.store.Keys == b.store.Keys
    ensures a.store == b.store
  {
    hide BestOf, Confirmed, ValidBody, BlockTyped, Genesis, Replay, CumulativeWork;
    forall id | id in a.store ensures a.store[id] == b.store[id] {
      assert id in b.store;
      var x, y := a.store[id], b.store[id];
      StoredShape(env, a, id, now);
      StoredShape(env, b, id, later);
      GenesisActive(env, a, now);
      GenesisActive(env, b, later);
    }
  }

  lemma GenesisActive(env: Env, n: NodeValue, now: nat)
    requires NodeOk(env, n, now)
    ensures BlockId(env, Genesis(env)) in n.store && n.store[BlockId(env, Genesis(env))] == Genesis(env)
  {
    NodeLinked(env, n, now);
  }

  lemma StoredShape(env: Env, n: NodeValue, id: Hash, now: nat)
    requires NodeOk(env, n, now) && id in n.store
    ensures BlockId(env, n.store[id]) == id
    ensures n.store[id] == Genesis(env) || ValidBody(env, n.store[id])
  {
    hide BestOf, Confirmed, ValidBody, BlockTyped, Genesis, Replay, CumulativeWork;
    var block := n.store[id];
    assert Settled(env, n.store, block, now) && ParentStored(n.store, block) && BlockTyped(block);
    var branch := BranchTo(n.store, block);
    StartsWithGenesis(env, branch, now);
    if block.header.height > 0 {
      TipBody(env, branch, now);
    } else {
      assert branch == [block];
    }
  }

  /** Two nodes that stored the same blocks, in any orders and at any clocks, hold the same active
      chain, the same state and the same work. */
  lemma Convergence(env: Env, first: seq<Arrival>, second: seq<Arrival>)
    requires IdsBind(env) && BlockTyped(Genesis(env)) && Timely(first) && Timely(second)
    requires Run(env, first).store.Keys == Run(env, second).store.Keys
    ensures Run(env, first).chain == Run(env, second).chain
  {
    var a, b := Run(env, first), Run(env, second);
    RunKeeps(env, first);
    RunKeeps(env, second);
    hide Run, IdsBind, BlockTyped, Genesis;
    SameBestChain(env, a, b, LastClock(first), LastClock(second));
  }

  lemma SameBestChain(env: Env, a: NodeValue, b: NodeValue, now: nat, later: nat)
    requires IdsBind(env) && NodeOk(env, a, now) && NodeOk(env, b, later) && a.store.Keys == b.store.Keys
    ensures a.chain == b.chain
  {
    SameIdsSameStore(env, a, b, now, later);
    TipStored(env, a, now);
    TipStored(env, b, later);
    var s, t := Tip(a.chain.blocks), Tip(b.chain.blocks);
    assert AtLeast(env, a.store, s, t) && AtLeast(env, b.store, t, s);
    hide IdsBind, NodeOk, BranchTo, CumulativeWork, Replay;
    var clock := Max(now, later);
    ReplayLater(env, a.chain.blocks, now, clock);
    ReplayLater(env, b.chain.blocks, later, clock);
  }
}
