/** `Chain` of src/consensus/chain.rs: incremental `append`, full replay in `from_blocks`, and the
    preference rule of `consider_chain`. */
module Chains {
  import opened Base
  import opened Params
  import opened Bytes
  import opened Difficulty
  import opened Types
  import opened State
  import opened LedgerMachine
  import opened Rewards
  import opened Validation
  import opened ChainSpec
  import opened Execution

  datatype ChainEvent =
    | Extended(block: Hash, height: nat)
    | Reorganized(oldTip: Hash, newTip: Hash, forkHeight: nat)
    | Known
    | SideChain

  predicate HasId(env: Env, blocks: seq<Block>, id: Hash) {
    exists i :: 0 <= i < |blocks| && BlockId(env, blocks[i]) == id
  }

  // -------------------------------------------------------------------- value level

  function BlockWork(block: Block): Option<nat> {
    match BitsToTarget(block.header.bits)
    case None => None
    case Some(target) =>
      DecodedIsFixed(block.header.bits, target);
      Some(TargetWork(target))
  }

  lemma BlockWorkPositive(block: Block)
    requires BlockWork(block).Some?
    ensures BlockWork(block).value >= 1
  {
    var target := BitsToTarget(block.header.bits).value;
    DecodedIsFixed(block.header.bits, target);
    hide BitsToTarget;
    TargetWorkIsQuotient(target);
  }

  lemma CumulativeWorkSnoc(blocks: seq<Block>, block: Block)
    ensures CumulativeWork(blocks + [block])
         == match CumulativeWork(blocks)
            case Err(e) => Err(e)
            case Ok(before) =>
              match BlockWork(block)
              case None => Err(InvalidTarget)
              case Some(w) => if before + w >= TWO_256 then Err(ArithmeticOverflow) else Ok(before + w)
  {
    hide BitsToTarget, TargetWork;
    var all := blocks + [block];
    assert all[..|all| - 1] == blocks && all[|all| - 1] == block;
  }

  /** `append`. */
  ghost function AppendTo(env: Env, c: ChainValue, block: Block, now: nat): Result<(ChainValue, ChainEvent), ConsensusError>
    requires c.blocks != []
  {
    if HasId(env, c.blocks, BlockId(env, block)) then Ok((c, Known))
    else if block.header.previousBlock != BlockId(env, Tip(c.blocks)) then Err(WrongParent)
    else
      var next :- ValidateBlock(env, block, c.blocks, c.state, now);
      match BlockWork(block)
      case None => Err(InvalidTarget)
      case Some(w) =>
        if c.work + w >= TWO_256 then Err(ArithmeticOverflow)
        else Ok((ChainValue(c.blocks + [block], next, c.work + w), Extended(BlockId(env, block), block.header.height)))
  }

  /** Greater work, or equal work and a lower tip id. */
  predicate Preferred(env: Env, candidate: ChainValue, current: ChainValue)
    requires candidate.blocks != [] && current.blocks != []
  {
    || candidate.work > current.work
    || (candidate.work == current.work && BlockId(env, Tip(candidate.blocks)) < BlockId(env, Tip(current.blocks)))
  }

  /** How many leading blocks two chains share. */
  function CommonPrefix(env: Env, a: seq<Block>, b: seq<Block>): (n: nat)
    ensures n <= |a| && n <= |b|
    ensures forall i :: 0 <= i < n ==> BlockId(env, a[i]) == BlockId(env, b[i])
    ensures n < |a| && n < |b| ==> BlockId(env, a[n]) != BlockId(env, b[n])
  {
    if a == [] || b == [] || BlockId(env, a[0]) != BlockId(env, b[0]) then 0
    else 1 + CommonPrefix(env, a[1..], b[1..])
  }

  /** `consider_chain`: validated in full even when it loses. */
  ghost function Consider(env: Env, c: ChainValue, candidate: seq<Block>, now: nat): Result<(ChainValue, ChainEvent), ConsensusError>
    requires c.blocks != []
  {
    if candidate == [] || candidate[0] != c.blocks[0] then Err(DifferentGenesis)
    else
      var validated :- FromBlocks(env, candidate, now);
      if !Preferred(env, validated, c) then Ok((c, SideChain))
      else Ok((validated, Reorganized(BlockId(env, Tip(c.blocks)), BlockId(env, Tip(candidate)),
                                      SatSub(CommonPrefix(env, c.blocks, candidate), 1))))
  }

  /** A chain value that replay confirms. */
  ghost predicate Confirmed(env: Env, c: ChainValue, now: nat) {
    FromBlocks(env, c.blocks, now) == Ok(c)
  }

  lemma ConfirmedNonempty(env: Env, c: ChainValue, now: nat)
    requires Confirmed(env, c, now)
    ensures c.blocks != [] && c.blocks[0] == Genesis(env)
    ensures Accepted(env, c.blocks, now) && Replay(env, c.blocks, now) == Ok(c.state) && CumulativeWork(c.blocks) == Ok(c.work)
  {
    hide Replay, CumulativeWork, Genesis;
    StartsWithGenesis(env, c.blocks, now);
  }

  lemma ConfirmedLater(env: Env, c: ChainValue, now: nat, later: nat)
    requires Confirmed(env, c, now) && now <= later
    ensures Confirmed(env, c, later)
  {
    hide Replay, CumulativeWork;
    ReplayLater(env, c.blocks, now, later);
  }

  lemma ReplaySnoc(env: Env, blocks: seq<Block>, block: Block, state: Ledger, now: nat)
    requires Replay(env, blocks, now) == Ok(state)
    ensures Replay(env, blocks + [block], now) == ValidateBlock(env, block, blocks, state, now)
  {
    hide ValidateBlock, Genesis;
    assert (blocks + [block])[..|blocks|] == blocks;
  }

  /** Growing a chain incrementally gives exactly what replaying the longer list gives, at that
      clock and at every later one. */
  lemma AppendIsReplay(env: Env, c: ChainValue, block: Block, now: nat, later: nat)
    requires c.blocks != [] && Confirmed(env, c, now) && now <= later
    requires AppendTo(env, c, block, now).Ok?
    ensures Confirmed(env, AppendTo(env, c, block, now).value.0, later)
  {
    hide ValidateBlock, CumulativeWork, BlockWork, Genesis, HasId, Replay;
    ConfirmedNonempty(env, c, now);
    var grown := AppendTo(env, c, block, now).value.0;
    if !HasId(env, c.blocks, BlockId(env, block)) {
      CumulativeWorkSnoc(c.blocks, block);
      ReplaySnoc(env, c.blocks, block, c.state, now);
    }
    ConfirmedLater(env, grown, now, later);
  }

  // ---------------------------------------------------------------------- the object

  class Chain {
    const env: Env
    var blocks: seq<Block>
    var state: LedgerState
    var work: nat
    ghost var clock: nat

    ghost function Value(): ChainValue
      reads this, state
    {
      ChainValue(blocks, state.View(), work)
    }

    /** Replay confirms the chain at the latest clock it was changed under. */
    ghost predicate Valid()
      reads this, state, state.tree
    {
      && state.Valid() && state.env == env
      && Addressable(blocks) && blocks != []
      && Confirmed(env, Value(), clock)
    }

    constructor Genesis(env: Env)
      requires KeysFit(env) && KeysInjective(env)
      ensures Valid() && this.env == env && fresh(state) && fresh(state.tree)
      ensures blocks == [Types.Genesis(env)] && state.View() == EMPTY_LEDGER && clock == 0
      ensures BlockWork(Types.Genesis(env)) == Some(work)
    {
      hide BlockWork, Types.Genesis, LedgerState.Valid, Confirmed;
      GenesisConfirmed(env);
      this.env := env;
      blocks := [Types.Genesis(env)];
      state := new LedgerState(env);
      work := BlockWork(Types.Genesis(env)).value;
      clock := 0;
      new;
      assert Addressable(blocks) by { GenesisAddressable(env); }
    }

    /** `from_blocks`: replay, then total the work. */
    static method FromBlockList(env: Env, blocks: seq<Block>, now: nat) returns (r: Result<Chain, ConsensusError>)
      requires KeysFit(env) && KeysInjective(env) && Addressable(blocks)
      ensures r.Ok? ==> fresh(r.value) && fresh(r.value.state) && fresh(r.value.state.tree) && r.value.Valid() && r.value.env == env
      ensures r.Ok? ==> r.value.clock == now && FromBlocks(env, blocks, now) == Ok(r.value.Value())
      ensures r.Err? ==> FromBlocks(env, blocks, now) == Err(r.error)
    {
      hide Replay, CumulativeWork, LedgerState.Valid, KeysFit, KeysInjective, Addressable;
      var replayed := ReplayBlocks(env, blocks, now);
      if replayed.Err? {
        return Err(replayed.error);
      }
      var total := CumulativeWork(blocks);
      if total.Err? {
        return Err(total.error);
      }
      AcceptedNonempty(env, blocks, now);
      var chain := new Chain.Build(env, blocks, replayed.value, total.value, now);
      return Ok(chain);
    }

    constructor Build(env: Env, blocks: seq<Block>, state: LedgerState, work: nat, ghost clock: nat)
      requires state.Valid() && state.env == env && Addressable(blocks) && blocks != []
      requires Confirmed(env, ChainValue(blocks, state.View(), work), clock)
      ensures Valid() && this.env == env && this.state == state && this.clock == clock
      ensures Value() == ChainValue(blocks, state.View(), work)
    {
      hide LedgerState.Valid, Confirmed;
      this.env := env;
      this.blocks := blocks;
      this.state := state;
      this.work := work;
      this.clock := clock;
    }

    constructor Clone(other: Chain)
      requires other.Valid()
      ensures Valid() && env == other.env && state == other.state && clock == other.clock && Value() == other.Value()
    {
      hide LedgerState.Valid, Confirmed;
      env := other.env;
      blocks := other.blocks;
      state := other.state;
      work := other.work;
      clock := other.clock;
    }

    method Append(block: Block, now: nat) returns (r: Result<ChainEvent, ConsensusError>)
      requires Valid() && clock <= now && |block.workshareWitness.workshares| <= U64_MAX
      modifies this
      ensures Valid() && clock == now
      ensures r.Ok? ==> AppendTo(env, old(Value()), block, now) == Ok((Value(), r.value))
      ensures r.Err? ==> AppendTo(env, old(Value()), block, now) == Err(r.error) && Value() == old(Value())
      ensures state == old(state) || (fresh(state) && fresh(state.tree))
    {
      hide ValidateBlock, Confirmed, BlockWork, HasId, LedgerState.Valid;
      ConfirmedLater(env, Value(), clock, now);
      ghost var before := Value();
      clock := now;
      if HasId(env, blocks, BlockId(env, block)) {
        return Ok(Known);
      }
      if block.header.previousBlock != BlockId(env, Tip(blocks)) {
        return Err(WrongParent);
      }
      var next := ComputeBlock(block, blocks, state, now);
      if next.Err? {
        return Err(next.error);
      }
      var added := BlockWork(block);
      if added.None? {
        return Err(InvalidTarget);
      }
      if work + added.value >= TWO_256 {
        return Err(ArithmeticOverflow);
      }
      work := work + added.value;
      state := next.value;
      blocks := blocks + [block];
      AppendIsReplay(env, before, block, now, now);
      return Ok(Extended(BlockId(env, block), block.header.height));
    }

    method ConsiderChain(candidate: seq<Block>, now: nat) returns (r: Result<ChainEvent, ConsensusError>)
      requires Valid() && clock <= now && Addressable(candidate)
      requires KeysFit(env) && KeysInjective(env)
      modifies this
      ensures Valid() && clock == now
      ensures r.Ok? ==> Consider(env, old(Value()), candidate, now) == Ok((Value(), r.value))
      ensures r.Err? ==> Consider(env, old(Value()), candidate, now) == Err(r.error) && Value() == old(Value())
      ensures state == old(state) || (fresh(state) && fresh(state.tree))
    {
      hide FromBlocks, Confirmed, LedgerState.Valid, Preferred, CommonPrefix;
      ConfirmedLater(env, Value(), clock, now);
      clock := now;
      if candidate == [] || candidate[0] != blocks[0] {
        return Err(DifferentGenesis);
      }
      var built := FromBlockList(env, candidate, now);
      if built.Err? {
        return Err(built.error);
      }
      var validated := built.value;
      FromBlocksKeepsBlocks(env, candidate, now);
      var preferred := validated.work > work || (validated.work == work && BlockId(env, Tip(candidate)) < BlockId(env, Tip(blocks)));
      PreferredIs(env, validated.Value(), Value());
      if !preferred {
        return Ok(SideChain);
      }
      var fork := SatSub(CommonPrefix(env, blocks, candidate), 1);
      var oldTip := BlockId(env, Tip(blocks));
      blocks, state, work := validated.blocks, validated.state, validated.work;
      return Ok(Reorganized(oldTip, BlockId(env, Tip(candidate)), fork));
    }
  }

  /** The loop of `from_blocks`: the state variable is replaced at each block. */
  method ReplayBlocks(env: Env, blocks: seq<Block>, now: nat) returns (r: Result<LedgerState, ConsensusError>)
    requires KeysFit(env) && KeysInjective(env) && Addressable(blocks)
    ensures r.Ok? ==> fresh(r.value) && fresh(r.value.tree) && r.value.Valid() && r.value.env == env
    ensures r.Ok? ==> Replay(env, blocks, now) == Ok(r.value.View())
    ensures r.Err? ==> Replay(env, blocks, now) == Err(r.error)
  {
    hide ValidateBlock, Genesis, LedgerState.Valid, KeysFit, KeysInjective, Replay;
    if blocks == [] || blocks[0] != Genesis(env) {
      WrongStart(env, blocks, now);
      return Err(DifferentGenesis);
    }
    var current := new LedgerState(env);
    ReplayGenesis(env, now);
    assert blocks[..1] == [Genesis(env)];
    for index := 1 to |blocks|
      invariant current.Valid() && current.env == env && fresh(current) && fresh(current.tree)
      invariant Replay(env, blocks[..index], now) == Ok(current.View())
    {
      ReplaySnoc(env, blocks[..index], blocks[index], current.View(), now);
      assert blocks[..index + 1] == blocks[..index] + [blocks[index]];
      var next := ComputeBlock(blocks[index], blocks[..index], current, now);
      if next.Err? {
        ReplayStops(env, blocks, now, index + 1);
        return Err(next.error);
      }
      current := next.value;
    }
    assert blocks[..|blocks|] == blocks;
    return Ok(current);
  }

  lemma ReplayGenesis(env: Env, now: nat)
    ensures Replay(env, [Genesis(env)], now) == Ok(EMPTY_LEDGER)
  {
  }

  lemma AcceptedNonempty(env: Env, blocks: seq<Block>, now: nat)
    requires Replay(env, blocks, now).Ok?
    ensures blocks != []
  {
  }

  lemma GenesisAddressable(env: Env)
    ensures Addressable([Genesis(env)])
  {
  }

  lemma FromBlocksKeepsBlocks(env: Env, blocks: seq<Block>, now: nat)
    requires FromBlocks(env, blocks, now).Ok?
    ensures FromBlocks(env, blocks, now).value.blocks == blocks
    ensures Confirmed(env, FromBlocks(env, blocks, now).value, now)
  {
    hide Replay, CumulativeWork;
  }

  lemma PreferredIs(env: Env, candidate: ChainValue, current: ChainValue)
    requires candidate.blocks != [] && current.blocks != []
    ensures Preferred(env, candidate, current)
       <==> candidate.work > current.work
            || (candidate.work == current.work && BlockId(env, Tip(candidate.blocks)) < BlockId(env, Tip(current.blocks)))
  {
  }

  lemma GenesisWork(env: Env)
    ensures BlockWork(Genesis(env)).Some? && BlockWork(Genesis(env)).value < TWO_256
  {
    GenesisFacts(env);
    var bits := Genesis(env).header.bits;
    var target := BitsToTarget(bits).value;
    DecodedIsFixed(bits, target);
    hide BitsToTarget, Genesis;
    TargetWorkIsQuotient(target);
  }

  lemma GenesisConfirmed(env: Env)
    ensures BlockWork(Genesis(env)).Some?
    ensures Confirmed(env, ChainValue([Genesis(env)], EMPTY_LEDGER, BlockWork(Genesis(env)).value), 0)
  {
    GenesisWork(env);
    hide BlockWork, Genesis, CumulativeWork;
    CumulativeWorkSnoc([], Genesis(env));
    NoBlocksNoWork();
    assert [] + [Genesis(env)] == [Genesis(env)];
  }

  lemma NoBlocksNoWork()
    ensures CumulativeWork([]) == Ok(0)
  {
  }

  lemma WrongStart(env: Env, blocks: seq<Block>, now: nat)
    requires blocks == [] || blocks[0] != Genesis(env)
    ensures Replay(env, blocks, now) == Err(DifferentGenesis)
    decreases |blocks|
  {
    hide ValidateBlock, Genesis;
    if |blocks| > 1 {
      WrongStart(env, blocks[..|blocks| - 1], now);
    }
  }

  lemma {:induction false} ReplayStops(env: Env, blocks: seq<Block>, now: nat, n: nat)
    requires 1 <= n <= |blocks| && Replay(env, blocks[..n], now).Err?
    ensures Replay(env, blocks, now) == Replay(env, blocks[..n], now)
    decreases |blocks| - n
  {
    hide ValidateBlock, Genesis;
    if n == |blocks| {
      assert blocks[..n] == blocks;
    } else {
      assert blocks[..n + 1][..n] == blocks[..n];
      ReplayStops(env, blocks, now, n + 1);
    }
  }
}
