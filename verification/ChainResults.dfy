/** What the parts give together, stated from the runs and chains a node can actually reach. */
module ChainResults {
  import opened Base
  import opened Params
  import opened Types
  import opened State
  import opened Validation
  import opened ChainSpec
  import opened ForkChoice
  import opened Binding
  import Codec
  import Mempools
  import Snapshot
  import Sync
  import Wire

  /** With collision-free hashing, nodes that stored blocks with the same ids, in any arrival orders,
      hold the same chain. */
  lemma SameBlocksSameChain(env: Env, hash: Preimage -> Hash, first: seq<Arrival>, second: seq<Arrival>)
    requires Hashes(env, hash) && NoCollisions(hash) && BlockTyped(Genesis(env)) && Timely(first) && Timely(second)
    requires Run(env, first).store.Keys == Run(env, second).store.Keys
    ensures Run(env, first).chain == Run(env, second).chain
  {
    hide Hashes, NoCollisions, Run, BlockTyped, Timely, Genesis;
    IdsDoBind(env, hash);
    Convergence(env, first, second);
  }

  /** The first message of a sync between two nodes. */
  ghost function Opening(env: Env, a: NodeValue, b: NodeValue): Sync.Link
    requires 0 < |a.chain.blocks| <= U64_MAX
  {
    Sync.Link(Sync.Peer(a, None), Sync.Peer(b, None), Some(Wire.GetHeaders(Sync.Locator(env, a.chain.blocks), ZERO_HASH)), true)
  }

  /** Between any two nodes that runs of arrivals can produce, if one chain extends the other, the
      exchange ends after exactly the counted messages with equal chains. */
  lemma ReachableNodesSync(env: Env, hash: Preimage -> Hash, first: seq<Arrival>, second: seq<Arrival>, now: nat, clocks: seq<nat>)
    returns (last: Sync.Link)
    requires Hashes(env, hash) && NoCollisions(hash) && BlockTyped(Genesis(env)) && Timely(first) && Timely(second)
    requires LastClock(first) <= now && LastClock(second) <= now && Sync.Clocked(clocks, now)
    requires var a, b := Run(env, first).chain.blocks, Run(env, second).chain.blocks;
             && |a| <= |b| < U64_MAX && a == b[..|a|]
             && |clocks| == Sync.Messages(|b| - |a|)
    ensures Sync.Leads(env, Opening(env, Run(env, first), Run(env, second)), clocks, last)
    ensures last.message.None? && last.requester.node.chain == Run(env, second).chain == last.responder.node.chain
  {
    hide Hashes, NoCollisions, Run, BlockTyped, Timely, Genesis, IdsBind, NodeOk, Sync.Leads, Sync.Clocked;
    IdsDoBind(env, hash);
    RunKeeps(env, first);
    RunKeeps(env, second);
    NodeLater(env, Run(env, first), LastClock(first), now);
    NodeLater(env, Run(env, second), LastClock(second), now);
    last := Sync.SyncCompletes(env, Opening(env, Run(env, first), Run(env, second)), Run(env, second), now, clocks);
  }

  /** A miner's selection on any valid chain applies in sequence at the next height, while the issued
      supply is within MAX_MONEY. */
  lemma SelectionOnChain(env: Env, policy: Mempools.RelayPolicy, blocks: seq<Block>, now: nat, q: Mempools.Queue, height: u64, maximum: nat)
    requires Accepted(env, blocks, now) && Mempools.Indexed(env, q)
    requires blocks != [] && SupplyTo(Tip(blocks).header.height) <= MAX_MONEY
    ensures Mempools.EntriesOk(env, q)
    ensures var l := Replay(env, blocks, now).value;
            && Mature(l, height).Ok? && Mempools.Select(env, q, l, maximum).Ok?
            && ApplyTransactions(env, Mature(l, height).value, Mempools.Select(env, q, l, maximum).value).Ok?
  {
    hide Replay, Mature, ApplyTransactions, Mempools.Select, Mempools.Indexed, Mempools.EntriesOk, SupplyTo, Total, Normal;
    SupplyIsSchedule(env, blocks, now);
    Mempools.IndexedEntriesOk(env, q);
    Mempools.SelectionIsAccepted(env, q, Replay(env, blocks, now).value, height, maximum);
  }

  /** The ledger of a valid chain, is restored from its snapshot exactly while it
      has few enough entries for the allocation limit. */
  lemma SnapshotOfChain(env: Env, blocks: seq<Block>, now: nat)
    requires Accepted(env, blocks, now) && HashTyped(LedgerRoot(env, Replay(env, blocks, now).value))
    ensures var l := Replay(env, blocks, now).value;
            Codec.DecodeAll(Snapshot.SnapshotDecoder(env), Snapshot.EncodeSnapshot(env, l)) == Ok(l)
            <==> |l.accounts| + |l.pending| <= Snapshot.MAX_DECODABLE_ENTRIES
  {
    hide Replay, Snapshot.DecodeSnapshot, Snapshot.EncodeSnapshot, Codec.DecodeAll, LedgerRoot, Total, SupplyTo, HashTyped;
    SupplyIsSchedule(env, blocks, now);
    var l := Replay(env, blocks, now).value;
    Snapshot.SnapshotDecodesExactly(env, Snapshot.EncodeSnapshot(env, l), l);
  }
}
