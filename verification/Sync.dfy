/** Header sync between two nodes (src/node.rs): the locator, the GetHeaders/Headers/GetData/Block arms
    of `handle_wire`, and the exchange of messages they make up. When the responder's chain extends the
    requester's, the exchange ends, after a known number of messages, with equal chains. */
module Sync {
  import opened Base
  import opened Params
  import opened Difficulty
  import opened Types
  import opened State
  import opened Validation
  import opened ChainSpec
  import opened Chains
  import opened ForkChoice
  import opened Wire

  // ------------------------------------------------------------------------- locator

  /** The heights a locator names, from `height` down, with `listed` entries already pushed. */
  function LocatorFrom(height: u64, step: u64, listed: nat): (hs: seq<nat>)
    requires step >= 1
    ensures hs != [] && hs[0] == height
    decreases height
  {
    if height == 0 then [0]
    else [height] + LocatorFrom(SatSub(height, step), if listed + 1 >= 10 then SatMul64(step, 2) else step, listed + 1)
  }

  function LocatorHeights(height: u64): seq<nat> {
    LocatorFrom(height, 1, 0)
  }

  /** Strictly downwards, ending at genesis. */
  lemma {:induction false} LocatorDescends(height: u64, step: u64, listed: nat)
    requires step >= 1
    ensures var hs := LocatorFrom(height, step, listed);
            && hs[|hs| - 1] == 0
            && (forall i: nat, j: nat :: i < j < |hs| ==> hs[i] > hs[j])
            && (forall i: nat :: i < |hs| ==> hs[i] <= height)
    decreases height
  {
    if height > 0 {
      var next := if listed + 1 >= 10 then SatMul64(step, 2) else step;
      LocatorDescends(SatSub(height, step), next, listed + 1);
      var rest := LocatorFrom(SatSub(height, step), next, listed + 1);
      var hs := [height] + rest;
      forall i: nat, j: nat | i < j < |hs| ensures hs[i] > hs[j] {
        assert hs[j] == rest[j - 1] <= SatSub(height, step);
        assert i > 0 ==> hs[i] == rest[i - 1];
      }
    }
  }

  /** Once steps double, `n` more entries reach exactly the heights up to `step * (2^(n-1) - 1)`. */
  lemma {:induction false} DoublingLength(height: u64, step: u64, listed: nat, n: nat)
    requires step >= 1 && listed >= 9 && n >= 1
    ensures |LocatorFrom(height, step, listed)| <= n <==> height <= step * (Pow2(n - 1) - 1)
    decreases n
  {
    if height > 0 {
      var lower := SatSub(height, step);
      var next := SatMul64(step, 2);
      if n == 1 {
        assert step * (Pow2(0) - 1) == 0;
      } else {
        DoublingLength(lower, next, listed + 1, n - 1);
        var p := Pow2(n - 2);
        assert Pow2(n - 1) == 2 * p;
        assert step * (2 * p - 1) == (2 * step) * (p - 1) + step by { DoubleStep(step, p); }
        if p == 1 {
          assert next * (p - 1) == 0 && (2 * step) * (p - 1) == 0;
        } else if next != 2 * step {
          TimesAtLeast(next, p - 1);
          TimesAtLeast(2 * step, p - 1);
        }
      }
    } else {
      TimesNonNegative(step, Pow2(n - 1) - 1);
    }
  }

  lemma DoubleStep(step: nat, p: nat)
    ensures step * (2 * p - 1) == (2 * step) * (p - 1) + step
  {
  }

  lemma TimesAtLeast(a: nat, b: nat)
    requires b >= 1
    ensures a * b >= a
  {
  }

  lemma TimesNonNegative(a: nat, b: nat)
    ensures a * b >= 0
  {
  }

  lemma {:induction false} SingleSteps(height: u64, listed: nat, n: nat)
    requires listed <= 9 && n >= 1
    ensures |LocatorFrom(height, 1, listed)| <= n + (9 - listed) <==> height <= (9 - listed) + Pow2(n - 1) - 1
    decreases 9 - listed
  {
    if listed == 9 {
      DoublingLength(height, 1, 9, n);
    } else if height > 0 {
      SingleSteps(SatSub(height, 1), listed + 1, n);
    }
  }

  /** A locator fits the decoder's 64 entries exactly for heights up to 2^54 + 8. */
  lemma LocatorFitsIff(height: u64)
    ensures |LocatorHeights(height)| <= MAX_LOCATOR <==> height <= 0x40_0000_0000_0000 + 8
  {
    SingleSteps(height, 0, 55);
    Pow2Values();
    Pow2Add(24, 6);
    Pow2Add(24, 30);
    assert Pow2(6) == 64;
  }

  function IdsAt(env: Env, blocks: seq<Block>, hs: seq<nat>): (ids: seq<Hash>)
    requires forall i: nat :: i < |hs| ==> hs[i] < |blocks|
    ensures |ids| == |hs|
    ensures forall i: nat :: i < |ids| ==> ids[i] == BlockId(env, blocks[hs[i]])
  {
    seq(|hs|, i requires 0 <= i < |hs| => BlockId(env, blocks[hs[i]]))
  }

  /** `block_locator`. */
  function Locator(env: Env, blocks: seq<Block>): (ids: seq<Hash>)
    requires 0 < |blocks| <= U64_MAX
    ensures ids != [] && ids[0] == BlockId(env, Tip(blocks))
    ensures |ids| == |LocatorHeights(|blocks| - 1)|
  {
    LocatorDescends(|blocks| - 1, 1, 0);
    IdsAt(env, blocks, LocatorHeights(|blocks| - 1))
  }

  function NextStep(step: u64, pushed: nat): u64 {
    if pushed >= 10 then SatMul64(step, 2) else step
  }

  lemma LocatorStep(all: seq<nat>, pushed: seq<nat>, height: u64, step: u64)
    requires step >= 1 && pushed + LocatorFrom(height, step, |pushed|) == all
    ensures NextStep(step, |pushed| + 1) >= 1
    ensures height == 0 ==> pushed + [height] == all
    ensures height > 0 ==>
              (pushed + [height]) + LocatorFrom(SatSub(height, step), NextStep(step, |pushed| + 1), |pushed| + 1) == all
  {
    if height > 0 {
      var rest := LocatorFrom(SatSub(height, step), NextStep(step, |pushed| + 1), |pushed| + 1);
      assert pushed + ([height] + rest) == (pushed + [height]) + rest;
    }
  }

  lemma LocatorInRange(height: u64)
    ensures forall i: nat :: i < |LocatorHeights(height)| ==> LocatorHeights(height)[i] <= height
  {
    LocatorDescends(height, 1, 0);
  }

  method BlockLocator(env: Env, blocks: seq<Block>) returns (locator: seq<Hash>)
    requires 0 < |blocks| <= U64_MAX
    ensures locator == Locator(env, blocks)
  {
    ghost var all := LocatorHeights(|blocks| - 1);
    LocatorInRange(|blocks| - 1);
    locator := [];
    ghost var pushed: seq<nat> := [];
    var height: u64 := |blocks| - 1;
    var step: u64 := 1;
    assert pushed + LocatorFrom(height, step, 0) == all;
    hide LocatorFrom, LocatorHeights;
    while true
      invariant height < |blocks| && step >= 1 && |pushed| == |locator|
      invariant pushed + LocatorFrom(height, step, |pushed|) == all
      invariant forall i: nat :: i < |pushed| ==> pushed[i] < |blocks| && locator[i] == BlockId(env, blocks[pushed[i]])
      decreases height
    {
      LocatorStep(all, pushed, height, step);
      locator := locator + [BlockId(env, blocks[height])];
      pushed := pushed + [height];
      if height == 0 {
        break;
      }
      height := SatSub(height, step);
      if |locator| >= 10 {
        step := SatMul64(step, 2);
      }
    }
  }

  // --------------------------------------------------------------------- message arms

  /** `block_by_hash`: the active chain, then the store. */
  function KnownBlock(env: Env, n: NodeValue, id: Hash): Option<Block> {
    match FindId(env, n.chain.blocks, id)
    case Some(b) => Some(b)
    case None => if id in n.store then Some(n.store[id]) else None
  }

  /** The first locator entry on the active chain decides where headers start. */
  function StartHeight(env: Env, blocks: seq<Block>, locator: seq<Hash>): nat {
    if locator == [] then 0
    else
      match FindId(env, blocks, locator[0])
      case Some(b) => b.header.height + 1
      case None => StartHeight(env, blocks, locator[1..])
  }

  function UntilStop(env: Env, blocks: seq<Block>, stop: Hash): seq<BlockHeader> {
    if blocks == [] || (stop != ZERO_HASH && BlockId(env, blocks[0]) == stop) then []
    else [blocks[0].header] + UntilStop(env, blocks[1..], stop)
  }

  function HeadersFor(env: Env, blocks: seq<Block>, locator: seq<Hash>, stop: Hash): seq<BlockHeader> {
    var start := Min(StartHeight(env, blocks, locator), |blocks|);
    UntilStop(env, blocks[start..Min(start + MAX_HEADERS, |blocks|)], stop)
  }

  /** One received header against what is expected of it: its version, and that it links. */
  predicate HeaderFits(env: Env, n: NodeValue, h: BlockHeader, expected: Option<(Hash, nat)>) {
    && h.version == HEADER_VERSION && h.protocol == PROTOCOL_VERSION
    && match expected
       case Some((parent, height)) => h.previousBlock == parent && h.height == height
       case None =>
         match KnownBlock(env, n, h.previousBlock)
         case Some(p) => h.height == SatAdd64(p.header.height, 1)
         case None => false
  }

  /** The loop over received headers: the ids still to fetch, or nothing when one does not fit. */
  function QueueFor(env: Env, n: NodeValue, headers: seq<BlockHeader>, expected: Option<(Hash, nat)>): Option<seq<Hash>> {
    if headers == [] then Some([])
    else
      var h := headers[0];
      if !HeaderFits(env, n, h, expected) then None
      else
        var id := env.headerId(h);
        match QueueFor(env, n, headers[1..], Some((id, SatAdd64(h.height, 1))))
        case None => None
        case Some(rest) => Some((if KnownBlock(env, n, id).None? then [id] else []) + rest)
  }

  /** A node and its download queue for the other one. */
  datatype Peer = Peer(node: NodeValue, queue: Option<seq<Hash>>)

  /** `handle_wire` for the messages of header sync, on the other peer's queue. */
  ghost function Handle(env: Env, p: Peer, m: WireMessage, now: nat): (Peer, Option<WireMessage>)
    requires 0 < |p.node.chain.blocks| < U64_MAX
  {
    var n := p.node;
    match m
    case GetHeaders(locator, stop) => (p, Some(Headers(HeadersFor(env, n.chain.blocks, locator, stop))))
    case GetData(kind, id) =>
      if kind != BlockKind then (p, None)
      else (match KnownBlock(env, n, id) case Some(b) => (p, Some(BlockMessage(b))) case None => (p, None))
    case Headers(headers) =>
      if headers == [] || |headers| > MAX_HEADERS then (p.(queue := None), None)
      else
        (match QueueFor(env, n, headers, None)
         case None => (p.(queue := None), None)
         case Some(queue) => if queue == [] then (p, None) else (p.(queue := Some(queue)), Some(GetData(BlockKind, queue[0]))))
    case BlockMessage(block) => ReceiveBlock(env, p, block, now)
    case Ping(nonce) => (p, Some(Pong(nonce)))
    case _ => (p, None)
  }

  /** The Block arm. */
  ghost function ReceiveBlock(env: Env, p: Peer, block: Block, now: nat): (Peer, Option<WireMessage>)
    requires 0 < |p.node.chain.blocks| < U64_MAX
  {
    var submitted := Submit(env, p.node, block, now);
    if submitted.Err? then (p.(queue := None), None)
    else
      var next := submitted.value.0;
      if p.queue.None? then (Peer(next, None), None)
      else if p.queue.value == [] || p.queue.value[0] != BlockId(env, block) then (Peer(next, None), None)
      else
        var rest := p.queue.value[1..];
        if rest != [] then (Peer(next, Some(rest)), Some(GetData(BlockKind, rest[0])))
        else if 0 < |next.chain.blocks| <= U64_MAX then (Peer(next, None), Some(GetHeaders(Locator(env, next.chain.blocks), ZERO_HASH)))
        else (Peer(next, None), None)
  }

  /** A request for headers is within the decoder's limits exactly for heights up to 2^54 + 8. */
  lemma RequestFitsIff(env: Env, blocks: seq<Block>)
    requires 0 < |blocks| <= U64_MAX && forall b :: b in blocks ==> HashTyped(BlockId(env, b))
    ensures MessageOk(_ => true, GetHeaders(Locator(env, blocks), ZERO_HASH)) <==> |blocks| - 1 <= 0x40_0000_0000_0000 + 8
  {
    LocatorInRange(|blocks| - 1);
    hide LocatorFrom, LocatorHeights;
    LocatorFitsIff(|blocks| - 1);
    var ids, hs := Locator(env, blocks), LocatorHeights(|blocks| - 1);
    forall id | id in ids ensures HashTyped(id) {
      var i: nat :| i < |ids| && ids[i] == id;
      assert blocks[hs[i]] in blocks;
    }
  }

  // ------------------------------------------------------------------- the exchange

  /** Two nodes with at most one message between them. */
  datatype Link = Link(requester: Peer, responder: Peer, message: Option<WireMessage>, toResponder: bool)

  ghost predicate Addressed(link: Link) {
    && 0 < |link.requester.node.chain.blocks| < U64_MAX
    && 0 < |link.responder.node.chain.blocks| < U64_MAX
  }

  ghost function Deliver(env: Env, link: Link, now: nat): Link
    requires Addressed(link)
  {
    match link.message
    case None => link
    case Some(m) =>
      if link.toResponder then
        var (p, reply) := Handle(env, link.responder, m, now);
        Link(link.requester, p, reply, false)
      else
        var (p, reply) := Handle(env, link.requester, m, now);
        Link(p, link.responder, reply, true)
  }

  /** Delivering one message after another, at the given clocks, leads from one link to another. */
  ghost predicate Leads(env: Env, from: Link, clocks: seq<nat>, to: Link)
    decreases |clocks|
  {
    if clocks == [] then to == from
    else Addressed(from) && Leads(env, Deliver(env, from, clocks[0]), clocks[1..], to)
  }

  lemma {:induction false} LeadsOn(env: Env, a: Link, s: seq<nat>, b: Link, t: seq<nat>, c: Link)
    requires Leads(env, a, s, b) && Leads(env, b, t, c)
    ensures Leads(env, a, s + t, c)
    decreases |s|
  {
    hide Deliver, Addressed;
    if s == [] {
      assert s + t == t;
    } else {
      assert (s + t)[1..] == s[1..] + t;
      LeadsOn(env, Deliver(env, a, s[0]), s[1..], b, t, c);
    }
  }

  // -------------------------------------------------------------- what the chains give

  /** The responder holds `target`, which begins with the requester's chain, and would still be
      accepted by the requester's clock. */
  ghost predicate Extends(env: Env, n: NodeValue, r: NodeValue, now: nat) {
    && NodeOk(env, n, now) && NodeOk(env, r, now)
    && |n.chain.blocks| <= |r.chain.blocks| < U64_MAX
    && n.chain.blocks == r.chain.blocks[..|n.chain.blocks|]
  }

  lemma TargetFacts(env: Env, r: NodeValue, now: nat)
    requires NodeOk(env, r, now)
    ensures var t := r.chain.blocks;
            && Linked(env, t) && Accepted(env, t, now) && NoLaterGenesis(t) && CumulativeWork(t).Ok?
            && (forall i: nat :: i < |t| ==> BlockTyped(t[i]))
            && (forall i: nat, j: nat :: i < j < |t| ==> BlockId(env, t[i]) != BlockId(env, t[j]))
  {
    NodeLinked(env, r, now);
    ConfirmedNonempty(env, r.chain, now);
    hide Settled, ParentStored, BestOf, Confirmed, CumulativeWork, BitsToTarget, Replay, BlockTyped;
    var t := r.chain.blocks;
    forall i: nat | i < |t| ensures BlockTyped(t[i]) {
      assert r.store[BlockId(env, t[i])] == t[i];
    }
    forall i: nat, j: nat | i < j < |t| ensures BlockId(env, t[i]) != BlockId(env, t[j]) {
      assert r.store[BlockId(env, t[i])] == t[i] && r.store[BlockId(env, t[j])] == t[j];
      assert t[i].header.height != t[j].header.height;
    }
  }

  lemma {:induction false} FindAt(env: Env, blocks: seq<Block>, i: nat)
    requires i < |blocks| && forall j: nat, k: nat :: j < k < |blocks| ==> BlockId(env, blocks[j]) != BlockId(env, blocks[k])
    ensures FindId(env, blocks, BlockId(env, blocks[i])) == Some(blocks[i])
  {
    if i > 0 {
      var rest := blocks[1..];
      assert rest[i - 1] == blocks[i];
      assert BlockId(env, blocks[0]) != BlockId(env, blocks[i]);
      forall j: nat, k: nat | j < k < |rest| ensures BlockId(env, rest[j]) != BlockId(env, rest[k]) {
        assert rest[j] == blocks[j + 1] && rest[k] == blocks[k + 1];
      }
      FindAt(env, rest, i - 1);
    }
  }

  lemma {:induction false} WorkOfPrefixes(blocks: seq<Block>, i: nat)
    requires CumulativeWork(blocks).Ok? && i <= |blocks|
    ensures CumulativeWork(blocks[..i]).Ok?
    ensures CumulativeWork(blocks[..i]).value <= CumulativeWork(blocks).value
    ensures i < |blocks| ==> CumulativeWork(blocks[..i]).value < CumulativeWork(blocks).value
    decreases |blocks|
  {
    if i == |blocks| {
      assert blocks[..i] == blocks;
    } else {
      var front, last := blocks[..|blocks| - 1], blocks[|blocks| - 1];
      assert blocks == front + [last];
      CumulativeWorkSnoc(front, last);
      hide CumulativeWork, BlockWork;
      BlockWorkPositive(last);
      WorkOfPrefixes(front, i);
      assert front[..i] == blocks[..i];
    }
  }

  /** A stored block of the responder's chain has that chain as its branch. */
  lemma {:induction false} StoredAhead(env: Env, n: NodeValue, r: NodeValue, j: nat, now: nat)
    requires Extends(env, n, r, now) && IdsBind(env) && |n.chain.blocks| - 1 <= j < |r.chain.blocks|
    requires BlockId(env, r.chain.blocks[j]) in n.store
    ensures n.store[BlockId(env, r.chain.blocks[j])] == r.chain.blocks[j]
    ensures BranchTo(n.store, r.chain.blocks[j]) == r.chain.blocks[..j + 1]
    decreases j
  {
    hide NodeOk, IdsBind, Linked, Replay, CumulativeWork, BranchTo, BlockTyped, HasId;
    var t := r.chain.blocks;
    if j == |n.chain.blocks| - 1 {
      TipStored(env, n, now);
    } else {
      AheadIsStored(env, n, r, j, now);
      StoredAhead(env, n, r, j - 1, now);
      assert t[..j + 1] == t[..j] + [t[j]];
    }
  }

  lemma {:induction false} FindNone(env: Env, blocks: seq<Block>, id: Hash)
    requires forall i: nat :: i < |blocks| ==> BlockId(env, blocks[i]) != id
    ensures !HasId(env, blocks, id) && FindId(env, blocks, id) == None
  {
    if blocks != [] {
      var rest := blocks[1..];
      assert BlockId(env, blocks[0]) != id;
      forall i: nat | i < |rest| ensures BlockId(env, rest[i]) != id {
        assert rest[i] == blocks[i + 1];
      }
      FindNone(env, rest, id);
    }
  }

  lemma PrefixBlock(env: Env, n: NodeValue, r: NodeValue, i: nat, now: nat)
    requires Extends(env, n, r, now) && i < |n.chain.blocks|
    ensures n.chain.blocks[i] == r.chain.blocks[i]
  {
    hide NodeOk;
  }

  lemma AheadIsNew(env: Env, n: NodeValue, r: NodeValue, j: nat, now: nat)
    requires Extends(env, n, r, now) && |n.chain.blocks| <= j < |r.chain.blocks|
    ensures !HasId(env, n.chain.blocks, BlockId(env, r.chain.blocks[j]))
    ensures FindId(env, n.chain.blocks, BlockId(env, r.chain.blocks[j])) == None
  {
    hide NodeOk, Linked, Replay, CumulativeWork, BlockTyped, FindId, HasId, Accepted, NoLaterGenesis;
    TargetFacts(env, r, now);
    hide Extends;
    forall i: nat | i < |n.chain.blocks| ensures BlockId(env, n.chain.blocks[i]) != BlockId(env, r.chain.blocks[j]) {
      PrefixBlock(env, n, r, i, now);
    }
    FindNone(env, n.chain.blocks, BlockId(env, r.chain.blocks[j]));
  }

  lemma ReachesBody(env: Env, r: NodeValue, j: nat, now: nat)
    requires NodeOk(env, r, now) && 0 < j < |r.chain.blocks|
    ensures ValidBody(env, r.chain.blocks[j])
    ensures r.chain.blocks[j].header.height == j && r.chain.blocks[j].header.previousBlock == BlockId(env, r.chain.blocks[j - 1])
  {
    hide NodeOk, Replay, CumulativeWork, BlockTyped, ValidBody, BitsToTarget;
    TargetFacts(env, r, now);
    var t := r.chain.blocks;
    assert t[j].header.height == j;
    hide Linked;
    PrefixAccepted(env, t, now, j + 1);
    assert Tip(t[..j + 1]) == t[j];
    TipBody(env, t[..j + 1], now);
  }

  lemma AheadIsStored(env: Env, n: NodeValue, r: NodeValue, j: nat, now: nat)
    requires Extends(env, n, r, now) && IdsBind(env) && |n.chain.blocks| <= j < |r.chain.blocks|
    requires BlockId(env, r.chain.blocks[j]) in n.store
    ensures j > 0 && n.store[BlockId(env, r.chain.blocks[j])] == r.chain.blocks[j]
    ensures BlockId(env, r.chain.blocks[j - 1]) in n.store
    ensures BranchTo(n.store, r.chain.blocks[j]) == BranchTo(n.store, n.store[BlockId(env, r.chain.blocks[j - 1])]) + [r.chain.blocks[j]]
  {
    hide NodeOk, IdsBind, HasId, ValidBody, BranchTo, FindId;
    var b := r.chain.blocks[j];
    NonEmptyNode(env, n, now);
    AheadIsNew(env, n, r, j, now);
    ReachesBody(env, r, j, now);
    hide Extends;
    StoredBody(env, n, BlockId(env, b), b, now);
    NodeStoreOk(env, n, now);
    StoredBranch(env, n.store, b, now);
  }

  lemma NodeStoreOk(env: Env, n: NodeValue, now: nat)
    requires NodeOk(env, n, now)
    ensures StoreOk(env, n.store, now) && BestOf(env, n.store, Tip(n.chain.blocks))
  {
    hide StoreOk, Confirmed, NoLaterGenesis, AllStored, BestOf;
  }

  lemma NonEmptyNode(env: Env, n: NodeValue, now: nat)
    requires NodeOk(env, n, now)
    ensures |n.chain.blocks| > 0
  {
    hide StoreOk, Confirmed, NoLaterGenesis, AllStored, BestOf;
  }

  /** The responder's longer chain has more work than the requester's. */
  lemma AheadHasMoreWork(env: Env, n: NodeValue, r: NodeValue, j: nat, now: nat)
    requires Extends(env, n, r, now) && |n.chain.blocks| <= j < |r.chain.blocks|
    ensures CumulativeWork(r.chain.blocks[..j + 1]).Ok? && n.chain.work < CumulativeWork(r.chain.blocks[..j + 1]).value
  {
    hide NodeOk, Replay, CumulativeWork, BlockTyped, Linked, Accepted, NoLaterGenesis, BranchTo, BranchWork;
    TargetFacts(env, r, now);
    TipStored(env, n, now);
    var t := r.chain.blocks;
    WorkOfPrefixes(t, j + 1);
    assert t[..j + 1][..|n.chain.blocks|] == n.chain.blocks;
    hide Extends;
    WorkOfPrefixes(t[..j + 1], |n.chain.blocks|);
  }

  /** The responder's further blocks would beat the requester's tip, so none of them is stored. */
  lemma AheadIsUnknown(env: Env, n: NodeValue, r: NodeValue, j: nat, now: nat)
    requires Extends(env, n, r, now) && IdsBind(env) && |n.chain.blocks| <= j < |r.chain.blocks|
    ensures KnownBlock(env, n, BlockId(env, r.chain.blocks[j])) == None
  {
    AheadIsNew(env, n, r, j, now);
    AheadNotStored(env, n, r, j, now);
    hide NodeOk, IdsBind, HasId, FindId;
  }

  lemma AheadNotStored(env: Env, n: NodeValue, r: NodeValue, j: nat, now: nat)
    requires Extends(env, n, r, now) && IdsBind(env) && |n.chain.blocks| <= j < |r.chain.blocks|
    ensures BlockId(env, r.chain.blocks[j]) !in n.store
  {
    hide NodeOk, IdsBind, CumulativeWork, Replay, BranchTo, BestOf, StoreOk;
    AheadHasMoreWork(env, n, r, j, now);
    TipStored(env, n, now);
    NodeStoreOk(env, n, now);
    if BlockId(env, r.chain.blocks[j]) in n.store {
      StoredAhead(env, n, r, j, now);
      hide Extends;
      BestBeats(env, n.store, Tip(n.chain.blocks), BlockId(env, r.chain.blocks[j]));
    }
  }

  lemma BestBeats(env: Env, store: Store, tip: Block, id: Hash)
    requires BestOf(env, store, tip) && id in store
    ensures BranchWork(store, store[id]) <= BranchWork(store, tip)
  {
    hide BranchWork;
    assert AtLeast(env, store, tip, store[id]);
  }

  // ----------------------------------------------------------------- states of a sync

  /** The requester has just asked for headers after its tip. */
  ghost predicate Asking(env: Env, link: Link, r: NodeValue, now: nat) {
    var n := link.requester.node;
    && link.responder.node == r && Extends(env, n, r, now) && n.chain.blocks != []
    && link.requester.queue.None? && link.toResponder
    && link.message == Some(GetHeaders(Locator(env, n.chain.blocks), ZERO_HASH))
  }

  ghost function IdsOf(env: Env, blocks: seq<Block>): (ids: seq<Hash>)
    ensures |ids| == |blocks|
    ensures forall i :: 0 <= i < |ids| ==> ids[i] == BlockId(env, blocks[i])
  {
    seq(|blocks|, i requires 0 <= i < |blocks| => BlockId(env, blocks[i]))
  }

  /** The requester is fetching the responder's blocks up to `end`, in order. */
  ghost predicate Fetching(env: Env, link: Link, r: NodeValue, end: nat, now: nat) {
    var n := link.requester.node;
    && link.responder.node == r && Extends(env, n, r, now) && n.chain.blocks != []
    && |n.chain.blocks| < end <= |r.chain.blocks|
    && link.requester.queue == Some(IdsOf(env, r.chain.blocks[|n.chain.blocks|..end]))
    && link.toResponder
    && link.message == Some(GetData(BlockKind, BlockId(env, r.chain.blocks[|n.chain.blocks|])))
  }

  lemma AllUntil(env: Env, blocks: seq<Block>)
    ensures |UntilStop(env, blocks, ZERO_HASH)| == |blocks|
    ensures forall i :: 0 <= i < |blocks| ==> UntilStop(env, blocks, ZERO_HASH)[i] == blocks[i].header
  {
    if blocks != [] {
      AllUntil(env, blocks[1..]);
    }
  }

  /** Asked with the requester's locator, the responder answers with the headers after its tip. */
  lemma HeadersAnswer(env: Env, n: NodeValue, r: NodeValue, now: nat)
    requires Extends(env, n, r, now) && n.chain.blocks != []
    ensures var k, end := |n.chain.blocks|, Min(|n.chain.blocks| + MAX_HEADERS, |r.chain.blocks|);
            && k <= end
            && HeadersFor(env, r.chain.blocks, Locator(env, n.chain.blocks), ZERO_HASH)
               == UntilStop(env, r.chain.blocks[k..end], ZERO_HASH)
  {
    hide NodeOk, UntilStop, FindId, Locator;
    TipServed(env, n, r, now);
    hide Extends;
    var locator := Locator(env, n.chain.blocks);
    assert StartHeight(env, r.chain.blocks, locator) == |n.chain.blocks|;
  }

  lemma TipServed(env: Env, n: NodeValue, r: NodeValue, now: nat)
    requires Extends(env, n, r, now) && n.chain.blocks != []
    ensures FindId(env, r.chain.blocks, BlockId(env, Tip(n.chain.blocks))) == Some(Tip(n.chain.blocks))
    ensures Tip(n.chain.blocks).header.height == |n.chain.blocks| - 1
    ensures |n.chain.blocks| <= |r.chain.blocks| < U64_MAX
  {
    hide NodeOk, Replay, CumulativeWork, BlockTyped, BitsToTarget, FindId, Accepted, NoLaterGenesis;
    TargetFacts(env, r, now);
    var k := |n.chain.blocks|;
    assert n.chain.blocks[k - 1] == r.chain.blocks[k - 1];
    assert r.chain.blocks[k - 1].header.height == k - 1;
    hide Linked, Extends;
    FindAt(env, r.chain.blocks, k - 1);
  }

  /** Every received header fits, and every id is still to fetch. */
  lemma {:induction false} QueueIsAll(env: Env, n: NodeValue, r: NodeValue, from: nat, end: nat, headers: seq<BlockHeader>,
                                      expected: Option<(Hash, nat)>, now: nat)
    requires Extends(env, n, r, now) && IdsBind(env) && n.chain.blocks != []
    requires |n.chain.blocks| <= from <= end <= |r.chain.blocks|
    requires |headers| == end - from && forall i: nat :: i < |headers| ==> headers[i] == r.chain.blocks[from + i].header
    requires if from == |n.chain.blocks| then expected == None else expected == Some((BlockId(env, r.chain.blocks[from - 1]), from))
    ensures QueueFor(env, n, headers, expected) == Some(IdsOf(env, r.chain.blocks[from..end]))
    decreases end - from
  {
    hide NodeOk, IdsBind, Extends, KnownBlock, HeaderFits;
    if from < end {
      HeaderDoesFit(env, n, r, from, expected, now);
      AheadIsUnknown(env, n, r, from, now);
      HeightAt(env, n, r, from, now);
      var b := r.chain.blocks[from];
      QueueIsAll(env, n, r, from + 1, end, headers[1..], Some((BlockId(env, b), from + 1)), now);
      assert IdsOf(env, r.chain.blocks[from..end]) == [BlockId(env, b)] + IdsOf(env, r.chain.blocks[from + 1..end]);
    } else {
      assert IdsOf(env, r.chain.blocks[from..end]) == [];
    }
  }

  lemma HeightAt(env: Env, n: NodeValue, r: NodeValue, j: nat, now: nat)
    requires Extends(env, n, r, now) && 0 < j < |r.chain.blocks|
    ensures r.chain.blocks[j].header.height == j && SatAdd64(j, 1) == j + 1
    ensures r.chain.blocks[j].header.previousBlock == BlockId(env, r.chain.blocks[j - 1])
  {
    hide NodeOk, Accepted, NoLaterGenesis, CumulativeWork, BitsToTarget, BlockTyped;
    TargetFacts(env, r, now);
  }

  lemma HeaderDoesFit(env: Env, n: NodeValue, r: NodeValue, j: nat, expected: Option<(Hash, nat)>, now: nat)
    requires Extends(env, n, r, now) && n.chain.blocks != [] && |n.chain.blocks| <= j < |r.chain.blocks|
    requires if j == |n.chain.blocks| then expected == None else expected == Some((BlockId(env, r.chain.blocks[j - 1]), j))
    ensures HeaderFits(env, n, r.chain.blocks[j].header, expected)
  {
    HeightAt(env, n, r, j, now);
    VersionsAt(env, r, j, now);
    var t := r.chain.blocks;
    if j == |n.chain.blocks| {
      TipFound(env, n, now);
      assert Tip(n.chain.blocks) == t[j - 1];
      if j - 1 > 0 {
        HeightAt(env, n, r, j - 1, now);
      } else {
        TargetFacts(env, r, now);
      }
    }
  }

  lemma TipFound(env: Env, n: NodeValue, now: nat)
    requires NodeOk(env, n, now) && n.chain.blocks != []
    ensures KnownBlock(env, n, BlockId(env, Tip(n.chain.blocks))) == Some(Tip(n.chain.blocks))
  {
    TargetFacts(env, n, now);
    hide NodeOk, Linked;
    FindAt(env, n.chain.blocks, |n.chain.blocks| - 1);
  }

  lemma VersionsAt(env: Env, r: NodeValue, j: nat, now: nat)
    requires NodeOk(env, r, now) && 0 < j < |r.chain.blocks|
    ensures r.chain.blocks[j].header.version == HEADER_VERSION && r.chain.blocks[j].header.protocol == PROTOCOL_VERSION
  {
    hide NodeOk, ValidateBlock, Replay, CumulativeWork, BlockTyped, HeaderContext, BitsToTarget;
    TargetFacts(env, r, now);
    var t := r.chain.blocks;
    assert t[j].header.height != 0;
    hide Linked, NoLaterGenesis;
    NextValidates(env, t, j, now);
    ValidBlockFacts(env, t[j], t[..j], Replay(env, t[..j], now).value, now);
    ContextVersions(env, t[j].header, t[..j], now);
  }

  lemma ContextVersions(env: Env, header: BlockHeader, history: seq<Block>, now: nat)
    requires history != [] && HeaderContext(env, header, history, now).Ok?
    ensures header.version == HEADER_VERSION && header.protocol == PROTOCOL_VERSION
  {
    hide NextBits, BitsToTarget, MedianTimePast;
  }

  // -------------------------------------------------------------------- steps of a sync

  lemma ExtendsLater(env: Env, n: NodeValue, r: NodeValue, now: nat, later: nat)
    requires Extends(env, n, r, now) && now <= later
    ensures Extends(env, n, r, later)
  {
    hide NodeOk;
    NodeLater(env, n, now, later);
    NodeLater(env, r, now, later);
  }

  lemma LinkAddressed(env: Env, link: Link, r: NodeValue, now: nat)
    requires link.responder.node == r && Extends(env, link.requester.node, r, now) && link.requester.node.chain.blocks != []
    ensures Addressed(link)
  {
    hide NodeOk;
  }

  lemma TwoDeliveries(env: Env, link: Link, first: nat, second: nat)
    requires Addressed(link) && Addressed(Deliver(env, link, first))
    ensures Leads(env, link, [first, second], Deliver(env, Deliver(env, link, first), second))
  {
    hide Deliver, Addressed;
    var middle := Deliver(env, link, first);
    var end := Deliver(env, middle, second);
    assert Leads(env, end, [], end);
    assert [second][1..] == [];
    assert Leads(env, middle, [second], end);
    assert [first, second][1..] == [second];
  }

  /** The responder's side of a header request. */
  lemma AskDelivered(env: Env, link: Link, r: NodeValue, now: nat, first: nat)
    requires Asking(env, link, r, now)
    ensures var n := link.requester.node;
            var k, end := |n.chain.blocks|, Min(|n.chain.blocks| + MAX_HEADERS, |r.chain.blocks|);
            && 0 < k <= end
            && Addressed(link)
            && Deliver(env, link, first)
               == Link(link.requester, link.responder, Some(Headers(UntilStop(env, r.chain.blocks[k..end], ZERO_HASH))), false)
            && Addressed(Deliver(env, link, first))
  {
    hide NodeOk, Locator, HeadersFor, UntilStop, QueueFor;
    var n := link.requester.node;
    HeadersAnswer(env, n, r, now);
    LinkAddressed(env, link, r, now);
    hide Extends;
  }

  /** With nothing left to learn, two messages end the exchange. */
  lemma AskingEnds(env: Env, link: Link, r: NodeValue, now: nat, first: nat, second: nat) returns (end: Link)
    requires Asking(env, link, r, now) && |link.requester.node.chain.blocks| == |r.chain.blocks|
    ensures Leads(env, link, [first, second], end)
    ensures end.message.None? && end.requester == link.requester && end.responder == link.responder
  {
    hide NodeOk, Locator, Extends;
    AskDelivered(env, link, r, now, first);
    TwoDeliveries(env, link, first, second);
    hide Leads;
    assert link.requester.queue.None?;
    hide Asking;
    end := Deliver(env, Deliver(env, link, first), second);
    assert Deliver(env, link, first).message == Some(Headers([]));
  }

  /** Otherwise two messages put the next headers in the queue. */
  lemma AskingQueues(env: Env, link: Link, r: NodeValue, now: nat, first: nat, second: nat) returns (next: Link)
    requires Asking(env, link, r, now) && IdsBind(env) && |link.requester.node.chain.blocks| < |r.chain.blocks|
    ensures Leads(env, link, [first, second], next)
    ensures Fetching(env, next, r, Min(|link.requester.node.chain.blocks| + MAX_HEADERS, |r.chain.blocks|), now)
    ensures next.requester.node == link.requester.node && next.responder == link.responder
  {
    hide NodeOk, Locator, UntilStop, IdsBind, Extends;
    AskDelivered(env, link, r, now, first);
    TwoDeliveries(env, link, first, second);
    QueueFilled(env, link.requester.node, r, |link.requester.node.chain.blocks|,
                Min(|link.requester.node.chain.blocks| + MAX_HEADERS, |r.chain.blocks|), now);
    hide Leads, QueueFor;
    next := Deliver(env, Deliver(env, link, first), second);
  }

  lemma QueueFilled(env: Env, n: NodeValue, r: NodeValue, k: nat, end: nat, now: nat)
    requires k == |n.chain.blocks| && k < end <= |r.chain.blocks| && end <= k + MAX_HEADERS
    requires Extends(env, n, r, now) && IdsBind(env) && n.chain.blocks != []
    ensures var headers := UntilStop(env, r.chain.blocks[k..end], ZERO_HASH);
            && 0 < |headers| <= MAX_HEADERS
            && QueueFor(env, n, headers, None) == Some(IdsOf(env, r.chain.blocks[k..end]))
  {
    hide NodeOk, IdsBind, QueueFor, Extends, UntilStop;
    AllUntil(env, r.chain.blocks[k..end]);
    QueueIsAll(env, n, r, k, end, UntilStop(env, r.chain.blocks[k..end], ZERO_HASH), None, now);
  }

  /** The next block of the responder's chain extends the requester's. */
  lemma NextExtends(env: Env, n: NodeValue, r: NodeValue, now: nat)
    requires Extends(env, n, r, now) && IdsBind(env) && n.chain.blocks != [] && |n.chain.blocks| < |r.chain.blocks|
    ensures var block := r.chain.blocks[|n.chain.blocks|];
            var s := Submit(env, n, block, now);
            && s.Ok? && Extends(env, s.value.0, r, now)
            && s.value.0.chain.blocks == r.chain.blocks[..|n.chain.blocks| + 1]
  {
    var k := |n.chain.blocks|;
    var t := r.chain.blocks;
    var block := t[k];
    NextAppends(env, n, r, now);
    AheadIsNew(env, n, r, k, now);
    TargetFacts(env, r, now);
    hide NodeOk, IdsBind, AppendTo, HasId, Linked, Replay, CumulativeWork, BlockTyped, StoreAll, StoreBlock, BlockWork, FindId;
    SubmitKeeps(env, n, block, now);
  }

  lemma NextAppends(env: Env, n: NodeValue, r: NodeValue, now: nat)
    requires Extends(env, n, r, now) && n.chain.blocks != [] && |n.chain.blocks| < |r.chain.blocks|
    ensures var block := r.chain.blocks[|n.chain.blocks|];
            && block.header.previousBlock == BlockId(env, Tip(n.chain.blocks))
            && AppendTo(env, n.chain, block, now).Ok?
            && AppendTo(env, n.chain, block, now).value.0.blocks == r.chain.blocks[..|n.chain.blocks| + 1]
            && AppendTo(env, n.chain, block, now).value.1.Extended?
  {
    hide NodeOk, Linked, BlockTyped, HasId, FindId, BranchTo, BranchWork, CumulativeWork, BlockWork, ValidateBlock, Replay;
    var k := |n.chain.blocks|;
    var block := r.chain.blocks[k];
    AheadIsNew(env, n, r, k, now);
    HeightAt(env, n, r, k, now);
    PrefixBlock(env, n, r, k - 1, now);
    TargetFacts(env, r, now);
    TipStored(env, n, now);
    assert r.chain.blocks[..k + 1] == n.chain.blocks + [block];
    WorkOfPrefixes(r.chain.blocks, k + 1);
    CumulativeWorkSnoc(n.chain.blocks, block);
    hide Extends;
    NextValidates(env, r.chain.blocks, k, now);
  }

  lemma NextValidates(env: Env, t: seq<Block>, k: nat, now: nat)
    requires Accepted(env, t, now) && 0 < k < |t|
    ensures Accepted(env, t[..k], now)
    ensures ValidateBlock(env, t[k], t[..k], Replay(env, t[..k], now).value, now).Ok?
  {
    PrefixAccepted(env, t, now, k + 1);
    var prefix := t[..k + 1];
    assert prefix[..k] == t[..k] && Tip(prefix) == t[k];
    hide ValidateBlock, Replay;
    ReplayPrefix(env, prefix, now);
  }

  /** Asking the responder for the next block. */
  lemma FetchDelivered(env: Env, link: Link, r: NodeValue, end: nat, now: nat, first: nat)
    requires Fetching(env, link, r, end, now)
    ensures var k := |link.requester.node.chain.blocks|;
            && 0 < k < end <= |r.chain.blocks|
            && Addressed(link)
            && Deliver(env, link, first) == Link(link.requester, link.responder, Some(BlockMessage(r.chain.blocks[k])), false)
            && Addressed(Deliver(env, link, first))
  {
    hide NodeOk, KnownBlock;
    BlockServed(env, link.requester.node, r, |link.requester.node.chain.blocks|, now);
    LinkAddressed(env, link, r, now);
    hide Extends;
  }

  /** What a requester does with the block it asked for. */
  lemma ReceiveNext(env: Env, p: Peer, r: NodeValue, end: nat, now: nat)
    requires Extends(env, p.node, r, now) && IdsBind(env) && 0 < |p.node.chain.blocks| < end <= |r.chain.blocks|
    requires p.queue == Some(IdsOf(env, r.chain.blocks[|p.node.chain.blocks|..end]))
    ensures 0 < |p.node.chain.blocks| < U64_MAX
    ensures var k := |p.node.chain.blocks|;
            var (q, reply) := ReceiveBlock(env, p, r.chain.blocks[k], now);
            && |q.node.chain.blocks| == k + 1 && Extends(env, q.node, r, now)
            && (if k + 1 < end then
                  && q.queue == Some(IdsOf(env, r.chain.blocks[k + 1..end]))
                  && reply == Some(GetData(BlockKind, BlockId(env, r.chain.blocks[k + 1])))
                else
                  && q.queue.None? && k + 1 < U64_MAX && reply == Some(GetHeaders(Locator(env, q.node.chain.blocks), ZERO_HASH)))
  {
    hide NodeOk, IdsBind, Submit, Locator;
    var k := |p.node.chain.blocks|;
    NextExtends(env, p.node, r, now);
    assert k + 1 < U64_MAX || k + 1 == |r.chain.blocks|;
    assert |r.chain.blocks| < U64_MAX;
    hide Extends;
    var queue := IdsOf(env, r.chain.blocks[k..end]);
    assert queue[0] == BlockId(env, r.chain.blocks[k]);
    assert queue[1..] == IdsOf(env, r.chain.blocks[k + 1..end]);
  }

  lemma FetchStep(env: Env, link: Link, r: NodeValue, end: nat, now: nat, first: nat, second: nat) returns (next: Link)
    requires Fetching(env, link, r, end, now) && IdsBind(env) && now <= second
    ensures Leads(env, link, [first, second], next)
    ensures |next.requester.node.chain.blocks| == |link.requester.node.chain.blocks| + 1
    ensures if |link.requester.node.chain.blocks| + 1 < end then Fetching(env, next, r, end, second) else Asking(env, next, r, second)
  {
    hide NodeOk, Locator, IdsBind, ReceiveBlock, Extends;
    FetchDelivered(env, link, r, end, now, first);
    TwoDeliveries(env, link, first, second);
    ExtendsLater(env, link.requester.node, r, now, second);
    ReceiveNext(env, link.requester, r, end, second);
    hide Leads;
    next := Deliver(env, Deliver(env, link, first), second);
  }

  lemma BlockServed(env: Env, n: NodeValue, r: NodeValue, j: nat, now: nat)
    requires Extends(env, n, r, now) && j < |r.chain.blocks|
    ensures KnownBlock(env, r, BlockId(env, r.chain.blocks[j])) == Some(r.chain.blocks[j])
  {
    TargetFacts(env, r, now);
    hide NodeOk, Linked;
    FindAt(env, r.chain.blocks, j);
  }

  // ------------------------------------------------------------------------ the theorem

  /** How many messages an exchange takes when `gap` blocks are missing. */
  function Messages(gap: int): nat
    decreases gap
  {
    if gap <= 0 then 2 else 2 + 2 * Min(gap, MAX_HEADERS) + Messages(gap - Min(gap, MAX_HEADERS))
  }

  lemma MessagesUnfold(gap: nat)
    ensures Messages(gap) >= 2
    ensures gap == 0 ==> Messages(gap) == 2
    ensures gap > 0 ==> Messages(gap) == 2 + 2 * Min(gap, MAX_HEADERS) + Messages(gap - Min(gap, MAX_HEADERS))
  {
  }

  ghost predicate Clocked(clocks: seq<nat>, now: nat) {
    && (forall i: nat :: i < |clocks| ==> now <= clocks[i])
    && (forall i: nat, j: nat :: i < j < |clocks| ==> clocks[i] <= clocks[j])
  }

  lemma ClockedRest(clocks: seq<nat>, now: nat)
    requires Clocked(clocks, now) && |clocks| >= 2
    ensures Clocked(clocks[2..], clocks[1]) && now <= clocks[1] && clocks == [clocks[0], clocks[1]] + clocks[2..]
  {
  }

  /** The blocks of one queue, then the rest of the exchange. */
  lemma {:induction false} FetchingEnds(env: Env, link: Link, r: NodeValue, end: nat, now: nat, clocks: seq<nat>) returns (last: Link)
    requires Fetching(env, link, r, end, now) && IdsBind(env) && Clocked(clocks, now)
    requires |clocks| == 2 * (end - |link.requester.node.chain.blocks|) + Messages(|r.chain.blocks| - end)
    ensures Leads(env, link, clocks, last) && last.message.None?
    ensures last.responder.node == r && last.requester.node.chain == r.chain
    decreases |clocks|
  {
    hide Leads, Clocked, Messages, IdsBind, Fetching, Asking;
    FetchingBounds(env, link, r, end, now);
    MessagesUnfold(|r.chain.blocks| - end);
    ClockedRest(clocks, now);
    var next := FetchStep(env, link, r, end, now, clocks[0], clocks[1]);
    if |link.requester.node.chain.blocks| + 1 < end {
      last := FetchingEnds(env, next, r, end, clocks[1], clocks[2..]);
    } else {
      last := SyncCompletes(env, next, r, clocks[1], clocks[2..]);
    }
    LeadsOn(env, link, [clocks[0], clocks[1]], next, clocks[2..], last);
  }

  lemma FetchingBounds(env: Env, link: Link, r: NodeValue, end: nat, now: nat)
    requires Fetching(env, link, r, end, now)
    ensures |link.requester.node.chain.blocks| < end <= |r.chain.blocks|
  {
    hide Extends;
  }

  lemma AskingBounds(env: Env, link: Link, r: NodeValue, now: nat)
    requires Asking(env, link, r, now)
    ensures 0 < |link.requester.node.chain.blocks| <= |r.chain.blocks|
    ensures |link.requester.node.chain.blocks| == |r.chain.blocks| ==> link.requester.node.chain == r.chain
    ensures link.responder.node == r
  {
    if |link.requester.node.chain.blocks| == |r.chain.blocks| {
      var n := link.requester.node;
      assert r.chain.blocks[..|r.chain.blocks|] == r.chain.blocks;
      TipStored(env, n, now);
      TipStored(env, r, now);
    }
  }

  /** When the responder's chain extends the requester's, the exchange is over after exactly
      `Messages(gap)` messages, at any non-decreasing clocks, and the requester holds the responder's
      chain, state and work. */
  lemma {:induction false} SyncCompletes(env: Env, link: Link, r: NodeValue, now: nat, clocks: seq<nat>) returns (last: Link)
    requires Asking(env, link, r, now) && IdsBind(env) && Clocked(clocks, now)
    requires |clocks| == Messages(|r.chain.blocks| - |link.requester.node.chain.blocks|)
    ensures Leads(env, link, clocks, last) && last.message.None?
    ensures last.responder.node == r && last.requester.node.chain == r.chain
    decreases |clocks|
  {
    hide Leads, Clocked, IdsBind, Messages, Asking, Fetching;
    AskingBounds(env, link, r, now);
    var gap := |r.chain.blocks| - |link.requester.node.chain.blocks|;
    MessagesUnfold(gap);
    ClockedRest(clocks, now);
    if gap == 0 {
      last := AskingEnds(env, link, r, now, clocks[0], clocks[1]);
      assert clocks == [clocks[0], clocks[1]];
    } else {
      var next := AskingQueues(env, link, r, now, clocks[0], clocks[1]);
      var end := Min(|link.requester.node.chain.blocks| + MAX_HEADERS, |r.chain.blocks|);
      assert |r.chain.blocks| - end == gap - Min(gap, MAX_HEADERS);
      FetchingLater(env, next, r, end, now, clocks[1]);
      last := FetchingEnds(env, next, r, end, clocks[1], clocks[2..]);
      LeadsOn(env, link, [clocks[0], clocks[1]], next, clocks[2..], last);
    }
  }

  lemma FetchingLater(env: Env, link: Link, r: NodeValue, end: nat, now: nat, later: nat)
    requires Fetching(env, link, r, end, now) && now <= later
    ensures Fetching(env, link, r, end, later)
  {
    hide Extends;
    ExtendsLater(env, link.requester.node, r, now, later);
  }
}
