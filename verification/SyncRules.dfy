/** Header sync between nodes whose chains may have diverged: where the responder starts, and that the
    requester accepts the headers as far as links go. No progress is claimed here. */
module SyncRules {
  import opened Base
  import opened Params
  import opened Types
  import opened State
  import opened Validation
  import opened ChainSpec
  import opened Chains
  import opened ForkChoice
  import opened Wire
  import opened Sync

  // ---------------------------------------------------------------- common ancestors

  /** A block id active on two nodes is at the same height on both, with the same block. */
  lemma SharedIdSharedBlock(env: Env, n: NodeValue, r: NodeValue, i: nat, j: nat, now: nat, later: nat)
    requires NodeOk(env, n, now) && NodeOk(env, r, later) && IdsBind(env)
    requires i < |n.chain.blocks| && j < |r.chain.blocks| && BlockId(env, n.chain.blocks[i]) == BlockId(env, r.chain.blocks[j])
    ensures i == j && n.chain.blocks[i] == r.chain.blocks[j]
  {
    hide NodeOk, IdsBind, BlockTyped, ValidBody, CumulativeWork, Accepted, NoLaterGenesis, Linked, Genesis;
    TargetFacts(env, n, now);
    TargetFacts(env, r, later);
    StartsAtGenesis(env, n, now);
    StartsAtGenesis(env, r, later);
    if i > 0 && j > 0 {
      ReachesBody(env, n, i, now);
      ReachesBody(env, r, j, later);
      Bound(env, n.chain.blocks[i], r.chain.blocks[j]);
    }
  }

  lemma StartsAtGenesis(env: Env, n: NodeValue, now: nat)
    requires NodeOk(env, n, now)
    ensures n.chain.blocks != [] && n.chain.blocks[0] == Genesis(env)
  {
    NodeLinked(env, n, now);
    hide StoreOk, BestOf, Confirmed, Genesis, Linked;
  }

  lemma Bound(env: Env, b: Block, c: Block)
    requires IdsBind(env) && ValidBody(env, b) && ValidBody(env, c) && BlockId(env, b) == BlockId(env, c)
    ensures b == c
  {
    hide ValidBody;
  }

  // -------------------------------------------------------------------- where to start

  /** The responder starts after the first locator entry on its chain, from genesis if there is none. */
  lemma {:induction false} StartAfterFirstKnown(env: Env, blocks: seq<Block>, locator: seq<Hash>, k: nat)
    requires k < |locator| && FindId(env, blocks, locator[k]).Some?
    requires forall i: nat :: i < k ==> FindId(env, blocks, locator[i]).None?
    ensures StartHeight(env, blocks, locator) == FindId(env, blocks, locator[k]).value.header.height + 1
  {
    hide FindId;
    if k > 0 {
      assert FindId(env, blocks, locator[0]).None?;
      var rest := locator[1..];
      assert rest[k - 1] == locator[k];
      forall i: nat | i < k - 1 ensures FindId(env, blocks, rest[i]).None? {
        assert rest[i] == locator[i + 1];
      }
      StartAfterFirstKnown(env, blocks, rest, k - 1);
    }
  }

  lemma {:induction false} NothingKnown(env: Env, blocks: seq<Block>, locator: seq<Hash>)
    requires forall i: nat :: i < |locator| ==> FindId(env, blocks, locator[i]).None?
    ensures StartHeight(env, blocks, locator) == 0
  {
    hide FindId;
    if locator != [] {
      assert FindId(env, blocks, locator[0]).None?;
      var rest := locator[1..];
      forall i: nat | i < |rest| ensures FindId(env, blocks, rest[i]).None? {
        assert rest[i] == locator[i + 1];
      }
      NothingKnown(env, blocks, rest);
    }
  }

  lemma FirstKnown(env: Env, blocks: seq<Block>, locator: seq<Hash>, last: nat) returns (k: nat)
    requires last < |locator| && FindId(env, blocks, locator[last]).Some?
    ensures k <= last && FindId(env, blocks, locator[k]).Some?
    ensures forall i: nat :: i < k ==> FindId(env, blocks, locator[i]).None?
  {
    hide FindId;
    k := 0;
    while FindId(env, blocks, locator[k]).None?
      invariant k <= last
      invariant forall i: nat :: i < k ==> FindId(env, blocks, locator[i]).None?
      decreases last - k
    {
      k := k + 1;
    }
  }

  // -------------------------------------------------------------- headers until a stop

  /** The headers run to the end, or up to the first block with the id asked to stop at. */
  lemma {:induction false} StopIsHonoured(env: Env, blocks: seq<Block>, stop: Hash)
    ensures var hs := UntilStop(env, blocks, stop);
            && |hs| <= |blocks|
            && (forall i: nat :: i < |hs| ==> hs[i] == blocks[i].header && (stop != 0 ==> BlockId(env, blocks[i]) != stop))
            && (|hs| < |blocks| ==> stop != 0 && BlockId(env, blocks[|hs|]) == stop)
  {
    if blocks != [] && !(stop != ZERO_HASH && BlockId(env, blocks[0]) == stop) {
      var rest := UntilStop(env, blocks[1..], stop);
      StopIsHonoured(env, blocks[1..], stop);
      var hs := UntilStop(env, blocks, stop);
      forall i: nat | i < |hs| ensures hs[i] == blocks[i].header && (stop != 0 ==> BlockId(env, blocks[i]) != stop) {
        if i > 0 {
          assert hs[i] == rest[i - 1] && blocks[1..][i - 1] == blocks[i];
        }
      }
    }
  }

  // ---------------------------------------------------------------- what a queue means

  /** The first header continues a known block, every later one the header before it, all of this protocol. */
  ghost predicate HeadersLink(env: Env, n: NodeValue, headers: seq<BlockHeader>) {
    && (forall i: nat :: i < |headers| ==> headers[i].version == 3 && headers[i].protocol == 9)
    && (forall i: nat :: 0 < i < |headers| ==> Continues(env, headers[i - 1], headers[i]))
    && (headers != [] ==>
          var parent := KnownBlock(env, n, headers[0].previousBlock);
          parent.Some? && headers[0].height == SatAdd64(parent.value.header.height, 1))
  }

  predicate Continues(env: Env, parent: BlockHeader, h: BlockHeader) {
    h.previousBlock == env.headerId(parent) && h.height == SatAdd64(parent.height, 1)
  }

  function UnknownIds(env: Env, n: NodeValue, headers: seq<BlockHeader>): seq<Hash> {
    if headers == [] then []
    else (if KnownBlock(env, n, env.headerId(headers[0])).None? then [env.headerId(headers[0])] else []) + UnknownIds(env, n, headers[1..])
  }

  lemma {:induction false} QueueAfterIff(env: Env, n: NodeValue, headers: seq<BlockHeader>, parent: BlockHeader)
    ensures QueueFor(env, n, headers, Some((env.headerId(parent), SatAdd64(parent.height, 1))))
         == if (forall i: nat :: i < |headers| ==> headers[i].version == 3 && headers[i].protocol == 9)
               && (headers != [] ==> Continues(env, parent, headers[0]))
               && (forall i: nat :: 0 < i < |headers| ==> Continues(env, headers[i - 1], headers[i]))
            then Some(UnknownIds(env, n, headers)) else None
    decreases |headers|
  {
    hide KnownBlock;
    if headers != [] {
      var h, rest := headers[0], headers[1..];
      QueueAfterIff(env, n, rest, h);
      assert rest != [] ==> rest[0] == headers[1];
      assert forall i: nat :: i < |rest| ==> rest[i] == headers[i + 1];
      if forall i: nat :: 0 < i < |headers| ==> Continues(env, headers[i - 1], headers[i]) {
        forall i: nat | 0 < i < |rest| ensures Continues(env, rest[i - 1], rest[i]) {
          assert Continues(env, headers[i], headers[i + 1]);
        }
      }
      if (rest != [] ==> Continues(env, h, rest[0])) && (forall i: nat :: 0 < i < |rest| ==> Continues(env, rest[i - 1], rest[i])) {
        forall i: nat | 0 < i < |headers| ensures Continues(env, headers[i - 1], headers[i]) {
          assert i > 1 ==> Continues(env, rest[i - 2], rest[i - 1]);
        }
      }
    }
  }

  /** Received headers are queued exactly when they link to a known block, and then the queue is their unknown
      ids in order. */
  lemma QueueIff(env: Env, n: NodeValue, headers: seq<BlockHeader>)
    ensures QueueFor(env, n, headers, None) == if HeadersLink(env, n, headers) then Some(UnknownIds(env, n, headers)) else None
  {
    hide KnownBlock;
    if headers != [] {
      var h, rest := headers[0], headers[1..];
      QueueAfterIff(env, n, rest, h);
      assert rest != [] ==> rest[0] == headers[1];
      assert forall i: nat :: i < |rest| ==> rest[i] == headers[i + 1];
      if forall i: nat :: 0 < i < |headers| ==> Continues(env, headers[i - 1], headers[i]) {
        forall i: nat | 0 < i < |rest| ensures Continues(env, rest[i - 1], rest[i]) {
          assert Continues(env, headers[i], headers[i + 1]);
        }
      }
      if (rest != [] ==> Continues(env, h, rest[0])) && (forall i: nat :: 0 < i < |rest| ==> Continues(env, rest[i - 1], rest[i])) {
        forall i: nat | 0 < i < |headers| ensures Continues(env, headers[i - 1], headers[i]) {
          assert i > 1 ==> Continues(env, rest[i - 2], rest[i - 1]);
        }
      }
    }
  }

  // -------------------------------------------------------------------- diverged chains

  /** The common block the locator finds: the highest one it names that is active on the responder. */
  lemma CommonBlock(env: Env, n: NodeValue, r: NodeValue, now: nat, later: nat) returns (k: nat, h: nat)
    requires NodeOk(env, n, now) && NodeOk(env, r, later) && IdsBind(env)
    requires 0 < |n.chain.blocks| <= U64_MAX
    ensures var locator := Locator(env, n.chain.blocks);
            && k < |locator| && h < |n.chain.blocks| && h < |r.chain.blocks|
            && locator[k] == BlockId(env, n.chain.blocks[h]) && n.chain.blocks[h] == r.chain.blocks[h]
            && (forall i: nat :: i < k ==> !HasId(env, r.chain.blocks, locator[i]))
            && StartHeight(env, r.chain.blocks, locator) == h + 1
  {
    hide NodeOk, IdsBind, FindId, HasId, LocatorFrom, Genesis, StartHeight;
    var blocks, locator := n.chain.blocks, Locator(env, n.chain.blocks);
    var hs := LocatorHeights(|blocks| - 1);
    LocatorDescends(|blocks| - 1, 1, 0);
    StartsAtGenesis(env, n, now);
    StartsAtGenesis(env, r, later);
    LocatorEndsAtGenesis(env, n, r, later);
    k := FirstKnown(env, r.chain.blocks, locator, |locator| - 1);
    h := hs[k];
    FindIdFacts(env, r.chain.blocks, locator[k]);
    var j: nat :| j < |r.chain.blocks| && r.chain.blocks[j] == FindId(env, r.chain.blocks, locator[k]).value && BlockId(env, r.chain.blocks[j]) == locator[k];
    SharedIdSharedBlock(env, n, r, h, j, now, later);
    HeightIsIndex(env, r, j, later);
    forall i: nat | i < k ensures !HasId(env, r.chain.blocks, locator[i]) {
      FindIdFacts(env, r.chain.blocks, locator[i]);
    }
    StartAfterFirstKnown(env, r.chain.blocks, locator, k);
  }

  lemma HeightIsIndex(env: Env, r: NodeValue, j: nat, now: nat)
    requires NodeOk(env, r, now) && j < |r.chain.blocks|
    ensures r.chain.blocks[j].header.height == j
  {
    hide NodeOk, Accepted, NoLaterGenesis, CumulativeWork, BlockTyped;
    TargetFacts(env, r, now);
  }

  lemma FindFirst(env: Env, blocks: seq<Block>)
    requires blocks != []
    ensures FindId(env, blocks, BlockId(env, blocks[0])) == Some(blocks[0])
  {
  }

  lemma LocatorEndsAtGenesis(env: Env, n: NodeValue, r: NodeValue, now: nat)
    requires 0 < |n.chain.blocks| <= U64_MAX && n.chain.blocks[0] == Genesis(env)
    requires NodeOk(env, r, now) && r.chain.blocks != [] && r.chain.blocks[0] == Genesis(env)
    ensures var locator := Locator(env, n.chain.blocks); FindId(env, r.chain.blocks, locator[|locator| - 1]).Some?
  {
    hide NodeOk, LocatorFrom, Genesis, FindId;
    LocatorDescends(|n.chain.blocks| - 1, 1, 0);
    FindFirst(env, r.chain.blocks);
  }

  /** Whatever the two chains, the responder answers from the highest block the locator names that it has: its
      headers continue an active block of the requester, and the requester accepts their links. */
  lemma DivergedHeadersLink(env: Env, n: NodeValue, r: NodeValue, now: nat, later: nat) returns (k: nat, h: nat)
    requires NodeOk(env, n, now) && NodeOk(env, r, later) && IdsBind(env)
    requires 0 < |n.chain.blocks| <= U64_MAX && |r.chain.blocks| <= U64_MAX
    ensures var locator := Locator(env, n.chain.blocks);
            && k < |locator| && h < |n.chain.blocks| && h < |r.chain.blocks|
            && locator[k] == BlockId(env, n.chain.blocks[h]) && n.chain.blocks[h] == r.chain.blocks[h]
            && (forall i: nat :: i < k ==> !HasId(env, r.chain.blocks, locator[i]))
    ensures var headers := HeadersFor(env, r.chain.blocks, Locator(env, n.chain.blocks), ZERO_HASH);
            && |headers| == Min(2_000, |r.chain.blocks| - h - 1)
            && (forall i: nat :: i < |headers| ==> headers[i] == r.chain.blocks[h + 1 + i].header)
            && (headers != [] ==> headers[0].previousBlock == BlockId(env, n.chain.blocks[h]))
            && QueueFor(env, n, headers, None) == Some(UnknownIds(env, n, headers))
  {
    hide NodeOk, IdsBind, HasId, Locator, StartHeight, UntilStop, QueueFor, HeadersLink, UnknownIds;
    k, h := CommonBlock(env, n, r, now, later);
    var start, end := h + 1, Min(h + 1 + MAX_HEADERS, |r.chain.blocks|);
    var headers := HeadersFor(env, r.chain.blocks, Locator(env, n.chain.blocks), ZERO_HASH);
    assert headers == UntilStop(env, r.chain.blocks[start..end], ZERO_HASH);
    AllUntil(env, r.chain.blocks[start..end]);
    SegmentLinks(env, n, r, h, end, headers, now, later);
    QueueIff(env, n, headers);
  }

  lemma SegmentLinks(env: Env, n: NodeValue, r: NodeValue, h: nat, end: nat, headers: seq<BlockHeader>, now: nat, later: nat)
    requires NodeOk(env, n, now) && NodeOk(env, r, later)
    requires h < |n.chain.blocks| && h < end <= |r.chain.blocks| <= U64_MAX && n.chain.blocks[h] == r.chain.blocks[h]
    requires |headers| == end - h - 1 && forall i: nat :: i < |headers| ==> headers[i] == r.chain.blocks[h + 1 + i].header
    ensures headers != [] ==> headers[0].previousBlock == BlockId(env, n.chain.blocks[h])
    ensures HeadersLink(env, n, headers)
  {
    hide NodeOk, ValidBody, KnownBlock;
    forall i: nat | i < |headers|
      ensures headers[i].version == 3 && headers[i].protocol == 9
      ensures headers[i].height == h + 1 + i && headers[i].previousBlock == BlockId(env, r.chain.blocks[h + i])
    {
      VersionsAt(env, r, h + 1 + i, later);
      ReachesBody(env, r, h + 1 + i, later);
    }
    forall i: nat | 0 < i < |headers| ensures Continues(env, headers[i - 1], headers[i]) {
      assert headers[i - 1] == r.chain.blocks[h + 1 + (i - 1)].header;
      assert headers[i].height == h + 1 + i && headers[i - 1].height == h + 1 + (i - 1);
    }
    BlockKnown(env, n, h, now);
    HeightIsIndex(env, r, h, later);
    assert headers != [] ==> headers[0].height == h + 1 && headers[0].previousBlock == BlockId(env, r.chain.blocks[h + 0]);
  }

  lemma BlockKnown(env: Env, n: NodeValue, h: nat, now: nat)
    requires NodeOk(env, n, now) && h < |n.chain.blocks|
    ensures KnownBlock(env, n, BlockId(env, n.chain.blocks[h])) == Some(n.chain.blocks[h])
  {
    hide NodeOk, Linked, Accepted, NoLaterGenesis, CumulativeWork, BlockTyped;
    TargetFacts(env, n, now);
    FindAt(env, n.chain.blocks, h);
  }

  // ------------------------------------------------------------------- single messages

  /** On a sound node a block is known exactly when it is stored, active or not. */
  lemma KnownIsStored(env: Env, n: NodeValue, id: Hash, now: nat)
    requires NodeOk(env, n, now)
    ensures KnownBlock(env, n, id) == if id in n.store then Some(n.store[id]) else None
  {
    hide StoreOk, BestOf, Confirmed, NoLaterGenesis;
    FindIdFacts(env, n.chain.blocks, id);
    if FindId(env, n.chain.blocks, id).Some? {
      var i: nat :| i < |n.chain.blocks| && n.chain.blocks[i] == FindId(env, n.chain.blocks, id).value && BlockId(env, n.chain.blocks[i]) == id;
      assert BlockId(env, n.chain.blocks[i]) in n.store;
    } else {
      hide HasId;
    }
  }

  /** Received headers start a download exactly when there are 1 to 2000 of them, they link to a known block,
      and some block is missing; any that do not link end a running one. */
  lemma HeadersArm(env: Env, p: Peer, headers: seq<BlockHeader>, now: nat)
    requires 0 < |p.node.chain.blocks| < U64_MAX
    ensures var (q, reply) := Handle(env, p, Headers(headers), now);
            var missing := UnknownIds(env, p.node, headers);
            var good := 1 <= |headers| <= 2_000 && HeadersLink(env, p.node, headers);
            && q.node == p.node
            && (reply.Some? <==> good && missing != [])
            && (reply.Some? ==> reply.value == GetData(BlockKind, missing[0]) && q.queue == Some(missing))
            && (!good ==> q.queue == None)
            && (good && missing == [] ==> q.queue == p.queue)
  {
    hide HeadersLink, UnknownIds, QueueFor;
    QueueIff(env, p.node, headers);
  }

  /** A received block is submitted; a download goes on exactly when it was the block asked for and was not
      refused. */
  lemma BlockArm(env: Env, p: Peer, block: Block, now: nat)
    requires 0 < |p.node.chain.blocks| < U64_MAX
    ensures var (q, reply) := Handle(env, p, BlockMessage(block), now);
            var submitted := Submit(env, p.node, block, now);
            var expected := submitted.Ok? && p.queue.Some? && p.queue.value != [] && p.queue.value[0] == BlockId(env, block);
            && q.node == (if submitted.Ok? then submitted.value.0 else p.node)
            && (q.queue == if expected && |p.queue.value| > 1 then Some(p.queue.value[1..]) else None)
            && (expected && |p.queue.value| > 1 ==> reply == Some(GetData(BlockKind, p.queue.value[1])))
            && (expected && |p.queue.value| == 1 && 0 < |q.node.chain.blocks| <= U64_MAX ==>
                  reply == Some(GetHeaders(Locator(env, q.node.chain.blocks), 0)))
            && (!expected ==> reply == None)
  {
    hide Submit, Locator;
  }
}
