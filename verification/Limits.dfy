/** What the decoder's limits admit of what validation accepts. Validation bounds the witness in
    bytes; the decoder also bounds the number of its items, and that is the only difference. */
module Limits {
  import opened Base
  import opened Params
  import opened Bytes
  import opened Difficulty
  import opened Types
  import opened Codec
  import Encoding
  import opened State
  import opened Merkle
  import opened Rewards
  import opened Validation
  import opened ChainSpec

  predicate AllStructured(txs: seq<Transaction>) {
    forall tx :: tx in txs ==> StructureOk(tx)
  }

  lemma {:induction false} AppliedAreStructured(env: Env, l: Ledger, txs: seq<Transaction>)
    requires ApplyTransactions(env, l, txs).Ok?
    ensures AllStructured(txs)
  {
    hide StructureOk, Debit, Credit, SetNonce;
    if txs != [] {
      var front := txs[..|txs| - 1];
      AppliedAreStructured(env, l, front);
      forall tx | tx in txs ensures StructureOk(tx) {
        assert tx == txs[|txs| - 1] || tx in front;
      }
    }
  }

  lemma TransitionIsStructured(env: Env, height: u64, claim: RewardClaim, txs: seq<Transaction>, history: seq<Block>, parent: Ledger)
    requires TransitionFor(env, height, claim, txs, history, parent).Ok?
    ensures AllStructured(txs)
  {
    hide ApplyTransactions, RewardAllocation, ScheduleAll, ScheduleReward, Mature, AllStructured;
    AppliedAreStructured(env, Mature(parent, height).value, txs);
  }

  /** Every template an accepted share names holds well-formed transactions. */
  lemma {:induction false} SharesAreStructured(env: Env, ctx: ShareContext, history: seq<Block>, state: Ledger, shares: seq<Workshare>)
    requires CheckShares(env, ctx, history, state, shares).Ok?
    ensures forall s :: s in shares ==>
              s.templateId in ctx.templates && AllStructured(ctx.templates[s.templateId].transactions)
  {
    hide AllStructured, ShareHeaderOk, TransitionFor, RewardAllocation, Grown, MerkleRoot, LedgerRoot, SumFees, TemplateOk;
    if shares != [] {
      var front, share := shares[..|shares| - 1], shares[|shares| - 1];
      SharesAreStructured(env, ctx, history, state, front);
      var t := ctx.templates[share.templateId];
      var allocation := RewardAllocation(t.height, SumFees(t.transactions), history).value;
      TransitionIsStructured(env, t.height, ClaimOf(share, t.height, allocation.finderAmount), t.transactions, history, state);
      forall s | s in shares ensures s.templateId in ctx.templates && AllStructured(ctx.templates[s.templateId].transactions) {
        assert s == share || s in front;
      }
    }
  }

  lemma {:induction false} TemplateMapFinds(env: Env, templates: seq<BlockTemplate>, i: nat)
    requires i < |templates|
    requires Distinct(TemplateIds(env, templates))
    ensures env.templateId(templates[i]) in TemplateMap(env, templates)
    ensures TemplateMap(env, templates)[env.templateId(templates[i])] == templates[i]
  {
    var n := |templates| - 1;
    var front := templates[..n];
    var ids := TemplateIds(env, templates);
    assert forall j :: 0 <= j < n ==> TemplateIds(env, front)[j] == ids[j];
    if i < n {
      TemplateMapFinds(env, front, i);
      assert ids[i] != ids[n];
    }
  }

  /** All templates of an accepted canonical witness hold well-formed transactions. */
  lemma WitnessIsStructured(env: Env, w: WorkshareWitness, history: seq<Block>, state: Ledger, settling: nat)
    requires IsCanonical(env, w) && ValidateWorkshares(env, w, history, state, settling).Ok?
    ensures forall t :: t in w.templates ==> AllStructured(t.transactions)
  {
    var ids := TemplateIds(env, w.templates);
    AdjacentIsAscending(ids);
    hide AllStructured, CheckShares, TransitionFor;
    if w.workshares != [] {
      SharesAreStructured(env, MakeContext(env, w.templates, history, settling).value, history, state, w.workshares);
    }
    forall t | t in w.templates ensures AllStructured(t.transactions) {
      var i :| 0 <= i < |w.templates| && w.templates[i] == t;
      assert ids[i] in Referenced(w.workshares);
      var s :| s in w.workshares && s.templateId == ids[i];
      TemplateMapFinds(env, w.templates, i);
    }
  }

  predicate WithinCounts(w: WorkshareWitness) {
    && |w.templates| <= MAX_TEMPLATES_PER_BLOCK
    && |w.workshares| <= MAX_WORKSHARES_PER_BLOCK
    && forall t :: t in w.templates ==> |t.transactions| <= MAX_BLOCK_TRANSACTIONS
  }

  lemma StructuredIsEncodable(txs: seq<Transaction>)
    requires AllStructured(txs)
    ensures Encoding.TransactionsOk(txs) <==> |txs| <= MAX_BLOCK_TRANSACTIONS
  {
  }

  lemma ValidBlockSizes(env: Env, block: Block, history: seq<Block>, state: Ledger, now: nat)
    requires block.header.height != 0
    requires ValidateBlock(env, block, history, state, now).Ok?
    ensures BlockSize(block) <= MAX_BLOCK_BYTES && |block.transactions| <= MAX_BLOCK_TRANSACTIONS
    ensures WitnessShapeOk(env, block.workshareWitness)
  {
    hide HeaderContext, TransactionRoot, WitnessShapeOk, TransitionFor, LedgerRoot, ValidateWorkshares, VerifyPow, RandomxSeed, BlockSize;
  }

  /** Every transaction of a validated block, its witness included, is well formed. */
  lemma ValidBlockIsStructured(env: Env, block: Block, history: seq<Block>, state: Ledger, now: nat)
    requires block.header.height != 0
    requires ValidateBlock(env, block, history, state, now).Ok?
    ensures AllStructured(block.transactions)
    ensures forall t :: t in block.workshareWitness.templates ==> AllStructured(t.transactions)
  {
    ValidBlockFacts(env, block, history, state, now);
    ValidBlockSizes(env, block, history, state, now);
    assert IsCanonical(env, block.workshareWitness);
    hide *;
    TransitionIsStructured(env, block.header.height, block.rewardClaim.value, block.transactions, history, state);
    WitnessIsStructured(env, block.workshareWitness, history, state, block.header.timestamp);
  }

  lemma EncodableIffCounts(block: Block)
    requires BlockTyped(block) && |block.transactions| <= MAX_BLOCK_TRANSACTIONS
    requires WitnessSize(block.workshareWitness) <= MAX_WORKSHARE_WITNESS_BYTES
    requires forall t :: t in block.workshareWitness.templates ==> TemplateSize(t) <= MAX_TEMPLATE_BYTES && AllStructured(t.transactions)
    requires AllStructured(block.transactions)
    ensures Encoding.BlockOk(block) <==> WithinCounts(block.workshareWitness)
  {
    hide AllStructured, Encoding.TransactionsOk, WitnessSize, TemplateSize, HeaderTyped;
    StructuredIsEncodable(block.transactions);
    forall t | t in block.workshareWitness.templates
      ensures Encoding.TemplateOk(t) <==> |t.transactions| <= MAX_BLOCK_TRANSACTIONS
    {
      StructuredIsEncodable(t.transactions);
    }
  }

  /** A validated block decodes from its own encoding exactly when its witness keeps the item counts:
      512 templates, 512 shares, 4096 transactions in each template. */
  lemma ValidatedRoundTripIffCounts(env: Env, block: Block, history: seq<Block>, state: Ledger, now: nat)
    requires block.header.height != 0 && BlockTyped(block)
    requires ValidateBlock(env, block, history, state, now).Ok?
    ensures DecodeAll(Encoding.BlockDecoder(env.checksum), Encoding.EncodeBlock(env.checksum, block)) == Ok(block)
            <==> WithinCounts(block.workshareWitness)
  {
    ValidBlockSizes(env, block, history, state, now);
    assert WitnessSize(block.workshareWitness) <= MAX_WORKSHARE_WITNESS_BYTES;
    assert forall t :: t in block.workshareWitness.templates ==> TemplateSize(t) <= MAX_TEMPLATE_BYTES;
    assert BlockSize(block) <= MAX_CONSENSUS_ALLOCATION;
    hide *;
    ValidBlockIsStructured(env, block, history, state, now);
    EncodableIffCounts(block);
    Encoding.BlockDecodesExactly(env.checksum, Encoding.EncodeBlock(env.checksum, block), block);
  }
}
