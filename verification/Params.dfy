/** Consensus constants and the emission schedule (src/consensus/params.rs), with the looped
    total of src/node.rs proved to be the sum of the per-block subsidies. */
module Params {
  import opened Base
  import opened Arith

  const PROTOCOL_VERSION: u16 := 9
  const HEADER_VERSION: u16 := 3

  const COIN: nat := 100_000_000
  const INITIAL_SUBSIDY: nat := 10 * COIN
  const HALVING_INTERVAL: nat := 1_600_000
  const MIN_SUBSIDY: nat := COIN / 2
  const FINDER_SHARE_PERCENT: nat := 5
  const REWARD_WINDOW: nat := 1_440
  const REWARD_MATURITY: nat := 100

  const TARGET_BLOCK_TIME: nat := 64
  const ASERT_HALF_LIFE: nat := 7_200
  const MEDIAN_TIME_SPAN: nat := 11
  const MAX_FUTURE_BLOCK_TIME: nat := 300

  const WORKSHARE_TARGET_MULTIPLIER: nat := 32
  const MAX_WORKSHARES_PER_BLOCK: nat := 512
  const MAX_TEMPLATES_PER_BLOCK: nat := 512
  const MAX_WORKSHARE_WITNESS_BYTES: nat := 4 * 1024 * 1024

  const MAX_BLOCK_BYTES: nat := 8 * 1024 * 1024
  const MAX_BLOCK_TRANSACTIONS: nat := 4_096
  const MAX_TRANSACTION_BYTES: nat := 1_024
  const MAX_TEMPLATE_BYTES: nat := 4 * 1024 * 1024
  const MAX_MONEY: nat := 0x3fff_ffff_ffff_ffff

  const RANDOMX_EPOCH_BLOCKS: nat := 2_048
  const RANDOMX_SEED_LAG: nat := 64
  const GENESIS_TIMESTAMP: u64 := 1_788_984_000

  function BlockSubsidy(height: nat): (s: nat)
    ensures height > 0 ==> MIN_SUBSIDY <= s <= INITIAL_SUBSIDY
    ensures height == 0 ==> s == 0
  {
    if height == 0 then 0
    else
      var halvings := (height - 1) / HALVING_INTERVAL;
      if halvings >= 64 then MIN_SUBSIDY
      else
        assert INITIAL_SUBSIDY / Pow2(halvings) <= INITIAL_SUBSIDY by { QuotientAtMost(INITIAL_SUBSIDY, Pow2(halvings)); }
        Max(INITIAL_SUBSIDY / Pow2(halvings), MIN_SUBSIDY)
  }

  function RandomxSeedReferenceHeight(height: nat): (r: nat)
    ensures r <= height
    ensures height >= RANDOMX_EPOCH_BLOCKS ==> r < height
  {
    if height < RANDOMX_EPOCH_BLOCKS then 0
    else SatSub((height / RANDOMX_EPOCH_BLOCKS) * RANDOMX_EPOCH_BLOCKS, RANDOMX_SEED_LAG)
  }

  /** The reference lies the lag before the start of the epoch, for every height of the epoch. */
  lemma SeedReferenceIs(epoch: nat, offset: nat)
    requires epoch >= 1 && offset < RANDOMX_EPOCH_BLOCKS
    ensures RandomxSeedReferenceHeight(epoch * RANDOMX_EPOCH_BLOCKS + offset) + RANDOMX_SEED_LAG == epoch * RANDOMX_EPOCH_BLOCKS
  {
    QuotientUnique(epoch * RANDOMX_EPOCH_BLOCKS + offset, RANDOMX_EPOCH_BLOCKS, epoch, offset);
  }

  /** Heights share a reference exactly within an epoch; a later epoch has a later one. */
  lemma SeedReferencesAdvance(low: nat, high: nat)
    requires RANDOMX_EPOCH_BLOCKS <= low <= high
    ensures RandomxSeedReferenceHeight(low) == RandomxSeedReferenceHeight(high)
       <==> low / RANDOMX_EPOCH_BLOCKS == high / RANDOMX_EPOCH_BLOCKS
    ensures low / RANDOMX_EPOCH_BLOCKS < high / RANDOMX_EPOCH_BLOCKS ==>
              RandomxSeedReferenceHeight(low) + RANDOMX_EPOCH_BLOCKS <= RandomxSeedReferenceHeight(high) < high
  {
    var d, e := low / RANDOMX_EPOCH_BLOCKS, high / RANDOMX_EPOCH_BLOCKS;
    SeedReferenceIs(d, low % RANDOMX_EPOCH_BLOCKS);
    SeedReferenceIs(e, high % RANDOMX_EPOCH_BLOCKS);
  }

  // ----------------------------------------------------------------- emitted supply

  /** Everything the schedule has issued up to and including `height`. */
  function SupplyTo(height: nat): nat {
    if height == 0 then 0 else SupplyTo(height - 1) + BlockSubsidy(height)
  }

  /** The subsidy in halving era `k`, as the loop of `scheduled_supply` reaches it. */
  function EraSubsidy(k: nat): nat {
    if k == 0 then INITIAL_SUBSIDY else Max(EraSubsidy(k - 1) / 2, MIN_SUBSIDY)
  }

  lemma HalveShift(n: nat, k: nat)
    requires k >= 1
    ensures n / Pow2(k) == n / Pow2(k - 1) / 2
  {
    DivDiv(n, Pow2(k - 1), 2);
  }

  lemma {:induction false} EraSubsidyIsShift(k: nat)
    ensures EraSubsidy(k) == Max(INITIAL_SUBSIDY / Pow2(k), MIN_SUBSIDY)
  {
    if k == 0 {
      assert Pow2(0) == 1;
    } else {
      EraSubsidyIsShift(k - 1);
      HalveShift(INITIAL_SUBSIDY, k);
    }
  }

  lemma {:induction false} LateErasPayMinimum(k: nat)
    requires k >= 5
    ensures EraSubsidy(k) == MIN_SUBSIDY
  {
    if k == 5 {
      assert EraSubsidy(1) == 500_000_000;
      assert EraSubsidy(2) == 250_000_000;
      assert EraSubsidy(3) == 125_000_000;
      assert EraSubsidy(4) == 62_500_000;
    } else {
      LateErasPayMinimum(k - 1);
    }
  }

  lemma SubsidyInEra(k: nat, n: nat)
    requires 1 <= n <= HALVING_INTERVAL
    ensures BlockSubsidy(k * HALVING_INTERVAL + n) == EraSubsidy(k)
  {
    var height := k * HALVING_INTERVAL + n;
    QuotientUnique(height - 1, HALVING_INTERVAL, k, n - 1);
    if k >= 64 {
      LateErasPayMinimum(k);
    } else {
      EraSubsidyIsShift(k);
    }
  }

  lemma {:induction false} SupplyAcrossEra(k: nat, n: nat)
    requires n <= HALVING_INTERVAL
    ensures SupplyTo(k * HALVING_INTERVAL + n) == SupplyTo(k * HALVING_INTERVAL) + n * EraSubsidy(k)
    decreases n
  {
    if n > 0 {
      SupplyAcrossEra(k, n - 1);
      SubsidyInEra(k, n);
      assert k * HALVING_INTERVAL + n - 1 == k * HALVING_INTERVAL + (n - 1);
      assert n * EraSubsidy(k) == (n - 1) * EraSubsidy(k) + EraSubsidy(k);
    }
  }

  /** `scheduled_supply`: one multiplication per era, saturating at `u64::MAX`.
      The result is the block-by-block sum, capped at the width of the counter. */
  method ScheduledSupply(height: u64) returns (total: nat)
    ensures total == Min(SupplyTo(height), U64_MAX)
  {
    var remaining: nat := height;
    var subsidy := INITIAL_SUBSIDY;
    total := 0;
    ghost var era := 0;
    while remaining > 0
      invariant remaining <= height
      invariant remaining > 0 ==> height - remaining == era * HALVING_INTERVAL
      invariant subsidy == EraSubsidy(era)
      invariant total == Min(SupplyTo(height - remaining), U64_MAX)
    {
      var span := Min(remaining, HALVING_INTERVAL);
      SupplyAcrossEra(era, span);
      total := SatAdd64(total, SatMul64(span, subsidy));
      remaining := remaining - span;
      subsidy := Max(subsidy / 2, MIN_SUBSIDY);
      era := era + 1;
    }
  }
}
