/** What the allocation means in numbers: a share weighs the work of its own target, the window is the
    last 1440 blocks, the finder's part is a twentieth, and leftover units follow the remainders. */
module RewardRules {
  import opened Base
  import opened Arith
  import opened Params
  import opened Bytes
  import opened Difficulty
  import opened Types
  import opened Sorting
  import opened Rewards

  // -------------------------------------------------------------------------- weights

  /** A share mined under a block target t weighs 2^256 / (s + 1), for its share target s in (31 t, 32 t]. */
  lemma WeightIsWork(bits: u32, t: nat)
    requires BitsToTarget(bits) == Some(t) && t <= POW_LIMIT
    ensures ShareTarget(bits).Some?
    ensures var s := ShareTarget(bits).value;
            31 * t < s <= 32 * t && WorkshareWeight(bits) == Ok(TWO_256 / (s + 1))
  {
    hide BitsToTarget, ShareTarget, TargetWork;
    ShareTargetWindow(bits, t);
    ShareTargetDecodes(bits);
    TargetWorkIsQuotient(ShareTarget(bits).value);
  }

  /** Bits that do not decode have no weight. */
  lemma WeightNeedsTarget(bits: u32)
    ensures WorkshareWeight(bits).Ok? <==> BitsToTarget(bits).Some?
  {
    hide BitsToTarget, ShareTarget, TargetWork;
    ShareTargetDecodes(bits);
  }

  /** A harder target never weighs less. */
  lemma HarderNeverWeighsLess(hard: u32, easy: u32, t: nat, u: nat)
    requires BitsToTarget(hard) == Some(t) && BitsToTarget(easy) == Some(u) && t <= u <= POW_LIMIT
    ensures WorkshareWeight(hard).Ok? && WorkshareWeight(easy).Ok?
    ensures WorkshareWeight(hard).value >= WorkshareWeight(easy).value
  {
    hide BitsToTarget, ShareTarget, TargetWork, RoundDown;
    ShareTargetIs(hard, t);
    ShareTargetIs(easy, u);
    RoundDownMono(32 * t, 32 * u);
    ShareTargetDecodes(hard);
    ShareTargetDecodes(easy);
    TargetWorkAntitone(ShareTarget(hard).value, ShareTarget(easy).value);
  }

  // --------------------------------------------------------------------------- window

  lemma {:induction false} SharesOfBlocks(blocks: seq<Block>, s: Workshare)
    ensures s in BlockShares(blocks) <==> exists i: nat :: i < |blocks| && s in blocks[i].workshareWitness.workshares
  {
    if blocks != [] {
      var n := |blocks| - 1;
      SharesOfBlocks(blocks[..n], s);
      if i: nat :| i < |blocks| && s in blocks[i].workshareWitness.workshares {
        assert i < n ==> s in blocks[..n][i].workshareWitness.workshares;
      }
      if s in BlockShares(blocks[..n]) {
        var i: nat :| i < n && s in blocks[..n][i].workshareWitness.workshares;
        assert s in blocks[i].workshareWitness.workshares;
      }
    }
  }

  /** The shares that count are those of the last 1440 blocks. */
  lemma WindowIsRecent(history: seq<Block>, s: Workshare)
    ensures s in WindowShares(history)
       <==> exists i: nat :: i < |history| && |history| <= i + 1_440 && s in history[i].workshareWitness.workshares
  {
    var start := WindowStart(history);
    var recent := history[start..];
    SharesOfBlocks(recent, s);
    hide BlockShares;
    if i: nat :| i < |recent| && s in recent[i].workshareWitness.workshares {
      assert s in history[start + i].workshareWitness.workshares && |history| <= (start + i) + 1_440;
    }
    if i: nat :| i < |history| && |history| <= i + 1_440 && s in history[i].workshareWitness.workshares {
      assert s in recent[i - start].workshareWitness.workshares;
    }
  }

  // --------------------------------------------------------------------------- finder

  /** All together the shares weigh something exactly when there are any. */
  lemma SharesWeighSomething(shares: seq<Workshare>)
    requires ValidBits(shares)
    ensures SumMap(Weights(shares)) == 0 <==> shares == []
  {
    WeightsSum(shares);
    if shares != [] {
      var last := shares[|shares| - 1];
      assert last in shares;
      hide WorkshareWeight, Weights, SumMap;
      WeightBounds(last.candidateHeader.bits);
    }
  }

  /** With shares to pay the finder has a twentieth of the subsidy, rounded down, and all fees; without any,
      everything. */
  lemma FinderRule(height: nat, fees: nat, history: seq<Block>)
    requires height > 0 && RewardAllocation(height, fees, history).Ok?
    ensures var finder := RewardAllocation(height, fees, history).value.finderAmount;
            if WindowShares(history) == [] then finder == BlockSubsidy(height) + fees
            else fees <= finder && 20 * (finder - fees) <= BlockSubsidy(height) < 20 * (finder - fees + 1)
  {
    assert Pool(height) > 0;
    assert ValidBits(WindowShares(history));
    hide Payouts, FinalLines, SumMap, Weights, ValidBits, WindowShares, BlockSubsidy, Pool;
    SharesWeighSomething(WindowShares(history));
  }

  // ---------------------------------------------------------------------------- units

  lemma BonusIs(pool: nat, weights: map<Address, nat>, a: Address)
    requires SumMap(weights) > 0 && a in weights
    ensures var x := LineFor(pool, SumMap(weights), a, weights[a]);
            && x in QuotaLines(pool, weights)
            && Entitlement(pool, weights, a)
               == pool * weights[a] / SumMap(weights)
                  + if Outranking(QuotaLines(pool, weights), x) < Leftover(pool, weights) then 1 else 0
  {
    hide SumMap, QuotaLines, Leftover, Outranking;
    LineOf(pool, weights, a);
  }

  /** The leftover units go to the largest remainders: whoever has a larger one than a rounded-up address is
      rounded up too; among equal remainders the lower address comes first. */
  lemma LargestRemaindersFirst(pool: nat, weights: map<Address, nat>, a: Address, b: Address)
    requires SumMap(weights) > 0 && a in weights && b in weights
    requires var ra, rb := pool * weights[a] % SumMap(weights), pool * weights[b] % SumMap(weights);
             ra > rb || (ra == rb && a < b)
    ensures Entitlement(pool, weights, b) > pool * weights[b] / SumMap(weights) ==>
              Entitlement(pool, weights, a) == pool * weights[a] / SumMap(weights) + 1
  {
    hide SumMap, QuotaLines, Leftover, Outranking, Entitlement;
    BonusIs(pool, weights, a);
    BonusIs(pool, weights, b);
    var total := SumMap(weights);
    OutrankingMono(QuotaLines(pool, weights), LineFor(pool, total, a, weights[a]), LineFor(pool, total, b, weights[b]));
  }
}
