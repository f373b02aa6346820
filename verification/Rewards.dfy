/** Reward allocation (src/consensus/rewards.rs): largest-remainder apportionment of the workshare
    pool over the window. `RewardAllocation` is the reference definition, in which a line earns
    an extra unit when fewer than `leftover` lines outrank it; `ComputeAllocation` is the source's
    sort, bump, re-sort and filter, with its saturating and checked arithmetic. */
module Rewards {
  import opened Base
  import opened Arith
  import opened Params
  import opened Bytes
  import opened Difficulty
  import opened Types
  import opened Sorting

  const U512_MAX: nat := 0xffffffff_ffffffff_ffffffff_ffffffff_ffffffff_ffffffff_ffffffff_ffffffff_ffffffff_ffffffff_ffffffff_ffffffff_ffffffff_ffffffff_ffffffff_ffffffff

  function SatAdd512(a: nat, b: nat): nat {
    Min(a + b, U512_MAX)
  }

  datatype Allocation = Allocation(finderAmount: nat, workshareRewards: seq<(Address, nat)>)

  // ------------------------------------------------------------------- share weights

  /** `workshare_weight`: the work of the share target the block bits allow. */
  function WorkshareWeight(blockBits: u32): Result<nat, ConsensusError> {
    ShareTargetDecodes(blockBits);
    match ShareTarget(blockBits)
    case None => Err(InvalidTarget)
    case Some(target) => Ok(TargetWork(target))
  }

  lemma WeightBounds(blockBits: u32)
    requires WorkshareWeight(blockBits).Ok?
    ensures 1 <= WorkshareWeight(blockBits).value < TWO_256
  {
    hide ShareTarget, TargetWork;
    ShareTargetDecodes(blockBits);
    TargetWorkIsQuotient(ShareTarget(blockBits).value);
  }

  function BlockShares(blocks: seq<Block>): seq<Workshare> {
    if blocks == [] then []
    else BlockShares(blocks[..|blocks| - 1]) + blocks[|blocks| - 1].workshareWitness.workshares
  }

  function WindowStart(history: seq<Block>): (start: nat)
    ensures start <= |history|
  {
    SatSub(|history|, REWARD_WINDOW)
  }

  function WindowShares(history: seq<Block>): seq<Workshare> {
    BlockShares(history[WindowStart(history)..])
  }

  predicate ValidBits(shares: seq<Workshare>) {
    forall s :: s in shares ==> WorkshareWeight(s.candidateHeader.bits).Ok?
  }

  function WeightOrZero(s: Workshare): nat {
    match WorkshareWeight(s.candidateHeader.bits)
    case Ok(w) => w
    case Err(_) => 0
  }

  /** The work an address contributed: a plain sum. */
  function WeightOf(shares: seq<Workshare>, a: Address): nat {
    if shares == [] then 0
    else
      var last := shares[|shares| - 1];
      WeightOf(shares[..|shares| - 1], a) + if last.miner == a then WeightOrZero(last) else 0
  }

  function Miners(shares: seq<Workshare>): set<Address> {
    set s | s in shares :: s.miner
  }

  function Weights(shares: seq<Workshare>): map<Address, nat> {
    map a | a in Miners(shares) :: WeightOf(shares, a)
  }

  // --------------------------------------------------------------- apportionment

  datatype Line = Line(address: Address, amount: nat, remainder: nat)

  predicate RanksBefore(l: Line, r: Line) {
    l.remainder > r.remainder || (l.remainder == r.remainder && l.address < r.address)
  }

  predicate AddressBefore(l: Line, r: Line) {
    l.address < r.address
  }

  function LineFor(pool: nat, total: nat, a: Address, weight: nat): Line
    requires total > 0
  {
    Line(a, Times(pool, weight) / total, Times(pool, weight) % total)
  }

  function Lines(pool: nat, total: nat, weights: map<Address, nat>, addresses: seq<Address>): (lines: seq<Line>)
    requires total > 0
    requires forall a :: a in addresses ==> a in weights
    ensures |lines| == |addresses|
    ensures forall i :: 0 <= i < |lines| ==> lines[i] == LineFor(pool, total, addresses[i], weights[addresses[i]])
  {
    seq(|addresses|, i requires 0 <= i < |addresses| => LineFor(pool, total, addresses[i], weights[addresses[i]]))
  }

  function AddressesOf(weights: map<Address, nat>): (addresses: seq<Address>)
    ensures Ascending(addresses)
    ensures forall a: Address :: a in addresses <==> a in weights
    ensures Elements(addresses) == weights.Keys
  {
    var s := Sorted(weights.Keys);
    assert forall i :: 0 <= i < |s| ==> s[i] in weights.Keys;
    s
  }

  function SumAmounts(lines: seq<Line>): nat {
    if lines == [] then 0 else SumAmounts(lines[..|lines| - 1]) + lines[|lines| - 1].amount
  }

  function SumRemainders(lines: seq<Line>): nat {
    if lines == [] then 0 else SumRemainders(lines[..|lines| - 1]) + lines[|lines| - 1].remainder
  }

  /** How many lines outrank this one. */
  function Outranking(lines: seq<Line>, x: Line): nat {
    |Earlier(RanksBefore, lines, x)|
  }

  function WithBonus(lines: seq<Line>, leftover: nat, x: Line): Line {
    if Outranking(lines, x) < leftover then x.(amount := x.amount + 1) else x
  }

  function Bumped(lines: seq<Line>, leftover: nat): (r: seq<Line>)
    ensures |r| == |lines|
    ensures forall i :: 0 <= i < |r| ==> r[i] == WithBonus(lines, leftover, lines[i])
  {
    seq(|lines|, i requires 0 <= i < |lines| => WithBonus(lines, leftover, lines[i]))
  }

  /** Positive amounts only, in the given order. */
  function Payouts(lines: seq<Line>): seq<(Address, nat)> {
    if lines == [] then []
    else
      var last := lines[|lines| - 1];
      Payouts(lines[..|lines| - 1]) + if last.amount > 0 then [(last.address, last.amount)] else []
  }

  /** Quota lines in address order. */
  ghost function QuotaLines(pool: nat, weights: map<Address, nat>): seq<Line>
    requires SumMap(weights) > 0
  {
    Lines(pool, SumMap(weights), weights, AddressesOf(weights))
  }

  ghost function Leftover(pool: nat, weights: map<Address, nat>): nat
    requires SumMap(weights) > 0
  {
    SatSub(pool, SumAmounts(QuotaLines(pool, weights)))
  }

  /** The lines after the leftover units went to the largest remainders. */
  ghost function FinalLines(pool: nat, weights: map<Address, nat>): seq<Line>
    requires SumMap(weights) > 0
  {
    Bumped(QuotaLines(pool, weights), Leftover(pool, weights))
  }

  function FinderBase(height: nat): nat {
    BlockSubsidy(height) * FINDER_SHARE_PERCENT / 100
  }

  function Pool(height: nat): (pool: nat)
    ensures FinderBase(height) + pool == BlockSubsidy(height)
    ensures height > 0 ==> pool > 0
  {
    BlockSubsidy(height) - FinderBase(height)
  }

  ghost function RewardAllocation(height: nat, fees: nat, history: seq<Block>): Result<Allocation, ConsensusError> {
    var shares := WindowShares(history);
    if fees > MAX_MONEY then Err(MoneyRange)
    else if !ValidBits(shares) then Err(InvalidTarget)
    else
      var weights := Weights(shares);
      if Pool(height) == 0 || SumMap(weights) == 0 then Ok(Allocation(BlockSubsidy(height) + fees, []))
      else Ok(Allocation(FinderBase(height) + fees, Payouts(FinalLines(Pool(height), weights))))
  }

  // ------------------------------------------------------------------- quota sums

  lemma StrictOrders()
    ensures StrictOrder(RanksBefore) && StrictOrder(AddressBefore)
  {
  }

  function SumOver(weights: map<Address, nat>, addresses: seq<Address>): nat
    requires forall a :: a in addresses ==> a in weights
  {
    if addresses == [] then 0
    else SumOver(weights, addresses[..|addresses| - 1]) + weights[addresses[|addresses| - 1]]
  }

  lemma {:induction false} SumOverKeys(weights: map<Address, nat>, addresses: seq<Address>)
    requires Ascending(addresses)
    requires Elements(addresses) == weights.Keys
    ensures SumOver(weights, addresses) == SumMap(weights)
    decreases |addresses|
  {
    if addresses == [] {
      assert weights == map[];
    } else {
      hide SumMap;
      var front, last := addresses[..|addresses| - 1], addresses[|addresses| - 1];
      var rest := weights - {last};
      SumMapRemove(weights, last);
      assert Elements(front) == rest.Keys by {
        assert addresses == front + [last];
        assert Elements(addresses) == Elements(front) + {last};
        assert last !in front;
      }
      SumOverKeys(rest, front);
      SumOverSame(weights, rest, front);
    }
  }

  lemma {:induction false} SumOverSame(v: map<Address, nat>, w: map<Address, nat>, addresses: seq<Address>)
    requires forall a :: a in addresses ==> a in v && a in w && v[a] == w[a]
    ensures SumOver(v, addresses) == SumOver(w, addresses)
  {
    if addresses != [] {
      SumOverSame(v, w, addresses[..|addresses| - 1]);
    }
  }

  lemma AccountStep(paid: nat, rest: nat, pool: nat, sum: nat, weight: nat, total: nat)
    requires total > 0 && paid * total + rest == pool * sum
    ensures (paid + pool * weight / total) * total + (rest + pool * weight % total) == pool * (sum + weight)
  {
    var n := pool * weight;
    DivMod(n, total);
    assert (paid + n / total) * total == paid * total + n / total * total;
    assert pool * (sum + weight) == pool * sum + n;
  }

  /** Quotients and remainders account for pool times weight, line by line. */
  lemma {:induction false} LinesAccount(pool: nat, total: nat, weights: map<Address, nat>, addresses: seq<Address>)
    requires total > 0
    requires forall a :: a in addresses ==> a in weights
    ensures var lines := Lines(pool, total, weights, addresses);
            SumAmounts(lines) * total + SumRemainders(lines) == pool * SumOver(weights, addresses)
  {
    if addresses != [] {
      var front, a := addresses[..|addresses| - 1], addresses[|addresses| - 1];
      LinesAccount(pool, total, weights, front);
      var lines, before := Lines(pool, total, weights, addresses), Lines(pool, total, weights, front);
      assert lines[..|lines| - 1] == before;
      AccountStep(SumAmounts(before), SumRemainders(before), pool, SumOver(weights, front), weights[a], total);
    }
  }

  lemma {:induction false} RemaindersBelow(lines: seq<Line>, total: nat)
    requires forall l :: l in lines ==> l.remainder < total
    ensures SumRemainders(lines) + |lines| <= |lines| * total
  {
    if lines != [] {
      RemaindersBelow(lines[..|lines| - 1], total);
      assert |lines| * total == (|lines| - 1) * total + total;
    }
  }

  /** Why a remainder sum below `n` whole shares leaves fewer than `n` units. */
  lemma LeftoverArithmetic(pool: nat, paid: nat, remainders: nat, total: nat, n: nat)
    requires total > 0 && n > 0
    requires paid * total + remainders == pool * total
    requires remainders + n <= n * total
    ensures paid <= pool && pool - paid < n && remainders == (pool - paid) * total
  {
    if paid > pool {
      MulStrict(pool, paid, total);
      assert false;
    }
    assert (pool - paid) * total == pool * total - paid * total;
    if pool - paid >= n {
      MulMono(n, pool - paid, total);
    }
  }

  lemma QuotaLinesAccount(pool: nat, weights: map<Address, nat>)
    requires SumMap(weights) > 0
    ensures var lines := QuotaLines(pool, weights);
            && |lines| > 0
            && (forall l :: l in lines ==> l.remainder < SumMap(weights))
            && SumAmounts(lines) * SumMap(weights) + SumRemainders(lines) == pool * SumMap(weights)
  {
    var addresses := AddressesOf(weights);
    SumOverKeys(weights, addresses);
    hide SumMap, AddressesOf, SumAmounts, SumRemainders;
    LinesAccount(pool, SumMap(weights), weights, addresses);
  }

  /** Nothing is over-distributed, and the leftover is fewer units than there are lines. */
  lemma LeftoverFacts(pool: nat, weights: map<Address, nat>)
    requires SumMap(weights) > 0
    ensures SumAmounts(QuotaLines(pool, weights)) + Leftover(pool, weights) == pool
    ensures Leftover(pool, weights) < |QuotaLines(pool, weights)|
    ensures SumRemainders(QuotaLines(pool, weights)) == Leftover(pool, weights) * SumMap(weights)
  {
    hide SumMap, QuotaLines, SumAmounts, SumRemainders;
    var lines := QuotaLines(pool, weights);
    QuotaLinesAccount(pool, weights);
    RemaindersBelow(lines, SumMap(weights));
    LeftoverArithmetic(pool, SumAmounts(lines), SumRemainders(lines), SumMap(weights), |lines|);
  }

  // ----------------------------------------------------- the algorithm is the definition

  function BumpFirst(lines: seq<Line>, k: nat): (r: seq<Line>)
    ensures |r| == |lines|
    ensures forall i :: 0 <= i < |r| ==> r[i] == if i < k then lines[i].(amount := lines[i].amount + 1) else lines[i]
  {
    seq(|lines|, i requires 0 <= i < |lines| => if i < k then lines[i].(amount := lines[i].amount + 1) else lines[i])
  }

  /** A ranking of the lines: the same lines, one per address, in rank order. */
  ghost predicate Ranking(lines: seq<Line>, ranked: seq<Line>) {
    && SortedBy(RanksBefore, ranked)
    && (forall x :: x in ranked <==> x in lines)
    && (forall p, q :: 0 <= p < q < |ranked| ==> ranked[p].address != ranked[q].address)
  }

  lemma SortRanks(lines: seq<Line>)
    requires SortedBy(AddressBefore, lines)
    ensures Ranking(lines, SortBy(RanksBefore, lines))
  {
    var ranked := SortBy(RanksBefore, lines);
    StrictOrders();
    assert TotalOn(RanksBefore, lines) by {
      forall i, j | 0 <= i < j < |lines| ensures RanksBefore(lines[i], lines[j]) || RanksBefore(lines[j], lines[i]) {
        assert AddressBefore(lines[i], lines[j]);
      }
    }
    SortBySorts(RanksBefore, lines);
    SameElements(ranked, lines);
    RankedAddressesDiffer(lines, ranked);
  }

  lemma RankedAddressesDiffer(lines: seq<Line>, ranked: seq<Line>)
    requires SortedBy(AddressBefore, lines) && SortedBy(RanksBefore, ranked)
    requires forall x :: x in ranked <==> x in lines
    ensures forall p, q :: 0 <= p < q < |ranked| ==> ranked[p].address != ranked[q].address
  {
    forall p, q | 0 <= p < q < |ranked| ensures ranked[p].address != ranked[q].address {
      assert RanksBefore(ranked[p], ranked[q]);
      assert ranked[p] in lines && ranked[q] in lines;
      var i :| 0 <= i < |lines| && lines[i] == ranked[p];
      var j :| 0 <= j < |lines| && lines[j] == ranked[q];
      assert i != j;
      assert i < j ==> AddressBefore(lines[i], lines[j]);
      assert j < i ==> AddressBefore(lines[j], lines[i]);
    }
  }

  lemma RankOf(lines: seq<Line>, ranked: seq<Line>, p: nat)
    requires Ranking(lines, ranked) && p < |ranked|
    ensures Outranking(lines, ranked[p]) == p
  {
    StrictOrders();
    RankIsPosition(RanksBefore, ranked, p);
    assert Earlier(RanksBefore, ranked, ranked[p]) == Earlier(RanksBefore, lines, ranked[p]);
  }

  /** After ranking, the first `leftover` positions are exactly the lines that earn a bonus, so
      bumping a prefix of the ranking and bumping line by line touch the same lines. */
  lemma SameBumpedLines(lines: seq<Line>, ranked: seq<Line>, leftover: nat)
    requires Ranking(lines, ranked)
    ensures forall x :: x in BumpFirst(ranked, leftover) <==> x in Bumped(lines, leftover)
  {
    var bumped, r := BumpFirst(ranked, leftover), Bumped(lines, leftover);
    hide Outranking;
    forall x ensures x in bumped <==> x in r {
      if x in bumped {
        var p :| 0 <= p < |bumped| && bumped[p] == x;
        RankOf(lines, ranked, p);
        assert ranked[p] in lines;
        var i :| 0 <= i < |lines| && lines[i] == ranked[p];
        assert r[i] == x;
      }
      if x in r {
        var i :| 0 <= i < |r| && r[i] == x;
        assert lines[i] in ranked;
        var p :| 0 <= p < |ranked| && ranked[p] == lines[i];
        RankOf(lines, ranked, p);
        assert bumped[p] == x;
      }
    }
  }

  lemma BumpedAddressesDiffer(lines: seq<Line>, ranked: seq<Line>, leftover: nat)
    requires Ranking(lines, ranked)
    ensures TotalOn(AddressBefore, BumpFirst(ranked, leftover))
  {
    var bumped := BumpFirst(ranked, leftover);
    forall p, q | 0 <= p < q < |bumped| ensures AddressBefore(bumped[p], bumped[q]) || AddressBefore(bumped[q], bumped[p]) {
      assert bumped[p].address == ranked[p].address && bumped[q].address == ranked[q].address;
    }
  }

  lemma BumpedKeepsAddresses(lines: seq<Line>, leftover: nat)
    requires SortedBy(AddressBefore, lines)
    ensures SortedBy(AddressBefore, Bumped(lines, leftover))
  {
    var r := Bumped(lines, leftover);
    forall i, j | 0 <= i < j < |r| ensures AddressBefore(r[i], r[j]) {
      assert AddressBefore(lines[i], lines[j]);
    }
  }

  /** Rank, bump a prefix, sort back by address: the result is the line-by-line definition. */
  lemma SortBumpSort(lines: seq<Line>, leftover: nat)
    requires SortedBy(AddressBefore, lines)
    ensures SortBy(AddressBefore, BumpFirst(SortBy(RanksBefore, lines), leftover)) == Bumped(lines, leftover)
  {
    hide *;
    var ranked := SortBy(RanksBefore, lines);
    var bumped := BumpFirst(ranked, leftover);
    StrictOrders();
    SortRanks(lines);
    SameBumpedLines(lines, ranked, leftover);
    BumpedAddressesDiffer(lines, ranked, leftover);
    BumpedKeepsAddresses(lines, leftover);
    SortBySorts(AddressBefore, bumped);
    SameElements(SortBy(AddressBefore, bumped), bumped);
    SortedUnique(AddressBefore, SortBy(AddressBefore, bumped), Bumped(lines, leftover));
  }

  lemma {:induction false} SumInsert(before: (Line, Line) -> bool, x: Line, s: seq<Line>)
    ensures SumAmounts(Insert(before, x, s)) == SumAmounts(s) + x.amount
    ensures SumRemainders(Insert(before, x, s)) == SumRemainders(s) + x.remainder
  {
    if s == [] {
      assert [x][..0] == [];
    } else if before(x, s[0]) {
      SumCons(x, s);
    } else {
      SumInsert(before, x, s[1..]);
      SumCons(s[0], Insert(before, x, s[1..]));
      SumCons(s[0], s[1..]);
      assert s == [s[0]] + s[1..];
    }
  }

  lemma {:induction false} SumCons(x: Line, s: seq<Line>)
    ensures SumAmounts([x] + s) == x.amount + SumAmounts(s)
    ensures SumRemainders([x] + s) == x.remainder + SumRemainders(s)
  {
    if s == [] {
      assert ([x] + s)[..0] == [];
    } else {
      SumCons(x, s[..|s| - 1]);
      assert ([x] + s)[..|s|] == [x] + s[..|s| - 1];
    }
  }

  lemma {:induction false} SumSort(before: (Line, Line) -> bool, s: seq<Line>)
    ensures SumAmounts(SortBy(before, s)) == SumAmounts(s)
    ensures SumRemainders(SortBy(before, s)) == SumRemainders(s)
  {
    if s != [] {
      SumSort(before, s[1..]);
      SumInsert(before, s[0], SortBy(before, s[1..]));
      SumCons(s[0], s[1..]);
      assert s == [s[0]] + s[1..];
    }
  }

  lemma {:induction false} SumBumpFirst(lines: seq<Line>, k: nat)
    ensures SumAmounts(BumpFirst(lines, k)) == SumAmounts(lines) + Min(k, |lines|)
  {
    if lines != [] {
      var front := lines[..|lines| - 1];
      SumBumpFirst(front, k);
      assert BumpFirst(lines, k)[..|lines| - 1] == BumpFirst(front, k);
    }
  }

  lemma QuotaLinesOrdered(pool: nat, weights: map<Address, nat>)
    requires SumMap(weights) > 0
    ensures SortedBy(AddressBefore, QuotaLines(pool, weights))
  {
    hide SumMap;
  }

  // --------------------------------------------------------------------- guarantees

  function SumPayouts(p: seq<(Address, nat)>): nat {
    if p == [] then 0 else SumPayouts(p[..|p| - 1]) + p[|p| - 1].1
  }

  function AllocationTotal(a: Allocation): nat {
    a.finderAmount + SumPayouts(a.workshareRewards)
  }

  lemma {:induction false} PayoutsSum(lines: seq<Line>)
    ensures SumPayouts(Payouts(lines)) == SumAmounts(lines)
  {
    if lines != [] {
      var front, last := lines[..|lines| - 1], lines[|lines| - 1];
      PayoutsSum(front);
      if last.amount > 0 {
        assert Payouts(lines)[..|Payouts(lines)| - 1] == Payouts(front);
      } else {
        assert Payouts(lines) == Payouts(front);
      }
    }
  }

  /** The final lines distribute the pool to the last unit. */
  lemma FinalLinesSum(pool: nat, weights: map<Address, nat>)
    requires SumMap(weights) > 0
    ensures SumAmounts(FinalLines(pool, weights)) == pool
  {
    var lines, leftover := QuotaLines(pool, weights), Leftover(pool, weights);
    LeftoverFacts(pool, weights);
    QuotaLinesOrdered(pool, weights);
    hide QuotaLines, Leftover, SumAmounts, SumRemainders;
    SortBumpSort(lines, leftover);
    SumSort(RanksBefore, lines);
    SumBumpFirst(SortBy(RanksBefore, lines), leftover);
    SumSort(AddressBefore, BumpFirst(SortBy(RanksBefore, lines), leftover));
  }

  /** Exactly subsidy plus fees is allocated, whatever the window holds. */
  lemma AllocationIsExact(height: nat, fees: nat, history: seq<Block>)
    requires RewardAllocation(height, fees, history).Ok?
    ensures AllocationTotal(RewardAllocation(height, fees, history).value) == BlockSubsidy(height) + fees
  {
    var weights := Weights(WindowShares(history));
    if Pool(height) != 0 && SumMap(weights) != 0 {
      FinalLinesSum(Pool(height), weights);
      PayoutsSum(FinalLines(Pool(height), weights));
    }
  }

  /** What one address receives from the share pool. */
  function PaidTo(p: seq<(Address, nat)>, a: Address): nat {
    if p == [] then 0
    else if p[0].0 == a then p[0].1
    else PaidTo(p[1..], a)
  }

  ghost predicate AscendingPayouts(p: seq<(Address, nat)>) {
    && (forall i, j :: 0 <= i < j < |p| ==> p[i].0 < p[j].0)
    && (forall i :: 0 <= i < |p| ==> p[i].1 > 0)
  }

  predicate HasLine(lines: seq<Line>, a: Address, amount: nat) {
    exists i :: 0 <= i < |lines| && lines[i].address == a && lines[i].amount == amount
  }

  lemma {:induction false} PayoutsAreLines(lines: seq<Line>)
    ensures forall k :: 0 <= k < |Payouts(lines)| ==> Payouts(lines)[k].1 > 0 && HasLine(lines, Payouts(lines)[k].0, Payouts(lines)[k].1)
  {
    if lines != [] {
      var front, last := lines[..|lines| - 1], lines[|lines| - 1];
      PayoutsAreLines(front);
      var p := Payouts(lines);
      forall k | 0 <= k < |p| ensures p[k].1 > 0 && HasLine(lines, p[k].0, p[k].1) {
        if k < |Payouts(front)| {
          assert p[k] == Payouts(front)[k];
          assert HasLine(front, p[k].0, p[k].1);
          var i :| 0 <= i < |front| && front[i].address == p[k].0 && front[i].amount == p[k].1;
          assert lines[i] == front[i];
        } else {
          assert lines[|lines| - 1] == last;
        }
      }
    }
  }

  lemma {:induction false} LinesArePaid(lines: seq<Line>, i: nat)
    requires i < |lines| && lines[i].amount > 0
    ensures (lines[i].address, lines[i].amount) in Payouts(lines)
  {
    if i < |lines| - 1 {
      LinesArePaid(lines[..|lines| - 1], i);
    }
  }

  lemma {:induction false} PayoutsAscend(lines: seq<Line>)
    requires SortedBy(AddressBefore, lines)
    ensures AscendingPayouts(Payouts(lines))
  {
    if lines != [] {
      var front, last := lines[..|lines| - 1], lines[|lines| - 1];
      PayoutsAscend(front);
      PayoutsAreLines(front);
      var before := Payouts(front);
      forall k | 0 <= k < |before| ensures before[k].0 < last.address {
        assert HasLine(front, before[k].0, before[k].1);
        var i :| 0 <= i < |front| && front[i].address == before[k].0 && front[i].amount == before[k].1;
        assert AddressBefore(lines[i], last);
      }
    }
  }

  lemma {:induction false} PaidToMember(p: seq<(Address, nat)>, a: Address, amount: nat)
    requires AscendingPayouts(p)
    ensures (a, amount) in p ==> PaidTo(p, a) == amount
    ensures (forall k :: 0 <= k < |p| ==> p[k].0 != a) ==> PaidTo(p, a) == 0
  {
    if p != [] {
      PaidToMember(p[1..], a, amount);
      assert forall x :: x in p[1..] ==> x in p;
      if (a, amount) in p && p[0].0 == a {
        var i :| 0 <= i < |p| && p[i] == (a, amount);
        assert i > 0 ==> p[0].0 < p[i].0;
      }
    }
  }

  /** The entitlement of an address: its final line, or nothing without weight. */
  ghost function Entitlement(pool: nat, weights: map<Address, nat>, a: Address): nat
    requires SumMap(weights) > 0
  {
    if a in weights then
      WithBonus(QuotaLines(pool, weights), Leftover(pool, weights), LineFor(pool, SumMap(weights), a, weights[a])).amount
    else 0
  }

  lemma OneLinePerAddress(final: seq<Line>, i: nat)
    requires SortedBy(AddressBefore, final) && i < |final|
    ensures PaidTo(Payouts(final), final[i].address) == final[i].amount
  {
    var p, a := Payouts(final), final[i].address;
    PayoutsAscend(final);
    if final[i].amount > 0 {
      LinesArePaid(final, i);
    } else {
      PayoutsAreLines(final);
      forall k | 0 <= k < |p| ensures p[k].0 != a {
        assert HasLine(final, p[k].0, p[k].1);
        var j :| 0 <= j < |final| && final[j].address == p[k].0 && final[j].amount == p[k].1;
        assert j < i ==> AddressBefore(final[j], final[i]);
        assert i < j ==> AddressBefore(final[i], final[j]);
      }
    }
    PaidToMember(p, a, final[i].amount);
  }

  lemma NoLineNoPayout(final: seq<Line>, a: Address)
    requires SortedBy(AddressBefore, final) && forall i :: 0 <= i < |final| ==> final[i].address != a
    ensures PaidTo(Payouts(final), a) == 0
  {
    var p := Payouts(final);
    PayoutsAscend(final);
    PayoutsAreLines(final);
    forall k | 0 <= k < |p| ensures p[k].0 != a {
      assert HasLine(final, p[k].0, p[k].1);
    }
    PaidToMember(p, a, 0);
  }

  lemma PaidIsEntitlement(pool: nat, weights: map<Address, nat>, a: Address)
    requires SumMap(weights) > 0
    ensures PaidTo(Payouts(FinalLines(pool, weights)), a) == Entitlement(pool, weights, a)
  {
    hide SumMap, WithBonus, Payouts, PaidTo;
    var lines, leftover := QuotaLines(pool, weights), Leftover(pool, weights);
    var final := FinalLines(pool, weights);
    QuotaLinesOrdered(pool, weights);
    BumpedKeepsAddresses(lines, leftover);
    var addresses := AddressesOf(weights);
    if a in weights {
      var i :| 0 <= i < |addresses| && addresses[i] == a;
      assert lines[i] == LineFor(pool, SumMap(weights), a, weights[a]);
      BonusKeepsAddress(lines, leftover, lines[i]);
      OneLinePerAddress(final, i);
    } else {
      forall j | 0 <= j < |final| ensures final[j].address != a {
        BonusKeepsAddress(lines, leftover, lines[j]);
        assert addresses[j] in addresses;
      }
      NoLineNoPayout(final, a);
    }
  }

  lemma BonusKeepsAddress(lines: seq<Line>, leftover: nat, x: Line)
    ensures WithBonus(lines, leftover, x).address == x.address
  {
  }

  /** The output is sorted by address, free of duplicates, and positive. */
  lemma AllocationIsOrdered(height: nat, fees: nat, history: seq<Block>)
    requires RewardAllocation(height, fees, history).Ok?
    ensures AscendingPayouts(RewardAllocation(height, fees, history).value.workshareRewards)
  {
    var weights := Weights(WindowShares(history));
    if Pool(height) != 0 && SumMap(weights) != 0 {
      QuotaLinesOrdered(Pool(height), weights);
      BumpedKeepsAddresses(QuotaLines(Pool(height), weights), Leftover(Pool(height), weights));
      PayoutsAscend(FinalLines(Pool(height), weights));
    }
  }

  /** A line without remainder cannot be among the first `leftover` of the ranking. */
  lemma ZeroRemainderRanksLate(lines: seq<Line>, leftover: nat, total: nat, x: Line)
    requires SortedBy(AddressBefore, lines) && x in lines && total > 0
    requires forall l :: l in lines ==> l.remainder < total
    requires SumRemainders(lines) == leftover * total
    requires x.remainder == 0
    ensures Outranking(lines, x) >= leftover
  {
    var ranked := SortBy(RanksBefore, lines);
    SortRanks(lines);
    SumSort(RanksBefore, lines);
    hide SortBy, SumRemainders, Outranking;
    var p :| 0 <= p < |ranked| && ranked[p] == x;
    RankOf(lines, ranked, p);
    TailWithoutRemainder(ranked, p);
    RemaindersBelow(ranked[..p], total);
    if p < leftover {
      MulStrict(p, leftover, total);
    }
  }

  /** A bonus is only ever a rounding up: a line that earns one has a nonzero remainder. */
  lemma BonusNeedsRemainder(pool: nat, weights: map<Address, nat>, x: Line)
    requires SumMap(weights) > 0
    requires x in QuotaLines(pool, weights)
    requires Outranking(QuotaLines(pool, weights), x) < Leftover(pool, weights)
    ensures x.remainder > 0
  {
    hide SumMap, QuotaLines, Leftover, SumRemainders, Outranking;
    LeftoverFacts(pool, weights);
    QuotaLinesAccount(pool, weights);
    QuotaLinesOrdered(pool, weights);
    if x.remainder == 0 {
      ZeroRemainderRanksLate(QuotaLines(pool, weights), Leftover(pool, weights), SumMap(weights), x);
    }
  }

  lemma {:induction false} TailWithoutRemainder(ranked: seq<Line>, p: nat)
    requires SortedBy(RanksBefore, ranked) && p < |ranked| && ranked[p].remainder == 0
    ensures SumRemainders(ranked) == SumRemainders(ranked[..p])
    decreases |ranked|
  {
    var front := ranked[..|ranked| - 1];
    assert p < |ranked| - 1 ==> RanksBefore(ranked[p], ranked[|ranked| - 1]);
    if p == |ranked| - 1 {
      assert ranked[..p] == front;
    } else {
      TailWithoutRemainder(front, p);
      assert front[..p] == ranked[..p];
    }
  }

  lemma QuotaArithmetic(n: nat, total: nat, bonus: bool)
    requires total > 0 && (bonus ==> n % total > 0)
    ensures var got := n / total + if bonus then 1 else 0;
            got * total < n + total && n < got * total + total
  {
    DivMod(n, total);
    assert (n / total + 1) * total == n / total * total + total;
  }

  lemma LineOf(pool: nat, weights: map<Address, nat>, a: Address)
    requires SumMap(weights) > 0 && a in weights
    ensures LineFor(pool, SumMap(weights), a, weights[a]) in QuotaLines(pool, weights)
  {
    hide SumMap;
    var addresses := AddressesOf(weights);
    var i :| 0 <= i < |addresses| && addresses[i] == a;
    assert QuotaLines(pool, weights)[i] == LineFor(pool, SumMap(weights), a, weights[a]);
  }

  /** Every address receives its exact quota pool * weight / total, rounded down or rounded up. */
  lemma QuotaRule(pool: nat, weights: map<Address, nat>, a: Address)
    requires SumMap(weights) > 0 && a in weights
    ensures var total := SumMap(weights);
            var got := Entitlement(pool, weights, a);
            && got * total < pool * weights[a] + total
            && pool * weights[a] < got * total + total
  {
    hide SumMap, QuotaLines, Leftover, Outranking;
    var x := LineFor(pool, SumMap(weights), a, weights[a]);
    LineOf(pool, weights, a);
    var bonus := Outranking(QuotaLines(pool, weights), x) < Leftover(pool, weights);
    if bonus {
      BonusNeedsRemainder(pool, weights, x);
    }
    QuotaArithmetic(pool * weights[a], SumMap(weights), bonus);
  }

  lemma RemainderOrder(n: nat, m: nat, d: nat)
    requires d > 0 && n > m && n / d == m / d
    ensures n % d > m % d
  {
    DivMod(n, d);
    DivMod(m, d);
  }

  /** More weight never earns less. */
  lemma MoreWeightNeverLess(pool: nat, weights: map<Address, nat>, a: Address, b: Address)
    requires SumMap(weights) > 0
    requires a in weights && b in weights && weights[a] > weights[b]
    ensures Entitlement(pool, weights, a) >= Entitlement(pool, weights, b)
  {
    if pool == 0 {
      NothingToShare(weights, b);
      return;
    }
    var total := SumMap(weights);
    var x, y := LineFor(pool, total, a, weights[a]), LineFor(pool, total, b, weights[b]);
    var lines := QuotaLines(pool, weights);
    MulStrict(weights[b], weights[a], pool);
    assert pool * weights[b] < pool * weights[a];
    DivMono(pool * weights[b], pool * weights[a], total);
    if x.amount == y.amount {
      RemainderOrder(pool * weights[a], pool * weights[b], total);
      LineOf(pool, weights, a);
      OutrankingMono(lines, x, y);
    }
  }

  lemma NothingToShare(weights: map<Address, nat>, a: Address)
    requires SumMap(weights) > 0 && a in weights
    ensures Entitlement(0, weights, a) == 0
  {
    QuotaRule(0, weights, a);
    hide Entitlement, SumMap;
    var total, got := SumMap(weights), Entitlement(0, weights, a);
    assert 0 * weights[a] == 0;
    if got >= 1 {
      MulMono(1, got, total);
    }
  }

  lemma OutrankingMono(lines: seq<Line>, x: Line, y: Line)
    requires x in lines && RanksBefore(x, y)
    ensures Outranking(lines, x) < Outranking(lines, y)
  {
    var s, t := Earlier(RanksBefore, lines, x), Earlier(RanksBefore, lines, y);
    assert s <= t;
    assert x in t - s;
    assert |t| == |s| + |t - s|;
  }

  // ------------------------------------------------------- order of shares is irrelevant

  lemma {:induction false} WeightOfRemove(shares: seq<Workshare>, i: nat, a: Address)
    requires i < |shares|
    ensures WeightOf(shares, a)
         == WeightOf(shares[..i] + shares[i + 1..], a) + if shares[i].miner == a then WeightOrZero(shares[i]) else 0
  {
    hide WeightOrZero;
    var n := |shares|;
    if i == n - 1 {
      assert shares[..i] + shares[i + 1..] == shares[..n - 1];
    } else {
      var front := shares[..n - 1];
      WeightOfRemove(front, i, a);
      var rest := shares[..i] + shares[i + 1..];
      assert rest[..|rest| - 1] == front[..i] + front[i + 1..];
      assert rest[|rest| - 1] == shares[n - 1];
    }
  }

  lemma {:induction false} WeightOfPermutes(s: seq<Workshare>, t: seq<Workshare>, a: Address)
    requires multiset(s) == multiset(t)
    ensures WeightOf(s, a) == WeightOf(t, a)
    decreases |s|
  {
    hide WeightOrZero;
    if s == [] {
      assert |multiset(t)| == 0;
    } else {
      var front, last := s[..|s| - 1], s[|s| - 1];
      assert s == front + [last];
      SameElements(s, t);
      assert last in t;
      var i :| 0 <= i < |t| && t[i] == last;
      RemoveAt(t, i);
      RemoveAt(s, |s| - 1);
      assert s[..|s| - 1] + s[|s|..] == front;
      assert multiset(front) == multiset(s) - multiset{last};
      assert multiset(t[..i] + t[i + 1..]) == multiset(t) - multiset{last};
      WeightOfRemove(t, i, a);
      WeightOfPermutes(front, t[..i] + t[i + 1..], a);
    }
  }

  /** Histories whose windows hold the same shares, in any order, allocate alike. */
  lemma AllocationIgnoresShareOrder(height: nat, fees: nat, h: seq<Block>, g: seq<Block>)
    requires multiset(WindowShares(h)) == multiset(WindowShares(g))
    ensures RewardAllocation(height, fees, h) == RewardAllocation(height, fees, g)
  {
    var s, t := WindowShares(h), WindowShares(g);
    SameElements(s, t);
    assert Miners(s) == Miners(t);
    forall a ensures WeightOf(s, a) == WeightOf(t, a) {
      WeightOfPermutes(s, t, a);
    }
    assert Weights(s) == Weights(t);
  }

  /** Fees reach the finder alone. */
  lemma FeesGoToFinder(height: nat, fees: nat, history: seq<Block>)
    requires RewardAllocation(height, fees, history).Ok?
    ensures RewardAllocation(height, 0, history).Ok?
    ensures RewardAllocation(height, 0, history).value.workshareRewards
         == RewardAllocation(height, fees, history).value.workshareRewards
    ensures RewardAllocation(height, fees, history).value.finderAmount
         == RewardAllocation(height, 0, history).value.finderAmount + fees
  {
  }

  // ------------------------------------------------------- the source's computation

  const SHARE_LIMIT: nat := 0x1_00000000_00000000_00000000_00000000
  const WEIGHT_LIMIT: nat := 0x1_00000000_00000000_00000000_00000000_00000000_00000000_00000000_00000000_00000000_00000000_00000000_00000000

  /** Vector lengths are machine words, so a window cannot hold more than 1440 * 2^64 shares. */
  predicate Addressable(history: seq<Block>) {
    forall i :: 0 <= i < |history| ==> |history[i].workshareWitness.workshares| <= U64_MAX
  }

  lemma {:induction false} BlockSharesBound(blocks: seq<Block>)
    requires Addressable(blocks)
    ensures |BlockShares(blocks)| <= |blocks| * U64_MAX
  {
    if blocks != [] {
      BlockSharesBound(blocks[..|blocks| - 1]);
    }
  }

  lemma WindowBound(history: seq<Block>)
    requires Addressable(history)
    ensures |WindowShares(history)| < SHARE_LIMIT
  {
    var window := history[WindowStart(history)..];
    BlockSharesBound(window);
    MulMono(|window|, REWARD_WINDOW, U64_MAX);
  }

  function TotalWeight(shares: seq<Workshare>): nat {
    if shares == [] then 0 else TotalWeight(shares[..|shares| - 1]) + WeightOrZero(shares[|shares| - 1])
  }

  lemma WeightOrZeroBound(s: Workshare)
    ensures WeightOrZero(s) < TWO_256
  {
    hide WorkshareWeight;
    if WorkshareWeight(s.candidateHeader.bits).Ok? {
      WeightBounds(s.candidateHeader.bits);
    }
  }

  lemma {:induction false} TotalWeightBound(shares: seq<Workshare>)
    ensures TotalWeight(shares) <= |shares| * TWO_256
  {
    hide WeightOrZero;
    if shares != [] {
      TotalWeightBound(shares[..|shares| - 1]);
      WeightOrZeroBound(shares[|shares| - 1]);
      assert |shares| * TWO_256 == (|shares| - 1) * TWO_256 + TWO_256;
    }
  }

  /** One more share changes the weight of its miner and nothing else. */
  lemma WeightsSnoc(shares: seq<Workshare>, s: Workshare)
    ensures Weights(shares + [s])
         == Weights(shares)[s.miner := (if s.miner in Weights(shares) then Weights(shares)[s.miner] else 0) + WeightOrZero(s)]
  {
    hide WeightOrZero;
    var more := shares + [s];
    assert more[..|more| - 1] == shares;
    assert Miners(more) == Miners(shares) + {s.miner} by {
      forall a ensures a in Miners(more) <==> a in Miners(shares) || a == s.miner {
        assert s in more;
        if a in Miners(shares) {
          var t :| t in shares && t.miner == a;
          assert t in more;
        }
      }
    }
    if s.miner !in Miners(shares) {
      NoSharesNoWeight(shares, s.miner);
    }
  }

  lemma {:induction false} NoSharesNoWeight(shares: seq<Workshare>, a: Address)
    requires a !in Miners(shares)
    ensures WeightOf(shares, a) == 0
  {
    hide WeightOrZero;
    if shares != [] {
      var front := shares[..|shares| - 1];
      assert shares[|shares| - 1] in shares;
      forall t | t in front ensures t.miner != a {
        assert t in shares;
      }
      NoSharesNoWeight(front, a);
    }
  }

  lemma WeightsSumStep(front: seq<Workshare>, last: Workshare)
    ensures SumMap(Weights(front + [last])) == SumMap(Weights(front)) + WeightOrZero(last)
  {
    hide WeightOrZero, Weights;
    WeightsSnoc(front, last);
    var w := Weights(front);
    var v := (if last.miner in w then w[last.miner] else 0) + WeightOrZero(last);
    SumMapUpdate<Address>(w, last.miner, v);
    assert Weights(front + [last]) == w[last.miner := v];
  }

  lemma {:induction false} WeightsSum(shares: seq<Workshare>)
    ensures SumMap(Weights(shares)) == TotalWeight(shares)
  {
    if shares == [] {
      assert Miners(shares) == {};
      assert Weights(shares) == map[];
      assert SumMap(Weights(shares)) == 0;
    } else {
      var front, last := shares[..|shares| - 1], shares[|shares| - 1];
      WeightsSum(front);
      WeightsSumStep(front, last);
      assert shares == front + [last];
    }
  }

  lemma WeightsBound(shares: seq<Workshare>)
    requires |shares| < SHARE_LIMIT
    ensures SumMap(Weights(shares)) < WEIGHT_LIMIT
    ensures forall a :: a in Weights(shares) ==> Weights(shares)[a] < WEIGHT_LIMIT
  {
    hide SumMap, Weights;
    WeightsSum(shares);
    TotalWeightBound(shares);
    MulStrict(|shares|, SHARE_LIMIT, TWO_256);
    forall a | a in Weights(shares) ensures Weights(shares)[a] < WEIGHT_LIMIT {
      SumMapMember(Weights(shares), a);
    }
  }

  lemma WidthFacts(pool: nat, weight: nat, w: nat)
    requires pool <= U64_MAX && weight < WEIGHT_LIMIT && w < TWO_256
    ensures weight + w <= U512_MAX
    ensures Times(pool, weight) <= U512_MAX
  {
    MulMono(pool, U64_MAX, weight);
    MulMono(weight, WEIGHT_LIMIT, U64_MAX);
    assert U64_MAX * weight == weight * U64_MAX;
  }

  lemma ValidBitsPrefix(shares: seq<Workshare>, s: Workshare, rest: seq<Workshare>)
    ensures WorkshareWeight(s.candidateHeader.bits).Err? ==> !ValidBits(shares + [s] + rest)
    ensures WorkshareWeight(s.candidateHeader.bits).Ok? && ValidBits(shares) ==> ValidBits(shares + [s])
  {
    hide WorkshareWeight;
    assert s in shares + [s] + rest;
  }

  lemma {:induction false} BlockSharesSplit(blocks: seq<Block>, i: nat)
    requires i < |blocks|
    ensures BlockShares(blocks[..i + 1]) == BlockShares(blocks[..i]) + blocks[i].workshareWitness.workshares
    ensures BlockShares(blocks[..i + 1]) <= BlockShares(blocks)
    decreases |blocks| - i
  {
    assert blocks[..i + 1][..i] == blocks[..i];
    if i + 1 < |blocks| {
      BlockSharesSplit(blocks, i + 1);
    } else {
      assert blocks[..i + 1] == blocks;
    }
  }

  /** The inner loop: one block's shares added to the running map, saturating. */
  method AddBlockWeights(before: map<Address, nat>, ghost done: seq<Workshare>, shares: seq<Workshare>)
    returns (r: Result<map<Address, nat>, ConsensusError>)
    requires before == Weights(done) && ValidBits(done) && |done + shares| < SHARE_LIMIT
    ensures r.Ok? ==> r.value == Weights(done + shares) && ValidBits(done + shares)
    ensures r.Err? ==> r.error == InvalidTarget && forall rest :: !ValidBits(done + shares + rest)
  {
    hide Weights, ValidBits, WorkshareWeight;
    var weights := before;
    assert done + shares[..0] == done;
    for j := 0 to |shares|
      invariant weights == Weights(done + shares[..j]) && ValidBits(done + shares[..j])
    {
      var share := shares[j];
      ghost var sofar := done + shares[..j];
      assert done + shares[..j + 1] == sofar + [share];
      var weight := WorkshareWeight(share.candidateHeader.bits);
      ValidBitsPrefix(sofar, share, []);
      if weight.Err? {
        forall rest ensures !ValidBits(done + shares + rest) {
          ValidBitsPrefix(sofar, share, shares[j + 1..] + rest);
          assert done + shares + rest == sofar + [share] + (shares[j + 1..] + rest);
        }
        return Err(InvalidTarget);
      }
      WeightsBound(sofar);
      WeightBounds(share.candidateHeader.bits);
      var entry := if share.miner in weights then weights[share.miner] else 0;
      WidthFacts(0, entry, weight.value);
      WeightsSnoc(sofar, share);
      weights := weights[share.miner := SatAdd512(entry, weight.value)];
    }
    assert done + shares[..|shares|] == done + shares;
    return Ok(weights);
  }

  method FillWeights(blocks: seq<Block>) returns (r: Result<map<Address, nat>, ConsensusError>)
    requires |BlockShares(blocks)| < SHARE_LIMIT
    ensures r.Ok? ==> r.value == Weights(BlockShares(blocks)) && ValidBits(BlockShares(blocks))
    ensures r.Err? ==> r.error == InvalidTarget && !ValidBits(BlockShares(blocks))
  {
    var weights := map[];
    assert blocks[..0] == [];
    for i := 0 to |blocks|
      invariant weights == Weights(BlockShares(blocks[..i])) && ValidBits(BlockShares(blocks[..i]))
    {
      BlockSharesSplit(blocks, i);
      hide Weights, ValidBits, BlockShares;
      var next := AddBlockWeights(weights, BlockShares(blocks[..i]), blocks[i].workshareWitness.workshares);
      if next.Err? {
        ghost var known := BlockShares(blocks[..i + 1]);
        assert BlockShares(blocks) == known + BlockShares(blocks)[|known|..];
        return Err(next.error);
      }
      weights := next.value;
    }
    assert blocks[..|blocks|] == blocks;
    return Ok(weights);
  }

  lemma {:induction false} SumAmountsPrefix(lines: seq<Line>, n: nat)
    requires n <= |lines|
    ensures SumAmounts(lines[..n]) <= SumAmounts(lines)
    decreases |lines| - n
  {
    if n == |lines| {
      assert lines[..n] == lines;
    } else {
      assert lines[..n + 1][..n] == lines[..n];
      SumAmountsPrefix(lines, n + 1);
    }
  }

  lemma QuotaFits(pool: nat, total: nat, weights: map<Address, nat>, a: Address)
    requires total == SumMap(weights) > 0 && a in weights && pool <= U64_MAX
    ensures Times(pool, weights[a]) / total <= pool
  {
    hide SumMap;
    SumMapMember(weights, a);
    MulMono(weights[a], total, pool);
    DivMono(pool * weights[a], total * pool, total);
    MulDivExact(pool, total);
    assert total * pool == pool * total;
  }

  /** One quota: a 512-bit product, divided, with the quotient read back as 64 bits. */
  method QuotaLine(pool: nat, weights: map<Address, nat>, total: nat, a: Address) returns (line: Line)
    requires pool <= U64_MAX && total == SumMap(weights) > 0
    requires a in weights && weights[a] < WEIGHT_LIMIT
    ensures line == LineFor(pool, total, a, weights[a])
  {
    hide SumMap;
    WidthFacts(pool, weights[a], 0);
    var numerator := Times(pool, weights[a]);
    if numerator > U512_MAX {
      assert false;
    }
    QuotaFits(pool, total, weights, a);
    line := Line(a, numerator / total % 0x1_0000_0000_0000_0000, numerator % total);
  }

  lemma SumAmountsStep(all: seq<Line>, i: nat)
    requires i < |all|
    ensures all[..i + 1] == all[..i] + [all[i]]
    ensures SumAmounts(all[..i + 1]) == SumAmounts(all[..i]) + all[i].amount <= SumAmounts(all)
  {
    SumAmountsPrefix(all, i + 1);
    assert all[..i + 1][..i] == all[..i];
  }

  lemma QuotaAt(pool: nat, weights: map<Address, nat>, i: nat)
    requires SumMap(weights) > 0 && i < |AddressesOf(weights)|
    ensures |QuotaLines(pool, weights)| == |AddressesOf(weights)|
    ensures var a := AddressesOf(weights)[i];
            a in weights && QuotaLines(pool, weights)[i] == LineFor(pool, SumMap(weights), a, weights[a])
  {
    hide SumMap, LineFor;
    assert AddressesOf(weights)[i] in AddressesOf(weights);
  }

  lemma QuotaCount(pool: nat, weights: map<Address, nat>)
    requires SumMap(weights) > 0
    ensures |QuotaLines(pool, weights)| == |AddressesOf(weights)|
  {
    hide SumMap, LineFor;
  }

  /** The first pass: quotas and remainders in address order, with checked accumulation. */
  method Apportion(pool: nat, weights: map<Address, nat>, total: nat) returns (lines: seq<Line>, distributed: nat)
    requires pool <= U64_MAX && total == SumMap(weights) > 0
    requires forall a :: a in weights ==> weights[a] < WEIGHT_LIMIT
    ensures lines == QuotaLines(pool, weights)
    ensures distributed == SumAmounts(lines) <= pool
  {
    var addresses := AddressesOf(weights);
    ghost var all := QuotaLines(pool, weights);
    LeftoverFacts(pool, weights);
    QuotaCount(pool, weights);
    hide SumMap, SumAmounts, AddressesOf, LineFor, QuotaLines;
    lines, distributed := [], 0;
    NothingSumsToNothing(all);
    for i := 0 to |addresses|
      invariant lines == all[..i] && distributed == SumAmounts(all[..i])
    {
      QuotaAt(pool, weights, i);
      var line := QuotaLine(pool, weights, total, addresses[i]);
      SumAmountsStep(all, i);
      if distributed + line.amount > U64_MAX {
        assert false;
      }
      distributed := distributed + line.amount;
      lines := lines + [line];
    }
    assert all[..|addresses|] == all;
  }

  lemma NothingSumsToNothing(all: seq<Line>)
    ensures SumAmounts(all[..0]) == 0
  {
  }

  /** Apportion, rank, bump, sort back, drop zeros. */
  method Distribute(pool: nat, weights: map<Address, nat>, total: nat) returns (rewards: seq<(Address, nat)>)
    requires pool <= U64_MAX && total == SumMap(weights) > 0
    requires forall a :: a in weights ==> weights[a] < WEIGHT_LIMIT
    ensures rewards == Payouts(FinalLines(pool, weights))
  {
    hide SumMap, SumAmounts, SortBy, Payouts;
    var lines, distributed := Apportion(pool, weights, total);
    if distributed > pool {
      assert false;
    }
    var leftover := pool - distributed;
    QuotaLinesOrdered(pool, weights);
    hide QuotaLines;
    SortBumpSort(lines, leftover);
    var ranked := SortBy(RanksBefore, lines);
    var bumped := BumpInPlace(ranked, leftover);
    var back := SortBy(AddressBefore, bumped);
    rewards := KeepPositive(back);
  }

  method BumpInPlace(ranked: seq<Line>, leftover: nat) returns (r: seq<Line>)
    ensures r == BumpFirst(ranked, leftover)
  {
    r := ranked;
    for i := 0 to Min(leftover, |ranked|)
      invariant r == BumpFirst(ranked, i)
    {
      r := r[i := r[i].(amount := r[i].amount + 1)];
    }
  }

  method KeepPositive(lines: seq<Line>) returns (p: seq<(Address, nat)>)
    ensures p == Payouts(lines)
  {
    p := [];
    for i := 0 to |lines|
      invariant p == Payouts(lines[..i])
    {
      assert lines[..i + 1][..i] == lines[..i];
      if lines[i].amount > 0 {
        p := p + [(lines[i].address, lines[i].amount)];
      }
    }
    assert lines[..|lines|] == lines;
  }

  method SumSaturating(weights: map<Address, nat>) returns (total: nat)
    requires SumMap(weights) <= U512_MAX
    ensures total == SumMap(weights)
  {
    var addresses := AddressesOf(weights);
    SumOverKeys(weights, addresses);
    total := SumListed(weights, addresses);
  }

  method SumListed(weights: map<Address, nat>, addresses: seq<Address>) returns (total: nat)
    requires forall a :: a in addresses ==> a in weights
    requires SumOver(weights, addresses) <= U512_MAX
    ensures total == SumOver(weights, addresses)
  {
    total := 0;
    for i := 0 to |addresses|
      invariant total == SumOver(weights, addresses[..i])
    {
      assert addresses[..i + 1][..i] == addresses[..i];
      SumOverPrefix(weights, addresses, i + 1);
      total := SatAdd512(total, weights[addresses[i]]);
    }
    assert addresses[..|addresses|] == addresses;
  }

  lemma {:induction false} SumOverPrefix(weights: map<Address, nat>, addresses: seq<Address>, n: nat)
    requires forall a :: a in addresses ==> a in weights
    requires n <= |addresses|
    ensures SumOver(weights, addresses[..n]) <= SumOver(weights, addresses)
    decreases |addresses| - n
  {
    if n == |addresses| {
      assert addresses[..n] == addresses;
    } else {
      assert addresses[..n + 1][..n] == addresses[..n];
      SumOverPrefix(weights, addresses, n + 1);
    }
  }

  /** The weights of the window and their saturating total. */
  method WindowWeights(history: seq<Block>) returns (r: Result<(map<Address, nat>, nat), ConsensusError>)
    requires Addressable(history)
    ensures r.Err? ==> r.error == InvalidTarget && !ValidBits(WindowShares(history))
    ensures r.Ok? ==> ValidBits(WindowShares(history))
    ensures r.Ok? ==> r.value.0 == Weights(WindowShares(history)) && r.value.1 == SumMap(r.value.0)
    ensures r.Ok? ==> forall a :: a in r.value.0 ==> r.value.0[a] < WEIGHT_LIMIT
  {
    WindowBound(history);
    hide Weights, ValidBits, BlockShares, SumMap;
    var filled := FillWeights(history[WindowStart(history)..]);
    if filled.Err? {
      return Err(filled.error);
    }
    WeightsBound(WindowShares(history));
    var total := SumSaturating(filled.value);
    return Ok((filled.value, total));
  }

  lemma AllocationCases(height: nat, fees: nat, history: seq<Block>)
    ensures BlockSubsidy(height) + MAX_MONEY <= U64_MAX
    ensures Pool(height) <= U64_MAX && FinderBase(height) + Pool(height) == BlockSubsidy(height)
    ensures fees > MAX_MONEY ==> RewardAllocation(height, fees, history) == Err(MoneyRange)
    ensures fees <= MAX_MONEY && !ValidBits(WindowShares(history)) ==> RewardAllocation(height, fees, history) == Err(InvalidTarget)
    ensures fees <= MAX_MONEY && ValidBits(WindowShares(history)) ==>
              var weights := Weights(WindowShares(history));
              RewardAllocation(height, fees, history) ==
                if Pool(height) == 0 || SumMap(weights) == 0 then Ok(Allocation(FinderBase(height) + Pool(height) + fees, []))
                else Ok(Allocation(FinderBase(height) + fees, Payouts(FinalLines(Pool(height), weights))))
  {
    hide ValidBits, WindowShares, Weights, Payouts, FinalLines, SumMap, Pow2;
  }

  /** `reward_allocation`. Saturation, the checked sums and the final mismatch test are all present
      and all unreachable: the result is the reference allocation for every input. */
  method ComputeAllocation(height: nat, fees: nat, history: seq<Block>) returns (r: Result<Allocation, ConsensusError>)
    requires Addressable(history)
    ensures r == RewardAllocation(height, fees, history)
  {
    hide *;
    AllocationCases(height, fees, history);
    var subsidy := BlockSubsidy(height);
    if fees > MAX_MONEY || subsidy + fees > U64_MAX {
      return Err(MoneyRange);
    }
    var finderBase := FinderBase(height);
    var pool := Pool(height);
    var window := WindowWeights(history);
    if window.Err? {
      return Err(window.error);
    }
    var (weights, total) := window.value;
    if pool == 0 || total == 0 {
      return Ok(Allocation(finderBase + pool + fees, []));
    }
    var rewards := Distribute(pool, weights, total);
    var result := Allocation(finderBase + fees, rewards);
    AllocationIsExact(height, fees, history);
    if AllocationTotal(result) != subsidy + fees {
      assert false;
    }
    return Ok(result);
  }
}
