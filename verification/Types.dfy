/** Consensus objects (src/consensus/types.rs), their encoded sizes, and the environment of
    cryptographic functions the consensus code is written against. */
module Types {
  import opened Base
  import opened Params
  import opened Bytes
  import opened Difficulty
  import opened SparseMerkle

  /** A 32-byte hash, carried as its big-endian value so that byte order is `<`. */
  type Hash = nat

  const ZERO_HASH: Hash := 0

  datatype Transaction = Transaction(
    version: u16, sender: Address, recipient: Address, amount: u64, fee: u64, nonce: u64,
    publicKey: bytes, signature: bytes)

  datatype RewardClaim = RewardClaim(version: u16, height: u64, finder: Address, amount: u64, extranonce: u64)

  datatype BlockHeader = BlockHeader(
    version: u16, protocol: u16, height: u64, previousBlock: Hash, transactionsRoot: Hash,
    stateRoot: Hash, workshareRoot: Hash, timestamp: u64, bits: u32, nonce: u64)

  datatype BlockTemplate = BlockTemplate(version: u16, height: u64, parent: Hash, transactions: seq<Transaction>)

  datatype Workshare = Workshare(
    version: u16, previousWorkshare: Hash, templateId: Hash, miner: Address, extranonce: u64,
    candidateHeader: BlockHeader)

  datatype WorkshareWitness = WorkshareWitness(version: u16, templates: seq<BlockTemplate>, workshares: seq<Workshare>)

  datatype Block = Block(
    header: BlockHeader, rewardClaim: Option<RewardClaim>, transactions: seq<Transaction>,
    workshareWitness: WorkshareWitness)

  const TRANSACTION_VERSION: u16 := 1
  const CLAIM_VERSION: u16 := 1
  const TEMPLATE_VERSION: u16 := 1
  const WORKSHARE_VERSION: u16 := 1
  const WITNESS_VERSION: u16 := 1

  const EMPTY_WITNESS := WorkshareWitness(WITNESS_VERSION, [], [])

  datatype StateKey = AccountKey(address: Address) | PendingKey(maturity: u64, recipient: Address)

  datatype Seed = Bootstrap | Epoch(epoch: nat, reference: Hash)

  /** Hashes, signature checking and RandomX as fixed functions. */
  datatype Env = Env(
    txId: Transaction -> Hash,
    claimId: RewardClaim -> Hash,
    headerId: BlockHeader -> Hash,
    templateId: BlockTemplate -> Hash,
    shareId: Workshare -> Hash,
    witnessRoot: WorkshareWitness -> Hash,
    merkleEmpty: Hash,
    merkleNode: (Hash, Hash) -> Hash,
    tree: TreeHash,
    stateKey: StateKey -> Key,
    checksum: Checksum,
    genesisTransactionsRoot: Hash,
    signatureValid: Transaction -> bool,
    pow: (Seed, BlockHeader) -> Option<nat>)

  /** State-key hashes have the width of the tree. */
  ghost predicate KeysFit(env: Env) {
    forall k :: |env.stateKey(k)| == env.tree.depth
  }

  function BlockId(env: Env, block: Block): Hash {
    env.headerId(block.header)
  }

  datatype ConsensusError =
    | InvalidGenesis | UnsupportedVersion | WrongParent | WrongHeight | InvalidTimestamp | FutureTimestamp
    | InvalidTarget | InvalidProofOfWork | PowUnavailable | SizeLimit | TransactionRootMismatch
    | StateRootMismatch | WorkshareRootMismatch | NonCanonicalWitness | InvalidWorkshareChain
    | DuplicateTransaction | InvalidTransaction | InvalidNonce | InsufficientBalance | MoneyRange
    | CryptoFailure | RewardMismatch | ArithmeticOverflow | DifferentGenesis | StorageInvariant

  // --------------------------------------------------------------- encoded sizes

  function TransactionSize(tx: Transaction): nat {
    84 + |tx.publicKey| + |tx.signature|
  }

  function TransactionsSize(txs: seq<Transaction>): nat {
    if txs == [] then 0 else TransactionsSize(txs[..|txs| - 1]) + 4 + TransactionSize(txs[|txs| - 1])
  }

  function TemplateSize(t: BlockTemplate): nat {
    46 + TransactionsSize(t.transactions)
  }

  function TemplatesSize(ts: seq<BlockTemplate>): nat {
    if ts == [] then 0 else TemplatesSize(ts[..|ts| - 1]) + 4 + TemplateSize(ts[|ts| - 1])
  }

  const HEADER_SIZE: nat := 160
  const CLAIM_SIZE: nat := 51
  const WORKSHARE_SIZE: nat := 259

  function WitnessSize(w: WorkshareWitness): nat {
    10 + TemplatesSize(w.templates) + |w.workshares| * (4 + WORKSHARE_SIZE)
  }

  function BlockSize(b: Block): nat {
    HEADER_SIZE + 1 + (if b.rewardClaim.Some? then CLAIM_SIZE else 0) + 4 + TransactionsSize(b.transactions)
    + 4 + WitnessSize(b.workshareWitness)
  }

  // -------------------------------------------------------------------- hash ranges

  /** In the source a hash is 32 bytes by type; here that is a range. */
  predicate HashTyped(h: Hash) {
    h < TWO_256
  }

  predicate HeaderTyped(h: BlockHeader) {
    && HashTyped(h.previousBlock) && HashTyped(h.transactionsRoot) && HashTyped(h.stateRoot) && HashTyped(h.workshareRoot)
  }

  predicate WitnessTyped(w: WorkshareWitness) {
    && (forall t :: t in w.templates ==> HashTyped(t.parent))
    && (forall s :: s in w.workshares ==> HashTyped(s.previousWorkshare) && HashTyped(s.templateId) && HeaderTyped(s.candidateHeader))
  }

  predicate BlockTyped(b: Block) {
    HeaderTyped(b.header) && WitnessTyped(b.workshareWitness)
  }

  // --------------------------------------------------------------------- genesis

  function Genesis(env: Env): Block {
    EncodedTargetFits(INITIAL_TARGET);
    Block(
      BlockHeader(HEADER_VERSION, PROTOCOL_VERSION, 0, ZERO_HASH, env.genesisTransactionsRoot,
                  RootOf(env.tree, map[]), env.witnessRoot(EMPTY_WITNESS), GENESIS_TIMESTAMP,
                  TargetToBits(INITIAL_TARGET), 0),
      None, [], EMPTY_WITNESS)
  }

  lemma EncodedTargetFits(t: nat)
    requires t < TWO_256
    ensures TargetToBits(t) < 0x1_0000_0000
  {
    if t > 0 {
      EncoderNormalises(t);
      SizeAtMost33(t);
    }
  }

  // ------------------------------------------------------------- witness canonicity

  function TemplateIds(env: Env, templates: seq<BlockTemplate>): (ids: seq<Hash>)
    ensures |ids| == |templates|
    ensures forall i :: 0 <= i < |templates| ==> ids[i] == env.templateId(templates[i])
  {
    seq(|templates|, i requires 0 <= i < |templates| => env.templateId(templates[i]))
  }

  function Referenced(shares: seq<Workshare>): set<Hash> {
    set s | s in shares :: s.templateId
  }

  /** `is_canonical`: adjacent template ids strictly increase and are exactly those referenced. */
  predicate IsCanonical(env: Env, w: WorkshareWitness) {
    var ids := TemplateIds(env, w.templates);
    && (forall i :: 0 <= i < |ids| - 1 ==> ids[i] < ids[i + 1])
    && Referenced(w.workshares) == (set id | id in ids)
  }

  lemma {:induction false} AdjacentIsAscending(s: seq<nat>)
    requires forall i :: 0 <= i < |s| - 1 ==> s[i] < s[i + 1]
    ensures Ascending(s)
  {
    if |s| > 1 {
      var front := s[..|s| - 1];
      AdjacentIsAscending(front);
      forall i, j | 0 <= i < j < |s| ensures s[i] < s[j] {
        if j == |s| - 1 {
          assert s[|s| - 2] < s[|s| - 1];
          assert i < |s| - 2 ==> front[i] < front[|s| - 2];
        } else {
          assert front[i] < front[j];
        }
      }
    }
  }
}
