/** The live workshare pool of src/node.rs: a second heaviest-path structure, anchored at the tip.
    In every reachable pool the rebuilt witness of any pooled share is what the validator builds. */
module WorksharePools {
  import opened Base
  import opened Params
  import opened Difficulty
  import opened Types
  import opened State
  import opened LedgerMachine
  import opened Rewards
  import opened Validation
  import opened Execution
  import opened WitnessPrefix
  import opened Merkle
  import opened ChainSpec
  import Limits

  datatype Pool = Pool(
    anchor: Hash, templates: Templates, templateBytes: nat,
    shares: map<Hash, Workshare>, work: map<Hash, nat>, tip: Hash)

  /** From each pooled share back to the first share of its path, oldest first. */
  type Paths = map<Hash, seq<Workshare>>

  const MAX_POOL_SHARES: nat := 8_192
  const MAX_POOL_TEMPLATE_BYTES: nat := 64 * 1024 * 1024

  function EmptyPool(anchor: Hash): Pool {
    Pool(anchor, map[], 0, map[], map[], ZERO_HASH)
  }

  // ----------------------------------------------------------------------- operations

  function Register(env: Env, p: Pool, t: BlockTemplate): Result<Pool, ConsensusError> {
    var id := env.templateId(t);
    if t.parent != p.anchor || t.version != TEMPLATE_VERSION || TemplateSize(t) > MAX_TEMPLATE_BYTES then Err(InvalidWorkshareChain)
    else if id in p.templates then Ok(p)
    else if |p.templates| >= MAX_TEMPLATES_PER_BLOCK || p.templateBytes + TemplateSize(t) > MAX_POOL_TEMPLATE_BYTES then Err(SizeLimit)
    else Ok(p.(templates := p.templates[id := t], templateBytes := p.templateBytes + TemplateSize(t)))
  }

  /** The walk of `candidate_witness` towards the first share; `path` is oldest first. */
  function Trace(p: Pool, path: seq<Workshare>, seen: set<Hash>): Result<seq<Workshare>, ConsensusError>
    requires 0 < |path| <= MAX_WORKSHARES_PER_BLOCK
    decreases MAX_WORKSHARES_PER_BLOCK - |path|
  {
    var previous := path[0].previousWorkshare;
    if previous == ZERO_HASH then Ok(path)
    else if previous in seen || |path| >= MAX_WORKSHARES_PER_BLOCK || previous !in p.shares then Err(InvalidWorkshareChain)
    else Trace(p, [p.shares[previous]] + path, seen + {previous})
  }

  function CandidateWitness(p: Pool, share: Workshare): Result<WorkshareWitness, ConsensusError> {
    if share.candidateHeader.previousBlock != p.anchor || share.templateId !in p.templates then Err(InvalidWorkshareChain)
    else
      var path :- Trace(p, [share], {});
      Ok(WitnessOf(p.templates, path))
  }

  function TipWork(work: map<Hash, nat>, tip: Hash): nat {
    if tip in work then work[tip] else 0
  }

  /** `accept`: the pool after the share, and whether the tip moved. */
  function AcceptShare(env: Env, p: Pool, share: Workshare): Result<(Pool, bool), ConsensusError> {
    var id := env.shareId(share);
    var previous := share.previousWorkshare;
    if id in p.shares then Ok((p, false))
    else if |p.shares| >= MAX_POOL_SHARES then Err(SizeLimit)
    else if previous != ZERO_HASH && previous !in p.work then Err(InvalidWorkshareChain)
    else
      var parentWork := if previous == ZERO_HASH then 0 else p.work[previous];
      var weight :- WorkshareWeight(share.candidateHeader.bits);
      if parentWork + weight >= TWO_256 then Err(ArithmeticOverflow)
      else
        var cumulative := parentWork + weight;
        var work := p.work[id := cumulative];
        var next := p.(shares := p.shares[id := share], work := work);
        var tipWork := TipWork(work, p.tip);
        if cumulative > tipWork || (cumulative == tipWork && id < p.tip) then Ok((next.(tip := id), true))
        else Ok((next, false))
  }

  /** `submit_workshare`: rebuild the share's path, validate it whole, then accept. */
  ghost function SubmitShare(env: Env, history: seq<Block>, state: Ledger, p: Pool, share: Workshare, now: nat): Result<(Pool, bool), ConsensusError> {
    var w :- CandidateWitness(p, share);
    var _ :- ValidateWorkshares(env, w, history, state, SatAdd64(now, MAX_FUTURE_BLOCK_TIME));
    AcceptShare(env, p, share)
  }

  // ------------------------------------------------------------------------ invariant

  ghost predicate IdsNonzero(env: Env) {
    forall s :: env.shareId(s) != ZERO_HASH
  }

  ghost function Sizes(templates: Templates): map<Hash, nat> {
    map id | id in templates :: TemplateSize(templates[id])
  }

  predicate TemplateFits(p: Pool, t: BlockTemplate) {
    t.parent == p.anchor && t.version == TEMPLATE_VERSION && TemplateSize(t) <= MAX_TEMPLATE_BYTES
  }

  ghost predicate TemplatesKept(env: Env, p: Pool) {
    && Keyed(env, p.templates)
    && (forall id :: id in p.templates ==> TemplateFits(p, p.templates[id]))
    && |p.templates| <= MAX_TEMPLATES_PER_BLOCK
    && p.templateBytes == SumMap(Sizes(p.templates)) <= MAX_POOL_TEMPLATE_BYTES
  }

  /** The path of the share before this one: none before the first. */
  ghost function PathBefore(paths: Paths, share: Workshare): seq<Workshare> {
    if share.previousWorkshare in paths then paths[share.previousWorkshare] else []
  }

  ghost predicate Threaded(env: Env, p: Pool, paths: Paths, id: Hash)
    requires id in p.shares && id in paths
  {
    var s := p.shares[id];
    && env.shareId(s) == id
    && s.candidateHeader.previousBlock == p.anchor
    && (s.previousWorkshare == ZERO_HASH || s.previousWorkshare in p.shares)
    && paths[id] == PathBefore(paths, s) + [s]
    && |paths[id]| <= MAX_WORKSHARES_PER_BLOCK
    && forall x :: x in paths[id] ==> x.templateId in p.templates
  }

  ghost predicate PathsKept(env: Env, p: Pool, paths: Paths) {
    && paths.Keys == p.shares.Keys && p.work.Keys == p.shares.Keys
    && ZERO_HASH !in p.shares && |p.shares| <= MAX_POOL_SHARES
    && forall id :: id in p.shares ==> Threaded(env, p, paths, id)
  }

  /** The work of a path: the plain sum of its shares' weights. */
  function PathWork(path: seq<Workshare>): nat {
    if path == [] then 0 else PathWork(path[..|path| - 1]) + WeightOrZero(path[|path| - 1])
  }

  ghost predicate WorkKept(work: map<Hash, nat>, paths: Paths) {
    && work.Keys == paths.Keys
    && forall id :: id in work ==> work[id] == PathWork(paths[id]) && 0 < work[id] < TWO_256
  }

  predicate AheadOrSame(work: map<Hash, nat>, a: Hash, b: Hash)
    requires a in work && b in work
  {
    work[a] > work[b] || (work[a] == work[b] && a <= b)
  }

  /** The tip is the best pooled share by greatest work, then lowest id. */
  ghost predicate TipKept(work: map<Hash, nat>, tip: Hash) {
    if work == map[] then tip == ZERO_HASH
    else tip in work && forall id :: id in work ==> AheadOrSame(work, tip, id)
  }

  function Latest(path: seq<Workshare>): nat {
    if path == [] then 0 else Max(Latest(path[..|path| - 1]), path[|path| - 1].candidateHeader.timestamp)
  }

  function ContextFor(env: Env, history: seq<Block>, templates: Templates, settling: nat): Result<ShareContext, ConsensusError> {
    var ctx :- MakeContext(env, [], history, settling);
    Ok(ctx.(templates := templates))
  }

  /** The validator accepts the path against the whole pool's templates, settled at its latest time. */
  ghost predicate Checked(env: Env, history: seq<Block>, state: Ledger, templates: Templates, path: seq<Workshare>) {
    var ctx := ContextFor(env, history, templates, Latest(path));
    ctx.Ok? && CheckShares(env, ctx.value, history, state, path).Ok?
  }

  ghost predicate PoolOk(env: Env, history: seq<Block>, state: Ledger, p: Pool, paths: Paths) {
    && history != [] && p.anchor == BlockId(env, Tip(history))
    && TemplatesKept(env, p)
    && PathsKept(env, p, paths)
    && WorkKept(p.work, paths)
    && TipKept(p.work, p.tip)
    && forall id :: id in p.shares ==> Checked(env, history, state, p.templates, paths[id])
  }

  lemma EmptyPoolOk(env: Env, history: seq<Block>, state: Ledger)
    requires history != []
    ensures PoolOk(env, history, state, EmptyPool(BlockId(env, Tip(history))), map[])
  {
    assert Sizes(map[]) == map[];
  }

  // ------------------------------------------------------------------------- contexts

  lemma ContextsAgree(env: Env, history: seq<Block>, a: Templates, s: nat, b: Templates, t: nat)
    ensures ContextFor(env, history, a, s).Ok? <==> ContextFor(env, history, b, t).Ok?
    ensures ContextFor(env, history, a, s).Ok? ==>
              SameParent(ContextFor(env, history, a, s).value, ContextFor(env, history, b, t).value)
    ensures ContextFor(env, history, a, s).Ok? ==>
              ContextFor(env, history, a, s).value.templates == a && ContextFor(env, history, a, s).value.settling == s
    ensures ContextFor(env, history, b, t).Ok? ==>
              ContextFor(env, history, b, t).value.templates == b && ContextFor(env, history, b, t).value.settling == t
  {
    hide RandomxSeed, NextBits, MedianTimePast;
  }

  lemma MadeContext(env: Env, templates: seq<BlockTemplate>, history: seq<Block>, settling: nat)
    ensures MakeContext(env, templates, history, settling) == ContextFor(env, history, TemplateMap(env, templates), settling)
  {
    hide RandomxSeed, NextBits, MedianTimePast;
  }

  lemma {:induction false} TimelyIffLatest(path: seq<Workshare>, settling: nat)
    ensures SettledBy(path, settling) <==> Latest(path) <= settling
  {
    if path != [] {
      var front, last := path[..|path| - 1], path[|path| - 1];
      TimelyIffLatest(front, settling);
      assert forall s :: s in path <==> s in front || s == last;
    }
  }

  lemma WitnessTemplatesServe(env: Env, templates: Templates, path: seq<Workshare>)
    requires Keyed(env, templates) && forall s :: s in path ==> s.templateId in templates
    ensures SameTemplates(TemplateMap(env, WitnessOf(templates, path).templates), templates, path)
  {
    WitnessOfFacts(env, templates, path);
    var ts := WitnessOf(templates, path).templates;
    var ids := TemplateIds(env, ts);
    assert Distinct(ids);
    hide TemplateMap, WitnessOf, Sorted;
    forall s | s in path
      ensures s.templateId in TemplateMap(env, ts) && TemplateMap(env, ts)[s.templateId] == templates[s.templateId]
    {
      assert s.templateId in Referenced(path) * templates.Keys;
      assert s.templateId in ids;
      var i :| 0 <= i < |ids| && ids[i] == s.templateId;
      Limits.TemplateMapFinds(env, ts, i);
      assert ts[i] in ts;
    }
  }

  /** The validator accepts a pool witness exactly when its path is good and every share is timely. */
  lemma ValidatesIff(env: Env, history: seq<Block>, state: Ledger, templates: Templates, path: seq<Workshare>, settling: nat)
    requires Keyed(env, templates) && path != [] && forall s :: s in path ==> s.templateId in templates
    ensures ValidateWorkshares(env, WitnessOf(templates, path), history, state, settling).Ok?
            <==> Checked(env, history, state, templates, path) && SettledBy(path, settling)
  {
    var w := WitnessOf(templates, path);
    var served := TemplateMap(env, w.templates);
    MadeContext(env, w.templates, history, settling);
    WitnessTemplatesServe(env, templates, path);
    ContextsAgree(env, history, served, settling, templates, Latest(path));
    TimelyIffLatest(path, settling);
    TimelyIffLatest(path, Latest(path));
    assert w.workshares == path;
    hide CheckShares, MakeContext, ContextFor, WitnessOf, TemplateMap, SameTemplates, SettledBy, Latest;
    if ContextFor(env, history, served, settling).Ok? {
      var a := ContextFor(env, history, served, settling).value;
      var b := ContextFor(env, history, templates, Latest(path)).value;
      if CheckShares(env, a, history, state, path).Ok? {
        AcceptedAreTimely(env, a, history, state, path);
      }
      if Latest(path) <= settling {
        SharesAgree(env, a, b, history, state, path);
      }
    }
  }

  // ------------------------------------------------------------------------ rebuilding

  lemma PathFacts(env: Env, p: Pool, paths: Paths, id: Hash)
    requires PathsKept(env, p, paths) && id in p.shares
    ensures paths.Keys == p.shares.Keys
    ensures p.shares[id].previousWorkshare == ZERO_HASH ==> paths[id] == [p.shares[id]]
    ensures p.shares[id].previousWorkshare != ZERO_HASH ==>
              && p.shares[id].previousWorkshare in p.shares
              && paths[id] == paths[p.shares[id].previousWorkshare] + [p.shares[id]]
  {
    assert Threaded(env, p, paths, id);
  }

  /** Walking back from `path` reaches the first share and collects exactly the stored path. */
  lemma {:induction false} TraceIs(env: Env, p: Pool, paths: Paths, path: seq<Workshare>, seen: set<Hash>)
    requires PathsKept(env, p, paths) && 0 < |path| <= MAX_WORKSHARES_PER_BLOCK
    requires paths.Keys == p.shares.Keys && path[0].previousWorkshare in p.shares
    requires path[0].previousWorkshare != ZERO_HASH
    requires forall x :: x in seen && x in paths ==> |paths[x]| > |paths[path[0].previousWorkshare]|
    ensures Trace(p, path, seen)
            == if |paths[path[0].previousWorkshare]| + |path| <= MAX_WORKSHARES_PER_BLOCK
               then Ok(paths[path[0].previousWorkshare] + path) else Err(InvalidWorkshareChain)
    decreases |paths[path[0].previousWorkshare]|
  {
    hide PathsKept;
    var previous := path[0].previousWorkshare;
    PathFacts(env, p, paths, previous);
    var s := p.shares[previous];
    if |path| < MAX_WORKSHARES_PER_BLOCK {
      var longer := [s] + path;
      assert longer[0] == s;
      if s.previousWorkshare == ZERO_HASH {
        assert paths[previous] + path == longer;
      } else {
        TraceIs(env, p, paths, longer, seen + {previous});
        assert paths[s.previousWorkshare] + longer == paths[previous] + path;
      }
    } else {
      PathNonempty(env, p, paths, previous);
    }
  }

  lemma PathNonempty(env: Env, p: Pool, paths: Paths, id: Hash)
    requires PathsKept(env, p, paths) && id in p.shares
    ensures id in paths && paths[id] != []
  {
    assert Threaded(env, p, paths, id);
  }

  /** What `candidate_witness` returns for any share, pooled or not. */
  lemma CandidateIs(env: Env, p: Pool, paths: Paths, share: Workshare)
    requires PathsKept(env, p, paths)
    ensures CandidateWitness(p, share)
            == if share.candidateHeader.previousBlock == p.anchor && share.templateId in p.templates
               && (share.previousWorkshare == ZERO_HASH || share.previousWorkshare in p.shares)
               && |PathBefore(paths, share)| < MAX_WORKSHARES_PER_BLOCK
               then Ok(WitnessOf(p.templates, PathBefore(paths, share) + [share])) else Err(InvalidWorkshareChain)
  {
    hide WitnessOf, Threaded;
    if share.previousWorkshare != ZERO_HASH && share.previousWorkshare in p.shares {
      TraceIs(env, p, paths, [share], {});
    } else {
      assert PathBefore(paths, share) + [share] == [share];
    }
  }

  /** Rebuilding a pooled share's path never fails, so the tip's witness is always available. */
  lemma RebuildNeverFails(env: Env, p: Pool, paths: Paths, id: Hash)
    requires PathsKept(env, p, paths) && id in p.shares
    ensures CandidateWitness(p, p.shares[id]) == Ok(WitnessOf(p.templates, paths[id]))
  {
    hide WitnessOf;
    assert Threaded(env, p, paths, id);
    var s := p.shares[id];
    assert s in paths[id];
    CandidateIs(env, p, paths, s);
  }

  // ------------------------------------------------------------------------ preservation

  lemma RegisterKeepsTemplates(env: Env, p: Pool, t: BlockTemplate)
    requires TemplatesKept(env, p) && Register(env, p, t).Ok?
    ensures TemplatesKept(env, Register(env, p, t).value)
  {
    hide TemplateSize, SumMap, Sizes;
    var id := env.templateId(t);
    if id !in p.templates {
      var more := p.templates[id := t];
      SizesGrow(p.templates, id, t);
      assert more.Keys == p.templates.Keys + {id};
      var q := Register(env, p, t).value;
      forall x | x in more ensures TemplateFits(q, more[x]) && env.templateId(more[x]) == x {
        assert x != id ==> TemplateFits(p, p.templates[x]);
      }
    }
  }

  lemma SizesGrow(templates: Templates, id: Hash, t: BlockTemplate)
    requires id !in templates
    ensures SumMap(Sizes(templates[id := t])) == SumMap(Sizes(templates)) + TemplateSize(t)
  {
    hide TemplateSize;
    assert Sizes(templates[id := t]) == Sizes(templates)[id := TemplateSize(t)];
    SumMapUpdate(Sizes(templates), id, TemplateSize(t));
  }

  /** Templates that were there stay what they were. */
  lemma CheckedWithMore(env: Env, history: seq<Block>, state: Ledger, a: Templates, b: Templates, path: seq<Workshare>)
    requires Checked(env, history, state, a, path)
    requires SameTemplates(a, b, path)
    ensures Checked(env, history, state, b, path)
  {
    ContextsAgree(env, history, a, Latest(path), b, Latest(path));
    TimelyIffLatest(path, Latest(path));
    hide CheckShares, ContextFor, SameTemplates, SettledBy, Latest;
    SharesAgree(env, ContextFor(env, history, a, Latest(path)).value, ContextFor(env, history, b, Latest(path)).value, history, state, path);
  }

  lemma Registered(env: Env, p: Pool, t: BlockTemplate)
    requires Register(env, p, t).Ok?
    ensures var q := Register(env, p, t).value; q == p.(templates := q.templates, templateBytes := q.templateBytes)
  {
    hide TemplateSize;
  }

  lemma RegisterKeepsLink(env: Env, history: seq<Block>, state: Ledger, p: Pool, paths: Paths, t: BlockTemplate, id: Hash)
    requires id in p.shares && id in paths && Threaded(env, p, paths, id) && Checked(env, history, state, p.templates, paths[id])
    requires Register(env, p, t).Ok?
    ensures Threaded(env, Register(env, p, t).value, paths, id)
    ensures Checked(env, history, state, Register(env, p, t).value.templates, paths[id])
  {
    hide Checked, TemplateSize;
    KeptTemplates(env, p, t, paths[id]);
    CheckedWithMore(env, history, state, p.templates, Register(env, p, t).value.templates, paths[id]);
  }

  lemma PathsUnder(env: Env, p: Pool, q: Pool, paths: Paths)
    requires PathsKept(env, p, paths) && q == p.(templates := q.templates, templateBytes := q.templateBytes)
    requires forall id :: id in p.shares ==> id in paths && Threaded(env, q, paths, id)
    ensures PathsKept(env, q, paths)
  {
    hide Threaded;
  }

  lemma RegisterKeeps(env: Env, history: seq<Block>, state: Ledger, p: Pool, paths: Paths, t: BlockTemplate)
    requires PoolOk(env, history, state, p, paths) && Register(env, p, t).Ok?
    ensures PoolOk(env, history, state, Register(env, p, t).value, paths)
  {
    hide Checked, TemplatesKept, Threaded, Register, WorkKept, TipKept;
    var q := Register(env, p, t).value;
    Registered(env, p, t);
    RegisterKeepsTemplates(env, p, t);
    assert forall id :: id in p.shares ==> id in paths && Threaded(env, p, paths, id) && Checked(env, history, state, p.templates, paths[id]);
    hide PathsKept;
    forall id | id in p.shares ensures id in paths && Threaded(env, q, paths, id) && Checked(env, history, state, q.templates, paths[id]) {
      RegisterKeepsLink(env, history, state, p, paths, t, id);
    }
    PathsUnder(env, p, q, paths);
  }

  lemma KeptTemplates(env: Env, p: Pool, t: BlockTemplate, path: seq<Workshare>)
    requires Register(env, p, t).Ok? && forall s :: s in path ==> s.templateId in p.templates
    ensures SameTemplates(p.templates, Register(env, p, t).value.templates, path)
  {
  }

  /** The paths after a submission. */
  ghost function PathsAfter(env: Env, p: Pool, paths: Paths, share: Workshare): Paths {
    if env.shareId(share) in p.shares then paths else paths[env.shareId(share) := PathBefore(paths, share) + [share]]
  }

  lemma AcceptedShares(env: Env, p: Pool, share: Workshare)
    requires AcceptShare(env, p, share).Ok?
    ensures var q := AcceptShare(env, p, share).value.0;
            && q.anchor == p.anchor && q.templates == p.templates && q.templateBytes == p.templateBytes
            && (env.shareId(share) in p.shares ==> q == p)
            && (env.shareId(share) !in p.shares ==>
                  && |p.shares| < MAX_POOL_SHARES
                  && q.shares == p.shares[env.shareId(share) := share]
                  && q.work.Keys == p.work.Keys + {env.shareId(share)})
  {
    hide WorkshareWeight;
  }

  lemma AcceptKeepsPaths(env: Env, p: Pool, paths: Paths, share: Workshare)
    requires PathsKept(env, p, paths) && IdsNonzero(env)
    requires CandidateWitness(p, share).Ok? && AcceptShare(env, p, share).Ok?
    ensures PathsKept(env, AcceptShare(env, p, share).value.0, PathsAfter(env, p, paths, share))
  {
    hide *;
    AcceptedShares(env, p, share);
    var q := AcceptShare(env, p, share).value.0;
    if env.shareId(share) in p.shares {
      PathsSame(env, p, paths, share);
    } else {
      ThreadedAfter(env, p, q, paths, share);
      PathsAfterIs(env, p, paths, share);
      ShareIdNonzero(env, share);
      PathsWithOne(env, p, q, paths, PathsAfter(env, p, paths, share), env.shareId(share), share);
    }
  }

  lemma ShareIdNonzero(env: Env, share: Workshare)
    requires IdsNonzero(env)
    ensures env.shareId(share) != ZERO_HASH
  {
  }

  lemma PathsSame(env: Env, p: Pool, paths: Paths, share: Workshare)
    requires env.shareId(share) in p.shares
    ensures PathsAfter(env, p, paths, share) == paths
  {
  }

  lemma PathsWithOne(env: Env, p: Pool, q: Pool, paths: Paths, after: Paths, id: Hash, share: Workshare)
    requires PathsKept(env, p, paths) && id != ZERO_HASH && id !in p.shares && |p.shares| < MAX_POOL_SHARES
    requires q.shares == p.shares[id := share] && q.work.Keys == p.work.Keys + {id} && after.Keys == paths.Keys + {id}
    requires forall x :: x in q.shares ==> x in after && Threaded(env, q, after, x)
    ensures PathsKept(env, q, after)
  {
    hide Threaded;
    assert q.shares.Keys == p.shares.Keys + {id};
    assert |q.shares| == |q.shares.Keys|;
  }

  lemma ThreadedAfter(env: Env, p: Pool, q: Pool, paths: Paths, share: Workshare)
    requires PathsKept(env, p, paths) && IdsNonzero(env)
    requires CandidateWitness(p, share).Ok? && env.shareId(share) !in p.shares
    requires q.shares == p.shares[env.shareId(share) := share] && q.templates == p.templates && q.anchor == p.anchor
    ensures forall x :: x in q.shares ==> x in PathsAfter(env, p, paths, share) && Threaded(env, q, PathsAfter(env, p, paths, share), x)
  {
    hide CandidateWitness, Threaded, PathBefore;
    var after := PathsAfter(env, p, paths, share);
    forall x | x in q.shares ensures x in after && Threaded(env, q, after, x) {
      if x == env.shareId(share) {
        NewThreaded(env, p, paths, share);
      } else {
        OldThreaded(env, p, paths, share, x);
      }
      ThreadedLooksAt(env, p.(shares := q.shares), q, after, x);
    }
  }

  /** A link is about templates, shares and the anchor. */
  lemma ThreadedLooksAt(env: Env, p: Pool, q: Pool, paths: Paths, x: Hash)
    requires x in p.shares && x in paths && Threaded(env, p, paths, x)
    requires p.shares == q.shares && p.templates == q.templates && p.anchor == q.anchor
    ensures Threaded(env, q, paths, x)
  {
  }

  lemma NewThreaded(env: Env, p: Pool, paths: Paths, share: Workshare)
    requires PathsKept(env, p, paths) && IdsNonzero(env) && env.shareId(share) !in p.shares
    requires CandidateWitness(p, share).Ok?
    ensures var q := p.(shares := p.shares[env.shareId(share) := share]);
            Threaded(env, q, PathsAfter(env, p, paths, share), env.shareId(share))
  {
    hide WitnessOf, WorkshareWeight;
    CandidateIs(env, p, paths, share);
    var before := PathBefore(paths, share);
    assert share.previousWorkshare in p.shares ==> Threaded(env, p, paths, share.previousWorkshare);
    forall x | x in before + [share] ensures x.templateId in p.templates {
      assert x in before || x == share;
    }
  }

  lemma OldThreaded(env: Env, p: Pool, paths: Paths, share: Workshare, x: Hash)
    requires PathsKept(env, p, paths) && IdsNonzero(env) && env.shareId(share) !in p.shares && x in p.shares
    ensures var q := p.(shares := p.shares[env.shareId(share) := share]);
            Threaded(env, q, PathsAfter(env, p, paths, share), x)
  {
    assert Threaded(env, p, paths, x);
  }

  lemma AcceptedWork(env: Env, p: Pool, paths: Paths, share: Workshare)
    requires PathsKept(env, p, paths) && IdsNonzero(env) && WorkKept(p.work, paths)
    requires AcceptShare(env, p, share).Ok? && env.shareId(share) !in p.shares
    ensures var cumulative := PathWork(PathBefore(paths, share) + [share]);
            && 0 < cumulative < TWO_256
            && AcceptShare(env, p, share).value.0.work == p.work[env.shareId(share) := cumulative]
  {
    hide WorkshareWeight, Threaded, PathWork;
    WeightBounds(share.candidateHeader.bits);
    PathWorkSnoc(PathBefore(paths, share), share);
    PathWorkNone();
  }

  lemma AcceptKeepsWork(env: Env, p: Pool, paths: Paths, share: Workshare)
    requires PathsKept(env, p, paths) && IdsNonzero(env) && WorkKept(p.work, paths)
    requires AcceptShare(env, p, share).Ok?
    requires env.shareId(share) !in p.shares
    ensures var q, after := AcceptShare(env, p, share).value.0, PathsAfter(env, p, paths, share);
            WorkKept(q.work, after)
  {
    AcceptedWork(env, p, paths, share);
    hide *;
    WorkWithOne(p.work, paths, env.shareId(share), PathBefore(paths, share) + [share]);
    PathsAfterIs(env, p, paths, share);
  }

  lemma PathsAfterIs(env: Env, p: Pool, paths: Paths, share: Workshare)
    requires env.shareId(share) !in p.shares
    ensures PathsAfter(env, p, paths, share) == paths[env.shareId(share) := PathBefore(paths, share) + [share]]
    ensures PathsAfter(env, p, paths, share).Keys == paths.Keys + {env.shareId(share)}
  {
  }

  lemma WorkWithOne(work: map<Hash, nat>, paths: Paths, id: Hash, path: seq<Workshare>)
    requires WorkKept(work, paths) && 0 < PathWork(path) < TWO_256
    ensures WorkKept(work[id := PathWork(path)], paths[id := path])
  {
    hide PathWork;
    assert work[id := PathWork(path)].Keys == paths[id := path].Keys;
  }

  lemma PathWorkNone()
    ensures PathWork([]) == 0
  {
  }

  lemma PathWorkSnoc(path: seq<Workshare>, s: Workshare)
    ensures PathWork(path + [s]) == PathWork(path) + WeightOrZero(s)
  {
    assert (path + [s])[..|path|] == path;
  }

  lemma AcceptKeepsTip(env: Env, p: Pool, paths: Paths, share: Workshare)
    requires PathsKept(env, p, paths) && IdsNonzero(env) && WorkKept(p.work, paths) && TipKept(p.work, p.tip)
    requires AcceptShare(env, p, share).Ok?
    ensures var q := AcceptShare(env, p, share).value.0; TipKept(q.work, q.tip)
  {
    hide WorkshareWeight, Threaded, PathWork;
    if env.shareId(share) !in p.shares {
      WeightBounds(share.candidateHeader.bits);
    }
  }

  lemma SubmitChecks(env: Env, history: seq<Block>, state: Ledger, p: Pool, paths: Paths, share: Workshare, now: nat)
    requires TemplatesKept(env, p) && PathsKept(env, p, paths)
    requires SubmitShare(env, history, state, p, share, now).Ok?
    ensures Checked(env, history, state, p.templates, PathBefore(paths, share) + [share])
  {
    hide WitnessOf, Checked, CheckShares, AcceptShare, ValidateWorkshares, Threaded;
    CandidateIs(env, p, paths, share);
    var before := PathBefore(paths, share);
    forall x | x in before + [share] ensures x.templateId in p.templates {
      if x in before {
        assert Threaded(env, p, paths, share.previousWorkshare);
        ThreadedTemplates(env, p, paths, share.previousWorkshare);
      }
    }
    ValidatesIff(env, history, state, p.templates, before + [share], SatAdd64(now, MAX_FUTURE_BLOCK_TIME));
  }

  lemma ThreadedTemplates(env: Env, p: Pool, paths: Paths, id: Hash)
    requires id in p.shares && id in paths && Threaded(env, p, paths, id)
    ensures forall x :: x in paths[id] ==> x.templateId in p.templates
  {
  }

  lemma SubmitIsAccept(env: Env, history: seq<Block>, state: Ledger, p: Pool, share: Workshare, now: nat)
    requires SubmitShare(env, history, state, p, share, now).Ok?
    ensures CandidateWitness(p, share).Ok? && AcceptShare(env, p, share).Ok?
    ensures SubmitShare(env, history, state, p, share, now) == AcceptShare(env, p, share)
  {
    hide CandidateWitness, ValidateWorkshares, AcceptShare;
  }

  lemma AcceptKeepsChecks(env: Env, history: seq<Block>, state: Ledger, p: Pool, paths: Paths, share: Workshare, now: nat)
    requires PoolOk(env, history, state, p, paths) && env.shareId(share) !in p.shares
    requires SubmitShare(env, history, state, p, share, now).Ok?
    ensures var q, after := AcceptShare(env, p, share).value.0, PathsAfter(env, p, paths, share);
            forall id :: id in q.shares ==> id in after && Checked(env, history, state, q.templates, after[id])
  {
    hide Checked, CandidateWitness, AcceptShare, SubmitShare, Threaded, WorkKept, TipKept, PathBefore, TemplatesKept;
    SubmitIsAccept(env, history, state, p, share, now);
    SubmitChecks(env, history, state, p, paths, share, now);
    AcceptedShares(env, p, share);
  }

  lemma TemplatesUntouched(env: Env, p: Pool, q: Pool)
    requires TemplatesKept(env, p) && q.anchor == p.anchor && q.templates == p.templates && q.templateBytes == p.templateBytes
    ensures TemplatesKept(env, q)
  {
  }

  lemma PoolParts(env: Env, history: seq<Block>, state: Ledger, p: Pool, paths: Paths)
    requires PoolOk(env, history, state, p, paths)
    ensures history != [] && p.anchor == BlockId(env, Tip(history))
    ensures TemplatesKept(env, p) && PathsKept(env, p, paths) && WorkKept(p.work, paths) && TipKept(p.work, p.tip)
    ensures forall id :: id in p.shares ==> id in paths && Checked(env, history, state, p.templates, paths[id])
  {
    hide Checked, TemplatesKept, Threaded, WorkKept, TipKept;
  }

  lemma PoolFrom(env: Env, history: seq<Block>, state: Ledger, p: Pool, paths: Paths)
    requires history != [] && p.anchor == BlockId(env, Tip(history))
    requires TemplatesKept(env, p) && PathsKept(env, p, paths) && WorkKept(p.work, paths) && TipKept(p.work, p.tip)
    requires forall id :: id in p.shares ==> id in paths && Checked(env, history, state, p.templates, paths[id])
    ensures PoolOk(env, history, state, p, paths)
  {
    hide Checked, TemplatesKept, Threaded, WorkKept, TipKept;
  }

  /** Every submission, accepted or not, leaves a good pool. */
  lemma SubmitKeepsPool(env: Env, history: seq<Block>, state: Ledger, p: Pool, paths: Paths, share: Workshare, now: nat)
    requires PoolOk(env, history, state, p, paths) && IdsNonzero(env)
    requires SubmitShare(env, history, state, p, share, now).Ok?
    ensures PoolOk(env, history, state, SubmitShare(env, history, state, p, share, now).value.0, PathsAfter(env, p, paths, share))
  {
    hide *;
    SubmitIsAccept(env, history, state, p, share, now);
    AcceptedShares(env, p, share);
    var q := AcceptShare(env, p, share).value.0;
    if env.shareId(share) in p.shares {
      PathsSame(env, p, paths, share);
    } else {
      PoolParts(env, history, state, p, paths);
      AcceptKeepsPaths(env, p, paths, share);
      AcceptKeepsWork(env, p, paths, share);
      AcceptKeepsTip(env, p, paths, share);
      AcceptKeepsChecks(env, history, state, p, paths, share, now);
      TemplatesUntouched(env, p, q);
      PoolFrom(env, history, state, q, PathsAfter(env, p, paths, share));
    }
  }

  /** A share is taken exactly when its path can be rebuilt, is good, is nowhere later than 300 seconds from
      now, and there is room for it. */
  lemma SubmitSucceedsIff(env: Env, history: seq<Block>, state: Ledger, p: Pool, paths: Paths, share: Workshare, now: nat)
    requires PoolOk(env, history, state, p, paths)
    ensures var path := PathBefore(paths, share) + [share];
            SubmitShare(env, history, state, p, share, now).Ok?
            <==> && CandidateWitness(p, share).Ok? && Checked(env, history, state, p.templates, path)
                 && SettledBy(path, SatAdd64(now, 300)) && AcceptShare(env, p, share).Ok?
  {
    hide WitnessOf, Checked, AcceptShare, ValidateWorkshares, Threaded, TemplatesKept, WorkKept, TipKept, SettledBy;
    PoolParts(env, history, state, p, paths);
    KeyedPool(env, history, state, p, paths);
    CandidateIs(env, p, paths, share);
    var before := PathBefore(paths, share);
    if CandidateWitness(p, share).Ok? {
      forall x | x in before + [share] ensures x.templateId in p.templates {
        if x in before {
          assert Threaded(env, p, paths, share.previousWorkshare);
          ThreadedTemplates(env, p, paths, share.previousWorkshare);
        }
      }
      ValidatesIff(env, history, state, p.templates, before + [share], SatAdd64(now, MAX_FUTURE_BLOCK_TIME));
    }
  }

  // -------------------------------------------------------------------- reachable pools

  datatype PoolEvent = RegisterEvent(template: BlockTemplate) | SubmitEvent(share: Workshare, now: nat)

  /** One event; a refused one changes nothing. */
  ghost function PoolStep(env: Env, history: seq<Block>, state: Ledger, p: Pool, e: PoolEvent): Pool {
    match e
    case RegisterEvent(t) => (match Register(env, p, t) case Ok(q) => q case Err(_) => p)
    case SubmitEvent(share, now) =>
      match SubmitShare(env, history, state, p, share, now) case Ok(r) => r.0 case Err(_) => p
  }

  /** The pool after any events since the tip became `history`'s last block. */
  ghost function PoolRun(env: Env, history: seq<Block>, state: Ledger, events: seq<PoolEvent>): Pool
    requires history != []
  {
    if events == [] then EmptyPool(BlockId(env, Tip(history)))
    else PoolStep(env, history, state, PoolRun(env, history, state, events[..|events| - 1]), events[|events| - 1])
  }

  lemma {:induction false} ReachablePoolOk(env: Env, history: seq<Block>, state: Ledger, events: seq<PoolEvent>) returns (paths: Paths)
    requires history != [] && IdsNonzero(env)
    ensures PoolOk(env, history, state, PoolRun(env, history, state, events), paths)
  {
    hide PoolOk, Register, SubmitShare;
    if events == [] {
      EmptyPoolOk(env, history, state);
      paths := map[];
    } else {
      var before := PoolRun(env, history, state, events[..|events| - 1]);
      paths := ReachablePoolOk(env, history, state, events[..|events| - 1]);
      match events[|events| - 1] {
        case RegisterEvent(t) =>
          if Register(env, before, t).Ok? {
            RegisterKeeps(env, history, state, before, paths, t);
          }
        case SubmitEvent(share, now) =>
          if SubmitShare(env, history, state, before, share, now).Ok? {
            SubmitKeepsPool(env, history, state, before, paths, share, now);
            paths := PathsAfter(env, before, paths, share);
          }
      }
    }
  }

  /** The witness of any pooled share, the tip included: always rebuilt, canonical, and accepted by the
      validator of a block exactly when the block is not earlier than any share on the path. */
  lemma PooledWitness(env: Env, history: seq<Block>, state: Ledger, p: Pool, paths: Paths, id: Hash, settling: nat)
    requires PoolOk(env, history, state, p, paths) && id in p.shares
    ensures var w := CandidateWitness(p, p.shares[id]);
            && w == Ok(WitnessOf(p.templates, paths[id]))
            && w.value.workshares == paths[id]
            && IsCanonical(env, w.value)
            && (ValidateWorkshares(env, w.value, history, state, settling).Ok? <==> SettledBy(paths[id], settling))
  {
    hide Checked, CandidateWitness, ValidateWorkshares, IsCanonical, SettledBy;
    RebuildNeverFails(env, p, paths, id);
    assert Threaded(env, p, paths, id);
    WitnessIsCanonical(env, p.templates, paths[id]);
    ValidatesIff(env, history, state, p.templates, paths[id], settling);
  }

  lemma PooledPath(env: Env, history: seq<Block>, state: Ledger, p: Pool, paths: Paths, id: Hash)
    requires PoolOk(env, history, state, p, paths) && id in p.shares
    ensures var before := PathBefore(paths, p.shares[id]);
            && id in paths && paths[id] == before + [p.shares[id]]
            && Checked(env, history, state, p.templates, paths[id])
            && (p.shares[id].previousWorkshare in p.shares ==>
                  CandidateWitness(p, p.shares[p.shares[id].previousWorkshare]) == Ok(WitnessOf(p.templates, before)))
  {
    hide Checked, CandidateWitness, WitnessOf;
    assert Threaded(env, p, paths, id);
    if p.shares[id].previousWorkshare in p.shares {
      RebuildNeverFails(env, p, paths, p.shares[id].previousWorkshare);
    }
  }

  /** The last share of a good path commits to the witness of the path before it. */
  lemma CheckedCommits(env: Env, history: seq<Block>, state: Ledger, templates: Templates, before: seq<Workshare>, s: Workshare)
    requires Keyed(env, templates) && Checked(env, history, state, templates, before + [s])
    ensures s.candidateHeader.workshareRoot == env.witnessRoot(WitnessOf(templates, before))
  {
    hide CheckShares, WitnessOf, ContextFor, CheckShare;
    var path := before + [s];
    assert path[..|path| - 1] == before;
    var ctx := ContextFor(env, history, templates, Latest(path)).value;
    ContextsAgree(env, history, templates, Latest(path), templates, Latest(path));
    GrownOnTop(env, ctx, history, state, path);
    PrefixIsWitness(env, ctx, history, state, before);
    CommitsToPrefix(env, ctx, history, state, s, if before == [] then ZERO_HASH else env.shareId(before[|before| - 1]), WitnessOf(templates, before));
  }

  /** The header of a pooled share commits to the witness the pool rebuilds for its predecessor. */
  lemma SharesCommitToPredecessor(env: Env, history: seq<Block>, state: Ledger, p: Pool, paths: Paths, id: Hash)
    requires PoolOk(env, history, state, p, paths) && id in p.shares
    ensures p.shares[id].candidateHeader.workshareRoot == env.witnessRoot(WitnessOf(p.templates, PathBefore(paths, p.shares[id])))
    ensures p.shares[id].previousWorkshare in p.shares ==>
              CandidateWitness(p, p.shares[p.shares[id].previousWorkshare]) == Ok(WitnessOf(p.templates, PathBefore(paths, p.shares[id])))
  {
    assert Keyed(env, p.templates);
    hide *;
    PooledPath(env, history, state, p, paths, id);
    CheckedCommits(env, history, state, p.templates, PathBefore(paths, p.shares[id]), p.shares[id]);
  }

  lemma CommitsToPrefix(env: Env, ctx: ShareContext, history: seq<Block>, state: Ledger, share: Workshare, previous: Hash, prefix: WorkshareWitness)
    requires CheckShare(env, ctx, history, state, share, previous, prefix).Ok?
    ensures share.candidateHeader.workshareRoot == env.witnessRoot(prefix)
  {
    hide RewardAllocation, TransitionFor, MerkleRoot, LedgerRoot, SumFees, Leaves, TemplateOk, ShareHeaderOk;
  }

  // ------------------------------------------------------------------------ the class

  lemma TraceStep(p: Pool, reverse: seq<Workshare>, seen: set<Hash>)
    requires 0 < |reverse| <= MAX_WORKSHARES_PER_BLOCK
    ensures var previous := reverse[|reverse| - 1].previousWorkshare;
            Trace(p, Reversed(reverse), seen)
            == if previous == ZERO_HASH then Ok(Reversed(reverse))
               else if previous in seen || |reverse| >= MAX_WORKSHARES_PER_BLOCK || previous !in p.shares then Err(InvalidWorkshareChain)
               else Trace(p, Reversed(reverse + [p.shares[previous]]), seen + {previous})
  {
    var previous := reverse[|reverse| - 1].previousWorkshare;
    if previous in p.shares {
      assert Reversed(reverse + [p.shares[previous]]) == [p.shares[previous]] + Reversed(reverse);
    }
  }

  class WorksharePool {
    const env: Env
    var anchor: Hash
    var templates: Templates
    var templateBytes: nat
    var shares: map<Hash, Workshare>
    var pathWork: map<Hash, nat>
    var tip: Hash
    ghost var paths: Paths
    ghost var history: seq<Block>
    ghost var state: Ledger

    function View(): Pool
      reads this
    {
      Pool(anchor, templates, templateBytes, shares, pathWork, tip)
    }

    ghost predicate Valid()
      reads this
    {
      IdsNonzero(env) && PoolOk(env, history, state, View(), paths)
    }

    constructor (env: Env, blocks: seq<Block>, ghost state: Ledger)
      requires IdsNonzero(env) && blocks != []
      ensures Valid() && this.env == env && history == blocks && this.state == state
      ensures View() == EmptyPool(BlockId(env, Tip(blocks)))
    {
      hide PoolOk, IdsNonzero;
      EmptyPoolOk(env, blocks, state);
      this.env := env;
      anchor, templates, templateBytes := BlockId(env, Tip(blocks)), map[], 0;
      shares, pathWork, tip := map[], map[], ZERO_HASH;
      paths, history, this.state := map[], blocks, state;
    }

    /** `reset`: a new tip empties the pool. */
    method Reset(blocks: seq<Block>, ghost next: Ledger)
      requires Valid() && blocks != []
      modifies this
      ensures Valid() && history == blocks && state == next
      ensures View() == EmptyPool(BlockId(env, Tip(blocks)))
    {
      hide PoolOk, IdsNonzero;
      EmptyPoolOk(env, blocks, next);
      anchor, templates, templateBytes := BlockId(env, Tip(blocks)), map[], 0;
      shares, pathWork, tip := map[], map[], ZERO_HASH;
      paths, history, state := map[], blocks, next;
    }

    method RegisterTemplate(t: BlockTemplate) returns (r: Result<Hash, ConsensusError>)
      requires Valid()
      modifies this`templates, this`templateBytes
      ensures Valid()
      ensures r.Ok? ==> Register(env, old(View()), t) == Ok(View()) && r.value == env.templateId(t)
      ensures r.Err? ==> Register(env, old(View()), t) == Err(r.error) && View() == old(View())
    {
      hide PoolOk, IdsNonzero, TemplateSize;
      if t.parent != anchor || t.version != TEMPLATE_VERSION || TemplateSize(t) > MAX_TEMPLATE_BYTES {
        return Err(InvalidWorkshareChain);
      }
      var id := env.templateId(t);
      if id in templates {
        return Ok(id);
      }
      if |templates| >= MAX_TEMPLATES_PER_BLOCK || templateBytes + TemplateSize(t) > MAX_POOL_TEMPLATE_BYTES {
        return Err(SizeLimit);
      }
      RegisterKeeps(env, history, state, View(), paths, t);
      templateBytes := templateBytes + TemplateSize(t);
      templates := templates[id := t];
      return Ok(id);
    }

    /** The ordered map filtered by the ids a path refers to. */
    method CollectTemplates(path: seq<Workshare>) returns (r: seq<BlockTemplate>)
      requires Keyed(env, templates)
      ensures r == ReferencedTemplates(templates, path)
    {
      var order := Sorted(templates.Keys);
      var referenced := Referenced(path);
      r := [];
      hide Sorted, Referenced, ReferencedTemplates;
      for i := 0 to |order|
        invariant forall t :: t in r ==> env.templateId(t) in templates && templates[env.templateId(t)] == t
        invariant Ascending(TemplateIds(env, r))
        invariant forall id :: id in TemplateIds(env, r) <==> id in referenced && id in order[..i]
      {
        if order[i] in referenced {
          ghost var ids, more := TemplateIds(env, r), TemplateIds(env, r + [templates[order[i]]]);
          assert more == ids + [order[i]];
          forall a, b | 0 <= a < b < |more| ensures more[a] < more[b] {
            if b == |ids| {
              assert ids[a] in ids;
              var k :| 0 <= k < i && order[k] == ids[a];
            }
          }
          r := r + [templates[order[i]]];
        }
      }
      ListedOnce(env, templates, r, path);
    }

    /** `candidate_witness`: walk back newest first, reverse, and collect the referenced templates. */
    method BuildWitness(share: Workshare) returns (r: Result<WorkshareWitness, ConsensusError>)
      requires Keyed(env, templates)
      ensures r == CandidateWitness(View(), share)
    {
      hide Trace, ReferencedTemplates;
      if share.candidateHeader.previousBlock != anchor || share.templateId !in templates {
        return Err(InvalidWorkshareChain);
      }
      var reverse := [share];
      var seen: set<Hash> := {};
      assert Reversed(reverse) == [share];
      TraceStep(View(), reverse, seen);
      while reverse[|reverse| - 1].previousWorkshare != ZERO_HASH
        invariant 0 < |reverse| <= MAX_WORKSHARES_PER_BLOCK
        invariant Trace(View(), Reversed(reverse), seen) == Trace(View(), [share], {})
        decreases MAX_WORKSHARES_PER_BLOCK - |reverse|
      {
        TraceStep(View(), reverse, seen);
        var previous := reverse[|reverse| - 1].previousWorkshare;
        if previous in seen || |reverse| >= MAX_WORKSHARES_PER_BLOCK || previous !in shares {
          return Err(InvalidWorkshareChain);
        }
        seen := seen + {previous};
        reverse := reverse + [shares[previous]];
      }
      TraceStep(View(), reverse, seen);
      var path := Reversed(reverse);
      var referenced := CollectTemplates(path);
      return Ok(WorkshareWitness(WITNESS_VERSION, referenced, path));
    }

    /** `accept`. */
    method Accept(share: Workshare) returns (r: Result<bool, ConsensusError>)
      modifies this`shares, this`pathWork, this`tip
      ensures r.Ok? ==> AcceptShare(env, old(View()), share) == Ok((View(), r.value))
      ensures r.Err? ==> AcceptShare(env, old(View()), share) == Err(r.error) && View() == old(View())
    {
      hide WorkshareWeight;
      var id := env.shareId(share);
      if id in shares {
        return Ok(false);
      }
      if |shares| >= MAX_POOL_SHARES {
        return Err(SizeLimit);
      }
      var previous := share.previousWorkshare;
      var parentWork := 0;
      if previous != ZERO_HASH {
        if previous !in pathWork {
          return Err(InvalidWorkshareChain);
        }
        parentWork := pathWork[previous];
      }
      var weight :- WorkshareWeight(share.candidateHeader.bits);
      var cumulative := parentWork + weight;
      if cumulative >= TWO_256 {
        return Err(ArithmeticOverflow);
      }
      shares := shares[id := share];
      pathWork := pathWork[id := cumulative];
      var tipWork := if tip in pathWork then pathWork[tip] else 0;
      if cumulative > tipWork || (cumulative == tipWork && id < tip) {
        tip := id;
        return Ok(true);
      }
      return Ok(false);
    }

    /** `witness`: the tip's path, whose rebuilding never fails. */
    method Witness() returns (w: WorkshareWitness)
      requires Valid()
      ensures tip == ZERO_HASH <==> shares == map[]
      ensures tip == ZERO_HASH ==> w == EMPTY_WITNESS
      ensures tip != ZERO_HASH ==> tip in shares && tip in paths && w == WitnessOf(templates, paths[tip])
      ensures forall id :: id in shares ==> tip in pathWork && id in pathWork && AheadOrSame(pathWork, tip, id)
    {
      TipFacts(env, history, state, View(), paths);
      hide PoolOk, IdsNonzero;
      if tip == ZERO_HASH {
        return EMPTY_WITNESS;
      }
      var rebuilt := BuildWitness(shares[tip]);
      return rebuilt.value;
    }

    /** `submit_workshare` on the chain the pool is anchored to. */
    method Submit(share: Workshare, blocks: seq<Block>, parent: LedgerState, now: nat) returns (r: Result<bool, ConsensusError>)
      requires Valid() && parent.Valid() && parent.env == env
      requires history == blocks && state == parent.View() && Addressable(blocks)
      modifies this
      ensures Valid() && history == old(history) && state == old(state)
      ensures r.Ok? ==> SubmitShare(env, blocks, parent.View(), old(View()), share, now) == Ok((View(), r.value))
      ensures r.Err? ==> SubmitShare(env, blocks, parent.View(), old(View()), share, now) == Err(r.error) && View() == old(View())
    {
      hide PoolOk, IdsNonzero, LedgerState.Valid, AcceptShare, CandidateWitness, ValidateWorkshares, SubmitShare, PathsAfter, Keyed;
      ghost var before := View();
      KeyedPool(env, history, state, before, paths);
      SubmitSplits(env, blocks, parent.View(), before, share, now);
      var w :- BuildWitness(share);
      var _ :- ComputeWorkshares(w, blocks, parent, SatAdd64(now, MAX_FUTURE_BLOCK_TIME));
      var changed :- Accept(share);
      SubmitKeepsPool(env, history, state, before, paths, share, now);
      paths := PathsAfter(env, before, paths, share);
      return Ok(changed);
    }
  }

  lemma KeyedPool(env: Env, history: seq<Block>, state: Ledger, p: Pool, paths: Paths)
    requires PoolOk(env, history, state, p, paths)
    ensures Keyed(env, p.templates)
  {
    hide Checked, PathsKept, WorkKept, TipKept;
  }

  lemma SubmitSplits(env: Env, history: seq<Block>, state: Ledger, p: Pool, share: Workshare, now: nat)
    ensures var w := CandidateWitness(p, share);
            if w.Err? then SubmitShare(env, history, state, p, share, now) == Err(w.error)
            else
              var v := ValidateWorkshares(env, w.value, history, state, SatAdd64(now, MAX_FUTURE_BLOCK_TIME));
              SubmitShare(env, history, state, p, share, now) == if v.Err? then Err(v.error) else AcceptShare(env, p, share)
  {
    hide CandidateWitness, ValidateWorkshares, AcceptShare;
  }

  lemma TipFacts(env: Env, history: seq<Block>, state: Ledger, p: Pool, paths: Paths)
    requires PoolOk(env, history, state, p, paths)
    ensures Keyed(env, p.templates) && p.work.Keys == p.shares.Keys == paths.Keys
    ensures p.tip == ZERO_HASH <==> p.shares == map[]
    ensures p.tip != ZERO_HASH ==>
              && p.tip in p.shares && p.tip in paths
              && CandidateWitness(p, p.shares[p.tip]) == Ok(WitnessOf(p.templates, paths[p.tip]))
    ensures forall id :: id in p.shares ==> p.tip in p.work && id in p.work && AheadOrSame(p.work, p.tip, id)
  {
    hide Checked, CandidateWitness, WitnessOf, Threaded, PathWork;
    if p.tip != ZERO_HASH {
      assert p.tip in p.work;
      RebuildNeverFails(env, p, paths, p.tip);
    }
    if p.shares == map[] {
      assert p.work.Keys == {};
      assert p.work == map[];
    }
  }
}
