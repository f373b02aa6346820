/** The witness a validator grows share by share is the pool's view of the same path: the templates
    the path refers to, in id order. */
module WitnessPrefix {
  import opened Base
  import opened Params
  import opened Types
  import opened Sorting
  import opened State
  import opened Merkle
  import opened Rewards
  import opened Validation
  import Limits

  type Templates = map<Hash, BlockTemplate>

  /** `templates` is keyed by template id. */
  ghost predicate Keyed(env: Env, templates: Templates) {
    forall id :: id in templates ==> env.templateId(templates[id]) == id
  }

  function TemplatesAt(templates: Templates, ids: seq<Hash>): (r: seq<BlockTemplate>)
    requires forall i :: 0 <= i < |ids| ==> ids[i] in templates
    ensures |r| == |ids|
    ensures forall i :: 0 <= i < |ids| ==> r[i] == templates[ids[i]]
  {
    seq(|ids|, i requires 0 <= i < |ids| => templates[ids[i]])
  }

  /** The templates a path refers to, as the pool's ordered map yields them. */
  function ReferencedTemplates(templates: Templates, path: seq<Workshare>): seq<BlockTemplate> {
    var ids := Sorted(Referenced(path) * templates.Keys);
    assert forall i :: 0 <= i < |ids| ==> ids[i] in Referenced(path) * templates.Keys;
    TemplatesAt(templates, ids)
  }

  function WitnessOf(templates: Templates, path: seq<Workshare>): WorkshareWitness {
    WorkshareWitness(WITNESS_VERSION, ReferencedTemplates(templates, path), path)
  }

  lemma WitnessOfFacts(env: Env, templates: Templates, path: seq<Workshare>)
    requires Keyed(env, templates)
    ensures TemplateIds(env, WitnessOf(templates, path).templates) == Sorted(Referenced(path) * templates.Keys)
    ensures forall t :: t in WitnessOf(templates, path).templates ==>
              var id := env.templateId(t); id in templates && templates[id] == t
  {
    var ids := Sorted(Referenced(path) * templates.Keys);
    assert forall i :: 0 <= i < |ids| ==> ids[i] in Referenced(path) * templates.Keys;
    var ts := ReferencedTemplates(templates, path);
    assert forall i :: 0 <= i < |ids| ==> ts[i] == templates[ids[i]];
  }

  /** A pool witness is canonical. */
  lemma WitnessIsCanonical(env: Env, templates: Templates, path: seq<Workshare>)
    requires Keyed(env, templates) && forall s :: s in path ==> s.templateId in templates
    ensures IsCanonical(env, WitnessOf(templates, path))
  {
    WitnessOfFacts(env, templates, path);
    var ids := TemplateIds(env, WitnessOf(templates, path).templates);
    assert Referenced(path) * templates.Keys == Referenced(path);
    assert forall i :: 0 <= i < |ids| - 1 ==> ids[i] < ids[i + 1];
  }

  /** A list of pool templates in id order is determined by its ids. */
  lemma ListedOnce(env: Env, templates: Templates, ts: seq<BlockTemplate>, path: seq<Workshare>)
    requires Keyed(env, templates)
    requires forall t :: t in ts ==> env.templateId(t) in templates && templates[env.templateId(t)] == t
    requires Ascending(TemplateIds(env, ts))
    requires forall id :: id in TemplateIds(env, ts) <==> id in Referenced(path) * templates.Keys
    ensures ts == ReferencedTemplates(templates, path)
  {
    var ids := Sorted(Referenced(path) * templates.Keys);
    AscendingUnique(TemplateIds(env, ts), ids);
    assert forall i :: 0 <= i < |ids| ==> ids[i] in Referenced(path) * templates.Keys;
    forall i | 0 <= i < |ids| ensures ts[i] == templates[ids[i]] {
      assert ts[i] in ts;
    }
  }

  // ------------------------------------------------------------------ one more share

  lemma SortedByIdIsAscending(env: Env, ts: seq<BlockTemplate>)
    requires Distinct(TemplateIds(env, ts))
    ensures var r := SortBy((x, y) => env.templateId(x) < env.templateId(y), ts);
            Ascending(TemplateIds(env, r)) && forall t :: t in r <==> t in ts
  {
    var before := (x, y) => env.templateId(x) < env.templateId(y);
    var ids := TemplateIds(env, ts);
    assert TotalOn(before, ts) by {
      forall i, j | 0 <= i < j < |ts| ensures before(ts[i], ts[j]) || before(ts[j], ts[i]) {
        assert ids[i] != ids[j];
      }
    }
    SortBySorts(before, ts);
    SameElements(SortBy(before, ts), ts);
  }

  lemma ReferencedSnoc(path: seq<Workshare>, s: Workshare)
    ensures Referenced(path + [s]) == Referenced(path) + {s.templateId}
  {
    assert forall x :: x in path + [s] <==> x in path || x == s;
  }

  lemma HasIdIff(env: Env, ts: seq<BlockTemplate>, id: Hash)
    ensures id in TemplateIds(env, ts) <==> exists t :: t in ts && env.templateId(t) == id
  {
    var ids := TemplateIds(env, ts);
    if id in ids {
      var i :| 0 <= i < |ids| && ids[i] == id;
      assert ts[i] in ts;
    }
    if t :| t in ts && env.templateId(t) == id {
      var i :| 0 <= i < |ts| && ts[i] == t;
      assert ids[i] == id;
    }
  }

  /** Appending a share to the validator's prefix appends it to the pool's. */
  lemma GrownIsWitness(env: Env, templates: Templates, path: seq<Workshare>, share: Workshare)
    requires Keyed(env, templates) && share.templateId in templates
    ensures Grown(env, WitnessOf(templates, path), templates[share.templateId], share) == WitnessOf(templates, path + [share])
  {
    var t := templates[share.templateId];
    var ts := ReferencedTemplates(templates, path);
    WitnessOfFacts(env, templates, path);
    ReferencedSnoc(path, share);
    HasIdIff(env, ts, share.templateId);
    hide Referenced, ReferencedTemplates, SortBy;
    if share.templateId in Referenced(path) {
      assert Referenced(path + [share]) == Referenced(path);
      assert AddTemplate(env, ts, t) == ts;
      ListedOnce(env, templates, ts, path + [share]);
    } else {
      AddedIsListed(env, templates, ts, path, share);
    }
  }

  lemma AddedDistinct(env: Env, ts: seq<BlockTemplate>, t: BlockTemplate)
    requires Ascending(TemplateIds(env, ts)) && env.templateId(t) !in TemplateIds(env, ts)
    ensures Distinct(TemplateIds(env, ts + [t]))
  {
    var ids, more := TemplateIds(env, ts), TemplateIds(env, ts + [t]);
    assert more == ids + [env.templateId(t)];
    forall i, j | 0 <= i < j < |more| ensures more[i] != more[j] {
      assert i < |ids| ==> ids[i] in ids;
    }
  }

  /** Adding a template under a new id: the sorted list holds exactly one more. */
  lemma AddNew(env: Env, ts: seq<BlockTemplate>, t: BlockTemplate)
    requires Ascending(TemplateIds(env, ts)) && env.templateId(t) !in TemplateIds(env, ts)
    ensures var added := AddTemplate(env, ts, t);
            Ascending(TemplateIds(env, added)) && forall x :: x in added <==> x in ts || x == t
  {
    HasIdIff(env, ts, env.templateId(t));
    AddedDistinct(env, ts, t);
    SortedByIdIsAscending(env, ts + [t]);
    assert forall x :: x in ts + [t] <==> x in ts || x == t;
  }

  lemma AddedIsListed(env: Env, templates: Templates, ts: seq<BlockTemplate>, path: seq<Workshare>, share: Workshare)
    requires Keyed(env, templates) && share.templateId in templates && share.templateId !in Referenced(path)
    requires ts == ReferencedTemplates(templates, path)
    ensures AddTemplate(env, ts, templates[share.templateId]) == ReferencedTemplates(templates, path + [share])
  {
    var t := templates[share.templateId];
    WitnessOfFacts(env, templates, path);
    assert WitnessOf(templates, path).templates == ts;
    ReferencedSnoc(path, share);
    hide Referenced, ReferencedTemplates, AddTemplate, WitnessOf;
    AddNew(env, ts, t);
    var added := AddTemplate(env, ts, t);
    forall x | x in added ensures env.templateId(x) in templates && templates[env.templateId(x)] == x {
      assert x in ts || x == t;
    }
    forall id ensures id in TemplateIds(env, added) <==> id in Referenced(path + [share]) * templates.Keys {
      HasIdIff(env, added, id);
      HasIdIff(env, ts, id);
    }
    ListedOnce(env, templates, added, path + [share]);
  }

  // ---------------------------------------------------------------- the whole prefix

  lemma GrownOnTop(env: Env, ctx: ShareContext, history: seq<Block>, state: Ledger, shares: seq<Workshare>)
    requires shares != [] && CheckShares(env, ctx, history, state, shares).Ok?
    ensures var front, share := shares[..|shares| - 1], shares[|shares| - 1];
            var previous := if front == [] then ZERO_HASH else env.shareId(front[|front| - 1]);
            && CheckShares(env, ctx, history, state, front).Ok?
            && CheckShare(env, ctx, history, state, share, previous, CheckShares(env, ctx, history, state, front).value).Ok?
            && share.templateId in ctx.templates
            && CheckShares(env, ctx, history, state, shares).value
               == Grown(env, CheckShares(env, ctx, history, state, front).value, ctx.templates[share.templateId], share)
  {
    hide CheckShare, Grown;
  }

  lemma NoShares(env: Env, ctx: ShareContext, history: seq<Block>, state: Ledger)
    ensures CheckShares(env, ctx, history, state, []) == Ok(WitnessOf(ctx.templates, []))
  {
    assert Referenced([]) * ctx.templates.Keys == {};
    assert CheckShares(env, ctx, history, state, []) == Ok(EMPTY_WITNESS);
  }

  /** Whatever shares the validator accepts, its prefix is the pool's witness of that path. */
  lemma {:induction false} PrefixIsWitness(env: Env, ctx: ShareContext, history: seq<Block>, state: Ledger, shares: seq<Workshare>)
    requires Keyed(env, ctx.templates)
    requires CheckShares(env, ctx, history, state, shares).Ok?
    ensures CheckShares(env, ctx, history, state, shares).value == WitnessOf(ctx.templates, shares)
  {
    hide CheckShares, CheckShare, Grown, WitnessOf;
    if shares == [] {
      NoShares(env, ctx, history, state);
    } else {
      var front, share := shares[..|shares| - 1], shares[|shares| - 1];
      GrownOnTop(env, ctx, history, state, shares);
      PrefixIsWitness(env, ctx, history, state, front);
      GrownIsWitness(env, ctx.templates, front, share);
      assert front + [share] == shares;
    }
  }

  // --------------------------------------------------------- what acceptance depends on

  /** Contexts for the same parent: they may differ in their templates and settling time. */
  predicate SameParent(a: ShareContext, b: ShareContext) {
    a == b.(templates := a.templates, settling := a.settling)
  }

  ghost predicate SettledBy(shares: seq<Workshare>, settling: nat) {
    forall s :: s in shares ==> s.candidateHeader.timestamp <= settling
  }

  ghost predicate SameTemplates(a: Templates, b: Templates, shares: seq<Workshare>) {
    forall s :: s in shares ==> s.templateId in a && s.templateId in b && a[s.templateId] == b[s.templateId]
  }

  lemma OneAgrees(env: Env, a: ShareContext, b: ShareContext, history: seq<Block>, state: Ledger, share: Workshare, previous: Hash, prefix: WorkshareWitness)
    requires SameParent(a, b)
    requires share.templateId in a.templates && share.templateId in b.templates && a.templates[share.templateId] == b.templates[share.templateId]
    requires share.candidateHeader.timestamp <= a.settling && share.candidateHeader.timestamp <= b.settling
    ensures CheckShare(env, a, history, state, share, previous, prefix) == CheckShare(env, b, history, state, share, previous, prefix)
  {
    hide RewardAllocation, TransitionFor, MerkleRoot, LedgerRoot, SumFees, Leaves;
  }

  /** The outcome depends only on the templates referred to, once all shares are timely. */
  lemma {:induction false} SharesAgree(env: Env, a: ShareContext, b: ShareContext, history: seq<Block>, state: Ledger, shares: seq<Workshare>)
    requires SameParent(a, b) && SameTemplates(a.templates, b.templates, shares)
    requires SettledBy(shares, a.settling) && SettledBy(shares, b.settling)
    ensures CheckShares(env, a, history, state, shares) == CheckShares(env, b, history, state, shares)
  {
    if shares != [] {
      hide CheckShare, Grown;
      var front, share := shares[..|shares| - 1], shares[|shares| - 1];
      SharesAgree(env, a, b, history, state, front);
      if CheckShares(env, a, history, state, front).Ok? {
        var previous := if front == [] then ZERO_HASH else env.shareId(front[|front| - 1]);
        assert share in shares;
        OneAgrees(env, a, b, history, state, share, previous, CheckShares(env, a, history, state, front).value);
      }
    }
  }

  lemma CheckedShareFacts(env: Env, ctx: ShareContext, history: seq<Block>, state: Ledger, share: Workshare, previous: Hash, prefix: WorkshareWitness)
    requires CheckShare(env, ctx, history, state, share, previous, prefix).Ok?
    ensures share.templateId in ctx.templates && share.previousWorkshare == previous
    ensures share.candidateHeader.timestamp <= ctx.settling && share.candidateHeader.bits == ctx.expectedBits
    ensures share.candidateHeader.previousBlock == BlockId(env, ctx.parent)
  {
    hide RewardAllocation, TransitionFor, MerkleRoot, LedgerRoot, SumFees, Leaves, TemplateOk;
  }

  /** Accepted shares are timely and name known templates. */
  lemma {:induction false} AcceptedAreTimely(env: Env, ctx: ShareContext, history: seq<Block>, state: Ledger, shares: seq<Workshare>)
    requires CheckShares(env, ctx, history, state, shares).Ok?
    ensures SettledBy(shares, ctx.settling)
    ensures forall s :: s in shares ==> s.templateId in ctx.templates && s.candidateHeader.bits == ctx.expectedBits
  {
    hide CheckShares, CheckShare, Grown;
    if shares != [] {
      var front, share := shares[..|shares| - 1], shares[|shares| - 1];
      GrownOnTop(env, ctx, history, state, shares);
      AcceptedAreTimely(env, ctx, history, state, front);
      var previous := if front == [] then ZERO_HASH else env.shareId(front[|front| - 1]);
      CheckedShareFacts(env, ctx, history, state, share, previous, CheckShares(env, ctx, history, state, front).value);
      forall s | s in shares
        ensures s.candidateHeader.timestamp <= ctx.settling && s.templateId in ctx.templates && s.candidateHeader.bits == ctx.expectedBits
      {
        assert s in front || s == share;
      }
    }
  }
}
