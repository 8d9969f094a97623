/** The entry point as the source writes it: nested loops over regions,
    pages and clusters that skip with `continue` and append to one result
    list. Shown equal to the functional fold, so every property proved of
    the fold holds of this loop. */
module Invocation {
  import opened Wrappers
  import opened Text
  import opened Tags
  import opened Settings
  import opened Pipeline
  import Seqs

  /** The innermost loop over the clusters of one page. */
  method ScanPage(cfg: Config, d: Direction, region: string, page: Page) returns (found: seq<ActionResult>)
    ensures found == ScanClusters(cfg, d, region, page)
  {
    found := [];
    var k := 0;
    while k < |page|
      invariant 0 <= k <= |page|
      invariant found == ScanClusters(cfg, d, region, page[..k])
    {
      var c := page[k];
      ScanClustersStep(cfg, d, region, page, k);
      k := k + 1;
      if !HasArn(c) {
        continue;
      }
      var status := Lower(c.status.GetOr(""));
      var tags := TagMap(c.tags);
      var eligible := Eligible(tags, cfg.tagKey, cfg.tagValue);
      if !eligible || status != Gate(d) {
        continue;
      }
      if cfg.dryRun || !c.callRaises {
        found := found + [ActionResult(c.id, region, ActionFor(d, cfg.dryRun))];
      }
    }
    Seqs.TakeAll(page);
  }

  /** The loop over the pages the paginator yields for one region. */
  method ScanRegion(cfg: Config, d: Direction, region: string, pages: seq<Page>) returns (found: seq<ActionResult>)
    ensures found == ScanPages(cfg, d, region, pages)
  {
    found := [];
    var p := 0;
    while p < |pages|
      invariant 0 <= p <= |pages|
      invariant found == ScanPages(cfg, d, region, pages[..p])
    {
      var fromPage := ScanPage(cfg, d, region, pages[p]);
      ScanPagesStep(cfg, d, region, pages, p);
      found := found + fromPage;
      p := p + 1;
    }
    Seqs.TakeAll(pages);
  }

  /** The outer loop over the resolved regions, in order. */
  method ScanAll(cfg: Config, d: Direction, regions: seq<string>, inv: Inventory) returns (results: seq<ActionResult>)
    ensures results == ScanRegions(cfg, d, regions, inv, 0)
  {
    results := [];
    var i := 0;
    while i < |regions|
      invariant 0 <= i <= |regions|
      invariant results == ScanRegions(cfg, d, regions[..i], inv, 0)
    {
      var region := regions[i];
      var fromRegion := ScanRegion(cfg, d, region, inv(i, region));
      ScanRegionsStep(cfg, d, regions, i, inv);
      results := results + fromRegion;
      i := i + 1;
    }
    Seqs.TakeAll(regions);
  }

  /** The handler: read the configuration, resolve the regions, scan them
      and return the summary. */
  method RunHandler(env: Env, ambient: Option<string>, inv: Inventory, d: Direction) returns (s: Summary)
    ensures s == Handler(env, ambient, inv, d)
  {
    var cfg := Load(env);
    var regions := ResolveRegions(cfg.regions, ambient);
    var results := ScanAll(cfg, d, regions, inv);
    s := Summary(d, results, cfg.dryRun, regions, cfg.tagKey, cfg.tagValue);
  }

  /** One more cluster of the page: its entry, if any, goes at the end. */
  lemma ScanClustersStep(cfg: Config, d: Direction, region: string, page: Page, k: int)
    requires 0 <= k < |page|
    ensures Selected(cfg, d, page[k]) ==>
      ScanClusters(cfg, d, region, page[..k + 1]) ==
        ScanClusters(cfg, d, region, page[..k]) + [ActionResult(page[k].id, region, ActionFor(d, cfg.dryRun))]
    ensures !Selected(cfg, d, page[k]) ==>
      ScanClusters(cfg, d, region, page[..k + 1]) == ScanClusters(cfg, d, region, page[..k])
  {
    ScanClustersAppend(cfg, d, region, page[..k], [page[k]]);
    ScanClustersSingle(cfg, d, region, page[k]);
    Seqs.TakeSnoc(page, k);
    Seqs.AppendNil(ScanClusters(cfg, d, region, page[..k]));
  }

  /** One more page: its results go at the end. */
  lemma ScanPagesStep(cfg: Config, d: Direction, region: string, pages: seq<Page>, p: int)
    requires 0 <= p < |pages|
    ensures ScanPages(cfg, d, region, pages[..p + 1]) ==
      ScanPages(cfg, d, region, pages[..p]) + ScanClusters(cfg, d, region, pages[p])
  {
    ScanPagesAppend(cfg, d, region, pages[..p], [pages[p]]);
    Seqs.TakeSnoc(pages, p);
    Seqs.AppendNil(ScanClusters(cfg, d, region, pages[p]));
  }

  /** One more region visit: its results go at the end. */
  lemma ScanRegionsStep(cfg: Config, d: Direction, regions: seq<string>, i: int, inv: Inventory)
    requires 0 <= i < |regions|
    ensures ScanRegions(cfg, d, regions[..i + 1], inv, 0) ==
      ScanRegions(cfg, d, regions[..i], inv, 0) + ScanPages(cfg, d, regions[i], inv(i, regions[i]))
  {
    var x := regions[i];
    ScanRegionsAppend(cfg, d, regions[..i], [x], inv, 0, i);
    Seqs.TakeSnoc(regions, i);
    ScanRegionsCons(cfg, d, x, [], inv, i);
    Seqs.AppendNil([x]);
    Seqs.AppendNil(ScanPages(cfg, d, x, inv(i, x)));
  }

  /** Every returned entry comes from the listing that one of the region
      visits the summary reports saw, and is the entry of a selected cluster
      there. */
  lemma HandlerResultsOrigin(env: Env, ambient: Option<string>, inv: Inventory, d: Direction, e: ActionResult)
    requires e in Handler(env, ambient, inv, d).results
    ensures var s := Handler(env, ambient, inv, d);
            exists k, c ::
              && 0 <= k < |s.regions| && c in Flatten(inv(k, s.regions[k]))
              && Selected(Load(env), d, c) && e == ActionResult(c.id, s.regions[k], ActionFor(d, Load(env).dryRun))
  {
    var s := Handler(env, ambient, inv, d);
    var cfg := Load(env);
    var k, v := ScanRegionsOrigin(cfg, d, s.regions, inv, 0, e);
    var r := s.regions[k];
    var pages := inv(v, r);
    assert pages == inv(k, r) by {
      assert v == k;
    }
    var cs := Flatten(pages);
    ScanPagesFlatten(cfg, d, r, pages);
    var j := EntrySource(cfg, d, r, cs, e);
    assert cs[j] in cs;
  }

  /** Every result comes from the listing of one of the visits: the `k`-th
      entry of `regions`, visited as visit `v`, which is `first + k`. */
  lemma {:induction false} ScanRegionsOrigin(cfg: Config, d: Direction, regions: seq<string>, inv: Inventory, first: nat, e: ActionResult)
      returns (k: nat, v: nat)
    requires e in ScanRegions(cfg, d, regions, inv, first)
    ensures k < |regions| && v == first + k
    ensures e in ScanPages(cfg, d, regions[k], inv(v, regions[k]))
    decreases |regions|
  {
    var x, t := regions[0], regions[1..];
    var here, later := ScanPages(cfg, d, x, inv(first, x)), ScanRegions(cfg, d, t, inv, first + 1);
    assert e in here + later by {
      Seqs.Cons(regions);
      ScanRegionsCons(cfg, d, x, t, inv, first);
    }
    Seqs.InAppend(e, here, later);
    if e in here {
      k, v := 0, first;
    } else {
      var j, w := ScanRegionsOrigin(cfg, d, t, inv, first + 1, e);
      k, v := j + 1, w;
      assert regions[1..][j] == regions[k];
    }
  }
}
