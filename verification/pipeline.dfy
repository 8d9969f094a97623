/** The decision pipeline of both entry points, written once and
    parameterised by direction: for each region, for each page of clusters,
    for each cluster, decide whether to act and record the outcome. The
    provider is replaced by input data: the clusters listed per region, each
    with its tag list and an oracle saying whether the action call raises. */
module Pipeline {
  import opened Wrappers
  import opened Text
  import opened Tags
  import opened Settings
  import Seqs

  /** Which entry point runs: the start function or the stop function. */
  datatype Direction = Start | Stop

  /** The lower-cased status a cluster must have for the direction to act. */
  function Gate(d: Direction): string {
    match d
    case Start => "stopped"
    case Stop => "available"
  }

  /** The action recorded for a cluster that was acted on. */
  datatype Action = Started | Stopped | DryRun {
    /** The label written into the result entry. */
    function Name(): string {
      match this
      case Started => "started"
      case Stopped => "stopped"
      case DryRun => "dry-run"
    }
  }

  /** The label of a real action in each direction; also the name of the
      summary field holding the results. */
  function Verb(d: Direction): Action {
    match d
    case Start => Started
    case Stop => Stopped
  }

  /** The label recorded for an acted-on cluster. */
  function ActionFor(d: Direction, dryRun: bool): (a: Action)
    ensures a == DryRun <==> dryRun
    ensures !dryRun ==> a.Name() == (if d == Start then "started" else "stopped")
  {
    if dryRun then DryRun else Verb(d)
  }

  /** One cluster as listed by the provider, with its tag list and whether
      the state-changing call would raise (state fault or any other error). */
  datatype ClusterRecord = ClusterRecord(
    id: string,
    arn: Option<string>,
    status: Option<string>,
    tags: seq<Tag>,
    callRaises: bool)

  /** One page of the cluster listing; a page without clusters is empty. */
  type Page = seq<ClusterRecord>

  /** The provider's listings: `inv(k, r)` is the pages of clusters the
      listing returns on the `k`-th region visit (counting from 0), which
      visits region `r`. Every visit lists afresh, so a region named twice
      may show different clusters, or different statuses, the second time. */
  type Inventory = (nat, string) -> seq<Page>

  /** One entry of the returned result list. */
  datatype ActionResult = ActionResult(cluster: string, region: string, action: Action)

  /** The structured log line emitted for every cluster that has an ARN. */
  datatype LogLine = LogLine(
    cluster: string,
    region: string,
    status: string,
    eligibleByTag: bool,
    tags: map<string, string>)

  /** What happened to one cluster. */
  datatype Outcome =
    | MissingArn
    | Ineligible(log: LogLine)
    | WrongStatus(log: LogLine)
    | Failed(log: LogLine)
    | Acted(log: LogLine, entry: ActionResult)

  /** A missing or empty ARN is falsy: such a cluster is skipped. */
  predicate HasArn(c: ClusterRecord) {
    c.arn.Some? && c.arn.value != []
  }

  /** The cluster's status, lowered; a missing status reads as "". */
  function StatusOf(c: ClusterRecord): string {
    Lower(c.status.GetOr(""))
  }

  predicate TagEligible(cfg: Config, c: ClusterRecord) {
    Eligible(TagMap(c.tags), cfg.tagKey, cfg.tagValue)
  }

  /** The selection rule as one condition: the cluster produces a result
      entry exactly when all four gates pass. */
  predicate Selected(cfg: Config, d: Direction, c: ClusterRecord) {
    && HasArn(c)
    && TagEligible(cfg, c)
    && StatusOf(c) == Gate(d)
    && (cfg.dryRun || !c.callRaises)
  }

  /** The per-cluster body of the handler loop. */
  function Evaluate(cfg: Config, d: Direction, region: string, c: ClusterRecord): (o: Outcome)
    ensures o.MissingArn? <==> !HasArn(c)
    ensures o.Acted? <==> Selected(cfg, d, c)
    ensures o.Acted? ==> o.entry == ActionResult(c.id, region, ActionFor(d, cfg.dryRun))
    ensures o.Failed? ==> !cfg.dryRun
    ensures !o.MissingArn? ==>
      && o.log.cluster == c.id && o.log.region == region
      && o.log.status == StatusOf(c) && o.log.eligibleByTag == TagEligible(cfg, c)
      && o.log.tags == LoggedTags(TagMap(c.tags), cfg.tagKey)
  {
    if !HasArn(c) then MissingArn
    else
      var status := Lower(c.status.GetOr(""));
      var tags := TagMap(c.tags);
      var eligible := Eligible(tags, cfg.tagKey, cfg.tagValue);
      var log := LogLine(c.id, region, status, eligible, LoggedTags(tags, cfg.tagKey));
      if !eligible then Ineligible(log)
      else if status != Gate(d) then WrongStatus(log)
      else if !cfg.dryRun && c.callRaises then Failed(log)
      else Acted(log, ActionResult(c.id, region, ActionFor(d, cfg.dryRun)))
  }

  /** Whether the state-changing start/stop call is issued for the cluster. */
  predicate CallIssued(cfg: Config, d: Direction, region: string, c: ClusterRecord) {
    var o := Evaluate(cfg, d, region, c);
    !cfg.dryRun && (o.Acted? || o.Failed?)
  }

  /** The call is issued exactly for eligible clusters in the gate status
      outside dry-run mode, whatever the call then does; in dry-run mode it
      is never issued. */
  lemma CallIssuedIff(cfg: Config, d: Direction, region: string, c: ClusterRecord)
    ensures CallIssued(cfg, d, region, c) <==>
      HasArn(c) && TagEligible(cfg, c) && StatusOf(c) == Gate(d) && !cfg.dryRun
    ensures cfg.dryRun ==> !CallIssued(cfg, d, region, c)
  {
  }

  /** The two directions wait for different statuses. */
  lemma GatesDiffer()
    ensures Gate(Start) != Gate(Stop)
  {
    assert Gate(Start)[0] != Gate(Stop)[0];
  }

  /** The status gates of the two directions never both pass. */
  lemma DirectionsExclusive(cfg: Config, c: ClusterRecord)
    ensures !(Selected(cfg, Start, c) && Selected(cfg, Stop, c))
  {
    GatesDiffer();
  }

  /** The result entries one outcome contributes. */
  function Entries(o: Outcome): seq<ActionResult> {
    if o.Acted? then [o.entry] else []
  }

  /** The results of the clusters of one page, in listing order. */
  function ScanClusters(cfg: Config, d: Direction, region: string, cs: seq<ClusterRecord>): (r: seq<ActionResult>)
    ensures |r| <= |cs|
    ensures forall i :: 0 <= i < |r| ==> r[i].region == region && r[i].action == ActionFor(d, cfg.dryRun)
  {
    if cs == [] then []
    else Entries(Evaluate(cfg, d, region, cs[0])) + ScanClusters(cfg, d, region, cs[1..])
  }

  /** One cluster yields its entry exactly when it is selected. */
  lemma ScanClustersSingle(cfg: Config, d: Direction, region: string, c: ClusterRecord)
    ensures ScanClusters(cfg, d, region, [c]) ==
      if Selected(cfg, d, c) then [ActionResult(c.id, region, ActionFor(d, cfg.dryRun))] else []
  {
    assert [c][1..] == [];
  }

  /** Results keep listing order: the clusters of `a` before those of `b`. */
  lemma {:induction false} ScanClustersAppend(cfg: Config, d: Direction, region: string, a: seq<ClusterRecord>, b: seq<ClusterRecord>)
    ensures ScanClusters(cfg, d, region, a + b) == ScanClusters(cfg, d, region, a) + ScanClusters(cfg, d, region, b)
    decreases |a|
  {
    if a == [] {
      Seqs.AppendNil(b);
    } else {
      ScanClustersAppend(cfg, d, region, a[1..], b);
      Seqs.ConsAppend(a, b);
      Seqs.AppendAssoc(Entries(Evaluate(cfg, d, region, a[0])),
        ScanClusters(cfg, d, region, a[1..]), ScanClusters(cfg, d, region, b));
    }
  }

  /** An entry is in the results exactly when it is the entry of a selected
      cluster of the listing. */
  lemma ScanClustersMembers(cfg: Config, d: Direction, region: string, cs: seq<ClusterRecord>, e: ActionResult)
    ensures e in ScanClusters(cfg, d, region, cs) <==>
      exists i :: 0 <= i < |cs| && Selected(cfg, d, cs[i])
        && e == ActionResult(cs[i].id, region, ActionFor(d, cfg.dryRun))
  {
    if e in ScanClusters(cfg, d, region, cs) {
      var i := EntrySource(cfg, d, region, cs, e);
    }
    if exists i :: 0 <= i < |cs| && Selected(cfg, d, cs[i]) && e == ActionResult(cs[i].id, region, ActionFor(d, cfg.dryRun)) {
      var i :| 0 <= i < |cs| && Selected(cfg, d, cs[i])
        && e == ActionResult(cs[i].id, region, ActionFor(d, cfg.dryRun));
      EntryPresent(cfg, d, region, cs, i);
    }
  }

  /** Every result entry names the selected cluster it came from. */
  lemma {:induction false} EntrySource(cfg: Config, d: Direction, region: string, cs: seq<ClusterRecord>, e: ActionResult)
    returns (i: int)
    requires e in ScanClusters(cfg, d, region, cs)
    ensures 0 <= i < |cs| && Selected(cfg, d, cs[i])
    ensures e == ActionResult(cs[i].id, region, ActionFor(d, cfg.dryRun))
    decreases |cs|
  {
    var head := Entries(Evaluate(cfg, d, region, cs[0]));
    Seqs.InAppend(e, head, ScanClusters(cfg, d, region, cs[1..]));
    if e in head {
      i := 0;
    } else {
      var j := EntrySource(cfg, d, region, cs[1..], e);
      i := j + 1;
      assert cs[1..][j] == cs[i];
    }
  }

  /** Every selected cluster of the listing has its entry in the results. */
  lemma EntryPresent(cfg: Config, d: Direction, region: string, cs: seq<ClusterRecord>, i: int)
    requires 0 <= i < |cs| && Selected(cfg, d, cs[i])
    ensures ActionResult(cs[i].id, region, ActionFor(d, cfg.dryRun)) in ScanClusters(cfg, d, region, cs)
  {
    var e := ActionResult(cs[i].id, region, ActionFor(d, cfg.dryRun));
    var pre, post := cs[..i], cs[i..];
    Seqs.SplitAt(cs, i);
    ScanClustersAppend(cfg, d, region, pre, post);
    var head := Entries(Evaluate(cfg, d, region, post[0]));
    assert post[0] == cs[i];
    assert head == [e];
    Seqs.InAppend(e, head, ScanClusters(cfg, d, region, post[1..]));
    Seqs.InAppend(e, ScanClusters(cfg, d, region, pre), ScanClusters(cfg, d, region, post));
  }

  /** A cluster whose action raises contributes nothing and does not stop
      the clusters after it from being processed. */
  lemma FailureIsolated(cfg: Config, d: Direction, region: string,
                        a: seq<ClusterRecord>, c: ClusterRecord, b: seq<ClusterRecord>)
    requires !cfg.dryRun && c.callRaises
    ensures ScanClusters(cfg, d, region, a + [c] + b) == ScanClusters(cfg, d, region, a) + ScanClusters(cfg, d, region, b)
  {
    ScanClustersAppend(cfg, d, region, a + [c], b);
    ScanClustersAppend(cfg, d, region, a, [c]);
    ScanClustersSingle(cfg, d, region, c);
    Seqs.AppendNil(ScanClusters(cfg, d, region, a));
  }

  /** A cluster whose call raises contributes no entry outside dry-run. */
  lemma RaisingContributesNothing(cfg: Config, d: Direction, region: string, f: ClusterRecord)
    requires !cfg.dryRun && f.callRaises
    ensures ScanClusters(cfg, d, region, [f]) == []
  {
    ScanClustersSingle(cfg, d, region, f);
  }

  /** A selected cluster contributes exactly its entry. */
  lemma SelectedContributes(cfg: Config, d: Direction, region: string, c: ClusterRecord)
    requires Selected(cfg, d, c)
    ensures ScanClusters(cfg, d, region, [c]) == [ActionResult(c.id, region, ActionFor(d, cfg.dryRun))]
  {
    ScanClustersSingle(cfg, d, region, c);
  }

  /** Two one-cluster pages: the results are those of the second page when
      the first contributes nothing. */
  lemma TwoPages(cfg: Config, d: Direction, region: string, f: ClusterRecord, c: ClusterRecord, e: ActionResult)
    requires ScanClusters(cfg, d, region, [f]) == [] && ScanClusters(cfg, d, region, [c]) == [e]
    ensures ScanPages(cfg, d, region, [[f], [c]]) == [e]
  {
    var ps := [[f], [c]];
    assert ps[0] == [f] && ps[1..] == [[c]];
    assert [[c]][0] == [c] && [[c]][1..] == [];
    assert ScanPages(cfg, d, region, [[c]]) == [e] + [];
    Seqs.AppendNil([e]);
  }

  /** Over two pages, a cluster whose call raises on the first page does
      not keep a selected cluster on the second page from being acted on. */
  lemma FailureThenSuccess(cfg: Config, d: Direction, region: string, f: ClusterRecord, c: ClusterRecord)
    requires !cfg.dryRun && f.callRaises
    requires Selected(cfg, d, c)
    ensures ScanPages(cfg, d, region, [[f], [c]]) == [ActionResult(c.id, region, ActionFor(d, cfg.dryRun))]
  {
    RaisingContributesNothing(cfg, d, region, f);
    SelectedContributes(cfg, d, region, c);
    TwoPages(cfg, d, region, f, c, ActionResult(c.id, region, ActionFor(d, cfg.dryRun)));
  }

  /** The two listings differ at most in what the action calls would do. */
  predicate SameButOracle(cs: seq<ClusterRecord>, cs': seq<ClusterRecord>) {
    |cs| == |cs'| &&
    forall i :: 0 <= i < |cs| ==> cs[i].(callRaises := false) == cs'[i].(callRaises := false)
  }

  /** In dry-run mode no call is made, so whether a call would raise is
      irrelevant: every selected-by-tag-and-status cluster is recorded. */
  lemma {:induction false} DryRunIgnoresOracle(cfg: Config, d: Direction, region: string,
                                               cs: seq<ClusterRecord>, cs': seq<ClusterRecord>)
    requires cfg.dryRun
    requires SameButOracle(cs, cs')
    ensures ScanClusters(cfg, d, region, cs) == ScanClusters(cfg, d, region, cs')
    decreases |cs|
  {
    if cs != [] {
      assert cs[0].(callRaises := false) == cs'[0].(callRaises := false);
      assert Evaluate(cfg, d, region, cs[0]) == Evaluate(cfg, d, region, cs'[0]);
      assert SameButOracle(cs[1..], cs'[1..]) by {
        forall i | 0 <= i < |cs| - 1
          ensures cs[1..][i].(callRaises := false) == cs'[1..][i].(callRaises := false)
        {
          assert cs[1..][i] == cs[i + 1] && cs'[1..][i] == cs'[i + 1];
        }
      }
      DryRunIgnoresOracle(cfg, d, region, cs[1..], cs'[1..]);
    }
  }

  /** The log lines of one page: one per cluster that has an ARN. */
  function AuditLog(cfg: Config, d: Direction, region: string, cs: seq<ClusterRecord>): (r: seq<LogLine>)
    ensures |r| <= |cs|
    ensures forall i :: 0 <= i < |r| ==> r[i].region == region
  {
    if cs == [] then []
    else
      var o := Evaluate(cfg, d, region, cs[0]);
      (if o.MissingArn? then [] else [o.log]) + AuditLog(cfg, d, region, cs[1..])
  }

  /** One cluster gets its own log line exactly when it has an ARN, whether
      or not it is then acted on. */
  lemma AuditLogSingle(cfg: Config, d: Direction, region: string, c: ClusterRecord)
    ensures AuditLog(cfg, d, region, [c]) ==
      if HasArn(c) then [Evaluate(cfg, d, region, c).log] else []
  {
    assert [c][1..] == [];
  }

  /** Log lines keep listing order: the clusters of `a` before those of `b`. */
  lemma {:induction false} AuditLogAppend(cfg: Config, d: Direction, region: string, a: seq<ClusterRecord>, b: seq<ClusterRecord>)
    ensures AuditLog(cfg, d, region, a + b) == AuditLog(cfg, d, region, a) + AuditLog(cfg, d, region, b)
    decreases |a|
  {
    if a == [] {
      Seqs.AppendNil(b);
    } else {
      var o := Evaluate(cfg, d, region, a[0]);
      AuditLogAppend(cfg, d, region, a[1..], b);
      Seqs.ConsAppend(a, b);
      Seqs.AppendAssoc(if o.MissingArn? then [] else [o.log],
        AuditLog(cfg, d, region, a[1..]), AuditLog(cfg, d, region, b));
    }
  }

  /** Every cluster acted on has a log line marking it eligible and in the
      gate status. */
  lemma {:induction false} ActedWereLogged(cfg: Config, d: Direction, region: string, cs: seq<ClusterRecord>, e: ActionResult)
    requires e in ScanClusters(cfg, d, region, cs)
    ensures exists l :: l in AuditLog(cfg, d, region, cs) && l.cluster == e.cluster && l.eligibleByTag && l.status == Gate(d)
    decreases |cs|
  {
    var o := Evaluate(cfg, d, region, cs[0]);
    if o.Acted? && e == o.entry {
      assert o.log in AuditLog(cfg, d, region, cs);
    } else {
      ActedWereLogged(cfg, d, region, cs[1..], e);
      var l :| l in AuditLog(cfg, d, region, cs[1..])
        && l.cluster == e.cluster && l.eligibleByTag && l.status == Gate(d);
      assert l in AuditLog(cfg, d, region, cs);
    }
  }

  /** The results of all pages of one region, page by page. */
  function ScanPages(cfg: Config, d: Direction, region: string, pages: seq<Page>): (r: seq<ActionResult>)
    ensures forall i :: 0 <= i < |r| ==> r[i].region == region && r[i].action == ActionFor(d, cfg.dryRun)
  {
    if pages == [] then []
    else ScanClusters(cfg, d, region, pages[0]) + ScanPages(cfg, d, region, pages[1..])
  }

  /** One step of `ScanPages`: the first page's results come first. */
  lemma ScanPagesCons(cfg: Config, d: Direction, region: string, p: Page, ps: seq<Page>)
    ensures ScanPages(cfg, d, region, [p] + ps) == ScanClusters(cfg, d, region, p) + ScanPages(cfg, d, region, ps)
  {
    assert ([p] + ps)[1..] == ps;
  }

  /** All clusters of a listing, page after page. */
  function Flatten(pages: seq<Page>): seq<ClusterRecord> {
    if pages == [] then [] else pages[0] + Flatten(pages[1..])
  }

  /** Flattening loses and invents no cluster: a record is in the listing
      exactly when it is on one of its pages. */
  lemma {:induction false} FlattenMembers(pages: seq<Page>, c: ClusterRecord)
    ensures c in Flatten(pages) <==> exists i :: 0 <= i < |pages| && c in pages[i]
    decreases |pages|
  {
    if pages != [] {
      FlattenMembers(pages[1..], c);
      Seqs.InAppend(c, pages[0], Flatten(pages[1..]));
      if c in Flatten(pages[1..]) {
        var i :| 0 <= i < |pages[1..]| && c in pages[1..][i];
        assert pages[1..][i] == pages[i + 1];
      }
      if exists i :: 0 <= i < |pages| && c in pages[i] {
        var i :| 0 <= i < |pages| && c in pages[i];
        if i > 0 {
          assert pages[1..][i - 1] == pages[i];
        }
      }
    }
  }

  /** Paging is transparent: the results are those of the concatenated
      listing. */
  lemma {:induction false} ScanPagesFlatten(cfg: Config, d: Direction, region: string, pages: seq<Page>)
    ensures ScanPages(cfg, d, region, pages) == ScanClusters(cfg, d, region, Flatten(pages))
    decreases |pages|
  {
    if pages != [] {
      ScanPagesFlatten(cfg, d, region, pages[1..]);
      ScanClustersAppend(cfg, d, region, pages[0], Flatten(pages[1..]));
    }
  }

  lemma {:induction false} ScanPagesAppend(cfg: Config, d: Direction, region: string, a: seq<Page>, b: seq<Page>)
    ensures ScanPages(cfg, d, region, a + b) == ScanPages(cfg, d, region, a) + ScanPages(cfg, d, region, b)
    decreases |a|
  {
    if a == [] {
      Seqs.AppendNil(b);
    } else {
      ScanPagesAppend(cfg, d, region, a[1..], b);
      Seqs.ConsAppend(a, b);
      ScanPagesCons(cfg, d, region, a[0], a[1..] + b);
      Seqs.Cons(a);
      ScanPagesCons(cfg, d, region, a[0], a[1..]);
      Seqs.AppendAssoc(ScanClusters(cfg, d, region, a[0]),
        ScanPages(cfg, d, region, a[1..]), ScanPages(cfg, d, region, b));
    }
  }

  /** The results of the region visits numbered `first`, `first + 1`, ...,
      one visit per entry of `regions`, in region order. */
  function ScanRegions(cfg: Config, d: Direction, regions: seq<string>, inv: Inventory, first: nat): (r: seq<ActionResult>)
    ensures forall i :: 0 <= i < |r| ==> r[i].region in regions && r[i].action == ActionFor(d, cfg.dryRun)
  {
    if regions == [] then []
    else
      var rest := ScanRegions(cfg, d, regions[1..], inv, first + 1);
      assert forall i :: 0 <= i < |rest| ==> rest[i].region in regions;
      ScanPages(cfg, d, regions[0], inv(first, regions[0])) + rest
  }

  /** One step of `ScanRegions`: the first visit's results come first. */
  lemma ScanRegionsCons(cfg: Config, d: Direction, x: string, rest: seq<string>, inv: Inventory, first: nat)
    ensures ScanRegions(cfg, d, [x] + rest, inv, first) ==
      ScanPages(cfg, d, x, inv(first, x)) + ScanRegions(cfg, d, rest, inv, first + 1)
  {
    assert ([x] + rest)[1..] == rest;
  }

  /** Results follow region order: those of the visits of `a` come before
      those of the visits of `b`, which are numbered from `mid`, right after
      them. */
  lemma {:induction false} ScanRegionsAppend(cfg: Config, d: Direction, a: seq<string>, b: seq<string>, inv: Inventory, first: nat, mid: nat)
    requires mid == first + |a|
    ensures ScanRegions(cfg, d, a + b, inv, first) ==
      ScanRegions(cfg, d, a, inv, first) + ScanRegions(cfg, d, b, inv, mid)
    decreases |a|
  {
    if a == [] {
      Seqs.AppendNil(b);
    } else {
      var x, t := a[0], a[1..];
      var front, middle, back := ScanPages(cfg, d, x, inv(first, x)),
        ScanRegions(cfg, d, t, inv, first + 1), ScanRegions(cfg, d, b, inv, mid);
      ScanRegionsAppend(cfg, d, t, b, inv, first + 1, mid);
      Seqs.ConsAppend(a, b);
      ScanRegionsCons(cfg, d, x, t + b, inv, first);
      assert ScanRegions(cfg, d, a + b, inv, first) == front + (middle + back);
      Seqs.Cons(a);
      ScanRegionsCons(cfg, d, x, t, inv, first);
      Seqs.AppendAssoc(front, middle, back);
    }
  }

  /** A region named twice is listed twice, and each visit acts on what its
      own listing shows. */
  lemma RepeatedRegion(cfg: Config, d: Direction, r: string, inv: Inventory)
    ensures ScanRegions(cfg, d, [r, r], inv, 0) ==
      ScanPages(cfg, d, r, inv(0, r)) + ScanPages(cfg, d, r, inv(1, r))
  {
    ScanRegionsCons(cfg, d, r, [r], inv, 0);
    ScanRegionsCons(cfg, d, r, [], inv, 1);
    Seqs.AppendNil(ScanPages(cfg, d, r, inv(1, r)));
  }

  /** The value the handler returns. */
  datatype Summary = Summary(
    direction: Direction,
    results: seq<ActionResult>,
    dryRun: bool,
    regions: seq<string>,
    tagKey: string,
    tagValue: string)
  {
    /** The key under which the results are returned: "started" or "stopped". */
    function ResultsField(): string {
      Verb(direction).Name()
    }
  }

  /** The start function returns its results under "started", the stop
      function under "stopped". */
  lemma ResultsFieldName(s: Summary)
    ensures s.ResultsField() == (if s.direction == Start then "started" else "stopped")
  {
  }

  /** One invocation of an entry point: read the configuration, resolve the
      regions, scan them and summarise. */
  function Handler(env: Env, ambient: Option<string>, inv: Inventory, d: Direction): (s: Summary)
    ensures s.direction == d
    ensures s.regions == ResolveRegions(Load(env).regions, ambient)
    ensures |s.regions| >= 1
    ensures s.tagKey == env.tagKey.GetOr(DefaultTagKey)
    ensures IsLower(s.tagValue) && EqualIgnoringCase(s.tagValue, env.tagValue.GetOr(DefaultTagValue))
    ensures s.dryRun <==> env.dryRun.Some? && EqualIgnoringCase(env.dryRun.value, "true")
    ensures s.results == ScanRegions(Load(env), d, s.regions, inv, 0)
    ensures forall i :: 0 <= i < |s.results| ==>
      s.results[i].region in s.regions && s.results[i].action == ActionFor(d, s.dryRun)
  {
    var cfg := Load(env);
    var regions := ResolveRegions(cfg.regions, ambient);
    Summary(d, ScanRegions(cfg, d, regions, inv, 0), cfg.dryRun, regions, cfg.tagKey, cfg.tagValue)
  }
}
