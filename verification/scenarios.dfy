/** Concrete runs of the pipeline on small inputs: a stopped cluster tagged
    for scheduling is started, an untagged or available one is skipped, a
    dry run reports without calling the provider, a failing call drops its
    entry; and the edge cases of region-list parsing, the dry-run flag and
    tag handling. */
module Scenarios {
  import opened Wrappers
  import opened Text
  import opened Tags
  import opened Settings
  import opened Pipeline
  import Seqs

  /** Nothing set in the environment. */
  const Unset: Env := Env(None, None, None, None)

  /** The configuration the defaults produce. */
  const Defaults: Config := Config(DefaultTagKey, "true", [], false)

  /** The same configuration with dry-run on. */
  const DryDefaults: Config := Config(DefaultTagKey, "true", [], true)

  const Region: string := "us-east-1"

  /** The automation tag with a value that matches once lowered. */
  const TagTrue: Tag := Tag(DefaultTagKey, Some("True"))

  /** Cluster A: tagged "True", stopped. */
  const ClusterA: ClusterRecord := ClusterRecord("A", Some("arn:a"), Some("stopped"), [TagTrue], false)

  /** Cluster B: only an unrelated tag, stopped. */
  const ClusterB: ClusterRecord := ClusterRecord("B", Some("arn:b"), Some("stopped"), [Tag("team", Some("data"))], false)

  /** Cluster C: tagged, status "Available". */
  const ClusterC: ClusterRecord := ClusterRecord("C", Some("arn:c"), Some("Available"), [TagTrue], false)

  /** Cluster D: tagged, stopped, and a real start call would raise. */
  const ClusterD: ClusterRecord := ClusterRecord("D", Some("arn:d"), Some("stopped"), [TagTrue], true)

  /** Cluster E: tagged and available but with an empty ARN. */
  const ClusterE: ClusterRecord := ClusterRecord("E", Some(""), Some("available"), [TagTrue], false)

  /** With nothing set, the defaults apply: key "work-on-business-time",
      value "true", no regions, dry-run off. */
  lemma DefaultConfiguration()
    ensures Load(Unset) == Defaults
  {
    LowerOfLower(DefaultTagValue);
    assert Split("", ',') == [""];
    assert Strip("") == "";
    assert !EqualIgnoringCase(DefaultDryRun, "true") by {
      assert LowerChar(DefaultDryRun[0]) != LowerChar("true"[0]);
    }
  }

  /** No regions configured: the session region, else the fallback. */
  lemma FallbackRegions()
    ensures ResolveRegions([], None) == [Region]
    ensures ResolveRegions([], Some("")) == [Region]
    ensures ResolveRegions([], Some("sa-east-1")) == ["sa-east-1"]
  {
  }

  /** "TRUE" turns dry-run on; "yes" does not. */
  lemma DryRunSpellings()
    ensures ParseDryRun(Some("TRUE"))
    ensures !ParseDryRun(Some("yes"))
  {
    assert EqualIgnoringCase("TRUE", "true");
  }

  /** Two regions around a blank piece: the blank piece vanishes and the
      two regions keep their order. */
  lemma RegionListExample(a: string, blank: string, b: string)
    requires WellFormedRegion(a) && WellFormedRegion(b)
    requires AllSpace(blank) && ',' !in blank
    ensures ParseRegions(a + [','] + blank + [','] + b) == [a, b]
  {
    TrailingBlank(a, blank);
    ParseRegionsAppend(a + [','] + blank, b);
    SingleRegion(b);
    assert [a] + [b] == [a, b];
  }

  /** A region followed by a blank piece parses to that region alone. */
  lemma TrailingBlank(a: string, blank: string)
    requires WellFormedRegion(a)
    requires AllSpace(blank) && ',' !in blank
    ensures ParseRegions(a + [','] + blank) == [a]
  {
    ParseRegionsAppend(a, blank);
    SingleRegion(a);
    BlankPiece(blank);
    Seqs.AppendNil([a]);
  }

  /** A single well-formed region parses to itself. */
  lemma SingleRegion(a: string)
    requires WellFormedRegion(a)
    ensures ParseRegions(a) == [a]
  {
    ParseRegionsJoin([a]);
  }

  /** A blank piece contributes no region. */
  lemma BlankPiece(blank: string)
    requires AllSpace(blank) && ',' !in blank
    ensures ParseRegions(blank) == []
  {
    ParseRegionsPiece(blank);
  }

  /** The default value "true" is matched by "True". */
  lemma TagTrueEligible(c: ClusterRecord)
    requires c.tags == [TagTrue]
    ensures TagEligible(Defaults, c)
  {
    assert LastWithKey(c.tags, 0);
    assert TagMap(c.tags)[DefaultTagKey] == "True";
    LowerOfLower("true");
    LowerEqIff("True", "true");
  }

  /** Status "stopped" passes the start gate only. */
  lemma StoppedStatus(c: ClusterRecord)
    requires c.status == Some("stopped")
    ensures StatusOf(c) == Gate(Start) && StatusOf(c) != Gate(Stop)
  {
    assert StatusOf(c) == "stopped" by {
      LowerOfLower("stopped");
    }
    GatesDiffer();
  }

  /** Status "Available", in either case, passes the stop gate only. */
  lemma AvailableStatus(c: ClusterRecord)
    requires c.status == Some("Available") || c.status == Some("available")
    ensures StatusOf(c) == Gate(Stop) && StatusOf(c) != Gate(Start)
  {
    assert StatusOf(c) == "available" by {
      LowerOfLower("available");
      LowerEqIff("Available", "available");
    }
    GatesDiffer();
  }

  /** Cluster A carries the key with value "True" and is stopped: the start
      function starts it. */
  lemma ScenarioStartA()
    ensures ScanClusters(Defaults, Start, Region, [ClusterA]) == [ActionResult("A", Region, Started)]
  {
    assert Selected(Defaults, Start, ClusterA) by {
      TagTrueEligible(ClusterA);
      StoppedStatus(ClusterA);
    }
    ScanClustersSingle(Defaults, Start, Region, ClusterA);
  }

  /** Cluster B has no matching tag: the start function leaves it alone. */
  lemma ScenarioStartB()
    ensures ScanClusters(Defaults, Start, Region, [ClusterB]) == []
  {
    assert !Selected(Defaults, Start, ClusterB) by {
      assert ClusterB.tags[0].key != DefaultTagKey by {
        assert "team"[0] != DefaultTagKey[0];
      }
      assert DefaultTagKey !in TagMap(ClusterB.tags);
    }
    ScanClustersSingle(Defaults, Start, Region, ClusterB);
  }

  /** Cluster C matches but is available: the start function skips it. */
  lemma ScenarioStartC()
    ensures ScanClusters(Defaults, Start, Region, [ClusterC]) == []
  {
    assert !Selected(Defaults, Start, ClusterC) by {
      AvailableStatus(ClusterC);
    }
    ScanClustersSingle(Defaults, Start, Region, ClusterC);
  }

  /** Cluster C matches and is available: the stop function stops it. */
  lemma ScenarioStopC()
    ensures ScanClusters(Defaults, Stop, Region, [ClusterC]) == [ActionResult("C", Region, Stopped)]
  {
    assert Selected(Defaults, Stop, ClusterC) by {
      TagTrueEligible(ClusterC);
      AvailableStatus(ClusterC);
    }
    ScanClustersSingle(Defaults, Stop, Region, ClusterC);
  }

  /** Dry-run: cluster D is recorded as "dry-run" although a real call would
      have raised, because no call is made. */
  lemma ScenarioDryRunD()
    ensures ScanClusters(DryDefaults, Start, Region, [ClusterD]) == [ActionResult("D", Region, DryRun)]
    ensures !CallIssued(DryDefaults, Start, Region, ClusterD)
  {
    assert Selected(DryDefaults, Start, ClusterD) by {
      TagTrueEligible(ClusterD);
      assert TagEligible(DryDefaults, ClusterD);
      StoppedStatus(ClusterD);
    }
    ScanClustersSingle(DryDefaults, Start, Region, ClusterD);
  }

  /** With dry-run off the call for cluster D is issued, raises, and the
      cluster is left out of the results. */
  lemma ScenarioLiveRunD()
    ensures ScanClusters(Defaults, Start, Region, [ClusterD]) == []
    ensures CallIssued(Defaults, Start, Region, ClusterD)
  {
    assert HasArn(ClusterD) && TagEligible(Defaults, ClusterD) && StatusOf(ClusterD) == Gate(Start) by {
      TagTrueEligible(ClusterD);
      StoppedStatus(ClusterD);
    }
    CallIssuedIff(Defaults, Start, Region, ClusterD);
    ScanClustersSingle(Defaults, Start, Region, ClusterD);
  }

  /** An empty ARN is as good as none: the cluster is skipped unlogged. */
  lemma EmptyArnSkipped()
    ensures Evaluate(Defaults, Stop, Region, ClusterE) == MissingArn
    ensures AuditLog(Defaults, Stop, Region, [ClusterE]) == []
  {
  }

  /** The key is matched exactly: a tag whose key differs only in case does
      not make the cluster eligible, yet it is shown in the log line. */
  lemma KeyCaseMatters()
    ensures !Eligible(map["Work-On-Business-Time" := "true"], DefaultTagKey, "true")
    ensures "Work-On-Business-Time" in LoggedTags(map["Work-On-Business-Time" := "true"], DefaultTagKey)
  {
    var k := "Work-On-Business-Time";
    assert k != DefaultTagKey by {
      assert k[0] != DefaultTagKey[0];
    }
    assert EqualIgnoringCase(k, DefaultTagKey);
  }

  /** With a repeated key the later tag decides. */
  lemma LaterDuplicateWins()
    ensures !Eligible(TagMap([Tag(DefaultTagKey, Some("true")), Tag(DefaultTagKey, Some("false"))]), DefaultTagKey, "true")
    ensures Eligible(TagMap([Tag(DefaultTagKey, Some("false")), Tag(DefaultTagKey, Some("TRUE"))]), DefaultTagKey, "true")
  {
    var t1 := [Tag(DefaultTagKey, Some("true")), Tag(DefaultTagKey, Some("false"))];
    var t2 := [Tag(DefaultTagKey, Some("false")), Tag(DefaultTagKey, Some("TRUE"))];
    assert LastWithKey(t1, 1) && LastWithKey(t2, 1);
    assert TagMap(t1)[DefaultTagKey] == "false";
    assert TagMap(t2)[DefaultTagKey] == "TRUE";
    assert Lower("false")[0] == 'f';
    LowerOfLower("true");
    LowerEqIff("TRUE", "true");
  }

  /** A tag without a value reads as "", which only an empty configured
      value matches. */
  lemma MissingValueIsEmpty()
    ensures Eligible(TagMap([Tag(DefaultTagKey, None)]), DefaultTagKey, "")
    ensures !Eligible(TagMap([Tag(DefaultTagKey, None)]), DefaultTagKey, "true")
  {
    assert LastWithKey([Tag(DefaultTagKey, None)], 0);
    assert TagMap([Tag(DefaultTagKey, None)])[DefaultTagKey] == "";
  }
}
