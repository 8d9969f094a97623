/** The invocation's configuration: the environment variables both entry
    points read once at start-up, and the choice of regions to scan. */
module Settings {
  import opened Wrappers
  import opened Text
  import Seqs

  const DefaultTagKey: string := "work-on-business-time"
  const DefaultTagValue: string := "true"
  const DefaultDryRun: string := "false"
  /** Region used when none is configured and the session has none either. */
  const FallbackRegion: string := "us-east-1"

  /** The raw environment: `None` is an unset variable. */
  datatype Env = Env(
    tagKey: Option<string>,
    tagValue: Option<string>,
    regions: Option<string>,
    dryRun: Option<string>)

  /** The parsed, immutable configuration of one invocation. */
  datatype Config = Config(
    tagKey: string,
    tagValue: string,
    regions: seq<string>,
    dryRun: bool)

  /** What a region entry of the parsed list looks like. */
  predicate WellFormedRegion(r: string) {
    r != [] && IsStripped(r) && ',' !in r
  }

  /** What one comma piece contributes: its stripped text unless blank. */
  function Kept(p: string): (r: seq<string>)
    ensures |r| <= 1
    ensures r == [] <==> AllSpace(p)
  {
    StripEmptyIff(p);
    var s := Strip(p);
    if s != [] then [s] else []
  }

  /** Strips every piece and keeps the non-blank ones, in order. */
  function CleanPieces(ps: seq<string>): (r: seq<string>)
    ensures |r| <= |ps|
    ensures forall i :: 0 <= i < |r| ==> r[i] != [] && IsStripped(r[i])
  {
    if ps == [] then []
    else
      var s, rest := Strip(ps[0]), CleanPieces(ps[1..]);
      if s == [] then rest else ConsNonBlank(s, rest); [s] + rest
  }

  /** Prepending a non-blank stripped piece keeps every entry so. */
  lemma ConsNonBlank(s: string, rest: seq<string>)
    requires s != [] && IsStripped(s)
    requires forall i :: 0 <= i < |rest| ==> rest[i] != [] && IsStripped(rest[i])
    ensures forall i :: 0 <= i < |[s] + rest| ==> ([s] + rest)[i] != [] && IsStripped(([s] + rest)[i])
  {
    var r := [s] + rest;
    forall i | 0 <= i < |r|
      ensures r[i] != [] && IsStripped(r[i])
    {
      if i > 0 {
        assert r[i] == rest[i - 1];
      }
    }
  }

  lemma {:induction false} CleanPiecesCommaFree(ps: seq<string>)
    requires forall i :: 0 <= i < |ps| ==> ',' !in ps[i]
    ensures forall i :: 0 <= i < |CleanPieces(ps)| ==> ',' !in CleanPieces(ps)[i]
    decreases |ps|
  {
    if ps != [] {
      StripKeepsOut(ps[0], ',');
      CleanPiecesCommaFree(ps[1..]);
      var s, rest := Strip(ps[0]), CleanPieces(ps[1..]);
      if s != [] {
        var r := [s] + rest;
        forall i | 0 <= i < |r|
          ensures ',' !in r[i]
        {
          if i > 0 {
            assert r[i] == rest[i - 1];
          }
        }
      }
    }
  }

  lemma CleanPiecesCons(p: string, ps: seq<string>)
    ensures CleanPieces([p] + ps) == Kept(p) + CleanPieces(ps)
  {
    assert ([p] + ps)[1..] == ps;
    Seqs.AppendNil(CleanPieces(ps));
  }

  lemma {:induction false} CleanPiecesAppend(a: seq<string>, b: seq<string>)
    ensures CleanPieces(a + b) == CleanPieces(a) + CleanPieces(b)
    decreases |a|
  {
    if a == [] {
      Seqs.AppendNil(b);
    } else {
      CleanPiecesAppend(a[1..], b);
      Seqs.ConsAppend(a, b);
      CleanPiecesCons(a[0], a[1..] + b);
      CleanPiecesCons(a[0], a[1..]);
      Seqs.ConsAppend(a, []);
      Seqs.AppendNil(a[1..]);
      Seqs.AppendAssoc(Kept(a[0]), CleanPieces(a[1..]), CleanPieces(b));
    }
  }

  /** The `REGIONS` variable: comma-separated, each piece stripped, blank
      pieces dropped; an unset variable is the empty string. */
  function ParseRegions(raw: string): (r: seq<string>)
    ensures forall i :: 0 <= i < |r| ==> WellFormedRegion(r[i])
  {
    CleanPiecesCommaFree(Split(raw, ','));
    CleanPieces(Split(raw, ','))
  }

  /** Text on either side of a comma contributes its regions in order. */
  lemma ParseRegionsAppend(a: string, b: string)
    ensures ParseRegions(a + [','] + b) == ParseRegions(a) + ParseRegions(b)
  {
    SplitAppend(a, b, ',');
    CleanPiecesAppend(Split(a, ','), Split(b, ','));
  }

  /** A comma-free piece yields nothing when blank, else its stripped text. */
  lemma ParseRegionsPiece(p: string)
    requires ',' !in p
    ensures ParseRegions(p) == if AllSpace(p) then [] else [Strip(p)]
  {
    SplitNoSep(p, ',');
  }

  /** A list of well-formed regions survives being written out as a
      comma-separated variable and parsed back. */
  lemma ParseRegionsJoin(rs: seq<string>)
    requires forall i :: 0 <= i < |rs| ==> WellFormedRegion(rs[i])
    ensures ParseRegions(Join(rs, ',')) == rs
  {
    if rs == [] {
      assert Split([], ',') == [""];
    } else {
      SplitJoin(rs, ',');
      CleanStripped(rs);
    }
  }

  /** A well-formed region is kept as it is. */
  lemma KeptWellFormed(p: string)
    requires WellFormedRegion(p)
    ensures Kept(p) == [p]
  {
    StripStripped(p);
  }

  /** Cleaning pieces that are already well-formed regions changes nothing. */
  lemma {:induction false} CleanStripped(rs: seq<string>)
    requires forall i :: 0 <= i < |rs| ==> WellFormedRegion(rs[i])
    ensures CleanPieces(rs) == rs
    decreases |rs|
  {
    if rs != [] {
      KeptWellFormed(rs[0]);
      CleanStripped(rs[1..]);
      Seqs.Cons(rs);
    }
  }

  /** The `DRY_RUN` variable: on exactly when it reads "true" in any case. */
  function ParseDryRun(raw: Option<string>): (on: bool)
    ensures raw.None? ==> !on
    ensures on <==> raw.Some? && EqualIgnoringCase(raw.value, "true")
  {
    var s := raw.GetOr(DefaultDryRun);
    LowerEqIff(s, "true");
    assert Lower("true") == "true";
    assert !EqualIgnoringCase(DefaultDryRun, "true") by {
      assert LowerChar(DefaultDryRun[0]) != LowerChar("true"[0]);
    }
    Lower(s) == "true"
  }

  /** The `TAG_VALUE` variable, lower-cased once at start-up. */
  function ParseTagValue(raw: Option<string>): (v: string)
    ensures IsLower(v)
    ensures EqualIgnoringCase(v, raw.GetOr(DefaultTagValue))
  {
    var s := raw.GetOr(DefaultTagValue);
    LowerIsLower(s);
    LowerEqIff(Lower(s), s);
    Lower(s)
  }

  /** Reads the whole configuration from the environment. */
  function Load(env: Env): (c: Config)
    ensures c.tagKey == env.tagKey.GetOr(DefaultTagKey)
    ensures IsLower(c.tagValue)
    ensures EqualIgnoringCase(c.tagValue, env.tagValue.GetOr(DefaultTagValue))
    ensures c.regions == ParseRegions(env.regions.GetOr(""))
    ensures forall i :: 0 <= i < |c.regions| ==> WellFormedRegion(c.regions[i])
    ensures env.regions.None? ==> c.regions == []
    ensures c.dryRun <==> env.dryRun.Some? && EqualIgnoringCase(env.dryRun.value, "true")
  {
    ParseRegionsPiece("");
    Config(
      env.tagKey.GetOr(DefaultTagKey),
      ParseTagValue(env.tagValue),
      ParseRegions(env.regions.GetOr("")),
      ParseDryRun(env.dryRun))
  }

  /** The regions to scan: the configured list when it is non-empty, else
      the session's own region, else the fallback. An empty session region
      counts as none. */
  function ResolveRegions(configured: seq<string>, ambient: Option<string>): (r: seq<string>)
    ensures |r| >= 1
    ensures configured != [] ==> r == configured
    ensures configured == [] && ambient.Some? && ambient.value != [] ==> r == [ambient.value]
    ensures configured == [] && (ambient.None? || ambient.value == []) ==> r == [FallbackRegion]
  {
    if configured != [] then configured
    else if ambient.Some? && ambient.value != [] then [ambient.value]
    else [FallbackRegion]
  }

  /** Resolution never yields a blank region name when the configured
      entries are parsed ones. */
  lemma ResolvedRegionsNamed(c: Config, ambient: Option<string>)
    requires forall i :: 0 <= i < |c.regions| ==> WellFormedRegion(c.regions[i])
    ensures forall i :: 0 <= i < |ResolveRegions(c.regions, ambient)| ==> ResolveRegions(c.regions, ambient)[i] != []
  {
  }
}
