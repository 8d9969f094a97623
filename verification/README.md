# Tag-driven start/stop of document-database clusters — a Dafny model

The repository has two scheduled entry points, `start-docdb-cluster.py` and
`stop-docdb-cluster.py`. Each scans every configured region, reads each
cluster's tags, and starts (or stops) the clusters that carry the configured
tag with the configured value and whose status allows the action. It then
returns a summary of what it did. The two files are the same program with a
different status gate (`"stopped"` for start, `"available"` for stop) and a
different verb. This model writes that program once, parameterised by a
`Direction`.

The provider is replaced by data:

- the cluster listings are a function from a visit number and a region
  name to a sequence of pages of cluster records (`Pipeline.Inventory`).
  The `k`-th region visit of a run sees listing `k`, so a region named
  twice is listed afresh on each visit and may show different clusters;
- each record carries its identifier, optional ARN, optional status and tag
  list, plus an oracle `callRaises` saying whether the start/stop call would
  raise;
- environment variables are `Option<string>` values (`Settings.Env`);
- the session's own region is an `Option<string>` parameter.

Files:

- `text.dfy` (`Text`): `str.lower` (ASCII letters), `str.strip` (Python's
  `isspace` set), and `str.split` / `join` on one separator.
- `settings.dfy` (`Settings`): the four environment variables and region
  resolution.
- `tags.dfy` (`Tags`): the tag dictionary, the eligibility rule and the
  tag subset shown in the log line.
- `pipeline.dfy` (`Pipeline`): the per-cluster decision, the fold over
  clusters, pages and regions, and the summary.
- `handler.dfy` (`Invocation`): the handler's nested loops, written as the
  source writes them and proved equal to the fold.
- `scenarios.dfy` (`Scenarios`): the worked examples and edge cases.
- `wrappers.dfy`, `seqs.dfy`: `Option` and generic sequence facts.

Points worth knowing about the code:

- The key match is exact, not case-insensitive. Only the value comparison
  ignores case.
- A cluster without an ARN, or with an empty one, gets only a warning. It
  does not get the structured log line.
- A missing status reads as `""`.
- An empty session region falls back to `us-east-1`, because the code uses
  `region_name or "us-east-1"`.

## Model

| member | source | states |
|---|---|---|
| Settings.ParseRegions | stop-docdb-cluster.py:15 | every parsed region is non-empty, has no surrounding whitespace and contains no comma |
| Settings.ParseRegionsAppend | stop-docdb-cluster.py:15 | the regions of `a,b` are those of `a` followed by those of `b`: comma pieces keep their order |
| Settings.ParseRegionsPiece | start-docdb-cluster.py:14 | one comma-free piece yields nothing when blank, else exactly its stripped text |
| Settings.ParseRegionsJoin | stop-docdb-cluster.py:15 | any list of well-formed regions, written comma-separated, parses back to itself |
| Text.Strip | start-docdb-cluster.py:14 | `strip()` leaves no whitespace at either end |
| Text.StripEmptyIff | stop-docdb-cluster.py:15 | the `if r.strip()` filter drops a piece exactly when the piece is all whitespace |
| Text.Split | stop-docdb-cluster.py:15 | `split(",")` yields at least one piece, and no piece contains a comma |
| Text.StripDecomposes | stop-docdb-cluster.py:15 | `strip()` removes only surrounding whitespace: the piece is whitespace, the result, whitespace |
| Text.StripIdempotent | stop-docdb-cluster.py:15 | stripping a stripped region changes nothing |
| Text.JoinSplit | stop-docdb-cluster.py:15 | `split(",")` loses no text: re-joining the pieces gives the variable back |
| Text.SplitJoin | start-docdb-cluster.py:14 | comma-free pieces joined by commas split back into the same pieces |
| Text.Lower | stop-docdb-cluster.py:58 | `lower()` keeps the length, lower-cases each ASCII capital and leaves every other character as it is |
| Text.LowerEqIff | stop-docdb-cluster.py:38 | comparing lowered strings is exactly comparison up to letter case |
| Settings.ParseDryRun | start-docdb-cluster.py:15 | dry-run is on exactly when `DRY_RUN` is set and reads "true" in any case; unset means off |
| Settings.ParseTagValue | stop-docdb-cluster.py:13 | the configured value is lower case and equals the raw `TAG_VALUE` (default "true") up to case |
| Settings.Load | start-docdb-cluster.py:12-15 | the configuration: key defaults to "work-on-business-time"; value lowered; regions exactly the parse of `REGIONS`, empty when it is unset; dry-run parsed |
| Settings.ResolveRegions | stop-docdb-cluster.py:24-29 | never empty; the configured list when non-empty, else exactly one region: a non-empty session region or "us-east-1" |
| Settings.ResolvedRegionsNamed | start-docdb-cluster.py:22-26 | no resolved region name is empty |
| Tags.TagMap | stop-docdb-cluster.py:31-34 | the dictionary has exactly the listed keys; a missing value maps to ""; for a repeated key the last occurrence wins |
| Tags.Eligible | stop-docdb-cluster.py:36-38 | eligibility needs the configured key present; an absent key gives false, not an error |
| Tags.EligibleIff | start-docdb-cluster.py:32-34 | eligible iff the exact configured key is present and its value equals the lower-case configured value up to case |
| Tags.EligibleFromList | start-docdb-cluster.py:28-34 | on the raw tag list: eligible iff the last tag with the configured key has a value equal up to case (missing value reads "") |
| Tags.LoggedTags | stop-docdb-cluster.py:73 | the logged subset holds exactly the tags whose key equals the configured key up to case, with unchanged values |
| Tags.LoggedTagsShowKey | start-docdb-cluster.py:63-69 | an eligible cluster's log line shows the configured key with its value |
| Pipeline.ActionFor | stop-docdb-cluster.py:85 | the label is "dry-run" iff dry-run is on, else "stopped" or "started" by direction |
| Pipeline.Evaluate | stop-docdb-cluster.py:56-89 | per cluster: skipped iff no usable ARN; acted iff all four gates pass, with the cluster's entry; the log line carries the cluster's id, region, status and eligibility, and the logged subset of its tags |
| Pipeline.CallIssuedIff | stop-docdb-cluster.py:40-45 | the stop/start call is issued iff ARN, tag and status gates pass and dry-run is off; in dry-run mode it never is |
| Pipeline.DirectionsExclusive | start-docdb-cluster.py:74-76 | no cluster passes the start gate and the stop gate at once |
| Pipeline.ScanClusters | stop-docdb-cluster.py:55-89 | no more entries than listed clusters; every entry carries the scanned region and the direction's label |
| Pipeline.ScanClustersSingle | start-docdb-cluster.py:52-84 | one cluster yields its entry exactly when it has an ARN, is tag-eligible, is in the gate status and the call did not raise |
| Pipeline.ScanClustersAppend | stop-docdb-cluster.py:55-89 | results follow listing order: the clusters of `a` before those of `b` |
| Pipeline.ScanClustersMembers | start-docdb-cluster.py:51-84 | an entry is in the results iff it is the entry of some selected cluster of the listing |
| Pipeline.EntrySource | stop-docdb-cluster.py:55-89 | every result entry names a selected cluster of the listing, with the region and the direction's label |
| Pipeline.EntryPresent | stop-docdb-cluster.py:55-89 | every selected cluster of the listing has its entry among the results |
| Pipeline.FailureIsolated | stop-docdb-cluster.py:83-89 | a cluster whose call raises contributes nothing and later clusters are still processed |
| Pipeline.FailureThenSuccess | stop-docdb-cluster.py:53-89 | a raising cluster on one page does not stop a selected cluster on the next page from being acted on |
| Pipeline.DryRunIgnoresOracle | start-docdb-cluster.py:36-41 | in dry-run mode what the call would do is irrelevant: no call is made, so the entry is always recorded |
| Pipeline.ActedWereLogged | stop-docdb-cluster.py:68-81 | every cluster acted on has a log line marking it eligible and in the gate status |
| Pipeline.AuditLog | stop-docdb-cluster.py:68-74 | no more log lines than listed clusters, each naming the region being scanned |
| Pipeline.AuditLogSingle | stop-docdb-cluster.py:61-74 | a cluster gets exactly one log line, its own, when it has an ARN, eligible or not; none otherwise |
| Pipeline.AuditLogAppend | start-docdb-cluster.py:51-69 | log lines follow listing order: those of the clusters of `a` before those of `b` |
| Pipeline.ScanPages | stop-docdb-cluster.py:54-55 | every entry from a region's pages carries that region and the direction's label |
| Pipeline.FlattenMembers | stop-docdb-cluster.py:54-55 | the concatenated listing holds a cluster record exactly when one of the pages does |
| Pipeline.ScanPagesFlatten | stop-docdb-cluster.py:53-55 | paging is transparent: the results are those of all pages' clusters in order |
| Pipeline.ScanPagesAppend | stop-docdb-cluster.py:53-55 | the results of consecutive runs of pages follow page order |
| Pipeline.ScanRegions | stop-docdb-cluster.py:49 | every entry carries one of the scanned regions and the direction's label |
| Pipeline.ScanRegionsAppend | stop-docdb-cluster.py:49 | results follow region order: the visits of the first part come first, and those of the second part are numbered after them |
| Pipeline.RepeatedRegion | stop-docdb-cluster.py:49-55 | a region named twice is scanned twice, and each visit acts on the listing it receives then |
| Pipeline.Handler | stop-docdb-cluster.py:47-97 | the summary echoes the direction, the parsed dry-run flag, the key and the lowered value; its regions are the resolution of the parsed list, never empty; its results are the scan of those regions, visit by visit, each carrying a scanned region and the direction's label |
| Pipeline.ResultsFieldName | stop-docdb-cluster.py:92 | the results are returned under "stopped" by the stop function and "started" by the start function |
| Invocation.ScanPage | start-docdb-cluster.py:51-84 | the cluster loop with its `continue`s computes exactly the fold over the page |
| Invocation.ScanRegion | start-docdb-cluster.py:49-50 | the page loop computes exactly the fold over the region's pages |
| Invocation.ScanAll | stop-docdb-cluster.py:49-89 | the region loop computes exactly the fold over the resolved regions, in order |
| Invocation.RunHandler | start-docdb-cluster.py:43-92 | the handler's loops return exactly the summary of the functional model |
| Invocation.HandlerResultsOrigin | start-docdb-cluster.py:45-80 | every returned entry is the entry of a selected cluster from the listing that one of the reported region visits received |
| Scenarios.DefaultConfiguration | start-docdb-cluster.py:12-15 | with nothing set: key "work-on-business-time", value "true", no regions, dry-run off |
| Scenarios.FallbackRegions | stop-docdb-cluster.py:24-29 | with no regions configured: "us-east-1" when the session has no region or an empty one, else the session region |
| Scenarios.DryRunSpellings | start-docdb-cluster.py:15 | "TRUE" turns dry-run on, "yes" does not |
| Scenarios.RegionListExample | stop-docdb-cluster.py:15 | `a, <blank> ,b` parses to `[a, b]` |
| Scenarios.ScenarioStartA | start-docdb-cluster.py:74-80 | a stopped cluster tagged "True" is started |
| Scenarios.ScenarioStartB | start-docdb-cluster.py:71-72 | a cluster without the tag is skipped |
| Scenarios.ScenarioStartC | start-docdb-cluster.py:74-76 | a tagged cluster with status "Available" is skipped by the start function |
| Scenarios.ScenarioStopC | stop-docdb-cluster.py:79-89 | the same cluster is stopped by the stop function, because its status lowers to "available" |
| Scenarios.ScenarioDryRunD | start-docdb-cluster.py:36-41 | in dry-run mode a cluster whose call would raise is recorded as "dry-run" and no call is made |
| Scenarios.ScenarioLiveRunD | start-docdb-cluster.py:78-84 | without dry-run the call for that cluster is made, raises, and nothing is recorded |
| Scenarios.EmptyArnSkipped | stop-docdb-cluster.py:61-63 | an empty ARN is skipped with no log line |
| Scenarios.KeyCaseMatters | stop-docdb-cluster.py:36-38 | a key differing only in case is not eligible, yet it appears in the logged subset |
| Scenarios.LaterDuplicateWins | stop-docdb-cluster.py:34 | with a repeated key the later tag's value decides eligibility |
| Scenarios.MissingValueIsEmpty | start-docdb-cluster.py:30 | a tag without a value reads as "", matched only by an empty configured value |

## Left out

- The provider clients, the paginator and the retry configuration. Region listings are input data (`Pipeline.Inventory`); a page without a cluster list is an empty page.
- `list_tags_for_resource`: tag lists are input. A tag-fetch error is not caught by the source and aborts the run; the model has no such error.
- A listing error (`boto3.client` or a `describe_db_clusters` page) is not caught either and aborts the run without a summary; the model has no such error.
- `start_db_cluster` / `stop_db_cluster`: replaced by the `callRaises` oracle. The state-fault and generic exception paths are one "raised" outcome, since both only log and continue.
- Reading the environment and the session's region: both are parameters.
- Logging: the warning and info lines are not modelled. The structured per-cluster line is modelled as a `LogLine` value, without JSON formatting.
- The handler's `event` and `context` arguments: the source never reads them.
- A cluster record without an identifier, or a tag without a key: the source would raise `KeyError`. In the model both fields are always present.
- The region list is computed twice in the source, once for the loop and once for the summary. The model computes it once; both calls see the same inputs.
- Text.Lower: lowers ASCII letters only, not Python's full Unicode `str.lower`. Region names, statuses and the default tag strings are ASCII.
