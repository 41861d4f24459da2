# etcd robustness test scenarios, modelled in Dafny

This project models how etcd's robustness test suite enumerates its test
scenarios (`tests/robustness/scenarios.go`). There are two generators:

- `exploratoryScenarios` walks the fixed `trafficProfiles` registry of
  (traffic, profile) pairs twice. The first pass emits the size-1 cluster
  scenarios: a LazyFS variant for low-QPS profiles when LazyFS is available,
  then the baseline. The second pass emits one size-3 cluster scenario per
  entry, which carries the mixed-version option when the last-release binary
  exists. Every scenario gets a `/`-joined hierarchical name and an ordered
  list of cluster options that starts with the shared base options. Those
  end with the snapshot catch-up option when the binary supports it.
- `regressionScenarios` looks up the binary's version first and fails fatally
  when that lookup fails. It then emits the reproductions of Issue14370,
  Issue14685, Issue13766 and Issue15220, and adds Issue15271 last when the
  version is at least 3.5.

How things are modelled:

- Cluster options are opaque values of the `ClusterOption` datatype
  (`cluster_options.dfy`). A cluster descriptor is the option list handed to
  `e2e.NewConfig`.
- The single-value `e2e.WithX` and multi-value `options.WithX` constructors are
  distinct: for example `CompactionBatchLimit(n)` and
  `CompactionBatchLimitChoice(ns)`.
- `EffectiveCompactionLimit` is a last-wins fold over an option list. It makes
  the "a later compaction limit overrides an earlier one" intent checkable.
- `filepath.Join` over plain segments is, on Unix-like systems, concatenation with `/` (`paths.dfy`).
  It is injective on separator-free segments, and `Split` is its inverse.
- The environment probes are the fields of an `Environment` value. The
  traffics and profiles are the fields of a `Catalog` value.
- `exploratoryScenarios` is a method whose two loops append to a
  `scenarios` accumulator, as the source does. `regressionScenarios` is a
  method of straight-line appends, with one conditional append. Each method
  is proved equal to a specification function, and the promised properties
  are lemmas about that function (`exploratory_properties.dfy`,
  `regression.dfy`).
- The LazyFS threshold is inclusive: profiles with a minimal QPS of at most
  100 qualify, because the code compares with `<= 100`.

## Model

| member | source | states |
|---|---|---|
| Scenarios.TrafficProfiles | tests/robustness/scenarios.go:35-52 | definition: the registry's four (traffic, profile) entries in source order |
| Scenarios.CompareSign | tests/robustness/scenarios.go:194 | the sign of the comparison follows the (major, minor, patch) order, and swapping the arguments negates it |
| ClusterOptions.EffectiveCompactionLimit | tests/robustness/scenarios.go:95 | definition: the candidates of the last top-level option that sets the compaction batch limit, if any |
| Paths.Join | tests/robustness/scenarios.go:104 | definition: `filepath.Join` on plain segments, the segments separated by `/` |
| Exploratory.RandomizableOptions | tests/robustness/scenarios.go:65-70 | definition: one option group of the three tick/election timing pairs |
| Exploratory.MixedVersionOption | tests/robustness/scenarios.go:72-88 | definition: the option group of the ten version-mix alternatives in source order |
| Exploratory.BaseOptions | tests/robustness/scenarios.go:90-101 | definition: the five fixed base options, then the catch-up entries when the probe holds |
| Exploratory.Size1Scenarios | tests/robustness/scenarios.go:104-126 | definition: one entry's size-1 scenarios, the LazyFS variant and the Compact baseline, or the plain baseline alone |
| Exploratory.Size3Scenario | tests/robustness/scenarios.go:129-143 | definition: one entry's size-3 scenario |
| Exploratory.ExploratoryList | tests/robustness/scenarios.go:63-145 | definition: the size-1 scenarios of all entries, then their size-3 scenarios, both in registry order |
| Regression.RegressionList | tests/robustness/scenarios.go:153-210 | definition: the four fixed reproductions, then Issue15271 when the version is at least 3.5 |
| Scenarios.TrafficProfilesWellFormed | tests/robustness/scenarios.go:35-52 | the four registry entries have pairwise distinct (traffic name, profile name) pairs when all names are plain, the two profiles are named differently and the Kubernetes traffic is named unlike both etcd traffics |
| Scenarios.Compare | tests/robustness/scenarios.go:194 | version comparison yields -1, 0 or 1, and 0 exactly for equal versions |
| ClusterOptions.LaterCompactionLimitWins | tests/robustness/scenarios.go:109-110 | a compaction-limit option followed only by options that do not set the limit decides the effective limit, whatever came before it |
| ClusterOptions.EffectiveCompactionLimitIgnoresOthers | tests/robustness/scenarios.go:131-135 | appending options that do not set the compaction limit leaves the effective limit unchanged |
| ClusterOptions.EffectiveCompactionLimitNone | tests/robustness/scenarios.go:95 | no effective compaction limit exactly when no top-level option sets one |
| ClusterOptions.EffectiveCompactionLimitIsLast | tests/robustness/scenarios.go:109-118 | a set limit equals the candidates of the last option that sets it, and no later option sets it |
| Paths.JoinThree | tests/robustness/scenarios.go:104 | joining three segments puts one `/` between consecutive segments |
| Paths.JoinAppend | tests/robustness/scenarios.go:112-119 | joining a joined path with one more segment equals joining the extended segment list |
| Paths.SplitJoin | tests/robustness/scenarios.go:104 | splitting a join of separator-free segments gives back those segments |
| Paths.JoinSplit | tests/robustness/scenarios.go:104 | joining the parts of a split path gives back the path |
| Paths.JoinInjective | tests/robustness/scenarios.go:104-130 | two joins of separator-free segment lists are equal exactly when the lists are equal |
| Exploratory.ExploratoryScenarios | tests/robustness/scenarios.go:63-145 | the appends of the two loops produce exactly the size-1 block followed by the size-3 block of the specification `ExploratoryList` |
| ExploratoryProperties.BaseOptionsContents | tests/robustness/scenarios.go:90-101 | the base options have five fixed entries plus the catch-up entry exactly when the probe holds; they enable gofail, exclude the mixed-version option and leave the compaction limit 10/100/1000 |
| ExploratoryProperties.ExploratoryLength | tests/robustness/scenarios.go:103-143 | the output has 2 scenarios per registry entry plus one per entry that qualifies for LazyFS |
| ExploratoryProperties.TrafficProfilesCount | tests/robustness/scenarios.go:35-52 | with low traffic at or below and high traffic above 100 QPS, the registry yields 10 scenarios with LazyFS and 8 without |
| ExploratoryProperties.Size1Ordering | tests/robustness/scenarios.go:103-127 | size-1 scenarios come first in registry order: entry i owns 2 consecutive slots if it qualifies for LazyFS and 1 otherwise, and the size-3 scenarios fill the rest |
| ExploratoryProperties.Size1BlockEntryAt | tests/robustness/scenarios.go:103-127 | entry i's size-1 scenarios sit contiguously right after those of the entries before it |
| ExploratoryProperties.Size1ScenariosContents | tests/robustness/scenarios.go:104-126 | one entry's size-1 scenarios: names, options and effective compaction limit in both the LazyFS and the plain case |
| ExploratoryProperties.Size1CompactionLimits | tests/robustness/scenarios.go:109-118 | the LazyFS options leave limit 1000, the Compact options 10/100, and the plain size-1 options keep the base limit |
| ExploratoryProperties.Size1BlockLayout | tests/robustness/scenarios.go:103-127 | for any base options, entry i's LazyFS variant sits immediately before its Compact baseline, or its plain baseline sits alone, at its offset; each slot is exactly the entry's own scenario, with the entry's traffic and profile |
| ExploratoryProperties.Size1Layout | tests/robustness/scenarios.go:104-126 | in the output, at entry i's offset: the LazyFS variant named `.../ClusterOfSize1/LazyFS` with limit 1000, immediately followed by `.../Compact` with limit 10/100; otherwise `.../ClusterOfSize1` with base options plus size 1 and limit 10/100/1000; each slot is exactly the entry's own scenario, with the entry's traffic and profile |
| ExploratoryProperties.Size3ScenarioContents | tests/robustness/scenarios.go:129-143 | a size-3 scenario is named `.../ClusterOfSize3`, has the base, peer TLS and peer proxy options, carries the mixed-version option exactly when the last release exists, and keeps the base compaction limit |
| ExploratoryProperties.Size3Layout | tests/robustness/scenarios.go:129-143 | entry i's size-3 scenario sits at position i after all size-1 scenarios, with that name and those options; each slot is exactly the entry's own scenario, with the entry's traffic and profile |
| ExploratoryProperties.MixedVersionAllCurrent | tests/robustness/scenarios.go:72-78 | the mixed-version option has 10 alternatives, 6 of them all-current |
| ExploratoryProperties.MixedVersionLastVersion | tests/robustness/scenarios.go:79-88 | each pairing of minority or quorum last-version with leader index 0 or 2 is exactly one alternative |
| ExploratoryProperties.BlocksPrefix | tests/robustness/scenarios.go:105-135 | for any base options, every generated scenario's options begin with them, and it arms no failpoint and uses the default watch |
| ExploratoryProperties.ExploratoryPrefix | tests/robustness/scenarios.go:90-135 | every exploratory scenario's options begin with the base options; no failpoint, default watch |
| ExploratoryProperties.BlocksNamed | tests/robustness/scenarios.go:104-130 | for any base options, every generated scenario is named by joining its segment path |
| ExploratoryProperties.ExploratoryNamed | tests/robustness/scenarios.go:104-130 | every exploratory scenario's name is the join of its segment path |
| ExploratoryProperties.Size1BlockPathsShape | tests/robustness/scenarios.go:104-119 | when the registry's traffic and profile names are plain, each size-1 path has at least three segments: a registry key, then `ClusterOfSize1`, with no segment containing the separator |
| ExploratoryProperties.Size1BlockPathsDistinct | tests/robustness/scenarios.go:104-119 | size-1 paths are pairwise distinct for a well-formed registry |
| ExploratoryProperties.ExploratoryPathsShape | tests/robustness/scenarios.go:104-130 | when the registry's traffic and profile names are plain, every exploratory path is non-empty and separator-free |
| ExploratoryProperties.ExploratoryPathsDistinct | tests/robustness/scenarios.go:104-130 | exploratory paths are pairwise distinct for a well-formed registry |
| ExploratoryProperties.ExploratoryNamesDistinct | tests/robustness/scenarios.go:104-130 | no two exploratory scenarios share a name when the registry's (traffic, profile) name pairs are distinct and plain |
| ExploratoryProperties.LazyFSNameJoined | tests/robustness/scenarios.go:104-112 | the LazyFS variant's name is the join of the entry's key, `ClusterOfSize1` and `LazyFS` |
| ExploratoryProperties.NamedPathIn | tests/robustness/scenarios.go:104-130 | a scenario's name determines its path among the exploratory paths |
| ExploratoryProperties.LazyFSPathOnlyIfEligible | tests/robustness/scenarios.go:108-116 | a LazyFS path for entry i exists only when entry i qualifies for LazyFS |
| ExploratoryProperties.LazyFSVariantOnlyIfEligible | tests/robustness/scenarios.go:108-116 | a scenario with entry i's LazyFS name exists only when entry i qualifies |
| ExploratoryProperties.LazyFSVariantIff | tests/robustness/scenarios.go:108-116 | a scenario named `<traffic>/<profile>/ClusterOfSize1/LazyFS` is emitted exactly when LazyFS is available and the profile's minimal QPS is at most 100 |
| Regression.RegressionScenarios | tests/robustness/scenarios.go:147-211 | fails exactly when the version lookup fails; otherwise returns exactly the specification `RegressionList` |
| Regression.VersionGate | tests/robustness/scenarios.go:194 | "at least 3.5" means a major above 3, or major 3 with minor at least 5 |
| Regression.RegressionNames | tests/robustness/scenarios.go:153-210 | the names are Issue14370, Issue14685, Issue13766, Issue15220 in order, then Issue15271 exactly when the version is at least 3.5; the length is 5 or 4 |
| Regression.VersionGatedPresentIff | tests/robustness/scenarios.go:194-210 | some regression scenario is named Issue15271 exactly when the version is at least 3.5 |
| Regression.VersionGatedCatchUp | tests/robustness/scenarios.go:194-202 | the fifth scenario is Issue15271, and its options include the catch-up entries exactly when the binary supports them |
| Regression.RegressionNamesDistinct | tests/robustness/scenarios.go:153-209 | the regression scenario names are pairwise distinct |

## Left out

- What each option does inside `e2e.NewConfig`: that is library code that is not part of this model. Options are opaque values. The only semantics modelled is the last-wins compaction limit, and only over top-level options, not over options nested in groups or subsets.
- The random choices made by option groups, option subsets and multi-value options: each scenario stores the `EtcdProcessClusterConfig` that the foreign `e2e.NewConfig` builds from its options, and any pick those options make is drawn inside that call. The model keeps the options as data and does not model `NewConfig`.
- The environment probes (`LazyFSAvailable`, `fileutil.Exist`, `GetVersionFromBinary`, `CouldSetSnapshotCatchupEntries`): they do filesystem and process I/O, so they are fields of an `Environment` input. Each probe is assumed to give one answer per run. This includes the catch-up probe, which the two generators call separately, and `fileutil.Exist`, which the size-3 loop calls on every iteration.
- Traffic and failpoint implementations and `Traffic.Name()`: they live in other packages, so traffics, profiles and their minimal QPS come from a `Catalog` input. Failpoints are just their names.
- `time.Duration`: the watch notify interval is a number of milliseconds.
- Path cleaning in `filepath.Join`: only plain segments are modelled (non-empty, no `/`, not `.` or `..`).
- Pre-release and build ordering in semantic version comparison: versions are compared by (major, minor, patch).
- Regression.RegressionScenarios: the fatal `t.Fatalf` is an error result. The model does not pin down the text of the error message, and it leaves out the binary path that the source includes in that message.
- Go slice aliasing between `baseOptions` and the per-iteration option slices: each scenario's options are an immutable snapshot, which matches the source because each `e2e.NewConfig` call is evaluated before the next append.
- The `*testing.T` parameters, beyond the fatal error: they are not used otherwise.
