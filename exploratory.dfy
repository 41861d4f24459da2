/**
 * `exploratoryScenarios`: for every registry entry a size-1 cluster scenario
 * (preceded by a LazyFS variant for low-traffic profiles when LazyFS is
 * available), then for every registry entry a size-3 cluster scenario.
 */
module Exploratory {
  import opened Wrappers
  import opened ClusterOptions
  import opened Paths
  import opened Scenarios

  /** LazyFS variants are only generated for profiles up to this minimal QPS. */
  const LazyFSMaxQPS: nat := 100

  /** The tick/election timing alternatives, offered as a subset of the base options. */
  const RandomizableOptions: seq<ClusterOption> := [
    ClusterOptionGroups([
      [TickMs(29), ElectionMs(271)],
      [TickMs(101), ElectionMs(521)],
      [TickMs(100), ElectionMs(2000)]])]

  /** The version mix of a size-3 cluster: ten equally likely alternatives. */
  const MixedVersionOption: ClusterOption := ClusterOptionGroups([
    [ClusterVersion(CurrentVersion)],
    [ClusterVersion(CurrentVersion)],
    [ClusterVersion(CurrentVersion)],
    [ClusterVersion(CurrentVersion)],
    [ClusterVersion(CurrentVersion)],
    [ClusterVersion(CurrentVersion)],
    [ClusterVersion(MinorityLastVersion), InitialLeaderIndex(0)],
    [ClusterVersion(MinorityLastVersion), InitialLeaderIndex(2)],
    [ClusterVersion(QuorumLastVersion), InitialLeaderIndex(0)],
    [ClusterVersion(QuorumLastVersion), InitialLeaderIndex(2)]])

  /** The options every exploratory scenario starts with. */
  function BaseOptions(catchUpSupported: bool): seq<ClusterOption> {
    [ SnapshotCountChoice([50, 100, 1000]),
      SubsetOptions(RandomizableOptions),
      GoFailEnabled(true),
      CompactionBatchLimitChoice([10, 100, 1000]),
      WatchProcessNotifyIntervalMs(100) ]
    + (if catchUpSupported then [SnapshotCatchUpEntries(100)] else [])
  }

  /** Does this registry entry get a LazyFS variant? */
  predicate LazyFSEligible(lazyFSAvailable: bool, tp: TrafficProfile) {
    lazyFSAvailable && tp.profile.minimalQPS <= LazyFSMaxQPS
  }

  /** An exploratory scenario: no failpoint and the default watch configuration. */
  function ExploratoryScenario(name: string, tp: TrafficProfile, opts: seq<ClusterOption>): Scenario {
    Scenario(name, None, opts, tp.traffic, tp.profile, NoWatch)
  }

  /** The size-1 scenarios of one registry entry, in the order they are emitted. */
  function Size1Scenarios(base: seq<ClusterOption>, lazyFSAvailable: bool, tp: TrafficProfile): seq<Scenario> {
    var name := Join([tp.traffic.name, tp.profile.name, "ClusterOfSize1"]);
    var opts := base + [ClusterSize(1)];
    if LazyFSEligible(lazyFSAvailable, tp) then
      [ ExploratoryScenario(Join([name, "LazyFS"]), tp, opts + [LazyFSEnabled(true), CompactionBatchLimit(1000)]),
        ExploratoryScenario(Join([name, "Compact"]), tp, opts + [CompactionBatchLimitChoice([10, 100])]) ]
    else
      [ ExploratoryScenario(name, tp, opts) ]
  }

  /** The size-3 scenario of one registry entry. */
  function Size3Scenario(base: seq<ClusterOption>, lastReleaseExists: bool, tp: TrafficProfile): Scenario {
    ExploratoryScenario(
      Join([tp.traffic.name, tp.profile.name, "ClusterOfSize3"]), tp,
      base + [IsPeerTLS(true), PeerProxy(true)] + (if lastReleaseExists then [MixedVersionOption] else []))
  }

  /** The size-1 scenarios of all entries, entry by entry in registry order. */
  function Size1Block(base: seq<ClusterOption>, lazyFSAvailable: bool, ps: seq<TrafficProfile>): seq<Scenario> {
    if ps == [] then []
    else Size1Block(base, lazyFSAvailable, ps[..|ps| - 1]) + Size1Scenarios(base, lazyFSAvailable, ps[|ps| - 1])
  }

  /** The size-3 scenarios of all entries, in registry order. */
  function Size3Block(base: seq<ClusterOption>, lastReleaseExists: bool, ps: seq<TrafficProfile>): seq<Scenario> {
    if ps == [] then []
    else Size3Block(base, lastReleaseExists, ps[..|ps| - 1]) + [Size3Scenario(base, lastReleaseExists, ps[|ps| - 1])]
  }

  /** What `exploratoryScenarios` returns for the registry `ps` in environment `env`. */
  function ExploratoryList(env: Environment, ps: seq<TrafficProfile>): seq<Scenario> {
    var base := BaseOptions(env.catchUpSupported);
    Size1Block(base, env.lazyFSAvailable, ps) + Size3Block(base, env.lastReleaseExists, ps)
  }

  lemma Size1BlockStep(base: seq<ClusterOption>, lazyFSAvailable: bool, ps: seq<TrafficProfile>, i: nat)
    requires i < |ps|
    ensures Size1Block(base, lazyFSAvailable, ps[..i + 1])
         == Size1Block(base, lazyFSAvailable, ps[..i]) + Size1Scenarios(base, lazyFSAvailable, ps[i])
  {
    assert ps[..i + 1][..i] == ps[..i];
  }

  lemma Size3BlockStep(base: seq<ClusterOption>, lastReleaseExists: bool, ps: seq<TrafficProfile>, i: nat)
    requires i < |ps|
    ensures Size3Block(base, lastReleaseExists, ps[..i + 1])
         == Size3Block(base, lastReleaseExists, ps[..i]) + [Size3Scenario(base, lastReleaseExists, ps[i])]
  {
    assert ps[..i + 1][..i] == ps[..i];
  }

  /** One iteration of the size-1 loop extends the accumulated list by one entry's scenarios. */
  lemma Size1Appended(before: seq<Scenario>, after: seq<Scenario>, base: seq<ClusterOption>, lazyFSAvailable: bool,
                      ps: seq<TrafficProfile>, i: nat)
    requires i < |ps|
    requires before == Size1Block(base, lazyFSAvailable, ps[..i])
    requires after == before + Size1Scenarios(base, lazyFSAvailable, ps[i])
    ensures after == Size1Block(base, lazyFSAvailable, ps[..i + 1])
  {
    Size1BlockStep(base, lazyFSAvailable, ps, i);
  }

  /** One iteration of the size-3 loop extends the accumulated list by one block entry. */
  lemma Size3Appended(size1: seq<Scenario>, before: seq<Scenario>, base: seq<ClusterOption>, last: bool,
                      ps: seq<TrafficProfile>, i: nat, opts: seq<ClusterOption>)
    requires i < |ps|
    requires before == size1 + Size3Block(base, last, ps[..i])
    requires opts == base + [IsPeerTLS(true), PeerProxy(true)] + (if last then [MixedVersionOption] else [])
    ensures before + [ExploratoryScenario(Join([ps[i].traffic.name, ps[i].profile.name, "ClusterOfSize3"]), ps[i], opts)]
         == size1 + Size3Block(base, last, ps[..i + 1])
  {
    Size3BlockStep(base, last, ps, i);
  }

  /** The generator itself, appending scenario by scenario as the source does. */
  method ExploratoryScenarios(env: Environment, registry: seq<TrafficProfile>) returns (scenarios: seq<Scenario>)
    ensures scenarios == ExploratoryList(env, registry)
  {
    var enableLazyFS := env.lazyFSAvailable;
    var randomizableOptions := RandomizableOptions;
    var mixedVersionOption := MixedVersionOption;
    var baseOptions := [
      SnapshotCountChoice([50, 100, 1000]),
      SubsetOptions(randomizableOptions),
      GoFailEnabled(true),
      CompactionBatchLimitChoice([10, 100, 1000]),
      WatchProcessNotifyIntervalMs(100)];
    if env.catchUpSupported {
      baseOptions := baseOptions + [SnapshotCatchUpEntries(100)];
    }
    assert baseOptions == BaseOptions(env.catchUpSupported);
    scenarios := [];
    for i := 0 to |registry|
      invariant scenarios == Size1Block(baseOptions, enableLazyFS, registry[..i])
    {
      var tp := registry[i];
      ghost var before := scenarios;
      var name := Join([tp.traffic.name, tp.profile.name, "ClusterOfSize1"]);
      var clusterOfSize1Options := baseOptions;
      clusterOfSize1Options := clusterOfSize1Options + [ClusterSize(1)];
      if enableLazyFS && tp.profile.minimalQPS <= LazyFSMaxQPS {
        var lazyFSOptions := clusterOfSize1Options + [LazyFSEnabled(true), CompactionBatchLimit(1000)];
        scenarios := scenarios + [ExploratoryScenario(Join([name, "LazyFS"]), tp, lazyFSOptions)];
        clusterOfSize1Options := clusterOfSize1Options + [CompactionBatchLimitChoice([10, 100])];
        name := Join([name, "Compact"]);
      }
      scenarios := scenarios + [ExploratoryScenario(name, tp, clusterOfSize1Options)];
      assert scenarios == before + Size1Scenarios(baseOptions, enableLazyFS, tp);
      Size1Appended(before, scenarios, baseOptions, enableLazyFS, registry, i);
    }
    assert registry[..|registry|] == registry;
    ghost var size1 := scenarios;
    for i := 0 to |registry|
      invariant scenarios == size1 + Size3Block(baseOptions, env.lastReleaseExists, registry[..i])
    {
      var tp := registry[i];
      var name := Join([tp.traffic.name, tp.profile.name, "ClusterOfSize3"]);
      var clusterOfSize3Options := baseOptions;
      clusterOfSize3Options := clusterOfSize3Options + [IsPeerTLS(true)];
      clusterOfSize3Options := clusterOfSize3Options + [PeerProxy(true)];
      if env.lastReleaseExists {
        clusterOfSize3Options := clusterOfSize3Options + [mixedVersionOption];
      }
      ghost var before := scenarios;
      scenarios := scenarios + [ExploratoryScenario(name, tp, clusterOfSize3Options)];
      Size3Appended(size1, before, baseOptions, env.lastReleaseExists, registry, i, clusterOfSize3Options);
    }
  }
}
