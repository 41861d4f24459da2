/**
 * What `exploratoryScenarios` promises about the list it builds: how many
 * scenarios there are, where each registry entry's scenarios sit, which
 * options each one carries, when the LazyFS and mixed-version variants
 * appear, and that no two scenarios share a name.
 */
module ExploratoryProperties {
  import opened Wrappers
  import opened ClusterOptions
  import opened Paths
  import opened Scenarios
  import opened Exploratory

  /** How many registry entries get a LazyFS variant. */
  function CountEligible(lazyFSAvailable: bool, ps: seq<TrafficProfile>): nat {
    if ps == [] then 0
    else CountEligible(lazyFSAvailable, ps[..|ps| - 1]) + (if LazyFSEligible(lazyFSAvailable, ps[|ps| - 1]) then 1 else 0)
  }

  /** Where the size-1 scenarios of entry `i` start in the output. */
  function Size1Offset(env: Environment, ps: seq<TrafficProfile>, i: nat): nat
    requires i <= |ps|
  {
    |Size1Block(BaseOptions(env.catchUpSupported), env.lazyFSAvailable, ps[..i])|
  }

  /** The name of the LazyFS variant of a registry entry. */
  function LazyFSName(tp: TrafficProfile): string {
    tp.traffic.name + "/" + tp.profile.name + "/ClusterOfSize1/LazyFS"
  }

  lemma {:induction false} Size1BlockLength(base: seq<ClusterOption>, lazyFSAvailable: bool, ps: seq<TrafficProfile>)
    ensures |Size1Block(base, lazyFSAvailable, ps)| == |ps| + CountEligible(lazyFSAvailable, ps)
  {
    if ps != [] {
      Size1BlockLength(base, lazyFSAvailable, ps[..|ps| - 1]);
    }
  }

  /** The size-3 block holds entry `k`'s size-3 scenario at position `k`. */
  lemma {:induction false} Size3BlockAt(base: seq<ClusterOption>, lastReleaseExists: bool, ps: seq<TrafficProfile>)
    ensures |Size3Block(base, lastReleaseExists, ps)| == |ps|
    ensures forall k :: 0 <= k < |ps| ==> Size3Block(base, lastReleaseExists, ps)[k] == Size3Scenario(base, lastReleaseExists, ps[k])
  {
    if ps != [] {
      var init := ps[..|ps| - 1];
      Size3BlockAt(base, lastReleaseExists, init);
      assert forall k :: 0 <= k < |init| ==> init[k] == ps[k];
    }
  }

  /** The size-1 block of a prefix of the registry is a prefix of the size-1 block. */
  lemma {:induction false} Size1BlockPrefix(base: seq<ClusterOption>, lazyFSAvailable: bool, ps: seq<TrafficProfile>, m: nat)
    requires m <= |ps|
    ensures Size1Block(base, lazyFSAvailable, ps[..m]) <= Size1Block(base, lazyFSAvailable, ps)
    decreases |ps| - m
  {
    if m == |ps| {
      assert ps[..m] == ps;
    } else {
      var init := ps[..|ps| - 1];
      Size1BlockPrefix(base, lazyFSAvailable, init, m);
      assert init[..m] == ps[..m];
    }
  }

  /** Every size-1 scenario comes from one registry entry. */
  lemma {:induction false} Size1BlockMember(base: seq<ClusterOption>, lazyFSAvailable: bool, ps: seq<TrafficProfile>, s: Scenario)
    requires s in Size1Block(base, lazyFSAvailable, ps)
    ensures exists j :: 0 <= j < |ps| && s in Size1Scenarios(base, lazyFSAvailable, ps[j])
  {
    var init := ps[..|ps| - 1];
    if s in Size1Block(base, lazyFSAvailable, init) {
      Size1BlockMember(base, lazyFSAvailable, init, s);
      var j :| 0 <= j < |init| && s in Size1Scenarios(base, lazyFSAvailable, init[j]);
      assert init[j] == ps[j];
    } else {
      assert s in Size1Scenarios(base, lazyFSAvailable, ps[|ps| - 1]);
    }
  }

  /**
   * The output has two scenarios per registry entry plus one LazyFS variant
   * per entry whose profile qualifies for LazyFS.
   */
  lemma ExploratoryLength(env: Environment, ps: seq<TrafficProfile>)
    ensures |ExploratoryList(env, ps)| == 2 * |ps| + CountEligible(env.lazyFSAvailable, ps)
  {
    var base := BaseOptions(env.catchUpSupported);
    Size1BlockLength(base, env.lazyFSAvailable, ps);
    Size3BlockAt(base, env.lastReleaseExists, ps);
  }

  /**
   * The size-1 scenarios come first, entry by entry in registry order: entry
   * `i` owns two consecutive slots when it qualifies for LazyFS and one
   * otherwise, and the size-3 scenarios start right after the last entry's.
   */
  lemma Size1Ordering(env: Environment, ps: seq<TrafficProfile>, i: nat)
    requires i < |ps|
    ensures Size1Offset(env, ps, 0) == 0
    ensures Size1Offset(env, ps, i + 1) == Size1Offset(env, ps, i) + (if LazyFSEligible(env.lazyFSAvailable, ps[i]) then 2 else 1)
    ensures Size1Offset(env, ps, |ps|) + |ps| == |ExploratoryList(env, ps)|
  {
    var base := BaseOptions(env.catchUpSupported);
    Size1BlockStep(base, env.lazyFSAvailable, ps, i);
    assert ps[..|ps|] == ps;
    Size3BlockAt(base, env.lastReleaseExists, ps);
  }

  /** For any base options, entry `i`'s size-1 scenarios follow those of the entries before it. */
  lemma Size1BlockEntryAt(base: seq<ClusterOption>, lazyFSAvailable: bool, ps: seq<TrafficProfile>, i: nat)
    requires i < |ps|
    ensures var b, mine, o := Size1Block(base, lazyFSAvailable, ps), Size1Scenarios(base, lazyFSAvailable, ps[i]),
                              |Size1Block(base, lazyFSAvailable, ps[..i])|;
            o + |mine| <= |b| && b[o..o + |mine|] == mine
  {
    var b, mine := Size1Block(base, lazyFSAvailable, ps), Size1Scenarios(base, lazyFSAvailable, ps[i]);
    var before := Size1Block(base, lazyFSAvailable, ps[..i]);
    Size1BlockStep(base, lazyFSAvailable, ps, i);
    Size1BlockPrefix(base, lazyFSAvailable, ps, i + 1);
    assert b[..|before| + |mine|] == before + mine;
    assert b[|before|..|before| + |mine|] == (before + mine)[|before|..];
  }

  /**
   * One entry's size-1 scenarios. With LazyFS available and a minimal QPS of
   * at most 100: first the LazyFS variant, with LazyFS enabled and the
   * compaction batch limit reset to 1000, then the baseline renamed to
   * ".../Compact" with the limit narrowed to 10 or 100. Otherwise the
   * baseline alone, which keeps the limit the base options leave.
   */
  lemma Size1ScenariosContents(base: seq<ClusterOption>, lazyFSAvailable: bool, tp: TrafficProfile)
    ensures var mine := Size1Scenarios(base, lazyFSAvailable, tp);
            var prefix := tp.traffic.name + "/" + tp.profile.name + "/ClusterOfSize1";
            && (LazyFSEligible(lazyFSAvailable, tp) ==>
                  && |mine| == 2
                  && mine[0] == Scenario(prefix + "/LazyFS", None,
                                         base + [ClusterSize(1), LazyFSEnabled(true), CompactionBatchLimit(1000)],
                                         tp.traffic, tp.profile, NoWatch)
                  && EffectiveCompactionLimit(mine[0].cluster) == Some([1000])
                  && mine[1] == Scenario(prefix + "/Compact", None,
                                         base + [ClusterSize(1), CompactionBatchLimitChoice([10, 100])],
                                         tp.traffic, tp.profile, NoWatch)
                  && EffectiveCompactionLimit(mine[1].cluster) == Some([10, 100]))
            && (!LazyFSEligible(lazyFSAvailable, tp) ==>
                  && |mine| == 1
                  && mine[0] == Scenario(prefix, None, base + [ClusterSize(1)], tp.traffic, tp.profile, NoWatch)
                  && EffectiveCompactionLimit(mine[0].cluster) == EffectiveCompactionLimit(base))
  {
    Size1CompactionLimits(base);
    if LazyFSEligible(lazyFSAvailable, tp) {
      Size1EligibleNames(base, lazyFSAvailable, tp);
    } else {
      JoinThree(tp.traffic.name, tp.profile.name, "ClusterOfSize1");
    }
  }

  /** The names of an eligible entry's two size-1 scenarios. */
  lemma Size1EligibleNames(base: seq<ClusterOption>, lazyFSAvailable: bool, tp: TrafficProfile)
    requires LazyFSEligible(lazyFSAvailable, tp)
    ensures var mine := Size1Scenarios(base, lazyFSAvailable, tp);
            var prefix := tp.traffic.name + "/" + tp.profile.name + "/ClusterOfSize1";
            |mine| == 2 && mine[0].name == prefix + "/LazyFS" && mine[1].name == prefix + "/Compact"
  {
    var name := Join([tp.traffic.name, tp.profile.name, "ClusterOfSize1"]);
    JoinThree(tp.traffic.name, tp.profile.name, "ClusterOfSize1");
    JoinTwo(name, "LazyFS");
    JoinTwo(name, "Compact");
  }

  /** The compaction limit each size-1 option list leaves: the last setting wins. */
  lemma Size1CompactionLimits(base: seq<ClusterOption>)
    ensures EffectiveCompactionLimit(base + [ClusterSize(1), LazyFSEnabled(true), CompactionBatchLimit(1000)]) == Some([1000])
    ensures EffectiveCompactionLimit(base + [ClusterSize(1), CompactionBatchLimitChoice([10, 100])]) == Some([10, 100])
    ensures EffectiveCompactionLimit(base + [ClusterSize(1)]) == EffectiveCompactionLimit(base)
  {
    LaterCompactionLimitWins(base + [ClusterSize(1), LazyFSEnabled(true)], CompactionBatchLimit(1000), []);
    assert base + [ClusterSize(1), LazyFSEnabled(true), CompactionBatchLimit(1000)]
        == base + [ClusterSize(1), LazyFSEnabled(true)] + [CompactionBatchLimit(1000)] + [];
    LaterCompactionLimitWins(base + [ClusterSize(1)], CompactionBatchLimitChoice([10, 100]), []);
    assert base + [ClusterSize(1), CompactionBatchLimitChoice([10, 100])]
        == base + [ClusterSize(1)] + [CompactionBatchLimitChoice([10, 100])] + [];
    EffectiveCompactionLimitIgnoresOthers(base, [ClusterSize(1)]);
  }

  /** For any base options, entry `i`'s size-1 scenarios as they sit in the size-1 block. */
  lemma Size1BlockLayout(base: seq<ClusterOption>, lazyFSAvailable: bool, ps: seq<TrafficProfile>, i: nat)
    requires i < |ps|
    ensures var b, o, tp := Size1Block(base, lazyFSAvailable, ps), |Size1Block(base, lazyFSAvailable, ps[..i])|, ps[i];
            var prefix := tp.traffic.name + "/" + tp.profile.name + "/ClusterOfSize1";
            && (LazyFSEligible(lazyFSAvailable, tp) ==>
                  && o + 1 < |b|
                  && b[o].name == prefix + "/LazyFS"
                  && b[o].cluster == base + [ClusterSize(1), LazyFSEnabled(true), CompactionBatchLimit(1000)]
                  && EffectiveCompactionLimit(b[o].cluster) == Some([1000])
                  && b[o + 1].name == prefix + "/Compact"
                  && b[o + 1].cluster == base + [ClusterSize(1), CompactionBatchLimitChoice([10, 100])]
                  && EffectiveCompactionLimit(b[o + 1].cluster) == Some([10, 100]))
            && (!LazyFSEligible(lazyFSAvailable, tp) ==>
                  && o < |b|
                  && b[o].name == prefix
                  && b[o].cluster == base + [ClusterSize(1)]
                  && EffectiveCompactionLimit(b[o].cluster) == EffectiveCompactionLimit(base))
    ensures var b, o, tp := Size1Block(base, lazyFSAvailable, ps), |Size1Block(base, lazyFSAvailable, ps[..i])|, ps[i];
            var mine := Size1Scenarios(base, lazyFSAvailable, tp);
            && 1 <= |mine| && o + |mine| <= |b|
            && b[o] == mine[0] && b[o].traffic == tp.traffic && b[o].profile == tp.profile
            && (|mine| == 2 ==> b[o + 1] == mine[1] && b[o + 1].traffic == tp.traffic && b[o + 1].profile == tp.profile)
  {
    var b, mine := Size1Block(base, lazyFSAvailable, ps), Size1Scenarios(base, lazyFSAvailable, ps[i]);
    var o := |Size1Block(base, lazyFSAvailable, ps[..i])|;
    Size1BlockEntryAt(base, lazyFSAvailable, ps, i);
    Size1ScenariosContents(base, lazyFSAvailable, ps[i]);
    assert b[o] == b[o..o + |mine|][0] == mine[0];
    if |mine| == 2 {
      assert b[o + 1] == b[o..o + |mine|][1] == mine[1];
    }
  }

  /** The output starts with the size-1 block. */
  lemma ExploratorySize1At(env: Environment, ps: seq<TrafficProfile>, k: nat)
    requires k < |Size1Block(BaseOptions(env.catchUpSupported), env.lazyFSAvailable, ps)|
    ensures k < |ExploratoryList(env, ps)|
    ensures ExploratoryList(env, ps)[k] == Size1Block(BaseOptions(env.catchUpSupported), env.lazyFSAvailable, ps)[k]
  {
  }

  /**
   * The size-1 scenarios of entry `i` in the output: its LazyFS variant, when
   * it has one, sits immediately before its baseline, and the baseline keeps
   * the base compaction limits exactly when there is no LazyFS variant.
   */
  lemma Size1Layout(env: Environment, ps: seq<TrafficProfile>, i: nat)
    requires i < |ps|
    ensures var out, o, tp := ExploratoryList(env, ps), Size1Offset(env, ps, i), ps[i];
            var base := BaseOptions(env.catchUpSupported);
            var prefix := tp.traffic.name + "/" + tp.profile.name + "/ClusterOfSize1";
            && (LazyFSEligible(env.lazyFSAvailable, tp) ==>
                  && o + 1 < |out|
                  && out[o].name == prefix + "/LazyFS"
                  && out[o].cluster == base + [ClusterSize(1), LazyFSEnabled(true), CompactionBatchLimit(1000)]
                  && EffectiveCompactionLimit(out[o].cluster) == Some([1000])
                  && out[o + 1].name == prefix + "/Compact"
                  && out[o + 1].cluster == base + [ClusterSize(1), CompactionBatchLimitChoice([10, 100])]
                  && EffectiveCompactionLimit(out[o + 1].cluster) == Some([10, 100]))
            && (!LazyFSEligible(env.lazyFSAvailable, tp) ==>
                  && o < |out|
                  && out[o].name == prefix
                  && out[o].cluster == base + [ClusterSize(1)]
                  && EffectiveCompactionLimit(out[o].cluster) == Some([10, 100, 1000]))
    ensures var out, o, tp := ExploratoryList(env, ps), Size1Offset(env, ps, i), ps[i];
            var mine := Size1Scenarios(BaseOptions(env.catchUpSupported), env.lazyFSAvailable, tp);
            && 1 <= |mine| && o + |mine| <= |out|
            && out[o] == mine[0] && out[o].traffic == tp.traffic && out[o].profile == tp.profile
            && (|mine| == 2 ==> out[o + 1] == mine[1] && out[o + 1].traffic == tp.traffic && out[o + 1].profile == tp.profile)
  {
    var base := BaseOptions(env.catchUpSupported);
    var o := Size1Offset(env, ps, i);
    Size1BlockLayout(base, env.lazyFSAvailable, ps, i);
    BaseOptionsContents(env.catchUpSupported);
    ExploratorySize1At(env, ps, o);
    if LazyFSEligible(env.lazyFSAvailable, ps[i]) {
      ExploratorySize1At(env, ps, o + 1);
    }
  }

  /**
   * One entry's size-3 scenario: the base options, then peer TLS and the peer
   * proxy, then the mixed-version option exactly when the last-release
   * binary exists; the compaction limit stays the one the base leaves.
   */
  lemma Size3ScenarioContents(base: seq<ClusterOption>, lastReleaseExists: bool, tp: TrafficProfile)
    requires MixedVersionOption !in base
    ensures var s := Size3Scenario(base, lastReleaseExists, tp);
            && s.name == tp.traffic.name + "/" + tp.profile.name + "/ClusterOfSize3"
            && s.cluster == base + [IsPeerTLS(true), PeerProxy(true)]
                            + (if lastReleaseExists then [MixedVersionOption] else [])
            && (MixedVersionOption in s.cluster <==> lastReleaseExists)
            && EffectiveCompactionLimit(s.cluster) == EffectiveCompactionLimit(base)
            && s.failpoint == None && s.traffic == tp.traffic && s.profile == tp.profile && s.watch == NoWatch
  {
    JoinThree(tp.traffic.name, tp.profile.name, "ClusterOfSize3");
    var extra := [IsPeerTLS(true), PeerProxy(true)] + (if lastReleaseExists then [MixedVersionOption] else []);
    EffectiveCompactionLimitIgnoresOthers(base, extra);
    assert base + [IsPeerTLS(true), PeerProxy(true)] + (if lastReleaseExists then [MixedVersionOption] else []) == base + extra;
  }

  /** The size-3 block follows the size-1 block in the output. */
  lemma ExploratorySize3At(env: Environment, ps: seq<TrafficProfile>, i: nat)
    requires i < |ps|
    ensures Size1Offset(env, ps, |ps|) + i < |ExploratoryList(env, ps)|
    ensures ExploratoryList(env, ps)[Size1Offset(env, ps, |ps|) + i]
         == Size3Scenario(BaseOptions(env.catchUpSupported), env.lastReleaseExists, ps[i])
  {
    assert ps[..|ps|] == ps;
    BlocksSize3At(BaseOptions(env.catchUpSupported), env.lazyFSAvailable, env.lastReleaseExists, ps, i);
  }

  /** For any base options, entry `i`'s size-3 scenario sits at position `i` after the size-1 block. */
  lemma BlocksSize3At(base: seq<ClusterOption>, lazyFSAvailable: bool, lastReleaseExists: bool,
                      ps: seq<TrafficProfile>, i: nat)
    requires i < |ps|
    ensures var s1 := Size1Block(base, lazyFSAvailable, ps);
            var out := s1 + Size3Block(base, lastReleaseExists, ps);
            |s1| + i < |out| && out[|s1| + i] == Size3Scenario(base, lastReleaseExists, ps[i])
  {
    Size3BlockAt(base, lastReleaseExists, ps);
  }

  /**
   * Entry `i`'s size-3 scenario sits at position `i` after all size-1
   * scenarios; the mixed-version option is among its options exactly when
   * the last-release binary exists.
   */
  lemma Size3Layout(env: Environment, ps: seq<TrafficProfile>, i: nat)
    requires i < |ps|
    ensures var out, k, tp := ExploratoryList(env, ps), Size1Offset(env, ps, |ps|) + i, ps[i];
            && k < |out|
            && out[k].name == tp.traffic.name + "/" + tp.profile.name + "/ClusterOfSize3"
            && out[k].cluster == BaseOptions(env.catchUpSupported) + [IsPeerTLS(true), PeerProxy(true)]
                                 + (if env.lastReleaseExists then [MixedVersionOption] else [])
            && (MixedVersionOption in out[k].cluster <==> env.lastReleaseExists)
            && EffectiveCompactionLimit(out[k].cluster) == Some([10, 100, 1000])
    ensures var out, k, tp := ExploratoryList(env, ps), Size1Offset(env, ps, |ps|) + i, ps[i];
            && k < |out|
            && out[k] == Size3Scenario(BaseOptions(env.catchUpSupported), env.lastReleaseExists, tp)
            && out[k].traffic == tp.traffic && out[k].profile == tp.profile
  {
    var base := BaseOptions(env.catchUpSupported);
    ExploratorySize3At(env, ps, i);
    BaseOptionsContents(env.catchUpSupported);
    Size3ScenarioContents(base, env.lastReleaseExists, ps[i]);
  }

  /**
   * The base options: five fixed options, then the snapshot catch-up entries
   * exactly when the binary supports them; the compaction limit they leave is
   * one of 10, 100 and 1000.
   */
  lemma BaseOptionsContents(catchUpSupported: bool)
    ensures |BaseOptions(catchUpSupported)| == if catchUpSupported then 6 else 5
    ensures SnapshotCatchUpEntries(100) in BaseOptions(catchUpSupported) <==> catchUpSupported
    ensures GoFailEnabled(true) in BaseOptions(catchUpSupported)
    ensures MixedVersionOption !in BaseOptions(catchUpSupported)
    ensures EffectiveCompactionLimit(BaseOptions(catchUpSupported)) == Some([10, 100, 1000])
  {
    var fixed := BaseOptions(false);
    assert EffectiveCompactionLimit(fixed[..4]) == Some([10, 100, 1000]);
    EffectiveCompactionLimitIgnoresOthers(fixed[..4], BaseOptions(catchUpSupported)[4..]);
    assert BaseOptions(catchUpSupported) == fixed[..4] + BaseOptions(catchUpSupported)[4..];
  }

  /** One entry's size-1 scenarios extend the base options and arm no failpoint. */
  lemma Size1ScenariosExtend(base: seq<ClusterOption>, lazyFSAvailable: bool, tp: TrafficProfile)
    ensures forall s :: s in Size1Scenarios(base, lazyFSAvailable, tp) ==>
              base <= s.cluster && s.failpoint == None && s.watch == NoWatch
  {
    var opts := base + [ClusterSize(1)];
    assert base <= opts;
    assert opts <= opts + [LazyFSEnabled(true), CompactionBatchLimit(1000)];
    assert opts <= opts + [CompactionBatchLimitChoice([10, 100])];
  }

  /** For any base options, every scenario of both blocks extends them and arms no failpoint. */
  lemma BlocksPrefix(base: seq<ClusterOption>, lazyFSAvailable: bool, lastReleaseExists: bool, ps: seq<TrafficProfile>)
    ensures forall s :: s in Size1Block(base, lazyFSAvailable, ps) + Size3Block(base, lastReleaseExists, ps) ==>
              base <= s.cluster && s.failpoint == None && s.watch == NoWatch
  {
    var s1 := Size1Block(base, lazyFSAvailable, ps);
    var s3 := Size3Block(base, lastReleaseExists, ps);
    Size3BlockAt(base, lastReleaseExists, ps);
    forall s: Scenario | s in s1
      ensures base <= s.cluster && s.failpoint == None && s.watch == NoWatch
    {
      Size1BlockMember(base, lazyFSAvailable, ps, s);
      var j :| 0 <= j < |ps| && s in Size1Scenarios(base, lazyFSAvailable, ps[j]);
      Size1ScenariosExtend(base, lazyFSAvailable, ps[j]);
    }
    forall k | 0 <= k < |s3|
      ensures base <= s3[k].cluster && s3[k].failpoint == None && s3[k].watch == NoWatch
    {
      assert base <= base + [IsPeerTLS(true), PeerProxy(true)];
    }
  }

  /** Every exploratory scenario starts with the base options and arms no failpoint. */
  lemma ExploratoryPrefix(env: Environment, ps: seq<TrafficProfile>)
    ensures forall s :: s in ExploratoryList(env, ps) ==>
              BaseOptions(env.catchUpSupported) <= s.cluster && s.failpoint == None && s.watch == NoWatch
  {
    BlocksPrefix(BaseOptions(env.catchUpSupported), env.lazyFSAvailable, env.lastReleaseExists, ps);
  }

  /** The mixed-version option has ten equally likely alternatives, six with every member at the current version. */
  lemma MixedVersionAllCurrent()
    ensures MixedVersionOption.ClusterOptionGroups?
    ensures |MixedVersionOption.groups| == 10
    ensures multiset(MixedVersionOption.groups)[[ClusterVersion(CurrentVersion)]] == 6
  {
  }

  /**
   * The other four alternatives of the mixed-version option: one for each
   * pairing of a last-version mix (minority or quorum) with an initial
   * leader index (0 or 2).
   */
  lemma MixedVersionLastVersion()
    ensures MixedVersionOption.ClusterOptionGroups?
    ensures multiset(MixedVersionOption.groups)[[ClusterVersion(MinorityLastVersion), InitialLeaderIndex(0)]] == 1
    ensures multiset(MixedVersionOption.groups)[[ClusterVersion(MinorityLastVersion), InitialLeaderIndex(2)]] == 1
    ensures multiset(MixedVersionOption.groups)[[ClusterVersion(QuorumLastVersion), InitialLeaderIndex(0)]] == 1
    ensures multiset(MixedVersionOption.groups)[[ClusterVersion(QuorumLastVersion), InitialLeaderIndex(2)]] == 1
  {
  }

  /** With the source's registry and a low (at most 100 QPS) and a high profile: 10 scenarios with LazyFS, 8 without. */
  lemma TrafficProfilesCount(env: Environment, c: Catalog)
    requires c.lowTraffic.minimalQPS <= LazyFSMaxQPS < c.highTraffic.minimalQPS
    ensures |ExploratoryList(env, TrafficProfiles(c))| == if env.lazyFSAvailable then 10 else 8
  {
    var ps := TrafficProfiles(c);
    ExploratoryLength(env, ps);
    var lazy := env.lazyFSAvailable;
    assert ps[..3][..2] == ps[..2] && ps[..2][..1] == ps[..1] && ps[..1][..0] == [];
    assert CountEligible(lazy, ps[..1]) == 0;
    assert CountEligible(lazy, ps[..2]) == if lazy then 1 else 0;
    assert CountEligible(lazy, ps[..3]) == if lazy then 1 else 0;
    assert CountEligible(lazy, ps) == if lazy then 2 else 0;
  }

  /** The name segments of one entry's size-1 scenarios, in emission order. */
  function Size1Paths(lazyFSAvailable: bool, tp: TrafficProfile): seq<seq<string>> {
    var p := Key(tp) + ["ClusterOfSize1"];
    if LazyFSEligible(lazyFSAvailable, tp) then [p + ["LazyFS"], p + ["Compact"]] else [p]
  }

  function Size1BlockPaths(lazyFSAvailable: bool, ps: seq<TrafficProfile>): seq<seq<string>> {
    if ps == [] then []
    else Size1BlockPaths(lazyFSAvailable, ps[..|ps| - 1]) + Size1Paths(lazyFSAvailable, ps[|ps| - 1])
  }

  function Size3BlockPaths(ps: seq<TrafficProfile>): seq<seq<string>> {
    seq(|ps|, k requires 0 <= k < |ps| => Key(ps[k]) + ["ClusterOfSize3"])
  }

  /** The name segments of every exploratory scenario, in emission order. */
  function ExploratoryPaths(env: Environment, ps: seq<TrafficProfile>): seq<seq<string>> {
    Size1BlockPaths(env.lazyFSAvailable, ps) + Size3BlockPaths(ps)
  }

  predicate SeparatorFree(path: seq<string>) {
    forall k :: 0 <= k < |path| ==> Separator !in path[k]
  }

  lemma Size1ScenariosNamed(base: seq<ClusterOption>, lazyFSAvailable: bool, tp: TrafficProfile)
    ensures var mine, paths := Size1Scenarios(base, lazyFSAvailable, tp), Size1Paths(lazyFSAvailable, tp);
            |mine| == |paths| && forall k :: 0 <= k < |mine| ==> mine[k].name == Join(paths[k])
  {
    var p := Key(tp) + ["ClusterOfSize1"];
    assert p == [tp.traffic.name, tp.profile.name, "ClusterOfSize1"];
    JoinAppend(p, "LazyFS");
    JoinAppend(p, "Compact");
  }

  /** Each size-1 scenario is named by joining its path. */
  lemma {:induction false} Size1BlockNamed(base: seq<ClusterOption>, lazyFSAvailable: bool, ps: seq<TrafficProfile>)
    ensures var b, paths := Size1Block(base, lazyFSAvailable, ps), Size1BlockPaths(lazyFSAvailable, ps);
            |b| == |paths| && forall k :: 0 <= k < |b| ==> b[k].name == Join(paths[k])
  {
    if ps != [] {
      var init, last := ps[..|ps| - 1], ps[|ps| - 1];
      Size1BlockNamed(base, lazyFSAvailable, init);
      Size1ScenariosNamed(base, lazyFSAvailable, last);
    }
  }

  /** For any base options, every scenario of both blocks is named by joining its path. */
  lemma BlocksNamed(base: seq<ClusterOption>, lazyFSAvailable: bool, lastReleaseExists: bool, ps: seq<TrafficProfile>)
    ensures var out := Size1Block(base, lazyFSAvailable, ps) + Size3Block(base, lastReleaseExists, ps);
            var paths := Size1BlockPaths(lazyFSAvailable, ps) + Size3BlockPaths(ps);
            |out| == |paths| && forall k :: 0 <= k < |out| ==> out[k].name == Join(paths[k])
  {
    Size1BlockNamed(base, lazyFSAvailable, ps);
    Size3BlockAt(base, lastReleaseExists, ps);
    var s1 := Size1Block(base, lazyFSAvailable, ps);
    var out := s1 + Size3Block(base, lastReleaseExists, ps);
    var paths := Size1BlockPaths(lazyFSAvailable, ps) + Size3BlockPaths(ps);
    forall k | |s1| <= k < |out| ensures out[k].name == Join(paths[k]) {
      var j := k - |s1|;
      assert Key(ps[j]) + ["ClusterOfSize3"] == [ps[j].traffic.name, ps[j].profile.name, "ClusterOfSize3"];
    }
  }

  /** Every exploratory scenario is named by joining its path. */
  lemma ExploratoryNamed(env: Environment, ps: seq<TrafficProfile>)
    ensures var out, paths := ExploratoryList(env, ps), ExploratoryPaths(env, ps);
            |out| == |paths| && forall k :: 0 <= k < |out| ==> out[k].name == Join(paths[k])
  {
    BlocksNamed(BaseOptions(env.catchUpSupported), env.lazyFSAvailable, env.lastReleaseExists, ps);
  }

  /** A size-1 path: a key from `keys`, then "ClusterOfSize1", all segments separator-free. */
  predicate Size1PathShape(path: seq<string>, keys: set<seq<string>>) {
    |path| >= 3 && path[..2] in keys && path[2] == "ClusterOfSize1" && SeparatorFree(path)
  }

  /** Size-1 paths start with a registry key and "ClusterOfSize1" and are separator-free. */
  lemma {:induction false} Size1BlockPathsShape(lazyFSAvailable: bool, ps: seq<TrafficProfile>)
    requires forall k :: 0 <= k < |ps| ==> PlainSegment(ps[k].traffic.name) && PlainSegment(ps[k].profile.name)
    ensures forall k :: 0 <= k < |Size1BlockPaths(lazyFSAvailable, ps)| ==>
              Size1PathShape(Size1BlockPaths(lazyFSAvailable, ps)[k], Keys(ps))
  {
    if ps != [] {
      var n := |ps| - 1;
      var init := ps[..n];
      assert forall k :: 0 <= k < n ==> init[k] == ps[k];
      Size1BlockPathsShape(lazyFSAvailable, init);
      var b0, mine := Size1BlockPaths(lazyFSAvailable, init), Size1Paths(lazyFSAvailable, ps[n]);
      var b := b0 + mine;
      assert Keys(init) <= Keys(ps);
      assert Separator !in "ClusterOfSize1" && Separator !in "LazyFS" && Separator !in "Compact";
      assert Key(ps[n]) in Keys(ps);
      forall k | 0 <= k < |mine| ensures mine[k][..2] == Key(ps[n]) && Size1PathShape(mine[k], Keys(ps)) {
        assert PlainSegment(ps[n].traffic.name) && PlainSegment(ps[n].profile.name);
      }
      forall k | 0 <= k < |b| ensures Size1PathShape(b[k], Keys(ps)) {
        if k >= |b0| {
          assert b[k] == mine[k - |b0|];
        } else {
          assert b[k] == b0[k];
          assert Size1PathShape(b0[k], Keys(init));
        }
      }
    }
  }

  /** Size-1 paths are pairwise distinct when the registry is well formed. */
  lemma {:induction false} Size1BlockPathsDistinct(lazyFSAvailable: bool, ps: seq<TrafficProfile>)
    requires WellFormedRegistry(ps)
    ensures forall i, j :: 0 <= i < j < |Size1BlockPaths(lazyFSAvailable, ps)| ==>
              Size1BlockPaths(lazyFSAvailable, ps)[i] != Size1BlockPaths(lazyFSAvailable, ps)[j]
  {
    if ps != [] {
      var n := |ps| - 1;
      var init := ps[..n];
      assert forall k :: 0 <= k < n ==> init[k] == ps[k];
      Size1BlockPathsDistinct(lazyFSAvailable, init);
      Size1BlockPathsShape(lazyFSAvailable, init);
      var b0, mine := Size1BlockPaths(lazyFSAvailable, init), Size1Paths(lazyFSAvailable, ps[n]);
      var b := b0 + mine;
      assert Key(ps[n]) !in Keys(init);
      forall i, j | 0 <= i < j < |b| ensures b[i] != b[j] {
        if j < |b0| {
          assert b[i] == b0[i] && b[j] == b0[j];
        } else if i >= |b0| {
          assert b[i] == mine[0] && b[j] == mine[1];
          assert b[i][3] != b[j][3];
        } else {
          assert b[i] == b0[i] && b[j] == mine[j - |b0|];
          assert Size1PathShape(b0[i], Keys(init));
          assert b[j][..2] == Key(ps[n]);
        }
      }
    }
  }

  /** Every exploratory path is non-empty and separator-free when the registry's names are plain. */
  lemma ExploratoryPathsShape(env: Environment, ps: seq<TrafficProfile>)
    requires forall k :: 0 <= k < |ps| ==> PlainSegment(ps[k].traffic.name) && PlainSegment(ps[k].profile.name)
    ensures var paths := ExploratoryPaths(env, ps);
            forall k :: 0 <= k < |paths| ==> |paths[k]| >= 1 && SeparatorFree(paths[k])
  {
    var b1, b3 := Size1BlockPaths(env.lazyFSAvailable, ps), Size3BlockPaths(ps);
    var paths := ExploratoryPaths(env, ps);
    Size1BlockPathsShape(env.lazyFSAvailable, ps);
    assert Separator !in "ClusterOfSize3";
    forall k | 0 <= k < |paths| ensures |paths[k]| >= 1 && SeparatorFree(paths[k]) {
      if k >= |b1| {
        assert paths[k] == b3[k - |b1|];
        assert PlainSegment(ps[k - |b1|].traffic.name) && PlainSegment(ps[k - |b1|].profile.name);
      } else {
        assert paths[k] == b1[k];
        assert Size1PathShape(b1[k], Keys(ps));
      }
    }
  }

  /** No two exploratory scenarios share a path when the registry is well formed. */
  lemma ExploratoryPathsDistinct(env: Environment, ps: seq<TrafficProfile>)
    requires WellFormedRegistry(ps)
    ensures var paths := ExploratoryPaths(env, ps);
            forall i, j :: 0 <= i < j < |paths| ==> paths[i] != paths[j]
  {
    var b1, b3 := Size1BlockPaths(env.lazyFSAvailable, ps), Size3BlockPaths(ps);
    var paths := ExploratoryPaths(env, ps);
    Size1BlockPathsShape(env.lazyFSAvailable, ps);
    Size1BlockPathsDistinct(env.lazyFSAvailable, ps);
    forall i, j | 0 <= i < j < |paths| ensures paths[i] != paths[j] {
      if j < |b1| {
        assert paths[i] == b1[i] && paths[j] == b1[j];
      } else if i >= |b1| {
        assert paths[i] == b3[i - |b1|] && paths[j] == b3[j - |b1|];
        assert paths[i][..2] == Key(ps[i - |b1|]) && paths[j][..2] == Key(ps[j - |b1|]);
      } else {
        assert paths[i] == b1[i] && paths[j] == b3[j - |b1|];
        assert Size1PathShape(b1[i], Keys(ps));
        assert "ClusterOfSize1"[13] != "ClusterOfSize3"[13];
      }
    }
  }

  /** No two exploratory scenarios share a name when the registry's (traffic, profile) name pairs are distinct. */
  lemma ExploratoryNamesDistinct(env: Environment, ps: seq<TrafficProfile>)
    requires WellFormedRegistry(ps)
    ensures DistinctNames(ExploratoryList(env, ps))
  {
    var out, paths := ExploratoryList(env, ps), ExploratoryPaths(env, ps);
    ExploratoryNamed(env, ps);
    ExploratoryPathsShape(env, ps);
    ExploratoryPathsDistinct(env, ps);
    forall i, j | 0 <= i < j < |out| ensures out[i].name != out[j].name {
      JoinInjective(paths[i], paths[j]);
    }
  }

  /** Every size-1 path is the path of one registry entry's scenario. */
  lemma {:induction false} Size1BlockPathsMember(lazyFSAvailable: bool, ps: seq<TrafficProfile>, path: seq<string>)
    requires path in Size1BlockPaths(lazyFSAvailable, ps)
    ensures exists j :: 0 <= j < |ps| && path in Size1Paths(lazyFSAvailable, ps[j])
  {
    var init := ps[..|ps| - 1];
    if path in Size1BlockPaths(lazyFSAvailable, init) {
      Size1BlockPathsMember(lazyFSAvailable, init, path);
      var j :| 0 <= j < |init| && path in Size1Paths(lazyFSAvailable, init[j]);
      assert init[j] == ps[j];
    } else {
      assert path in Size1Paths(lazyFSAvailable, ps[|ps| - 1]);
    }
  }

  lemma LazyFSNameJoined(tp: TrafficProfile)
    ensures LazyFSName(tp) == Join(Key(tp) + ["ClusterOfSize1", "LazyFS"])
  {
    var segments := [tp.traffic.name, tp.profile.name, "ClusterOfSize1"];
    JoinThree(tp.traffic.name, tp.profile.name, "ClusterOfSize1");
    JoinTwo(Join(segments), "LazyFS");
    JoinAppend(segments, "LazyFS");
    assert segments + ["LazyFS"] == Key(tp) + ["ClusterOfSize1", "LazyFS"];
  }

  /** In a list named by joining separator-free paths, a name determines its path. */
  lemma NamedPathInList(out: seq<Scenario>, paths: seq<seq<string>>, s: Scenario, path: seq<string>)
    requires |out| == |paths| && forall k :: 0 <= k < |out| ==> out[k].name == Join(paths[k])
    requires forall k :: 0 <= k < |paths| ==> |paths[k]| >= 1 && SeparatorFree(paths[k])
    requires |path| >= 1 && SeparatorFree(path)
    requires s in out && s.name == Join(path)
    ensures path in paths
  {
    var k :| 0 <= k < |out| && out[k] == s;
    JoinInjective(paths[k], path);
  }

  /** The path of a scenario, recovered from its name. */
  lemma NamedPathIn(env: Environment, ps: seq<TrafficProfile>, s: Scenario, path: seq<string>)
    requires WellFormedRegistry(ps)
    requires |path| >= 1 && SeparatorFree(path)
    requires s in ExploratoryList(env, ps) && s.name == Join(path)
    ensures path in ExploratoryPaths(env, ps)
  {
    ExploratoryNamed(env, ps);
    ExploratoryPathsShape(env, ps);
    NamedPathInList(ExploratoryList(env, ps), ExploratoryPaths(env, ps), s, path);
  }

  /** Only an entry that qualifies for LazyFS has a path ending in "ClusterOfSize1/LazyFS". */
  lemma LazyFSPathOnlyIfEligible(env: Environment, ps: seq<TrafficProfile>, i: nat)
    requires WellFormedRegistry(ps)
    requires i < |ps|
    requires Key(ps[i]) + ["ClusterOfSize1", "LazyFS"] in ExploratoryPaths(env, ps)
    ensures LazyFSEligible(env.lazyFSAvailable, ps[i])
  {
    var lazyPath := Key(ps[i]) + ["ClusterOfSize1", "LazyFS"];
    var b1, b3 := Size1BlockPaths(env.lazyFSAvailable, ps), Size3BlockPaths(ps);
    assert lazyPath !in b3 by {
      forall k | 0 <= k < |b3| ensures b3[k] != lazyPath {
        assert |b3[k]| == 3;
      }
    }
    Size1BlockPathsMember(env.lazyFSAvailable, ps, lazyPath);
    var j :| 0 <= j < |ps| && lazyPath in Size1Paths(env.lazyFSAvailable, ps[j]);
    assert Key(ps[j]) == lazyPath[..2] == Key(ps[i]);
    assert j == i;
  }

  /** Only an entry that qualifies for LazyFS has a scenario with its LazyFS variant's name. */
  lemma LazyFSVariantOnlyIfEligible(env: Environment, ps: seq<TrafficProfile>, i: nat, s: Scenario)
    requires WellFormedRegistry(ps)
    requires i < |ps|
    requires s in ExploratoryList(env, ps) && s.name == LazyFSName(ps[i])
    ensures LazyFSEligible(env.lazyFSAvailable, ps[i])
  {
    var tp := ps[i];
    var lazyPath := Key(tp) + ["ClusterOfSize1", "LazyFS"];
    LazyFSNameJoined(tp);
    assert PlainSegment(tp.traffic.name) && PlainSegment(tp.profile.name);
    assert Separator !in "ClusterOfSize1" && Separator !in "LazyFS";
    assert SeparatorFree(lazyPath);
    NamedPathIn(env, ps, s, lazyPath);
    LazyFSPathOnlyIfEligible(env, ps, i);
  }

  /**
   * A scenario named "<traffic>/<profile>/ClusterOfSize1/LazyFS" is emitted
   * exactly when LazyFS is available and that entry's minimal QPS is at most 100.
   */
  lemma LazyFSVariantIff(env: Environment, ps: seq<TrafficProfile>, i: nat)
    requires WellFormedRegistry(ps)
    requires i < |ps|
    ensures (exists s :: s in ExploratoryList(env, ps) && s.name == LazyFSName(ps[i]))
            <==> LazyFSEligible(env.lazyFSAvailable, ps[i])
  {
    var out := ExploratoryList(env, ps);
    if LazyFSEligible(env.lazyFSAvailable, ps[i]) {
      Size1Layout(env, ps, i);
      var o := Size1Offset(env, ps, i);
      assert out[o] in out && out[o].name == LazyFSName(ps[i]);
    } else {
      forall s | s in out ensures s.name != LazyFSName(ps[i]) {
        if s.name == LazyFSName(ps[i]) {
          LazyFSVariantOnlyIfEligible(env, ps, i, s);
        }
      }
    }
  }
}
