/**
 * `regressionScenarios`: a fixed, ordered list of reproductions of fixed
 * etcd issues, the last of them only for binaries at version 3.5 or later.
 * Failing to determine the binary's version is fatal.
 */
module Regression {
  import opened Wrappers
  import opened ClusterOptions
  import opened Scenarios

  const RegressionNamesFixed: seq<string> := ["Issue14370", "Issue14685", "Issue13766", "Issue15220"]
  const VersionGatedName: string := "Issue15271"

  /** The options of the Issue15271 reproduction. */
  function Issue15271Options(catchUpSupported: bool): seq<ClusterOption> {
    [SnapshotCount(100), PeerProxy(true), IsPeerTLS(true)]
    + (if catchUpSupported then [SnapshotCatchUpEntries(100)] else [])
  }

  /** The list `regressionScenarios` returns once the binary's version `v` is known. */
  function RegressionList(c: Catalog, v: SemVer, catchUpSupported: bool): seq<Scenario> {
    [ Scenario("Issue14370", Some(RaftBeforeSavePanic), [ClusterSize(1), GoFailEnabled(true)],
               c.etcdPutDeleteLease, c.lowTraffic, NoWatch),
      Scenario("Issue14685", Some(DefragBeforeCopyPanic), [ClusterSize(1), GoFailEnabled(true)],
               c.etcdPutDeleteLease, c.lowTraffic, NoWatch),
      Scenario("Issue13766", Some(KillFailpoint), [SnapshotCount(100)],
               c.etcdPut, c.highTraffic, NoWatch),
      Scenario("Issue15220", None, [ClusterSize(1)],
               c.etcdPutDeleteLease, c.lowTraffic, WatchConfig(true)) ]
    + (if Compare(v, V3_5) >= 0
       then [Scenario("Issue15271", Some(BlackholeUntilSnapshot), Issue15271Options(catchUpSupported),
                      c.etcdPut, c.highTraffic, NoWatch)]
       else [])
  }

  /**
   * The generator: a version-lookup failure aborts with an error and no
   * list; otherwise the scenarios are appended one by one.
   */
  method RegressionScenarios(env: Environment, c: Catalog) returns (r: Result<seq<Scenario>, string>)
    ensures r.Failure? <==> env.binaryVersion.Failure?
    ensures r.Success? ==> r.value == RegressionList(c, env.binaryVersion.value, env.catchUpSupported)
  {
    if env.binaryVersion.Failure? {
      return Failure("Failed checking etcd version binary: " + env.binaryVersion.error);
    }
    var v := env.binaryVersion.value;
    var scenarios: seq<Scenario> := [];
    scenarios := scenarios + [Scenario("Issue14370", Some(RaftBeforeSavePanic), [ClusterSize(1), GoFailEnabled(true)],
                                       c.etcdPutDeleteLease, c.lowTraffic, NoWatch)];
    scenarios := scenarios + [Scenario("Issue14685", Some(DefragBeforeCopyPanic), [ClusterSize(1), GoFailEnabled(true)],
                                       c.etcdPutDeleteLease, c.lowTraffic, NoWatch)];
    scenarios := scenarios + [Scenario("Issue13766", Some(KillFailpoint), [SnapshotCount(100)],
                                       c.etcdPut, c.highTraffic, NoWatch)];
    scenarios := scenarios + [Scenario("Issue15220", None, [ClusterSize(1)],
                                       c.etcdPutDeleteLease, c.lowTraffic, WatchConfig(true))];
    if Compare(v, V3_5) >= 0 {
      var opts := [SnapshotCount(100), PeerProxy(true), IsPeerTLS(true)];
      if env.catchUpSupported {
        opts := opts + [SnapshotCatchUpEntries(100)];
      }
      assert opts == Issue15271Options(env.catchUpSupported);
      scenarios := scenarios + [Scenario("Issue15271", Some(BlackholeUntilSnapshot), opts,
                                         c.etcdPut, c.highTraffic, NoWatch)];
    }
    return Success(scenarios);
  }

  /** The version gate: at least 3.5 means a major above 3, or major 3 and minor at least 5. */
  lemma VersionGate(v: SemVer)
    ensures Compare(v, V3_5) >= 0 <==> v.major > 3 || (v.major == 3 && v.minor >= 5)
  {
  }

  /**
   * The regression list is Issue14370, Issue14685, Issue13766 and Issue15220
   * in that order, followed by Issue15271 exactly when the version is at
   * least 3.5; its length is 5 or 4 accordingly.
   */
  lemma RegressionNames(c: Catalog, v: SemVer, catchUpSupported: bool)
    ensures Names(RegressionList(c, v, catchUpSupported))
            == RegressionNamesFixed + (if Compare(v, V3_5) >= 0 then [VersionGatedName] else [])
    ensures |RegressionList(c, v, catchUpSupported)| == if Compare(v, V3_5) >= 0 then 5 else 4
  {
  }

  /** The Issue15271 reproduction is present exactly when the version is at least 3.5. */
  lemma VersionGatedPresentIff(c: Catalog, v: SemVer, catchUpSupported: bool)
    ensures (exists s :: s in RegressionList(c, v, catchUpSupported) && s.name == VersionGatedName)
            <==> Compare(v, V3_5) >= 0
  {
    var list := RegressionList(c, v, catchUpSupported);
    if Compare(v, V3_5) >= 0 {
      assert list[4] in list;
    } else {
      forall s | s in list ensures s.name != VersionGatedName {
        assert s in list[..4];
        assert "Issue14370"[6] != VersionGatedName[6];
        assert "Issue14685"[6] != VersionGatedName[6];
        assert "Issue13766"[6] != VersionGatedName[6];
        assert "Issue15220"[8] != VersionGatedName[8];
      }
    }
  }

  /** The Issue15271 reproduction sets snapshot catch-up entries exactly when the binary supports them. */
  lemma VersionGatedCatchUp(c: Catalog, v: SemVer, catchUpSupported: bool)
    requires Compare(v, V3_5) >= 0
    ensures RegressionList(c, v, catchUpSupported)[4].name == VersionGatedName
    ensures SnapshotCatchUpEntries(100) in RegressionList(c, v, catchUpSupported)[4].cluster <==> catchUpSupported
  {
  }

  /** No two regression scenarios share a name. */
  lemma RegressionNamesDistinct(c: Catalog, v: SemVer, catchUpSupported: bool)
    ensures DistinctNames(RegressionList(c, v, catchUpSupported))
  {
    var list := RegressionList(c, v, catchUpSupported);
    forall i, j | 0 <= i < j < |list| ensures list[i].name != list[j].name {
      assert list[i].name[7] != list[j].name[7] || list[i].name[8] != list[j].name[8];
    }
  }
}
