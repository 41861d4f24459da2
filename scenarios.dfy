/**
 * The entities shared by both scenario generators: traffics, load profiles,
 * the registry of (traffic, profile) pairs, test scenarios and the answers of
 * the environment probes the generators consult.
 */
module Scenarios {
  import opened Wrappers
  import opened ClusterOptions
  import opened Paths

  /** A traffic generator; only its name (`Traffic.Name()`) is used here. */
  datatype Traffic = Traffic(name: string)

  /** A load profile: its name and its minimal queries per second. */
  datatype Profile = Profile(name: string, minimalQPS: nat)

  /** One registry entry, `TrafficProfile{Traffic, Profile}`. */
  datatype TrafficProfile = TrafficProfile(traffic: Traffic, profile: Profile)

  /** The failpoints the regression scenarios arm. */
  datatype Failpoint = RaftBeforeSavePanic | DefragBeforeCopyPanic | KillFailpoint | BlackholeUntilSnapshot

  /** `watchConfig`; its zero value does not request progress notifications. */
  datatype WatchConfig = WatchConfig(requestProgress: bool)

  const NoWatch := WatchConfig(false)

  /**
   * `testScenario`: a name, an optional failpoint (`None` is Go's nil), the
   * cluster descriptor as the options given to `e2e.NewConfig`, the traffic,
   * the profile and the watch configuration.
   */
  datatype Scenario = Scenario(
    name: string,
    failpoint: Option<Failpoint>,
    cluster: seq<ClusterOption>,
    traffic: Traffic,
    profile: Profile,
    watch: WatchConfig)

  /** A binary version, ordered by (major, minor, patch). */
  datatype SemVer = SemVer(major: nat, minor: nat, patch: nat)

  const V3_5 := SemVer(3, 5, 0)

  /** `v.Compare(w)`: -1, 0 or 1 as `v` is below, equal to or above `w`. */
  function Compare(v: SemVer, w: SemVer): (c: int)
    ensures c == 0 <==> v == w
    ensures -1 <= c <= 1
  {
    if v.major != w.major then (if v.major < w.major then -1 else 1)
    else if v.minor != w.minor then (if v.minor < w.minor then -1 else 1)
    else if v.patch != w.patch then (if v.patch < w.patch then -1 else 1)
    else 0
  }

  /** Lexicographic order on (major, minor, patch). */
  predicate Below(v: SemVer, w: SemVer) {
    v.major < w.major
    || (v.major == w.major && v.minor < w.minor)
    || (v.major == w.major && v.minor == w.minor && v.patch < w.patch)
  }

  /** The sign of `Compare` follows the order, and swapping the arguments negates it. */
  lemma CompareSign(v: SemVer, w: SemVer)
    ensures Compare(v, w) < 0 <==> Below(v, w)
    ensures Compare(v, w) > 0 <==> Below(w, v)
    ensures Compare(w, v) == -Compare(v, w)
  {
  }

  /**
   * The answers of the environment probes: whether LazyFS is available,
   * whether the etcd binary supports setting snapshot catch-up entries,
   * whether the last-release binary exists, and the etcd binary's version
   * (or the error that looking it up gave).
   */
  datatype Environment = Environment(
    lazyFSAvailable: bool,
    catchUpSupported: bool,
    lastReleaseExists: bool,
    binaryVersion: Result<SemVer, string>)

  /**
   * The traffics and profiles the scenarios refer to. They are defined by
   * the traffic package; here they are parameters.
   */
  datatype Catalog = Catalog(
    etcdPut: Traffic,
    etcdPutDeleteLease: Traffic,
    kubernetes: Traffic,
    highTraffic: Profile,
    lowTraffic: Profile)

  /** The `trafficProfiles` registry, in order. */
  function TrafficProfiles(c: Catalog): seq<TrafficProfile> {
    [ TrafficProfile(c.etcdPut, c.highTraffic),
      TrafficProfile(c.etcdPutDeleteLease, c.lowTraffic),
      TrafficProfile(c.kubernetes, c.highTraffic),
      TrafficProfile(c.kubernetes, c.lowTraffic) ]
  }

  /** The (traffic name, profile name) pair that starts a scenario name. */
  function Key(tp: TrafficProfile): seq<string> {
    [tp.traffic.name, tp.profile.name]
  }

  function Keys(ps: seq<TrafficProfile>): set<seq<string>> {
    set k | 0 <= k < |ps| :: Key(ps[k])
  }

  /** Registry entries with plain names and pairwise distinct (traffic name, profile name) pairs. */
  predicate WellFormedRegistry(ps: seq<TrafficProfile>) {
    && (forall k :: 0 <= k < |ps| ==> PlainSegment(ps[k].traffic.name) && PlainSegment(ps[k].profile.name))
    && (forall i, j :: 0 <= i < j < |ps| ==> Key(ps[i]) != Key(ps[j]))
  }

  /** The names of the scenarios, in order. */
  function Names(ss: seq<Scenario>): seq<string> {
    seq(|ss|, k requires 0 <= k < |ss| => ss[k].name)
  }

  predicate DistinctNames(ss: seq<Scenario>) {
    forall i, j :: 0 <= i < j < |ss| ==> ss[i].name != ss[j].name
  }

  /**
   * With plain names, distinct profile names, and a Kubernetes traffic named
   * unlike both etcd traffics, the registry is well formed. The two etcd
   * traffics may share a name: their entries differ by profile.
   */
  lemma TrafficProfilesWellFormed(c: Catalog)
    requires PlainSegment(c.etcdPut.name) && PlainSegment(c.etcdPutDeleteLease.name) && PlainSegment(c.kubernetes.name)
    requires PlainSegment(c.highTraffic.name) && PlainSegment(c.lowTraffic.name)
    requires c.etcdPut.name != c.kubernetes.name && c.etcdPutDeleteLease.name != c.kubernetes.name
    requires c.highTraffic.name != c.lowTraffic.name
    ensures WellFormedRegistry(TrafficProfiles(c))
  {
  }
}
