/**
 * Cluster options: the `e2e.EPClusterOption` values handed to `e2e.NewConfig`.
 * Each option is kept as opaque data naming the option constructor and its
 * arguments; what the option does to an `EtcdProcessClusterConfig` is not
 * modelled. A cluster descriptor is the ordered sequence of its options.
 */
module ClusterOptions {
  import opened Wrappers

  /** The member-version mixes `e2e.CurrentVersion`, `e2e.MinorityLastVersion` and `e2e.QuorumLastVersion`. */
  datatype VersionMix = CurrentVersion | MinorityLastVersion | QuorumLastVersion

  datatype ClusterOption =
    | TickMs(tickMs: nat)                                  // options.WithTickMs
    | ElectionMs(electionMs: nat)                          // options.WithElectionMs
    | SnapshotCount(count: nat)                            // e2e.WithSnapshotCount
    | SnapshotCountChoice(counts: seq<nat>)                // options.WithSnapshotCount: one of the values
    | CompactionBatchLimit(limit: nat)                     // e2e.WithCompactionBatchLimit
    | CompactionBatchLimitChoice(limits: seq<nat>)         // options.WithCompactionBatchLimit: one of the values
    | ClusterSize(size: nat)                               // e2e.WithClusterSize
    | GoFailEnabled(goFail: bool)                          // e2e.WithGoFailEnabled
    | WatchProcessNotifyIntervalMs(intervalMs: nat)        // e2e.WithWatchProcessNotifyInterval
    | SnapshotCatchUpEntries(entries: nat)                 // e2e.WithSnapshotCatchUpEntries
    | IsPeerTLS(peerTLS: bool)                             // e2e.WithIsPeerTLS
    | PeerProxy(peerProxy: bool)                           // e2e.WithPeerProxy
    | LazyFSEnabled(lazyFS: bool)                          // e2e.WithLazyFSEnabled
    | ClusterVersion(mix: VersionMix)                      // options.WithVersion
    | InitialLeaderIndex(index: nat)                       // options.WithInitialLeaderIndex
    | ClusterOptionGroups(groups: seq<seq<ClusterOption>>) // options.WithClusterOptionGroups: one group
    | SubsetOptions(subset: seq<ClusterOption>)            // options.WithSubsetOptions: some of the options

  /** Does this option set the compaction batch limit (to one value or to a choice of values)? */
  predicate SetsCompactionLimit(o: ClusterOption) {
    o.CompactionBatchLimit? || o.CompactionBatchLimitChoice?
  }

  /** The candidate values an option that sets the compaction batch limit leaves for it. */
  function CompactionCandidates(o: ClusterOption): seq<nat>
    requires SetsCompactionLimit(o)
  {
    if o.CompactionBatchLimit? then [o.limit] else o.limits
  }

  /**
   * The compaction batch limit a descriptor ends with once its options are
   * applied left to right: every top-level option that sets the limit
   * overwrites the previous one, so the last one wins. `None` when no
   * top-level option sets it.
   */
  function EffectiveCompactionLimit(opts: seq<ClusterOption>): Option<seq<nat>>
  {
    if opts == [] then None
    else if SetsCompactionLimit(opts[|opts| - 1]) then Some(CompactionCandidates(opts[|opts| - 1]))
    else EffectiveCompactionLimit(opts[..|opts| - 1])
  }

  /** Appending options that leave the compaction limit alone keeps the effective limit. */
  lemma {:induction false} EffectiveCompactionLimitIgnoresOthers(opts: seq<ClusterOption>, more: seq<ClusterOption>)
    requires forall k :: 0 <= k < |more| ==> !SetsCompactionLimit(more[k])
    ensures EffectiveCompactionLimit(opts + more) == EffectiveCompactionLimit(opts)
  {
    if more != [] {
      var init := more[..|more| - 1];
      assert (opts + more)[..|opts + more| - 1] == opts + init;
      EffectiveCompactionLimitIgnoresOthers(opts, init);
    } else {
      assert opts + more == opts;
    }
  }

  /** A later option that sets the compaction limit overrides every earlier one. */
  lemma {:induction false} LaterCompactionLimitWins(opts: seq<ClusterOption>, o: ClusterOption, more: seq<ClusterOption>)
    requires SetsCompactionLimit(o)
    requires forall k :: 0 <= k < |more| ==> !SetsCompactionLimit(more[k])
    ensures EffectiveCompactionLimit(opts + [o] + more) == Some(CompactionCandidates(o))
  {
    EffectiveCompactionLimitIgnoresOthers(opts + [o], more);
    assert (opts + [o])[..|opts + [o]| - 1] == opts;
  }

  /** The effective limit is `None` exactly when no top-level option sets it. */
  lemma {:induction false} EffectiveCompactionLimitNone(opts: seq<ClusterOption>)
    ensures EffectiveCompactionLimit(opts).None? <==> forall k :: 0 <= k < |opts| ==> !SetsCompactionLimit(opts[k])
  {
    if opts != [] {
      var n := |opts| - 1;
      var init := opts[..n];
      EffectiveCompactionLimitNone(init);
      assert forall k :: 0 <= k < n ==> init[k] == opts[k];
    }
  }

  /**
   * Independent characterisation of the fold: a limit that is set is the
   * candidates of the last top-level option that sets it.
   */
  lemma {:induction false} EffectiveCompactionLimitIsLast(opts: seq<ClusterOption>)
    ensures EffectiveCompactionLimit(opts).Some? ==>
              exists k :: 0 <= k < |opts| && SetsCompactionLimit(opts[k])
                          && EffectiveCompactionLimit(opts).value == CompactionCandidates(opts[k])
                          && forall j :: k < j < |opts| ==> !SetsCompactionLimit(opts[j])
  {
    if opts != [] {
      var n := |opts| - 1;
      var init := opts[..n];
      EffectiveCompactionLimitIsLast(init);
      if !SetsCompactionLimit(opts[n]) {
        if EffectiveCompactionLimit(init).Some? {
          var k :| 0 <= k < |init| && SetsCompactionLimit(init[k])
                   && EffectiveCompactionLimit(init).value == CompactionCandidates(init[k])
                   && forall j :: k < j < |init| ==> !SetsCompactionLimit(init[j]);
          assert opts[k] == init[k];
          assert forall j :: k < j < n ==> init[j] == opts[j];
        }
      }
    }
  }
}
