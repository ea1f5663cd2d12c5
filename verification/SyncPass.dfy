/**
 * The server's sync of a pod: events feed the trackers, a pass drains them into the maps, and what it installs is
 * enforced.
 */
module SyncPasses {
  import opened Collections
  import opened TcTypes
  import opened PolicyRules
  import opened Devices
  import opened Actuators
  import opened Cluster
  import opened Renderer
  import opened Enforcement
  import opened Trackers
  import opened ChangeTrackers
  import opened PodTracking

  function PolicyKey(info: PolicyInfo): NamespacedName {
    NamespacedName(info.policy.namespace, info.policy.name)
  }

  function PolicyEntry(info: PolicyInfo): Option<PolicyInfo> {
    Some(info)
  }

  function NamespaceKey(info: NamespaceInfo): string {
    info.name
  }

  function NamespaceEntry(info: NamespaceInfo): Option<NamespaceInfo> {
    Some(info)
  }

  class SyncServer {
    const podChanges: PodChangeTracker
    const policyChanges: ChangeTracker<PolicyInfo, NamespacedName, PolicyInfo>
    const nsChanges: ChangeTracker<NamespaceInfo, string, NamespaceInfo>
    const podMap: InfoMap<NamespacedName, PodInfo>
    const policyMap: InfoMap<NamespacedName, PolicyInfo>
    const namespaceMap: InfoMap<string, NamespaceInfo>
    ghost var pods: map<NamespacedName, Pod>             // the objects delivered last
    ghost var policies: map<NamespacedName, PolicyInfo>
    ghost var namespaces: map<string, NamespaceInfo>

    ghost predicate Apart() {
      policyChanges as object != nsChanges as object &&
      podChanges.netdefChanges.changes as object != policyChanges as object &&
      podChanges.netdefChanges.changes as object != nsChanges as object &&
      podMap as object != policyMap as object && podMap as object != namespaceMap as object &&
      policyMap as object != namespaceMap as object &&
      podChanges.netdefChanges.netdefMap as object != podMap as object &&
      podChanges.netdefChanges.netdefMap as object != policyMap as object &&
      podChanges.netdefChanges.netdefMap as object != namespaceMap as object
    }

    /** The pods as a pass will see them: the map with the pending changes applied. */
    ghost function PodEntries(): map<NamespacedName, PodInfo>
      reads podChanges, podMap
    {
      ApplyAll(podMap.entries, podChanges.items)
    }

    ghost predicate PodsValid()
      reads `pods, podChanges
    {
      KeyedBy(PodKey, pods) && Local(podChanges.items)
    }

    /** The entry of a pod with the plugins that lookups name now. */
    ghost function PodReading(): Pod -> Option<PodInfo>
      reads podChanges.netdefChanges`defs
    {
      PodInfoUnder(ViewOf(podChanges.netdefChanges.defs), podChanges.networkPlugins)
    }

    /** Every pod was handled with the plugins that lookups name now, or with plugins that make no difference to it. */
    ghost predicate PodsCurrent()
      reads `pods, podChanges, podMap, podChanges.netdefChanges`defs
    {
      Follow(PodKey, PodReading(), podMap.entries, podChanges.items, pods)
    }

    ghost predicate PoliciesInStep()
      reads `policies, policyChanges, policyMap
    {
      policyChanges.keyOf == PolicyKey && policyChanges.infoOf == PolicyEntry &&
      Follow(PolicyKey, PolicyEntry, policyMap.entries, policyChanges.items, policies)
    }

    ghost predicate NamespacesInStep()
      reads `namespaces, nsChanges, namespaceMap
    {
      nsChanges.keyOf == NamespaceKey && nsChanges.infoOf == NamespaceEntry &&
      Follow(NamespaceKey, NamespaceEntry, namespaceMap.entries, nsChanges.items, namespaces)
    }

    ghost predicate Valid()
      reads this, podChanges, policyChanges, policyMap, nsChanges, namespaceMap
    {
      Apart() && PodsValid() && PoliciesInStep() && NamespacesInStep()
    }

    constructor (networkPlugins: seq<string>, netdefChanges: NetDefChangeTracker)
      requires netdefChanges.Valid()
      ensures Valid() && PodsCurrent() && pods == map[] && policies == map[] && namespaces == map[]
      ensures podChanges.netdefChanges == netdefChanges && podChanges.networkPlugins == networkPlugins
    {
      podChanges := new PodChangeTracker(networkPlugins, netdefChanges);
      policyChanges := new ChangeTracker<PolicyInfo, NamespacedName, PolicyInfo>(PolicyKey, PolicyEntry);
      nsChanges := new ChangeTracker<NamespaceInfo, string, NamespaceInfo>(NamespaceKey, NamespaceEntry);
      podMap := new InfoMap<NamespacedName, PodInfo>();
      policyMap := new InfoMap<NamespacedName, PolicyInfo>();
      namespaceMap := new InfoMap<string, NamespaceInfo>();
      pods, policies, namespaces := map[], map[], map[];
      NothingFollows(PodKey, PodInfoUnder(netdefChanges.View(), networkPlugins));
      NothingFollows(PolicyKey, PolicyEntry);
      NothingFollows(NamespaceKey, NamespaceEntry);
    }

    method TrackPolicy(previous: Option<PolicyInfo>, current: Option<PolicyInfo>)
      requires PoliciesInStep() && Follows(PolicyKey, policies, previous, current)
      modifies this`policies, policyChanges
      ensures PoliciesInStep() && policies == Delivered(PolicyKey, old(policies), previous, current)
    {
      EventFollows(PolicyKey, PolicyEntry, policyMap.entries, policyChanges.items, policies, previous, current);
      var tracked := policyChanges.Update(previous, current);
      policies := Delivered(PolicyKey, policies, previous, current);
    }

    method OnPolicyEvent(previous: Option<PolicyInfo>, current: Option<PolicyInfo>)
      requires Valid() && Follows(PolicyKey, policies, previous, current)
      modifies this`policies, policyChanges
      ensures Valid() && policies == Delivered(PolicyKey, old(policies), previous, current)
      ensures current.Some? ==>
                var policy := current.value.policy;
                policies == old(policies)[NamespacedName(policy.namespace, policy.name) := current.value]
      ensures current.None? ==>
                var policy := previous.value.policy;
                policies == old(policies) - {NamespacedName(policy.namespace, policy.name)}
    {
      TrackPolicy(previous, current);
    }

    method TrackNamespace(previous: Option<NamespaceInfo>, current: Option<NamespaceInfo>)
      requires NamespacesInStep() && Follows(NamespaceKey, namespaces, previous, current)
      modifies this`namespaces, nsChanges
      ensures NamespacesInStep() && namespaces == Delivered(NamespaceKey, old(namespaces), previous, current)
    {
      EventFollows(NamespaceKey, NamespaceEntry, namespaceMap.entries, nsChanges.items, namespaces, previous, current);
      var tracked := nsChanges.Update(previous, current);
      namespaces := Delivered(NamespaceKey, namespaces, previous, current);
    }

    method OnNamespaceEvent(previous: Option<NamespaceInfo>, current: Option<NamespaceInfo>)
      requires Valid() && Follows(NamespaceKey, namespaces, previous, current)
      modifies this`namespaces, nsChanges
      ensures Valid() && namespaces == Delivered(NamespaceKey, old(namespaces), previous, current)
      ensures current.Some? ==> namespaces == old(namespaces)[current.value.name := current.value]
      ensures current.None? ==> namespaces == old(namespaces) - {previous.value.name}
    {
      TrackNamespace(previous, current);
    }

    method TrackPod(previous: Option<Pod>, current: Option<Pod>)
      requires PodsValid() && Follows(PodKey, pods, previous, current) && podChanges.netdefChanges.Valid()
      requires podChanges.netdefChanges.netdefMap as object != podMap as object
      modifies this`pods, podChanges`items, podChanges.netdefChanges.changes, podChanges.netdefChanges.netdefMap
      ensures PodsValid() && podChanges.netdefChanges.Valid()
      ensures podChanges.netdefChanges.defs == old(podChanges.netdefChanges.defs)
      ensures pods == Delivered(PodKey, old(pods), previous, current)
      ensures PodEntries() == Tracking(podMap.entries, old(podChanges.items),
                                       EventOf(PodKey, PodReading(), previous, current))
      ensures old(PodsCurrent()) ==> PodsCurrent()
    {
      EventTracked(PodKey, PodReading(), podMap.entries, podChanges.items, pods, previous, current);
      var tracked := podChanges.Update(previous, current);
      pods := Delivered(PodKey, pods, previous, current);
    }

    /** A pod event; both entries of its pair are made with the plugins that lookups name now. */
    method OnPodEvent(previous: Option<Pod>, current: Option<Pod>)
      requires Valid() && Follows(PodKey, pods, previous, current) && podChanges.netdefChanges.Valid()
      modifies this`pods, podChanges`items, podChanges.netdefChanges.changes, podChanges.netdefChanges.netdefMap
      ensures Valid() && podChanges.netdefChanges.Valid()
      ensures podChanges.netdefChanges.defs == old(podChanges.netdefChanges.defs)
      ensures pods == if current.Some? then old(pods)[current.value.name := current.value]
                      else old(pods) - {previous.value.name}
      // the entry becomes the current one, unless the event cancels what is pending: then that of the map remains
      ensures PodEntries() == Tracking(podMap.entries, old(podChanges.items),
                                       EventOf(PodKey, PodReading(), previous, current))
      ensures old(PodsCurrent()) ==> PodsCurrent()
    {
      TrackPod(previous, current);
    }

    /** An event on a network definition. Entries of pods stay as they are, and current unless it concerns them. */
    method OnNetDefEvent(previous: Option<NetDef>, current: Option<NetDef>)
      requires Valid() && podChanges.netdefChanges.Valid()
      requires Follows(NetDefKey, podChanges.netdefChanges.defs, previous, current)
      modifies podChanges.netdefChanges`defs, podChanges.netdefChanges.changes
      ensures Valid() && podChanges.netdefChanges.Valid() && PodEntries() == old(PodEntries())
      ensures podChanges.netdefChanges.defs ==
              Delivered(NetDefKey, old(podChanges.netdefChanges.defs), previous, current)
      ensures old(PodsCurrent()) ==>
                (PodsCurrent() <==> KeepsPlugins(pods, ViewOf(old(podChanges.netdefChanges.defs)),
                                                 ViewOf(podChanges.netdefChanges.defs), podChanges.networkPlugins))
    {
      if PodsCurrent() {
        InStepIffPluginsKept(podMap.entries, podChanges.items, pods, ViewOf(podChanges.netdefChanges.defs),
                             ViewOf(Delivered(NetDefKey, podChanges.netdefChanges.defs, previous, current)),
                             podChanges.networkPlugins);
      }
      var tracked := podChanges.netdefChanges.Update(previous, current);
    }

    /** What a pass works with: the entries of pods, and the namespaces delivered last. */
    ghost function LiveState(): State
      reads this, podChanges, podMap
    {
      State(PodEntries(), namespaces)
    }

    /** The entries of current pods are those of the pods delivered last. */
    lemma CurrentEntries()
      requires PodsCurrent()
      ensures PodEntries() == Infos(PodReading(), pods)
    {
      DrainedFollows(PodKey, PodReading(), podMap.entries, podChanges.items, pods);
    }

    method DrainNamespaces()
      requires NamespacesInStep()
      modifies nsChanges, namespaceMap
      ensures NamespacesInStep() && namespaceMap.entries == namespaces
    {
      DrainedFollows(NamespaceKey, NamespaceEntry, namespaceMap.entries, nsChanges.items, namespaces);
      namespaceMap.Apply(nsChanges);
      assert Infos(NamespaceEntry, namespaces) == namespaces;
    }

    method DrainPods()
      requires PodsValid()
      modifies podChanges`items, podMap
      ensures PodsValid() && podChanges.items == map[]
      ensures podMap.entries == PodEntries() == old(PodEntries())
      ensures old(PodsCurrent()) ==> PodsCurrent()
    {
      ghost var was := podMap.entries;
      if PodsCurrent() {
        DrainedFollows(PodKey, PodReading(), podMap.entries, podChanges.items, pods);
      }
      podChanges.ApplyTo(podMap);
      NothingToApply(podMap.entries, podChanges.items);
    }

    method DrainPolicies()
      requires PoliciesInStep()
      modifies policyChanges, policyMap
      ensures PoliciesInStep() && policyMap.entries == policies
    {
      DrainedFollows(PolicyKey, PolicyEntry, policyMap.entries, policyChanges.items, policies);
      policyMap.Apply(policyChanges);
      assert Infos(PolicyEntry, policies) == policies;
    }

    /** Drains all trackers: afterwards the maps hold what was delivered last. */
    method Drain()
      requires Valid()
      modifies podChanges`items, podMap, policyChanges, policyMap, nsChanges, namespaceMap
      ensures Valid() && State(podMap.entries, namespaceMap.entries) == LiveState() == old(LiveState())
      ensures policyMap.entries == policies
      ensures old(PodsCurrent()) ==> PodsCurrent() && podMap.entries == Infos(PodReading(), pods)
    {
      DrainNamespaces();
      DrainPods();
      DrainPolicies();
      if PodsCurrent() {
        CurrentEntries();
      }
    }

    /**
     * Drains the trackers and syncs the chosen pods, those on this node: every rule set that was installed enforces the
     * policies, namespaces and entries of pods that there are, whatever happened since the last pass and whatever
     * filters the devices had. The entries are those of the pods delivered last, as long as these are current.
     */
    method SyncMultiPolicy(chosen: set<NamespacedName>, actuators: map<string, ActuatorTC>)
      returns (jobs: seq<Job>, applied: seq<bool>)
      requires Valid()
      requires forall d :: d in actuators ==> actuators[d].tcAPI.Valid()
      requires SeparateDevices(actuators)
      modifies podChanges`items, podMap, policyChanges, policyMap, nsChanges, namespaceMap
      modifies set d | d in actuators :: actuators[d].tcAPI
      ensures Valid() && LiveState() == old(LiveState())
      ensures old(PodsCurrent()) ==> PodsCurrent() && LiveState().pods == Infos(PodReading(), pods)
      ensures |applied| == |jobs| && AllRendered(jobs, policies, LiveState())
      ensures forall k :: k in chosen && k in LiveState().pods ==>
                InJobs(jobs, LiveState().pods[k], policies, LiveState())
      ensures DistinctDevices(jobs) ==> AllEnforced(jobs, applied, policies, LiveState(), actuators)
    {
      Drain();
      jobs, applied := SyncDrained(chosen, actuators);
    }

    method SyncDrained(chosen: set<NamespacedName>, actuators: map<string, ActuatorTC>)
      returns (jobs: seq<Job>, applied: seq<bool>)
      requires Valid()
      requires State(podMap.entries, namespaceMap.entries) == LiveState() && policyMap.entries == policies
      requires forall d :: d in actuators ==> actuators[d].tcAPI.Valid()
      requires SeparateDevices(actuators)
      modifies set d | d in actuators :: actuators[d].tcAPI
      ensures unchanged(this, podChanges, podChanges.netdefChanges) && Valid() && LiveState() == old(LiveState())
      ensures PodsCurrent() <==> old(PodsCurrent())
      ensures |applied| == |jobs| && AllRendered(jobs, policies, LiveState())
      ensures forall k :: k in chosen && k in LiveState().pods ==>
                InJobs(jobs, LiveState().pods[k], policies, LiveState())
      ensures DistinctDevices(jobs) ==> AllEnforced(jobs, applied, policies, LiveState(), actuators)
    {
      ghost var live := LiveState();
      jobs, applied := SyncPods(chosen, policyMap.entries, State(podMap.entries, namespaceMap.entries), actuators);
      assert unchanged(this, podChanges, podMap, policyChanges, policyMap, nsChanges, namespaceMap);
      assert LiveState() == live;
    }
  }
}
