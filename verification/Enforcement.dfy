/** The composition: policies rendered, compiled and installed on the device of a pod's interface. */
module Enforcement {
  import opened Collections
  import opened Net
  import opened TcTypes
  import opened Classifier
  import opened PolicyRules
  import opened Generator
  import opened GeneratorMeaning
  import opened Kernel
  import opened Drivers
  import opened Devices
  import opened Actuators
  import opened Deployment
  import opened RuleSync
  import opened Cluster
  import opened PolicyMeaning
  import opened Renderer
  import opened EndToEnd

  // ----- rendered ranges are canonical when the policies' blocks are -----

  predicate CanonicalBlock(b: IPBlock) {
    (b.cidr.Some? ==> Canonical(b.cidr.value)) &&
    forall i :: 0 <= i < |b.except| && b.except[i].Some? ==> Canonical(b.except[i].value)
  }

  predicate CanonicalEgress(e: EgressRule) {
    forall i :: 0 <= i < |e.to| && e.to[i].ipBlock.Some? ==> CanonicalBlock(e.to[i].ipBlock.value)
  }

  ghost predicate BlocksCanonical(target: PodInfo, policies: map<NamespacedName, PolicyInfo>, uid: string) {
    forall k, i: nat, n: nat :: Governs(target, policies, uid, k, i, n) ==>
      CanonicalEgress(policies[k].policy.egress[n])
  }

  lemma HostNetIsCanonical(ip: IP)
    ensures Canonical(HostNet(ip))
  {
  }

  lemma PeerShapesCanonical(peer: Peer, ports: seq<Port>, policyNamespace: string, state: State, network: string,
                            s: RuleShape, c: IPNet)
    requires peer.ipBlock.Some? ==> CanonicalBlock(peer.ipBlock.value)
    requires s in PeerShapes(peer, ports, policyNamespace, state, network) && c in s.cidrs
    ensures Canonical(c)
  {
    if peer.ipBlock.Some? {
      FlatMapMember(PerExcept(), peer.ipBlock.value.except);
    } else {
      var k :| k in state.pods
        && PodSelected(peer.podSelector, peer.namespaceSelector, policyNamespace, state.namespaces, state.pods[k])
        && PodHasNet(state.pods[k], network, c);
      var i :| 0 <= i < |state.pods[k].interfaces| && InterfaceHasNet(state.pods[k].interfaces[i], network, c);
      var ifc := state.pods[k].interfaces[i];
      var j :| 0 <= j < |ifc.ips| && ifc.ips[j].Some? && HostNet(ifc.ips[j].value) == c;
      HostNetIsCanonical(ifc.ips[j].value);
    }
  }

  lemma RenderedRulesCanonical(ruleSet: PolicyRuleSet, target: PodInfo, policies: map<NamespacedName, PolicyInfo>,
                               state: State, order: seq<NamespacedName>)
    requires IsRenderedSet(ruleSet, target, policies, state, order) && ruleSet.rules.Some?
    requires BlocksCanonical(target, policies, SetKey(ruleSet))
    ensures CanonicalRules(ruleSet.rules.value)
  {
    var rules := ruleSet.rules.value;
    forall rule, c | rule in rules && c in rule.ipCidrs
      ensures Canonical(c)
    {
      var r :| 0 <= r < |rules| && rules[r] == rule;
      var k, i, n := OriginOfRule(ruleSet, target, policies, state, order, r);
      var e := policies[k].policy.egress[n];
      var q := PerPeer(UsablePorts(e.ports), policies[k].policy.namespace, state, target.interfaces[i].netattachName);
      FlatMapMember(q, e.to);
      assert c in Shape(rule).cidrs;
      assert Shape(rule) in FlatMap(q, e.to);
      var m :| 0 <= m < |e.to| && Shape(rule) in q(e.to[m]);
      PeerShapesCanonical(e.to[m], UsablePorts(e.ports), policies[k].policy.namespace, state,
                          target.interfaces[i].netattachName, Shape(rule), c);
    }
  }

  // ----- rendered ports -----

  predicate NoZeroEntry(e: EgressRule) {
    forall port :: port in UsablePorts(e.ports) ==> port.number != 0
  }

  ghost predicate NoZeroEntries(target: PodInfo, policies: map<NamespacedName, PolicyInfo>, uid: string) {
    forall k, i: nat, n: nat :: Governs(target, policies, uid, k, i, n) ==> NoZeroEntry(policies[k].policy.egress[n])
  }

  lemma PeerShapePorts(peer: Peer, ports: seq<Port>, policyNamespace: string, state: State, network: string,
      s: RuleShape)
    requires s in PeerShapes(peer, ports, policyNamespace, state, network)
    ensures s.ports == ports
  {
  }

  lemma ShapePorts(e: EgressRule, policyNamespace: string, state: State, network: string, s: RuleShape)
    requires s in EgressShapes(e, policyNamespace, state, network)
    ensures s.ports == UsablePorts(e.ports)
  {
    var q := PerPeer(UsablePorts(e.ports), policyNamespace, state, network);
    if e.to != [] {
      assert s in FlatMap(q, e.to);
      FlatMapMember(q, e.to);
      var m :| 0 <= m < |e.to| && s in q(e.to[m]);
      PeerShapePorts(e.to[m], UsablePorts(e.ports), policyNamespace, state, network, s);
    }
  }

  lemma RenderedRulesHaveNoZeroPort(ruleSet: PolicyRuleSet, target: PodInfo, policies: map<NamespacedName, PolicyInfo>,
                                    state: State, order: seq<NamespacedName>)
    requires IsRenderedSet(ruleSet, target, policies, state, order) && ruleSet.rules.Some?
    requires NoZeroEntries(target, policies, SetKey(ruleSet))
    ensures NoZeroPort(ruleSet.rules.value)
  {
    var rules := ruleSet.rules.value;
    forall rule, port | rule in rules && port in rule.ports
      ensures port.number != 0
    {
      var r :| 0 <= r < |rules| && rules[r] == rule;
      var k, i, n := OriginOfRule(ruleSet, target, policies, state, order, r);
      ShapePorts(policies[k].policy.egress[n], policies[k].policy.namespace, state,
                 target.interfaces[i].netattachName, Shape(rule));
      assert port in Shape(rule).ports;
      assert NoZeroEntry(policies[k].policy.egress[n]);
    }
  }

  // ----- the sync of one pod -----

  /** The verdict that the policies give to IP traffic of an isolated interface. */
  ghost function PolicyVerdict(target: PodInfo, policies: map<NamespacedName, PolicyInfo>, uid: string,
                               state: State, p: Packet): Verdict
    requires p.payload.IPPayload?
  {
    if SomePolicyAllows(target, policies, uid, state, p) && !SomePolicyExcepts(target, policies, uid, p) then Pass
    else Drop
  }

  /**
   * The device does what the policies say for the interface of the rule set: it ignores all traffic of an interface
   * that no policy isolates, and gives IP traffic of an isolated one the policies' verdict. The rules have to be
   * rendered as meant, and through netlink no usable entry may name port zero; how ranges are written does not matter.
   */
  ghost predicate Enforces(d: Driver, installed: seq<KernelFilter>, ruleSet: PolicyRuleSet, target: PodInfo,
                           policies: map<NamespacedName, PolicyInfo>, state: State) {
    var key := SetKey(ruleSet);
    if !Isolated(target, policies, key) then forall p, v :: KernelMayGive(installed, p, v) <==> v == NoHit
    else
      AllAsMeant(target, policies, key, state) && (d.NetlinkDriver? ==> NoZeroEntries(target, policies, key)) ==>
        forall p, v :: IsPolicyTraffic(p) ==>
          (KernelMayGive(installed, p, v) <==> v == PolicyVerdict(target, policies, key, state, p))
  }

  /** Whatever a device ends up with, if it gives the verdicts of the rendered rules it enforces the policies. */
  lemma InstalledRulesEnforce(d: Driver, installed: seq<KernelFilter>, ruleSet: PolicyRuleSet, target: PodInfo,
                              policies: map<NamespacedName, PolicyInfo>, state: State, order: seq<NamespacedName>)
    requires IsOrderOf(order, policies) && IsRenderedSet(ruleSet, target, policies, state, order)
    requires ruleSet.rules.None? ==> forall p, v :: KernelMayGive(installed, p, v) <==> v == NoHit
    requires ruleSet.rules.Some? ==>
               (d.NetlinkDriver? ==> NoZeroPort(ruleSet.rules.value)) ==>
               forall p, v :: KernelMayGive(installed, p, v) <==> v == RulesVerdict(ruleSet.rules.value, p)
    ensures Enforces(d, installed, ruleSet, target, policies, state)
  {
    PresentIffIsolated(ruleSet, target, policies, state, order);
    var key := SetKey(ruleSet);
    if ruleSet.rules.Some? && AllAsMeant(target, policies, key, state)
       && (d.NetlinkDriver? ==> NoZeroEntries(target, policies, key)) {
      if d.NetlinkDriver? {
        RenderedRulesHaveNoZeroPort(ruleSet, target, policies, state, order);
      }
      forall p, v | IsPolicyTraffic(p)
        ensures KernelMayGive(installed, p, v) <==> v == PolicyVerdict(target, policies, key, state, p)
      {
        RulesVerdictIsPolicies(ruleSet, target, policies, state, order, p);
      }
    }
  }

  /** The verdict of the rendered rules is the policies' verdict. */
  lemma RulesVerdictIsPolicies(ruleSet: PolicyRuleSet, target: PodInfo, policies: map<NamespacedName, PolicyInfo>,
                               state: State, order: seq<NamespacedName>, p: Packet)
    requires IsOrderOf(order, policies) && IsRenderedSet(ruleSet, target, policies, state, order)
    requires ruleSet.rules.Some? && IsPolicyTraffic(p)
    requires AllAsMeant(target, policies, SetKey(ruleSet), state)
    ensures RulesVerdict(ruleSet.rules.value, p) == PolicyVerdict(target, policies, SetKey(ruleSet), state, p)
  {
    var v := PolicyVerdict(target, policies, SetKey(ruleSet), state, p);
    RenderedActionsKnown(ruleSet, target, policies, state, order);
    PolicyIsEnforced(ruleSet, target, policies, state, order, p, v);
    CompilePreservesMeaning(ruleSet.rules.value, p, v);
  }

  /** What canonical blocks, and through netlink ports other than zero, give the rendered rules. */
  lemma RenderedRulesListable(d: Driver, ruleSet: PolicyRuleSet, target: PodInfo,
                              policies: map<NamespacedName, PolicyInfo>, state: State, order: seq<NamespacedName>)
    requires IsRenderedSet(ruleSet, target, policies, state, order) && ruleSet.rules.Some?
    requires BlocksCanonical(target, policies, SetKey(ruleSet))
    ensures RangesAgree(ruleSet.rules.value)
    ensures (d.NetlinkDriver? ==> NoZeroEntries(target, policies, SetKey(ruleSet))) ==>
              Listable(d, ruleSet.rules.value)
  {
    RenderedRulesCanonical(ruleSet, target, policies, state, order);
    CanonicalRangesAgree(ruleSet.rules.value);
    if d.NetlinkDriver? && NoZeroEntries(target, policies, SetKey(ruleSet)) {
      RenderedRulesHaveNoZeroPort(ruleSet, target, policies, state, order);
    }
  }

  /** Installs one rendered rule set. */
  method SyncInterface(ruleSet: PolicyRuleSet, actuator: ActuatorTC, ghost target: PodInfo,
                       ghost policies: map<NamespacedName, PolicyInfo>, ghost state: State,
                       ghost order: seq<NamespacedName>) returns (outcome: Outcome)
    requires actuator.tcAPI.Valid()
    requires IsOrderOf(order, policies) && IsRenderedSet(ruleSet, target, policies, state, order)
    modifies actuator.tcAPI
    ensures actuator.tcAPI.Valid()
    ensures outcome == Applied ==>
              Enforces(actuator.tcAPI.driver, actuator.tcAPI.InKernel(), ruleSet, target, policies, state)
    // the next pass finds the filters as it wants them
    ensures outcome == Applied && ruleSet.rules.Some? && BlocksCanonical(target, policies, SetKey(ruleSet)) &&
            (actuator.tcAPI.driver.NetlinkDriver? ==> NoZeroEntries(target, policies, SetKey(ruleSet))) ==>
              Keys(actuator.tcAPI.filters) == Keys(Compile(ruleSet.rules.value))
    // rendered rules with canonical blocks are stopped by transient faults only
    ensures !outcome.NotGenerated?
    ensures outcome.NotActuated? && ruleSet.rules.Some? && BlocksCanonical(target, policies, SetKey(ruleSet)) ==>
              outcome.error == Fault
    ensures ruleSet.rules.Some? ==>
              BetweenAny(actuator.tcAPI.driver, old(actuator.tcAPI.filters), actuator.tcAPI.history,
                         |old(actuator.tcAPI.history)|, ruleSet.rules.value)
  {
    ghost var d := actuator.tcAPI.driver;
    if ruleSet.rules.Some? {
      RenderedActionsKnown(ruleSet, target, policies, state, order);
      if BlocksCanonical(target, policies, SetKey(ruleSet)) {
        RenderedRulesListable(d, ruleSet, target, policies, state, order);
      }
    }
    outcome := SyncRuleSet(ruleSet, actuator);
    if outcome == Applied {
      ghost var installed := actuator.tcAPI.InKernel();
      assert forall p, v :: actuator.tcAPI.Gives(p, v) <==> KernelMayGive(installed, p, v);
      InstalledRulesEnforce(d, installed, ruleSet, target, policies, state, order);
    }
  }

  /** Traffic that the policies behind rendered rules neither allow nor except meets no Pass rule of theirs. */
  lemma UnallowedIsUnreached(d: Driver, ruleSet: PolicyRuleSet, target: PodInfo,
                             policies: map<NamespacedName, PolicyInfo>, state: State,
                             order: seq<NamespacedName>, p: Packet)
    requires IsOrderOf(order, policies) && IsRenderedSet(ruleSet, target, policies, state, order)
    requires ruleSet.rules.Some? && IsPolicyTraffic(p) && AllAsMeant(target, policies, SetKey(ruleSet), state)
    requires d.NetlinkDriver? ==> NoZeroEntries(target, policies, SetKey(ruleSet))
    requires !SomePolicyAllows(target, policies, SetKey(ruleSet), state, p)
    requires !SomePolicyExcepts(target, policies, SetKey(ruleSet), p)
    ensures !Reached(d, ruleSet.rules.value, ActionPass, p)
  {
    if d.NetlinkDriver? {
      RenderedRulesHaveNoZeroPort(ruleSet, target, policies, state, order);
    }
    ReachedIsMatched(d, ruleSet.rules.value, ActionPass, p);
    RenderedMeaning(ruleSet, target, policies, state, order, p);
  }

  /** What one rendering of an interface's policies depends on. */
  datatype Rendering = Rendering(
    ruleSet: PolicyRuleSet, target: PodInfo, policies: map<NamespacedName, PolicyInfo>, state: State,
    order: seq<NamespacedName>)

  /** Rules rendered as meant, which the driver sends as they are. */
  ghost predicate Renders(d: Driver, r: Rendering) {
    IsOrderOf(r.order, r.policies) && IsRenderedSet(r.ruleSet, r.target, r.policies, r.state, r.order) &&
    r.ruleSet.rules.Some? && AllAsMeant(r.target, r.policies, SetKey(r.ruleSet), r.state) &&
    (d.NetlinkDriver? ==> NoZeroEntries(r.target, r.policies, SetKey(r.ruleSet)))
  }

  ghost predicate Ignores(r: Rendering, p: Packet)
    requires p.payload.IPPayload?
  {
    !SomePolicyAllows(r.target, r.policies, SetKey(r.ruleSet), r.state, p) &&
    !SomePolicyExcepts(r.target, r.policies, SetKey(r.ruleSet), p)
  }

  /**
   * No opening while policies, pods or namespaces change: traffic that no policy allows before or after the change, and
   * that none names as an exception, is dropped in every state of the device on the way, however ranges are written.
   */
  lemma PolicyDeniedThroughout(d: Driver, state: seq<Filter>, before: Rendering, after: Rendering, p: Packet)
    requires Renders(d, before) && Renders(d, after) && IsPolicyTraffic(p)
    requires Between(d, state, before.ruleSet.rules.value, after.ruleSet.rules.value)
    requires Ignores(before, p) && Ignores(after, p)
    ensures GivesOnly(state, p, Drop)
  {
    UnallowedIsUnreached(d, before.ruleSet, before.target, before.policies, before.state, before.order, p);
    UnallowedIsUnreached(d, after.ruleSet, after.target, after.policies, after.state, after.order, p);
    DeniedThroughout(d, state, before.ruleSet.rules.value, after.ruleSet.rules.value, p);
  }

  // ----- the sync of many interfaces -----

  /** A rule set and the pod it was rendered for. */
  datatype Job = Job(ruleSet: PolicyRuleSet, target: PodInfo)

  function JobsOf(target: PodInfo, ruleSets: seq<PolicyRuleSet>): seq<Job> {
    seq(|ruleSets|, i requires 0 <= i < |ruleSets| => Job(ruleSets[i], target))
  }

  predicate DistinctDevices(jobs: seq<Job>) {
    forall i, j :: 0 <= i < j < |jobs| ==> jobs[i].ruleSet.ifcInfo.deviceID != jobs[j].ruleSet.ifcInfo.deviceID
  }

  /** The device of the rule set's interface enforces it. */
  ghost predicate Enforced(job: Job, policies: map<NamespacedName, PolicyInfo>, state: State,
                           actuators: map<string, ActuatorTC>)
    reads set d | d in actuators :: actuators[d].tcAPI
  {
    var d := job.ruleSet.ifcInfo.deviceID;
    d in actuators &&
    Enforces(actuators[d].tcAPI.driver, actuators[d].tcAPI.InKernel(), job.ruleSet, job.target, policies, state)
  }

  /** Every rule set that was applied is enforced. */
  ghost predicate AllEnforced(jobs: seq<Job>, applied: seq<bool>, policies: map<NamespacedName, PolicyInfo>,
                              state: State, actuators: map<string, ActuatorTC>)
    reads set d | d in actuators :: actuators[d].tcAPI
  {
    |applied| <= |jobs| &&
    forall i :: 0 <= i < |applied| && applied[i] ==> Enforced(jobs[i], policies, state, actuators)
  }

  predicate SeparateDevices(actuators: map<string, ActuatorTC>) {
    forall d, e :: d in actuators && e in actuators && d != e ==> actuators[d].tcAPI != actuators[e].tcAPI
  }

  ghost predicate Rendered(job: Job, policies: map<NamespacedName, PolicyInfo>, state: State) {
    exists order :: IsOrderOf(order, policies) && IsRenderedSet(job.ruleSet, job.target, policies, state, order)
  }

  ghost predicate AllRendered(jobs: seq<Job>, policies: map<NamespacedName, PolicyInfo>, state: State) {
    forall i :: 0 <= i < |jobs| ==> Rendered(jobs[i], policies, state)
  }

  /** Syncs the interface of a rule set, if it has a device. */
  method SyncJob(job: Job, actuators: map<string, ActuatorTC>, ghost policies: map<NamespacedName, PolicyInfo>,
                 ghost state: State) returns (done: bool)
    requires Rendered(job, policies, state)
    requires SeparateDevices(actuators) && forall d :: d in actuators ==> actuators[d].tcAPI.Valid()
    modifies set d | d in actuators && d == job.ruleSet.ifcInfo.deviceID :: actuators[d].tcAPI
    ensures forall d :: d in actuators ==> actuators[d].tcAPI.Valid()
    ensures done ==> Enforced(job, policies, state, actuators)
    ensures forall d :: d in actuators && d != job.ruleSet.ifcInfo.deviceID ==>
              actuators[d].tcAPI.InKernel() == old(actuators[d].tcAPI.InKernel())
  {
    var d := job.ruleSet.ifcInfo.deviceID;
    if d !in actuators {
      return false;
    }
    ghost var order :| IsOrderOf(order, policies) && IsRenderedSet(job.ruleSet, job.target, policies, state, order);
    var outcome := SyncInterface(job.ruleSet, actuators[d], job.target, policies, state, order);
    done := outcome == Applied;
  }

  /** Every rule set that was applied was enforced by what its device held right afterwards. */
  ghost predicate WereEnforced(jobs: seq<Job>, applied: seq<bool>, installed: seq<seq<KernelFilter>>,
                               policies: map<NamespacedName, PolicyInfo>, state: State,
                               actuators: map<string, ActuatorTC>) {
    |applied| == |installed| <= |jobs| &&
    forall i :: 0 <= i < |applied| && applied[i] ==>
      var d := jobs[i].ruleSet.ifcInfo.deviceID;
      d in actuators &&
      Enforces(actuators[d].tcAPI.driver, installed[i], jobs[i].ruleSet, jobs[i].target, policies, state)
  }

  /** What the kernel holds on all devices. */
  ghost function Held(actuators: map<string, ActuatorTC>): map<string, seq<KernelFilter>>
    reads set d | d in actuators :: actuators[d].tcAPI
  {
    map d | d in actuators :: actuators[d].tcAPI.InKernel()
  }

  /** The devices still hold what was installed. */
  ghost predicate StillInstalled(jobs: seq<Job>, applied: seq<bool>, installed: seq<seq<KernelFilter>>,
                                 held: map<string, seq<KernelFilter>>) {
    |applied| == |installed| <= |jobs| &&
    forall i :: 0 <= i < |applied| && applied[i] ==>
      var d := jobs[i].ruleSet.ifcInfo.deviceID;
      d in held && held[d] == installed[i]
  }

  lemma EnforcedNext(jobs: seq<Job>, applied: seq<bool>, installed: seq<seq<KernelFilter>>,
                     policies: map<NamespacedName, PolicyInfo>, state: State, actuators: map<string, ActuatorTC>,
                     done: bool, now: seq<KernelFilter>)
    requires WereEnforced(jobs, applied, installed, policies, state, actuators) && |applied| < |jobs|
    requires done ==>
               var job := jobs[|applied|];
               var d := job.ruleSet.ifcInfo.deviceID;
               d in actuators && Enforces(actuators[d].tcAPI.driver, now, job.ruleSet, job.target, policies, state)
    ensures WereEnforced(jobs, applied + [done], installed + [now], policies, state, actuators)
  {
  }

  lemma InstalledNext(jobs: seq<Job>, applied: seq<bool>, installed: seq<seq<KernelFilter>>,
                      was: map<string, seq<KernelFilter>>, held: map<string, seq<KernelFilter>>, done: bool,
                      now: seq<KernelFilter>)
    requires |applied| < |jobs| && DistinctDevices(jobs) && StillInstalled(jobs, applied, installed, was)
    requires var d := jobs[|applied|].ruleSet.ifcInfo.deviceID;
             (forall e :: e in was && e != d ==> e in held && held[e] == was[e]) &&
             (done ==> d in held && held[d] == now)
    ensures StillInstalled(jobs, applied + [done], installed + [now], held)
  {
    forall i | 0 <= i < |applied| && applied[i]
      ensures var d := jobs[i].ruleSet.ifcInfo.deviceID; d in held && held[d] == installed[i]
    {
      assert jobs[i].ruleSet.ifcInfo.deviceID != jobs[|applied|].ruleSet.ifcInfo.deviceID;
    }
  }

  /** What is known while the jobs of a pass are done one after the other. */
  ghost predicate Underway(jobs: seq<Job>, applied: seq<bool>, installed: seq<seq<KernelFilter>>,
                           policies: map<NamespacedName, PolicyInfo>, state: State, actuators: map<string, ActuatorTC>)
    reads set d | d in actuators :: actuators[d].tcAPI
  {
    AllRendered(jobs, policies, state) && WereEnforced(jobs, applied, installed, policies, state, actuators) &&
    (DistinctDevices(jobs) ==> StillInstalled(jobs, applied, installed, Held(actuators)))
  }

  /** Does the next job and leaves the devices of those before it alone. */
  method SyncNext(jobs: seq<Job>, before: seq<bool>, ghost placed: seq<seq<KernelFilter>>,
                  actuators: map<string, ActuatorTC>, ghost policies: map<NamespacedName, PolicyInfo>,
                  ghost state: State) returns (applied: seq<bool>, ghost installed: seq<seq<KernelFilter>>)
    requires Underway(jobs, before, placed, policies, state, actuators) && |before| < |jobs|
    requires SeparateDevices(actuators) && forall d :: d in actuators ==> actuators[d].tcAPI.Valid()
    modifies set d | d in actuators :: actuators[d].tcAPI
    ensures forall d :: d in actuators ==> actuators[d].tcAPI.Valid()
    ensures |applied| == |before| + 1 && Underway(jobs, applied, installed, policies, state, actuators)
  {
    ghost var was := Held(actuators);
    var done := SyncJob(jobs[|before|], actuators, policies, state);
    ghost var now := if done then actuators[jobs[|before|].ruleSet.ifcInfo.deviceID].tcAPI.InKernel() else [];
    EnforcedNext(jobs, before, placed, policies, state, actuators, done, now);
    if DistinctDevices(jobs) {
      InstalledNext(jobs, before, placed, was, Held(actuators), done, now);
    }
    applied := before + [done];
    installed := placed + [now];
  }

  /** Does all jobs that are left and skips those that cannot be done. */
  method SyncAll(jobs: seq<Job>, before: seq<bool>, ghost placed: seq<seq<KernelFilter>>,
                 actuators: map<string, ActuatorTC>, ghost policies: map<NamespacedName, PolicyInfo>,
                 ghost state: State) returns (applied: seq<bool>, ghost installed: seq<seq<KernelFilter>>)
    requires Underway(jobs, before, placed, policies, state, actuators)
    requires SeparateDevices(actuators) && forall d :: d in actuators ==> actuators[d].tcAPI.Valid()
    modifies set d | d in actuators :: actuators[d].tcAPI
    ensures forall d :: d in actuators ==> actuators[d].tcAPI.Valid()
    ensures |applied| == |jobs| && Underway(jobs, applied, installed, policies, state, actuators)
  {
    applied, installed := before, placed;
    for i := |before| to |jobs|
      invariant |applied| == i
      invariant forall d :: d in actuators ==> actuators[d].tcAPI.Valid()
      invariant Underway(jobs, applied, installed, policies, state, actuators)
    {
      applied, installed := SyncNext(jobs, applied, installed, actuators, policies, state);
    }
  }

  lemma MoreJobs(jobs: seq<Job>, applied: seq<bool>, installed: seq<seq<KernelFilter>>, target: PodInfo,
                 ruleSets: seq<PolicyRuleSet>, policies: map<NamespacedName, PolicyInfo>, state: State,
                 order: seq<NamespacedName>, actuators: map<string, ActuatorTC>)
    requires Underway(jobs, applied, installed, policies, state, actuators)
    requires IsRendering(ruleSets, target, policies, state, order)
    ensures Underway(jobs + JobsOf(target, ruleSets), applied, installed, policies, state, actuators)
  {
    var more := jobs + JobsOf(target, ruleSets);
    forall i | 0 <= i < |more|
      ensures Rendered(more[i], policies, state)
    {
      if i < |jobs| {
        assert Rendered(jobs[i], policies, state);
      } else {
        assert IsRenderedSet(ruleSets[i - |jobs|], target, policies, state, order);
      }
    }
    if DistinctDevices(more) {
      assert forall i :: 0 <= i < |jobs| ==> more[i] == jobs[i];
    }
  }

  /** The rule sets rendered for a pod are among the jobs. */
  ghost predicate InJobs(jobs: seq<Job>, target: PodInfo, policies: map<NamespacedName, PolicyInfo>, state: State) {
    exists ruleSets, order ::
      IsRendering(ruleSets, target, policies, state, order) && forall s :: s in ruleSets ==> Job(s, target) in jobs
  }

  /**
   * Renders the policies of a pod and installs each rule set on the device of its interface, behind the jobs that were
   * done before. A rule set that cannot be installed is skipped.
   */
  method SyncPod(target: PodInfo, before: seq<Job>, done: seq<bool>, ghost placed: seq<seq<KernelFilter>>,
                 policies: map<NamespacedName, PolicyInfo>, state: State, actuators: map<string, ActuatorTC>)
    returns (jobs: seq<Job>, applied: seq<bool>, ghost installed: seq<seq<KernelFilter>>)
    requires |done| == |before| && Underway(before, done, placed, policies, state, actuators)
    requires SeparateDevices(actuators) && forall d :: d in actuators ==> actuators[d].tcAPI.Valid()
    modifies set d | d in actuators :: actuators[d].tcAPI
    ensures forall d :: d in actuators ==> actuators[d].tcAPI.Valid()
    ensures before <= jobs && |applied| == |jobs| && InJobs(jobs, target, policies, state)
    ensures Underway(jobs, applied, installed, policies, state, actuators)
  {
    var ruleSets := RenderEgress(target, policies, state);
    ghost var order :| IsRendering(ruleSets, target, policies, state, order);
    jobs := before + JobsOf(target, ruleSets);
    MoreJobs(before, done, placed, target, ruleSets, policies, state, order, actuators);
    forall s | s in ruleSets
      ensures Job(s, target) in jobs
    {
      var i :| 0 <= i < |ruleSets| && ruleSets[i] == s;
      assert jobs[|before| + i] == Job(s, target);
    }
    applied, installed := SyncAll(jobs, done, placed, actuators, policies, state);
  }

  /**
   * The pods of the map that are chosen, in arbitrary order: every rule set that was installed is enforced when the
   * pass ends, whatever filters the devices had before.
   */
  method SyncPods(chosen: set<NamespacedName>, policies: map<NamespacedName, PolicyInfo>, state: State,
                  actuators: map<string, ActuatorTC>) returns (jobs: seq<Job>, applied: seq<bool>)
    requires SeparateDevices(actuators) && forall d :: d in actuators ==> actuators[d].tcAPI.Valid()
    modifies set d | d in actuators :: actuators[d].tcAPI
    ensures forall d :: d in actuators ==> actuators[d].tcAPI.Valid()
    ensures |applied| == |jobs| && AllRendered(jobs, policies, state)
    ensures forall k :: k in chosen && k in state.pods ==> InJobs(jobs, state.pods[k], policies, state)
    ensures DistinctDevices(jobs) ==> AllEnforced(jobs, applied, policies, state, actuators)
  {
    jobs, applied := [], [];
    ghost var installed: seq<seq<KernelFilter>> := [];
    var rest := state.pods.Keys;
    while rest != {}
      invariant rest <= state.pods.Keys && |applied| == |jobs|
      invariant forall d :: d in actuators ==> actuators[d].tcAPI.Valid()
      invariant Underway(jobs, applied, installed, policies, state, actuators)
      invariant forall k :: k in chosen && k in state.pods && k !in rest ==>
                  InJobs(jobs, state.pods[k], policies, state)
      decreases |rest|
    {
      var k :| k in rest;
      rest := rest - {k};
      if k in chosen {
        ghost var was := jobs;
        jobs, applied, installed := SyncPod(state.pods[k], jobs, applied, installed, policies, state, actuators);
        StillInJobs(was, jobs, state.pods.Values, policies, state);
      }
    }
  }

  lemma StillInJobs(was: seq<Job>, jobs: seq<Job>, targets: set<PodInfo>, policies: map<NamespacedName, PolicyInfo>,
                    state: State)
    requires was <= jobs
    ensures forall target :: target in targets && InJobs(was, target, policies, state) ==>
              InJobs(jobs, target, policies, state)
  {
    forall target | target in targets && InJobs(was, target, policies, state)
      ensures InJobs(jobs, target, policies, state)
    {
      var ruleSets, order :| IsRendering(ruleSets, target, policies, state, order) &&
        forall s :: s in ruleSets ==> Job(s, target) in was;
      assert forall s :: s in ruleSets ==> Job(s, target) in jobs;
    }
  }
}
