/**
 * Network definitions and pods: a lookup that drains pending changes first, and pod entries that depend on such
 * lookups.
 */
module PodTracking {
  import opened Collections
  import opened Net
  import opened Texts
  import opened Cluster
  import opened Trackers
  import opened ChangeTrackers

  // ----- network attachment definitions -----

  /** A CNI configuration after decoding: a plugin list with its own type field, or text that does not decode. */
  datatype CNIConfig = CNIConfig(plugins: seq<string>, kind: string) | Undecodable

  datatype NetDef = NetDef(name: NamespacedName, config: CNIConfig)

  datatype NetDefInfo = NetDefInfo(netdef: NetDef, pluginType: string)

  function NetDefKey(n: NetDef): NamespacedName {
    n.name
  }

  /** The first listed plugin, or the type of a configuration without a list. */
  function NewNetDefInfo(n: NetDef): Option<NetDefInfo> {
    match n.config
    case Undecodable => None
    case CNIConfig(plugins, kind) => Some(NetDefInfo(n, if plugins == [] then kind else plugins[0]))
  }

  function PluginTypeIn(m: map<NamespacedName, NetDefInfo>, name: NamespacedName): string {
    if name in m then m[name].pluginType else ""
  }

  /** What lookups answer once these definitions were delivered. */
  function ViewOf(defs: map<NamespacedName, NetDef>): View {
    var infos := Infos(NewNetDefInfo, defs);
    (name: NamespacedName) => PluginTypeIn(infos, name)
  }

  /** Lookups answer with the first plugin of the definition's list, or with its type if there is no list. */
  lemma ViewAnswers(defs: map<NamespacedName, NetDef>, name: NamespacedName)
    ensures name !in defs || defs[name].config.Undecodable? ==> ViewOf(defs)(name) == ""
    ensures name in defs && defs[name].config.CNIConfig? ==>
              var config := defs[name].config;
              ViewOf(defs)(name) == if |config.plugins| > 0 then config.plugins[0] else config.kind
  {
  }

  class NetDefChangeTracker {
    const changes: ChangeTracker<NetDef, NamespacedName, NetDefInfo>
    const netdefMap: InfoMap<NamespacedName, NetDefInfo>
    ghost var defs: map<NamespacedName, NetDef>  // the definitions delivered so far

    ghost predicate Valid()
      reads this, changes, netdefMap
    {
      changes.keyOf == NetDefKey && changes.infoOf == NewNetDefInfo &&
      Follow(NetDefKey, NewNetDefInfo, netdefMap.entries, changes.items, defs)
    }

    /** What a lookup answers. */
    ghost function View(): View
      reads this
    {
      ViewOf(defs)
    }

    constructor ()
      ensures Valid() && fresh(changes) && fresh(netdefMap) && defs == map[]
    {
      changes := new ChangeTracker<NetDef, NamespacedName, NetDefInfo>(NetDefKey, NewNetDefInfo);
      netdefMap := new InfoMap<NamespacedName, NetDefInfo>();
      defs := map[];
      NothingFollows(NetDefKey, NewNetDefInfo);
    }

    method Update(previous: Option<NetDef>, current: Option<NetDef>) returns (tracked: bool)
      requires Valid() && Follows(NetDefKey, defs, previous, current)
      modifies this`defs, changes
      ensures Valid() && tracked && defs == Delivered(NetDefKey, old(defs), previous, current)
      ensures defs == if current.Some? then old(defs)[current.value.name := current.value]
                      else old(defs) - {previous.value.name}
    {
      EventFollows(NetDefKey, NewNetDefInfo, netdefMap.entries, changes.items, defs, previous, current);
      tracked := changes.Update(previous, current);
      defs := Delivered(NetDefKey, defs, previous, current);
    }

    /** Reads through the pending changes: the plugin type of the latest definition of that name, if it decodes. */
    method GetPluginType(name: NamespacedName) returns (pluginType: string)
      requires Valid()
      modifies changes, netdefMap
      ensures Valid() && defs == old(defs)
      ensures pluginType == View()(name)
      // the first plugin of a list, else the type of the configuration
      ensures name !in defs || defs[name].config.Undecodable? ==> pluginType == ""
      ensures name in defs && defs[name].config.CNIConfig? ==>
                var config := defs[name].config;
                pluginType == if |config.plugins| > 0 then config.plugins[0] else config.kind
      ensures netdefMap.entries == Infos(NewNetDefInfo, defs)
    {
      DrainedFollows(NetDefKey, NewNetDefInfo, netdefMap.entries, changes.items, defs);
      netdefMap.Apply(changes);
      ViewAnswers(defs, name);
      if name in netdefMap.entries {
        return netdefMap.entries[name].pluginType;
      }
      return "";
    }
  }

  // ----- pods -----

  /** A network status of a pod; the device is absent if the status names no PCI address. */
  datatype NetworkStatus = NetworkStatus(
    name: string, interfaceName: string, ips: seq<Option<IP>>, deviceID: Option<string>)

  /** A pod as delivered. `isTarget` says that it runs and does not use the host network. */
  datatype Pod = Pod(name: NamespacedName, labels: map<string, string>, isTarget: bool,
                     networks: seq<NamespacedName>, statuses: seq<NetworkStatus>)

  /** The plugin type of each network, as lookups answer at some moment. */
  type View = NamespacedName -> string

  /**
   * The network that the name of a status means: namespace and name around one slash, or a name in the pod's
   * namespace.
   */
  function NetworkOf(pod: Pod, s: NetworkStatus): NamespacedName {
    var slashItems := Split(s.name, '/');
    if |slashItems| == 2 then NamespacedName(Trim(slashItems[0]), slashItems[1])
    else NamespacedName(pod.name.namespace, s.name)
  }

  function PluginOf(pod: Pod, view: View, network: NamespacedName): string {
    if network in pod.networks then view(network) else ""
  }

  function PerPlugin(pod: Pod, view: View, s: NetworkStatus): string -> seq<Interface> {
    (plugin: string) =>
      if PluginOf(pod, view, NetworkOf(pod, s)) == plugin && s.deviceID.Some?
      then [Interface(s.name, s.deviceID.value, s.interfaceName, plugin, s.ips)] else []
  }

  function PerStatus(pod: Pod, view: View, plugins: seq<string>): NetworkStatus -> seq<Interface> {
    (s: NetworkStatus) => FlatMap(PerPlugin(pod, view, s), plugins)
  }

  /** The entry of a pod: an interface for every status whose network has a supported plugin. */
  function PodInfoOf(pod: Pod, view: View, plugins: seq<string>): PodInfo {
    PodInfo(pod.name.name, pod.name.namespace, pod.labels,
            if pod.isTarget then FlatMap(PerStatus(pod, view, plugins), pod.statuses) else [])
  }

  /**
   * The plugin that a status gets an interface for: the one of its network, if it is supported and there is a device.
   */
  function SupportedPlugin(pod: Pod, view: View, plugins: seq<string>, s: NetworkStatus): Option<string> {
    var plugin := PluginOf(pod, view, NetworkOf(pod, s));
    if s.deviceID.Some? && plugin in plugins then Some(plugin) else None
  }

  predicate InterfaceFor(pod: Pod, view: View, plugins: seq<string>, s: NetworkStatus, ifc: Interface) {
    SupportedPlugin(pod, view, plugins, s).Some? &&
    ifc == Interface(s.name, s.deviceID.value, s.interfaceName, SupportedPlugin(pod, view, plugins, s).value, s.ips)
  }

  predicate HasInterfaceFor(pod: Pod, view: View, plugins: seq<string>, ifc: Interface) {
    pod.isTarget && exists i :: 0 <= i < |pod.statuses| && InterfaceFor(pod, view, plugins, pod.statuses[i], ifc)
  }

  lemma StatusInterfaces(pod: Pod, view: View, plugins: seq<string>, s: NetworkStatus, ifc: Interface)
    ensures ifc in PerStatus(pod, view, plugins)(s) <==> InterfaceFor(pod, view, plugins, s, ifc)
  {
    FlatMapMember(PerPlugin(pod, view, s), plugins);
    if InterfaceFor(pod, view, plugins, s, ifc) {
      var j :| 0 <= j < |plugins| && plugins[j] == SupportedPlugin(pod, view, plugins, s).value;
      assert ifc in PerPlugin(pod, view, s)(plugins[j]);
    }
  }

  lemma ComputedInterfaces(pod: Pod, view: View, plugins: seq<string>, ifc: Interface)
    ensures ifc in PodInfoOf(pod, view, plugins).interfaces <==> HasInterfaceFor(pod, view, plugins, ifc)
  {
    FlatMapMember(PerStatus(pod, view, plugins), pod.statuses);
    forall i | 0 <= i < |pod.statuses|
      ensures ifc in PerStatus(pod, view, plugins)(pod.statuses[i]) <==>
              InterfaceFor(pod, view, plugins, pod.statuses[i], ifc)
    {
      StatusInterfaces(pod, view, plugins, pod.statuses[i], ifc);
    }
  }

  // ----- what the entry of a pod means -----

  /** A name with one slash is a namespace and a name; any other is a name in the pod's own namespace. */
  ghost predicate NamesNetworkOf(pod: Pod, name: string, network: NamespacedName) {
    if multiset(name)['/'] == 1 then
      exists a, b :: name == a + "/" + b && '/' !in a && '/' !in b && network == NamespacedName(Trim(a), b)
    else network == NamespacedName(pod.name.namespace, name)
  }

  lemma SlashedNetwork(pod: Pod, s: NetworkStatus, ns: string, name: string)
    requires s.name == ns + "/" + name && '/' !in ns && '/' !in name
    ensures NetworkOf(pod, s) == NamespacedName(Trim(ns), name)
  {
    SplitOnce(ns, '/', name);
  }

  /** The network that is looked up is the one that the status names. */
  lemma NetworkIsNamed(pod: Pod, s: NetworkStatus, network: NamespacedName)
    ensures NamesNetworkOf(pod, s.name, network) <==> network == NetworkOf(pod, s)
  {
    SplitCount(s.name, '/');
    if multiset(s.name)['/'] == 1 {
      var a, b := SplitInTwo(s.name, '/');
      assert s.name == a + "/" + b;
      if NamesNetworkOf(pod, s.name, network) {
        var ns, name :| s.name == ns + "/" + name && '/' !in ns && '/' !in name &&
          network == NamespacedName(Trim(ns), name);
        SlashedNetwork(pod, s, ns, name);
      }
    }
  }

  /** The plugin of an attached network, as lookups name it; networks that are not attached have the empty one. */
  ghost predicate HasPlugin(pod: Pod, view: View, name: string, plugin: string) {
    exists network :: NamesNetworkOf(pod, name, network) &&
                      plugin == if network in pod.networks then view(network) else ""
  }

  /** An interface for a status with a device whose network has a supported plugin. */
  ghost predicate IsInterfaceOf(pod: Pod, view: View, plugins: seq<string>, s: NetworkStatus, ifc: Interface) {
    && s.deviceID == Some(ifc.deviceID) && ifc.netattachName == s.name && ifc.interfaceName == s.interfaceName
    && ifc.ips == s.ips && ifc.interfaceType in plugins && HasPlugin(pod, view, s.name, ifc.interfaceType)
  }

  ghost predicate HasStatusFor(pod: Pod, view: View, plugins: seq<string>, ifc: Interface) {
    pod.isTarget && exists i :: 0 <= i < |pod.statuses| && IsInterfaceOf(pod, view, plugins, pod.statuses[i], ifc)
  }

  lemma InterfaceIsMeant(pod: Pod, view: View, plugins: seq<string>, s: NetworkStatus, ifc: Interface)
    ensures InterfaceFor(pod, view, plugins, s, ifc) <==> IsInterfaceOf(pod, view, plugins, s, ifc)
  {
    NetworkIsNamed(pod, s, NetworkOf(pod, s));
    if HasPlugin(pod, view, s.name, ifc.interfaceType) {
      var network :| NamesNetworkOf(pod, s.name, network) &&
        ifc.interfaceType == if network in pod.networks then view(network) else "";
      NetworkIsNamed(pod, s, network);
    }
  }

  /**
   * A pod entry holds exactly the interfaces for statuses of a target pod with a device, of a network whose plugin is
   * supported.
   */
  lemma PodInterfaces(pod: Pod, view: View, plugins: seq<string>, ifc: Interface)
    ensures ifc in PodInfoOf(pod, view, plugins).interfaces <==> HasStatusFor(pod, view, plugins, ifc)
  {
    ComputedInterfaces(pod, view, plugins, ifc);
    forall i | 0 <= i < |pod.statuses|
      ensures InterfaceFor(pod, view, plugins, pod.statuses[i], ifc) <==>
              IsInterfaceOf(pod, view, plugins, pod.statuses[i], ifc)
    {
      InterfaceIsMeant(pod, view, plugins, pod.statuses[i], ifc);
    }
  }

  /** The entry is that of the pod, and holds the interfaces of its statuses and no other. */
  ghost predicate Describes(info: PodInfo, pod: Pod, view: View, plugins: seq<string>) {
    && info.name == pod.name.name && info.namespace == pod.name.namespace && info.labels == pod.labels
    && forall ifc :: ifc in info.interfaces <==> HasStatusFor(pod, view, plugins, ifc)
  }

  lemma EntryDescribes(pod: Pod, view: View, plugins: seq<string>)
    ensures Describes(PodInfoOf(pod, view, plugins), pod, view, plugins)
  {
    forall ifc { PodInterfaces(pod, view, plugins, ifc); }
  }

  function PodKey(pod: Pod): NamespacedName {
    pod.name
  }

  function PodInfoUnder(view: View, plugins: seq<string>): Pod -> Option<PodInfo> {
    pod => Some(PodInfoOf(pod, view, plugins))
  }

  class PodChangeTracker {
    const networkPlugins: seq<string>
    const netdefChanges: NetDefChangeTracker
    var items: map<NamespacedName, Change<NamespacedName, PodInfo>>

    constructor (networkPlugins: seq<string>, netdefChanges: NetDefChangeTracker)
      ensures this.networkPlugins == networkPlugins && this.netdefChanges == netdefChanges && items == map[]
    {
      this.networkPlugins := networkPlugins;
      this.netdefChanges := netdefChanges;
      items := map[];
    }

    method LookUpPlugins(pod: Pod) returns (networkPlugins: map<NamespacedName, string>)
      requires netdefChanges.Valid()
      modifies netdefChanges.changes, netdefChanges.netdefMap
      ensures netdefChanges.Valid() && netdefChanges.defs == old(netdefChanges.defs)
      ensures forall n :: (if n in networkPlugins then networkPlugins[n] else "") ==
                          PluginOf(pod, netdefChanges.View(), n)
    {
      networkPlugins := map[];
      for i := 0 to |pod.networks|
        invariant netdefChanges.Valid() && netdefChanges.defs == old(netdefChanges.defs)
        invariant forall n :: n in networkPlugins <==> n in pod.networks[..i]
        invariant forall n :: n in networkPlugins ==> networkPlugins[n] == netdefChanges.View()(n)
      {
        var plugin := netdefChanges.GetPluginType(pod.networks[i]);
        networkPlugins := networkPlugins[pod.networks[i] := plugin];
      }
      assert pod.networks[..|pod.networks|] == pod.networks;
    }

    method AppendInterfaces(before: seq<Interface>, s: NetworkStatus, pluginType: string, ghost pod: Pod,
                            ghost view: View) returns (netifs: seq<Interface>)
      requires pluginType == PluginOf(pod, view, NetworkOf(pod, s))
      ensures netifs == before + PerStatus(pod, view, networkPlugins)(s)
    {
      netifs := before;
      ghost var g := PerPlugin(pod, view, s);
      FlatMapAll(g, networkPlugins);
      for j := 0 to |networkPlugins|
        invariant netifs == before + FlatMap(g, networkPlugins[..j])
      {
        FlatMapAppend(before, g, networkPlugins, j);
        if pluginType == networkPlugins[j] {
          if s.deviceID == None {
            continue;
          }
          netifs := netifs + [Interface(s.name, s.deviceID.value, s.interfaceName, pluginType, s.ips)];
        }
      }
    }

    method CollectInterfaces(pod: Pod, pluginOfNetwork: map<NamespacedName, string>, ghost view: View)
      returns (netifs: seq<Interface>)
      requires forall n :: (if n in pluginOfNetwork then pluginOfNetwork[n] else "") == PluginOf(pod, view, n)
      ensures netifs == FlatMap(PerStatus(pod, view, networkPlugins), pod.statuses)
    {
      netifs := [];
      ghost var f := PerStatus(pod, view, networkPlugins);
      for i := 0 to |pod.statuses|
        invariant netifs == FlatMap(f, pod.statuses[..i])
      {
        var s := pod.statuses[i];
        var network := NetworkOf(pod, s);
        var pluginType := if network in pluginOfNetwork then pluginOfNetwork[network] else "";
        netifs := AppendInterfaces(netifs, s, pluginType, pod, view);
        FlatMapStep(f, pod.statuses, i);
      }
      FlatMapAll(f, pod.statuses);
    }

    /** The entry of a pod; each lookup of a plugin drains the pending network definitions first. */
    method NewPodInfo(pod: Pod) returns (info: PodInfo)
      requires netdefChanges.Valid()
      modifies netdefChanges.changes, netdefChanges.netdefMap
      ensures netdefChanges.Valid() && netdefChanges.defs == old(netdefChanges.defs)
      ensures info == PodInfoOf(pod, netdefChanges.View(), networkPlugins)
      ensures Describes(info, pod, netdefChanges.View(), networkPlugins)
    {
      var netifs: seq<Interface> := [];
      ghost var view := netdefChanges.View();
      if pod.isTarget {
        var pluginOfNetwork := LookUpPlugins(pod);
        netifs := CollectInterfaces(pod, pluginOfNetwork, view);
      }
      info := PodInfo(pod.name.name, pod.name.namespace, pod.labels, netifs);
      EntryDescribes(pod, view, networkPlugins);
    }

    method PodToPodMap(pod: Option<Pod>) returns (podMap: map<NamespacedName, PodInfo>)
      requires netdefChanges.Valid()
      modifies netdefChanges.changes, netdefChanges.netdefMap
      ensures netdefChanges.Valid() && netdefChanges.defs == old(netdefChanges.defs)
      ensures podMap == ToMap(PodKey, PodInfoUnder(netdefChanges.View(), networkPlugins), pod)
    {
      if pod == None {
        return map[];
      }
      var info := NewPodInfo(pod.value);
      return map[pod.value.name := info];
    }

    method Open(key: NamespacedName, previous: Option<Pod>)
      requires netdefChanges.Valid()
      modifies this`items, netdefChanges.changes, netdefChanges.netdefMap
      ensures netdefChanges.Valid() && netdefChanges.defs == old(netdefChanges.defs)
      ensures items == old(items)[key := Change(
                         ToMap(PodKey, PodInfoUnder(netdefChanges.View(), networkPlugins), previous), map[])]
    {
      var prevPodMap := PodToPodMap(previous);
      items := items[key := Change(prevPodMap, map[])];
    }

    method Close(key: NamespacedName, curPodMap: map<NamespacedName, PodInfo>)
      requires key in items
      modifies this`items
      ensures var change := old(items)[key].(current := curPodMap);
              items == if change.previous == change.current then old(items) - {key} else old(items)[key := change]
    {
      items := items[key := items[key].(current := curPodMap)];
      if items[key].previous == items[key].current {
        items := items - {key};
      }
    }

    /** Merges a pod event into the pending changes; both entries are made with the plugins of this moment. */
    method Update(previous: Option<Pod>, current: Option<Pod>) returns (tracked: bool)
      requires netdefChanges.Valid()
      modifies this`items, netdefChanges.changes, netdefChanges.netdefMap
      ensures netdefChanges.Valid() && netdefChanges.defs == old(netdefChanges.defs)
      ensures tracked <==> previous.Some? || current.Some?
      ensures items == if tracked
                       then Track(old(items), EventOf(PodKey, PodInfoUnder(netdefChanges.View(), networkPlugins),
                                                      previous, current))
                       else old(items)
    {
      var pod := current;
      if pod == None {
        pod := previous;
      }
      if pod == None {
        return false;
      }
      var key := pod.value.name;
      ghost var view, was := netdefChanges.View(), items;
      if key !in items {
        Open(key, previous);
      }
      assert netdefChanges.View() == view;
      var curPodMap := PodToPodMap(current);
      assert netdefChanges.View() == view;
      Close(key, curPodMap);
      OpenedAndClosed(was, items, EventOf(PodKey, PodInfoUnder(view, networkPlugins), previous, current));
      return true;
    }

    static lemma OpenedAndClosed(was: map<NamespacedName, Change<NamespacedName, PodInfo>>,
                                 now: map<NamespacedName, Change<NamespacedName, PodInfo>>,
                                 ev: Event<NamespacedName, PodInfo>)
      requires var begun := if ev.key in was then was else was[ev.key := Change(ev.previous, map[])];
               var change := begun[ev.key].(current := ev.current);
               now == if change.previous == change.current then begun - {ev.key} else begun[ev.key := change]
      ensures now == Track(was, ev)
    {
    }

    /** Drains the pending changes into the map of pods. */
    method ApplyTo(podMap: InfoMap<NamespacedName, PodInfo>)
      requires Local(items)
      modifies this`items, podMap
      ensures podMap.entries == ApplyAll(old(podMap.entries), old(items)) && items == map[]
    {
      podMap.ApplyItems(items);
      items := map[];
    }
  }

  // ----- when a pod event is lost -----

  lemma {:induction false} FlatMapSame<A, B>(f: A -> seq<B>, g: A -> seq<B>, s: seq<A>)
    requires forall i :: 0 <= i < |s| ==> f(s[i]) == g(s[i])
    ensures FlatMap(f, s) == FlatMap(g, s)
  {
    if s != [] {
      FlatMapSame(f, g, s[..|s| - 1]);
    }
  }

  predicate SamePlugins(pod: Pod, before: View, now: View, plugins: seq<string>) {
    forall i :: 0 <= i < |pod.statuses| ==>
      SupportedPlugin(pod, before, plugins, pod.statuses[i]) == SupportedPlugin(pod, now, plugins, pod.statuses[i])
  }

  lemma SamePluginSameInterfaces(pod: Pod, before: View, now: View, plugins: seq<string>, s: NetworkStatus)
    requires SupportedPlugin(pod, before, plugins, s) == SupportedPlugin(pod, now, plugins, s)
    ensures PerStatus(pod, before, plugins)(s) == PerStatus(pod, now, plugins)(s)
  {
    forall j | 0 <= j < |plugins|
      ensures PerPlugin(pod, before, s)(plugins[j]) == PerPlugin(pod, now, s)(plugins[j])
    {
      assert plugins[j] in plugins;
    }
    FlatMapSame(PerPlugin(pod, before, s), PerPlugin(pod, now, s), plugins);
  }

  /** An interface of one view that the other does not give shows up as another plugin of its status. */
  lemma SameInterfaceSamePlugin(pod: Pod, before: View, now: View, plugins: seq<string>, i: nat)
    requires pod.isTarget && i < |pod.statuses|
    requires SupportedPlugin(pod, before, plugins, pod.statuses[i]).Some?
    requires PodInfoOf(pod, before, plugins) == PodInfoOf(pod, now, plugins)
    ensures SupportedPlugin(pod, now, plugins, pod.statuses[i]) ==
            SupportedPlugin(pod, before, plugins, pod.statuses[i])
  {
    var s := pod.statuses[i];
    var ifc := Interface(s.name, s.deviceID.value, s.interfaceName,
                         SupportedPlugin(pod, before, plugins, s).value, s.ips);
    assert InterfaceFor(pod, before, plugins, s, ifc);
    ComputedInterfaces(pod, before, plugins, ifc);
    ComputedInterfaces(pod, now, plugins, ifc);
    var j :| 0 <= j < |pod.statuses| && InterfaceFor(pod, now, plugins, pod.statuses[j], ifc);
    assert NetworkOf(pod, pod.statuses[j]) == NetworkOf(pod, s);
  }

  /** The entry of a pod is the same under two views exactly when they give its statuses the same supported plugins. */
  lemma SameEntryIffSamePlugins(pod: Pod, before: View, now: View, plugins: seq<string>)
    ensures PodInfoOf(pod, before, plugins) == PodInfoOf(pod, now, plugins) <==>
            (pod.isTarget ==> SamePlugins(pod, before, now, plugins))
  {
    if pod.isTarget && SamePlugins(pod, before, now, plugins) {
      forall i | 0 <= i < |pod.statuses|
        ensures PerStatus(pod, before, plugins)(pod.statuses[i]) == PerStatus(pod, now, plugins)(pod.statuses[i])
      {
        SamePluginSameInterfaces(pod, before, now, plugins, pod.statuses[i]);
      }
      FlatMapSame(PerStatus(pod, before, plugins), PerStatus(pod, now, plugins), pod.statuses);
    }
    if pod.isTarget && PodInfoOf(pod, before, plugins) == PodInfoOf(pod, now, plugins) {
      forall i | 0 <= i < |pod.statuses|
        ensures SupportedPlugin(pod, before, plugins, pod.statuses[i]) ==
                SupportedPlugin(pod, now, plugins, pod.statuses[i])
      {
        if SupportedPlugin(pod, before, plugins, pod.statuses[i]).Some? {
          SameInterfaceSamePlugin(pod, before, now, plugins, i);
        } else if SupportedPlugin(pod, now, plugins, pod.statuses[i]).Some? {
          SameInterfaceSamePlugin(pod, now, before, plugins, i);
        }
      }
    }
  }

  /**
   * A redelivery of an unchanged pod is lost exactly when lookups now name another supported plugin for one of its
   * statuses: both sides of the pair are made with the new answers and cancel out, while the map keeps the old entry.
   */
  lemma RedeliveryIsLostIffPluginsChanged(
    m: map<NamespacedName, PodInfo>, items: map<NamespacedName, Change<NamespacedName, PodInfo>>, pod: Pod,
    before: View, now: View, plugins: seq<string>)
    requires Local(items) && pod.name !in items
    requires pod.name in m && m[pod.name] == PodInfoOf(pod, before, plugins)
    ensures var ev := EventOf(PodKey, PodInfoUnder(now, plugins), Some(pod), Some(pod));
            At(ApplyAll(m, Track(items, ev)), pod.name) != ev.current <==>
            pod.isTarget && !SamePlugins(pod, before, now, plugins)
  {
    var ev := EventOf(PodKey, PodInfoUnder(now, plugins), Some(pod), Some(pod));
    SameEntryIffSamePlugins(pod, before, now, plugins);
    assert Track(items, ev) == items;
    assert At(ApplyAll(m, items), pod.name) == At(m, pod.name);
    assert ev.current[pod.name] == PodInfoOf(pod, now, plugins);
    assert At(m, pod.name)[pod.name] == PodInfoOf(pod, before, plugins);
  }

  predicate KeepsPlugins(pods: map<NamespacedName, Pod>, before: View, now: View, plugins: seq<string>) {
    forall k :: k in pods && pods[k].isTarget ==> SamePlugins(pods[k], before, now, plugins)
  }

  lemma SameInfosIffPluginsKept(pods: map<NamespacedName, Pod>, before: View, now: View, plugins: seq<string>)
    ensures Infos(PodInfoUnder(before, plugins), pods) == Infos(PodInfoUnder(now, plugins), pods) <==>
            KeepsPlugins(pods, before, now, plugins)
  {
    var a, b := Infos(PodInfoUnder(before, plugins), pods), Infos(PodInfoUnder(now, plugins), pods);
    forall k | k in pods
      ensures k in a && k in b
      ensures a[k] == b[k] <==> (pods[k].isTarget ==> SamePlugins(pods[k], before, now, plugins))
    {
      SameEntryIffSamePlugins(pods[k], before, now, plugins);
    }
  }

  /**
   * After lookups have changed, the pods that were tracked before stay in step exactly when the change concerns none of
   * their statuses.
   */
  lemma InStepIffPluginsKept(
    entries: map<NamespacedName, PodInfo>, items: map<NamespacedName, Change<NamespacedName, PodInfo>>,
    pods: map<NamespacedName, Pod>, before: View, now: View, plugins: seq<string>)
    requires Follow(PodKey, PodInfoUnder(before, plugins), entries, items, pods)
    ensures Follow(PodKey, PodInfoUnder(now, plugins), entries, items, pods) <==>
            KeepsPlugins(pods, before, now, plugins)
  {
    FollowsIffSameInfos(PodKey, PodInfoUnder(before, plugins), PodInfoUnder(now, plugins), entries, items, pods);
    SameInfosIffPluginsKept(pods, before, now, plugins);
  }

  /** A pod on a network of its own namespace. */
  function LatePod(): Pod {
    Pod(NamespacedName("ns", "pod"), map[], true, [NamespacedName("ns", "net")],
        [NetworkStatus("net", "net1", [], Some("0000:03:00.2"))])
  }

  function SamePluginForAll(plugin: string): View {
    (n: NamespacedName) => plugin
  }

  lemma LatePodInterfaces(plugin: string, supported: string)
    ensures PodInfoOf(LatePod(), SamePluginForAll(plugin), [supported]).interfaces != [] <==> plugin == supported
  {
    var pod, view := LatePod(), SamePluginForAll(plugin);
    var s := pod.statuses[0];
    SplitWithout(s.name, '/');
    assert PluginOf(pod, view, NetworkOf(pod, s)) == plugin;
    if plugin == supported {
      var ifc := Interface(s.name, s.deviceID.value, s.interfaceName, plugin, s.ips);
      assert InterfaceFor(pod, view, [supported], s, ifc);
      ComputedInterfaces(pod, view, [supported], ifc);
    } else if PodInfoOf(pod, view, [supported]).interfaces != [] {
      ComputedInterfaces(pod, view, [supported], PodInfoOf(pod, view, [supported]).interfaces[0]);
    }
  }

  /** A pod delivered before its network was defined, and again afterwards: the map keeps an entry without interface. */
  lemma RedeliveredPodIsLost(plugin: string)
    requires plugin != ""
    ensures var pod, before, now := LatePod(), SamePluginForAll(""), SamePluginForAll(plugin);
            var m := map[pod.name := PodInfoOf(pod, before, [plugin])];
            var ev := EventOf(PodKey, PodInfoUnder(now, [plugin]), Some(pod), Some(pod));
            m[pod.name].interfaces == [] && PodInfoOf(pod, now, [plugin]).interfaces != [] &&
            At(ApplyAll(m, Track(map[], ev)), pod.name) == At(m, pod.name) != ev.current
  {
    var pod, before, now := LatePod(), SamePluginForAll(""), SamePluginForAll(plugin);
    var m := map[pod.name := PodInfoOf(pod, before, [plugin])];
    LatePodInterfaces("", plugin);
    LatePodInterfaces(plugin, plugin);
    RedeliveryIsLostIffPluginsChanged(m, map[], pod, before, now, [plugin]);
    SameEntryIffSamePlugins(pod, before, now, [plugin]);
  }

  /** While lookups answer the same, a feed of pods is tracked without loss, whenever changes are applied. */
  lemma PodFeedUnderSameView(
    t: Tracked<NamespacedName, PodInfo>, pods: map<NamespacedName, Pod>, feed: seq<Feed<Pod>>, view: View,
    plugins: seq<string>)
    requires InStep(t) && t.live == Infos(PodInfoUnder(view, plugins), pods)
    requires KeyedBy(PodKey, pods) && FollowsAll(PodKey, pods, feed)
    ensures var r := RunFeed(t, PodKey, PodInfoUnder(view, plugins), pods, feed);
            ApplyAll(r.m, r.items) ==
            map k | k in DeliveredAll(PodKey, pods, feed) ::
                PodInfoOf(DeliveredAll(PodKey, pods, feed)[k], view, plugins)
  {
    FeedIsTracked(t, PodKey, PodInfoUnder(view, plugins), pods, feed);
  }
}
