# Verification model of multi-networkpolicy-tc

multi-networkpolicy-tc enforces MultiNetworkPolicies on the secondary networks of pods. It renders the policies that
select a pod into Pass and Drop rules per interface, compiles the rules to TC flower filters, and reconciles the filters
of the interface's device with the compiled ones. This project models that pipeline in Dafny and proves what it promises:
a packet gets through exactly when some policy allows it and no policy names it as an exception.

## How the model is laid out

| file | what it models |
|---|---|
| `Collections.dfy` | options, and the two list operations that the source writes as appending loops |
| `Net.dfy` | addresses in four or sixteen bytes, CIDR ranges and their meaning (section 3.1 of RFC 4632) |
| `TcTypes.dfy`, `FilterSet.dfy` | filters, their equality, and the list-backed set of filters modulo equality |
| `Classifier.dfy` | packets, and the verdicts that a list of filters may give them |
| `PolicyRules.dfy`, `Generator.dfy`, `GeneratorMeaning.dfy` | rules per interface, the compiler back end, and that it preserves meaning |
| `Cluster.dfy`, `PolicyMeaning.dfy` | policies, pods and namespaces, and what they say about packets, without reference to rendering |
| `Renderer.dfy`, `EndToEnd.dfy` | the front end, and that it renders what policies say |
| `Kernel.dfy` | what the kernel makes of messages and of tc's names, by its own numbers, without reference to the drivers |
| `Driver.dfy`, `Device.dfy` | the two drivers as codecs, that what they send acts as the filter, and the kernel's side, which holds messages or records and is seen through one of them |
| `Actuator.dfy`, `Deployment.dfy`, `RuleSync.dfy` | the reconciler, compiled filters in the kernel, and every state of a device while rules change |
| `Enforcement.dfy` | policies on the devices of pods |
| `Trackers.dfy`, `ChangeTrackers.dfy`, `PodTracking.dfy` | pending changes as values, as objects, and for network definitions and pods |
| `SyncPass.dfy`, `Startup.dfy` | events, trackers and a whole pass together, and the server's start-up gating |
| `Texts.dfy`, `MajorMinor.dfy`, `Netlink.dfy`, `CmdLine.dfy` | number texts and splitting, and the codecs of the two drivers |

Loops over a list are methods with loops, proved against `FlatMap` and `Select`. Maps are visited in an arbitrary order,
chosen anew at each visit, so every result holds for every order. Calls to the kernel may fail at any moment.

A packet has a number of 802.1Q tags and a payload. A verdict is what some order of trying filters of equal preference
may give (`MayGive`), so "gives exactly this verdict" rules out every other order too.

## Where the code departs from its purpose

Each departure is proved, with its exact condition and a lemma at a concrete input, both named below. Two have no
condition: the bare colon concerns every number, and the cancelled context is shown by a run.

- A port entry that is not a number, or that is not for TCP or UDP, is discarded. A rule whose entries are all discarded
  opens every port (`DiscardedPortsOpenAllPorts`); a discarded entry beside a kept one opens nothing, although an entry
  without a port stands for all of them (`DiscardedEntryOpensNothing`). `PortsExact` is the exact condition: every
  entry is covered by the kept ones, or the rule has no entries (`RuleWithoutPeersIsExactIff`, `PeerIsExactIffMeant`).
- A rule without ranges matches every address. So a selector that finds no address, under a rule with a usable port,
  opens that port to every address (`EmptySelectionOpensAllAddresses`; `RenderedAsMeant` is the exact condition).
- Exceptions of one block become Drop rules, which outrank the Pass rules of all other peers and policies
  (`ExceptionOverridesOtherPeer`). The end-to-end theorem says this in its statement.
- A range written in IPv4-mapped form, such as ::ffff:10.0.0.0/104, keeps a sixteen-byte mask. Its filter never equals
  the one that is listed back (`FaithfulIffListable`, `MappedRangeIsUnlistable`). After a success the device does what
  the rules say all the same, but every further pass deletes the filter and adds it again (`ActuateAgain`). In between,
  an exception in that form lets excepted traffic through, and a Pass rule drops what it allows (`MappedRangesLapse`).
  `AllowedThroughoutIff` and `DroppedThroughoutIff` are the exact conditions; `DeniedThroughout` holds for all rules.
- If the same range is also written in the usual form, by a rule with the same action and a common port, the kernel
  refuses the second filter as a duplicate, and no pass ever succeeds. `InstallableIffRangesAgree` is the exact
  condition, `MappedTwinConflicts` the input: Pass rules for 10.0.0.0/8 and ::ffff:10.0.0.0/104.
- The netlink driver sends port zero as "no port", so a filter for port zero matches every port
  (`PortZeroOpensAllPorts`). `NetlinkVerdictIsRightIff` is the exact condition for a packet, `FiltersActAsCompiledIff`
  the one for rules, and `PassRuleSurvivesIff` the one for a Pass rule on its own.
- A major number followed by a bare colon is not shifted, as its documentation comment says (`ParseMajorOnly`).
- A pod that is delivered again unchanged, after a network definition changed, is taken for "no change", and the map
  keeps the old entry, exactly when one of its statuses has another supported plugin now
  (`RedeliveryIsLostIffPluginsChanged`, `RedeliveredPodIsLost`).
- When the context ends before the server is initialized, the sync loop is entered all the same
  (`CancelledServerMayRunAPass`; `StartupSafety` says that no pass starts early otherwise).

The generator's comments speak of preferences 100, 200 and 300; the code adds the protocol's offset (0, 1 or 2), and the
model follows the code. The document docs/tc-rule-pipeline.md is not part of this model.

## Model

| member | source | states |
|---|---|---|
| GeneratorMeaning.CompilePreservesMeaning | pkg/tc/generator/simple_generator.go:36-73 | For all rules and packets the compiled list gives the rules' verdict and no other: Drop rules win, then Pass rules, then drop; traffic that is not IP or has two tags meets no filter |
| GeneratorMeaning.FiltersForHit | pkg/tc/generator/simple_generator.go:98-274 | In all four cases of ranges and ports the filters hit exactly the packets that the ranges and ports describe |
| GeneratorMeaning.TagTransparency | pkg/tc/generator/simple_generator.go:119-274 | A packet with one 802.1Q tag gets the verdict of the untagged one |
| GeneratorMeaning.RuleOrderIsImmaterial | pkg/tc/generator/simple_generator.go:59-71 | Rule lists with the same members give the same verdicts, whatever their order and repetitions |
| GeneratorMeaning.MatchingOrigin | pkg/tc/generator/priority.go:9-32 | A compiled filter that matches sits in the preference tier of its origin and means that a rule of that tier matches |
| Generator.GenerateFromPolicyRuleSet | pkg/tc/generator/simple_generator.go:36-73 | The compiled list for present rules, no filter for absent ones, and an error exactly for a non-egress set or an unknown action |
| Generator.GenFilters | pkg/tc/generator/simple_generator.go:98-116 | The case split computes the filter list whose meaning FiltersForHit states |
| Generator.GenFiltersWithIPs | pkg/tc/generator/simple_generator.go:119-151 | One untagged and one tagged filter per range, in order |
| Generator.GenFiltersWithPorts | pkg/tc/generator/simple_generator.go:154-197 | The filters of every protocol for every port, in order |
| Generator.GenFiltersWithIPsAndPorts | pkg/tc/generator/simple_generator.go:201-239 | One untagged and one tagged filter per range and port, in order |
| Generator.GenFiltersMatchAll | pkg/tc/generator/simple_generator.go:242-274 | The filters of every protocol without keys of their own |
| Classifier.VerdictDependsOnKeysOnly | pkg/tc/filterset.go:42-46 | Lists with the same filters modulo Equals give the same verdicts: permuting, deduplicating and assigning handles change nothing |
| TcTypes.EqualsIsCanonEquality | pkg/tc/types/filter.go:109-255 | Equals on filters is equality of a canonical form, hence an equivalence: handles ignored, absent chain is chain 0, byte forms of an address alike |
| FilterSets.FilterSet.Has | pkg/tc/filterset.go:65-72 | Membership of the filter's equality class |
| FilterSets.FilterSet.Add | pkg/tc/filterset.go:42-46 | Adds the class and appends the filter if it is new; no two items are ever equal |
| FilterSets.FilterSet.Remove | pkg/tc/filterset.go:49-62 | Removes exactly the class, by moving the last item into the gap; no-op for an absent one |
| FilterSets.FilterSet.Len | pkg/tc/filterset.go:75-77 | The number of equality classes in the set |
| FilterSets.FilterSet.List | pkg/tc/filterset.go:120-122 | The items in insertion order |
| FilterSets.FilterSet.In | pkg/tc/filterset.go:80-91 | Set inclusion, with the shortcut on lengths justified |
| FilterSets.FilterSet.Intersect | pkg/tc/filterset.go:94-102 | Set intersection, with items of this set in their order |
| FilterSets.FilterSet.Difference | pkg/tc/filterset.go:105-113 | Set difference, with items of this set in their order |
| FilterSets.FilterSet.Equals | pkg/tc/filterset.go:116-118 | Set equality from length and inclusion, by the pigeonhole argument |
| Actuators.ActuatorTC.Actuate | pkg/tc/actuator_tc.go:24-115 | From any state of a device whose filters the driver can list, for all filters: a success leaves exactly the desired filters modulo Equals if and only if all of them are listed as added, and in any case filters that act like what the driver was asked for; it is possible only without conflicts, and otherwise only transient faults prevent it; every state on the way, of a success or a failure, is transitional; a success that deletes anything passes through what is old and desired; what is as desired is left alone and otherwise the device changes; the qdisc and chain cases |
| Actuators.ActuatorTC.Install | pkg/tc/actuator_tc.go:66-115 | The case with filters: qdisc on demand, then reconciliation, with convergence exactly for filters that are listed as added and success only without conflicts |
| Actuators.ActuatorTC.Reconcile | pkg/tc/actuator_tc.go:79-114 | Deletes the difference one way and adds it the other way, or does nothing for equal sets; converges exactly for filters that are listed as added; only transient faults stop filters that do not conflict, and conflicting ones never succeed |
| Actuators.ActuatorTC.RemoveAll | pkg/tc/actuator_tc.go:100-105 | Deletions reach exactly the listed filters and keep every desired one, also when one fails; at their end just what is old and desired is left |
| Actuators.ActuatorTC.AddAll | pkg/tc/actuator_tc.go:107-112 | Additions run in list order, one stored filter for each, and every state on the way holds what stays and what was sent of an initial part of the list; they clash with nothing exactly when the desired filters do not conflict as sent |
| Actuators.ActuatorTC.DeleteChainZero | pkg/tc/actuator_tc.go:51-64 | Without desired filters chain 0 is emptied and other chains keep theirs |
| Actuators.ActuateAgain | pkg/tc/actuator_tc.go:24-115 | A later success converges, exactly for filters that are listed as added, however the first run ended; after a success a second one changes nothing if and only if all filters are such, so otherwise the reconciler never settles |
| Actuators.ConvergesIffFaithful | pkg/tc/actuator_tc.go:96-112 | What is kept together with what the additions have become equals the desired set exactly for filters that are listed as added |
| Actuators.InstalledIsSent | pkg/tc/actuator_tc.go:96-112 | Faithful or not, what is kept together with what the additions have become acts like the desired filters as the driver sends them |
| Actuators.InstalledIsConflictFree | pkg/tc/actuator_tc.go:96-112 | A kernel that holds all desired filters has accepted each of them, and no two different ones clash as sent |
| Actuators.TransitionalBounds | pkg/tc/actuator_tc.go:96-112 | As the kernel sees them, every state on the way holds what stays and nothing beyond the old filters and the desired ones as sent, for all filters |
| Actuators.FaithfulBounds | pkg/tc/actuator_tc.go:96-112 | Modulo Equals, every state on the way lies between the intersection and the union of old and new filters that are listed as added |
| Actuators.AdditionsInOrder | pkg/tc/filterset.go:105-113 | The first additions are always those of an initial part of the desired list |
| Devices.Device.QDiscList | pkg/tc/interface.go:14-15 | The ingress qdisc is listed exactly when it is installed |
| Devices.Device.QDiscAdd | pkg/tc/interface.go:10-11 | Installs an empty ingress qdisc, or fails without effect |
| Devices.Device.QDiscDel | pkg/tc/interface.go:12-13 | Removes the ingress qdisc with its chains and filters, or fails without effect |
| Devices.Device.FilterAdd | pkg/tc/driver/netlink/tc_netlink.go:75-95 | Stores what the driver's codec makes of the filter, masked by the kernel, under a handle of its own; refuses names the kernel does not know, a second protocol or equal keys at one preference |
| Devices.Device.FilterDel | pkg/tc/interface.go:19-20 | Removes the filters that the attributes address, or fails without effect |
| Devices.Device.FilterList | pkg/tc/driver/netlink/tc_netlink.go:117-143 | Lists what the driver's codec reads from the stored messages or records, with no flower filter left out |
| Devices.Device.ChainDel | pkg/tc/interface.go:26-27 | Removes the filters of one chain, or fails without effect |
| Devices.Device.ChainList | pkg/tc/interface.go:28-29 | Lists the chains in use |
| Drivers.StoredEqualsAdded | pkg/tc/types/filter.go:173-210 | For all filters the kernel accepts: what is listed equals what was added exactly for those with a preference, keys and a canonical range, and, through netlink, a type key exactly behind a tag and no port zero |
| Drivers.VerdictDependsOnWireKeysOnly | pkg/tc/types/filter.go:173-210 | Lists that the kernel cannot tell apart by protocol, preference, chain, masked keys and actions give the same verdicts |
| Drivers.SentMessageActs | pkg/tc/driver/netlink/converters.go:183-233 | In the kernel's own numbers (types 0x0800, 0x86dd and 0x8100, transports 6 and 17, codes 0 to pass and 2 to drop) the message of a filter matches exactly the filter's packets, at its preference and with its verdict |
| Drivers.SentPortZeroActs | pkg/tc/driver/netlink/converters.go:205-207 | The message of a filter for port zero matches, in the kernel's numbers, every port of its protocol |
| Drivers.MessageOfFilter | pkg/tc/driver/netlink/converters.go:183-233 | The message carries handle, chain and preference, and every action in order, at its place and with the kernel's code |
| Drivers.SentArgumentsAct | pkg/tc/types/filter.go:83-171 | What tc lists for the printed arguments, read by tc's names for the kernel's numbers, acts as the filter on every packet, at the preference that the kernel keeps it at |
| Drivers.KernelGivesAsRead | pkg/tc/driver/netlink/converters.go:236-274 | The kernel gives a packet exactly the verdicts of the filters that a driver reads, if their names are known |
| Devices.DeletingListed | pkg/tc/actuator_tc.go:100-105 | Deleting a listed filter by its own attributes removes it and nothing else |
| Deployment.FaithfulIffListable | pkg/tc/generator/simple_generator.go:36-73 | Compiled filters are all listed as added exactly when every range of the rules is canonical and, through netlink, no rule names port zero |
| Deployment.MappedRangeIsUnlistable | pkg/utils/utils.go:133-147 | The range ::ffff:10.0.0.0/104 parses, and filters compiled for it are not listed as added, by either driver |
| Deployment.InstallableIffRangesAgree | pkg/tc/generator/simple_generator.go:36-73 | Compiled filters can stand side by side in the kernel, by either driver, exactly when no rules of one action with a common port, or without ports, write one range in two ways |
| Deployment.MappedTwinConflicts | pkg/tc/generator/simple_generator.go:119-151 | Pass rules for 10.0.0.0/8 and ::ffff:10.0.0.0/104, which both parse, conflict |
| Deployment.SentMeaning | pkg/tc/driver/netlink/converters.go:183-274 | For all rules and packets the compiled filters as the driver sends them give exactly one verdict: the rules', in which netlink reads port zero as every port |
| Deployment.SentVerdictIsRight | pkg/tc/driver/netlink/converters.go:183-233 | That verdict is the one of the rules, by the command line always and by netlink for rules without port zero |
| Deployment.NetlinkVerdictIsRightIff | pkg/tc/driver/netlink/converters.go:205-207 | For all rules and a packet, netlink gives the rules' verdict exactly when no rule for its address and port zero overrides what holds for its own port |
| Deployment.FiltersActAsCompiledIff | pkg/tc/driver/netlink/converters.go:205-207 | Each compiled filter matches the same packets after netlink's conversion exactly when no rule names port zero |
| Deployment.PassRuleSurvivesIff | pkg/tc/driver/netlink/converters.go:205-207 | A Pass rule on its own has its verdict through netlink, for all packets, exactly when it lists every port of a protocol of which it lists port zero |
| Deployment.PortZeroOpensAllPorts | pkg/tc/driver/netlink/converters.go:205-207 | A Pass rule for TCP port zero passes TCP port 80 through netlink and drops it through the command line |
| Deployment.PreferenceIsInjective | pkg/tc/generator/priority.go:9-32 | A preference names one tier and one protocol |
| Deployment.CompiledPreference | pkg/tc/generator/priority.go:9-32 | Compiled filters sit at 100, 200 or 300 for Drop rules, Pass rules and default drops, plus 0, 1 or 2 for IPv4, IPv6 and tagged frames |
| RuleSync.RunStaysBetween | pkg/tc/actuator_tc.go:73-114 | From what any rules have left on the device, every state of a run to any other rules lies between the filters that stay and those that either rules send, whatever form the ranges have |
| RuleSync.KernelGivesBetween | pkg/tc/actuator_tc.go:73-114 | In every state between compiled rules the kernel, by its own numbers, gives the verdicts of the filters that are listed |
| RuleSync.DeniedThroughout | pkg/tc/actuator_tc.go:73-114 | Traffic that neither old nor new rules pass, as sent, is dropped in every state of the change, for all rules |
| RuleSync.AllowedThroughout | pkg/tc/actuator_tc.go:73-114 | Traffic that a listable Pass rule of both matches and no Drop rule of either reaches goes through in every state of the change, whatever the other rules are |
| RuleSync.AllowedThroughoutIff | pkg/tc/actuator_tc.go:73-114 | For all rules and a packet that no Drop rule reaches: it goes through in every state of the change exactly when old and new Pass rules share a canonical range for it, or have none, and share its port, nonzero through netlink, or have none |
| RuleSync.DroppedThroughout | pkg/tc/actuator_tc.go:73-114 | Traffic for which old and new Drop rules share a canonical range and a port in that sense is dropped in every state, whatever the other rules are |
| RuleSync.DroppedThroughoutIff | pkg/tc/actuator_tc.go:73-114 | Where Pass rules stay in force, an exception holds in every state exactly when Drop rules share such a part |
| RuleSync.MiddleVerdict | pkg/tc/actuator_tc.go:73-114 | When all that goes has gone and nothing has come, the verdict is that of the parts of old and new rules that stay in force |
| RuleSync.MappedRangesLapse | pkg/tc/actuator_tc.go:73-114 | In that state the exception ::ffff:10.1.0.0/112 of 10.0.0.0/8 passes excepted traffic, and a Pass rule for ::ffff:10.0.0.0/104 drops what it allows |
| RuleSync.DefaultsBeforePass | pkg/tc/generator/simple_generator.go:56-71 | On a blank device the default drops are complete before the first Pass filter appears, for all rules |
| RuleSync.SyncRuleSet | pkg/server/server.go:556-575 | After a success, for all rules, the kernel, reading the stored entries by its own numbers, gives every packet the verdict of the rules as the driver sends them, which is the rules' own unless netlink meets port zero, or none without rules; the next sync finds what it wants exactly for listable rules; success is possible only for rules that write each range in one way, and those are stopped by transient faults only; every state on the way, of a success or a failure, is between old and new rules; a further pass over unlistable rules goes through a state with only what stays |
| PolicyRules.UIDIsInjective | pkg/policyrules/types.go:43-45 | A UID determines network and interface when interface names have no slash |
| PolicyRules.UIDsCanCollide | pkg/policyrules/types.go:43-45 | With a slash in an interface name two interfaces can share a UID |
| Cluster.AppliesForNetwork | pkg/controllers/networkpolicy.go:146-153 | Whether the policy names the network |
| Cluster.Values | pkg/controllers/pod.go:434-445 | The list holds the entry of every key exactly once, in some order |
| Renderer.GetPorts | pkg/policyrules/renderer.go:328-356 | The ports that entries name by number, in order: TCP by name or by default, UDP by name; absent ports, names, bad numbers and other protocols are skipped |
| Renderer.PortOfEntry | pkg/policyrules/renderer.go:328-356 | An entry is kept exactly if it has a number and its protocol is absent, TCP or UDP, and then as that port |
| Renderer.UsablePortsAre | pkg/policyrules/renderer.go:328-356 | A port is among the kept ones exactly if some entry names its number and its protocol |
| Renderer.RenderRulesWithIPBlock | pkg/policyrules/renderer.go:292-325 | A Pass rule for exactly the block and Drop rules for exactly its exceptions that parse, of either family; nothing for a block that does not parse |
| Renderer.BlockRulesCover | pkg/policyrules/renderer.go:292-325 | An address is covered by a Pass rule exactly if it is in the block, and by a Drop rule exactly if it is in one of its exceptions; all rules have the given ports |
| Renderer.SelectionIsMeant | pkg/policyrules/renderer.go:198-260 | The pods chosen are those with the labels and in a namespace that the peer's selectors mean; without a namespace selector, in the policy's own |
| Renderer.RenderRulesWithSelectors | pkg/policyrules/renderer.go:184-289 | One Pass rule for exactly the host ranges of selected pods, for every order of pods, or no rule |
| Renderer.SelectorIsExact | pkg/policyrules/renderer.go:198-279 | The ranges cover an address exactly when a current pod that the peer's selectors mean has it on the network |
| Net.HostNetIsOneAddress | pkg/policyrules/renderer.go:263-271 | A full-length prefix covers its own address only |
| Renderer.RenderEgressForInterface | pkg/policyrules/renderer.go:132-181 | The rules of a policy on a network, with the case of no peers |
| Renderer.RenderEgress | pkg/policyrules/renderer.go:51-129 | One rule set per interface UID; rules absent exactly when no usable policy selects the pod and names the network; otherwise the contributions of all policies in the order visited |
| EndToEnd.ApplicableIsSelected | pkg/controllers/pod.go:179-195 | A policy is applied exactly if it is of the pod's namespace and its selector's pairs are all among the pod's labels; the error is exactly a selector without such a form in the same namespace |
| EndToEnd.PresentIffIsolated | pkg/policyrules/renderer.go:51-129 | Rules are present exactly when a policy of the pod's own namespace selects the pod and names the interface's network |
| EndToEnd.SetIsOfInterface | pkg/policyrules/renderer.go:132-145 | A rule set carries network, name, addresses and device of one interface of the pod |
| EndToEnd.EveryInterfaceIsRendered | pkg/policyrules/renderer.go:51-129 | Each interface of the pod has a rule set under its network and name, one for each such pair, and there is no other |
| EndToEnd.PolicyIsEnforced | pkg/policyrules/renderer.go:51-356 | For all policies, pods, namespaces and orders, the compiled filters pass an IP packet exactly when some policy allows it and no exception names it, for peers rendered as meant; an absent port means every port, a name the numbers it stands for |
| EndToEnd.PeerIsExactIffMeant | pkg/policyrules/renderer.go:147-178 | A peer's Pass rules match, for all packets, what the policy says exactly when its ports are exact (entries with a number for TCP or UDP cover all others) and its selectors do not widen the rule |
| EndToEnd.RuleWithoutPeersIsExactIff | pkg/policyrules/renderer.go:170-178 | The Pass rule of a rule without peers matches, for all IP packets, the ports that the policy allows exactly when its ports are exact |
| EndToEnd.KeptEntryIsCovered | deploy/crds/multi-net-crd.yaml:58-68 | A kept entry is a number for TCP or UDP, and is covered by such entries, so only discarded entries can make ports inexact |
| EndToEnd.VerdictOfRenderings | pkg/policyrules/renderer.go:51-129 | Without hypotheses: a packet passes exactly when the rendering of some governing egress rule passes it and of none drops it |
| EndToEnd.RenderedMeaning | pkg/policyrules/renderer.go:132-181 | Drop rules match exactly the exceptions, and Pass rules, up to exceptions, exactly what policies allow |
| EndToEnd.RenderedActionsKnown | pkg/policyrules/renderer.go:301-323 | The generator never refuses rendered rules for their action |
| EndToEnd.DiscardedPortsOpenAllPorts | pkg/policyrules/renderer.go:328-356 | A rule with only an SCTP port passes a UDP packet to another port |
| EndToEnd.DiscardedEntryOpensNothing | deploy/crds/multi-net-crd.yaml:58-65 | A rule for all of UDP and for TCP port 80 does not pass UDP port 53, which it allows |
| EndToEnd.EmptySelectionOpensAllAddresses | pkg/policyrules/renderer.go:281-287 | A selector without pods, under a rule with a port, passes that port to every address |
| EndToEnd.ExceptionOverridesOtherPeer | pkg/policyrules/renderer.go:308-323 | An exception of one block drops what another peer of the rule allows |
| Enforcement.RenderedRulesCanonical | pkg/policyrules/renderer.go:263-323 | Rendered ranges are canonical when the policies' blocks are |
| Enforcement.RenderedRulesHaveNoZeroPort | pkg/policyrules/renderer.go:328-356 | Rendered rules name no port zero when no entry of the policies does |
| Enforcement.SyncInterface | pkg/server/server.go:556-575 | After a success the device, by the kernel's own numbers, enforces the policies for the interface, whatever form their blocks have, through netlink for entries without port zero; for canonical blocks the next pass has nothing to do and only transient faults fail; every state on the way is between the old rules and the new ones |
| Enforcement.PolicyDeniedThroughout | pkg/tc/actuator_tc.go:73-114 | While policies, pods or namespaces change, traffic that no policy allows or excepts before or after the change is dropped in every state of the device |
| Enforcement.SyncPod | pkg/server/server.go:535-584 | The rule sets rendered for a pod are all tried, behind those of other pods; what was installed is enforced and stays installed while devices are distinct |
| Enforcement.SyncPods | pkg/server/server.go:510-584 | For all chosen pods, in any order: every rule set that was installed is enforced at the end of the pass, whatever filters the devices had and through either driver; failures are skipped |
| Trackers.TrackedIffSound | pkg/controllers/networkpolicy.go:247-277 | An event is tracked without loss exactly when, if its pair cancels out, the map already holds the current entry |
| Trackers.TrackedEntries | pkg/controllers/networkpolicy.go:247-277 | For every event, faithful or not: what is to be applied becomes the current entry, unless the pair cancels out, and then the map's own entry remains |
| Trackers.TrackingIsDirectApplication | pkg/controllers/namespace.go:176-228 | For every faithful stream and every interleaving of applications the map becomes what direct application gives |
| Trackers.OrderIsImmaterial | pkg/controllers/networkpolicy.go:166-201 | Pending changes give the same map in every order of application |
| ChangeTrackers.ChangeTracker.Update | pkg/controllers/networkpolicy.go:247-277 | Merges an event into the pending change of its key and drops a pair that cancels out |
| ChangeTrackers.InfoMap.Apply | pkg/controllers/networkpolicy.go:166-179 | Drains all pending changes into the map, in any order |
| ChangeTrackers.InfoMap.Merge | pkg/controllers/networkpolicy.go:182-190 | Adds all entries of the other map |
| ChangeTrackers.InfoMap.Unmerge | pkg/controllers/networkpolicy.go:193-201 | Deletes all keys of the other map |
| PodTracking.NetDefChangeTracker.Update | pkg/controllers/net-attach-def.go:271-301 | A faithful event keeps the tracker in step with the delivered definitions |
| PodTracking.NetDefChangeTracker.GetPluginType | pkg/controllers/net-attach-def.go:213-219 | The first plugin in the list of the latest definition of that name, its type if there is no list, or empty if it is absent or does not decode |
| ChangeTrackers.DeliveredInfos | pkg/controllers/net-attach-def.go:222-268 | Events made from definitions are those of their entries, also for definitions without one |
| ChangeTrackers.FeedIsTracked | pkg/controllers/net-attach-def.go:271-301 | For every well-formed feed of objects, with applications at any moments, what is applied and pending gives exactly the entries of the objects delivered last |
| PodTracking.PodInterfaces | pkg/controllers/pod.go:225-316 | An interface is in the entry exactly when the pod is a target and one of its statuses has these values and a device, and names an attached network with this supported plugin |
| PodTracking.NetworkIsNamed | pkg/controllers/pod.go:268-279 | The network looked up for a status is the namespace and name around one slash, without space around the namespace, and otherwise the whole name in the pod's own namespace |
| PodTracking.PodChangeTracker.NewPodInfo | pkg/controllers/pod.go:225-316 | The lookups and loops compute the entry of the pod, with its name, namespace and labels and exactly those interfaces, by the plugins of the definitions delivered last |
| PodTracking.PodChangeTracker.Update | pkg/controllers/pod.go:342-369 | Merges a pod event into the pending change of its key and drops a pair that cancels out, both entries made with the plugins of the moment |
| PodTracking.SameEntryIffSamePlugins | pkg/controllers/pod.go:262-300 | A pod's entry is the same under two states of the definitions exactly when both give each of its statuses the same supported plugin |
| PodTracking.PodFeedUnderSameView | pkg/controllers/pod.go:342-369 | While lookups answer the same, every feed of pods is tracked without loss: the map becomes the entries of the pods delivered last |
| PodTracking.RedeliveryIsLostIffPluginsChanged | pkg/controllers/pod.go:342-369 | An unchanged pod delivered again is lost exactly when lookups now name another supported plugin for one of its statuses with a device |
| PodTracking.RedeliveredPodIsLost | pkg/controllers/pod.go:342-369 | A pod delivered before its network's definition, and again after it, keeps an entry without interface |
| PodTracking.InStepIffPluginsKept | pkg/controllers/pod.go:342-369 | When lookups change, tracked pods stay in step with their entries exactly when the change concerns none of their statuses |
| SyncPasses.SyncServer.OnPodEvent | pkg/server/server.go:340-362 | Under any network definitions, a pod event makes the entry to be applied the current one, unless its pair cancels out, and keeps entries current that were |
| SyncPasses.SyncServer.OnNetDefEvent | pkg/server/server.go:415-437 | Any event on a definition leaves the entries of pods as they are, and current exactly when it names no other plugin for a delivered pod |
| SyncPasses.SyncServer.SyncMultiPolicy | pkg/server/server.go:499-584 | After any events since the last pass, every rule set that a pass over the chosen pods installs enforces the policies and namespaces delivered last and the entries of pods; these are the entries of the pods delivered last while they are current |
| Startup.StartupSafety | pkg/server/server.go:365-495 | In all interleavings: the channel is closed at most once and after three reports; the pod report implies all four; initialized means all synced; no pass before that unless shutting down |
| Startup.CancelledServerMayRunAPass | pkg/server/server.go:185-194 | The loop is entered when the context ends, initialized or not |
| Startup.Server.OnPolicySynced | pkg/server/server.go:399-413 | The report's step of the state machine, without closing a closed channel |
| Startup.Server.OnNetDefSynced | pkg/server/server.go:440-454 | The report's step of the state machine, without closing a closed channel |
| Startup.Server.OnNamespaceSynced | pkg/server/server.go:481-495 | The report's step of the state machine, without closing a closed channel |
| Startup.Server.OnPodSynced | pkg/server/server.go:365-372 | The report's step of the state machine, after which the server is initialized |
| MajorMinor.ParentRoundTrip | pkg/tc/types/chain.go:41-53 | Every 32-bit parent is read back from its printed form |
| MajorMinor.ParseTwoHalves | pkg/tc/driver/cmdline/tc_cmdline.go:233-257 | Two halves are read as their low sixteen bits each |
| MajorMinor.CombineBits | pkg/tc/driver/cmdline/tc_cmdline.go:251 | In the number made of two halves, bits 0 to 15 are the minor number's and bits 16 to 31 the major number's lower ones, as masking, shifting and joining does |
| MajorMinor.ParseNumber | pkg/tc/driver/cmdline/tc_cmdline.go:236-239 | A number alone is read as it stands |
| MajorMinor.ParseMajorOnly | pkg/tc/driver/cmdline/tc_cmdline.go:240-253 | A number before a bare colon is read as it stands |
| MajorMinor.TooManyParts | pkg/tc/driver/cmdline/tc_cmdline.go:254-256 | Any text with more than one colon is an error |
| Netlink.FlowerFilterToNl | pkg/tc/driver/netlink/converters.go:183-233 | The message for a filter, with defaults for absent values |
| Netlink.NlToFlowerFilter | pkg/tc/driver/netlink/converters.go:236-274 | The filter for a message; actions of other types are skipped |
| Netlink.NetlinkRoundTrip | pkg/tc/driver/netlink/converters.go:183-274 | Converting there and back gives an Equals-equal filter exactly for filters with a preference, known names, a type key exactly behind a tag and no port zero |
| Deployment.CompiledRoundTrip | pkg/tc/driver/netlink/converters.go:183-274 | All compiled filters survive the conversion exactly when no rule names port zero |
| Net.ParsedIsCanonical | pkg/utils/utils.go:133-147 | A parsed range is canonical unless it was written in IPv4-mapped form |
| CmdLine.GenCmdLineArgs | pkg/tc/types/filter.go:258-272 | The arguments of a filter, in order |
| CmdLine.NumbersAreDecimal | pkg/tc/types/filter.go:83-171 | Numbers are printed in decimal |
| CmdLine.ArgumentsAreRead | pkg/tc/types/filter.go:83-171 | A parser of the argument grammar recovers every printed value of every filter with known names, with or without a preference |
| CmdLine.RangeIsReadBack | pkg/utils/utils.go:126-147 | A range printed, without suffix for a full mask, is read back as itself exactly when it is canonical |
| CmdLine.Build | pkg/tc/driver/cmdline/tc_cmdline.go:144-179 | The filter of a listed record, or the first of its errors |
| CmdLine.BuiltIff | pkg/tc/driver/cmdline/tc_cmdline.go:144-179 | A record is read exactly if it is for flower, its range parses and all its actions are general ones, and each error is for the first of these that fails |
| CmdLine.FilterList | pkg/tc/driver/cmdline/tc_cmdline.go:138-182 | The filters of all records with options, in order, exactly if all of these can be read, or else the error of one that cannot |
| CmdLine.CmdLineRoundTrip | pkg/tc/driver/cmdline/tc_cmdline.go:108-182 | For every filter with known names: printing it and building it from the listed record gives an Equals-equal one exactly when it has a preference, keys and a canonical range |
| CmdLine.PrintedAlike | pkg/tc/types/filter.go:258-272 | Filters that print alike are Equals-equal exactly when both or none have keys and their masks have the same length in bytes |
| CmdLine.PrinterIsInjective | pkg/tc/types/filter.go:258-272 | Filters with keys and canonical ranges that print alike are Equals-equal, with or without a preference |
| Deployment.CompiledIsListedAsAdded | pkg/tc/driver/cmdline/tc_cmdline.go:108-182 | Compiled filters of rules with canonical ranges are listed as they were added |

## Left out

- Ingress policies: the renderer does not implement them, and no field that only concerns them is modelled.
- The policyTypes field of a policy: the renderer does not read it, and the specification does not either.
- The choice of pods on this node: a pass is given the set of its pods.
- Events that arrive during a pass, and with them the repeated draining of pod changes between two pods: a pass is one step.
- Kubernetes informers, clients, event recording and signals: they appear as event streams and callbacks only.
- The tc program, netlink sockets, JSON decoding and the lookup of a pod's device: `Device` and `CmdLine.Listed` stand for them, and records are already decoded.
- Filters of other kinds on a device, which the netlink driver skips and the command line driver refuses to list, and flower filters with keys or types of actions that the driver does not read: all others, also of unknown names, are states of a device.
- Adding filters with names the kernel does not know, or with a type key that contradicts the protocol: the modelled kernel refuses them.
- What the netlink library makes of a sixteen-byte mask on an IPv4 address: the range it denotes is sent.
- Port names per pod: a named port stands for one set of numbers, the same for all addresses.
- White space and letter case beyond ASCII.
- Text forms of addresses: an address text stands for its address, so printing and scanning are inverse; number texts are modelled, but a port text is taken as its number or as unusable.
- Masks with holes: every mask comes from CIDR notation.
- Label selector conversion: a selector is its map of required pairs, or has none.
- The policy-for annotation: a policy's list of networks is given, not read from the annotation's text.
- Fields of a pod entry that the renderer does not read (UID, node name, raw network status).
- Transport protocols of rules other than TCP and UDP: the renderer makes no others.
- Builders of filters, qdiscs and chains: modelled as the values they build, so that sharing between two results of one builder is not captured.
- Locks and the run frequency of syncs: a locked region is one step.
- A change of lookups between the two entries made for one pod event: both are made with the same answers.
- The file writer, rule directories, options and logging.
- Devices.Device.FilterAdd: a kernel without free handles is modelled as a fault, and chains created empty are not.
- Startup.CancelledServerMayRunAPass: whether the runner makes a pass after the context ended is the library's choice, so the model allows it.
