/**
 * The kernel's side of traffic control on one network device, seen through a driver: an ingress qdisc, its chains and
 * its flower filters. Every call may fail without effect. Stored filters carry the handle that the kernel gave them.
 */
module Devices {
  import opened Collections
  import opened Net
  import opened TcTypes
  import opened FilterSets
  import opened Netlink
  import CmdLine
  import opened Kernel
  import opened Drivers
  import opened Classifier

  datatype TCError = Fault | Unsupported | Refused | NoQDisc | Exists | Clashing | NotFound | HandleInUse | NilQDisc

  // ----- the kernel's invariant on its filters -----

  predicate SameId(f: Filter, g: Filter) {
    ChainOf(f) == ChainOf(g) && PrefOf(f) == PrefOf(g) && f.attrs.handle == g.attrs.handle
  }

  /** At one preference of a chain the kernel keeps one protocol and no two filters with the same keys. */
  predicate Clash(f: Filter, g: Filter) {
    ChainOf(f) == ChainOf(g) && PrefOf(f) == PrefOf(g) &&
    (f.attrs.protocol != g.attrs.protocol || WireSpec(f.flower) == WireSpec(g.flower))
  }

  /** Zero leaves the choice of a handle or a preference to the kernel. */
  predicate Given(n: Option<int>) {
    n.Some? && n.value != 0
  }

  /** The form in which the kernel keeps filters: fully addressed, and with masked ranges. */
  predicate IsStored(f: Filter) {
    f.attrs.chain.Some? && Given(f.attrs.handle) && Given(f.attrs.priority) && f.flower == Some(WireSpec(f.flower))
  }

  predicate KernelOK(fs: seq<Filter>) {
    (forall i :: 0 <= i < |fs| ==> IsStored(fs[i])) &&
    forall i, j :: 0 <= i < j < |fs| ==> !SameId(fs[i], fs[j]) && !Clash(fs[i], fs[j])
  }

  /** `Equals` implies equal kernel keys, so a clash is a property of equality classes. */
  lemma ClashRespectsEquals(f: Filter, g: Filter, h: Filter)
    requires Canon(f) == Canon(g)
    ensures Clash(f, h) <==> Clash(g, h)
    ensures Clash(h, f) <==> Clash(h, g)
    ensures Clash(f, g)
  {
    CanonKeepsWire(f);
    CanonKeepsWire(g);
  }

  lemma KernelOKDistinct(fs: seq<Filter>)
    requires KernelOK(fs)
    ensures Distinct(fs)
  {
    forall i, j | 0 <= i < j < |fs|
      ensures Canon(fs[i]) != Canon(fs[j])
    {
      if Canon(fs[i]) == Canon(fs[j]) {
        ClashRespectsEquals(fs[i], fs[j], fs[j]);
      }
    }
  }

  lemma KernelOKSelect(keep: Filter -> bool, fs: seq<Filter>)
    requires KernelOK(fs)
    ensures KernelOK(Select(keep, fs))
  {
    var at := SelectPlaces(keep, fs);
    var r := Select(keep, fs);
    forall i, j | 0 <= i < j < |r|
      ensures !SameId(r[i], r[j]) && !Clash(r[i], r[j])
    {
      assert at[i] < at[j];
    }
  }

  // ----- deletion by attributes -----

  /** Deletion by attributes reaches the filter with that handle, or without a handle all filters at the preference. */
  predicate Addressed(attrs: FilterAttrs, f: Filter) {
    attrs.chain.GetOr(CHAIN_DEFAULT_CHAIN) == ChainOf(f) && attrs.priority.GetOr(0) == PrefOf(f) &&
    attrs.protocol == f.attrs.protocol && (Given(attrs.handle) ==> attrs.handle == f.attrs.handle)
  }

  function NotAddressed(attrs: FilterAttrs): Filter -> bool {
    f => !Addressed(attrs, f)
  }

  function OutsideChain(chain: u32): Filter -> bool {
    f => ChainOf(f) != chain
  }

  /** Deleting a listed filter by its own attributes removes it and nothing else. */
  lemma DeletingListed(fs: seq<Filter>, g: Filter)
    requires KernelOK(fs) && g in fs
    ensures Addressed(g.attrs, g)
    ensures forall f :: f in fs ==> (f in Select(NotAddressed(g.attrs), fs) <==> f != g)
    ensures Keys(Select(NotAddressed(g.attrs), fs)) == Keys(fs) - {Canon(g)}
  {
    SelectMember(NotAddressed(g.attrs), fs);
    SelectKeys(NotAddressed(g.attrs), fs);
    KernelOKDistinct(fs);
    var k :| 0 <= k < |fs| && fs[k] == g;
    forall i | 0 <= i < |fs|
      ensures Addressed(g.attrs, fs[i]) <==> i == k
      ensures Canon(fs[i]) == Canon(g) <==> i == k
    {
      if i < k {
        assert !SameId(fs[i], fs[k]);
      } else if k < i {
        assert !SameId(fs[k], fs[i]);
      }
    }
  }

  // ----- the device -----

  /** The filter that an entry stands for. */
  function Reading(e: Entry): Filter
    requires e.Record? ==> e.c.options.Some? && CmdLine.Built(e.c).Ok?
  {
    match e
    case Message(nl) => FromNl(nl)
    case Record(c) => CmdLine.Built(c).value
  }

  /** The driver reads the entries as these filters, all of a form that it can list. */
  predicate AllRead(d: Driver, entries: seq<Entry>, filters: seq<Filter>) {
    |entries| == |filters| &&
    forall i :: 0 <= i < |entries| ==>
      Reads(d, entries[i], filters[i]) && Faithful(d, filters[i]) && Plain(entries[i])
  }

  lemma ReadingsAre(d: Driver, entries: seq<Entry>, filters: seq<Filter>)
    requires AllRead(d, entries, filters)
    ensures forall i :: 0 <= i < |entries| ==>
              (entries[i].Record? ==> entries[i].c.options.Some? && CmdLine.Built(entries[i].c).Ok?) &&
              Reading(entries[i]) == filters[i]
  {
    forall i | 0 <= i < |entries|
      ensures (entries[i].Record? ==> entries[i].c.options.Some? && CmdLine.Built(entries[i].c).Ok?) &&
              Reading(entries[i]) == filters[i]
    {
      assert Reads(d, entries[i], filters[i]);
    }
  }

  /** `g` is what the kernel keeps when `f` is added. */
  predicate Installs(d: Driver, f: Filter, g: Filter) {
    Accepted(d, f) && Given(g.attrs.handle) && Given(g.attrs.priority) &&
    (Given(f.attrs.priority) ==> g.attrs.priority == f.attrs.priority) &&
    g == Stored(Sent(d, f), g.attrs.priority.value, g.attrs.handle.value)
  }

  class Device {
    var ingress: bool
    const others: seq<QDiscType>     // qdiscs of other types
    const driver: Driver
    var chains: set<u32>
    var entries: seq<Entry>
    ghost var filters: seq<Filter>       // the entries as the driver reads them
    ghost var history: seq<seq<Filter>>  // the filters after each call that changed something

    ghost predicate Valid()
      reads this
    {
      AllRead(driver, entries, filters) && KernelOK(filters) &&
      QDiscIngress !in others &&
      (!ingress ==> filters == [] && chains == {}) &&
      forall i :: 0 <= i < |filters| ==> ChainOf(filters[i]) in chains
    }

    /** The entries in the kernel's own numbers. */
    ghost function InKernel(): seq<KernelFilter>
      reads this
    {
      if AllPlain(entries) then KernelFilters(entries) else []
    }

    /** The verdicts that the kernel may give. */
    ghost predicate Gives(p: Packet, v: Verdict)
      reads this
    {
      KernelMayGive(InKernel(), p, v)
    }

    /** If all names are known, these are the verdicts that the filters give. */
    lemma GivesAsRead()
      requires Valid() && AllNamed(filters)
      ensures forall p, v :: Gives(p, v) <==> MayGive(filters, p, v)
    {
      forall p, v
        ensures Gives(p, v) <==> MayGive(filters, p, v)
      {
        KernelGivesAsRead(driver, entries, filters, p, v);
      }
    }

    constructor (driver: Driver, others: seq<QDiscType>)
      requires QDiscIngress !in others
      ensures Valid() && !ingress && filters == [] && this.driver == driver && this.others == others
    {
      this.driver := driver;
      this.others := others;
      ingress, chains, entries, filters, history := false, {}, [], [], [];
    }

    method QDiscList() returns (r: Result<seq<QDiscType>, TCError>)
      requires Valid()
      ensures r.Ok? ==> (QDiscIngress in r.value <==> ingress)
      ensures r.Err? ==> r.error == Fault
    {
      var fault: bool := *;
      if fault {
        return Err(Fault);
      }
      return Ok(others + if ingress then [QDiscIngress] else []);
    }

    method QDiscAdd(qdisc: QDiscType) returns (err: Option<TCError>)
      requires Valid()
      modifies this
      ensures Valid()
      ensures err == None ==> !old(ingress) && ingress && filters == [] && history == old(history) + [[]]
      ensures err != None ==> ingress == old(ingress) && filters == old(filters) && history == old(history)
      ensures err == Some(Exists) ==> old(ingress)
      ensures err == Some(Unsupported) ==> qdisc != QDiscIngress
      ensures err.Some? ==> err.value in {Fault, Unsupported, Exists}
      ensures chains == old(chains)
    {
      var fault: bool := *;
      if fault {
        return Some(Fault);
      } else if qdisc != QDiscIngress {
        return Some(Unsupported);
      } else if ingress {
        return Some(Exists);
      }
      ingress := true;
      history := history + [[]];
      return None;
    }

    /** Deleting the ingress qdisc takes its chains and filters along. */
    method QDiscDel(qdisc: QDiscType) returns (err: Option<TCError>)
      requires Valid()
      modifies this
      ensures Valid()
      ensures err == None ==> !ingress && filters == [] && chains == {} && history == old(history) + [[]]
      ensures err != None ==>
                ingress == old(ingress) && filters == old(filters) && chains == old(chains) && history == old(history)
      ensures err.Some? ==> err.value in {Fault, Unsupported, NotFound}
      ensures err == Some(Unsupported) ==> qdisc != QDiscIngress
      ensures err == Some(NotFound) ==> !old(ingress)
    {
      var fault: bool := *;
      if fault {
        return Some(Fault);
      } else if qdisc != QDiscIngress {
        return Some(Unsupported);
      } else if !ingress {
        return Some(NotFound);
      }
      ingress, chains, entries, filters := false, {}, [], [];
      history := history + [[]];
      return None;
    }

    method ChainList(qdisc: QDiscType) returns (r: Result<seq<u32>, TCError>)
      requires Valid()
      ensures r.Ok? ==> forall c :: c in r.value <==> c in chains
      ensures r.Err? && qdisc == QDiscIngress ==> r.error == Fault
    {
      var fault: bool := *;
      if fault {
        return Err(Fault);
      } else if qdisc != QDiscIngress {
        return Err(Unsupported);
      }
      var list: seq<u32> := [];
      var rest := chains;
      while rest != {}
        invariant rest <= chains
        invariant forall c :: c in list <==> c in chains - rest
        decreases |rest|
      {
        var c :| c in rest;
        list := list + [c];
        rest := rest - {c};
      }
      return Ok(list);
    }

    method ChainDel(qdisc: QDiscType, chain: u32) returns (err: Option<TCError>)
      requires Valid()
      modifies this
      ensures Valid()
      ensures ingress == old(ingress)
      ensures err == None ==>
                filters == Select(OutsideChain(chain), old(filters)) && history == old(history) + [filters]
      ensures err != None ==> filters == old(filters) && history == old(history)
      ensures chains == if err == None then old(chains) - {chain} else old(chains)
      ensures err.Some? ==> err.value in {Fault, Unsupported, NotFound}
      ensures err == Some(Unsupported) ==> qdisc != QDiscIngress
      ensures err == Some(NotFound) ==> chain !in old(chains)
    {
      var fault: bool := *;
      if fault {
        return Some(Fault);
      } else if qdisc != QDiscIngress {
        return Some(Unsupported);
      } else if chain !in chains {
        return Some(NotFound);
      }
      Keep(OutsideChain(chain), chains - {chain});
      return None;
    }

    /** Keeps the filters that satisfy `keep`. */
    method Retain(keep: Filter -> bool)
      requires AllRead(driver, entries, filters) && KernelOK(filters)
      modifies this`entries, this`filters
      ensures AllRead(driver, entries, filters) && KernelOK(filters)
      ensures filters == Select(keep, old(filters))
      ensures forall f :: f in filters <==> f in old(filters) && keep(f)
    {
      KernelOKSelect(keep, filters);
      SelectMember(keep, filters);
      ghost var was := filters;
      var all := entries;
      ReadingsAre(driver, all, was);
      entries, filters := [], [];
      for i := 0 to |all|
        invariant filters == Select(keep, was[..i])
        invariant AllRead(driver, entries, filters)
      {
        SelectStep(keep, was, i);
        if keep(Reading(all[i])) {
          entries := entries + [all[i]];
          filters := filters + [was[i]];
        }
      }
      SelectAll(keep, was);
    }

    method Keep(keep: Filter -> bool, chains: set<u32>)
      requires Valid() && ingress && forall f :: f in filters && keep(f) ==> ChainOf(f) in chains
      modifies this
      ensures Valid() && ingress
      ensures this.chains == chains && filters == Select(keep, old(filters)) && history == old(history) + [filters]
    {
      Retain(keep);
      this.chains := chains;
      history := history + [filters];
    }

    method Append(entry: Entry, ghost g: Filter)
      requires Valid() && ingress && Reads(driver, entry, g) && Faithful(driver, g) && Plain(entry) && IsStored(g)
      requires forall i :: 0 <= i < |filters| ==> !SameId(filters[i], g) && !Clash(filters[i], g)
      modifies this
      ensures Valid() && ingress && filters == old(filters) + [g] && history == old(history) + [filters]
      ensures chains == old(chains) + {ChainOf(g)}
    {
      entries := entries + [entry];
      filters := filters + [g];
      chains := chains + {ChainOf(Reading(entry))};
      history := history + [filters];
    }

    method FilterList(qdisc: QDiscType) returns (r: Result<seq<Filter>, TCError>)
      requires Valid()
      ensures r.Ok? ==> r.value == filters && qdisc == QDiscIngress
      ensures r.Err? && qdisc == QDiscIngress ==> r.error == Fault
    {
      var fault: bool := *;
      if fault {
        return Err(Fault);
      } else if qdisc != QDiscIngress {
        return Err(Unsupported);
      }
      if driver == NetlinkDriver {
        var list := ListMessages();
        return Ok(list);
      }
      var list := ListRecords();
      return Ok(list);
    }

    method ListMessages() returns (list: seq<Filter>)
      requires AllRead(driver, entries, filters) && driver == NetlinkDriver
      ensures list == filters
    {
      list := [];
      for i := 0 to |entries|
        invariant list == filters[..i]
      {
        assert Reads(driver, entries[i], filters[i]);
        var f := NlToFlowerFilter(entries[i].nl);
        list := list + [f];
      }
    }

    method ListRecords() returns (list: seq<Filter>)
      requires AllRead(driver, entries, filters) && driver == CmdLineDriver
      ensures list == filters
    {
      var records: seq<CmdLine.CFilter> := [];
      for i := 0 to |entries|
        invariant |records| == i
        invariant forall k :: 0 <= k < i ==> records[k].options.Some? && CmdLine.Built(records[k]) == Ok(filters[k])
      {
        assert Reads(driver, entries[i], filters[i]);
        records := records + [entries[i].c];
      }
      var r := CmdLine.FilterList(records);
      SelectEverything(CmdLine.HasOptions(), records);
      NoRecordFails(records, filters, r);
      list := r.value;
    }

    static lemma NoRecordFails(records: seq<CmdLine.CFilter>, filters: seq<Filter>,
                               r: Result<seq<Filter>, CmdLine.ListError>)
      requires |records| == |filters|
      requires forall k :: 0 <= k < |records| ==>
        records[k].options.Some? && CmdLine.Built(records[k]) == Ok(filters[k])
      requires r.Ok? ==> CmdLine.AllBuilt(records, r.value)
      requires r.Err? ==> exists c :: c in records && c.options.Some? && CmdLine.Built(c) == Err(r.error)
      ensures r == Ok(filters)
    {
      if r.Ok? {
        forall k | 0 <= k < |filters|
          ensures r.value[k] == filters[k]
        {
          assert CmdLine.Built(records[k]) == Ok(r.value[k]);
        }
        assert r.value == filters;
      }
    }

    /** Passes a filter to the kernel, which refuses it or makes an entry of it. */
    method Ask(f: Filter, pref: u16, handle: u32) returns (entry: Option<Entry>)
      ensures (entry.Some? <==> Accepted(driver, f)) && (entry.Some? ==> Plain(entry.value))
      ensures entry.Some? ==>
                Reads(driver, entry.value,
                      Stored(Sent(driver, f), Chosen(f.attrs.priority, pref), Chosen(f.attrs.handle, handle)))
    {
      if driver == NetlinkDriver {
        if f.attrs.kind != KindFlower {
          return None;
        }
        var nl := FlowerFilterToNl(f);
        if !Coded(nl) {
          return None;
        }
        var keptPref, keptHandle := Chosen(Some(nl.priority), pref), Chosen(Some(nl.handle), handle);
        CompletedIsStored(nl, keptPref, keptHandle);
        return Some(Message(Completed(nl, keptPref, keptHandle)));
      }
      if !Named(f) {  // names that tc or the driver does not know
        return None;
      }
      var args := CmdLine.GenCmdLineArgs(f);
      CmdLine.ArgumentsAreRead(f, pref, handle);
      CmdLine.RecordBuilds(f, pref, handle);
      RecordIsPlain(f, pref, handle);
      return Some(Record(CmdLine.Listed(args, pref, handle).value));
    }

    /** Whether a stored filter has the identity of `g`, and whether one excludes it. */
    method Compare(g: Filter) returns (sameId: bool, clash: bool)
      requires AllRead(driver, entries, filters)
      ensures sameId <==> exists i :: 0 <= i < |filters| && SameId(filters[i], g)
      ensures clash <==> exists i :: 0 <= i < |filters| && Clash(filters[i], g)
    {
      ReadingsAre(driver, entries, filters);
      sameId := exists i :: 0 <= i < |entries| && SameId(Reading(entries[i]), g);
      clash := exists i :: 0 <= i < |entries| && Clash(Reading(entries[i]), g);
    }

    method Finds(attrs: FilterAttrs) returns (b: bool)
      requires AllRead(driver, entries, filters)
      ensures b <==> exists i :: 0 <= i < |filters| && Addressed(attrs, filters[i])
    {
      ReadingsAre(driver, entries, filters);
      b := exists i :: 0 <= i < |entries| && Addressed(attrs, Reading(entries[i]));
    }

    /** Stores the filter that the driver asks for under a handle of its own, unless a stored filter clashes with it. */
    method FilterAdd(qdisc: QDiscType, f: Filter) returns (err: Option<TCError>)
      requires Valid()
      modifies this
      ensures Valid() && ingress == old(ingress)
      ensures err != None ==> filters == old(filters) && history == old(history)
      ensures err == None ==> history == old(history) + [filters]
      ensures chains == if err == None then old(chains) + {ChainOf(Sent(driver, f))} else old(chains)
      ensures err == None ==> |filters| == |old(filters)| + 1 && filters[..|old(filters)|] == old(filters)
      ensures err == None ==> Installs(driver, f, filters[|old(filters)|])
      ensures err == Some(Clashing) && Given(f.attrs.priority) ==>
                exists i :: 0 <= i < |old(filters)| && Clash(old(filters)[i], Sent(driver, f))
      ensures err == Some(HandleInUse) ==> f.attrs.handle.Some?
      ensures err == Some(Refused) ==> !Accepted(driver, f)
      ensures err == Some(NoQDisc) ==> !old(ingress)
      ensures err == Some(Unsupported) ==> qdisc != QDiscIngress
      ensures err.Some? ==> err.value in {Fault, Unsupported, Refused, NoQDisc, Clashing, HandleInUse}
    {
      var fault: bool := *;
      if fault {
        return Some(Fault);
      } else if qdisc != QDiscIngress {
        return Some(Unsupported);
      } else if !ingress {
        return Some(NoQDisc);
      }
      // the kernel picks the preference and the handle that the filter leaves open
      var pref: u16, handle: u32 := *, *;
      if pref == 0 || handle == 0 {
        return Some(Fault);
      }
      var entry := Ask(f, pref, handle);
      if entry == None {
        return Some(Refused);
      }
      ghost var asked := Sent(driver, f);
      var g := Reading(entry.value);
      StoredKeepsWire(asked, g.attrs.priority.value, g.attrs.handle.value);
      var sameId, clash := Compare(g);
      if sameId {
        return Some(if f.attrs.handle != None then HandleInUse else Fault);
      }
      if clash {
        return Some(Clashing);
      }
      StoredIsFaithful(driver, f, g.attrs.priority.value, g.attrs.handle.value);
      Append(entry.value, g);
      return None;
    }

    method FilterDel(qdisc: QDiscType, attrs: FilterAttrs) returns (err: Option<TCError>)
      requires Valid()
      modifies this
      ensures Valid() && ingress == old(ingress)
      ensures err != None ==> filters == old(filters) && history == old(history)
      ensures err == None ==>
                filters == Select(NotAddressed(attrs), old(filters)) && history == old(history) + [filters]
      ensures chains == old(chains)
      ensures err == Some(NotFound) ==> forall f :: f in old(filters) ==> !Addressed(attrs, f)
      ensures err == Some(Unsupported) ==> qdisc != QDiscIngress || attrs.kind != KindFlower
      ensures err == Some(NoQDisc) ==> !old(ingress)
      ensures err.Some? ==> err.value in {Fault, Unsupported, NoQDisc, NotFound}
    {
      var fault: bool := *;
      if fault {
        return Some(Fault);
      } else if qdisc != QDiscIngress || attrs.kind != KindFlower {
        return Some(Unsupported);
      } else if !ingress {
        return Some(NoQDisc);
      }
      var found := Finds(attrs);
      if !found {
        return Some(NotFound);
      }
      Keep(NotAddressed(attrs), chains);
      return None;
    }
  }
}
